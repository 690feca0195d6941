/** The in-memory store of `internal/store/mock/connection.go`: a list of
    locations and a `closed` flag, with each operation a pure transition.
    A context is reduced to whether it is cancelled when the operation
    checks it. */
module MockStore {
  import opened Wrappers
  import opened Model

  datatype Conn = Conn(locations: seq<Location>, closed: bool)

  /** The connection after an operation, and the error it returned. */
  datatype Step = Step(conn: Conn, err: Option<Error>)

  /** `New`: an empty, open store. */
  function New(): (c: Conn)
    ensures c.locations == [] && !c.closed
  {
    Conn([], false)
  }

  /** `Migrate`: nothing to migrate; only the guards can fail. */
  function Migrate(c: Conn, cancelled: bool): (r: Step)
    ensures r.conn == c
    ensures r.err.None? <==> !c.closed && !cancelled
    ensures c.closed ==> r.err == Some(InvalidConn)
    ensures !c.closed && cancelled ==> r.err == Some(ContextDone)
  {
    if c.closed then Step(c, Some(InvalidConn))
    else if cancelled then Step(c, Some(ContextDone))
    else Step(c, None)
  }

  /** `BulkCreate`: on success the list REPLACES the contents; on failure
      the contents are untouched. */
  function BulkCreate(c: Conn, cancelled: bool, locations: seq<Location>): (r: Step)
    ensures r.err.None? <==> !c.closed && !cancelled
    ensures c.closed ==> r.err == Some(InvalidConn)
    ensures !c.closed && cancelled ==> r.err == Some(ContextDone)
    ensures r.err.Some? ==> r.conn == c
    ensures r.err.None? ==> r.conn == Conn(locations, false)
  {
    if c.closed then Step(c, Some(InvalidConn))
    else if cancelled then Step(c, Some(ContextDone))
    else Step(c.(locations := locations), None)
  }

  /** `Get`: the first location in list order whose address is `ip`, or
      `NotFound` when there is none. */
  function Get(c: Conn, cancelled: bool, ip: string): (r: Result<Location, Error>)
    ensures c.closed ==> r == Failure(InvalidConn)
    ensures !c.closed && cancelled ==> r == Failure(ContextDone)
    ensures r == Failure(NotFound) <==>
      !c.closed && !cancelled && forall j :: 0 <= j < |c.locations| ==> c.locations[j].ipAddress != ip
    ensures r.Success? ==>
      exists i :: 0 <= i < |c.locations| && r.value == c.locations[i] && r.value.ipAddress == ip
                  && forall j :: 0 <= j < i ==> c.locations[j].ipAddress != ip
    ensures !c.closed && !cancelled && FirstWithAddress(c.locations, ip).Some? ==>
      r == Success(c.locations[FirstWithAddress(c.locations, ip).value])
    ensures r.Failure? ==> r.error == InvalidConn || r.error == ContextDone || r.error == NotFound
  {
    if c.closed then Failure(InvalidConn)
    else if cancelled then Failure(ContextDone)
    else
      match FirstWithAddress(c.locations, ip)
      case None => Failure(NotFound)
      case Some(i) => Success(c.locations[i])
  }

  /** `Close`: empties the store but never sets `closed`. */
  function Close(c: Conn): (r: Step)
    ensures c.closed ==> r == Step(c, Some(InvalidConn))
    ensures !c.closed ==> r == Step(Conn([], false), None)
  {
    if c.closed then Step(c, Some(InvalidConn))
    else Step(c.(locations := []), None)
  }

  /** One call on the store, with the cancellation state its context has
      when the call checks it. */
  datatype Op =
    | MigrateOp(cancelled: bool)
    | BulkCreateOp(cancelled: bool, locations: seq<Location>)
    | GetOp(cancelled: bool, ip: string)
    | CloseOp

  /** The connection after one call. */
  function Apply(c: Conn, op: Op): Conn
  {
    match op
    case MigrateOp(cancelled) => Migrate(c, cancelled).conn
    case BulkCreateOp(cancelled, locations) => BulkCreate(c, cancelled, locations).conn
    case GetOp(_, _) => c
    case CloseOp => Close(c).conn
  }

  /** The connection after a sequence of calls. */
  function Run(c: Conn, ops: seq<Op>): Conn
    decreases |ops|
  {
    if |ops| == 0 then c else Run(Apply(c, ops[0]), ops[1..])
  }

  /** No sequence of calls changes the `closed` flag. */
  lemma {:induction false} RunKeepsClosed(c: Conn, ops: seq<Op>)
    ensures Run(c, ops).closed == c.closed
    decreases |ops|
  {
    if |ops| > 0 {
      RunKeepsClosed(Apply(c, ops[0]), ops[1..]);
    }
  }

  /** Hence a store made by `New` never reports `InvalidConn`, whatever
      was called on it before. */
  lemma NeverInvalid(ops: seq<Op>, cancelled: bool, ip: string)
    ensures var c := Run(New(), ops);
      && Close(c).err.None?
      && Get(c, cancelled, ip) != Failure(InvalidConn)
      && BulkCreate(c, cancelled, []).err != Some(InvalidConn)
  {
    RunKeepsClosed(New(), ops);
  }

  /** After `Close` the store is empty and still open: a second `Close`
      succeeds, and a lookup finds nothing. */
  lemma CloseThenUse(c: Conn, ip: string)
    requires !c.closed
    ensures Close(Close(c).conn).err.None?
    ensures Get(Close(c).conn, false, ip) == Failure(NotFound)
  {
  }

  /** A later successful `BulkCreate` discards what an earlier one stored:
      a location only in the first list can no longer be found. */
  lemma SecondBulkCreateDiscardsFirst(c: Conn, first: seq<Location>, second: seq<Location>, ip: string)
    requires !c.closed
    requires exists l :: l in first && l.ipAddress == ip
    requires forall l :: l in second ==> l.ipAddress != ip
    ensures var c1 := BulkCreate(c, false, first).conn;
      && Get(c1, false, ip).Success?
      && Get(BulkCreate(c1, false, second).conn, false, ip) == Failure(NotFound)
  {
    var c1 := BulkCreate(c, false, first).conn;
    var l :| l in first && l.ipAddress == ip;
    var i :| 0 <= i < |first| && first[i] == l;
    assert c1.locations[i].ipAddress == ip;
  }
}
