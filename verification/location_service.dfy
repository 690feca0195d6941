/** The status decision of `Resolve` in `pkg/service/location.go`: which
    HTTP status a request gets, whether the store is consulted, and what
    location the 200 response carries. Headers, logging and the JSON text
    itself are not modelled; only whether marshalling succeeds. */
module LocationService {
  import opened Wrappers
  import opened Model
  import Validators

  const StatusOK := 200
  const StatusBadRequest := 400
  const StatusNotFound := 404
  const StatusMethodNotAllowed := 405
  const StatusInternalServerError := 500

  /** The store's `Get`, as seen by the handler for one request. */
  type Lookup = string -> Result<Location, Error>

  /** A response: its status, the location marshalled into the body of a
      200, and whether the store was consulted. */
  datatype Response = Response(status: int, body: Option<Location>, queried: bool)

  predicate MethodAllowed(verb: string)
  {
    verb == "GET" || verb == "OPTIONS"
  }

  /** `json.MarshalIndent` of a location fails exactly when one of its
      floats is NaN or infinite; the text fields always marshal. */
  predicate Marshals(l: Location)
  {
    IsFinite(l.latitude) && IsFinite(l.longitude)
  }

  /** `Resolve`: 405 for a method other than GET and OPTIONS; 400 for an
      `ip` query parameter `IsIPValid` rejects; otherwise the store is asked,
      and its `NotFound` becomes 404, any other error 500. A found row is
      answered with the QUERIED address in `ip_address` and the row's other
      fields, or 500 when it cannot be marshalled. */
  function Resolve(verb: string, ip: string, lookup: Lookup): (r: Response)
    ensures r.status in {StatusOK, StatusBadRequest, StatusNotFound, StatusMethodNotAllowed, StatusInternalServerError}
    ensures r.status == StatusMethodNotAllowed <==> !MethodAllowed(verb)
    ensures r.status == StatusBadRequest <==> MethodAllowed(verb) && !Validators.IsIPValid(ip).valid
    ensures r.queried <==> MethodAllowed(verb) && Validators.IsIPValid(ip).valid
    ensures r.status == StatusNotFound <==> r.queried && lookup(ip) == Failure(NotFound)
    ensures r.status == StatusOK <==> r.queried && lookup(ip).Success? && Marshals(lookup(ip).value)
    ensures r.status == StatusInternalServerError <==>
      r.queried && (lookup(ip).Success? ==> !Marshals(lookup(ip).value)) && lookup(ip) != Failure(NotFound)
    ensures r.body.Some? <==> r.status == StatusOK
    ensures r.status == StatusOK ==> r.body.value == lookup(ip).value.(ipAddress := ip)
  {
    if !MethodAllowed(verb) then Response(StatusMethodNotAllowed, None, false)
    else if !Validators.IsIPValid(ip).valid then Response(StatusBadRequest, None, false)
    else
      match lookup(ip)
      case Failure(e) =>
        if e == NotFound then Response(StatusNotFound, None, true)
        else Response(StatusInternalServerError, None, true)
      case Success(row) =>
        var answer := row.(ipAddress := ip);
        if Marshals(answer) then Response(StatusOK, Some(answer), true)
        else Response(StatusInternalServerError, None, true)
  }

  /** The database backend interpolates the address into its query between
      single quotes; `Resolve` only ever hands it an address without a
      quote, so the query cannot be broken out of. */
  lemma QueriedAddressHasNoQuote(verb: string, ip: string, lookup: Lookup)
    requires Resolve(verb, ip, lookup).queried
    ensures forall k :: 0 <= k < |ip| ==> ip[k] != '\''
  {
    Validators.ValidIPCharset(ip);
  }

  /** The answer does not depend on what the store puts in `ip_address`:
      two stores that agree on every other field get the same response. */
  lemma AnswerIgnoresStoredAddress(verb: string, ip: string, a: Lookup, b: Lookup)
    requires forall q :: a(q).Failure? <==> b(q).Failure?
    requires forall q :: a(q).Failure? ==> a(q) == b(q)
    requires forall q :: a(q).Success? ==> a(q).value.(ipAddress := "") == b(q).value.(ipAddress := "")
    ensures Resolve(verb, ip, a) == Resolve(verb, ip, b)
  {
    if MethodAllowed(verb) && Validators.IsIPValid(ip).valid && a(ip).Success? {
      assert a(ip).value.(ipAddress := ip) == a(ip).value.(ipAddress := "").(ipAddress := ip);
      assert b(ip).value.(ipAddress := ip) == b(ip).value.(ipAddress := "").(ipAddress := ip);
    }
  }
}
