/** The records of the geolocation service (`internal/model`) and the
    error values its components return (the sentinels of
    `internal/utils/common.go` plus the errors other code paths produce). */
module Model {
  import opened Wrappers

  /** A 64-bit IEEE-754 value, kept as its bit pattern: the model never
      does floating-point arithmetic, it only carries these values. */
  datatype Float64 = Float64(bits: bv64)

  /** Positive zero, the value Go gives a float64 it has not assigned. */
  const Zero: Float64 := Float64(0)

  /** False for NaN and the infinities: those have every exponent bit set. */
  predicate IsFinite(f: Float64)
  {
    (f.bits >> 52) & 0x7FF != 0x7FF
  }

  /** One geolocation row. `mysteryValue` is held as text: the ingestor only
      ever stores a string there and the database backend reads it back as
      one. */
  datatype Location = Location(
    ipAddress: string,
    countryCode: string,
    country: string,
    city: string,
    latitude: Float64,
    longitude: Float64,
    mysteryValue: string)

  /** The zero value of `model.Location`. */
  const EmptyLocation := Location("", "", "", "", Zero, Zero, "")

  /** Acceptance statistics of one ingestion run (elapsed time left out). */
  datatype Stat = Stat(accepted: nat, discarded: nat)

  datatype Error =
    | InvalidConn                  // utils.ErrInvalidConn: the handle is marked closed
    | NotFound                     // utils.ErrNotFound: no row for the key
    | ContextDone                  // ctx.Err(): the context was cancelled or timed out
    | NilStore                     // Ingest was given no store
    | NilReader                    // Ingest was given no reader
    | InvalidHeader                // the first record is not the expected header
    | ReadFailed(reason: string)   // the CSV reader failed other than at end of input
    | BulkCreateFailed(cause: Error) // Ingest's wrapping of a store failure
    | DriverError(reason: string)  // an error reported by the database engine

  /** The index of the first location in `locations` whose address is `ip`:
      the lookup order of both stores. */
  function FirstWithAddress(locations: seq<Location>, ip: string): (r: Option<nat>)
    ensures r.None? <==> forall j :: 0 <= j < |locations| ==> locations[j].ipAddress != ip
    ensures r.Some? ==> r.value < |locations| && locations[r.value].ipAddress == ip
    ensures r.Some? ==> forall j :: 0 <= j < r.value ==> locations[j].ipAddress != ip
  {
    if |locations| == 0 then None
    else if locations[0].ipAddress == ip then Some(0)
    else
      match FirstWithAddress(locations[1..], ip)
      case None => None
      case Some(i) => Some(i + 1)
  }
}
