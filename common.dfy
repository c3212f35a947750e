/** Shared vocabulary of the service: optional values, bytes, instants,
    the JSON response envelope and the two lookups every handler relies on
    (a prefix test and GORM's "first row in primary-key order"). */
module Common {

  datatype Option<+T> = None | Some(value: T)

  /** A byte of a Go string. */
  newtype byte = x: int | 0 <= x < 256

  type Bytes = seq<byte>

  /** A point in time: nanoseconds since 0000-01-01T00:00:00Z (proleptic
      Gregorian calendar, UTC), the resolution of Go's time.Time. */
  type Instant = int

  // HTTP status codes used by the handlers.
  const StatusOK: int := 200
  const StatusCreated: int := 201
  const StatusBadRequest: int := 400
  const StatusUnauthorized: int := 401
  const StatusPaymentRequired: int := 402
  const StatusForbidden: int := 403
  const StatusNotFound: int := 404
  const StatusInternalServerError: int := 500

  /** Bounds of a 64-bit signed integer: Go's `int` on a 64-bit platform,
      and Postgres's `bigint`. */
  const MaxInt: int := 0x7FFF_FFFF_FFFF_FFFF
  const MinInt: int := -0x8000_0000_0000_0000

  /** The envelope `{status, message, data?}` every JSON handler answers
      with, together with the HTTP status code written before it. */
  datatype Response<D> = Response(code: int, status: string, message: string, data: Option<D>)

  function Failure<D>(code: int, message: string): (r: Response<D>)
    ensures r.status == "fail" && r.data.None?
  {
    Response(code, "fail", message, None)
  }

  function Success<D>(code: int, message: string, data: Option<D>): (r: Response<D>)
    ensures r.status == "success"
  {
    Response(code, "success", message, data)
  }

  /** strings.HasPrefix: the prefix matches `s` position by position. */
  predicate HasPrefix<T(==)>(s: seq<T>, prefix: seq<T>)
    ensures HasPrefix(s, prefix) <==> |prefix| <= |s| && forall i | 0 <= i < |prefix| :: s[i] == prefix[i]
  {
    |prefix| <= |s| && s[..|prefix|] == prefix
  }

  /** strings.TrimPrefix: removes one leading copy of `prefix`, if present. */
  function TrimPrefix<T(==)>(s: seq<T>, prefix: seq<T>): (r: seq<T>)
    ensures HasPrefix(s, prefix) ==> prefix + r == s
    ensures !HasPrefix(s, prefix) ==> r == s
  {
    if HasPrefix(s, prefix) then s[|prefix|..] else s
  }

  /** TrimPrefix undoes exactly one concatenation of the prefix. */
  lemma TrimPrefixOfConcat<T>(prefix: seq<T>, rest: seq<T>)
    ensures HasPrefix(prefix + rest, prefix)
    ensures TrimPrefix(prefix + rest, prefix) == rest
  {
    assert (prefix + rest)[..|prefix|] == prefix;
    assert (prefix + rest)[|prefix|..] == rest;
  }

  /** The index of the first row satisfying `p`: the row GORM's `First`
      returns when the rows are listed in primary-key order. */
  function First<T>(rows: seq<T>, p: T -> bool): (r: Option<nat>)
    ensures r.Some? ==> r.value < |rows| && p(rows[r.value])
    ensures r.Some? ==> forall j :: 0 <= j < r.value ==> !p(rows[j])
    ensures r.None? <==> forall j :: 0 <= j < |rows| ==> !p(rows[j])
  {
    if rows == [] then None
    else if p(rows[0]) then Some(0)
    else
      match First(rows[1..], p)
      case None => None
      case Some(i) => Some(i + 1)
  }
}
