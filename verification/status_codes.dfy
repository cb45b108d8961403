/** The three status-code predicates the interceptor classifies HTTP outcomes
    with. They take the status as the integer value of the `HttpStatusCode`
    enum, are defined for every integer, and never fail. */
module HttpStatusCodes {

  /** A success status: exactly the 2xx class. */
  predicate IsSuccessStatusCode(code: int)
    ensures IsSuccessStatusCode(code) <==> code / 100 == 2
  {
    200 <= code && code <= 299
  }

  /** A server fault: exactly the 5xx class, so never a success. */
  predicate IsFault(code: int)
    ensures IsFault(code) <==> code / 100 == 5
    ensures IsFault(code) ==> !IsSuccessStatusCode(code)
  {
    500 <= code && code <= 599
  }

  /** "Too many requests": the one status 429, which is neither a success nor a fault. */
  predicate IsTooManyRequests(code: int)
    ensures IsTooManyRequests(code) ==> !IsSuccessStatusCode(code) && !IsFault(code)
    ensures IsTooManyRequests(code) ==> code / 100 == 4
  {
    code == 429
  }
}
