/** Failure-carrying wrappers shared by every service model, and the ASCII case
    mapping the source uses for currency codes (PHP strtoupper/strtolower). */
module Base {

  /** A value that may be absent (PHP null). */
  datatype Option<+T> = None | Some(value: T) {
    function GetOr(default: T): T {
      match this
      case Some(v) => v
      case None => default
    }
  }

  /** The exceptions the services throw; each one aborts the whole call. */
  datatype Error =
    | NotFound              // findOrFail, or a relation that resolves to null
    | PaymentAlreadyPaid    // "Payment is already marked as paid"
    | PaymentAlreadyUnpaid  // "Payment is already marked as unpaid"
    | SameAccount           // "Cannot transfer to the same account"
    | RateUnavailable       // "Unable to fetch exchange rate"
    | InvalidOperation      // "Invalid operation: ..."
    | DuplicateDueDate      // the unique (recurring_payment_id, due_date) index rejects an insert

  /** The outcome of a service call: a value, or an exception and no writes. */
  datatype Result<+T> = Ok(value: T) | Err(error: Error)

  predicate IsUpperAscii(c: char) { 'A' <= c <= 'Z' }
  predicate IsLowerAscii(c: char) { 'a' <= c <= 'z' }
  predicate IsDigitAscii(c: char) { '0' <= c <= '9' }

  function ToUpperChar(c: char): (r: char)
    ensures !IsLowerAscii(r)
    ensures IsLowerAscii(c) ==> IsUpperAscii(r) && r as int == c as int - 32
    ensures !IsLowerAscii(c) ==> r == c
  {
    if IsLowerAscii(c) then (c as int - 32) as char else c
  }

  function ToLowerChar(c: char): (r: char)
    ensures !IsUpperAscii(r)
    ensures IsUpperAscii(c) ==> IsLowerAscii(r) && r as int == c as int + 32
    ensures !IsUpperAscii(c) ==> r == c
  {
    if IsUpperAscii(c) then (c as int + 32) as char else c
  }

  /** strtoupper: ASCII letters only, length preserved. */
  function Upper(s: string): (r: string)
    ensures |r| == |s|
    ensures forall i :: 0 <= i < |s| ==> r[i] == ToUpperChar(s[i])
  {
    if s == [] then [] else [ToUpperChar(s[0])] + Upper(s[1..])
  }

  /** strtolower: ASCII letters only, length preserved. */
  function Lower(s: string): (r: string)
    ensures |r| == |s|
    ensures forall i :: 0 <= i < |s| ==> r[i] == ToLowerChar(s[i])
  {
    if s == [] then [] else [ToLowerChar(s[0])] + Lower(s[1..])
  }

  /** Upper-casing twice is upper-casing once. */
  lemma UpperIdempotent(s: string)
    ensures Upper(Upper(s)) == Upper(s)
  {
  }
}
