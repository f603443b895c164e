/** Values shared by every part of the model: Go's byte strings, optional
    values, error-carrying results and the body of an HTTP response. */
module GoTypes {

  /** One byte of a Go `string` or `[]byte`, written as the char with the same code. */
  type Byte = c: char | c <= '\U{FF}' witness '\0'

  /** A Go `string` or `[]byte`: Go strings are byte strings, so one type serves both. */
  type Bytes = seq<Byte>

  /** Go's `uint8`, the type of the retry counter. */
  type Uint8 = x: int | 0 <= x < 256

  const CR: Byte := '\r'
  const LF: Byte := '\n'

  datatype Option<+T> = None | Some(value: T)

  /** A Go `(value, error)` pair where exactly one side is meaningful. */
  datatype Result<+T> = Ok(value: T) | Err(error: Bytes)

  /** The error a read from a body reports: `io.EOF` or any other error. */
  datatype ReadError = EOF | Broken(reason: Bytes)

  /** A response body: the bytes it delivers, then the error every further read reports. */
  datatype Body = Body(data: Bytes, end: ReadError)

  /** `strings.HasPrefix`. */
  predicate HasPrefix(s: Bytes, p: Bytes) {
    |p| <= |s| && s[..|p|] == p
  }

  /** `uint8` addition of one, which wraps from 255 to 0. */
  function Inc(r: Uint8): (n: Uint8)
    ensures r < 255 ==> n == r + 1
    ensures r == 255 ==> n == 0
  {
    (r + 1) % 256
  }

  function Digit(d: nat): (c: Byte)
    requires d < 10
    ensures '0' <= c <= '9'
  {
    ('0' as int + d) as char
  }

  /** The decimal digits of a natural number, most significant first. */
  function DecimalDigits(n: nat): (s: Bytes)
    ensures |s| > 0
    ensures forall i :: 0 <= i < |s| ==> '0' <= s[i] <= '9'
    decreases n
  {
    if n < 10 then [Digit(n)] else DecimalDigits(n / 10) + [Digit(n % 10)]
  }

  /** `fmt.Sprint` of an `int`: a minus sign for negative values, then the digits. */
  function Decimal(n: int): (s: Bytes)
    ensures n < 0 <==> (|s| > 0 && s[0] == '-')
  {
    if n < 0 then "-" + DecimalDigits(-n) else DecimalDigits(n)
  }

  /** The value of a string of decimal digits; the inverse of `DecimalDigits`. */
  function DigitsValue(s: Bytes): nat
    requires forall i :: 0 <= i < |s| ==> '0' <= s[i] <= '9'
    decreases |s|
  {
    if s == [] then 0 else 10 * DigitsValue(s[..|s| - 1]) + (s[|s| - 1] as int - '0' as int)
  }

  lemma {:induction false} DecimalDigitsRoundTrip(n: nat)
    ensures DigitsValue(DecimalDigits(n)) == n
    decreases n
  {
    if n >= 10 {
      DecimalDigitsRoundTrip(n / 10);
      var s := DecimalDigits(n);
      assert s[..|s| - 1] == DecimalDigits(n / 10);
    }
  }
}
