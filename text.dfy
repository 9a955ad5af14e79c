/** How the crate renders values into error messages and builds wide strings. */
module Text {
  import opened Handles

  function Digit(d: nat): char
    requires d < 10
  {
    "0123456789"[d]
  }

  /** Decimal rendering of a natural number. */
  function NatText(n: nat): string
  {
    if n < 10 then [Digit(n)] else NatText(n / 10) + [Digit(n % 10)]
  }

  /** Rust's `{:?}` of an integer. */
  function IntText(i: int): string
  {
    if i < 0 then "-" + NatText(-i) else NatText(i)
  }

  /** Python's `repr` of a string (quote selection and escaping are not modelled). */
  function PyRepr(s: string): string
  {
    "'" + s + "'"
  }

  /** Rust's `{:?}` of a `&str` (escaping is not modelled). */
  function RustDebug(s: string): string
  {
    "\"" + s + "\""
  }

  /** Every character of `s` fits in one UTF-16 code unit. */
  predicate IsBmp(s: string)
  {
    forall i :: 0 <= i < |s| ==> s[i] as int < 0x1_0000
  }

  /** The `w!` macro: a literal as a wide string. */
  function Wide(s: string): (r: WideString)
    requires IsBmp(s)
    ensures |r| == |s|
    ensures forall i :: 0 <= i < |s| ==> r[i] as int == s[i] as int
  {
    if s == [] then [] else [s[0] as int as u16] + Wide(s[1..])
  }

  /** `Vec::resize(n, 0)`: truncate to `n` units, or pad with zeros up to `n`. */
  function Resize(s: WideString, n: nat): (r: WideString)
    ensures |r| == n
    ensures forall i :: 0 <= i < n ==> r[i] == if i < |s| then s[i] else 0
  {
    if n <= |s| then s[..n] else s + seq(n - |s|, _ => 0)
  }
}
