/** What several modules use. */
module Common {
  predicate NoRepeats(l: seq<nat>) { forall i, j :: 0 <= i < j < |l| ==> l[i] != l[j] }

  function HexDigit(d: nat): char
    requires d < 16
  {
    if d < 10 then (d + '0' as int) as char else (d - 10 + 'a' as int) as char
  }

  /** A hexadecimal digit, in either letter case. */
  predicate IsHexFor(c: char, d: nat)
    requires d < 16
  {
    c == "0123456789abcdef"[d] || c == "0123456789ABCDEF"[d]
  }

  predicate IsDecimalFor(c: char, d: nat)
    requires d < 10
  {
    c == "0123456789"[d]
  }

  /** The text is a number in decimal, leading zeros allowed. */
  predicate SpellsDecimal(text: string, n: nat) {
    if |text| == 0 then false
    else if |text| == 1 then n < 10 && IsDecimalFor(text[0], n)
    else SpellsDecimal(text[..|text| - 1], n / 10) && IsDecimalFor(text[|text| - 1], n % 10)
  }

  /** The text is a number in hexadecimal, leading zeros and both letter cases allowed. */
  predicate SpellsHex(text: string, n: nat) {
    if |text| == 0 then false
    else if |text| == 1 then n < 16 && IsHexFor(text[0], n)
    else SpellsHex(text[..|text| - 1], n / 16) && IsHexFor(text[|text| - 1], n % 16)
  }

  lemma Associate<T>(a: seq<T>, b: seq<T>, c: seq<T>)
    ensures a + (b + c) == a + b + c
  {
  }
}
