/**
 * Byte-level helpers shared by the JSON reader, the writer, the frame codec and the
 * stub generator. A `char` of the model stands for one byte of the original program.
 */
module Ascii {

  /** The byte at position `i`, or NUL past the end: what the read streams' `peek` return. */
  function CharAt(s: string, i: nat): char {
    if i < |s| then s[i] else '\0'
  }

  /** `word` occurs in `s` at position `i`. */
  predicate MatchesAt(s: string, i: nat, word: string) {
    i + |word| <= |s| && forall k :: 0 <= k < |word| ==> s[i + k] == word[k]
  }

  /** `MatchesAt` is a comparison of `word` with the slice of `s` at `i`. */
  lemma {:induction false} MatchesAtSlice(s: string, i: nat, word: string)
    ensures MatchesAt(s, i, word) <==> i + |word| <= |s| && s[i..i + |word|] == word
    decreases |word|
  {
    if word != [] {
      MatchesAtSlice(s, i + 1, word[1..]);
      if i + |word| <= |s| {
        var w := s[i..i + |word|];
        assert w[0] == s[i] && w[1..] == s[i + 1..i + 1 + |word[1..]|];
        assert w == word <==> w[0] == word[0] && w[1..] == word[1..];
      }
    }
  }

  predicate IsDigit(c: char) { '0' <= c <= '9' }

  predicate IsDigit19(c: char) { '1' <= c <= '9' }

  /** The four whitespace bytes the reader skips. */
  predicate IsWhitespace(c: char) { c == ' ' || c == '\t' || c == '\r' || c == '\n' }

  const Backspace: char := 8 as char
  const FormFeed: char := 12 as char

  /** The control bytes 0x01-0x1F, which may not appear raw inside a string. */
  predicate IsControl(c: char) { 1 <= c as int < 0x20 }

  predicate IsHexDigit(c: char) { '0' <= c <= '9' || 'a' <= c <= 'f' || 'A' <= c <= 'F' }

  function HexValue(c: char): (d: nat)
    requires IsHexDigit(c)
    ensures d < 16
  {
    if '0' <= c <= '9' then c as int - '0' as int
    else if 'a' <= c <= 'f' then c as int - 'a' as int + 10
    else c as int - 'A' as int + 10
  }

  function Pow16(n: nat): nat {
    if n == 0 then 1 else 16 * Pow16(n - 1)
  }

  /** The value of a run of hex digits, most significant first. */
  function HexRunValue(t: string): (r: nat)
    requires forall i :: 0 <= i < |t| ==> IsHexDigit(t[i])
    ensures r < Pow16(|t|)
  {
    if t == [] then 0 else HexRunValue(t[..|t| - 1]) * 16 + HexValue(t[|t| - 1])
  }

  predicate AllDigits(s: string) {
    forall i :: 0 <= i < |s| ==> IsDigit(s[i])
  }

  function DigitChar(d: nat): (c: char)
    requires d < 10
    ensures IsDigit(c) && c as int - '0' as int == d
  {
    ('0' as int + d) as char
  }

  /** The value of a run of decimal digits, most significant first. */
  function DigitsValue(s: string): nat
    requires AllDigits(s)
  {
    if s == [] then 0 else DigitsValue(s[..|s| - 1]) * 10 + (s[|s| - 1] as int - '0' as int)
  }

  /** Decimal text of a natural number, without leading zeros. */
  function NatText(n: nat): (t: string)
    ensures AllDigits(t) && |t| >= 1
  {
    if n < 10 then [DigitChar(n)] else NatText(n / 10) + [DigitChar(n % 10)]
  }

  /** Decimal text of an integer: what `std::to_string` and the writer's `itoa` produce. */
  function Dec(n: int): (t: string)
  {
    if n < 0 then "-" + NatText(-n) else NatText(n)
  }

  /** The digits of `NatText(n)` read back give `n`, and only zero begins with '0'. */
  lemma {:induction false} NatTextValue(n: nat)
    ensures DigitsValue(NatText(n)) == n
    ensures NatText(n)[0] == '0' <==> n == 0
    ensures n == 0 ==> NatText(n) == "0"
    decreases n
  {
    if n >= 10 {
      NatTextValue(n / 10);
      var t := NatText(n);
      assert t[..|t| - 1] == NatText(n / 10);
      assert t[0] == NatText(n / 10)[0];
    }
  }

  /** The text of a positive number starts with a digit 1-9 and is all digits. */
  lemma PositiveText(n: nat)
    requires n > 0
    ensures IsDigit19(NatText(n)[0]) && AllDigits(NatText(n))
  {
    NatTextValue(n);
  }

  predicate HasNoChar(s: string, c: char) {
    forall i :: 0 <= i < |s| ==> s[i] != c
  }
}
