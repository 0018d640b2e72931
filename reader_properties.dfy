/**
 * What the reader accepts and rejects, stated about `ReaderSpec` (which `Reader.Parse`
 * follows): a document is one value between whitespace; the number, string and escape
 * rules of the reader, with its own extensions.
 */
module ReaderProperties {
  import opened Ascii
  import opened JsonValue
  import opened ReaderSpec

  /** `s[i..]` holds only the four whitespace bytes. */
  predicate BlankFrom(s: string, i: nat) {
    forall j | i <= j < |s| :: IsWhitespace(s[j])
  }

  /** `SkipWs` reaches the end exactly when only whitespace follows. */
  lemma {:induction false} SkipWsToEnd(s: string, i: nat)
    requires i <= |s|
    ensures SkipWs(s, i) == |s| <==> BlankFrom(s, i)
    decreases |s| - i
  {
    SkipWsSkipsWhitespace(s, i);
    if i < |s| && IsWhitespace(s[i]) {
      SkipWsToEnd(s, i + 1);
    }
  }

  /** An empty or all-whitespace document is missing its value. */
  lemma BlankExpectsValue(s: string)
    requires BlankFrom(s, 0)
    ensures ParseText(s) == Failed(ExpectValue)
  {
    SkipWsToEnd(s, 0);
  }

  /**
   * A document parses exactly when one value is read after the leading whitespace and only
   * whitespace follows it; the value is then the document's value.
   */
  lemma ParseTextSingular(s: string)
    ensures ParseText(s).Parsed? <==>
              PValue(s, SkipWs(s, 0)).Parsed? && BlankFrom(s, PValue(s, SkipWs(s, 0)).pos)
    ensures ParseText(s).Parsed? ==> ParseText(s).value == PValue(s, SkipWs(s, 0)).value
  {
    var r := PValue(s, SkipWs(s, 0));
    if r.Parsed? {
      SkipWsToEnd(s, r.pos);
    }
  }

  /** A value followed by anything but whitespace makes the root not singular. */
  lemma TrailingBytesNotSingular(s: string, j: nat)
    requires PValue(s, SkipWs(s, 0)).Parsed?
    requires PValue(s, SkipWs(s, 0)).pos <= j < |s| && !IsWhitespace(s[j])
    ensures ParseText(s) == Failed(RootNotSingular)
  {
    SkipWsToEnd(s, PValue(s, SkipWs(s, 0)).pos);
  }

  /** A `0` in the integer part, optionally signed, may not be followed by another digit. */
  lemma LeadingZeroRejected(s: string, i: nat)
    requires i < |s| && (s[i] == '-' || s[i] == '0')
    requires var a := if s[i] == '-' then i + 1 else i;
             CharAt(s, a) == '0' && IsDigit(CharAt(s, a + 1))
    ensures PValue(s, i) == Failed(BadValue)
  {
  }

  /** The integer part starts with a digit (after an optional `-`); anything else is a bad value. */
  lemma IntegerPartRequired(s: string, i: nat)
    requires i < |s| && s[i] == '-' && !IsDigit(CharAt(s, i + 1))
    ensures PValue(s, i) == Failed(BadValue)
  {
  }

  /** A `.` with no digit after it is a bad value. */
  lemma FractionNeedsDigit(s: string, start: nat, j: nat)
    requires start < j <= |s| && CharAt(s, j) == '.' && !IsDigit(CharAt(s, j + 1))
    ensures PFraction(s, start, j) == Failed(BadValue)
  {
  }

  /** An exponent mark, with or without its sign, needs a digit after it. */
  lemma ExponentNeedsDigit(s: string, start: nat, j: nat, isDouble: bool)
    requires start < j <= |s| && (CharAt(s, j) == 'e' || CharAt(s, j) == 'E')
    requires var k := if CharAt(s, j + 1) == '+' || CharAt(s, j + 1) == '-' then j + 2 else j + 1;
             !IsDigit(CharAt(s, k))
    ensures PExponent(s, start, j, isDouble) == Failed(BadValue)
  {
  }

  /** A fraction or an exponent makes the number a double, which may carry no suffix. */
  lemma SuffixAfterDoubleRejected(s: string, start: nat, j: nat)
    requires start < j <= |s| && CharAt(s, j) == 'i'
    ensures PSuffix(s, start, j, true) == Failed(BadValue)
  {
  }

  /**
   * The integer suffixes: `i32` gives an Int32 if the value fits and NumberTooBig if not;
   * `i64` gives an Int64; any other spelling after `i` is a bad value.
   */
  lemma {:induction false} IntegerSuffixes(s: string, start: nat, j: nat)
    requires start < j <= |s| && CharAt(s, j) == 'i'
    ensures var n := Clamp64(Strtol(s, start));
            var r := PSuffix(s, start, j, false);
            && (MatchesAt(s, j, "i32") && FitsInt32(n) ==> r == Parsed(Int32(n as int32), j + 3))
            && (MatchesAt(s, j, "i32") && !FitsInt32(n) ==> r == Failed(NumberTooBig))
            && (MatchesAt(s, j, "i64") ==> r == Parsed(Int64(n as int64), j + 3))
            && (!MatchesAt(s, j, "i32") && !MatchesAt(s, j, "i64") ==> r == Failed(BadValue))
  {
    if MatchesAt(s, j, "i32") {
      assert s[j + 1] == "i32"[1] && s[j + 2] == "i32"[2];
      assert s[j + 1] != "i64"[1];
    } else if MatchesAt(s, j, "i64") {
      assert s[j + 1] == "i64"[1] && s[j + 2] == "i64"[2];
    } else if CharAt(s, j + 1) == '3' && CharAt(s, j + 2) == '2' {
      assert MatchesAt(s, j, "i32");
    } else if CharAt(s, j + 1) == '6' && CharAt(s, j + 2) == '4' {
      assert MatchesAt(s, j, "i64");
    }
  }

  /** An integer without suffix is an Int32 when it fits, and an Int64 otherwise. */
  lemma UnsuffixedInteger(s: string, start: nat, j: nat)
    requires start < j <= |s| && CharAt(s, j) != 'i'
    ensures var n := Clamp64(Strtol(s, start));
            && (FitsInt32(n) ==> PSuffix(s, start, j, false) == Parsed(Int32(n as int32), j))
            && (!FitsInt32(n) ==> PSuffix(s, start, j, false) == Parsed(Int64(n as int64), j))
  {
  }

  /** A raw control byte inside a string is rejected. */
  lemma ControlByteRejected(s: string, j: nat, acc: string)
    requires j < |s| && IsControl(s[j])
    ensures PStringBody(s, j, acc) == Failed(BadStringChar)
  {
  }

  /** A string that runs out before its closing quote misses the quotation mark. */
  lemma {:induction false} UnterminatedString(s: string, j: nat, acc: string)
    requires j <= |s|
    requires forall k | j <= k < |s| :: s[k] != '"' && s[k] != '\\' && !IsControl(s[k])
    ensures PStringBody(s, j, acc) == Failed(MissQuotationMark)
    decreases |s| - j
  {
    if j < |s| {
      UnterminatedString(s, j + 1, acc + [s[j]]);
    }
  }

  /** Only the nine escape letters are accepted after a backslash. */
  lemma EscapeLetters(s: string, j: nat)
    ensures PEscape(s, j).EscapeFailed? && PEscape(s, j).err == BadStringEscape <==>
              CharAt(s, j) !in {'"', '\\', '/', 'b', 'f', 'n', 'r', 't', 'u'}
  {
  }

  /** `\u` needs four hex digits. */
  lemma BadHexRejected(s: string, k: nat)
    requires Hex4(s, k).None?
    ensures PCodePoint(s, k) == CodeFailed(BadUnicodeHex)
  {
  }

  /** A high surrogate that is not followed by `\u` is a bad surrogate. */
  lemma LoneHighSurrogate(s: string, k: nat)
    requires Hex4(s, k).Some? && 0xD800 <= Hex4(s, k).value <= 0xDBFF
    requires CharAt(s, k + 4) != '\\' || CharAt(s, k + 5) != 'u'
    ensures PCodePoint(s, k) == CodeFailed(BadUnicodeSurrogate)
  {
  }

  /**
   * A surrogate pair combines to a code point beyond the basic plane; a high surrogate
   * followed by anything but a low one is rejected.
   */
  lemma SurrogatePair(s: string, k: nat)
    requires Hex4(s, k).Some? && 0xD800 <= Hex4(s, k).value <= 0xDBFF
    requires CharAt(s, k + 4) == '\\' && CharAt(s, k + 5) == 'u' && Hex4(s, k + 6).Some?
    ensures var hi := Hex4(s, k).value;
            var lo := Hex4(s, k + 6).value;
            && (0xDC00 <= lo <= 0xDFFF ==>
                  PCodePoint(s, k) == Code(0x10000 + (hi - 0xD800) * 0x400 + (lo - 0xDC00), k + 10)
                  && 0x10000 <= PCodePoint(s, k).u <= 0x10FFFF)
            && (!(0xDC00 <= lo <= 0xDFFF) ==> PCodePoint(s, k) == CodeFailed(BadUnicodeSurrogate))
  {
  }

  /** Literals must be spelled in full. */
  lemma LiteralsInFull(s: string, i: nat)
    requires i < |s|
    ensures s[i] == 'n' ==> (PValue(s, i).Parsed? <==> MatchesAt(s, i, "null"))
    ensures s[i] == 't' ==> (PValue(s, i).Parsed? <==> MatchesAt(s, i, "true"))
    ensures s[i] == 'f' ==> (PValue(s, i).Parsed? <==> MatchesAt(s, i, "false"))
    ensures s[i] == 'N' ==> (PValue(s, i).Parsed? <==> MatchesAt(s, i, "NaN"))
    ensures s[i] == 'I' ==> (PValue(s, i).Parsed? <==> MatchesAt(s, i, "Infinity"))
  {
  }

  /** An object member must start with a key. */
  lemma MemberNeedsKey(s: string, j: nat)
    requires j <= |s| && CharAt(s, j) != '"'
    ensures PMember(s, j) == MemberFailed(MissKey)
  {
  }

  /** Empty arrays and objects, with whitespace inside the brackets. */
  lemma EmptyContainers(s: string, i: nat)
    requires i < |s| && (s[i] == '[' || s[i] == '{')
    requires CharAt(s, SkipWs(s, i + 1)) == (if s[i] == '[' then ']' else '}')
    ensures PValue(s, i) == Parsed(if s[i] == '[' then Array([]) else Object([]), SkipWs(s, i + 1) + 1)
  {
  }
}
