/**
 * What the writer emits, the reader reads back. A value without doubles whose object
 * keys need no escaping comes back from `Text` unchanged, except that a 64-bit integer
 * small enough for 32 bits is read as an Int32 (the reader picks the narrowest type).
 */
module RoundTrip {
  import opened Ascii
  import opened JsonValue
  import opened ReaderSpec
  import opened Writer

  /** A key `Key` can write verbatim and the reader reads back as is. */
  predicate PlainKey(k: string) {
    forall j :: 0 <= j < |k| ==> k[j] as int >= 0x20 && k[j] != '"' && k[j] != '\\'
  }

  /** Values the round trip covers: no doubles anywhere, plain keys. */
  predicate Writable(v: Value)
    decreases v, 1
  {
    match v
    case Double(_) => false
    case Array(es) => AllWritable(es)
    case Object(ms) => AllWritableMembers(ms)
    case _ => true
  }

  predicate AllWritable(es: seq<Value>)
    decreases es, 0
  {
    es == [] || (Writable(es[0]) && AllWritable(es[1..]))
  }

  predicate AllWritableMembers(ms: seq<Member>)
    decreases ms, 0
  {
    ms == [] || (PlainKey(ms[0].key) && Writable(ms[0].value) && AllWritableMembers(ms[1..]))
  }

  predicate WritableMember(m: Member) {
    PlainKey(m.key) && Writable(m.value)
  }

  /** The value the reader builds from a value's text: integers in their narrowest type. */
  function Normalize(v: Value): Value
    decreases v, 1
  {
    match v
    case Int64(n) => IntegerValue(n as int)
    case Array(es) => Array(NormalizeElements(es))
    case Object(ms) => Object(NormalizeMembers(ms))
    case _ => v
  }

  function NormalizeElements(es: seq<Value>): seq<Value>
    decreases es, 0
  {
    if es == [] then [] else [Normalize(es[0])] + NormalizeElements(es[1..])
  }

  function NormalizeMembers(ms: seq<Member>): seq<Member>
    decreases ms, 0
  {
    if ms == [] then [] else [NormalizeMember(ms[0])] + NormalizeMembers(ms[1..])
  }

  function NormalizeMember(m: Member): Member
    decreases m, 2
  {
    Member(m.key, Normalize(m.value))
  }

  /** The bytes that may follow a value inside a document: end of text, separators, whitespace. */
  predicate Delimiter(c: char) {
    c == '\0' || c == ',' || c == ']' || c == '}' || IsWhitespace(c)
  }

  // ---------------------------------------------------------------- matching text

  lemma MatchesChar(s: string, i: nat, t: string, k: nat)
    requires MatchesAt(s, i, t) && k < |t|
    ensures i + k < |s| && s[i + k] == t[k]
  {
    MatchesAtSlice(s, i, t);
    assert s[i..i + |t|][k] == t[k];
  }

  lemma MatchesSplit(s: string, i: nat, a: string, b: string)
    requires MatchesAt(s, i, a + b)
    ensures MatchesAt(s, i, a) && MatchesAt(s, i + |a|, b)
  {
    MatchesAtSlice(s, i, a + b);
    MatchesAtSlice(s, i, a);
    MatchesAtSlice(s, i + |a|, b);
    var w := s[i..i + |a| + |b|];
    assert s[i..i + |a|] == w[..|a|] == (a + b)[..|a|] == a;
    assert s[i + |a|..i + |a| + |b|] == w[|a|..] == (a + b)[|a|..] == b;
  }

  lemma SplitLast(s: string, j: nat, a: string, close: char)
    requires MatchesAt(s, j, a + [close])
    ensures MatchesAt(s, j, a) && CharAt(s, j + |a|) == close
  {
    MatchesSplit(s, j, a, [close]);
    MatchesChar(s, j + |a|, [close], 0);
  }

  /** `whole`, made of `a`, a comma and `b`, read at `j` and followed by `close`. */
  lemma CommaLayout(s: string, j: nat, whole: string, a: string, b: string, close: char)
    requires whole == a + ("," + b) && |b| > 0 && !IsWhitespace(b[0])
    requires MatchesAt(s, j, whole + [close])
    ensures |whole| == |a| + 1 + |b|
    ensures MatchesAt(s, j, a) && CharAt(s, j + |a|) == ','
    ensures !IsWhitespace(CharAt(s, j + |a| + 1)) && MatchesAt(s, j + |a| + 1, b + [close])
  {
    SplitComma(s, j, a, b, close);
  }

  lemma SplitComma(s: string, j: nat, a: string, b: string, close: char)
    requires |b| > 0 && MatchesAt(s, j, a + ("," + b) + [close])
    ensures MatchesAt(s, j, a) && CharAt(s, j + |a|) == ','
    ensures CharAt(s, j + |a| + 1) == b[0] && MatchesAt(s, j + |a| + 1, b + [close])
  {
    Append(a, "," + b, [close]);
    Append(",", b, [close]);
    MatchesSplit(s, j, a, "," + (b + [close]));
    MatchesSplit(s, j + |a|, ",", b + [close]);
    MatchesChar(s, j + |a|, ",", 0);
    MatchesChar(s, j + |a| + 1, b + [close], 0);
  }

  lemma MatchesDrop(s: string, i: nat, t: string)
    requires MatchesAt(s, i, t)
    ensures i <= |s| && MatchesAt(s[i..], 0, t)
    ensures CharAt(s[i..], |t|) == CharAt(s, i + |t|)
  {
    MatchesAtSlice(s, i, t);
    MatchesAtSlice(s[i..], 0, t);
    assert s[i..][0..|t|] == s[i..i + |t|];
  }

  /** The text of a covered value is never empty and starts with no whitespace or closer. */
  lemma TextHead(v: Value)
    requires Writable(v)
    ensures |Text(v)| > 0
    ensures !IsWhitespace(Text(v)[0]) && Text(v)[0] != ']' && Text(v)[0] != '}'
  {
  }

  // ---------------------------------------------------------------- numbers

  /** The digits of `NatText(m)` at `a` have the value `m`. */
  lemma {:induction false} DigitRunOfText(s: string, a: nat, m: nat)
    requires MatchesAt(s, a, NatText(m))
    ensures a + |NatText(m)| <= |s| && DigitRunValue(s, a, a + |NatText(m)|) == m
    decreases m
  {
    var d := NatText(m);
    if m < 10 {
      MatchesChar(s, a, d, 0);
      assert DigitRunValue(s, a, a) == 0;
    } else {
      var h := NatText(m / 10);
      MatchesSplit(s, a, h, [DigitChar(m % 10)]);
      MatchesChar(s, a + |h|, [DigitChar(m % 10)], 0);
      DigitRunOfText(s, a, m / 10);
      assert s[a + |d| - 1] == DigitChar(m % 10);
    }
  }

  lemma AllDigitsTail(w: string)
    requires w != [] && AllDigits(w)
    ensures AllDigits(w[1..])
  {
    forall k | 0 <= k < |w[1..]| ensures IsDigit(w[1..][k]) {
      assert w[1..][k] == w[k + 1];
    }
  }

  /** A word of digits at `a`, followed by a non-digit, is the digit run `Digits` finds at `a`. */
  lemma {:induction false} DigitsOfWord(s: string, a: nat, w: string)
    requires AllDigits(w) && MatchesAt(s, a, w) && !IsDigit(CharAt(s, a + |w|))
    ensures a + |w| <= |s| && Digits(s, a) == a + |w|
    decreases |w|
  {
    if w != [] {
      assert IsDigit(w[0]);
      AllDigitsTail(w);
      DigitsOfWord(s, a + 1, w[1..]);
    }
  }

  /**
   * The decimal digits of a positive `m` at `a`, followed by a non-digit, are what
   * `parseNumber` scans: a digit 1-9 and the run of digits after it.
   */
  lemma PositiveDigits(s: string, a: nat, m: nat)
    requires m > 0 && MatchesAt(s, a, NatText(m)) && !IsDigit(CharAt(s, a + |NatText(m)|))
    ensures a < |s| && IsDigit19(s[a]) && Digits(s, a + 1) == a + |NatText(m)|
  {
    var w := NatText(m);
    PositiveText(m);
    assert w == [w[0]] + w[1..];
    MatchesSplit(s, a, [w[0]], w[1..]);
    MatchesChar(s, a, w, 0);
    AllDigitsTail(w);
    DigitsOfWord(s, a + 1, w[1..]);
  }

  /** `strtol` reads back `Dec(n)` at `i` when a delimiter follows it. */
  lemma StrtolAt(s: string, i: nat, n: int)
    requires MatchesAt(s, i, Dec(n)) && Delimiter(CharAt(s, i + |Dec(n)|))
    ensures i <= |s| && Strtol(s, i) == n
  {
    if n < 0 {
      var m: nat := -n;
      var d := NatText(m);
      MatchesSplit(s, i, "-", d);
      MatchesChar(s, i, "-", 0);
      DigitsOfWord(s, i + 1, d);
      DigitRunOfText(s, i + 1, m);
    } else {
      var d := NatText(n);
      MatchesChar(s, i, d, 0);
      assert CharAt(s, i) != '-';
      DigitsOfWord(s, i, d);
      DigitRunOfText(s, i, n);
    }
  }

  /** `parseNumber` over a lone `0` and a delimiter. */
  lemma ZeroScan(s: string, start: nat)
    requires start < |s| && s[start] == '0' && Delimiter(CharAt(s, start + 1))
    requires Strtol(s, start) == 0
    ensures PNumber(s, start) == Parsed(Int32(0), start + 1)
  {
    assert CharAt(s, start) == '0';
    assert !IsDigit(CharAt(s, start + 1));
    assert PFraction(s, start, start + 1) == PExponent(s, start, start + 1, false);
    assert PExponent(s, start, start + 1, false) == PSuffix(s, start, start + 1, false);
  }

  /** `parseNumber` over a digit 1-9, the digit run after it, and a delimiter. */
  lemma PositiveScan(s: string, start: nat, e: nat, n: int)
    requires start < |s| && IsDigit19(s[start]) && Digits(s, start + 1) == e
    requires Delimiter(CharAt(s, e))
    requires FitsInt64(n) && Strtol(s, start) == n
    ensures PNumber(s, start) == Parsed(IntegerValue(n), e)
  {
    assert s[start] != 'N' && s[start] != 'I' && s[start] != '-' && s[start] != '0';
    assert CharAt(s, start) == s[start];
    assert PFraction(s, start, e) == PExponent(s, start, e, false);
    assert PExponent(s, start, e, false) == PSuffix(s, start, e, false);
    assert Clamp64(n) == n;
  }

  /** `parseNumber` over `-`, a digit 1-9, the digit run after it, and a delimiter. */
  lemma NegativeScan(s: string, start: nat, e: nat, n: int)
    requires start + 1 < |s| && s[start] == '-' && IsDigit19(s[start + 1])
    requires Digits(s, start + 2) == e && Delimiter(CharAt(s, e))
    requires FitsInt64(n) && Strtol(s, start) == n
    ensures PNumber(s, start) == Parsed(IntegerValue(n), e)
  {
    assert CharAt(s, start + 1) == s[start + 1];
    assert CharAt(s, start + 1) != '0';
    assert PFraction(s, start, e) == PExponent(s, start, e, false);
    assert PExponent(s, start, e, false) == PSuffix(s, start, e, false);
    assert Clamp64(n) == n;
  }

  /** `parseNumber` reads back the text of a positive integer. */
  lemma PositiveRoundTrip(s: string, i: nat, n: int)
    requires 0 < n && FitsInt64(n)
    requires MatchesAt(s, i, NatText(n)) && Delimiter(CharAt(s, i + |NatText(n)|))
    ensures PNumber(s, i) == Parsed(IntegerValue(n), i + |NatText(n)|)
  {
    var e := i + |NatText(n)|;
    assert !IsDigit(CharAt(s, e));
    PositiveDigits(s, i, n);
    assert Dec(n) == NatText(n);
    StrtolAt(s, i, n);
    PositiveScan(s, i, e, n);
  }

  /** `parseNumber` reads back the text of a negative integer. */
  lemma NegativeRoundTrip(s: string, i: nat, n: int)
    requires n < 0 && FitsInt64(n)
    requires MatchesAt(s, i, "-" + NatText(-n)) && Delimiter(CharAt(s, i + 1 + |NatText(-n)|))
    ensures PNumber(s, i) == Parsed(IntegerValue(n), i + 1 + |NatText(-n)|)
  {
    var m: nat := -n;
    var e := i + 1 + |NatText(m)|;
    MatchesSplit(s, i, "-", NatText(m));
    MatchesChar(s, i, "-", 0);
    assert !IsDigit(CharAt(s, e));
    PositiveDigits(s, i + 1, m);
    assert Dec(n) == "-" + NatText(m);
    StrtolAt(s, i, n);
    NegativeScan(s, i, e, n);
  }

  /** `parseNumber` reads back what `Int32`/`Int64` write, as the narrowest integer type. */
  lemma NumberRoundTrip(s: string, i: nat, n: int)
    requires FitsInt64(n)
    requires MatchesAt(s, i, Dec(n)) && Delimiter(CharAt(s, i + |Dec(n)|))
    ensures i < |s| && (s[i] == '-' || IsDigit(s[i]))
    ensures PNumber(s, i) == Parsed(IntegerValue(n), i + |Dec(n)|)
  {
    MatchesChar(s, i, Dec(n), 0);
    if n == 0 {
      NatTextValue(0);
      StrtolAt(s, i, n);
      ZeroScan(s, i);
    } else if n > 0 {
      PositiveText(n);
      PositiveRoundTrip(s, i, n);
    } else {
      NegativeRoundTrip(s, i, n);
    }
  }

  // ---------------------------------------------------------------- strings

  lemma {:induction false} EscapeAppend(a: string, b: string)
    ensures Escape(a + b) == Escape(a) + Escape(b)
    decreases |b|
  {
    if b == [] {
      assert a + b == a;
    } else {
      var b', c := b[..|b| - 1], b[|b| - 1];
      var ab := a + b;
      assert ab[..|ab| - 1] == a + b' && ab[|ab| - 1] == c;
      assert Escape(ab) == Escape(a + b') + EscapeChar(c);
      EscapeAppend(a, b');
      assert Escape(b) == Escape(b') + EscapeChar(c);
      Append(Escape(a), Escape(b'), EscapeChar(c));
    }
  }

  lemma {:induction false} EscapePlain(t: string)
    requires PlainKey(t)
    ensures Escape(t) == t
    decreases |t|
  {
    if t != [] {
      var init, c := t[..|t| - 1], t[|t| - 1];
      assert PlainKey(init) by {
        forall j | 0 <= j < |init|
          ensures init[j] as int >= 0x20 && init[j] != '"' && init[j] != '\\'
        {
          assert init[j] == t[j];
        }
      }
      EscapePlain(init);
      assert c as int >= 0x20 && c != '"' && c != '\\';
      assert EscapeChar(c) == [c];
      assert Escape(t) == Escape(init) + EscapeChar(c);
      assert t == init + [c];
    }
  }

  lemma HexUpperValue(d: nat)
    requires d < 16
    ensures IsHexDigit(HexUpper(d)) && HexValue(HexUpper(d)) == d
  {
  }

  /** The value of four hex digits, most significant first. */
  lemma HexRun4(h: string)
    requires |h| == 4 && forall k :: 0 <= k < 4 ==> IsHexDigit(h[k])
    ensures HexRunValue(h) ==
      ((HexValue(h[0]) * 16 + HexValue(h[1])) * 16 + HexValue(h[2])) * 16 + HexValue(h[3])
  {
    var h1, h2, h3 := h[..1], h[..2], h[..3];
    assert h1[..0] == [] && h1[0] == h[0];
    assert h2[..1] == h1 && h2[1] == h[1];
    assert h3[..2] == h2 && h3[2] == h[2];
    assert h[..3] == h3;
    assert HexRunValue(h1) == HexValue(h[0]);
    assert HexRunValue(h2) == HexValue(h[0]) * 16 + HexValue(h[1]);
    assert HexRunValue(h3) == HexRunValue(h2) * 16 + HexValue(h[2]);
  }

  /** The four hex digits of `\u00XX` read back as the control byte they encode. */
  lemma ControlEscapeValue(u: nat)
    requires u < 0x20
    ensures var h := UnicodeEscape(u)[2..];
      |h| == 4 && (forall k :: 0 <= k < 4 ==> IsHexDigit(h[k])) && HexRunValue(h) == u
  {
    var h := UnicodeEscape(u)[2..];
    assert u / 0x1000 == 0 && u / 0x100 % 16 == 0 && u / 16 % 16 == u / 16;
    HexUpperValue(0);
    HexUpperValue(u / 16);
    HexUpperValue(u % 16);
    assert h == [HexUpper(0), HexUpper(0), HexUpper(u / 16), HexUpper(u % 16)];
    HexRun4(h);
  }

  /** The string loop copies a byte that is neither a quote, a backslash nor a control byte. */
  lemma BodyPlain(s: string, j: nat, acc: string)
    requires j < |s| && s[j] != '"' && s[j] != '\\' && !IsControl(s[j])
    ensures PStringBody(s, j, acc) == PStringBody(s, j + 1, acc + [s[j]])
  {
  }

  /** The string loop stops at a quote with the bytes decoded so far. */
  lemma BodyClose(s: string, j: nat, acc: string)
    requires j < |s| && s[j] == '"'
    ensures PStringBody(s, j, acc) == Parsed(String(acc), j + 1)
  {
  }

  /** The string loop appends the bytes an escape decodes to and goes on after it. */
  lemma BodyEscape(s: string, j: nat, acc: string, b: string, k: nat)
    requires j < |s| && s[j] == '\\' && PEscape(s, j + 1) == Escaped(b, k)
    ensures k <= |s| && PStringBody(s, j, acc) == PStringBody(s, k, acc + b)
  {
    assert s[j] != '"' && !IsControl(s[j]);
    assert PStringBody(s, j, acc) == PStringEscape(s, j + 1, acc);
  }

  /** Four hex digits at `k`, as a slice, are what `parseHex4` reads. */
  lemma Hex4At(s: string, k: nat, h: string)
    requires |h| == 4 && (forall m :: 0 <= m < 4 ==> IsHexDigit(h[m]))
    requires k + 4 <= |s| && s[k..k + 4] == h
    ensures Hex4(s, k) == Wrappers.Some(HexRunValue(h))
  {
    assert s[k] == h[0] && s[k + 1] == h[1] && s[k + 2] == h[2] && s[k + 3] == h[3];
  }

  /** `\u00XX`, as `String` writes a control byte, decodes to that byte. */
  lemma UnicodeEscapeStep(s: string, j: nat, acc: string, c: char)
    requires c as int < 0x20 && MatchesAt(s, j, UnicodeEscape(c as int))
    ensures j + 6 <= |s|
    ensures PStringBody(s, j, acc) == PStringBody(s, j + 6, acc + [c])
  {
    var u := c as int;
    var t := UnicodeEscape(u);
    MatchesAtSlice(s, j, t);
    assert s[j..j + 6] == t;
    assert s[j] == '\\' && s[j + 1] == 'u';
    assert s[j + 2..j + 6] == t[2..];
    ControlEscapeValue(u);
    Hex4At(s, j + 2, t[2..]);
    assert PCodePoint(s, j + 2) == Code(u, j + 6);
    assert Utf8(u) == [c];
    BodyEscape(s, j, acc, [c], j + 6);
  }

  /** A two-byte escape `\e` as `String` writes it decodes to the byte it stands for. */
  lemma ShortEscapeStep(s: string, j: nat, acc: string, c: char, e: char)
    requires Unescape(e) == Wrappers.Some(c) && e != 'u' && MatchesAt(s, j, ['\\', e])
    ensures j + 2 <= |s|
    ensures PStringBody(s, j, acc) == PStringBody(s, j + 2, acc + [c])
  {
    MatchesChar(s, j, ['\\', e], 0);
    MatchesChar(s, j, ['\\', e], 1);
    assert PEscape(s, j + 1) == Escaped([c], j + 2);
    BodyEscape(s, j, acc, [c], j + 2);
  }

  /** One byte as `String` escapes it is decoded by the string reader into that byte. */
  lemma EscapeCharStep(s: string, j: nat, acc: string, c: char) returns (k: nat)
    requires MatchesAt(s, j, EscapeChar(c))
    ensures k == j + |EscapeChar(c)| && k <= |s|
    ensures PStringBody(s, j, acc) == PStringBody(s, k, acc + [c])
  {
    k := j + |EscapeChar(c)|;
    if c == '"' {
      ShortEscapeStep(s, j, acc, c, '"');
    } else if c == Backspace {
      ShortEscapeStep(s, j, acc, c, 'b');
    } else if c == FormFeed {
      ShortEscapeStep(s, j, acc, c, 'f');
    } else if c == '\n' {
      ShortEscapeStep(s, j, acc, c, 'n');
    } else if c == '\r' {
      ShortEscapeStep(s, j, acc, c, 'r');
    } else if c == '\t' {
      ShortEscapeStep(s, j, acc, c, 't');
    } else if c == '\\' {
      ShortEscapeStep(s, j, acc, c, '\\');
    } else if c as int < 0x20 {
      UnicodeEscapeStep(s, j, acc, c);
    } else {
      MatchesChar(s, j, [c], 0);
      BodyPlain(s, j, acc);
    }
  }

  /** How `Escape(t)` and a closing quote split at the first byte of `t`. */
  lemma EscapeLayout(s: string, j: nat, t: string)
    requires t != [] && MatchesAt(s, j, Escape(t) + "\"")
    ensures |Escape(t)| == |EscapeChar(t[0])| + |Escape(t[1..])|
    ensures MatchesAt(s, j, EscapeChar(t[0]))
    ensures MatchesAt(s, j + |EscapeChar(t[0])|, Escape(t[1..]) + "\"")
  {
    EscapeCons(t);
    Append(EscapeChar(t[0]), Escape(t[1..]), "\"");
    MatchesSplit(s, j, EscapeChar(t[0]), Escape(t[1..]) + "\"");
  }

  lemma EscapeSingle(c: char)
    ensures Escape([c]) == EscapeChar(c)
  {
    assert [c][..0] == [];
  }

  /** `Escape` taken from the front: the first byte's escape, then the rest's. */
  lemma EscapeCons(t: string)
    requires t != []
    ensures Escape(t) == EscapeChar(t[0]) + Escape(t[1..])
  {
    assert t == [t[0]] + t[1..];
    EscapeSingle(t[0]);
    EscapeAppend([t[0]], t[1..]);
  }

  /** The string loop at the closing quote of an empty rest. */
  lemma BodyEnd(s: string, j: nat, acc: string)
    requires MatchesAt(s, j, Escape([]) + "\"")
    ensures j + |Escape([])| < |s|
    ensures PStringBody(s, j, acc) == Parsed(String(acc + []), j + |Escape([])| + 1)
  {
    assert Escape([]) + "\"" == "\"";
    MatchesChar(s, j, "\"", 0);
    BodyClose(s, j, acc);
    assert acc + [] == acc;
  }

  /** The first byte of `t`, escaped, ends at `k`, where the escaped rest of `t` begins. */
  lemma EscapeTextStep(s: string, j: nat, t: string) returns (k: nat)
    requires t != [] && MatchesAt(s, j, Escape(t) + "\"")
    ensures k == j + |EscapeChar(t[0])| && MatchesAt(s, j, EscapeChar(t[0]))
    ensures k - j + |Escape(t[1..])| == |Escape(t)|
    ensures MatchesAt(s, k, Escape(t[1..]) + "\"")
  {
    EscapeLayout(s, j, t);
    k := j + |EscapeChar(t[0])|;
  }

  /**
   * The first byte of `t`, escaped at `j`, is decoded into that byte; the string loop goes on
   * at `k`, where the escaped rest of `t` begins.
   */
  lemma EscapeStepAt(s: string, j: nat, acc: string, t: string) returns (k: nat)
    requires t != [] && MatchesAt(s, j, Escape(t) + "\"")
    ensures j <= k <= |s| && k - j + |Escape(t[1..])| == |Escape(t)|
    ensures MatchesAt(s, k, Escape(t[1..]) + "\"")
    ensures PStringBody(s, j, acc) == PStringBody(s, k, acc + [t[0]])
  {
    k := EscapeTextStep(s, j, t);
    var k2 := EscapeCharStep(s, j, acc, t[0]);
    assert k2 == k;
  }

  /** One decoded byte `c` followed by the decoding of `rest` is the decoding of `[c] + rest`. */
  lemma BodyJoin(s: string, j: nat, k: nat, acc: string, c: char, rest: string, p: nat)
    requires j <= k <= |s|
    requires PStringBody(s, j, acc) == PStringBody(s, k, acc + [c])
    requires PStringBody(s, k, acc + [c]) == Parsed(String(acc + [c] + rest), p)
    ensures PStringBody(s, j, acc) == Parsed(String(acc + ([c] + rest)), p)
  {
    Append(acc, [c], rest);
  }

  /** The string reader, after an opening quote, decodes `Escape(t)` and a closing quote into `t`. */
  lemma {:induction false} StringBodyRoundTrip(s: string, j: nat, acc: string, t: string)
    requires MatchesAt(s, j, Escape(t) + "\"")
    ensures j + |Escape(t)| < |s|
    ensures PStringBody(s, j, acc) == Parsed(String(acc + t), j + |Escape(t)| + 1)
    decreases |t|
  {
    if t == [] {
      BodyEnd(s, j, acc);
    } else {
      var c, rest := t[0], t[1..];
      assert t == [c] + rest;
      var k := EscapeStepAt(s, j, acc, t);
      StringBodyRoundTrip(s, k, acc + [c], rest);
      BodyJoin(s, j, k, acc, c, rest, j + |Escape(t)| + 1);
    }
  }

  // ---------------------------------------------------------------- reader steps

  /** `SkipWs` stops at once on a byte that is not whitespace, or at the end. */
  lemma NoWs(s: string, i: nat)
    requires i <= |s| && !IsWhitespace(CharAt(s, i))
    ensures SkipWs(s, i) == i
  {
  }

  /** The array loop after an element that is followed by `]`. */
  lemma LastElement(s: string, j: nat, acc: seq<Value>, v: Value, p: nat)
    requires j < p <= |s| && CharAt(s, p) == ']'
    ensures ElementsAfter(s, j, Parsed(v, p), acc) == Parsed(Array(acc + [v]), p + 1)
  {
    NoWs(s, p);
  }

  /** The array loop after an element that is followed by `,` and then no whitespace. */
  lemma NextElement(s: string, j: nat, acc: seq<Value>, v: Value, p: nat)
    requires j < p <= |s| && CharAt(s, p) == ',' && !IsWhitespace(CharAt(s, p + 1))
    ensures p + 1 <= |s| && ElementsAfter(s, j, Parsed(v, p), acc) == PElements(s, p + 1, acc + [v])
  {
    NoWs(s, p);
    NoWs(s, p + 1);
  }

  /** The object loop after a member that is followed by `}`. */
  lemma LastMember(s: string, j: nat, acc: seq<Member>, m: Member, p: nat)
    requires j < p <= |s| && CharAt(s, p) == '}'
    ensures MembersAfter(s, j, MemberParsed(m, p), acc) == Parsed(Object(acc + [m]), p + 1)
  {
    NoWs(s, p);
  }

  /** The object loop after a member that is followed by `,` and then no whitespace. */
  lemma NextMember(s: string, j: nat, acc: seq<Member>, m: Member, p: nat)
    requires j < p <= |s| && CharAt(s, p) == ',' && !IsWhitespace(CharAt(s, p + 1))
    ensures p + 1 <= |s| && MembersAfter(s, j, MemberParsed(m, p), acc) == PMembers(s, p + 1, acc + [m])
  {
    NoWs(s, p);
    NoWs(s, p + 1);
  }

  /** A member whose key string is directly followed by `:` and the value. */
  lemma MemberStep(s: string, j: nat, key: string, k: nat, v: Value, p: nat, q: nat)
    requires j < |s| && s[j] == '"' && PString(s, j) == Parsed(String(key), k)
    requires CharAt(s, k) == ':' && !IsWhitespace(CharAt(s, k + 1))
    requires k + 1 <= |s| && PValue(s, k + 1) == Parsed(v, p) && q == p
    ensures PMember(s, j) == MemberParsed(Member(key, v), q)
  {
    NoWs(s, k);
    NoWs(s, k + 1);
    ColonValue(s, j, key, k, v, p);
  }

  /** A key read up to `k`, then `:` and the value: the rest of the member. */
  lemma ColonValue(s: string, j: nat, key: string, k: nat, v: Value, p: nat)
    requires j < k < |s| && SkipWs(s, k) == k && CharAt(s, k) == ':' && SkipWs(s, k + 1) == k + 1
    requires PValue(s, k + 1) == Parsed(v, p)
    ensures MemberAfterKey(s, j, Parsed(String(key), k)) == MemberParsed(Member(key, v), p)
  {
  }

  // ---------------------------------------------------------------- containers

  lemma Associate3<T>(a: seq<T>, b: seq<T>, c: seq<T>)
    ensures a + b + c == a + (b + c)
  {
  }

  /** A lone element is written as its own text. */
  lemma ElementsTextSingle(e: Value)
    ensures ElementsText([e]) == Text(e)
  {
  }

  /** The text of two or more elements: the first, a comma, and the rest. */
  lemma ElementsTextSplit(es: seq<Value>)
    requires |es| > 1
    ensures ElementsText(es) == Text(es[0]) + ("," + ElementsText(es[1..]))
  {
    Associate3(Text(es[0]), ",", ElementsText(es[1..]));
  }

  lemma MembersTextSingle(m: Member)
    ensures MembersText([m]) == MemberText(m)
  {
  }

  /** The text of two or more members: the first, a comma, and the rest. */
  lemma MembersTextSplit(ms: seq<Member>)
    requires |ms| > 1
    ensures MembersText(ms) == MemberText(ms[0]) + ("," + MembersText(ms[1..]))
  {
    Associate3(MemberText(ms[0]), ",", MembersText(ms[1..]));
  }

  /**
   * `parseValue` at the start of a value's text reads the value back (integers narrowed)
   * and stops right after the text, provided a delimiter follows.
   */
  lemma {:induction false} ValueRoundTrip(s: string, i: nat, v: Value)
    requires Writable(v)
    requires MatchesAt(s, i, Text(v)) && Delimiter(CharAt(s, i + |Text(v)|))
    ensures i + |Text(v)| <= |s|
    ensures PValue(s, i) == Parsed(Normalize(v), i + |Text(v)|)
    decreases v, 2
  {
    match v
    case Null =>
      LiteralRoundTrip(s, i, v);
    case Bool(b) =>
      LiteralRoundTrip(s, i, v);
    case Int32(n) =>
      IntegerRoundTrip(s, i, n as int);
    case Int64(n) =>
      IntegerRoundTrip(s, i, n as int);
    case String(t) =>
      StringRoundTrip(s, i, t);
    case Array(es) =>
      ArrayRoundTrip(s, i, es);
      ValueIsArray(s, i);
    case Object(ms) =>
      ObjectRoundTrip(s, i, ms);
      ValueIsObject(s, i);
  }

  /** `parseValue` at `n`, `t` or `f` reads the literal word that letter starts. */
  lemma ValueIsLiteral(s: string, i: nat)
    requires i < |s| && (s[i] == 'n' || s[i] == 't' || s[i] == 'f')
    ensures s[i] == 'n' ==> PValue(s, i) == PLiteral(s, i, "null", Null)
    ensures s[i] == 't' ==> PValue(s, i) == PLiteral(s, i, "true", Bool(true))
    ensures s[i] == 'f' ==> PValue(s, i) == PLiteral(s, i, "false", Bool(false))
  {
  }

  /** `parseValue` at a quote reads a string. */
  lemma ValueIsString(s: string, i: nat)
    requires i < |s| && s[i] == '"'
    ensures PValue(s, i) == PString(s, i)
  {
    var c := s[i];
    assert c != 'n' && c != 't' && c != 'f';
  }

  /** `parseValue` at `[` reads an array. */
  lemma ValueIsArray(s: string, i: nat)
    requires i < |s| && s[i] == '['
    ensures PValue(s, i) == PArray(s, i)
  {
    var c := s[i];
    assert c != 'n' && c != 't' && c != 'f' && c != '"';
  }

  /** `parseValue` at `{` reads an object. */
  lemma ValueIsObject(s: string, i: nat)
    requires i < |s| && s[i] == '{'
    ensures PValue(s, i) == PObject(s, i)
  {
    var c := s[i];
    assert c != 'n' && c != 't' && c != 'f' && c != '"' && c != '[';
  }

  /** `null`, `true` and `false` are read back as the literal they spell. */
  lemma LiteralRoundTrip(s: string, i: nat, v: Value)
    requires v.Null? || v.Bool?
    requires MatchesAt(s, i, Text(v))
    ensures i + |Text(v)| <= |s|
    ensures PValue(s, i) == Parsed(v, i + |Text(v)|)
  {
    MatchesAtSlice(s, i, Text(v));
    MatchesChar(s, i, Text(v), 0);
    ValueIsLiteral(s, i);
  }

  /** An integer's decimal text is read back by `parseValue` as the narrowest integer. */
  lemma IntegerRoundTrip(s: string, i: nat, n: int)
    requires FitsInt64(n)
    requires MatchesAt(s, i, Dec(n)) && Delimiter(CharAt(s, i + |Dec(n)|))
    ensures i + |Dec(n)| <= |s|
    ensures PValue(s, i) == Parsed(IntegerValue(n), i + |Dec(n)|)
  {
    NumberRoundTrip(s, i, n);
    ValueIsNumber(s, i);
  }

  /** `parseValue` hands a `-` or a digit to `parseNumber`. */
  lemma ValueIsNumber(s: string, i: nat)
    requires i < |s| && (s[i] == '-' || IsDigit(s[i]))
    ensures PValue(s, i) == PNumber(s, i)
  {
    var c := s[i];
    assert c != 'n' && c != 't' && c != 'f' && c != '"' && c != '[' && c != '{';
  }

  /** A string as `String` writes it is read back by `parseValue`. */
  lemma StringRoundTrip(s: string, i: nat, t: string)
    requires MatchesAt(s, i, "\"" + Escape(t) + "\"")
    ensures i + |Escape(t)| + 2 <= |s|
    ensures PValue(s, i) == Parsed(String(t), i + |Escape(t)| + 2)
  {
    Append("\"", Escape(t), "\"");
    MatchesSplit(s, i, "\"", Escape(t) + "\"");
    MatchesChar(s, i, "\"", 0);
    StringBodyRoundTrip(s, i + 1, [], t);
    StringFromBody(s, i, t, i + 1 + |Escape(t)| + 1, i + |Escape(t)| + 2);
  }

  /** `parseValue` at a quote reads the string its body gives, ending at `q`. */
  lemma StringFromBody(s: string, i: nat, t: string, r: nat, q: nat)
    requires i < |s| && s[i] == '"' && PStringBody(s, i + 1, []) == Parsed(String([] + t), r) && q == r
    ensures PValue(s, i) == Parsed(String(t), q)
  {
    ValueIsString(s, i);
    assert [] + t == t;
  }

  /** `open`, `body` and `close` at `i`: the opening byte, then the body with the closer after it. */
  lemma Bracketed(s: string, i: nat, open: char, body: string, close: char)
    requires MatchesAt(s, i, [open] + body + [close])
    ensures i < |s| && s[i] == open && MatchesAt(s, i + 1, body + [close])
    ensures CharAt(s, i + 1) == if body == [] then close else body[0]
  {
    Append([open], body, [close]);
    MatchesSplit(s, i, [open], body + [close]);
    MatchesChar(s, i, [open], 0);
    MatchesChar(s, i + 1, body + [close], 0);
    if body == [] {
      assert body + [close] == [close];
    } else {
      assert (body + [close])[0] == body[0];
    }
  }

  /** `parseArray` at `[` directly followed by `]`. */
  lemma EmptyArray(s: string, i: nat)
    requires i < |s| && s[i] == '[' && CharAt(s, i + 1) == ']'
    ensures PArray(s, i) == Parsed(Array([]), i + 2)
  {
    NoWs(s, i + 1);
  }

  /** `parseArray` at `[` followed by neither whitespace nor `]` starts its loop there. */
  lemma ArrayOpen(s: string, i: nat)
    requires i < |s| && s[i] == '[' && !IsWhitespace(CharAt(s, i + 1)) && CharAt(s, i + 1) != ']'
    ensures PArray(s, i) == PElements(s, i + 1, [])
  {
    NoWs(s, i + 1);
  }

  /** An array's text: `[`, the elements' text, `]`; a non-empty one opens with a value. */
  lemma ArrayLayout(s: string, i: nat, es: seq<Value>)
    requires AllWritable(es) && MatchesAt(s, i, Text(Array(es)))
    ensures |Text(Array(es))| == |ElementsText(es)| + 2
    ensures i < |s| && s[i] == '[' && MatchesAt(s, i + 1, ElementsText(es) + "]")
    ensures es == [] ==> CharAt(s, i + 1) == ']'
    ensures es != [] ==> !IsWhitespace(CharAt(s, i + 1)) && CharAt(s, i + 1) != ']'
  {
    var body := ElementsText(es);
    assert Text(Array(es)) == "[" + body + "]";
    Bracketed(s, i, '[', body, ']');
    if es != [] {
      ElementsTextHead(es);
    }
  }

  lemma EmptyPrefix<T>(xs: seq<T>)
    ensures [] + xs == xs
  {
  }

  lemma {:induction false} ArrayRoundTrip(s: string, i: nat, es: seq<Value>)
    requires AllWritable(es)
    requires MatchesAt(s, i, Text(Array(es)))
    ensures i < |s| && s[i] == '['
    ensures PArray(s, i) == Parsed(Array(NormalizeElements(es)), i + |Text(Array(es))|)
    decreases es, 1
  {
    ArrayLayout(s, i, es);
    if es == [] {
      EmptyArray(s, i);
    } else {
      ArrayOpen(s, i);
      ElementsRoundTrip(s, i + 1, [], es);
      EmptyPrefix(NormalizeElements(es));
    }
  }

  /** A lone element's text followed by `]`. */
  lemma LastElementLayout(s: string, j: nat, e: Value)
    requires MatchesAt(s, j, ElementsText([e]) + "]")
    ensures ElementsText([e]) == Text(e)
    ensures MatchesAt(s, j, Text(e)) && CharAt(s, j + |Text(e)|) == ']'
  {
    ElementsTextSingle(e);
    SplitLast(s, j, Text(e), ']');
  }

  lemma HeadTail<T>(xs: seq<T>)
    requires xs != []
    ensures xs == [xs[0]] + xs[1..]
    ensures |xs| == 1 ==> xs == [xs[0]]
  {
  }

  lemma NormalizeSingle(es: seq<Value>)
    requires |es| == 1
    ensures NormalizeElements(es) == [Normalize(es[0])]
  {
    assert NormalizeElements(es) == [Normalize(es[0])] + [];
  }

  /** `es[0]` with `]` after it: the whole array text, ending at `p`. */
  lemma ElementsLastLayout(s: string, j: nat, es: seq<Value>) returns (p: nat)
    requires |es| == 1 && AllWritable(es) && MatchesAt(s, j, ElementsText(es) + "]")
    ensures p == j + |Text(es[0])| && |ElementsText(es)| == |Text(es[0])|
    ensures Writable(es[0]) && MatchesAt(s, j, Text(es[0])) && CharAt(s, p) == ']'
  {
    HeadTail(es);
    LastElementLayout(s, j, es[0]);
    p := j + |Text(es[0])|;
  }

  /** `es[0]` ending at `p`, then `,` and the text of `es[1..]` with `]`. */
  lemma ElementsNextLayout(s: string, j: nat, es: seq<Value>) returns (p: nat)
    requires |es| > 1 && AllWritable(es) && MatchesAt(s, j, ElementsText(es) + "]")
    ensures p == j + |Text(es[0])| && j < p
    ensures |ElementsText(es)| == |Text(es[0])| + 1 + |ElementsText(es[1..])|
    ensures Writable(es[0]) && MatchesAt(s, j, Text(es[0]))
    ensures CharAt(s, p) == ',' && !IsWhitespace(CharAt(s, p + 1))
    ensures es[1..] != [] && AllWritable(es[1..]) && MatchesAt(s, p + 1, ElementsText(es[1..]) + "]")
  {
    ElementsTextSplit(es);
    ElementsTextHead(es[1..]);
    p := j + |Text(es[0])|;
    CommaLayout(s, j, ElementsText(es), Text(es[0]), ElementsText(es[1..]), ']');
  }

  /** A turn of the array loop that reads `v`, ending at `p`, and then `]`. */
  lemma ElementsEnd(s: string, j: nat, acc: seq<Value>, v: Value, p: nat, q: nat)
    requires j <= |s| && PValue(s, j) == Parsed(v, p) && CharAt(s, p) == ']' && q == p + 1
    ensures PElements(s, j, acc) == Parsed(Array(acc + [v]), q)
  {
    LastElement(s, j, acc, v, p);
  }

  /**
   * A turn of the array loop that reads `v`, ending at `p`, then `,`, after which the loop
   * reads `vs` and ends at `r`.
   */
  lemma NormalizeCons(es: seq<Value>)
    requires es != []
    ensures NormalizeElements(es) == [Normalize(es[0])] + NormalizeElements(es[1..])
  {
  }

  /** The last element of an array, followed by `]`. */
  lemma {:induction false} LastElementRoundTrip(s: string, j: nat, acc: seq<Value>, es: seq<Value>)
    requires |es| == 1 && AllWritable(es)
    requires MatchesAt(s, j, ElementsText(es) + "]")
    ensures j + |ElementsText(es)| < |s|
    ensures PElements(s, j, acc) == Parsed(Array(acc + NormalizeElements(es)), j + |ElementsText(es)| + 1)
    decreases es[0], 3
  {
    var p := ElementsLastLayout(s, j, es);
    ValueRoundTrip(s, j, es[0]);
    ElementsEnd(s, j, acc, Normalize(es[0]), p, j + |ElementsText(es)| + 1);
    NormalizeSingle(es);
  }

  /** The array read after the first element has the same elements as the whole array. */
  lemma ElementsJoin(acc: seq<Value>, es: seq<Value>)
    requires es != []
    ensures Array(acc + [Normalize(es[0])] + NormalizeElements(es[1..])) == Array(acc + NormalizeElements(es))
  {
    NormalizeCons(es);
    Append(acc, [Normalize(es[0])], NormalizeElements(es[1..]));
  }

  /** An element read back and followed by `,`: the array loop goes on after the comma. */
  lemma {:induction false} ElementThenComma(s: string, j: nat, acc: seq<Value>, v: Value, p: nat)
    requires Writable(v) && MatchesAt(s, j, Text(v)) && p == j + |Text(v)|
    requires CharAt(s, p) == ',' && !IsWhitespace(CharAt(s, p + 1))
    ensures p + 1 <= |s| && PElements(s, j, acc) == PElements(s, p + 1, acc + [Normalize(v)])
    decreases v, 3
  {
    ValueRoundTrip(s, j, v);
    NextElement(s, j, acc, Normalize(v), p);
  }

  lemma {:induction false} ElementsRoundTrip(s: string, j: nat, acc: seq<Value>, es: seq<Value>)
    requires es != [] && AllWritable(es)
    requires MatchesAt(s, j, ElementsText(es) + "]")
    ensures j + |ElementsText(es)| < |s|
    ensures PElements(s, j, acc) == Parsed(Array(acc + NormalizeElements(es)), j + |ElementsText(es)| + 1)
    decreases es, 0
  {
    if |es| == 1 {
      LastElementRoundTrip(s, j, acc, es);
    } else {
      var p := ElementsNextLayout(s, j, es);
      ElementThenComma(s, j, acc, es[0], p);
      ElementsRoundTrip(s, p + 1, acc + [Normalize(es[0])], es[1..]);
      ElementsJoin(acc, es);
    }
  }

  /** `parseObject` at `{` directly followed by `}`. */
  lemma EmptyObject(s: string, i: nat)
    requires i < |s| && s[i] == '{' && CharAt(s, i + 1) == '}'
    ensures PObject(s, i) == Parsed(Object([]), i + 2)
  {
    NoWs(s, i + 1);
  }

  /** `parseObject` at `{` followed by a quote starts its loop there. */
  lemma ObjectOpen(s: string, i: nat)
    requires i < |s| && s[i] == '{' && CharAt(s, i + 1) == '"'
    ensures PObject(s, i) == PMembers(s, i + 1, [])
  {
    NoWs(s, i + 1);
  }

  /** An object's text: `{`, the members' text, `}`; a non-empty one opens with a key. */
  lemma ObjectLayout(s: string, i: nat, ms: seq<Member>)
    requires MatchesAt(s, i, Text(Object(ms)))
    ensures |Text(Object(ms))| == |MembersText(ms)| + 2
    ensures i < |s| && s[i] == '{' && MatchesAt(s, i + 1, MembersText(ms) + "}")
    ensures CharAt(s, i + 1) == if ms == [] then '}' else '"'
  {
    var body := MembersText(ms);
    assert Text(Object(ms)) == "{" + body + "}";
    Bracketed(s, i, '{', body, '}');
    if ms != [] {
      MembersTextHead(ms);
    }
  }

  lemma {:induction false} ObjectRoundTrip(s: string, i: nat, ms: seq<Member>)
    requires AllWritableMembers(ms)
    requires MatchesAt(s, i, Text(Object(ms)))
    ensures i < |s| && s[i] == '{'
    ensures PObject(s, i) == Parsed(Object(NormalizeMembers(ms)), i + |Text(Object(ms))|)
    decreases ms, 1
  {
    ObjectLayout(s, i, ms);
    if ms == [] {
      EmptyObject(s, i);
    } else {
      ObjectOpen(s, i);
      MembersRoundTrip(s, i + 1, [], ms);
      EmptyPrefix(NormalizeMembers(ms));
    }
  }

  /** A lone member's text followed by `}`. */
  lemma LastMemberLayout(s: string, j: nat, m: Member)
    requires MatchesAt(s, j, MembersText([m]) + "}")
    ensures MembersText([m]) == MemberText(m)
    ensures MatchesAt(s, j, MemberText(m)) && CharAt(s, j + |MemberText(m)|) == '}'
  {
    MembersTextSingle(m);
    SplitLast(s, j, MemberText(m), '}');
  }

  lemma ElementsTextHead(es: seq<Value>)
    requires es != [] && Writable(es[0])
    ensures |ElementsText(es)| > 0 && !IsWhitespace(ElementsText(es)[0]) && ElementsText(es)[0] != ']'
  {
    TextHead(es[0]);
    if |es| == 1 {
      assert es == [es[0]];
      ElementsTextSingle(es[0]);
    } else {
      ElementsTextSplit(es);
    }
  }

  lemma MembersTextHead(ms: seq<Member>)
    requires ms != []
    ensures |MembersText(ms)| > 0 && MembersText(ms)[0] == '"'
  {
    if |ms| == 1 {
      assert ms == [ms[0]];
      MembersTextSingle(ms[0]);
    } else {
      MembersTextSplit(ms);
    }
  }

  /** `ms[0]` with `}` after it: the whole member list text, ending at `p`. */
  lemma MembersLastLayout(s: string, j: nat, ms: seq<Member>) returns (p: nat)
    requires |ms| == 1 && AllWritableMembers(ms) && MatchesAt(s, j, MembersText(ms) + "}")
    ensures p == j + |MemberText(ms[0])| && |MembersText(ms)| == |MemberText(ms[0])|
    ensures WritableMember(ms[0]) && MatchesAt(s, j, MemberText(ms[0])) && CharAt(s, p) == '}'
  {
    HeadTail(ms);
    LastMemberLayout(s, j, ms[0]);
    p := j + |MemberText(ms[0])|;
  }

  /** `ms[0]` ending at `p`, then `,` and the text of `ms[1..]` with `}`. */
  lemma MembersNextLayout(s: string, j: nat, ms: seq<Member>) returns (p: nat)
    requires |ms| > 1 && AllWritableMembers(ms) && MatchesAt(s, j, MembersText(ms) + "}")
    ensures p == j + |MemberText(ms[0])|
    ensures |MembersText(ms)| == |MemberText(ms[0])| + 1 + |MembersText(ms[1..])|
    ensures WritableMember(ms[0]) && MatchesAt(s, j, MemberText(ms[0]))
    ensures CharAt(s, p) == ',' && !IsWhitespace(CharAt(s, p + 1))
    ensures ms[1..] != [] && AllWritableMembers(ms[1..]) && MatchesAt(s, p + 1, MembersText(ms[1..]) + "}")
  {
    MembersTextSplit(ms);
    MembersTextHead(ms[1..]);
    p := j + |MemberText(ms[0])|;
    CommaLayout(s, j, MembersText(ms), MemberText(ms[0]), MembersText(ms[1..]), '}');
  }

  /** A turn of the object loop that reads `m`, ending at `p`, and then `}`. */
  lemma MembersEnd(s: string, j: nat, acc: seq<Member>, m: Member, p: nat, q: nat)
    requires j <= |s| && PMember(s, j) == MemberParsed(m, p) && CharAt(s, p) == '}' && q == p + 1
    ensures PMembers(s, j, acc) == Parsed(Object(acc + [m]), q)
  {
    LastMember(s, j, acc, m, p);
  }

  /**
   * A turn of the object loop that reads `m`, ending at `p`, then `,`, after which the loop
   * reads `ns` and ends at `r`.
   */
  lemma NormalizeMembersSingle(ms: seq<Member>)
    requires |ms| == 1
    ensures NormalizeMembers(ms) == [NormalizeMember(ms[0])]
  {
    assert NormalizeMembers(ms) == [NormalizeMember(ms[0])] + [];
  }

  lemma NormalizeMembersCons(ms: seq<Member>)
    requires ms != []
    ensures NormalizeMembers(ms) == [NormalizeMember(ms[0])] + NormalizeMembers(ms[1..])
  {
  }

  /** The last member of an object, followed by `}`. */
  lemma {:induction false} LastMemberRoundTrip(s: string, j: nat, acc: seq<Member>, ms: seq<Member>)
    requires |ms| == 1 && AllWritableMembers(ms)
    requires MatchesAt(s, j, MembersText(ms) + "}")
    ensures j + |MembersText(ms)| < |s|
    ensures PMembers(s, j, acc) == Parsed(Object(acc + NormalizeMembers(ms)), j + |MembersText(ms)| + 1)
    decreases ms[0], 4
  {
    var p := MembersLastLayout(s, j, ms);
    MemberRoundTrip(s, j, ms[0]);
    MembersEnd(s, j, acc, NormalizeMember(ms[0]), p, j + |MembersText(ms)| + 1);
    NormalizeMembersSingle(ms);
  }

  /** The object read after the first member has the same members as the whole object. */
  lemma MembersJoin(acc: seq<Member>, ms: seq<Member>)
    requires ms != []
    ensures Object(acc + [NormalizeMember(ms[0])] + NormalizeMembers(ms[1..])) == Object(acc + NormalizeMembers(ms))
  {
    NormalizeMembersCons(ms);
    Append(acc, [NormalizeMember(ms[0])], NormalizeMembers(ms[1..]));
  }

  /** A member read back and followed by `,`: the object loop goes on after the comma. */
  lemma {:induction false} MemberThenComma(s: string, j: nat, acc: seq<Member>, m: Member, p: nat)
    requires WritableMember(m) && MatchesAt(s, j, MemberText(m)) && p == j + |MemberText(m)|
    requires CharAt(s, p) == ',' && !IsWhitespace(CharAt(s, p + 1))
    ensures p + 1 <= |s| && PMembers(s, j, acc) == PMembers(s, p + 1, acc + [NormalizeMember(m)])
    decreases m, 4
  {
    MemberRoundTrip(s, j, m);
    NextMember(s, j, acc, NormalizeMember(m), p);
  }

  /**
   * The first of several members read back and followed by `,`, and the rest read back
   * from after the comma: together the whole list, ending at `q`.
   */
  lemma {:induction false} MembersCompose(s: string, j: nat, acc: seq<Member>, ms: seq<Member>, p: nat, q: nat)
    requires |ms| > 1 && WritableMember(ms[0]) && MatchesAt(s, j, MemberText(ms[0]))
    requires p == j + |MemberText(ms[0])| && CharAt(s, p) == ',' && !IsWhitespace(CharAt(s, p + 1))
    requires PMembers(s, p + 1, acc + [NormalizeMember(ms[0])]) ==
             Parsed(Object(acc + [NormalizeMember(ms[0])] + NormalizeMembers(ms[1..])), q)
    ensures PMembers(s, j, acc) == Parsed(Object(acc + NormalizeMembers(ms)), q)
    decreases ms[0], 5
  {
    MemberThenComma(s, j, acc, ms[0], p);
    MembersJoin(acc, ms);
  }

  lemma {:induction false} MembersRoundTrip(s: string, j: nat, acc: seq<Member>, ms: seq<Member>)
    requires ms != [] && AllWritableMembers(ms)
    requires MatchesAt(s, j, MembersText(ms) + "}")
    ensures j + |MembersText(ms)| < |s|
    ensures PMembers(s, j, acc) == Parsed(Object(acc + NormalizeMembers(ms)), j + |MembersText(ms)| + 1)
    decreases ms, 0
  {
    if |ms| == 1 {
      LastMemberRoundTrip(s, j, acc, ms);
    } else {
      var p := MembersNextLayout(s, j, ms);
      MembersRoundTrip(s, p + 1, acc + [NormalizeMember(ms[0])], ms[1..]);
      MembersCompose(s, j, acc, ms, p, j + |MembersText(ms)| + 1);
    }
  }

  /** A key written verbatim between quotes is read back by the string reader. */
  lemma KeyRoundTrip(s: string, j: nat, key: string)
    requires PlainKey(key) && MatchesAt(s, j, "\"" + key + "\"")
    ensures j < |s| && s[j] == '"'
    ensures PString(s, j) == Parsed(String(key), j + |key| + 2)
  {
    EscapePlain(key);
    Append("\"", Escape(key), "\"");
    MatchesSplit(s, j, "\"", Escape(key) + "\"");
    MatchesChar(s, j, "\"", 0);
    StringBodyRoundTrip(s, j + 1, [], key);
    assert [] + key == key;
  }

  /** How a member's text `"key":value` lays out in `s`. */
  lemma MemberLayout(s: string, j: nat, m: Member) returns (k: nat)
    requires WritableMember(m) && MatchesAt(s, j, MemberText(m))
    ensures k == j + |m.key| + 2
    ensures MatchesAt(s, j, "\"" + m.key + "\"") && CharAt(s, k) == ':'
    ensures !IsWhitespace(CharAt(s, k + 1)) && MatchesAt(s, k + 1, Text(m.value))
    ensures |MemberText(m)| == |m.key| + 3 + |Text(m.value)|
  {
    var q := "\"" + m.key + "\"";
    var tv := Text(m.value);
    k := j + |q|;
    Append(q, ":", tv);
    MatchesSplit(s, j, q, ":" + tv);
    MatchesSplit(s, k, ":", tv);
    MatchesChar(s, k, ":", 0);
    TextHead(m.value);
    MatchesChar(s, k + 1, tv, 0);
  }

  /** One member `"key":value`: the key read verbatim, the value read back. */
  lemma {:induction false} MemberRoundTrip(s: string, j: nat, m: Member)
    requires WritableMember(m)
    requires MatchesAt(s, j, MemberText(m)) && Delimiter(CharAt(s, j + |MemberText(m)|))
    ensures j + |MemberText(m)| <= |s|
    ensures PMember(s, j) == MemberParsed(NormalizeMember(m), j + |MemberText(m)|)
    decreases m, 3
  {
    var k := MemberLayout(s, j, m);
    KeyRoundTrip(s, j, m.key);
    ValueRoundTrip(s, k + 1, m.value);
    MemberStep(s, j, m.key, k, Normalize(m.value), k + 1 + |Text(m.value)|, j + |MemberText(m)|);
  }

  /**
   * `parse` of the writer's whole output for a covered value succeeds and yields the value,
   * with integers narrowed as the reader does.
   */
  lemma ParseTextRoundTrip(v: Value)
    requires Writable(v)
    ensures ParseText(Text(v)) == Parsed(Normalize(v), |Text(v)|)
  {
    var s := Text(v);
    TextHead(v);
    NoWs(s, 0);
    MatchesAtSlice(s, 0, s);
    assert s[0..|s|] == s;
    ValueRoundTrip(s, 0, v);
  }

  /** A value's text followed by a line break, as a frame body carries it, reads back the same. */
  lemma ParseTextThenCRLF(v: Value)
    requires Writable(v)
    ensures ParseText(Text(v) + "\r\n") == Parsed(Normalize(v), |Text(v)| + 2)
  {
    var t := Text(v);
    var s := t + "\r\n";
    TextHead(v);
    NoWs(s, 0);
    assert s[0..|t|] == t;
    MatchesAtSlice(s, 0, t);
    ValueRoundTrip(s, 0, v);
    assert SkipWs(s, |t|) == SkipWs(s, |t| + 1) == |s|;
  }
}
