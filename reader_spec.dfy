/**
 * The recursive-descent JSON reader of cppJson as functions over a text and a position.
 * Each function returns the value read and the position just after it, or the error the
 * reader throws. The handler events the reader emits are `EventsOf` the value read.
 */
module ReaderSpec {
  import opened Ascii
  import opened JsonValue

  /** json::ParseError, without the codes this model never produces (see README). */
  datatype ParseError =
    | ParseOk
    | RootNotSingular
    | BadValue
    | ExpectValue
    | BadStringChar
    | BadStringEscape
    | MissQuotationMark
    | BadUnicodeHex
    | BadUnicodeSurrogate
    | MissKey
    | MissColon
    | MissCommaOrCurlyBracket
    | MissCommaOrSquareBracket
    | NumberTooBig

  datatype Parsed = Parsed(value: Value, pos: nat) | Failed(err: ParseError)

  /** The calls the reader makes on its handler. */
  datatype Event =
    | ENull | EBool(b: bool) | EInt32(i32: int32) | EInt64(i64: int64) | EDouble(text: string)
    | EString(s: string) | EKey(key: string)
    | EStartObject | EEndObject | EStartArray | EEndArray

  function EventsOf(v: Value): seq<Event>
    decreases v, 1
  {
    match v
    case Null => [ENull]
    case Bool(b) => [EBool(b)]
    case Int32(n) => [EInt32(n)]
    case Int64(n) => [EInt64(n)]
    case Double(t) => [EDouble(t)]
    case String(t) => [EString(t)]
    case Array(es) => [EStartArray] + ElementEvents(es) + [EEndArray]
    case Object(ms) => [EStartObject] + MemberEvents(ms) + [EEndObject]
  }

  function ElementEvents(es: seq<Value>): seq<Event>
    decreases es, 0
  {
    if es == [] then [] else ElementEvents(es[..|es| - 1]) + EventsOf(es[|es| - 1])
  }

  function MemberEvents(ms: seq<Member>): seq<Event>
    decreases ms, 0
  {
    if ms == [] then []
    else MemberEvents(ms[..|ms| - 1]) + [EKey(ms[|ms| - 1].key)] + EventsOf(ms[|ms| - 1].value)
  }

  // ---------------------------------------------------------------- whitespace

  /** The position after the whitespace run starting at `i`. */
  function SkipWs(s: string, i: nat): (k: nat)
    requires i <= |s|
    ensures i <= k <= |s|
    ensures k < |s| ==> !IsWhitespace(s[k])
    decreases |s| - i
  {
    if i < |s| && IsWhitespace(s[i]) then SkipWs(s, i + 1) else i
  }

  /** Everything `SkipWs` passes over is whitespace. */
  lemma {:induction false} SkipWsSkipsWhitespace(s: string, i: nat)
    requires i <= |s|
    ensures forall j :: i <= j < SkipWs(s, i) ==> IsWhitespace(s[j])
    decreases |s| - i
  {
    if i < |s| && IsWhitespace(s[i]) {
      SkipWsSkipsWhitespace(s, i + 1);
    }
  }

  // ---------------------------------------------------------------- literals

  /** `null`, `true`, `false`, `NaN`, `Infinity`: the whole word must follow. */
  function PLiteral(s: string, i: nat, word: string, v: Value): (r: Parsed)
    requires i < |s|
    ensures r.Parsed? <==> MatchesAt(s, i, word)
    ensures r.Parsed? ==> r == Parsed(v, i + |word|)
    ensures r.Failed? ==> r.err == BadValue
  {
    if MatchesAt(s, i, word) then Parsed(v, i + |word|) else Failed(BadValue)
  }

  // ---------------------------------------------------------------- numbers

  /** The end of the run of decimal digits starting at `i`. */
  function Digits(s: string, i: nat): (k: nat)
    requires i <= |s|
    ensures i <= k <= |s|
    ensures !IsDigit(CharAt(s, k))
    decreases |s| - i
  {
    if i < |s| && IsDigit(s[i]) then Digits(s, i + 1) else i
  }

  const Int64Max := 0x7FFF_FFFF_FFFF_FFFF
  const Int64Min := -0x8000_0000_0000_0000

  /** `strtol` saturates at the bounds of a 64-bit `long` when the text overflows. */
  function Clamp64(n: int): (r: int)
    ensures FitsInt64(r)
    ensures FitsInt64(n) ==> r == n
  {
    if n > Int64Max then Int64Max else if n < Int64Min then Int64Min else n
  }

  /** The value of the digits `s[a..b]`, most significant first. */
  function DigitRunValue(s: string, a: nat, b: nat): int
    requires a <= b <= |s|
    decreases b - a
  {
    if a == b then 0 else DigitRunValue(s, a, b - 1) * 10 + (s[b - 1] as int - '0' as int)
  }

  /**
   * What `strtol` computes, before clamping, on the text that starts at `start`: an optional
   * `-` and the run of digits after it; reading stops at the first other byte.
   */
  function Strtol(s: string, start: nat): int
    requires start <= |s|
  {
    if CharAt(s, start) == '-' then 0 - DigitRunValue(s, start + 1, Digits(s, start + 1))
    else DigitRunValue(s, start, Digits(s, start))
  }

  /** The bytes from `a` up to `b`, the text a double carries. */
  function Slice(s: string, a: nat, b: nat): (t: string)
    requires a <= b <= |s|
    ensures |t| == b - a
    decreases b - a
  {
    if a == b then [] else Slice(s, a, b - 1) + [s[b - 1]]
  }

  /** `Slice` is the subsequence `s[a..b]`. */
  lemma {:induction false} SliceIsSubsequence(s: string, a: nat, b: nat)
    requires a <= b <= |s|
    ensures Slice(s, a, b) == s[a..b]
    decreases b - a
  {
    if a < b {
      SliceIsSubsequence(s, a, b - 1);
      assert s[a..b] == s[a..b - 1] + [s[b - 1]];
    }
  }

  /** An integer without suffix: Int32 when it fits, Int64 otherwise. */
  function IntegerValue(n: int): (v: Value)
    requires FitsInt64(n)
  {
    if FitsInt32(n) then Int32(n as int32) else Int64(n as int64)
  }

  /**
   * `parseNumber`, reached from `parseValue` on any byte that starts no other value.
   * `start` is where the number text begins.
   */
  function PNumber(s: string, start: nat): (r: Parsed)
    requires start < |s|
    ensures r.Parsed? ==> start < r.pos <= |s|
    ensures r.Failed? ==> r.err != ParseOk
  {
    if s[start] == 'N' then PLiteral(s, start, "NaN", Double("NaN"))
    else if s[start] == 'I' then PLiteral(s, start, "Infinity", Double("Infinity"))
    else
      var a := if s[start] == '-' then start + 1 else start;
      if CharAt(s, a) == '0' then
        if IsDigit(CharAt(s, a + 1)) then Failed(BadValue) else PFraction(s, start, a + 1)
      else if IsDigit19(CharAt(s, a)) then PFraction(s, start, Digits(s, a + 1))
      else Failed(BadValue)
  }

  /** An optional `.` that must be followed by a digit; it makes the number a double. */
  function PFraction(s: string, start: nat, j: nat): (r: Parsed)
    requires start < j <= |s|
    ensures r.Parsed? ==> j <= r.pos <= |s|
    ensures r.Failed? ==> r.err != ParseOk
  {
    if CharAt(s, j) == '.' then
      if IsDigit(CharAt(s, j + 1)) then PExponent(s, start, Digits(s, j + 2), true)
      else Failed(BadValue)
    else PExponent(s, start, j, false)
  }

  /** An optional `e`/`E`, optional sign, then at least one digit; it makes the number a double. */
  function PExponent(s: string, start: nat, j: nat, isDouble: bool): (r: Parsed)
    requires start < j <= |s|
    ensures r.Parsed? ==> j <= r.pos <= |s|
    ensures r.Failed? ==> r.err != ParseOk
  {
    if CharAt(s, j) == 'e' || CharAt(s, j) == 'E' then
      var k := if CharAt(s, j + 1) == '+' || CharAt(s, j + 1) == '-' then j + 2 else j + 1;
      if IsDigit(CharAt(s, k)) then PSuffix(s, start, Digits(s, k + 1), true)
      else Failed(BadValue)
    else PSuffix(s, start, j, isDouble)
  }

  /** The optional `i32`/`i64` suffix, then the conversion of the text to a value. */
  function PSuffix(s: string, start: nat, j: nat, isDouble: bool): (r: Parsed)
    requires start < j <= |s|
    ensures r.Parsed? ==> j <= r.pos <= |s|
    ensures r.Failed? ==> r.err != ParseOk
  {
    if CharAt(s, j) == 'i' then
      if isDouble then Failed(BadValue)
      else
        var n := Clamp64(Strtol(s, start));
        if CharAt(s, j + 1) == '3' then
          if CharAt(s, j + 2) != '2' then Failed(BadValue)
          else if FitsInt32(n) then Parsed(Int32(n as int32), j + 3)
          else Failed(NumberTooBig)
        else if CharAt(s, j + 1) == '6' then
          if CharAt(s, j + 2) != '4' then Failed(BadValue)
          else Parsed(Int64(n as int64), j + 3)
        else Failed(BadValue)
    else if isDouble then Parsed(Double(Slice(s, start, j)), j)
    else Parsed(IntegerValue(Clamp64(Strtol(s, start))), j)
  }

  // ---------------------------------------------------------------- strings

  /** The byte a two-character escape `\e` stands for. */
  function Unescape(e: char): (r: Wrappers.Option<char>)
  {
    match e
    case '"' => Wrappers.Some('"')
    case '\\' => Wrappers.Some('\\')
    case '/' => Wrappers.Some('/')
    case 'b' => Wrappers.Some(Backspace)
    case 'f' => Wrappers.Some(FormFeed)
    case 'n' => Wrappers.Some('\n')
    case 'r' => Wrappers.Some('\r')
    case 't' => Wrappers.Some('\t')
    case _ => Wrappers.None
  }

  /** `parseHex4`: exactly four hex digits at `k`, read most significant first. */
  function Hex4(s: string, k: nat): (r: Wrappers.Option<nat>)
    ensures r.Some? ==> r.value < 0x10000
  {
    if k + 4 <= |s| && IsHexDigit(s[k]) && IsHexDigit(s[k + 1]) && IsHexDigit(s[k + 2]) && IsHexDigit(s[k + 3])
    then
      assert s[k..k + 4] == [s[k], s[k + 1], s[k + 2], s[k + 3]];
      assert Pow16(4) == 0x10000;
      Wrappers.Some(HexRunValue(s[k..k + 4]))
    else Wrappers.None
  }

  datatype CodePoint = Code(u: nat, pos: nat) | CodeFailed(err: ParseError)

  /** The code point of `\uXXXX` (after the `\u` at `k`), joining a surrogate pair. */
  function PCodePoint(s: string, k: nat): (r: CodePoint)
    ensures r.Code? ==> r.u < 0x110000 && k + 4 <= r.pos <= |s|
    ensures r.CodeFailed? ==> r.err != ParseOk
  {
    match Hex4(s, k)
    case None => CodeFailed(BadUnicodeHex)
    case Some(u) =>
      if 0xD800 <= u <= 0xDBFF then
        if CharAt(s, k + 4) != '\\' || CharAt(s, k + 5) != 'u' then CodeFailed(BadUnicodeSurrogate)
        else match Hex4(s, k + 6)
          case None => CodeFailed(BadUnicodeHex)
          case Some(u2) =>
            if 0xDC00 <= u2 <= 0xDFFF then Code(0x10000 + (u - 0xD800) * 0x400 + (u2 - 0xDC00), k + 10)
            else CodeFailed(BadUnicodeSurrogate)
      else Code(u, k + 4)
  }

  /** `encodeUtf8`: the UTF-8 encoding of a code point, one char per byte. */
  function Utf8(u: nat): (b: string)
    requires u < 0x110000
    ensures 1 <= |b| <= 4
    ensures forall j :: 0 <= j < |b| ==> b[j] as int < 0x100
    ensures u < 0x80 ==> b == [u as char]
  {
    if u < 0x80 then [u as char]
    else if u < 0x800 then [(0xC0 + u / 0x40) as char, (0x80 + u % 0x40) as char]
    else if u < 0x10000 then
      [(0xE0 + u / 0x1000) as char, (0x80 + u / 0x40 % 0x40) as char, (0x80 + u % 0x40) as char]
    else
      [(0xF0 + u / 0x40000) as char, (0x80 + u / 0x1000 % 0x40) as char,
       (0x80 + u / 0x40 % 0x40) as char, (0x80 + u % 0x40) as char]
  }

  datatype Escaped = Escaped(bytes: string, pos: nat) | EscapeFailed(err: ParseError)

  /** The escape after a backslash; `j` is the position of the byte after the backslash. */
  function PEscape(s: string, j: nat): (r: Escaped)
    ensures r.Escaped? ==> j < r.pos <= |s|
    ensures r.EscapeFailed? ==> r.err != ParseOk
  {
    if CharAt(s, j) == 'u' then
      match PCodePoint(s, j + 1)
      case CodeFailed(e) => EscapeFailed(e)
      case Code(u, k) => Escaped(Utf8(u), k)
    else
      match Unescape(CharAt(s, j))
      case None => EscapeFailed(BadStringEscape)
      case Some(c) => Escaped([c], j + 1)
  }

  /** `parseString` after the opening quote; `acc` holds the bytes decoded so far. */
  function PStringBody(s: string, j: nat, acc: string): (r: Parsed)
    requires j <= |s|
    ensures r.Parsed? ==> j < r.pos <= |s| && r.value.String?
    ensures r.Failed? ==> r.err != ParseOk
    decreases |s| - j, 1
  {
    if j == |s| then Failed(MissQuotationMark)
    else if s[j] == '"' then Parsed(String(acc), j + 1)
    else if IsControl(s[j]) then Failed(BadStringChar)
    else if s[j] == '\\' then PStringEscape(s, j + 1, acc)
    else PStringBody(s, j + 1, acc + [s[j]])
  }

  /** The escape branch of `parseString`'s loop; `j` is the position after the backslash. */
  function PStringEscape(s: string, j: nat, acc: string): (r: Parsed)
    requires j <= |s|
    ensures r.Parsed? ==> j < r.pos <= |s| && r.value.String?
    ensures r.Failed? ==> r.err != ParseOk
    decreases |s| - j, 0
  {
    match PEscape(s, j)
    case EscapeFailed(e) => Failed(e)
    case Escaped(b, k) => PStringBody(s, k, acc + b)
  }

  /** `parseString` at an opening quote. */
  function PString(s: string, i: nat): (r: Parsed)
    requires i < |s| && s[i] == '"'
    ensures r.Parsed? ==> i + 1 < r.pos <= |s| && r.value.String?
    ensures r.Failed? ==> r.err != ParseOk
  {
    PStringBody(s, i + 1, [])
  }

  // ---------------------------------------------------------------- values

  /** `parseValue`: dispatch on the first byte. */
  function PValue(s: string, i: nat): (r: Parsed)
    requires i <= |s|
    ensures r.Parsed? ==> i < r.pos <= |s|
    ensures r.Failed? ==> r.err != ParseOk
    decreases |s| - i, 2
  {
    if i == |s| then Failed(ExpectValue)
    else match s[i]
      case 'n' => PLiteral(s, i, "null", Null)
      case 't' => PLiteral(s, i, "true", Bool(true))
      case 'f' => PLiteral(s, i, "false", Bool(false))
      case '"' => PString(s, i)
      case '[' => PArray(s, i)
      case '{' => PObject(s, i)
      case _ => PNumber(s, i)
  }

  /** `parseArray` at `[`. */
  function PArray(s: string, i: nat): (r: Parsed)
    requires i < |s| && s[i] == '['
    ensures r.Parsed? ==> i < r.pos <= |s|
    ensures r.Failed? ==> r.err != ParseOk
    decreases |s| - i, 1
  {
    var j := SkipWs(s, i + 1);
    if CharAt(s, j) == ']' then Parsed(Array([]), j + 1)
    else PElements(s, j, [])
  }

  /** The loop of `parseArray`: a value, then `,` and more or `]`. */
  function PElements(s: string, j: nat, acc: seq<Value>): (r: Parsed)
    requires j <= |s|
    ensures r.Parsed? ==> j < r.pos <= |s|
    ensures r.Failed? ==> r.err != ParseOk
    decreases |s| - j, 4
  {
    ElementsAfter(s, j, PValue(s, j), acc)
  }

  /** The rest of a turn of `parseArray`'s loop, given what reading the value at `j` gave. */
  function ElementsAfter(s: string, j: nat, r: Parsed, acc: seq<Value>): (r': Parsed)
    requires j <= |s| && (r.Parsed? ==> j < r.pos <= |s|) && (r.Failed? ==> r.err != ParseOk)
    ensures r'.Parsed? ==> j < r'.pos <= |s|
    ensures r'.Failed? ==> r'.err != ParseOk
    decreases |s| - j, 3
  {
    match r
    case Failed(e) => Failed(e)
    case Parsed(v, k) =>
      var m := SkipWs(s, k);
      if CharAt(s, m) == ',' then PElements(s, SkipWs(s, m + 1), acc + [v])
      else if CharAt(s, m) == ']' then Parsed(Array(acc + [v]), m + 1)
      else Failed(MissCommaOrSquareBracket)
  }

  /** `parseObject` at `{`. */
  function PObject(s: string, i: nat): (r: Parsed)
    requires i < |s| && s[i] == '{'
    ensures r.Parsed? ==> i < r.pos <= |s|
    ensures r.Failed? ==> r.err != ParseOk
    decreases |s| - i, 1
  {
    var j := SkipWs(s, i + 1);
    if CharAt(s, j) == '}' then Parsed(Object([]), j + 1)
    else PMembers(s, j, [])
  }

  datatype MemberParsed = MemberParsed(member: Member, pos: nat) | MemberFailed(err: ParseError)

  /** One object member: a key string, `:` and a value, with whitespace around the colon. */
  function PMember(s: string, j: nat): (r: MemberParsed)
    requires j <= |s|
    ensures r.MemberParsed? ==> j < r.pos <= |s|
    ensures r.MemberFailed? ==> r.err != ParseOk
    decreases |s| - j, 2
  {
    if CharAt(s, j) != '"' then MemberFailed(MissKey)
    else MemberAfterKey(s, j, PString(s, j))
  }

  /** The rest of a member, given what reading its key at `j` gave: `:` and the value. */
  function MemberAfterKey(s: string, j: nat, r: Parsed): (r': MemberParsed)
    requires j <= |s| && (r.Parsed? ==> j < r.pos <= |s| && r.value.String?) && (r.Failed? ==> r.err != ParseOk)
    ensures r'.MemberParsed? ==> j < r'.pos <= |s|
    ensures r'.MemberFailed? ==> r'.err != ParseOk
    decreases |s| - j, 1
  {
    match r
    case Failed(e) => MemberFailed(e)
    case Parsed(key, k) =>
      var m := SkipWs(s, k);
      if CharAt(s, m) != ':' then MemberFailed(MissColon)
      else
        match PValue(s, SkipWs(s, m + 1))
        case Failed(e) => MemberFailed(e)
        case Parsed(v, p) => MemberParsed(Member(key.s, v), p)
  }

  /** The loop of `parseObject`: a member, then `,` and more or `}`. */
  function PMembers(s: string, j: nat, acc: seq<Member>): (r: Parsed)
    requires j <= |s|
    ensures r.Parsed? ==> j < r.pos <= |s|
    ensures r.Failed? ==> r.err != ParseOk
    decreases |s| - j, 4
  {
    MembersAfter(s, j, PMember(s, j), acc)
  }

  /** The rest of a turn of `parseObject`'s loop, given what reading the member at `j` gave. */
  function MembersAfter(s: string, j: nat, r: MemberParsed, acc: seq<Member>): (r': Parsed)
    requires j <= |s| && (r.MemberParsed? ==> j < r.pos <= |s|) && (r.MemberFailed? ==> r.err != ParseOk)
    ensures r'.Parsed? ==> j < r'.pos <= |s|
    ensures r'.Failed? ==> r'.err != ParseOk
    decreases |s| - j, 3
  {
    match r
    case MemberFailed(e) => Failed(e)
    case MemberParsed(m, p) =>
      var q := SkipWs(s, p);
      if CharAt(s, q) == ',' then PMembers(s, SkipWs(s, q + 1), acc + [m])
      else if CharAt(s, q) == '}' then Parsed(Object(acc + [m]), q + 1)
      else Failed(MissCommaOrCurlyBracket)
  }

  /** `parse`: whitespace, one value, whitespace, and nothing else. */
  function ParseText(s: string): (r: Parsed)
    ensures r.Failed? ==> r.err != ParseOk
  {
    match PValue(s, SkipWs(s, 0))
    case Failed(e) => Failed(e)
    case Parsed(v, k) => if SkipWs(s, k) < |s| then Failed(RootNotSingular) else Parsed(v, |s|)
  }
}
