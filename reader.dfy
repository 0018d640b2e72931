/**
 * The reader's methods (json::Reader) running on a StringReadStream. Each one moves the
 * cursor and returns the handler events it emitted, and is proved to agree with the
 * function of ReaderSpec that specifies it. A thrown json::Exception becomes a returned
 * error code that every caller passes straight up.
 */
module Reader {
  import opened Ascii
  import opened JsonValue
  import opened ReaderSpec
  import opened ReadStreams

  /** The method's outcome agrees with the specification's result `r`. */
  ghost predicate Agrees(r: Parsed, err: ParseError, evs: seq<Event>, pos: nat) {
    if r.Parsed? then err == ParseOk && evs == EventsOf(r.value) && pos == r.pos
    else err == r.err
  }

  lemma ElementEventsSnoc(acc: seq<Value>, v: Value)
    ensures [EStartArray] + ElementEvents(acc + [v]) == [EStartArray] + ElementEvents(acc) + EventsOf(v)
  {
    assert (acc + [v])[..|acc|] == acc;
  }

  lemma ArrayEvents(es: seq<Value>)
    ensures EventsOf(Array(es)) == [EStartArray] + ElementEvents(es) + [EEndArray]
  {
  }

  lemma ObjectEvents(ms: seq<Member>)
    ensures EventsOf(Object(ms)) == [EStartObject] + MemberEvents(ms) + [EEndObject]
  {
  }

  lemma MemberEventsSnoc(acc: seq<Member>, m: Member)
    ensures [EStartObject] + MemberEvents(acc + [m]) == [EStartObject] + MemberEvents(acc) + ([EKey(m.key)] + EventsOf(m.value))
  {
    assert (acc + [m])[..|acc|] == acc;
  }

  method ParseWhitespace(stream: StringReadStream)
    requires stream.Valid()
    modifies stream`iter
    ensures stream.Valid() && stream.iter == SkipWs(stream.json, old(stream.iter))
  {
    while stream.HasNext()
      invariant stream.Valid() && SkipWs(stream.json, old(stream.iter)) == SkipWs(stream.json, stream.iter)
      decreases |stream.json| - stream.iter
    {
      var ch := stream.Peek();
      if IsWhitespace(ch) {
        var _ := stream.Next();
      } else {
        break;
      }
    }
  }

  method ParseHex4(stream: StringReadStream) returns (err: ParseError, u: nat)
    requires stream.Valid()
    modifies stream`iter
    ensures stream.Valid()
    ensures var h := Hex4(stream.json, old(stream.iter));
            if h.Some? then err == ParseOk && u == h.value && stream.iter == old(stream.iter) + 4
            else err == BadUnicodeHex
  {
    ghost var s := stream.json;
    ghost var k := stream.iter;
    u := 0;
    var i := 0;
    while i < 4
      invariant i <= 4 && stream.Valid() && stream.iter == k + i <= |s|
      invariant forall j :: k <= j < k + i ==> IsHexDigit(s[j])
      invariant u == HexRunValue(s[k..k + i])
    {
      var ch := stream.Next();
      if !IsHexDigit(ch) {
        return BadUnicodeHex, u;
      }
      assert s[k..k + i + 1][..i] == s[k..k + i];
      u := u * 16 + HexValue(ch);
      i := i + 1;
    }
    err := ParseOk;
  }

  /** `parseLiteral`: the first byte is known to match; the rest must follow in full. */
  method ParseLiteral(stream: StringReadStream, word: string, v: Value) returns (err: ParseError, evs: seq<Event>)
    requires stream.Valid() && |word| > 0 && stream.Peek() == word[0]
    requires forall j :: 0 <= j < |word| ==> word[j] != '\0'
    modifies stream`iter
    ensures stream.Valid()
    ensures Agrees(PLiteral(stream.json, old(stream.iter), word, v), err, evs, stream.iter)
  {
    ghost var s := stream.json;
    ghost var i := stream.iter;
    stream.AssertNext(word[0]);
    var k := 1;
    while k < |word| && word[k] == stream.Peek()
      invariant 1 <= k <= |word| && stream.Valid() && stream.iter == i + k <= |s|
      invariant s[i..i + k] == word[..k]
    {
      assert s[i..i + k + 1] == s[i..i + k] + [s[i + k]];
      k := k + 1;
      var _ := stream.Next();
    }
    MatchesAtSlice(s, i, word);
    if k == |word| {
      return ParseOk, EventsOf(v);
    }
    assert i + |word| <= |s| ==> s[i..i + |word|][k] != word[k];
    err, evs := BadValue, [];
  }

  /** `parseNumber` from the byte at the cursor. */
  method ParseNumber(stream: StringReadStream) returns (err: ParseError, evs: seq<Event>)
    requires stream.Valid() && stream.HasNext()
    modifies stream`iter
    ensures stream.Valid()
    ensures Agrees(PNumber(stream.json, old(stream.iter)), err, evs, stream.iter)
  {
    ghost var s := stream.json;
    if stream.Peek() == 'N' {
      err, evs := ParseLiteral(stream, "NaN", Double("NaN"));
      return;
    }
    if stream.Peek() == 'I' {
      err, evs := ParseLiteral(stream, "Infinity", Double("Infinity"));
      return;
    }
    var start := stream.GetIter();
    if stream.Peek() == '-' {
      var _ := stream.Next();
    }
    ghost var a := stream.iter;
    if stream.Peek() == '0' {
      var _ := stream.Next();
      if IsDigit(stream.Peek()) {
        return BadValue, [];
      }
    } else if IsDigit19(stream.Peek()) {
      var _ := stream.Next();
      while IsDigit(stream.Peek())
        invariant stream.Valid() && a < stream.iter <= Digits(s, a + 1) && Digits(s, stream.iter) == Digits(s, a + 1)
        decreases |s| - stream.iter
      {
        var _ := stream.Next();
      }
    } else {
      return BadValue, [];
    }
    assert PNumber(s, start) == PFraction(s, start, stream.iter);
    err, evs := ParseFraction(stream, start);
  }

  /** The optional fraction of `parseNumber`. */
  method ParseFraction(stream: StringReadStream, start: nat) returns (err: ParseError, evs: seq<Event>)
    requires stream.Valid() && start < stream.iter
    modifies stream`iter
    ensures stream.Valid()
    ensures Agrees(PFraction(stream.json, start, old(stream.iter)), err, evs, stream.iter)
  {
    ghost var s := stream.json;
    ghost var j := stream.iter;
    var isDouble := false;
    if stream.Peek() == '.' {
      isDouble := true;
      var _ := stream.Next();
      if !IsDigit(stream.Peek()) {
        return BadValue, [];
      }
      var _ := stream.Next();
      while IsDigit(stream.Peek())
        invariant stream.Valid() && j + 2 <= stream.iter <= Digits(s, j + 2)
        invariant Digits(s, stream.iter) == Digits(s, j + 2)
        decreases |s| - stream.iter
      {
        var _ := stream.Next();
      }
    }
    err, evs := ParseExponent(stream, start, isDouble);
  }

  /** The optional exponent of `parseNumber`. */
  method ParseExponent(stream: StringReadStream, start: nat, isDouble: bool) returns (err: ParseError, evs: seq<Event>)
    requires stream.Valid() && start < stream.iter
    modifies stream`iter
    ensures stream.Valid()
    ensures Agrees(PExponent(stream.json, start, old(stream.iter), isDouble), err, evs, stream.iter)
  {
    ghost var s := stream.json;
    var double := isDouble;
    if stream.Peek() == 'e' || stream.Peek() == 'E' {
      double := true;
      var _ := stream.Next();
      if stream.Peek() == '+' || stream.Peek() == '-' {
        var _ := stream.Next();
      }
      if !IsDigit(stream.Peek()) {
        return BadValue, [];
      }
      ghost var k := stream.iter;
      var _ := stream.Next();
      while IsDigit(stream.Peek())
        invariant stream.Valid() && k + 1 <= stream.iter <= Digits(s, k + 1)
        invariant Digits(s, stream.iter) == Digits(s, k + 1)
        decreases |s| - stream.iter
      {
        var _ := stream.Next();
      }
    }
    err, evs := ParseSuffix(stream, start, double);
  }

  /** The optional `i32`/`i64` suffix of `parseNumber`, then the handler call. */
  method ParseSuffix(stream: StringReadStream, start: nat, isDouble: bool) returns (err: ParseError, evs: seq<Event>)
    requires stream.Valid() && start < stream.iter
    modifies stream`iter
    ensures stream.Valid()
    ensures Agrees(PSuffix(stream.json, start, old(stream.iter), isDouble), err, evs, stream.iter)
  {
    var suffix := 0;
    if stream.Peek() == 'i' {
      var _ := stream.Next();
      if isDouble {
        return BadValue, [];
      }
      var c := stream.Next();
      if c == '3' {
        var d := stream.Next();
        if d != '2' {
          return BadValue, [];
        }
        suffix := 32;
      } else if c == '6' {
        var d := stream.Next();
        if d != '4' {
          return BadValue, [];
        }
        suffix := 64;
      } else {
        return BadValue, [];
      }
    }
    var end := stream.GetIter();
    if isDouble {
      SliceIsSubsequence(stream.json, start, end);
      return ParseOk, [EDouble(stream.json[start..end])];
    }
    var n := Clamp64(Strtol(stream.json, start));
    if suffix == 64 {
      evs := [EInt64(n as int64)];
    } else if suffix == 32 {
      if !FitsInt32(n) {
        return NumberTooBig, [];
      }
      evs := [EInt32(n as int32)];
    } else {
      evs := EventsOf(IntegerValue(n));
    }
    err := ParseOk;
  }

  /** The `\\u` escape of `parseString`: a code point, joining a surrogate pair. */
  method ParseCodePoint(stream: StringReadStream) returns (err: ParseError, u: nat)
    requires stream.Valid()
    modifies stream`iter
    ensures stream.Valid()
    ensures var r := PCodePoint(stream.json, old(stream.iter));
            if r.Code? then err == ParseOk && u == r.u && stream.iter == r.pos else err == r.err
  {
    err, u := ParseHex4(stream);
    if err != ParseOk {
      return;
    }
    if 0xD800 <= u <= 0xDBFF {
      var c1 := stream.Next();
      if c1 != '\\' {
        return BadUnicodeSurrogate, u;
      }
      var c2 := stream.Next();
      if c2 != 'u' {
        return BadUnicodeSurrogate, u;
      }
      var u2;
      err, u2 := ParseHex4(stream);
      if err != ParseOk {
        return;
      }
      if 0xDC00 <= u2 <= 0xDFFF {
        u := 0x10000 + (u - 0xD800) * 0x400 + (u2 - 0xDC00);
      } else {
        return BadUnicodeSurrogate, u;
      }
    }
  }

  /** The escape after a backslash in `parseString`; returns the bytes it stands for. */
  method ParseEscape(stream: StringReadStream) returns (err: ParseError, bytes: string)
    requires stream.Valid()
    modifies stream`iter
    ensures stream.Valid()
    ensures var r := PEscape(stream.json, old(stream.iter));
            if r.Escaped? then err == ParseOk && bytes == r.bytes && stream.iter == r.pos else err == r.err
  {
    var e := stream.Next();
    if e == 'u' {
      var u;
      err, u := ParseCodePoint(stream);
      if err != ParseOk {
        return err, [];
      }
      return ParseOk, Utf8(u);
    }
    match Unescape(e)
    case None =>
      return BadStringEscape, [];
    case Some(c) =>
      return ParseOk, [c];
  }

  /** `parseString` at an opening quote; a key is reported as such to the handler. */
  method ParseString(stream: StringReadStream, isKey: bool) returns (err: ParseError, evs: seq<Event>)
    requires stream.Valid() && stream.Peek() == '"'
    modifies stream`iter
    ensures stream.Valid()
    ensures var r := PString(stream.json, old(stream.iter));
            if r.Parsed? then
              err == ParseOk && stream.iter == r.pos && evs == [if isKey then EKey(r.value.s) else EString(r.value.s)]
            else err == r.err
  {
    ghost var s := stream.json;
    ghost var i := stream.iter;
    stream.AssertNext('"');
    var buffer: string := [];
    while stream.HasNext()
      invariant stream.Valid() && PString(s, i) == PStringBody(s, stream.iter, buffer)
      decreases |s| - stream.iter
    {
      var ch := stream.Next();
      if ch == '"' {
        evs := [if isKey then EKey(buffer) else EString(buffer)];
        return ParseOk, evs;
      } else if IsControl(ch) {
        return BadStringChar, [];
      } else if ch == '\\' {
        var bytes;
        err, bytes := ParseEscape(stream);
        if err != ParseOk {
          return err, [];
        }
        buffer := buffer + bytes;
      } else {
        buffer := buffer + [ch];
      }
    }
    err, evs := MissQuotationMark, [];
  }

  /** `parseValue`: dispatch on the byte at the cursor. */
  method ParseValue(stream: StringReadStream) returns (err: ParseError, evs: seq<Event>)
    requires stream.Valid()
    modifies stream`iter
    ensures stream.Valid()
    ensures Agrees(PValue(stream.json, old(stream.iter)), err, evs, stream.iter)
    decreases |stream.json| - stream.iter, 2
  {
    if !stream.HasNext() {
      return ExpectValue, [];
    }
    match stream.Peek()
    case 'n' => err, evs := ParseLiteral(stream, "null", Null);
    case 't' => err, evs := ParseLiteral(stream, "true", Bool(true));
    case 'f' => err, evs := ParseLiteral(stream, "false", Bool(false));
    case '"' => err, evs := ParseString(stream, false);
    case '[' => err, evs := ParseArray(stream);
    case '{' => err, evs := ParseObject(stream);
    case _ => err, evs := ParseNumber(stream);
  }

  /** `parseArray` at `[`: elements separated by `,` up to `]`. */
  method ParseArray(stream: StringReadStream) returns (err: ParseError, evs: seq<Event>)
    requires stream.Valid() && stream.HasNext() && stream.Peek() == '['
    modifies stream`iter
    ensures stream.Valid()
    ensures Agrees(PArray(stream.json, old(stream.iter)), err, evs, stream.iter)
    decreases |stream.json| - stream.iter, 1
  {
    ghost var s := stream.json;
    ghost var i := stream.iter;
    evs := [EStartArray];
    stream.AssertNext('[');
    ParseWhitespace(stream);
    if stream.Peek() == ']' {
      var _ := stream.Next();
      return ParseOk, evs + [EEndArray];
    }
    err, evs := ParseElements(stream);
  }

  /** The loop of `parseArray`, from its first element up to and including `]`. */
  method ParseElements(stream: StringReadStream) returns (err: ParseError, evs: seq<Event>)
    requires stream.Valid()
    modifies stream`iter
    ensures stream.Valid()
    ensures Agrees(PElements(stream.json, old(stream.iter), []), err, evs, stream.iter)
    decreases |stream.json| - stream.iter, 4
  {
    ghost var s := stream.json;
    ghost var j := stream.iter;
    evs := [EStartArray];
    ghost var acc: seq<Value> := [];
    while true
      invariant stream.Valid()
      invariant PElements(s, j, []) == PElements(s, stream.iter, acc)
      invariant evs == [EStartArray] + ElementEvents(acc)
      decreases |s| - stream.iter
    {
      var vevs, closed;
      ghost var v;
      err, vevs, closed, v := ParseElement(stream, acc);
      if err != ParseOk {
        return;
      }
      ElementEventsSnoc(acc, v);
      evs := evs + vevs;
      acc := acc + [v];
      if closed {
        ArrayEvents(acc);
        return ParseOk, evs + [EEndArray];
      }
    }
  }

  /** One turn of `parseArray`'s loop: a value, whitespace, then `,` (and whitespace) or `]`. */
  method ParseElement(stream: StringReadStream, ghost acc: seq<Value>)
    returns (err: ParseError, evs: seq<Event>, closed: bool, ghost v: Value)
    requires stream.Valid()
    modifies stream`iter
    ensures stream.Valid()
    ensures var r := PElements(stream.json, old(stream.iter), acc);
            if err == ParseOk then
              evs == EventsOf(v) &&
              (closed ==> r == Parsed(Array(acc + [v]), stream.iter)) &&
              (!closed ==> old(stream.iter) < stream.iter && r == PElements(stream.json, stream.iter, acc + [v]))
            else r == Failed(err)
    decreases |stream.json| - stream.iter, 3
  {
    ghost var s := stream.json;
    ghost var j := stream.iter;
    err, evs := ParseValue(stream);
    if err != ParseOk {
      return err, evs, false, Null;
    }
    closed := false;
    v := PValue(s, j).value;
    ParseWhitespace(stream);
    var c := stream.Next();
    if c == ',' {
      ParseWhitespace(stream);
    } else if c == ']' {
      closed := true;
    } else {
      err := MissCommaOrSquareBracket;
    }
  }

  /** `parseObject` at `{`: `"key" : value` members separated by `,` up to `}`. */
  method ParseObject(stream: StringReadStream) returns (err: ParseError, evs: seq<Event>)
    requires stream.Valid() && stream.HasNext() && stream.Peek() == '{'
    modifies stream`iter
    ensures stream.Valid()
    ensures Agrees(PObject(stream.json, old(stream.iter)), err, evs, stream.iter)
    decreases |stream.json| - stream.iter, 1
  {
    ghost var s := stream.json;
    ghost var i := stream.iter;
    evs := [EStartObject];
    stream.AssertNext('{');
    ParseWhitespace(stream);
    if stream.Peek() == '}' {
      var _ := stream.Next();
      return ParseOk, evs + [EEndObject];
    }
    err, evs := ParseMembers(stream);
  }

  /** The loop of `parseObject`, from its first member up to and including `}`. */
  method ParseMembers(stream: StringReadStream) returns (err: ParseError, evs: seq<Event>)
    requires stream.Valid()
    modifies stream`iter
    ensures stream.Valid()
    ensures Agrees(PMembers(stream.json, old(stream.iter), []), err, evs, stream.iter)
    decreases |stream.json| - stream.iter, 4
  {
    ghost var s := stream.json;
    ghost var j := stream.iter;
    evs := [EStartObject];
    ghost var acc: seq<Member> := [];
    while true
      invariant stream.Valid()
      invariant PMembers(s, j, []) == PMembers(s, stream.iter, acc)
      invariant evs == [EStartObject] + MemberEvents(acc)
      decreases |s| - stream.iter
    {
      var mevs, closed;
      ghost var m;
      err, mevs, closed, m := ParseMemberTurn(stream, acc);
      if err != ParseOk {
        return;
      }
      MemberEventsSnoc(acc, m);
      evs := evs + mevs;
      acc := acc + [m];
      if closed {
        ObjectEvents(acc);
        return ParseOk, evs + [EEndObject];
      }
    }
  }

  /** One turn of `parseObject`'s loop: a member, whitespace, then `,` (and whitespace) or `}`. */
  method ParseMemberTurn(stream: StringReadStream, ghost acc: seq<Member>)
    returns (err: ParseError, evs: seq<Event>, closed: bool, ghost m: Member)
    requires stream.Valid()
    modifies stream`iter
    ensures stream.Valid()
    ensures var r := PMembers(stream.json, old(stream.iter), acc);
            if err == ParseOk then
              evs == [EKey(m.key)] + EventsOf(m.value) &&
              (closed ==> r == Parsed(Object(acc + [m]), stream.iter)) &&
              (!closed ==> old(stream.iter) < stream.iter && r == PMembers(stream.json, stream.iter, acc + [m]))
            else r == Failed(err)
    decreases |stream.json| - stream.iter, 3
  {
    ghost var s := stream.json;
    ghost var j := stream.iter;
    err, evs := ParseMember(stream);
    if err != ParseOk {
      return err, evs, false, Member([], Null);
    }
    closed := false;
    m := PMember(s, j).member;
    ParseWhitespace(stream);
    var c := stream.Next();
    if c == ',' {
      ParseWhitespace(stream);
    } else if c == '}' {
      closed := true;
    } else {
      err := MissCommaOrCurlyBracket;
    }
  }

  /** One member inside `parseObject`'s loop: key, `:`, value. */
  method ParseMember(stream: StringReadStream) returns (err: ParseError, evs: seq<Event>)
    requires stream.Valid()
    modifies stream`iter
    ensures stream.Valid()
    ensures var r := PMember(stream.json, old(stream.iter));
            if r.MemberParsed? then
              err == ParseOk && stream.iter == r.pos && evs == [EKey(r.member.key)] + EventsOf(r.member.value)
            else err == r.err
    decreases |stream.json| - stream.iter, 2
  {
    ghost var s := stream.json;
    ghost var j := stream.iter;
    if stream.Peek() != '"' {
      return MissKey, [];
    }
    var kevs;
    err, kevs := ParseString(stream, true);
    if err != ParseOk {
      return err, [];
    }
    ghost var key := PString(s, j).value;
    assert PString(s, j) == Parsed(key, stream.iter);
    ParseWhitespace(stream);
    ghost var m := stream.iter;
    var colon := stream.Next();
    if colon != ':' {
      assert PMember(s, j) == MemberFailed(MissColon);
      return MissColon, [];
    }
    ParseWhitespace(stream);
    ghost var n := stream.iter;
    assert n == SkipWs(s, m + 1);
    var vevs;
    err, vevs := ParseValue(stream);
    evs := kevs + vevs;
  }

  /**
   * `parse`: on success the handler has received exactly the events of the value
   * `ParseText` reads and the whole input has been consumed.
   */
  method Parse(stream: StringReadStream) returns (err: ParseError, evs: seq<Event>)
    requires stream.Valid() && stream.iter == 0
    modifies stream`iter
    ensures stream.Valid()
    ensures var r := ParseText(stream.json);
            if r.Parsed? then err == ParseOk && evs == EventsOf(r.value) && !stream.HasNext()
            else err == r.err
  {
    ParseWhitespace(stream);
    err, evs := ParseValue(stream);
    if err != ParseOk {
      return;
    }
    ParseWhitespace(stream);
    if stream.HasNext() {
      return RootNotSingular, evs;
    }
  }
}
