/**
 * The streaming JSON writer of cppJson (json::Writer over a StringWriteStream). A stack of
 * levels decides where `,` and `:` go; the C++ assertions are preconditions.
 * `Text` is the serialisation the writer produces for a whole value.
 */
module Writer {
  import opened Ascii
  import opened JsonValue
  import opened WriteStream

  /** One open array or object and the number of items written into it so far. */
  datatype Level = Level(inArray: bool, valueCount: nat)

  /** What `prefix` writes before the next item, given the open levels. */
  function Separator(stack: seq<Level>): string {
    if stack == [] then ""
    else
      var top := stack[|stack| - 1];
      if top.inArray then (if top.valueCount > 0 then "," else "")
      else if top.valueCount % 2 == 1 then ":"
      else if top.valueCount > 0 then ","
      else ""
  }

  /**
   * The assertions of `prefix`: a second root value is refused, and an object takes
   * only strings in key position (even item counts).
   */
  predicate PrefixAllowed(seeValue: bool, stack: seq<Level>, t: ValueType) {
    (seeValue ==> stack != []) &&
    (stack != [] && !stack[|stack| - 1].inArray && stack[|stack| - 1].valueCount % 2 == 0 ==> t == TypeString)
  }

  /** The stack after `prefix` has counted one more item in the innermost level. */
  function Counted(stack: seq<Level>): seq<Level> {
    if stack == [] then []
    else stack[..|stack| - 1] + [stack[|stack| - 1].(valueCount := stack[|stack| - 1].valueCount + 1)]
  }

  // ---------------------------------------------------------------- text

  function HexUpper(d: nat): (c: char)
    requires d < 16
  {
    if d < 10 then DigitChar(d) else ('A' as int + d - 10) as char
  }

  /** `"\\u%04X"` of a code below 0x10000. */
  function UnicodeEscape(u: nat): string
    requires u < 0x10000
  {
    ['\\', 'u', HexUpper(u / 0x1000), HexUpper(u / 0x100 % 16), HexUpper(u / 16 % 16), HexUpper(u % 16)]
  }

  /** What `String` writes for one byte of its argument. */
  function EscapeChar(c: char): string {
    if c == '"' then "\\\""
    else if c == Backspace then "\\b"
    else if c == FormFeed then "\\f"
    else if c == '\n' then "\\n"
    else if c == '\r' then "\\r"
    else if c == '\t' then "\\t"
    else if c == '\\' then "\\\\"
    else if c as int < 0x20 then UnicodeEscape(c as int)
    else [c]
  }

  function Escape(t: string): string {
    if t == [] then [] else Escape(t[..|t| - 1]) + EscapeChar(t[|t| - 1])
  }

  /** The serialisation of a value; a double is written as the text it carries. */
  function Text(v: Value): string
    decreases v, 1
  {
    match v
    case Null => "null"
    case Bool(b) => if b then "true" else "false"
    case Int32(n) => Dec(n as int)
    case Int64(n) => Dec(n as int)
    case Double(t) => t
    case String(t) => "\"" + Escape(t) + "\""
    case Array(es) => "[" + ElementsText(es) + "]"
    case Object(ms) => "{" + MembersText(ms) + "}"
  }

  function ElementsText(es: seq<Value>): string
    decreases es, 0
  {
    if es == [] then ""
    else if |es| == 1 then Text(es[0])
    else Text(es[0]) + "," + ElementsText(es[1..])
  }

  /** A key is written between quotes without any escaping. */
  function MemberText(m: Member): string
    decreases m, 0
  {
    "\"" + m.key + "\"" + ":" + Text(m.value)
  }

  function MembersText(ms: seq<Member>): string
    decreases ms, 1
  {
    if ms == [] then ""
    else if |ms| == 1 then MemberText(ms[0])
    else MemberText(ms[0]) + "," + MembersText(ms[1..])
  }

  // ---------------------------------------------------------------- writer

  class JsonWriter {
    const os: StringWriteStream
    var stack: seq<Level>
    var seeValue: bool

    constructor (os: StringWriteStream)
      ensures this.os == os && stack == [] && !seeValue
    {
      this.os := os;
      stack := [];
      seeValue := false;
    }

    /** `prefix`: the separator for the next item, counted in the innermost level. */
    method Prefix(t: ValueType)
      requires PrefixAllowed(seeValue, stack, t)
      modifies this, os
      ensures os.buffer == old(os.buffer) + Separator(old(stack))
      ensures stack == Counted(old(stack)) && seeValue
    {
      if !seeValue {
        seeValue := true;
      }
      if stack == [] {
        return;
      }
      var top := stack[|stack| - 1];
      if top.inArray {
        if top.valueCount > 0 {
          os.PutChar(',');
        }
      } else {
        if top.valueCount % 2 == 1 {
          os.PutChar(':');
        } else if top.valueCount > 0 {
          os.PutChar(',');
        }
      }
      stack := stack[..|stack| - 1] + [top.(valueCount := top.valueCount + 1)];
    }

    method Null()
      requires PrefixAllowed(seeValue, stack, TypeNull)
      modifies this, os
      ensures os.buffer == old(os.buffer) + Separator(old(stack)) + "null"
      ensures stack == Counted(old(stack)) && seeValue
    {
      Prefix(TypeNull);
      os.PutStr("null");
    }

    method Bool(b: bool)
      requires PrefixAllowed(seeValue, stack, TypeBool)
      modifies this, os
      ensures os.buffer == old(os.buffer) + Separator(old(stack)) + (if b then "true" else "false")
      ensures stack == Counted(old(stack)) && seeValue
    {
      Prefix(TypeBool);
      os.PutStr(if b then "true" else "false");
    }

    /** `Int32`: the decimal text `itoa` produces. */
    method Int32(n: int32)
      requires PrefixAllowed(seeValue, stack, TypeInt32)
      modifies this, os
      ensures os.buffer == old(os.buffer) + Separator(old(stack)) + Dec(n as int)
      ensures stack == Counted(old(stack)) && seeValue
    {
      Prefix(TypeInt32);
      os.PutStr(Dec(n as int));
    }

    method Int64(n: int64)
      requires PrefixAllowed(seeValue, stack, TypeInt64)
      modifies this, os
      ensures os.buffer == old(os.buffer) + Separator(old(stack)) + Dec(n as int)
      ensures stack == Counted(old(stack)) && seeValue
    {
      Prefix(TypeInt64);
      os.PutStr(Dec(n as int));
    }

    /** `Double`, with the number formatting abstracted: the value's text is written. */
    method Double(text: string)
      requires PrefixAllowed(seeValue, stack, TypeDouble)
      modifies this, os
      ensures os.buffer == old(os.buffer) + Separator(old(stack)) + text
      ensures stack == Counted(old(stack)) && seeValue
    {
      Prefix(TypeDouble);
      os.PutStr(text);
    }

    /** `String`: quoted, with the escapes `EscapeChar` lists. */
    method String(t: string)
      requires PrefixAllowed(seeValue, stack, TypeString)
      modifies this, os
      ensures os.buffer == old(os.buffer) + Separator(old(stack)) + "\"" + Escape(t) + "\""
      ensures stack == Counted(old(stack)) && seeValue
    {
      Prefix(TypeString);
      os.PutChar('"');
      ghost var start := os.buffer;
      var k := 0;
      while k < |t|
        invariant k <= |t| && os.buffer == start + Escape(t[..k])
        invariant stack == Counted(old(stack)) && seeValue
      {
        ghost var b := os.buffer;
        os.PutStr(EscapeChar(t[k]));
        EscapeStep(start, b, os.buffer, t, k);
        k := k + 1;
      }
      assert t[..k] == t;
      os.PutChar('"');
    }

    /** `Key`: quoted, bytes copied without escaping. */
    method Key(key: string)
      requires PrefixAllowed(seeValue, stack, TypeString)
      modifies this, os
      ensures os.buffer == old(os.buffer) + Separator(old(stack)) + "\"" + key + "\""
      ensures stack == Counted(old(stack)) && seeValue
    {
      Prefix(TypeString);
      os.PutChar('"');
      os.PutStr(key);
      os.PutChar('"');
    }

    method StartObject()
      requires PrefixAllowed(seeValue, stack, TypeObject)
      modifies this, os
      ensures os.buffer == old(os.buffer) + Separator(old(stack)) + "{"
      ensures stack == Counted(old(stack)) + [Level(false, 0)] && seeValue
    {
      Prefix(TypeObject);
      stack := stack + [Level(false, 0)];
      os.PutChar('{');
    }

    method EndObject()
      requires stack != [] && !stack[|stack| - 1].inArray
      modifies this, os
      ensures os.buffer == old(os.buffer) + "}"
      ensures stack == old(stack[..|stack| - 1]) && seeValue == old(seeValue)
    {
      stack := stack[..|stack| - 1];
      os.PutChar('}');
    }

    method StartArray()
      requires PrefixAllowed(seeValue, stack, TypeArray)
      modifies this, os
      ensures os.buffer == old(os.buffer) + Separator(old(stack)) + "["
      ensures stack == Counted(old(stack)) + [Level(true, 0)] && seeValue
    {
      Prefix(TypeArray);
      stack := stack + [Level(true, 0)];
      os.PutChar('[');
    }

    method EndArray()
      requires stack != [] && stack[|stack| - 1].inArray
      modifies this, os
      ensures os.buffer == old(os.buffer) + "]"
      ensures stack == old(stack[..|stack| - 1]) && seeValue == old(seeValue)
    {
      stack := stack[..|stack| - 1];
      os.PutChar(']');
    }
  }

  /**
   * `Value::writeTo`: the handler calls for a whole value tree. The writer emits the
   * separator for the value's position and then `Text(v)`.
   */
  method WriteValue(w: JsonWriter, v: Value)
    requires PrefixAllowed(w.seeValue, w.stack, TypeOf(v))
    modifies w, w.os
    ensures w.os.buffer == old(w.os.buffer) + Separator(old(w.stack)) + Text(v)
    ensures w.stack == Counted(old(w.stack)) && w.seeValue
    decreases v, 1
  {
    match v
    case Null => w.Null();
    case Bool(b) => w.Bool(b);
    case Int32(n) => w.Int32(n);
    case Int64(n) => w.Int64(n);
    case Double(t) => w.Double(t);
    case String(t) => w.String(t);
    case Array(es) => WriteArray(w, es);
    case Object(ms) => WriteObject(w, ms);
  }

  /** The string loop's buffer after byte `k`: the escapes of the first `k + 1` bytes. */
  lemma EscapeStep(start: string, b: string, b': string, t: string, k: nat)
    requires k < |t| && b == start + Escape(t[..k]) && b' == b + EscapeChar(t[k])
    ensures b' == start + Escape(t[..k + 1])
  {
    var u := t[..k + 1];
    assert u[..k] == t[..k] && u[k] == t[k];
    assert Escape(u) == Escape(t[..k]) + EscapeChar(t[k]);
    Append(start, Escape(t[..k]), EscapeChar(t[k]));
  }

  lemma Append<T>(a: seq<T>, b: seq<T>, c: seq<T>)
    ensures a + b + c == a + (b + c)
  {
  }

  lemma Associate(a: string, b: string, c: string, d: string)
    ensures a + b + c + d == a + (b + c + d)
  {
  }

  /** Appending an element appends a comma, unless it is the first, and its text. */
  lemma {:induction false} ElementsTextSnoc(es: seq<Value>, e: Value)
    ensures ElementsText(es + [e]) == ElementsText(es) + (if es != [] then "," else "") + Text(e)
    decreases |es|
  {
    var xs := es + [e];
    if es == [] {
      assert xs == [e];
    } else {
      var rest := es[1..];
      assert xs[0] == es[0] && xs[1..] == rest + [e] && |xs| > 1;
      ElementsTextSnoc(rest, e);
      var head, tail, last := Text(es[0]), ElementsText(rest), Text(e);
      assert ElementsText(xs) == head + "," + ElementsText(rest + [e]);
      if rest == [] {
        assert es == [es[0]];
      } else {
        assert ElementsText(es) == head + "," + tail;
        JoinStep(head, tail, last);
      }
    }
  }

  /** Appending a member appends a comma, unless it is the first, and its text. */
  lemma {:induction false} MembersTextSnoc(ms: seq<Member>, m: Member)
    ensures MembersText(ms + [m]) == MembersText(ms) + (if ms != [] then "," else "") + MemberText(m)
    decreases |ms|
  {
    var xs := ms + [m];
    if ms == [] {
      assert xs == [m];
    } else {
      var rest := ms[1..];
      assert xs[0] == ms[0] && xs[1..] == rest + [m] && |xs| > 1;
      MembersTextSnoc(rest, m);
      var head, tail, last := MemberText(ms[0]), MembersText(rest), MemberText(m);
      assert MembersText(xs) == head + "," + MembersText(rest + [m]);
      if rest == [] {
        assert ms == [ms[0]];
      } else {
        assert MembersText(ms) == head + "," + tail;
        JoinStep(head, tail, last);
      }
    }
  }

  lemma JoinStep(head: string, tail: string, last: string)
    ensures head + "," + (tail + "," + last) == head + "," + tail + "," + last
  {
  }

  /** The array loop's buffer after element `k`: the text of the first `k + 1` elements. */
  lemma ArrayStep(open: string, b: string, b': string, es: seq<Value>, k: nat)
    requires k < |es| && b == open + ElementsText(es[..k])
    requires b' == b + (if k > 0 then "," else "") + Text(es[k])
    ensures b' == open + ElementsText(es[..k + 1])
  {
    assert es[..k + 1] == es[..k] + [es[k]];
    ElementsTextSnoc(es[..k], es[k]);
    Associate(open, ElementsText(es[..k]), if k > 0 then "," else "", Text(es[k]));
  }

  /** The object loop's buffer after member `k`: the text of the first `k + 1` members. */
  lemma ObjectStep(open: string, b: string, b': string, ms: seq<Member>, k: nat)
    requires k < |ms| && b == open + MembersText(ms[..k])
    requires b' == b + (if k > 0 then "," else "") + MemberText(ms[k])
    ensures b' == open + MembersText(ms[..k + 1])
  {
    assert ms[..k + 1] == ms[..k] + [ms[k]];
    MembersTextSnoc(ms[..k], ms[k]);
    Associate(open, MembersText(ms[..k]), if k > 0 then "," else "", MemberText(ms[k]));
  }

  /** An array: `StartArray`, each element, `EndArray`. */
  method WriteArray(w: JsonWriter, es: seq<Value>)
    requires PrefixAllowed(w.seeValue, w.stack, TypeArray)
    modifies w, w.os
    ensures w.os.buffer == old(w.os.buffer) + Separator(old(w.stack)) + Text(Array(es))
    ensures w.stack == Counted(old(w.stack)) && w.seeValue
    decreases es, 1
  {
    ghost var before := w.os.buffer + Separator(w.stack);
    ghost var outer := Counted(w.stack);
    w.StartArray();
    WriteElements(w, es, outer);
    w.EndArray();
    Associate(before, "[", ElementsText(es), "]");
    assert (outer + [Level(true, |es|)])[..|outer|] == outer;
  }

  /** The elements of an array, after `StartArray`, separated by commas. */
  method WriteElements(w: JsonWriter, es: seq<Value>, ghost outer: seq<Level>)
    requires w.stack == outer + [Level(true, 0)] && w.seeValue
    modifies w, w.os
    ensures w.os.buffer == old(w.os.buffer) + ElementsText(es)
    ensures w.stack == outer + [Level(true, |es|)] && w.seeValue
    decreases es, 0
  {
    ghost var open := w.os.buffer;
    var k := 0;
    while k < |es|
      invariant k <= |es|
      invariant w.stack == outer + [Level(true, k)] && w.seeValue
      invariant w.os.buffer == open + ElementsText(es[..k])
    {
      ghost var b := w.os.buffer;
      WriteElement(w, es[k], outer, k);
      ArrayStep(open, b, w.os.buffer, es, k);
      k := k + 1;
    }
    assert es[..k] == es;
  }

  /** The element at position `k` of the innermost open array. */
  method WriteElement(w: JsonWriter, v: Value, ghost outer: seq<Level>, ghost k: nat)
    requires w.stack == outer + [Level(true, k)] && w.seeValue
    modifies w, w.os
    ensures w.os.buffer == old(w.os.buffer) + (if k > 0 then "," else "") + Text(v)
    ensures w.stack == outer + [Level(true, k + 1)] && w.seeValue
    decreases v, 2
  {
    assert (outer + [Level(true, k)])[..|outer|] == outer;
    WriteValue(w, v);
  }

  /** An object: `StartObject`, `Key` and value per member, `EndObject`. */
  method WriteObject(w: JsonWriter, ms: seq<Member>)
    requires PrefixAllowed(w.seeValue, w.stack, TypeObject)
    modifies w, w.os
    ensures w.os.buffer == old(w.os.buffer) + Separator(old(w.stack)) + Text(Object(ms))
    ensures w.stack == Counted(old(w.stack)) && w.seeValue
    decreases ms, 1
  {
    ghost var before := w.os.buffer + Separator(w.stack);
    ghost var outer := Counted(w.stack);
    w.StartObject();
    WriteMembers(w, ms, outer);
    w.EndObject();
    Associate(before, "{", MembersText(ms), "}");
    assert (outer + [Level(false, 2 * |ms|)])[..|outer|] == outer;
  }

  /** The members of an object, after `StartObject`, separated by commas. */
  method WriteMembers(w: JsonWriter, ms: seq<Member>, ghost outer: seq<Level>)
    requires w.stack == outer + [Level(false, 0)] && w.seeValue
    modifies w, w.os
    ensures w.os.buffer == old(w.os.buffer) + MembersText(ms)
    ensures w.stack == outer + [Level(false, 2 * |ms|)] && w.seeValue
    decreases ms, 0
  {
    ghost var open := w.os.buffer;
    var k := 0;
    while k < |ms|
      invariant k <= |ms|
      invariant w.stack == outer + [Level(false, 2 * k)] && w.seeValue
      invariant w.os.buffer == open + MembersText(ms[..k])
    {
      ghost var b := w.os.buffer;
      WriteMember(w, ms[k], outer, k);
      ObjectStep(open, b, w.os.buffer, ms, k);
      k := k + 1;
    }
    assert ms[..k] == ms;
  }

  /** Member `k` of the innermost open object: the key, then its value after `:`. */
  method WriteMember(w: JsonWriter, m: Member, ghost outer: seq<Level>, ghost k: nat)
    requires w.stack == outer + [Level(false, 2 * k)] && w.seeValue
    modifies w, w.os
    ensures w.os.buffer == old(w.os.buffer) + (if k > 0 then "," else "") + MemberText(m)
    ensures w.stack == outer + [Level(false, 2 * k + 2)] && w.seeValue
    decreases m, 2
  {
    ghost var b0 := w.os.buffer;
    ghost var sep := if k > 0 then "," else "";
    assert Separator(w.stack) == sep;
    assert (outer + [Level(false, 2 * k)])[..|outer|] == outer;
    w.Key(m.key);
    ghost var b1 := w.os.buffer;
    assert b1 == b0 + sep + "\"" + m.key + "\"";
    assert Separator(w.stack) == ":";
    assert (outer + [Level(false, 2 * k + 1)])[..|outer|] == outer;
    WriteValue(w, m.value);
    assert w.os.buffer == b1 + ":" + Text(m.value);
    MemberConcat(b0, sep, m.key, Text(m.value));
  }

  lemma MemberConcat(b: string, sep: string, key: string, value: string)
    ensures b + sep + "\"" + key + "\"" + ":" + value == b + sep + ("\"" + key + "\"" + ":" + value)
  {
  }
}
