/**
 * The JSON value the reader produces and the writer consumes (json::Value of cppJson).
 * Objects keep their members in insertion order; keys may repeat, as `addMember` appends.
 */
module JsonValue {
  import opened Wrappers

  newtype int32 = x: int | -0x8000_0000 <= x < 0x8000_0000
  newtype int64 = x: int | -0x8000_0000_0000_0000 <= x < 0x8000_0000_0000_0000

  predicate FitsInt32(n: int) { -0x8000_0000 <= n < 0x8000_0000 }

  predicate FitsInt64(n: int) { -0x8000_0000_0000_0000 <= n < 0x8000_0000_0000_0000 }

  /** json::ValueType */
  datatype ValueType =
    | TypeNull | TypeBool | TypeInt32 | TypeInt64 | TypeDouble | TypeString | TypeObject | TypeArray

  /**
   * A double keeps the text it was read from or will be written as: floating-point
   * conversion (strtod, "%.17g") is outside the model.
   */
  datatype Value =
    | Null
    | Bool(b: bool)
    | Int32(i32: int32)
    | Int64(i64: int64)
    | Double(text: string)
    | String(s: string)
    | Array(elems: seq<Value>)
    | Object(members: seq<Member>)

  datatype Member = Member(key: string, value: Value)

  function TypeOf(v: Value): ValueType {
    match v
    case Null => TypeNull
    case Bool(_) => TypeBool
    case Int32(_) => TypeInt32
    case Int64(_) => TypeInt64
    case Double(_) => TypeDouble
    case String(_) => TypeString
    case Array(_) => TypeArray
    case Object(_) => TypeObject
  }

  /** `getSize`: element count of an array, member count of an object. */
  function Size(v: Value): nat {
    match v
    case Array(es) => |es|
    case Object(ms) => |ms|
    case _ => 0
  }

  /** The value of the first member named `key`, as `findMember` finds it. */
  function FindIn(ms: seq<Member>, key: string): (r: Option<Value>)
    ensures r.None? <==> forall i :: 0 <= i < |ms| ==> ms[i].key != key
    ensures r.Some? ==> exists i :: 0 <= i < |ms| && ms[i].key == key && ms[i].value == r.value &&
                          forall j :: 0 <= j < i ==> ms[j].key != key
  {
    if ms == [] then None
    else if ms[0].key == key then Some(ms[0].value)
    else
      var r := FindIn(ms[1..], key);
      assert forall i :: 1 <= i < |ms| ==> ms[i] == ms[1..][i - 1];
      r
  }

  /** `findMember` on any value: only objects have members. */
  function FindMember(v: Value, key: string): Option<Value> {
    if v.Object? then FindIn(v.members, key) else None
  }

  predicate HasMember(v: Value, key: string) {
    FindMember(v, key).Some?
  }

  /**
   * `operator[]`. The program applies it only to members it has checked exist;
   * for a missing key the model yields null.
   */
  function Get(v: Value, key: string): Value {
    FindMember(v, key).GetOr(Null)
  }

  /** The keys of an object's members, in member order. */
  function Keys(ms: seq<Member>): (ks: seq<string>)
    ensures |ks| == |ms| && forall i :: 0 <= i < |ms| ==> ks[i] == ms[i].key
  {
    if ms == [] then [] else [ms[0].key] + Keys(ms[1..])
  }
}
