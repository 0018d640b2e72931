/**
 * The server stub generator (jrpc::ServiceStubGenerator): from a service description it
 * writes the C++ stub class that registers each procedure and notification with an
 * RpcService and unpacks `params` for the user's method. Templates are text with
 * `[name]` placeholders; `replaceAll` (not part of this model) is taken to replace every
 * occurrence of a placeholder, and a template is modelled as its texts with placeholders
 * between them, so a value put in place of one placeholder is not searched again.
 */
module StubGenerator {
  import opened Wrappers
  import opened Ascii
  import opened JsonValue

  // ---------------------------------------------------------------- templates

  /** The placeholders the templates use; `CapitalNotifyName` is `[NotifyName]`. */
  datatype Slot =
    | UserClassName | StubClassName | ServiceName | StubProcedureBindings | StubProcedureDefinitions
    | ProcedureName | StubProcedureName | ProcedureParams | NotifyName | StubNotifyName | NotifyParams
    | ParamsFromJsonArray | ParamsFromJsonObject | ProcedureArgs | NotifyArgs | CapitalNotifyName
    | Arg | Index | Method

  /** The name written between the square brackets. */
  function SlotName(slot: Slot): string {
    match slot
    case UserClassName => "userClassName"
    case StubClassName => "stubClassName"
    case ServiceName => "serviceName"
    case StubProcedureBindings => "stubProcedureBindings"
    case StubProcedureDefinitions => "stubProcedureDefinitions"
    case ProcedureName => "procedureName"
    case StubProcedureName => "stubProcedureName"
    case ProcedureParams => "procedureParams"
    case NotifyName => "notifyName"
    case StubNotifyName => "stubNotifyName"
    case NotifyParams => "notifyParams"
    case ParamsFromJsonArray => "paramsFromJsonArray"
    case ParamsFromJsonObject => "paramsFromJsonObject"
    case ProcedureArgs => "procedureArgs"
    case NotifyArgs => "notifyArgs"
    case CapitalNotifyName => "NotifyName"
    case Arg => "arg"
    case Index => "index"
    case Method => "method"
  }

  /** A stretch of template text, or a `[name]` placeholder. */
  datatype Piece = Text(text: string) | Hole(slot: Slot)

  type Template = seq<Piece>

  /** The text a placeholder stands for until it is replaced. */
  function Placeholder(slot: Slot): string {
    "[" + SlotName(slot) + "]"
  }

  function PieceText(p: Piece): string {
    match p
    case Text(t) => t
    case Hole(n) => Placeholder(n)
  }

  /** The text of a template, placeholders still in it written as `[name]`. */
  function Render(t: Template): string {
    if t == [] then [] else PieceText(t[0]) + Render(t[1..])
  }

  /**
   * A template written as its texts with one placeholder between each two: `texts[k]`,
   * then `slots[k]`, then `texts[k + 1]`.
   */
  function Weave(texts: seq<string>, slots: seq<Slot>): (r: Template)
    requires |texts| == |slots| + 1
    ensures |r| == 2 * |slots| + 1
  {
    if slots == [] then [Text(texts[0])]
    else [Text(texts[0]), Hole(slots[0])] + Weave(texts[1..], slots[1..])
  }

  /** `texts[0] + values[0] + texts[1] + ... + texts[n]`: the texts with values between them. */
  function Interleave(texts: seq<string>, values: seq<string>): string
    requires |texts| == |values| + 1
  {
    if values == [] then texts[0] else texts[0] + values[0] + Interleave(texts[1..], values[1..])
  }

  /** The texts of a template with three placeholders, spelled out. */
  lemma InterleaveThree(texts: seq<string>, a: string, b: string, c: string)
    requires |texts| == 4
    ensures Interleave(texts, [a, b, c]) == texts[0] + a + texts[1] + b + texts[2] + c + texts[3]
  {
    var vs := [a, b, c];
    assert vs[1..] == [b, c] && vs[1..][1..] == [c] && vs[1..][1..][1..] == [];
    assert texts[2..][1..] == texts[3..];
    var x := texts[0] + a;
    var y := texts[2] + c + texts[3];
    assert Interleave(texts[2..], [c]) == y;
    assert Interleave(texts[1..], [b, c]) == texts[1] + b + y;
    assert Interleave(texts, vs) == x + (texts[1] + b + y);
    AppendTwo(x, texts[1] + b, y);
    AppendTwo(x, texts[1], b);
    var z := x + texts[1] + b;
    AppendTwo(z, texts[2] + c, texts[3]);
    AppendTwo(z, texts[2], c);
  }

  /** `replaceAll(str, "[name]", value)`: every `name` placeholder becomes `value`. */
  function Replace(t: Template, slot: Slot, value: string): (r: Template)
    ensures |r| == |t|
    ensures forall i :: 0 <= i < |t| ==> r[i] == (if t[i] == Hole(slot) then Text(value) else t[i])
  {
    if t == [] then []
    else [if t[0] == Hole(slot) then Text(value) else t[0]] + Replace(t[1..], slot, value)
  }

  /**
   * The `replaceAll` calls of a template function, in order: placeholder `names[k]` is
   * replaced by `values[k]`.
   */
  function Fill(t: Template, names: seq<Slot>, values: seq<string>): (r: Template)
    requires |names| == |values|
    ensures |r| == |t|
    decreases |names|
  {
    if names == [] then t else Fill(Replace(t, names[0], values[0]), names[1..], values[1..])
  }

  /** The first call at or after `from` that names `slot`, if any. */
  function FirstIndexFrom(names: seq<Slot>, slot: Slot, from: nat): (r: Option<nat>)
    requires from <= |names|
    ensures r.Some? ==> from <= r.value < |names| && names[r.value] == slot
    ensures r.Some? ==> forall j :: from <= j < r.value ==> names[j] != slot
    ensures r.None? ==> forall j :: from <= j < |names| ==> names[j] != slot
    decreases |names| - from
  {
    if from == |names| then None
    else if names[from] == slot then Some(from)
    else FirstIndexFrom(names, slot, from + 1)
  }

  /** The first call that names `slot`, if any. */
  function FirstIndex(names: seq<Slot>, slot: Slot): (r: Option<nat>)
    ensures r.Some? ==> r.value < |names| && names[r.value] == slot
    ensures r.Some? ==> forall j :: 0 <= j < r.value ==> names[j] != slot
    ensures r.None? ==> slot !in names
  {
    FirstIndexFrom(names, slot, 0)
  }

  /** The first call naming a placeholder is found by searching the calls after the first. */
  lemma FirstIndexTail(names: seq<Slot>, slot: Slot)
    requires names != [] && names[0] != slot
    ensures FirstIndex(names, slot) == (match FirstIndex(names[1..], slot)
                                        case None => None
                                        case Some(j) => Some(j + 1))
  {
    var r, q := FirstIndex(names, slot), FirstIndex(names[1..], slot);
    if q.Some? {
      assert names[q.value + 1] == slot;
      assert forall j :: 0 <= j < q.value + 1 ==> names[j] != slot by {
        forall j | 0 < j < q.value + 1 ensures names[j] != slot {
          assert names[j] == names[1..][j - 1];
        }
      }
    }
  }

  /** What a placeholder reads as after the calls: the first value given for it, or itself. */
  function Bound(names: seq<Slot>, values: seq<string>, slot: Slot): string
    requires |names| == |values|
  {
    match FirstIndex(names, slot)
    case Some(k) => values[k]
    case None => Placeholder(slot)
  }

  function BoundAll(names: seq<Slot>, values: seq<string>, slots: seq<Slot>): (r: seq<string>)
    requires |names| == |values|
    ensures |r| == |slots|
  {
    seq(|slots|, k requires 0 <= k < |slots| => Bound(names, values, slots[k]))
  }

  /** One piece after the calls. */
  function FillPiece(p: Piece, names: seq<Slot>, values: seq<string>): Piece
    requires |names| == |values|
  {
    if p.Hole? && FirstIndex(names, p.slot).Some? then Text(values[FirstIndex(names, p.slot).value]) else p
  }

  /** The calls act piece by piece: each placeholder takes the first value given for it. */
  lemma {:induction false} FillAt(t: Template, names: seq<Slot>, values: seq<string>, i: nat)
    requires |names| == |values| && i < |t|
    ensures Fill(t, names, values)[i] == FillPiece(t[i], names, values)
    decreases |names|
  {
    if names != [] {
      var t' := Replace(t, names[0], values[0]);
      FillAt(t', names[1..], values[1..], i);
      if t[i].Hole? && t[i].slot != names[0] {
        FirstIndexTail(names, t[i].slot);
        match FirstIndex(names[1..], t[i].slot)
        case None =>
        case Some(j) => assert values[1..][j] == values[j + 1];
      }
    }
  }

  /** The text of a woven template whose placeholders have been filled. */
  lemma {:induction false} FillWeave(texts: seq<string>, slots: seq<Slot>, names: seq<Slot>, values: seq<string>)
    requires |texts| == |slots| + 1 && |names| == |values|
    ensures Render(Fill(Weave(texts, slots), names, values)) == Interleave(texts, BoundAll(names, values, slots))
    decreases |slots|
  {
    var w := Weave(texts, slots);
    var f := Fill(w, names, values);
    var b := BoundAll(names, values, slots);
    if slots == [] {
      FillAt(w, names, values, 0);
      assert f == [Text(texts[0])];
    } else {
      var w' := Weave(texts[1..], slots[1..]);
      var f' := Fill(w', names, values);
      assert w[2..] == w';
      forall i | 0 <= i < |f'|
        ensures f[2..][i] == f'[i]
      {
        FillAt(w, names, values, i + 2);
        FillAt(w', names, values, i);
      }
      assert f[2..] == f';
      FillAt(w, names, values, 0);
      FillAt(w, names, values, 1);
      assert PieceText(f[1]) == b[0];
      FillWeave(texts[1..], slots[1..], names, values);
      assert b[1..] == BoundAll(names, values, slots[1..]);
      assert f[1..][1..] == f';
      assert Render(f) == texts[0] + (b[0] + Render(f'));
    }
  }

  // The literal texts between the placeholders, in order.

  const ServiceStubTexts: seq<string> :=
    ["\n/*\n * This stub is generated by jrpc, DO NOT modify it!\n */\n#pragma once\n\n#include <cppJson/Value.h>\n\n#include <jrpc/util.h>\n#include <jrpc/server/RpcServer.h>\n#include <jrpc/server/RpcService.h>\n\nclass ",
     ";\n\nnamespace jrpc\n{\n\ntemplate <typename S>\nclass ",
     ": noncopyable\n{\nprotected:\n    explicit\n    ",
     "(RpcServer& server)\n    {\n        static_assert(std::is_same_v<S, ",
     ">,\n                      \"derived class name should be '",
     "'\");\n\n        auto service = new RpcService;\n\n        ",
     "\n\n        server.addService(\"",
     "\", service);\n    }\n\n    ~",
     "() = default;\n\nprivate:\n    ",
     "\n\nprivate:\n    S& convert()\n    {\n        return static_cast<S&>(*this);\n    }\n};\n\n}\n"]

  const ProcedureBindTexts: seq<string> :=
    ["\n        service->addProcedureReturn(\"",
     "\", \n                                    new ProcedureReturn(\n                                        std::bind(&",
     "::",
     ", this, _1, _2)\n                                        ",
     "\n                                    ));\n        "]

  const NotifyBindTexts: seq<string> :=
    ["\n        service->addProcedureNotify(\"",
     "\", \n                                    new ProcedureNotify(\n                                        std::bind(&",
     "::",
     ", this, _1)\n                                        ",
     "\n                                    ));\n        "]

  const ProcedureDefineTexts: seq<string> :=
    ["void ",
     "(json::Value& request, const RpcDoneCallback& done)\n    {\n        auto& params = request[\"params\"];\n\n        if (params.isArray()) {\n            ",
     "\n            convert().",
     "(",
     " UserDoneCallback(request, done));\n        }\n        else {\n            ",
     "\n            convert().",
     "(",
     " UserDoneCallback(request, done));\n        }\n    }"]

  const ProcedureDefineShortTexts: seq<string> :=
    ["\nvoid ",
     "(json::Value& request, const RpcDoneCallback& done)\n{\n    convert().",
     "(UserDoneCallback(request, done));\n}\n"]

  const NotifyDefineTexts: seq<string> :=
    ["\nvoid ",
     "(json::Value& request)\n{\n    auto& params = request[\"params\"];\n\n    if (params.isArray()) {\n        ",
     "\n        convert().",
     "(",
     ");\n    }\n    else {\n        ",
     "\n        convert().",
     "(",
     ");\n    }\n}\n"]

  const NotifyDefineShortTexts: seq<string> :=
    ["\n        void ",
     "(json::Value& request)\n        {\n            convert().",
     "();\n        }\n    "]

  const ArgsDefineTexts: seq<string> :=
    ["auto ",
     " = params[",
     "]",
     ";"]

  // ---------------------------------------------------------------- filling the templates
  //
  // Each template function is given by its result, the template's texts with the arguments
  // between them; the `...Replaces` lemma beside it proves that this is what the function's
  // `replaceAll` calls, in the code's order, make of the raw template.

  /** `serviceStubTemplate` the whole stub header: the forward declaration of the user's
   * class, then the stub class template whose constructor registers the bindings and whose
   * private part holds the definitions. */
  function ServiceStubTemplate(userClassName: string,
                               stubClassName: string,
                               serviceName: string,
                               stubProcedureBindings: string,
                               stubProcedureDefinitions: string): string {
    Interleave(ServiceStubTexts, [userClassName, stubClassName, stubClassName, userClassName, userClassName, stubProcedureBindings, serviceName, stubClassName, stubProcedureDefinitions])
  }

  /** What each placeholder of `serviceStubTemplate` reads as after its calls. */
  lemma ServiceStubTemplateBindings(userClassName: string,
                                    stubClassName: string,
                                    serviceName: string,
                                    stubProcedureBindings: string,
                                    stubProcedureDefinitions: string)
    ensures BoundAll([UserClassName, StubClassName, ServiceName, StubProcedureBindings, StubProcedureDefinitions],
                     [userClassName, stubClassName, serviceName, stubProcedureBindings, stubProcedureDefinitions],
                     [UserClassName, StubClassName, StubClassName, UserClassName, UserClassName, StubProcedureBindings, ServiceName, StubClassName, StubProcedureDefinitions])
         == [userClassName, stubClassName, stubClassName, userClassName, userClassName, stubProcedureBindings, serviceName, stubClassName, stubProcedureDefinitions]
  {
  }

  lemma ServiceStubTemplateReplaces(userClassName: string,
                                    stubClassName: string,
                                    serviceName: string,
                                    stubProcedureBindings: string,
                                    stubProcedureDefinitions: string)
    ensures Render(Fill(Weave(ServiceStubTexts, [UserClassName, StubClassName, StubClassName, UserClassName, UserClassName, StubProcedureBindings, ServiceName, StubClassName, StubProcedureDefinitions]),
                        [UserClassName, StubClassName, ServiceName, StubProcedureBindings, StubProcedureDefinitions],
                        [userClassName, stubClassName, serviceName, stubProcedureBindings, stubProcedureDefinitions]))
         == ServiceStubTemplate(userClassName, stubClassName, serviceName, stubProcedureBindings, stubProcedureDefinitions)
  {
    FillWeave(ServiceStubTexts, [UserClassName, StubClassName, StubClassName, UserClassName, UserClassName, StubProcedureBindings, ServiceName, StubClassName, StubProcedureDefinitions],
              [UserClassName, StubClassName, ServiceName, StubProcedureBindings, StubProcedureDefinitions],
              [userClassName, stubClassName, serviceName, stubProcedureBindings, stubProcedureDefinitions]);
    ServiceStubTemplateBindings(userClassName, stubClassName, serviceName, stubProcedureBindings, stubProcedureDefinitions);
  }

  /** `stubProcedureBindTemplate` the `addProcedureReturn` call that registers one procedure. */
  function StubProcedureBindTemplate(procedureName: string,
                                     stubClassName: string,
                                     stubProcedureName: string,
                                     procedureParams: string): string {
    Interleave(ProcedureBindTexts, [procedureName, stubClassName, stubProcedureName, procedureParams])
  }

  /** What each placeholder of `stubProcedureBindTemplate` reads as after its calls. */
  lemma StubProcedureBindTemplateBindings(procedureName: string,
                                          stubClassName: string,
                                          stubProcedureName: string,
                                          procedureParams: string)
    ensures BoundAll([ProcedureName, StubClassName, StubProcedureName, ProcedureParams],
                     [procedureName, stubClassName, stubProcedureName, procedureParams],
                     [ProcedureName, StubClassName, StubProcedureName, ProcedureParams])
         == [procedureName, stubClassName, stubProcedureName, procedureParams]
  {
  }

  lemma StubProcedureBindTemplateReplaces(procedureName: string,
                                          stubClassName: string,
                                          stubProcedureName: string,
                                          procedureParams: string)
    ensures Render(Fill(Weave(ProcedureBindTexts, [ProcedureName, StubClassName, StubProcedureName, ProcedureParams]),
                        [ProcedureName, StubClassName, StubProcedureName, ProcedureParams],
                        [procedureName, stubClassName, stubProcedureName, procedureParams]))
         == StubProcedureBindTemplate(procedureName, stubClassName, stubProcedureName, procedureParams)
  {
    FillWeave(ProcedureBindTexts, [ProcedureName, StubClassName, StubProcedureName, ProcedureParams],
              [ProcedureName, StubClassName, StubProcedureName, ProcedureParams],
              [procedureName, stubClassName, stubProcedureName, procedureParams]);
    StubProcedureBindTemplateBindings(procedureName, stubClassName, stubProcedureName, procedureParams);
  }

  /** `stubNotifyBindTemplate` the `addProcedureNotify` call that registers one notification. */
  function StubNotifyBindTemplate(notifyName: string,
                                  stubClassName: string,
                                  stubNotifyName: string,
                                  notifyParams: string): string {
    Interleave(NotifyBindTexts, [notifyName, stubClassName, stubNotifyName, notifyParams])
  }

  /** What each placeholder of `stubNotifyBindTemplate` reads as after its calls. */
  lemma StubNotifyBindTemplateBindings(notifyName: string,
                                       stubClassName: string,
                                       stubNotifyName: string,
                                       notifyParams: string)
    ensures BoundAll([NotifyName, StubClassName, StubNotifyName, NotifyParams],
                     [notifyName, stubClassName, stubNotifyName, notifyParams],
                     [NotifyName, StubClassName, StubNotifyName, NotifyParams])
         == [notifyName, stubClassName, stubNotifyName, notifyParams]
  {
  }

  lemma StubNotifyBindTemplateReplaces(notifyName: string,
                                       stubClassName: string,
                                       stubNotifyName: string,
                                       notifyParams: string)
    ensures Render(Fill(Weave(NotifyBindTexts, [NotifyName, StubClassName, StubNotifyName, NotifyParams]),
                        [NotifyName, StubClassName, StubNotifyName, NotifyParams],
                        [notifyName, stubClassName, stubNotifyName, notifyParams]))
         == StubNotifyBindTemplate(notifyName, stubClassName, stubNotifyName, notifyParams)
  {
    FillWeave(NotifyBindTexts, [NotifyName, StubClassName, StubNotifyName, NotifyParams],
              [NotifyName, StubClassName, StubNotifyName, NotifyParams],
              [notifyName, stubClassName, stubNotifyName, notifyParams]);
    StubNotifyBindTemplateBindings(notifyName, stubClassName, stubNotifyName, notifyParams);
  }

  /** `stubProcedureDefineTemplate` with parameters: the stub method unpacks `params` by
   * position when it is an array and by name otherwise, then calls the user's method with
   * the arguments and the done callback. */
  function StubProcedureDefineTemplate(paramsFromJsonArray: string,
                                       paramsFromJsonObject: string,
                                       stubProcedureName: string,
                                       procedureName: string,
                                       procedureArgs: string): string {
    Interleave(ProcedureDefineTexts, [stubProcedureName, paramsFromJsonArray, procedureName, procedureArgs, paramsFromJsonObject, procedureName, procedureArgs])
  }

  /** What each placeholder of `stubProcedureDefineTemplate` reads as after its calls. */
  lemma StubProcedureDefineTemplateBindings(paramsFromJsonArray: string,
                                            paramsFromJsonObject: string,
                                            stubProcedureName: string,
                                            procedureName: string,
                                            procedureArgs: string)
    ensures BoundAll([ParamsFromJsonArray, ParamsFromJsonObject, StubProcedureName, ProcedureName, ProcedureArgs],
                     [paramsFromJsonArray, paramsFromJsonObject, stubProcedureName, procedureName, procedureArgs],
                     [StubProcedureName, ParamsFromJsonArray, ProcedureName, ProcedureArgs, ParamsFromJsonObject, ProcedureName, ProcedureArgs])
         == [stubProcedureName, paramsFromJsonArray, procedureName, procedureArgs, paramsFromJsonObject, procedureName, procedureArgs]
  {
  }

  lemma StubProcedureDefineTemplateReplaces(paramsFromJsonArray: string,
                                            paramsFromJsonObject: string,
                                            stubProcedureName: string,
                                            procedureName: string,
                                            procedureArgs: string)
    ensures Render(Fill(Weave(ProcedureDefineTexts, [StubProcedureName, ParamsFromJsonArray, ProcedureName, ProcedureArgs, ParamsFromJsonObject, ProcedureName, ProcedureArgs]),
                        [ParamsFromJsonArray, ParamsFromJsonObject, StubProcedureName, ProcedureName, ProcedureArgs],
                        [paramsFromJsonArray, paramsFromJsonObject, stubProcedureName, procedureName, procedureArgs]))
         == StubProcedureDefineTemplate(paramsFromJsonArray, paramsFromJsonObject, stubProcedureName, procedureName, procedureArgs)
  {
    FillWeave(ProcedureDefineTexts, [StubProcedureName, ParamsFromJsonArray, ProcedureName, ProcedureArgs, ParamsFromJsonObject, ProcedureName, ProcedureArgs],
              [ParamsFromJsonArray, ParamsFromJsonObject, StubProcedureName, ProcedureName, ProcedureArgs],
              [paramsFromJsonArray, paramsFromJsonObject, stubProcedureName, procedureName, procedureArgs]);
    StubProcedureDefineTemplateBindings(paramsFromJsonArray, paramsFromJsonObject, stubProcedureName, procedureName, procedureArgs);
  }

  /** `stubProcedureDefineTemplate` without parameters: the stub method calls the user's
   * method with the done callback only. */
  function StubProcedureDefineShortTemplate(stubProcedureName: string,
                                            procedureName: string): string {
    Interleave(ProcedureDefineShortTexts, [stubProcedureName, procedureName])
  }

  /** What each placeholder of `stubProcedureDefineTemplate` reads as after its calls. */
  lemma StubProcedureDefineShortTemplateBindings(stubProcedureName: string,
                                                 procedureName: string)
    ensures BoundAll([StubProcedureName, ProcedureName],
                     [stubProcedureName, procedureName],
                     [StubProcedureName, ProcedureName])
         == [stubProcedureName, procedureName]
  {
  }

  lemma StubProcedureDefineShortTemplateReplaces(stubProcedureName: string,
                                                 procedureName: string)
    ensures Render(Fill(Weave(ProcedureDefineShortTexts, [StubProcedureName, ProcedureName]),
                        [StubProcedureName, ProcedureName],
                        [stubProcedureName, procedureName]))
         == StubProcedureDefineShortTemplate(stubProcedureName, procedureName)
  {
    FillWeave(ProcedureDefineShortTexts, [StubProcedureName, ProcedureName],
              [StubProcedureName, ProcedureName],
              [stubProcedureName, procedureName]);
    StubProcedureDefineShortTemplateBindings(stubProcedureName, procedureName);
  }

  /** `stubNotifyDefineTemplate` with parameters, as written: the text calls the user's
   * method through `[NotifyName]` while the calls replace `[notifyName]`, so the stub still
   * reads `[NotifyName]` where the notification's name belongs. */
  function StubNotifyDefineTemplateAsWritten(paramsFromJsonArray: string,
                                             paramsFromJsonObject: string,
                                             stubNotifyName: string,
                                             notifyName: string,
                                             notifyArgs: string): string {
    Interleave(NotifyDefineTexts, [stubNotifyName, paramsFromJsonArray, "[NotifyName]", notifyArgs, paramsFromJsonObject, "[NotifyName]", notifyArgs])
  }

  /** What each placeholder of `stubNotifyDefineTemplate` reads as after its calls. */
  lemma StubNotifyDefineTemplateAsWrittenBindings(paramsFromJsonArray: string,
                                                  paramsFromJsonObject: string,
                                                  stubNotifyName: string,
                                                  notifyName: string,
                                                  notifyArgs: string)
    ensures BoundAll([NotifyName, StubNotifyName, NotifyArgs, ParamsFromJsonArray, ParamsFromJsonObject],
                     [notifyName, stubNotifyName, notifyArgs, paramsFromJsonArray, paramsFromJsonObject],
                     [StubNotifyName, ParamsFromJsonArray, CapitalNotifyName, NotifyArgs, ParamsFromJsonObject, CapitalNotifyName, NotifyArgs])
         == [stubNotifyName, paramsFromJsonArray, "[NotifyName]", notifyArgs, paramsFromJsonObject, "[NotifyName]", notifyArgs]
  {
    assert Placeholder(CapitalNotifyName) == "[NotifyName]";
  }

  lemma StubNotifyDefineTemplateAsWrittenReplaces(paramsFromJsonArray: string,
                                                  paramsFromJsonObject: string,
                                                  stubNotifyName: string,
                                                  notifyName: string,
                                                  notifyArgs: string)
    ensures Render(Fill(Weave(NotifyDefineTexts, [StubNotifyName, ParamsFromJsonArray, CapitalNotifyName, NotifyArgs, ParamsFromJsonObject, CapitalNotifyName, NotifyArgs]),
                        [NotifyName, StubNotifyName, NotifyArgs, ParamsFromJsonArray, ParamsFromJsonObject],
                        [notifyName, stubNotifyName, notifyArgs, paramsFromJsonArray, paramsFromJsonObject]))
         == StubNotifyDefineTemplateAsWritten(paramsFromJsonArray, paramsFromJsonObject, stubNotifyName, notifyName, notifyArgs)
  {
    FillWeave(NotifyDefineTexts, [StubNotifyName, ParamsFromJsonArray, CapitalNotifyName, NotifyArgs, ParamsFromJsonObject, CapitalNotifyName, NotifyArgs],
              [NotifyName, StubNotifyName, NotifyArgs, ParamsFromJsonArray, ParamsFromJsonObject],
              [notifyName, stubNotifyName, notifyArgs, paramsFromJsonArray, paramsFromJsonObject]);
    StubNotifyDefineTemplateAsWrittenBindings(paramsFromJsonArray, paramsFromJsonObject, stubNotifyName, notifyName, notifyArgs);
  }

  /** `stubNotifyDefineTemplate` with parameters, replacing the placeholder its text uses:
   * the stub method unpacks `params` and calls the notification's method in both branches. */
  function StubNotifyDefineTemplate(paramsFromJsonArray: string,
                                    paramsFromJsonObject: string,
                                    stubNotifyName: string,
                                    notifyName: string,
                                    notifyArgs: string): string {
    Interleave(NotifyDefineTexts, [stubNotifyName, paramsFromJsonArray, notifyName, notifyArgs, paramsFromJsonObject, notifyName, notifyArgs])
  }

  /** What each placeholder of `stubNotifyDefineTemplate` reads as after its calls. */
  lemma StubNotifyDefineTemplateBindings(paramsFromJsonArray: string,
                                         paramsFromJsonObject: string,
                                         stubNotifyName: string,
                                         notifyName: string,
                                         notifyArgs: string)
    ensures BoundAll([CapitalNotifyName, StubNotifyName, NotifyArgs, ParamsFromJsonArray, ParamsFromJsonObject],
                     [notifyName, stubNotifyName, notifyArgs, paramsFromJsonArray, paramsFromJsonObject],
                     [StubNotifyName, ParamsFromJsonArray, CapitalNotifyName, NotifyArgs, ParamsFromJsonObject, CapitalNotifyName, NotifyArgs])
         == [stubNotifyName, paramsFromJsonArray, notifyName, notifyArgs, paramsFromJsonObject, notifyName, notifyArgs]
  {
  }

  lemma StubNotifyDefineTemplateReplaces(paramsFromJsonArray: string,
                                         paramsFromJsonObject: string,
                                         stubNotifyName: string,
                                         notifyName: string,
                                         notifyArgs: string)
    ensures Render(Fill(Weave(NotifyDefineTexts, [StubNotifyName, ParamsFromJsonArray, CapitalNotifyName, NotifyArgs, ParamsFromJsonObject, CapitalNotifyName, NotifyArgs]),
                        [CapitalNotifyName, StubNotifyName, NotifyArgs, ParamsFromJsonArray, ParamsFromJsonObject],
                        [notifyName, stubNotifyName, notifyArgs, paramsFromJsonArray, paramsFromJsonObject]))
         == StubNotifyDefineTemplate(paramsFromJsonArray, paramsFromJsonObject, stubNotifyName, notifyName, notifyArgs)
  {
    FillWeave(NotifyDefineTexts, [StubNotifyName, ParamsFromJsonArray, CapitalNotifyName, NotifyArgs, ParamsFromJsonObject, CapitalNotifyName, NotifyArgs],
              [CapitalNotifyName, StubNotifyName, NotifyArgs, ParamsFromJsonArray, ParamsFromJsonObject],
              [notifyName, stubNotifyName, notifyArgs, paramsFromJsonArray, paramsFromJsonObject]);
    StubNotifyDefineTemplateBindings(paramsFromJsonArray, paramsFromJsonObject, stubNotifyName, notifyName, notifyArgs);
  }

  /** `stubNotifyDefineTemplate` without parameters: the stub method calls the user's method
   * with no arguments. */
  function StubNotifyDefineShortTemplate(stubNotifyName: string,
                                         notifyName: string): string {
    Interleave(NotifyDefineShortTexts, [stubNotifyName, notifyName])
  }

  /** What each placeholder of `stubNotifyDefineTemplate` reads as after its calls. */
  lemma StubNotifyDefineShortTemplateBindings(stubNotifyName: string,
                                              notifyName: string)
    ensures BoundAll([StubNotifyName, NotifyName],
                     [stubNotifyName, notifyName],
                     [StubNotifyName, NotifyName])
         == [stubNotifyName, notifyName]
  {
  }

  lemma StubNotifyDefineShortTemplateReplaces(stubNotifyName: string,
                                              notifyName: string)
    ensures Render(Fill(Weave(NotifyDefineShortTexts, [StubNotifyName, NotifyName]),
                        [StubNotifyName, NotifyName],
                        [stubNotifyName, notifyName]))
         == StubNotifyDefineShortTemplate(stubNotifyName, notifyName)
  {
    FillWeave(NotifyDefineShortTexts, [StubNotifyName, NotifyName],
              [StubNotifyName, NotifyName],
              [stubNotifyName, notifyName]);
    StubNotifyDefineShortTemplateBindings(stubNotifyName, notifyName);
  }

  // ---------------------------------------------------------------- unpacking one argument

  /** The accessor `argsDefineTemplate` appends for a parameter of type `t`. */
  function Accessor(t: ValueType): (r: string)
    ensures r == "" <==> t == TypeObject || t == TypeArray
    ensures t != TypeNull && r != "" ==> |r| > 6 && r[..4] == ".get" && r[|r| - 2..] == "()"
  {
    match t
    case TypeBool => ".getBool()"
    case TypeInt32 => ".getInt32()"
    case TypeInt64 => ".getInt64()"
    case TypeDouble => ".getDouble()"
    case TypeString => ".getString()"
    case TypeObject => ""
    case TypeArray => ""
    case TypeNull => "bad type"
  }

  /** `argsDefineTemplate`: `auto <arg> = params[<index>]<accessor>;`. */
  function ArgsDefineTemplate(arg: string, index: string, t: ValueType): string {
    "auto " + arg + " = params[" + index + "]" + Accessor(t) + ";"
  }

  lemma ArgsDefineTemplateReplaces(arg: string, index: string, t: ValueType)
    ensures Render(Fill(Weave(ArgsDefineTexts, [Arg, Index, Method]), [Arg, Index, Method], [arg, index, Accessor(t)]))
         == ArgsDefineTemplate(arg, index, t)
  {
    var slots := [Arg, Index, Method];
    var values := [arg, index, Accessor(t)];
    FillWeave(ArgsDefineTexts, slots, slots, values);
    assert BoundAll(slots, values, slots) == values;
    InterleaveThree(ArgsDefineTexts, arg, index, Accessor(t));
  }

  /** The type name `genGenericParams` writes for a parameter of type `t`. */
  function TypeName(t: ValueType): (r: string)
    ensures t != TypeNull ==> |r| > 11 && r[..11] == "json::TYPE_"
  {
    match t
    case TypeBool => "json::TYPE_BOOL"
    case TypeInt32 => "json::TYPE_INT32"
    case TypeInt64 => "json::TYPE_INT64"
    case TypeDouble => "json::TYPE_DOUBLE"
    case TypeString => "json::TYPE_STRING"
    case TypeObject => "json::TYPE_OBJECT"
    case TypeArray => "json::TYPE_ARRAY"
    case TypeNull => "bad type"
  }

  // ---------------------------------------------------------------- the service description

  /** A procedure or notification: its name and its parameters, name and example value, in order. */
  datatype Rpc = Rpc(name: string, params: seq<Member>)

  /** The service being generated: its name, its procedures and its notifications. */
  datatype ServiceInfo = ServiceInfo(name: string, rpcReturn: seq<Rpc>, rpcNotify: seq<Rpc>)

  function GenUserClassName(info: ServiceInfo): (r: string)
    ensures |r| == |info.name| + 7 && r[..|info.name|] == info.name
  {
    info.name + "Service"
  }

  function GenStubClassName(info: ServiceInfo): (r: string)
    ensures r == GenUserClassName(info) + "Stub"
  {
    info.name + "ServiceStub"
  }

  function GenStubGenericName(r: Rpc): (s: string)
    ensures |s| == |r.name| + 4 && s[..|r.name|] == r.name
  {
    r.name + "Stub"
  }

  // ---------------------------------------------------------------- concatenation

  /** The strings of `parts` appended in order. */
  function Concat(parts: seq<string>): string {
    if parts == [] then "" else Concat(parts[..|parts| - 1]) + parts[|parts| - 1]
  }

  lemma ConcatStep(parts: seq<string>, i: nat)
    requires i < |parts|
    ensures Concat(parts[..i + 1]) == Concat(parts[..i]) + parts[i]
  {
    assert parts[..i + 1][..i] == parts[..i];
  }

  /** Appending is homomorphic: the text of two lists of parts is the two texts. */
  lemma {:induction false} ConcatAppend(a: seq<string>, b: seq<string>)
    ensures Concat(a + b) == Concat(a) + Concat(b)
    decreases |b|
  {
    if b == [] {
      assert a + b == a;
    } else {
      var b' := b[..|b| - 1];
      assert (a + b)[..|a + b| - 1] == a + b';
      ConcatAppend(a, b');
    }
  }

  // ---------------------------------------------------------------- per-parameter texts

  /** A parameter name as a C++ string literal. */
  function Quoted(key: string): string {
    "\"" + key + "\""
  }

  /** Appending pieces one at a time appends their concatenation. */
  lemma AppendTwo(r: string, a: string, b: string)
    ensures r + a + b == r + (a + b)
  {
  }

  lemma AppendFour(r: string, a: string, b: string, c: string, d: string)
    ensures r + a + b + c + d == r + (a + b + c + d)
  {
  }

  /** `, "key", json::TYPE_X` for one parameter. */
  function ParamSpec(m: Member): string {
    ", " + Quoted(m.key) + ", " + TypeName(TypeOf(m.value))
  }

  function ParamSpecs(ps: seq<Member>): (r: seq<string>)
    ensures |r| == |ps| && forall k :: 0 <= k < |ps| ==> r[k] == ParamSpec(ps[k])
  {
    seq(|ps|, k requires 0 <= k < |ps| => ParamSpec(ps[k]))
  }

  /** `key, ` for one parameter. */
  function ArgName(m: Member): string {
    m.key + ", "
  }

  function ArgNames(ps: seq<Member>): (r: seq<string>)
    ensures |r| == |ps| && forall k :: 0 <= k < |ps| ==> r[k] == ArgName(ps[k])
  {
    seq(|ps|, k requires 0 <= k < |ps| => ArgName(ps[k]))
  }

  /** The line that unpacks parameter `k` by position. */
  function ArrayLine(m: Member, k: nat): string {
    ArgsDefineTemplate(m.key, Dec(k), TypeOf(m.value)) + "\n"
  }

  function ArrayLines(ps: seq<Member>): (r: seq<string>)
    ensures |r| == |ps| && forall k :: 0 <= k < |ps| ==> r[k] == ArrayLine(ps[k], k)
  {
    seq(|ps|, k requires 0 <= k < |ps| => ArrayLine(ps[k], k))
  }

  /** The line that unpacks one parameter by its quoted name. */
  function ObjectLine(m: Member): string {
    ArgsDefineTemplate(m.key, Quoted(m.key), TypeOf(m.value)) + "\n"
  }

  function ObjectLines(ps: seq<Member>): (r: seq<string>)
    ensures |r| == |ps| && forall k :: 0 <= k < |ps| ==> r[k] == ObjectLine(ps[k])
  {
    seq(|ps|, k requires 0 <= k < |ps| => ObjectLine(ps[k]))
  }

  /** Parameters listed in order: the texts of two lists side by side are the two texts. */
  lemma ParamSpecsAppend(ps: seq<Member>, qs: seq<Member>)
    ensures Concat(ParamSpecs(ps + qs)) == Concat(ParamSpecs(ps)) + Concat(ParamSpecs(qs))
  {
    var l, r := ParamSpecs(ps + qs), ParamSpecs(ps) + ParamSpecs(qs);
    forall k | 0 <= k < |l|
      ensures l[k] == r[k]
    {
      if k < |ps| {
        assert (ps + qs)[k] == ps[k];
      } else {
        assert (ps + qs)[k] == qs[k - |ps|];
      }
    }
    assert l == r;
    ConcatAppend(ParamSpecs(ps), ParamSpecs(qs));
  }

  lemma ArgNamesAppend(ps: seq<Member>, qs: seq<Member>)
    ensures Concat(ArgNames(ps + qs)) == Concat(ArgNames(ps)) + Concat(ArgNames(qs))
  {
    var l, r := ArgNames(ps + qs), ArgNames(ps) + ArgNames(qs);
    forall k | 0 <= k < |l|
      ensures l[k] == r[k]
    {
      if k < |ps| {
        assert (ps + qs)[k] == ps[k];
      } else {
        assert (ps + qs)[k] == qs[k - |ps|];
      }
    }
    assert l == r;
    ConcatAppend(ArgNames(ps), ArgNames(qs));
  }

  lemma ObjectLinesAppend(ps: seq<Member>, qs: seq<Member>)
    ensures Concat(ObjectLines(ps + qs)) == Concat(ObjectLines(ps)) + Concat(ObjectLines(qs))
  {
    var l, r := ObjectLines(ps + qs), ObjectLines(ps) + ObjectLines(qs);
    forall k | 0 <= k < |l|
      ensures l[k] == r[k]
    {
      if k < |ps| {
        assert (ps + qs)[k] == ps[k];
      } else {
        assert (ps + qs)[k] == qs[k - |ps|];
      }
    }
    assert l == r;
    ConcatAppend(ObjectLines(ps), ObjectLines(qs));
  }

  /** A parameter added at the end is unpacked from the next position, counting from 0. */
  lemma ArrayLinesSnoc(ps: seq<Member>, m: Member)
    ensures Concat(ArrayLines(ps + [m]))
         == Concat(ArrayLines(ps)) + ArgsDefineTemplate(m.key, Dec(|ps|), TypeOf(m.value)) + "\n"
  {
    var ls := ArrayLines(ps + [m]);
    assert ls[..|ps|] == ArrayLines(ps);
    ConcatStep(ls, |ps|);
    assert ls[..|ps| + 1] == ls;
  }

  // ---------------------------------------------------------------- the generator loops

  /** `genGenericParams`: `, "key", json::TYPE_X` for each parameter, in order. */
  method GenGenericParams(r: Rpc) returns (result: string)
    ensures result == Concat(ParamSpecs(r.params))
  {
    result := "";
    for i := 0 to |r.params|
      invariant result == Concat(ParamSpecs(r.params)[..i])
    {
      var m := r.params[i];
      var field := Quoted(m.key);
      var typeName := TypeName(TypeOf(m.value));
      ConcatStep(ParamSpecs(r.params), i);
      AppendFour(result, ", ", field, ", ", typeName);
      result := result + ", " + field;
      result := result + ", " + typeName;
    }
    assert ParamSpecs(r.params)[..|r.params|] == ParamSpecs(r.params);
  }

  /** `genGenericArgs`: `key, ` for each parameter, in order. */
  method GenGenericArgs(r: Rpc) returns (result: string)
    ensures result == Concat(ArgNames(r.params))
  {
    result := "";
    for i := 0 to |r.params|
      invariant result == Concat(ArgNames(r.params)[..i])
    {
      ConcatStep(ArgNames(r.params), i);
      AppendTwo(result, r.params[i].key, ", ");
      result := result + r.params[i].key;
      result := result + ", ";
    }
    assert ArgNames(r.params)[..|r.params|] == ArgNames(r.params);
  }

  /** `genParamsFromJsonArray`: one line per parameter, unpacked by position 0, 1, 2, ... */
  method GenParamsFromJsonArray(r: Rpc) returns (result: string)
    ensures result == Concat(ArrayLines(r.params))
  {
    result := "";
    var index := 0;
    for i := 0 to |r.params|
      invariant index == i
      invariant result == Concat(ArrayLines(r.params)[..i])
    {
      var m := r.params[i];
      var line := ArgsDefineTemplate(m.key, Dec(index), TypeOf(m.value));
      index := index + 1;
      ConcatStep(ArrayLines(r.params), i);
      AppendTwo(result, line, "\n");
      result := result + line;
      result := result + "\n";
    }
    assert ArrayLines(r.params)[..|r.params|] == ArrayLines(r.params);
  }

  /** `genParamsFromJsonObject`: one line per parameter, unpacked by its quoted name. */
  method GenParamsFromJsonObject(r: Rpc) returns (result: string)
    ensures result == Concat(ObjectLines(r.params))
  {
    result := "";
    for i := 0 to |r.params|
      invariant result == Concat(ObjectLines(r.params)[..i])
    {
      var m := r.params[i];
      var index := Quoted(m.key);
      var line := ArgsDefineTemplate(m.key, index, TypeOf(m.value));
      ConcatStep(ObjectLines(r.params), i);
      AppendTwo(result, line, "\n");
      result := result + line;
      result := result + "\n";
    }
    assert ObjectLines(r.params)[..|r.params|] == ObjectLines(r.params);
  }

  // ---------------------------------------------------------------- bindings and definitions

  /** The registration of one procedure. */
  function ProcedureBinding(info: ServiceInfo, r: Rpc): string {
    StubProcedureBindTemplate(r.name, GenStubClassName(info), GenStubGenericName(r), Concat(ParamSpecs(r.params)))
  }

  /** The registrations of procedures in `rs`, each followed by a newline, in order. */
  function ProcedureBindings(info: ServiceInfo, rs: seq<Rpc>): string {
    if rs == [] then "" else ProcedureBindings(info, rs[..|rs| - 1]) + ProcedureBinding(info, rs[|rs| - 1]) + "\n"
  }

  /** The registration of one notification. */
  function NotifyBinding(info: ServiceInfo, r: Rpc): string {
    StubNotifyBindTemplate(r.name, GenStubClassName(info), GenStubGenericName(r), Concat(ParamSpecs(r.params)))
  }

  /** The registrations of notifications in `rs`, each followed by a newline, in order. */
  function NotifyBindings(info: ServiceInfo, rs: seq<Rpc>): string {
    if rs == [] then "" else NotifyBindings(info, rs[..|rs| - 1]) + NotifyBinding(info, rs[|rs| - 1]) + "\n"
  }

  /**
   * The stub method of one procedure: with parameters it unpacks them from an array or an
   * object and passes them before the done callback; without, it passes the callback only.
   */
  function ProcedureDefinition(r: Rpc): string
  {
    if |r.params| > 0 then
      StubProcedureDefineTemplate(Concat(ArrayLines(r.params)), Concat(ObjectLines(r.params)),
                                  GenStubGenericName(r), r.name, Concat(ArgNames(r.params)))
    else
      StubProcedureDefineShortTemplate(GenStubGenericName(r), r.name)
  }

  /** The stub methods of procedures in `rs`, each followed by a newline, in order. */
  function ProcedureDefinitions(rs: seq<Rpc>): string {
    if rs == [] then "" else ProcedureDefinitions(rs[..|rs| - 1]) + ProcedureDefinition(rs[|rs| - 1]) + "\n"
  }

  /**
   * The stub method of one notification as generated: the parameterised template keeps its
   * `[NotifyName]` text (see `NotifyNameLeftInStub`).
   */
  function NotifyDefinition(r: Rpc): string
  {
    if |r.params| > 0 then
      StubNotifyDefineTemplateAsWritten(Concat(ArrayLines(r.params)), Concat(ObjectLines(r.params)),
                               GenStubGenericName(r), r.name, Concat(ArgNames(r.params)))
    else
      StubNotifyDefineShortTemplate(GenStubGenericName(r), r.name)
  }

  /** The stub methods of notifications in `rs`, each followed by a newline, in order. */
  function NotifyDefinitions(rs: seq<Rpc>): string {
    if rs == [] then "" else NotifyDefinitions(rs[..|rs| - 1]) + NotifyDefinition(rs[|rs| - 1]) + "\n"
  }

  /** One more procedure adds its binding and a newline. */
  lemma ProcedureBindingsStep(info: ServiceInfo, rs: seq<Rpc>, i: nat)
    requires i < |rs|
    ensures ProcedureBindings(info, rs[..i + 1]) == ProcedureBindings(info, rs[..i]) + ProcedureBinding(info, rs[i]) + "\n"
  {
    assert rs[..i + 1][..i] == rs[..i];
  }

  /** One more notification adds its binding and a newline. */
  lemma NotifyBindingsStep(info: ServiceInfo, rs: seq<Rpc>, i: nat)
    requires i < |rs|
    ensures NotifyBindings(info, rs[..i + 1]) == NotifyBindings(info, rs[..i]) + NotifyBinding(info, rs[i]) + "\n"
  {
    assert rs[..i + 1][..i] == rs[..i];
  }

  /** One more procedure adds its stub method and a newline. */
  lemma ProcedureDefinitionsStep(rs: seq<Rpc>, i: nat)
    requires i < |rs|
    ensures ProcedureDefinitions(rs[..i + 1]) == ProcedureDefinitions(rs[..i]) + ProcedureDefinition(rs[i]) + "\n"
  {
    assert rs[..i + 1][..i] == rs[..i];
  }

  /** One more notification adds its stub method and a newline. */
  lemma NotifyDefinitionsStep(rs: seq<Rpc>, i: nat)
    requires i < |rs|
    ensures NotifyDefinitions(rs[..i + 1]) == NotifyDefinitions(rs[..i]) + NotifyDefinition(rs[i]) + "\n"
  {
    assert rs[..i + 1][..i] == rs[..i];
  }


  /** `genStubProcedureBindings`: each procedure's registration, then a newline, in order. */
  method GenStubProcedureBindings(info: ServiceInfo) returns (result: string)
    ensures result == ProcedureBindings(info, info.rpcReturn)
  {
    result := "";
    for i := 0 to |info.rpcReturn|
      invariant result == ProcedureBindings(info, info.rpcReturn[..i])
    {
      var p := info.rpcReturn[i];
      var procedureName := p.name;
      var stubClassName := GenStubClassName(info);
      var stubProcedureName := GenStubGenericName(p);
      var procedureParams := GenGenericParams(p);
      var binding := StubProcedureBindTemplate(procedureName, stubClassName, stubProcedureName, procedureParams);
      ProcedureBindingsStep(info, info.rpcReturn, i);
      result := result + binding;
      result := result + "\n";
    }
    assert info.rpcReturn[..|info.rpcReturn|] == info.rpcReturn;
  }

  /** `genStubNotifyBindings`: each notification's registration, then a newline, in order. */
  method GenStubNotifyBindings(info: ServiceInfo) returns (result: string)
    ensures result == NotifyBindings(info, info.rpcNotify)
  {
    result := "";
    for i := 0 to |info.rpcNotify|
      invariant result == NotifyBindings(info, info.rpcNotify[..i])
    {
      var p := info.rpcNotify[i];
      var notifyName := p.name;
      var stubClassName := GenStubClassName(info);
      var stubNotifyName := GenStubGenericName(p);
      var notifyParams := GenGenericParams(p);
      var binding := StubNotifyBindTemplate(notifyName, stubClassName, stubNotifyName, notifyParams);
      NotifyBindingsStep(info, info.rpcNotify, i);
      result := result + binding;
      result := result + "\n";
    }
    assert info.rpcNotify[..|info.rpcNotify|] == info.rpcNotify;
  }

  /** `genStubProcedureDefinitions`: each procedure's stub method, then a newline, in order. */
  method GenStubProcedureDefinitions(info: ServiceInfo) returns (result: string)
    ensures result == ProcedureDefinitions(info.rpcReturn)
  {
    result := "";
    for i := 0 to |info.rpcReturn|
      invariant result == ProcedureDefinitions(info.rpcReturn[..i])
    {
      var r := info.rpcReturn[i];
      var define := ProcedureDefine(r);
      ProcedureDefinitionsStep(info.rpcReturn, i);
      result := result + define;
      result := result + "\n";
    }
    assert info.rpcReturn[..|info.rpcReturn|] == info.rpcReturn;
  }

  /** The body of `genStubProcedureDefinitions`' loop for one procedure. */
  method ProcedureDefine(r: Rpc) returns (define: string)
    ensures define == ProcedureDefinition(r)
  {
    var procedureName := r.name;
    var stubProcedureName := GenStubGenericName(r);
    if |r.params| > 0 {
      var paramsFromJsonArray := GenParamsFromJsonArray(r);
      var paramsFromJsonObject := GenParamsFromJsonObject(r);
      var procedureArgs := GenGenericArgs(r);
      define := StubProcedureDefineTemplate(paramsFromJsonArray, paramsFromJsonObject, stubProcedureName,
                                            procedureName, procedureArgs);
    } else {
      define := StubProcedureDefineShortTemplate(stubProcedureName, procedureName);
    }
  }

  /** `genStubNotifyDefinitions`: each notification's stub method, then a newline, in order. */
  method GenStubNotifyDefinitions(info: ServiceInfo) returns (result: string)
    ensures result == NotifyDefinitions(info.rpcNotify)
  {
    result := "";
    for i := 0 to |info.rpcNotify|
      invariant result == NotifyDefinitions(info.rpcNotify[..i])
    {
      var r := info.rpcNotify[i];
      var define := NotifyDefine(r);
      NotifyDefinitionsStep(info.rpcNotify, i);
      result := result + define;
      result := result + "\n";
    }
    assert info.rpcNotify[..|info.rpcNotify|] == info.rpcNotify;
  }

  /** The body of `genStubNotifyDefinitions`' loop for one notification. */
  method NotifyDefine(r: Rpc) returns (define: string)
    ensures define == NotifyDefinition(r)
  {
    var notifyName := r.name;
    var stubNotifyName := GenStubGenericName(r);
    if |r.params| > 0 {
      var paramsFromJsonArray := GenParamsFromJsonArray(r);
      var paramsFromJsonObject := GenParamsFromJsonObject(r);
      var notifyArgs := GenGenericArgs(r);
      define := StubNotifyDefineTemplateAsWritten(paramsFromJsonArray, paramsFromJsonObject, stubNotifyName,
                                                  notifyName, notifyArgs);
    } else {
      define := StubNotifyDefineShortTemplate(stubNotifyName, notifyName);
    }
  }

  /**
   * `genStub`: the stub header, with the procedures' registrations before the notifications'
   * and the procedures' stub methods before the notifications'.
   */
  method GenStub(info: ServiceInfo) returns (stub: string)
    ensures stub == Interleave(ServiceStubTexts,
                               [GenUserClassName(info), GenStubClassName(info), GenStubClassName(info),
                                GenUserClassName(info), GenUserClassName(info),
                                ProcedureBindings(info, info.rpcReturn) + NotifyBindings(info, info.rpcNotify),
                                info.name, GenStubClassName(info),
                                ProcedureDefinitions(info.rpcReturn) + NotifyDefinitions(info.rpcNotify)])
  {
    var userClassName := GenUserClassName(info);
    var stubClassName := GenStubClassName(info);
    var serviceName := info.name;
    var bindings := GenStubProcedureBindings(info);
    var notifyBindings := GenStubNotifyBindings(info);
    bindings := bindings + notifyBindings;
    var definitions := GenStubProcedureDefinitions(info);
    var notifyDefinitions := GenStubNotifyDefinitions(info);
    definitions := definitions + notifyDefinitions;
    stub := ServiceStubTemplate(userClassName, stubClassName, serviceName, bindings, definitions);
  }

  // ---------------------------------------------------------------- the `[NotifyName]` placeholder

  /** The first three values of an interleaving, spelled out. */
  lemma InterleaveThird(texts: seq<string>, values: seq<string>)
    requires |texts| == |values| + 1 && |values| >= 3
    ensures Interleave(texts, values)
         == texts[0] + (values[0] + (texts[1] + (values[1] + (texts[2] + (values[2] + Interleave(texts[3..], values[3..]))))))
  {
    var t1, v1 := texts[1..], values[1..];
    var t2, v2 := t1[1..], v1[1..];
    assert t2[1..] == texts[3..] && v2[1..] == values[3..];
    AppendTwo(texts[0], values[0], Interleave(t1, v1));
    AppendTwo(t1[0], v1[0], Interleave(t2, v2));
    AppendTwo(t2[0], v2[0], Interleave(texts[3..], values[3..]));
  }

  /**
   * For a notification with parameters, the stub as written differs from the intended one:
   * where the intended stub calls the notification by name, the written one has the text
   * `[NotifyName]`, so the generated header does not compile.
   */
  lemma NotifyNameLeftInStub(paramsFromJsonArray: string, paramsFromJsonObject: string,
                             stubNotifyName: string, notifyName: string, notifyArgs: string)
    requires notifyName == [] || notifyName[0] != '['
    ensures StubNotifyDefineTemplateAsWritten(paramsFromJsonArray, paramsFromJsonObject, stubNotifyName, notifyName, notifyArgs)
         != StubNotifyDefineTemplate(paramsFromJsonArray, paramsFromJsonObject, stubNotifyName, notifyName, notifyArgs)
  {
    var texts := NotifyDefineTexts;
    var written := [stubNotifyName, paramsFromJsonArray, "[NotifyName]", notifyArgs, paramsFromJsonObject, "[NotifyName]", notifyArgs];
    var intended := [stubNotifyName, paramsFromJsonArray, notifyName, notifyArgs, paramsFromJsonObject, notifyName, notifyArgs];
    InterleaveThird(texts, written);
    InterleaveThird(texts, intended);
    var n := |texts[0]| + |stubNotifyName| + |texts[1]| + |paramsFromJsonArray| + |texts[2]|;
    var rest := Interleave(texts[3..], intended[3..]);
    assert rest == "(" + (notifyArgs + Interleave(texts[4..], intended[4..])) by {
      assert texts[3..][0] == "(" && texts[3..][1..] == texts[4..] && intended[3..][1..] == intended[4..];
      AppendTwo("(", notifyArgs, Interleave(texts[4..], intended[4..]));
    }
    var w := StubNotifyDefineTemplateAsWritten(paramsFromJsonArray, paramsFromJsonObject, stubNotifyName, notifyName, notifyArgs);
    var i := StubNotifyDefineTemplate(paramsFromJsonArray, paramsFromJsonObject, stubNotifyName, notifyName, notifyArgs);
    assert w[n] == '[';
    assert i[n] == (notifyName + rest)[0];
  }

  /** The generated stub method of a notification with parameters is the as-written text, not the intended one. */
  lemma GeneratedNotifyKeepsPlaceholder(r: Rpc)
    requires |r.params| > 0
    requires r.name == [] || r.name[0] != '['
    ensures NotifyDefinition(r)
         != StubNotifyDefineTemplate(Concat(ArrayLines(r.params)), Concat(ObjectLines(r.params)),
                                     GenStubGenericName(r), r.name, Concat(ArgNames(r.params)))
  {
    NotifyNameLeftInStub(Concat(ArrayLines(r.params)), Concat(ObjectLines(r.params)),
                         GenStubGenericName(r), r.name, Concat(ArgNames(r.params)));
  }
}
