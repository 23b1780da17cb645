/** Interfaces that the checker accepts and that some request nevertheless breaks:
    one for each of the two flaws. */
module AcceptedFlaws {
  import opened Values
  import opened LoraStack
  import opened Compiler
  import opened Checker
  import opened CheckerSoundness
  import P = Publications

  function Node(class_: string): Value {
    Obj(map["class_type" := Str(class_), "inputs" := Obj(map["value" := Int(0)])])
  }

  function Declaration(id: string, kind: string, role: string, node: string): Mapping {
    map["id" := Str(id), "type" := Str(kind), "semantic_role" := Str(role), "required" := Bool(false), "advanced" :=
      Bool(false),
        "bindings" := List([Obj(map["node_id" := Str(node), "input" := Str("value")])])]
  }

  function Numeric(id: string, kind: string, role: string, node: string, maximum: Value, step: Value): Value {
    Obj(Declaration(id, kind, role, node)["minimum" := Int(0)]["maximum" := maximum]["step" := step]["default" :=
      Int(0)])
  }

  function Text(id: string, role: string, node: string): Value {
    Obj(Declaration(id, "string", role, node)["default" := Str("")])
  }

  const Image := Obj(map["id" := Str("image"), "type" := Str("image"), "role" := Str("final")])

  function Interface(inputs: seq<Value>): Mapping {
    map["inputs" := List(inputs), "outputs" := List([Image]), "unmapped_outputs_policy" := Str("collect")]
  }

  lemma {:induction false} BindingIsOk(kind: string, node: string, class_: string, api: Graph)
    requires ExpectedClass(kind, class_) && TypedClass(class_) && kind != "image"
    requires node in api && api[node] == Node(class_)
    ensures BindingsOk(List([Obj(map["node_id" := Str(node), "input" := Str("value")])]), kind, api, map[])
  {
    var b := Obj(map["node_id" := Str(node), "input" := Str("value")]);
    assert RawTarget(b) == Target(node, "value");
  }

  lemma {:induction false} ZeroIsOnAStep(maximum: Value, step: Value)
    requires IsFinite(maximum) && IsFinite(step) && Exact(maximum) >= 0.0 && Exact(step) > 0.0
    ensures InSteps(0.0, 0.0, Exact(maximum), Exact(step))
  {
    assert Rounded(0.0) == 0.0;
    assert 0.0 == Times(0, Exact(step));
    MultipleMeans(0.0, Exact(step));
  }

  lemma {:induction false} NumericIsOk(id: string, kind: string, role: string, node: string, class_: string,
                                       maximum: Value, step: Value, api: Graph)
    requires P.IsPublicId(id) && P.IsPublicId(role) && kind in {"integer", "number"} && ExpectedClass(kind, class_)
             && TypedClass(class_)
    requires node in api && api[node] == Node(class_)
    requires NumberOf(kind, maximum) && NumberOf(kind, step) && Exact(maximum) >= 0.0 && Exact(step) > 0.0
    ensures InputOk(Numeric(id, kind, role, node, maximum, step), api, map[])
  {
    hide BindingsOk, P.IsPublicId, TypeOk, ExpectedClass, TypedClass;
    BindingIsOk(kind, node, class_, api);
    NumbersAreOk(id, kind, role, node, maximum, step, api);
  }

  lemma {:induction false} NumbersAreOk(id: string, kind: string, role: string, node: string, maximum: Value,
                                        step: Value, api: Graph)
    requires kind in {"integer", "number"}
    requires NumberOf(kind, maximum) && NumberOf(kind, step) && Exact(maximum) >= 0.0 && Exact(step) > 0.0
    ensures TypeOk(Numeric(id, kind, role, node, maximum, step).fields, kind, api)
    ensures BoundsOk(Numeric(id, kind, role, node, maximum, step).fields, kind)
  {
    hide InSteps;
    ZeroIsOnAStep(maximum, step);
  }

  lemma {:induction false} TextIsOk(id: string, role: string, node: string, api: Graph)
    requires P.IsPublicId(id) && P.IsPublicId(role) && node in api && api[node] == Node("CIFTextParameter")
    ensures InputOk(Text(id, role, node), api, map[])
  {
    hide BindingsOk, P.IsPublicId;
    BindingIsOk("string", node, "CIFTextParameter", api);
  }

  lemma {:induction false} Counted<T>(items: seq<T>, item: T, p: T -> bool)
    ensures P.Count(items + [item], p) == P.Count(items, p) + if p(item) then 1 else 0
    ensures P.Count([], p) == 0
  {
    assert (items + [item])[..|items|] == items;
  }

  lemma {:induction false} OutputsAreOk()
    ensures OutputsOk(List([Image]), false) && FinalKind([Image]) == Some(Str("image"))
  {
    Counted([], Image, IsFinal);
    assert [] + [Image] == [Image];
  }

  lemma {:induction false} InterfaceIsOk(inputs: seq<Value>, api: Graph)
    requires InputsOk(List(inputs), api, map[]) && P.Count(inputs, IsPositive) == 1
    ensures InterfaceOk(Interface(inputs), api, map[]) && !IsText(Interface(inputs))
  {
    hide InputsOk, OutputsOk;
    OutputsAreOk();
  }

  lemma {:induction false} InputsAreOk(x: Value, y: Value, api: Graph)
    requires InputOk(x, api, map[]) && InputOk(y, api, map[])
    ensures InputsOk(List([x]), api, map[])
    ensures IdText(x) != IdText(y) ==> InputsOk(List([x, y]), api, map[])
  {
    hide InputOk;
  }

  lemma {:induction false} Positives(x: Value, y: Value)
    ensures P.Count([x], IsPositive) == if IsPositive(x) then 1 else 0
    ensures P.Count([x, y], IsPositive) == P.Count([x], IsPositive) + if IsPositive(y) then 1 else 0
  {
    hide IsPositive;
    Counted([], x, IsPositive);
    Counted([x], y, IsPositive);
    assert [] + [x] == [x] && [x] + [y] == [x, y];
  }

  lemma {:induction false} OneInput(x: Value, api: Graph)
    requires InputOk(x, api, map[]) && x.Obj? && IsPositive(x)
    ensures InterfaceOk(Interface([x]), api, map[])
    ensures PromptIsText(Interface([x])) <==> Get(x.fields, "type") in {Str("string"), Str("choice"), Str("seed")}
    ensures AllCountable(Interface([x])) <==> Countable(x.fields)
  {
    hide InputOk, InputsOk, IsPositive, IsText, Countable, InterfaceOk;
    InputsAreOk(x, x, api);
    Positives(x, x);
    InterfaceIsOk([x], api);
    assert Get(Interface([x]), "inputs").items[0] == x;
  }

  lemma {:induction false} TwoInputs(x: Value, y: Value, api: Graph)
    requires InputOk(x, api, map[]) && InputOk(y, api, map[]) && IdText(x) != IdText(y)
    requires x.Obj? && y.Obj? && IsPositive(x) && !IsPositive(y)
    ensures InterfaceOk(Interface([x, y]), api, map[])
    ensures PromptIsText(Interface([x, y])) <==> Get(x.fields, "type") in {Str("string"), Str("choice"), Str("seed")}
    ensures AllCountable(Interface([x, y])) ==> Countable(y.fields)
  {
    hide InputOk, InputsOk, IsPositive, IsText, Countable, InterfaceOk;
    InputsAreOk(x, y, api);
    Positives(x, y);
    InterfaceIsOk([x, y], api);
    var items := Get(Interface([x, y]), "inputs").items;
    assert items[0] == x && items[1] == y;
  }

  // ----- a prompt that is a number -----

  const NumberPrompt: Value := Numeric("prompt", "integer", "positive_prompt", "1", Int(10), Int(1))

  /** An accepted image publication whose positive prompt is an integer. */
  lemma {:induction false} NumberPromptIsAccepted(api: Graph)
    requires "1" in api && api["1"] == Node("CIFIntegerParameter")
    ensures InterfaceOk(Interface([NumberPrompt]), api, map[])
    ensures !PromptIsText(Interface([NumberPrompt])) && AllCountable(Interface([NumberPrompt]))
  {
    hide InputOk, Divides, InterfaceOk, PromptIsText, AllCountable, Rounded;
    NumericIsOk("prompt", "integer", "positive_prompt", "1", "CIFIntegerParameter", Int(10), Int(1), api);
    OneInput(NumberPrompt, api);
    DividesTen();
  }

  lemma {:induction false} DividesTen()
    ensures Divides(10.0, 1.0)
  {
    RoundedWhole(10);
  }

  // ----- a number with too many steps -----

  const TextPrompt: Value := Text("prompt", "positive_prompt", "1")
  const Fine: Value := Numeric("amount", "number", "other", "2", Float(1000000000000000000000000000000.0),
    Float(0.00001))

  /** An accepted image publication with a number from 0 to 1e30 in steps of 1e-05. */
  lemma {:induction false} FineNumberIsAccepted(api: Graph)
    requires "1" in api && api["1"] == Node("CIFTextParameter") && "2" in api && api["2"] == Node("CIFDecimalParameter")
    ensures InterfaceOk(Interface([TextPrompt, Fine]), api, map[])
    ensures PromptIsText(Interface([TextPrompt, Fine])) && !AllCountable(Interface([TextPrompt, Fine]))
  {
    hide InputOk, InterfaceOk, Countable, PromptIsText, AllCountable, P.IsPublicId, ExpectedClass, TypedClass, Rounded;
    TextPromptIsOk(api);
    FineIsOk(api);
    TwoInputs(TextPrompt, Fine, api);
    FineIsUncountable();
  }

  lemma {:induction false} TextPromptIsOk(api: Graph)
    requires "1" in api && api["1"] == Node("CIFTextParameter")
    ensures InputOk(TextPrompt, api, map[])
  {
    hide InputOk;
    TextIsOk("prompt", "positive_prompt", "1", api);
  }

  lemma {:induction false} FineIsOk(api: Graph)
    requires "2" in api && api["2"] == Node("CIFDecimalParameter")
    ensures InputOk(Fine, api, map[])
  {
    hide InputOk, Numeric, Rounded;
    NumericIsOk("amount", "number", "other", "2", "CIFDecimalParameter", Float(1000000000000000000000000000000.0),
      Float(0.00001), api);
  }

  lemma {:induction false} FineIsUncountable()
    ensures !Countable(Fine.fields)
  {
    hide Rounded;
    NumbersAreOk("amount", "number", "other", "2", Float(1000000000000000000000000000000.0), Float(0.00001), map[]);
    RoundedRange(1000000000000000000000000000000.0);
  }
}
