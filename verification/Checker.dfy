/** The publication checker: which interfaces are accepted, and the private
    contract that is stored for the compiler. */
module Checker {
  import opened Values
  import opened LoraStack
  import opened Compiler
  import P = Publications

  /** For each node class, the declared types of its inputs on the runtime. */
  type Runtime = map<string, map<string, string>>

  const MAX_INPUTS := 256
  const MAX_OUTPUTS := 256
  const MAX_CHOICES := 100
  const MAX_BINDINGS := 32
  const MAX_SAFE := 9007199254740991

  predicate Supported(kind: string) {
    kind in {"string", "integer", "number", "boolean", "seed", "choice", "image", "lora_stack"}
  }

  predicate ExpectedClass(kind: string, class_: string) {
    match kind
    case "string" => class_ in {"CIFTextParameter", "CIFImageFrontendInterface"}
    case "integer" => class_ in {"CIFIntegerParameter", "CIFImageFrontendInterface"}
    case "number" => class_ in {"CIFDecimalParameter", "CIFImageFrontendInterface"}
    case "boolean" => class_ in {"CIFBooleanParameter", "CIFImageFrontendInterface"}
    case "seed" => class_ in {"CIFSeedParameter", "CIFImageFrontendInterface"}
    case "choice" => class_ == "CIFChoiceParameter"
    case "image" => class_ == "CIFImageParameter"
    case "lora_stack" => class_ == "CIFLoraStack"
    case _ => false
  }

  function ExpectedRuntimeType(kind: string): string {
    match kind
    case "integer" => "INT"
    case "seed" => "INT"
    case "number" => "FLOAT"
    case "boolean" => "BOOLEAN"
    case _ => "STRING"
  }

  predicate TypedClass(class_: string) {
    class_ in {"CIFLoraStack", "CIFTextParameter", "CIFIntegerParameter", "CIFDecimalParameter", "CIFBooleanParameter",
               "CIFSeedParameter", "CIFChoiceParameter"}
  }

  // ----- bindings -----

  function InputName(raw: Mapping): Value { if "input" in raw then raw["input"] else Get(raw, "input_name") }

  function RawTarget(raw: Value): Target {
    if raw.Obj? && InputName(raw.fields).Str?
      then Target(NodeIdText(Get(raw.fields, "node_id")), InputName(raw.fields).text)
    else Target("", "")
  }

  /** A binding that targets an existing input of a node of the expected class. */
  predicate BindingOk(raw: Value, kind: string, api: Graph, runtime: Runtime) {
    && raw.Obj? && (Get(raw.fields, "node_id").Str? || Get(raw.fields, "node_id").Int?)
    && InputName(raw.fields).Str? && 1 <= |InputName(raw.fields).text| <= 100
    && var t := RawTarget(raw);
       && InputsOf(api, t.node).Some? && t.name in InputsOf(api, t.node).value
       && ClassOf(api, t.node).Str?
       && var class_ := ClassOf(api, t.node).text;
          && ExpectedClass(kind, class_)
          && (kind == "image" ==> t.name == "image")
          && (TypedClass(class_) ==> t.name == "value")
          && (class_ in runtime && kind != "image" ==>
                t.name in runtime[class_] && runtime[class_][t.name] == ExpectedRuntimeType(kind))
          && (Get(raw.fields, "class_type").Null? || Get(raw.fields, "class_type") == Str(class_))
  }

  function PrivateBinding(raw: Value, api: Graph): Value {
    var t := RawTarget(raw);
    Obj(map["node_id" := Str(t.node), "input" := Str(t.name), "class_type" := ClassOf(api, t.node)])
  }

  predicate BindingsOk(raw: Value, kind: string, api: Graph, runtime: Runtime) {
    && raw.List? && 1 <= |raw.items| <= MAX_BINDINGS
    && (forall i :: 0 <= i < |raw.items| ==> BindingOk(raw.items[i], kind, api, runtime))
    && (forall i, j :: 0 <= i < j < |raw.items| ==> RawTarget(raw.items[i]) != RawTarget(raw.items[j]))
  }

  function PrivateBindings(raw: Value, api: Graph): seq<Value> {
    if raw.List? then seq(|raw.items|, i requires 0 <= i < |raw.items| => PrivateBinding(raw.items[i], api)) else []
  }

  method ValidateBindings(raw: Value, kind: string, api: Graph, runtime: Runtime) returns (r: Option<seq<Value>>)
    ensures r.Some? <==> BindingsOk(raw, kind, api, runtime)
    ensures r.Some? ==> r.value == PrivateBindings(raw, api)
  {
    hide BindingOk, PrivateBinding;
    if !raw.List? || !(1 <= |raw.items| <= MAX_BINDINGS) { return None; }
    var result: seq<Value>, seen: set<Target>, i := [], {}, 0;
    while i < |raw.items|
      invariant 0 <= i <= |raw.items| && |result| == i
      invariant seen == set k | 0 <= k < i :: RawTarget(raw.items[k])
      invariant forall k :: 0 <= k < i ==>
                  BindingOk(raw.items[k], kind, api, runtime) && result[k] == PrivateBinding(raw.items[k], api)
      invariant forall k, j :: 0 <= k < j < i ==> RawTarget(raw.items[k]) != RawTarget(raw.items[j])
    {
      if RawTarget(raw.items[i]) in seen || !BindingOk(raw.items[i], kind, api, runtime) { return None; }
      result := result + [PrivateBinding(raw.items[i], api)];
      seen, i := seen + {RawTarget(raw.items[i])}, i + 1;
    }
    return Some(result);
  }

  // ----- choices -----

  predicate ChoiceOk(raw: Value) {
    && raw.Obj? && raw.fields.Keys <= {"value", "label", "default_strength"}
    && Get(raw.fields, "value").Str? && P.IsPublicId(Get(raw.fields, "value").text)
    && Get(raw.fields, "label").Str? && 1 <= |Get(raw.fields, "label").text| <= 200
    && P.Strip(Get(raw.fields, "label").text) != ""
    && ("default_strength" in raw.fields ==> IsFinite(raw.fields["default_strength"]))
  }

  predicate ChoicesOk(raw: Mapping) {
    && Get(raw, "default").Str? && Get(raw, "choices").List?
    && var items := Get(raw, "choices").items;
       && 1 <= |items| <= MAX_CHOICES
       && (forall i :: 0 <= i < |items| ==> ChoiceOk(items[i]))
       && (forall i, j :: 0 <= i < j < |items| ==> ChoiceValue(items[i]) != ChoiceValue(items[j]))
       && exists i :: 0 <= i < |items| && ChoiceValue(items[i]) == Get(raw, "default").text
  }

  /** The published part of a choice is all of it. */
  method ChoiceContract(raw: Mapping) returns (r: Option<seq<Value>>)
    ensures r.Some? <==> ChoicesOk(raw)
    ensures r.Some? ==> r.value == Get(raw, "choices").items
  {
    hide P.IsPublicId, P.Strip;
    if !Get(raw, "default").Str? || !Get(raw, "choices").List? { return None; }
    var items := Get(raw, "choices").items;
    if !(1 <= |items| <= MAX_CHOICES) { return None; }
    var choices: seq<Value>, seen: set<string>, i := [], {}, 0;
    while i < |items|
      invariant 0 <= i <= |items| && choices == items[..i]
      invariant seen == set k | 0 <= k < i :: ChoiceValue(items[k])
      invariant forall k :: 0 <= k < i ==> ChoiceOk(items[k])
      invariant forall k, j :: 0 <= k < j < i ==> ChoiceValue(items[k]) != ChoiceValue(items[j])
    {
      if !ChoiceOk(items[i]) || ChoiceValue(items[i]) in seen { return None; }
      var choice := map["value" := items[i].fields["value"], "label" := items[i].fields["label"]];
      if "default_strength" in items[i].fields {
        choice := choice["default_strength" := items[i].fields["default_strength"]];
      }
      assert choice == items[i].fields;
      choices := choices + [Obj(choice)];
      seen, i := seen + {ChoiceValue(items[i])}, i + 1;
    }
    if Get(raw, "default").text !in seen { return None; }
    return Some(choices);
  }

  // ----- numbers -----

  predicate SafeInteger(v: Value) { v.Int? && -MAX_SAFE <= v.whole <= MAX_SAFE }

  /** The kind of number that an input of this type consists of. */
  predicate NumberOf(kind: string, v: Value) {
    if kind == "integer" then SafeInteger(v) else if kind == "seed" then v.Int? else IsFinite(v)
  }

  predicate BoundsOk(raw: Mapping, kind: string) {
    && NumberOf(kind, Get(raw, "minimum")) && NumberOf(kind, Get(raw, "maximum")) && NumberOf(kind, Get(raw, "step"))
    && Exact(Get(raw, "minimum")) <= Exact(Get(raw, "maximum")) && Exact(Get(raw, "step")) > 0.0
  }

  function SavedDefault(raw: Mapping, kind: string): Value {
    if kind == "seed" && "default" !in raw then Get(raw, "value") else Get(raw, "default")
  }

  predicate NumericOk(raw: Mapping, kind: string) {
    && BoundsOk(raw, kind) && NumberOf(kind, SavedDefault(raw, kind))
    && InSteps(Exact(SavedDefault(raw, kind)), Exact(Get(raw, "minimum")), Exact(Get(raw, "maximum")),
       Exact(Get(raw, "step")))
    && (kind == "seed" ==> Get(raw, "default_mode") in {Str("fixed"), Str("random")})
  }

  // ----- LoRA stacks and images -----

  predicate AllZero(stack: Value) {
    stack.List? && forall i :: 0 <= i < |stack.items| ==>
      stack.items[i].Obj? && IsZero(Get(stack.items[i].fields, "strength"))
  }

  /** The frozen node holds the same catalog, the same bounds and a valid value. */
  ghost predicate FrozenAgrees(raw: Mapping, binding: Value, api: Graph)
    requires Usable(raw) && "default" in raw
  {
    var inputs := InputsOf(api, RawTarget(binding).node);
    && inputs.Some? && Get(inputs.value, "catalog_json").Encoded? && Get(inputs.value, "value").Encoded?
    && Frozen(raw, Get(inputs.value, "catalog_json").content, Get(inputs.value, "minimum"),
       Get(inputs.value, "maximum"), Get(inputs.value, "step"))
    && Get(inputs.value, "value").content == raw["default"]
  }

  ghost predicate LoraOk(raw: Mapping, bindings: seq<Value>, api: Graph) {
    && Usable(raw) && "default" in raw && Accepts(raw["default"], raw) && AllZero(raw["default"])
    && Get(raw, "semantic_role") == Str("lora") && Get(raw, "required") == Bool(false)
    && forall i :: 0 <= i < |bindings| ==> FrozenAgrees(raw, bindings[i], api)
  }

  predicate ImageOk(raw: Mapping) {
    Get(raw, "semantic_role") == Str("reference_image") && Get(raw, "required") == Bool(true) && "default" !in raw
  }

  // ----- one input -----

  ghost predicate TypeOk(raw: Mapping, kind: string, api: Graph) {
    match kind
    case "string" => Get(raw, "default").Str? && |Get(raw, "default").text| <= MAX_TEXT
    case "boolean" => Get(raw, "default").Bool?
    case "choice" => ChoicesOk(raw)
    case "lora_stack" => Get(raw, "bindings").List? && LoraOk(raw, Get(raw, "bindings").items, api)
    case "image" => ImageOk(raw)
    case _ => NumericOk(raw, kind)
  }

  ghost predicate InputOk(raw: Value, api: Graph, runtime: Runtime) {
    && raw.Obj?
    && Get(raw.fields, "id").Str? && P.IsPublicId(Get(raw.fields, "id").text)
    && Get(raw.fields, "type").Str? && Supported(Get(raw.fields, "type").text)
    && Get(raw.fields, "semantic_role").Str? && P.IsPublicId(Get(raw.fields, "semantic_role").text)
    && Get(raw.fields, "required").Bool? && Get(raw.fields, "advanced").Bool?
    && BindingsOk(Get(raw.fields, "bindings"), Get(raw.fields, "type").text, api, runtime)
    && TypeOk(raw.fields, Get(raw.fields, "type").text, api)
  }

  /** The stored declaration: the checked fields and no others. */
  function PrivateFields(kind: string): set<string> {
    match kind
    case "string" => {"default"}
    case "boolean" => {"default"}
    case "choice" => {"default", "choices"}
    case "lora_stack" => {"items", "minimum", "maximum", "step", "default"}
    case "image" => {"media"}
    case "seed" => {"minimum", "maximum", "step", "default_mode"}
    case _ => {"minimum", "maximum", "step", "default"}
  }

  function PrivateInput(raw: Value, api: Graph): Mapping {
    if !raw.Obj? || !Get(raw.fields, "type").Str? then map[]
    else
      var m, kind := raw.fields, Get(raw.fields, "type").text;
      var kept := map key | key in m.Keys && key in {"id", "type", "semantic_role", "required"}
        + PrivateFields(kind) :: m[key];
      var stored := kept["bindings" := List(PrivateBindings(Get(m, "bindings"), api))];
      if kind == "seed" then stored["default" := SavedDefault(m, kind)] else stored
  }

  method ValidateInput(raw: Value, api: Graph, runtime: Runtime) returns (r: Option<Mapping>)
    ensures r.Some? <==> InputOk(raw, api, runtime)
    ensures r.Some? ==> r.value == PrivateInput(raw, api)
  {
    hide P.IsPublicId, Accepts, BindingsOk, ChoicesOk, Frozen;
    if !raw.Obj? { return None; }
    var m := raw.fields;
    if !Get(m, "id").Str? || !P.IsPublicId(Get(m, "id").text) { return None; }
    if !Get(m, "type").Str? || !Supported(Get(m, "type").text) { return None; }
    if !Get(m, "semantic_role").Str? || !P.IsPublicId(Get(m, "semantic_role").text) { return None; }
    if !Get(m, "required").Bool? || !Get(m, "advanced").Bool? { return None; }
    var kind := Get(m, "type").text;
    var bindings := ValidateBindings(Get(m, "bindings"), kind, api, runtime);
    if bindings.None? { return None; }
    var ok := CheckType(m, kind, api);
    BoundIsList(Get(m, "bindings"), kind, api, runtime);
    if !ok { return None; }
    return Some(PrivateInput(raw, api));
  }

  lemma {:induction false} BoundIsList(raw: Value, kind: string, api: Graph, runtime: Runtime)
    requires BindingsOk(raw, kind, api, runtime)
    ensures raw.List?
  {
  }

  method CheckType(m: Mapping, kind: string, api: Graph) returns (ok: bool)
    ensures ok <==> TypeOk(m, kind, api)
  {
    hide Accepts, ChoicesOk, Frozen, NumericOk, LoraOk;
    if kind == "string" { return Get(m, "default").Str? && |Get(m, "default").text| <= MAX_TEXT; }
    if kind == "boolean" { return Get(m, "default").Bool?; }
    if kind == "choice" {
      var choices := ChoiceContract(m);
      return choices.Some?;
    }
    if kind == "lora_stack" {
      if !Get(m, "bindings").List? { return false; }
      ok := LoraContract(m, Get(m, "bindings").items, api);
      return;
    }
    if kind == "image" { return ImageOk(m); }
    return NumericOk(m, kind);
  }

  method LoraContract(raw: Mapping, bindings: seq<Value>, api: Graph) returns (ok: bool)
    ensures ok <==> LoraOk(raw, bindings, api)
  {
    hide Accepts, Frozen;
    if "items" !in raw || "minimum" !in raw || "maximum" !in raw || "step" !in raw
      || "default" !in raw { return false; }
    var stack := ValidateLoraStack(raw["default"], raw);
    if !stack.Good? || !AllZero(stack.value) { return false; }
    if Get(raw, "semantic_role") != Str("lora") || Get(raw, "required") != Bool(false) { return false; }
    var i := 0;
    while i < |bindings|
      invariant 0 <= i <= |bindings| && forall k :: 0 <= k < i ==> FrozenAgrees(raw, bindings[k], api)
    {
      var agrees := CheckFrozen(raw, bindings[i], api);
      if !agrees { return false; }
      i := i + 1;
    }
    return true;
  }

  method CheckFrozen(raw: Mapping, binding: Value, api: Graph) returns (ok: bool)
    requires Usable(raw) && "default" in raw
    ensures ok <==> FrozenAgrees(raw, binding, api)
  {
    var inputs := InputsOf(api, RawTarget(binding).node);
    if inputs.None? || !Get(inputs.value, "catalog_json").Encoded?
      || !Get(inputs.value, "value").Encoded? { return false; }
    var catalog := Get(inputs.value, "catalog_json").content;
    if !catalog.List? || |catalog.items| > P.MAX_CATALOG { return false; }
    var i := 0;
    while i < |catalog.items|
      invariant 0 <= i <= |catalog.items| && forall k :: 0 <= k < i ==> PrivateItem(catalog.items[k])
    {
      if !PrivateItem(catalog.items[i]) { return false; }
      i := i + 1;
    }
    return raw["items"] == List(PublicParts(catalog.items))
           && raw["minimum"] == Get(inputs.value, "minimum") && raw["maximum"] == Get(inputs.value, "maximum")
           && raw["step"] == Get(inputs.value, "step") && Get(inputs.value, "value").content == raw["default"];
  }

  // ----- the interface -----

  predicate IsPositive(raw: Value) { raw.Obj? && Get(raw.fields, "semantic_role") == Str("positive_prompt") }

  predicate IsRequired(raw: Value) { raw.Obj? && Get(raw.fields, "required") == Bool(true) }

  predicate IsFinal(raw: Value) { raw.Obj? && Get(raw.fields, "role") == Str("final") }

  predicate TextKind(raw: Value) {
    raw.Obj? && Get(raw.fields, "type").Str?
      && Get(raw.fields, "type").text in {"string", "integer", "number", "boolean", "choice", "seed"}
  }

  function OutputId(raw: Mapping): Value { if "id" in raw then raw["id"] else Get(raw, "output_id") }

  /** The part of an output declaration that decides what kind of publication it is. */
  predicate OutputOk(raw: Value, text: bool) {
    && raw.Obj? && Get(raw.fields, "type") == (if text then Str("text") else Str("image"))
    && OutputId(raw.fields).Str? && P.IsPublicId(OutputId(raw.fields).text)
    && Get(raw.fields, "role") in {Str("final"), Str("preview"), Str("comparison"), Str("auxiliary")}
    && ("kind" in raw.fields ==> raw.fields["kind"] == raw.fields["type"])
  }

  function PrivateOutput(raw: Value): Value {
    if raw.Obj? then
      Obj(map["id" := OutputId(raw.fields), "role" := Get(raw.fields, "role"), "kind" := Get(raw.fields, "type")])
    else Null
  }

  function IdText(raw: Value): string { if raw.Obj? then TextOf(Get(raw.fields, "id")) else "" }

  function OutputIdText(raw: Value): string { if raw.Obj? then TextOf(OutputId(raw.fields)) else "" }

  ghost predicate InputsOk(raw: Value, api: Graph, runtime: Runtime) {
    && raw.List? && 1 <= |raw.items| <= MAX_INPUTS
    && (forall i :: 0 <= i < |raw.items| ==> InputOk(raw.items[i], api, runtime))
    && (forall i, j :: 0 <= i < j < |raw.items| ==> IdText(raw.items[i]) != IdText(raw.items[j]))
  }

  predicate OutputsOk(raw: Value, text: bool) {
    && raw.List? && 1 <= |raw.items| <= MAX_OUTPUTS
    && (forall i :: 0 <= i < |raw.items| ==> OutputOk(raw.items[i], text))
    && (forall i, j :: 0 <= i < j < |raw.items| ==> OutputIdText(raw.items[i]) != OutputIdText(raw.items[j]))
    && P.Count(raw.items, IsFinal) == 1
  }

  /** An image publication has one positive prompt; a text publication has one
      required input and only inputs of the simple types. */
  ghost predicate InterfaceOk(raw: Mapping, api: Graph, runtime: Runtime) {
    var text := IsText(raw);
    && InputsOk(Get(raw, "inputs"), api, runtime)
    && (if text then P.Count(Get(raw, "inputs").items, IsRequired) == 1
                     && forall i :: 0 <= i < |Get(raw, "inputs").items| ==> TextKind(Get(raw, "inputs").items[i])
        else P.Count(Get(raw, "inputs").items, IsPositive) == 1)
    && OutputsOk(Get(raw, "outputs"), text)
    && Get(raw, "unmapped_outputs_policy") == Str("collect")
  }

  function PrivateInputs(raw: seq<Value>, api: Graph): (r: seq<Value>)
    ensures |r| == |raw|
  {
    seq(|raw|, i requires 0 <= i < |raw| => Obj(PrivateInput(raw[i], api)))
  }

  function PrivateOutputs(raw: seq<Value>): (r: seq<Value>)
    ensures |r| == |raw|
  {
    seq(|raw|, i requires 0 <= i < |raw| => PrivateOutput(raw[i]))
  }

  function PrivateContract(raw: Mapping, api: Graph): Mapping {
    map["inputs" := List(PrivateInputs(Items(Get(raw, "inputs")), api)), "outputs" :=
      List(PrivateOutputs(Items(Get(raw, "outputs"))))]
  }

  // ----- what is stored -----

  /** The stored binding names the node as text, the input, and the node's class. */
  ghost predicate StoresBinding(b: Value, stored: Value, api: Graph) {
    && b.Obj? && stored.Obj? && stored.fields.Keys == {"node_id", "input", "class_type"}
    && stored.fields["node_id"].Str? && stored.fields["input"].Str?
    && var node := stored.fields["node_id"].text;
       && (Get(b.fields, "node_id") == Str(node) || exists i :: Get(b.fields, "node_id") == Int(i) && node == Print(i))
       && (if "input" in b.fields then b.fields["input"] else Get(b.fields, "input_name")) == stored.fields["input"]
       && stored.fields["class_type"] == ClassOf(api, node)
  }

  /** The stored input has the declared fields of its type, its resolved bindings,
      and nothing else; a seed's default may have been declared as its value. */
  ghost predicate StoresInput(raw: Value, stored: Value, api: Graph) {
    && raw.Obj? && stored.Obj? && Get(raw.fields, "type").Str?
    && var m, d := raw.fields, stored.fields;
       && (forall key :: key in {"id", "type", "semantic_role", "required"} ==> Get(d, key) == Get(m, key))
       && (forall key :: key in d ==>
           key in {"id", "type", "semantic_role", "required", "bindings", "default", "choices", "items",
                                              "minimum", "maximum", "step", "default_mode", "media"})
       && Get(m, "bindings").List? && Get(d, "bindings").List?
       && |Get(d, "bindings").items| == |Get(m, "bindings").items|
       && (forall i :: 0 <= i < |Get(m, "bindings").items| ==>
             StoresBinding(Get(m, "bindings").items[i], Get(d, "bindings").items[i], api))
       && StoresFields(m, d, Get(m, "type").text)
  }

  /** The fields that depend on the type. */
  ghost predicate StoresFields(m: Mapping, d: Mapping, kind: string) {
    match kind
    case "image" => Get(d, "media") == Get(m, "media") && "default" !in d
    case "seed" =>
      && Get(d, "default") == (if "default" in m then m["default"] else Get(m, "value"))
      && (forall key :: key in {"minimum", "maximum", "step", "default_mode"} ==> Get(d, key) == Get(m, key))
    case "choice" => Get(d, "default") == Get(m, "default") && Get(d, "choices") == Get(m, "choices")
    case "lora_stack" =>
      forall key :: key in {"items", "minimum", "maximum", "step", "default"} ==> Get(d, key) == Get(m, key)
    case "string" => Get(d, "default") == Get(m, "default")
    case "boolean" => Get(d, "default") == Get(m, "default")
    case _ => forall key :: key in {"minimum", "maximum", "step", "default"} ==> Get(d, key) == Get(m, key)
  }

  ghost predicate StoresOutput(raw: Value, stored: Value) {
    && raw.Obj? && stored.Obj? && stored.fields.Keys == {"id", "role", "kind"}
    && stored.fields["id"] == (if "id" in raw.fields then raw.fields["id"] else Get(raw.fields, "output_id"))
    && stored.fields["role"] == Get(raw.fields, "role") && stored.fields["kind"] == Get(raw.fields, "type")
  }

  /** The stored contract has every input and every output as declared, in order. */
  ghost predicate Stores(raw: Mapping, contract: Mapping, api: Graph) {
    && Get(raw, "inputs").List? && Get(contract, "inputs").List? && Get(raw, "outputs").List?
    && Get(contract, "outputs").List?
    && |Get(contract, "inputs").items| == |Get(raw, "inputs").items|
    && |Get(contract, "outputs").items| == |Get(raw, "outputs").items|
    && (forall i :: 0 <= i < |Get(raw, "inputs").items| ==>
          StoresInput(Get(raw, "inputs").items[i], Get(contract, "inputs").items[i], api))
    && (forall i :: 0 <= i < |Get(raw, "outputs").items| ==>
          StoresOutput(Get(raw, "outputs").items[i], Get(contract, "outputs").items[i]))
  }

  lemma {:induction false} StoredAsDeclared(raw: Mapping, api: Graph, runtime: Runtime)
    requires InterfaceOk(raw, api, runtime)
    ensures Stores(raw, PrivateContract(raw, api), api)
  {
    hide InputOk, OutputOk, PrivateInput, PrivateOutput, IsText, TextKind, P.Count, StoresInput, StoresOutput;
    var inputs, outputs := Get(raw, "inputs").items, Get(raw, "outputs").items;
    forall i | 0 <= i < |inputs| ensures StoresInput(inputs[i], Obj(PrivateInput(inputs[i], api)), api) {
      InputIsStored(inputs[i], api, runtime);
    }
    forall i | 0 <= i < |outputs| ensures StoresOutput(outputs[i], PrivateOutput(outputs[i])) {
      OutputIsStored(outputs[i], IsText(raw));
    }
  }

  lemma {:induction false} OutputIsStored(raw: Value, text: bool)
    requires OutputOk(raw, text)
    ensures StoresOutput(raw, PrivateOutput(raw))
  {
  }

  lemma {:induction false} InputIsStored(raw: Value, api: Graph, runtime: Runtime)
    requires InputOk(raw, api, runtime)
    ensures StoresInput(raw, Obj(PrivateInput(raw, api)), api)
  {
    hide BindingOk, P.IsPublicId, TypeOk, StoresBinding, PrivateBinding, PrivateInput, StoresFields;
    var m, d, bindings := raw.fields, PrivateInput(raw, api), Get(raw.fields, "bindings").items;
    forall i | 0 <= i < |bindings| ensures StoresBinding(bindings[i], PrivateBinding(bindings[i], api), api) {
      BindingIsStored(bindings[i], Get(m, "type").text, api, runtime);
    }
    CommonIsStored(raw, api);
    FieldsAreStored(raw, api, runtime);
  }

  lemma {:induction false} CommonIsStored(raw: Value, api: Graph)
    requires raw.Obj? && Get(raw.fields, "type").Str? && Supported(Get(raw.fields, "type").text)
    ensures var d := PrivateInput(raw, api);
            && (forall key :: key in {"id", "type", "semantic_role", "required"} ==>
                Get(d, key) == Get(raw.fields, key))
            && (forall key :: key in d ==>
                  key in {"id", "type", "semantic_role", "required", "bindings", "default", "choices", "items",
                    "minimum",
                          "maximum", "step", "default_mode", "media"})
            && Get(d, "bindings") == List(PrivateBindings(Get(raw.fields, "bindings"), api))
  {
  }

  lemma {:induction false} FieldsAreStored(raw: Value, api: Graph, runtime: Runtime)
    requires InputOk(raw, api, runtime)
    ensures StoresFields(raw.fields, PrivateInput(raw, api), Get(raw.fields, "type").text)
  {
    hide BindingsOk, P.IsPublicId, ChoicesOk, LoraOk, NumericOk, PrivateBindings;
  }

  lemma {:induction false} BindingIsStored(raw: Value, kind: string, api: Graph, runtime: Runtime)
    requires BindingOk(raw, kind, api, runtime)
    ensures StoresBinding(raw, PrivateBinding(raw, api), api)
  {
  }

  method ValidateInterface(raw: Mapping, api: Graph, runtime: Runtime) returns (r: Option<Mapping>)
    ensures r.Some? <==> InterfaceOk(raw, api, runtime)
    ensures r.Some? ==> r.value == PrivateContract(raw, api) && Stores(raw, r.value, api)
  {
    hide InputsOk, OutputsOk, PrivateInputs, PrivateOutputs, IsText, TextKind, P.Count, Stores;
    if InterfaceOk(raw, api, runtime) { StoredAsDeclared(raw, api, runtime); }
    var text := IsText(raw);
    var inputs, positives, requireds, simple := ValidateInputs(Get(raw, "inputs"), api, runtime);
    InputsAreList(Get(raw, "inputs"), api, runtime);
    if inputs.None? { return None; }
    if !text && positives != 1 { return None; }
    if text && (requireds != 1 || !simple) { return None; }
    var outputs := ValidateOutputs(Get(raw, "outputs"), text);
    if outputs.None? || Get(raw, "unmapped_outputs_policy") != Str("collect") { return None; }
    return Some(map["inputs" := List(inputs.value), "outputs" := List(outputs.value)]);
  }

  lemma {:induction false} InputsAreList(raw: Value, api: Graph, runtime: Runtime)
    ensures InputsOk(raw, api, runtime) ==> raw.List?
  {
  }

  lemma {:induction false} StoredNone(api: Graph)
    ensures PrivateInputs([], api) == [] && P.Count([], IsPositive) == 0 && P.Count([], IsRequired) == 0
  {
  }

  lemma {:induction false} StoredNext(raw: seq<Value>, api: Graph, i: nat)
    requires i < |raw|
    ensures PrivateInputs(raw[..i + 1], api) == PrivateInputs(raw[..i], api) + [Obj(PrivateInput(raw[i], api))]
    ensures P.Count(raw[..i + 1], IsPositive) == P.Count(raw[..i], IsPositive) + if IsPositive(raw[i]) then 1 else 0
    ensures P.Count(raw[..i + 1], IsRequired) == P.Count(raw[..i], IsRequired) + if IsRequired(raw[i]) then 1 else 0
  {
    assert raw[..i + 1][..i] == raw[..i];
  }

  method ValidateInputs(raw: Value, api: Graph, runtime: Runtime)
    returns (r: Option<seq<Value>>, positives: nat, requireds: nat, simple: bool)
    ensures r.Some? <==> InputsOk(raw, api, runtime)
    ensures r.Some? ==>
              && r.value == PrivateInputs(raw.items, api)
              && positives == P.Count(raw.items, IsPositive) && requireds == P.Count(raw.items, IsRequired)
              && (simple <==> forall i :: 0 <= i < |raw.items| ==> TextKind(raw.items[i]))
  {
    hide InputOk, PrivateInput, PrivateInputs, TextKind, IsPositive, IsRequired, IdText, P.Count;
    StoredNone(api);
    r, positives, requireds, simple := None, 0, 0, true;
    if !raw.List? || !(1 <= |raw.items| <= MAX_INPUTS) { return; }
    var stored: seq<Value>, ids: set<string>, i := [], {}, 0;
    while i < |raw.items|
      invariant 0 <= i <= |raw.items| && stored == PrivateInputs(raw.items[..i], api) && r.None?
      invariant ids == set k | 0 <= k < i :: IdText(raw.items[k])
      invariant forall k :: 0 <= k < i ==> InputOk(raw.items[k], api, runtime)
      invariant forall k, j :: 0 <= k < j < i ==> IdText(raw.items[k]) != IdText(raw.items[j])
      invariant positives == P.Count(raw.items[..i], IsPositive) && requireds == P.Count(raw.items[..i], IsRequired)
      invariant simple <==> forall k :: 0 <= k < i ==> TextKind(raw.items[k])
    {
      var input := ValidateInput(raw.items[i], api, runtime);
      if input.None? || IdText(raw.items[i]) in ids { return; }
      StoredNext(raw.items, api, i);
      ids := ids + {IdText(raw.items[i])};
      if IsPositive(raw.items[i]) { positives := positives + 1; }
      if IsRequired(raw.items[i]) { requireds := requireds + 1; }
      simple := simple && TextKind(raw.items[i]);
      stored := stored + [Obj(input.value)];
      i := i + 1;
    }
    assert raw.items[..i] == raw.items;
    r := Some(stored);
  }

  method ValidateOutputs(raw: Value, text: bool) returns (r: Option<seq<Value>>)
    ensures r.Some? <==> OutputsOk(raw, text)
    ensures r.Some? ==> raw.List? && r.value == PrivateOutputs(raw.items)
  {
    hide OutputOk, PrivateOutput;
    if !raw.List? || !(1 <= |raw.items| <= MAX_OUTPUTS) { return None; }
    var outputs: seq<Value>, ids: set<string>, finals, i := [], {}, 0, 0;
    while i < |raw.items|
      invariant 0 <= i <= |raw.items| && outputs == PrivateOutputs(raw.items[..i])
      invariant ids == set k | 0 <= k < i :: OutputIdText(raw.items[k])
      invariant forall k :: 0 <= k < i ==> OutputOk(raw.items[k], text)
      invariant forall k, j :: 0 <= k < j < i ==> OutputIdText(raw.items[k]) != OutputIdText(raw.items[j])
      invariant finals == P.Count(raw.items[..i], IsFinal)
    {
      if !OutputOk(raw.items[i], text) || OutputIdText(raw.items[i]) in ids { return None; }
      assert raw.items[..i + 1][..i] == raw.items[..i];
      ids := ids + {OutputIdText(raw.items[i])};
      if IsFinal(raw.items[i]) { finals := finals + 1; }
      outputs := outputs + [PrivateOutput(raw.items[i])];
      i := i + 1;
    }
    assert raw.items[..i] == raw.items;
    if finals != 1 { return None; }
    return Some(outputs);
  }
}
