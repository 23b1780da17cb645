/** The rules for an interface that can be published, written out in one place with
    their constants, and proved to be what the checker checks. */
module InterfaceRules {
  import opened Values
  import opened LoraStack
  import opened Compiler
  import opened Checker
  import P = Publications
  import C = CatalogChanges
  import R = CompiledResults

  // ----- bindings -----

  /** Which node class an input of a type may drive. */
  const DRIVES: set<(string, string)> := {
    ("string", "CIFTextParameter"), ("integer", "CIFIntegerParameter"), ("number", "CIFDecimalParameter"),
    ("boolean", "CIFBooleanParameter"), ("seed", "CIFSeedParameter"), ("choice", "CIFChoiceParameter"),
    ("image", "CIFImageParameter"), ("lora_stack", "CIFLoraStack"), ("string", "CIFImageFrontendInterface"),
    ("integer", "CIFImageFrontendInterface"), ("number", "CIFImageFrontendInterface"),
    ("boolean", "CIFImageFrontendInterface"), ("seed", "CIFImageFrontendInterface") }

  predicate RuntimeType(kind: string, type_: string) {
    (kind, type_) in {("string", "STRING"), ("integer", "INT"), ("seed", "INT"), ("number", "FLOAT"),
      ("boolean", "BOOLEAN"),
                      ("choice", "STRING"), ("lora_stack", "STRING")}
  }

  /** The binding names an existing input of a node that the type may drive, and
      agrees with the runtime where that knows the class. */
  ghost predicate Drives(b: Mapping, node: string, name: string, kind: string, api: Graph, runtime: Runtime) {
    && (Get(b, "node_id") == Str(node) || exists i :: Get(b, "node_id") == Int(i) && node == Print(i))
    && (if "input" in b then b["input"] else Get(b, "input_name")) == Str(name) && 1 <= |name| <= 100
    && node in api && api[node].Obj? && Get(api[node].fields, "inputs").Obj?
    && name in Get(api[node].fields, "inputs").fields
    && Get(api[node].fields, "class_type").Str?
    && var class_ := Get(api[node].fields, "class_type").text;
       && (kind, class_) in DRIVES
       && (class_ == "CIFImageParameter" ==> name == "image")
       && (class_ !in {"CIFImageParameter", "CIFImageFrontendInterface"} ==> name == "value")
       && (class_ in runtime && kind != "image" ==> name in runtime[class_] && RuntimeType(kind, runtime[class_][name]))
       && Get(b, "class_type") in {Null, Str(class_)}
  }

  lemma {:induction false} ExpectedMeans(kind: string, class_: string)
    requires Supported(kind)
    ensures ExpectedClass(kind, class_) <==> (kind, class_) in DRIVES
    ensures ExpectedClass(kind, class_) ==>
              (TypedClass(class_) <==> class_ !in {"CIFImageParameter", "CIFImageFrontendInterface"})
              && (kind == "image" <==> class_ == "CIFImageParameter")
    ensures kind != "image" ==> forall t :: t == ExpectedRuntimeType(kind) <==> RuntimeType(kind, t)
  {
  }

  lemma {:induction false} BindingMeans(raw: Value, kind: string, api: Graph, runtime: Runtime)
    requires Supported(kind)
    ensures BindingOk(raw, kind, api, runtime) <==>
              raw.Obj? && exists node, name :: Drives(raw.fields, node, name, kind, api, runtime)
    ensures raw.Obj? ==> forall node, name :: Drives(raw.fields, node, name, kind, api, runtime) ==>
            RawTarget(raw) == Target(node, name)
  {
    hide ExpectedClass, TypedClass, ExpectedRuntimeType, DRIVES, RuntimeType, Supported, Print;
    if raw.Obj? {
      var t := RawTarget(raw);
      if ClassOf(api, t.node).Str? { ExpectedMeans(kind, ClassOf(api, t.node).text); }
      forall node, name | Drives(raw.fields, node, name, kind, api, runtime) ensures t == Target(node, name) {
      }
      if BindingOk(raw, kind, api, runtime) { assert Drives(raw.fields, t.node, t.name, kind, api, runtime); }
    }
  }

  // ----- what each type declares -----

  /** In range, and a whole number of steps above the minimum, as decimals have it. */
  ghost predicate StepsTo(v: real, minimum: real, maximum: real, step: real) {
    minimum <= v <= maximum && exists k :: -CAPACITY < k as real < CAPACITY && Rounded(v - minimum) == Times(k, step)
  }

  ghost predicate Bounds(m: Mapping, default: Value) {
    && IsFinite(Get(m, "minimum")) && IsFinite(Get(m, "maximum")) && IsFinite(Get(m, "step"))
    && IsFinite(default) && Exact(Get(m, "step")) > 0.0
    && StepsTo(Exact(default), Exact(Get(m, "minimum")), Exact(Get(m, "maximum")), Exact(Get(m, "step")))
  }

  ghost predicate GoodOption(option: Value) {
    && option.Obj?
    && (forall key :: key in option.fields ==> key == "value" || key == "label" || key == "default_strength")
    && Get(option.fields, "value").Str? && P.IsPublicId(Get(option.fields, "value").text)
    && Get(option.fields, "label").Str? && |Get(option.fields, "label").text| <= 200
    && !C.Blank(Get(option.fields, "label").text)
    && ("default_strength" in option.fields ==> IsFinite(option.fields["default_strength"]))
  }

  ghost predicate GoodOptions(m: Mapping) {
    && Get(m, "choices").List?
    && var options := Get(m, "choices").items;
       && 1 <= |options| <= 100 && (forall i :: 0 <= i < |options| ==> GoodOption(options[i]))
       && (forall i, j :: 0 <= i < j < |options| ==> Get(options[i].fields, "value") != Get(options[j].fields, "value"))
       && exists i :: 0 <= i < |options| && Get(options[i].fields, "value") == Get(m, "default")
  }

  /** The frozen node of a stack has the published items, the bounds and the default. */
  ghost predicate SameStack(m: Mapping, node: string, api: Graph) {
    && node in api && api[node].Obj? && Get(api[node].fields, "inputs").Obj?
    && var inputs := Get(api[node].fields, "inputs").fields;
       && Get(inputs, "catalog_json").Encoded? && PrivateCatalog(Get(inputs, "catalog_json").content)
       && Get(m, "items") == List(PublicParts(Get(inputs, "catalog_json").content.items))
       && (forall key :: key in {"minimum", "maximum", "step"} ==> Get(inputs, key) == Get(m, key))
       && Get(inputs, "value") == Encoded(Get(m, "default"))
  }

  predicate IsOff(entry: Value) { entry.Obj? && Get(entry.fields, "strength") in {Int(0), Float(0.0)} }

  ghost predicate GoodStack(m: Mapping, api: Graph) {
    && (forall key :: key in {"items", "minimum", "maximum", "step", "default"} ==> key in m)
    && Accepts(Get(m, "default"), m)
    && (forall i :: 0 <= i < |Items(Get(m, "default"))| ==> IsOff(Items(Get(m, "default"))[i]))
    && Get(m, "semantic_role") == Str("lora") && Get(m, "required") == Bool(false)
    && Get(m, "bindings").List?
    && forall i :: 0 <= i < |Get(m, "bindings").items| ==>
       SameStack(m, RawTarget(Get(m, "bindings").items[i]).node, api)
  }

  predicate Safe(v: Value) { v.Int? && -9007199254740991 <= v.whole <= 9007199254740991 }

  ghost predicate GoodType(m: Mapping, kind: string, api: Graph) {
    match kind
    case "string" => Get(m, "default").Str? && |Get(m, "default").text| <= 100000
    case "boolean" => Get(m, "default") in {Bool(false), Bool(true)}
    case "integer" =>
      Bounds(m, Get(m, "default")) && Safe(Get(m, "minimum")) && Safe(Get(m, "maximum")) && Safe(Get(m, "step"))
        && Safe(Get(m, "default"))
    case "number" => Bounds(m, Get(m, "default"))
    case "seed" =>
      var saved := if "default" in m then m["default"] else Get(m, "value");
      && Bounds(m, saved) && Get(m, "minimum").Int? && Get(m, "maximum").Int? && Get(m, "step").Int? && saved.Int?
      && Get(m, "default_mode") in {Str("fixed"), Str("random")}
    case "choice" => Get(m, "default").Str? && GoodOptions(m)
    case "image" => Get(m, "semantic_role") == Str("reference_image") && Get(m, "required") == Bool(true)
      && "default" !in m
    case "lora_stack" => GoodStack(m, api)
    case _ => false
  }

  lemma {:induction false} BoundsMean(m: Mapping, kind: string)
    requires kind in {"integer", "number", "seed"}
    ensures NumericOk(m, kind) <==> GoodType(m, kind, map[])
  {
    hide Divides, Multiple, Rounded;
    var v, minimum, step := SavedDefault(m, kind), Get(m, "minimum"), Get(m, "step");
    if IsFinite(v) && IsFinite(minimum) && IsFinite(step) && Exact(step) > 0.0 && Exact(v) >= Exact(minimum) {
      AlignedMeans(Exact(v) - Exact(minimum), Exact(step));
    }
  }

  lemma {:induction false} OptionMeans(option: Value)
    ensures ChoiceOk(option) <==> GoodOption(option)
    ensures GoodOption(option) ==> option.Obj? && Get(option.fields, "value") == Str(ChoiceValue(option))
  {
    hide P.IsPublicId, P.Strip;
    if option.Obj? && Get(option.fields, "label").Str? { C.StrippedIsEmpty(Get(option.fields, "label").text); }
  }

  lemma {:induction false} OptionsMean(m: Mapping)
    ensures ChoicesOk(m) <==> Get(m, "default").Str? && GoodOptions(m)
  {
    hide ChoiceOk, GoodOption;
    if Get(m, "choices").List? {
      var options := Get(m, "choices").items;
      forall i | 0 <= i < |options| ensures ChoiceOk(options[i]) <==> GoodOption(options[i])
        ensures GoodOption(options[i]) ==>
                  options[i].Obj? && Get(options[i].fields, "value") == Str(ChoiceValue(options[i]))
      {
        OptionMeans(options[i]);
      }
    }
  }

  lemma {:induction false} FrozenMeans(m: Mapping, binding: Value, api: Graph)
    requires Usable(m) && "default" in m
    ensures FrozenAgrees(m, binding, api) <==> SameStack(m, RawTarget(binding).node, api)
  {
    hide PrivateItem, PublicParts;
  }

  lemma {:induction false} StackMeans(m: Mapping, api: Graph)
    ensures Get(m, "bindings").List? && LoraOk(m, Get(m, "bindings").items, api) <==> GoodStack(m, api)
  {
    hide Accepts, FrozenAgrees, SameStack, RawTarget;
    if Usable(m) && "default" in m && Get(m, "bindings").List? {
      var bindings := Get(m, "bindings").items;
      forall i | 0 <= i < |bindings| ensures FrozenAgrees(m, bindings[i], api) <==>
        SameStack(m, RawTarget(bindings[i]).node, api) {
        FrozenMeans(m, bindings[i], api);
      }
      AllZeroMeans(m["default"]);
      AcceptsAList(m["default"], m);
      if m["default"].List? { assert Items(m["default"]) == m["default"].items; }
    }
  }

  lemma {:induction false} AllZeroMeans(stack: Value)
    ensures stack.List? ==> (AllZero(stack) <==> forall i :: 0 <= i < |stack.items| ==> IsOff(stack.items[i]))
  {
  }

  lemma {:induction false} AcceptsAList(value: Value, m: Mapping)
    ensures Accepts(value, m) ==> value.List?
  {
  }

  lemma {:induction false} TypeMeans(m: Mapping, kind: string, api: Graph)
    requires Supported(kind)
    ensures TypeOk(m, kind, api) <==> GoodType(m, kind, api)
  {
    hide ChoicesOk, LoraOk, NumericOk, GoodOptions, GoodStack, Bounds;
    if kind == "choice" { OptionsMean(m); }
    if kind == "lora_stack" { StackMeans(m, api); }
    if kind in {"integer", "number", "seed"} { BoundsMean(m, kind); }
  }

  // ----- inputs, outputs, the whole -----

  ghost predicate GoodInput(raw: Value, api: Graph, runtime: Runtime) {
    && raw.Obj?
    && var m := raw.fields;
       && Get(m, "id").Str? && P.IsPublicId(Get(m, "id").text)
       && Get(m, "semantic_role").Str? && P.IsPublicId(Get(m, "semantic_role").text)
       && Get(m, "required") in {Bool(false), Bool(true)} && Get(m, "advanced") in {Bool(false), Bool(true)}
       && Get(m, "type") in {Str("string"), Str("integer"), Str("number"), Str("boolean"), Str("seed"), Str("choice"),
                             Str("image"), Str("lora_stack")}
       && GoodType(m, Get(m, "type").text, api)
       && Get(m, "bindings").List? && GoodBindings(Get(m, "bindings").items, Get(m, "type").text, api, runtime)
  }

  /** One to 32 bindings that drive different inputs. */
  ghost predicate GoodBindings(bindings: seq<Value>, kind: string, api: Graph, runtime: Runtime) {
    && 1 <= |bindings| <= 32
    && (forall i :: 0 <= i < |bindings| ==> GoodBinding(bindings[i], kind, api, runtime))
    && forall i, j :: 0 <= i < j < |bindings| ==> RawTarget(bindings[i]) != RawTarget(bindings[j])
  }

  ghost predicate GoodBinding(b: Value, kind: string, api: Graph, runtime: Runtime) {
    b.Obj? && exists node, name :: Drives(b.fields, node, name, kind, api, runtime)
  }

  lemma {:induction false} InputMeans(raw: Value, api: Graph, runtime: Runtime)
    ensures InputOk(raw, api, runtime) <==> GoodInput(raw, api, runtime)
  {
    hide BindingOk, TypeOk, GoodType, GoodBinding, P.IsPublicId, RawTarget;
    if raw.Obj? && Get(raw.fields, "type").Str? && Supported(Get(raw.fields, "type").text) {
      var kind := Get(raw.fields, "type").text;
      TypeMeans(raw.fields, kind, api);
      if Get(raw.fields, "bindings").List? {
        var bindings := Get(raw.fields, "bindings").items;
        forall i | 0 <= i < |bindings|
          ensures BindingOk(bindings[i], kind, api, runtime) <==> GoodBinding(bindings[i], kind, api, runtime)
        {
          DrivingMeans(bindings[i], kind, api, runtime);
        }
      }
    }
  }

  lemma {:induction false} DrivingMeans(b: Value, kind: string, api: Graph, runtime: Runtime)
    requires Supported(kind)
    ensures BindingOk(b, kind, api, runtime) <==> GoodBinding(b, kind, api, runtime)
  {
    hide BindingOk, Drives;
    BindingMeans(b, kind, api, runtime);
  }

  ghost predicate GoodOutput(raw: Value, text: bool) {
    && raw.Obj? && Get(raw.fields, "type") == Str(if text then "text" else "image")
    && var id := if "id" in raw.fields then raw.fields["id"] else Get(raw.fields, "output_id");
       && id.Str? && P.IsPublicId(id.text)
       && Get(raw.fields, "role") in {Str("final"), Str("preview"), Str("comparison"), Str("auxiliary")}
       && ("kind" in raw.fields ==> raw.fields["kind"] == Get(raw.fields, "type"))
  }

  /** The publication is a text publication when its first final output says so. */
  ghost predicate SaysText(outputs: seq<Value>) {
    exists k :: 0 <= k < |outputs| && R.FinalText(outputs[k]) && forall j :: 0 <= j < k ==> !R.FinalOutput(outputs[j])
  }

  ghost predicate OnlyOne(s: seq<Value>, key: string, v: Value) {
    exists i :: 0 <= i < |s| && s[i].Obj? && Get(s[i].fields, key) == v
                && forall j :: 0 <= j < |s| && j != i ==> !(s[j].Obj? && Get(s[j].fields, key) == v)
  }

  lemma {:induction false} CountsOne(s: seq<Value>, p: Value -> bool, key: string, v: Value)
    requires forall x :: p(x) <==> x.Obj? && Get(x.fields, key) == v
    ensures P.Count(s, p) == 1 <==> OnlyOne(s, key, v)
  {
    if P.Count(s, p) == 1 {
      P.LastExists(s, p);
      var i := P.Last(s, p).value;
      P.CountAtLeast(s, p, i);
      assert s[i].Obj? && Get(s[i].fields, key) == v;
    }
    if OnlyOne(s, key, v) {
      var i :| 0 <= i < |s| && s[i].Obj? && Get(s[i].fields, key) == v
               && forall j :: 0 <= j < |s| && j != i ==> !(s[j].Obj? && Get(s[j].fields, key) == v);
      P.CountOne(s, p, i);
    }
  }

  /** An interface that can be published: 1 to 256 inputs and outputs with different
      ids, one final output, and one positive prompt, or for a text publication one
      required input and none but simple inputs. */
  ghost predicate GoodInterface(raw: Mapping, api: Graph, runtime: Runtime) {
    && Get(raw, "inputs").List? && Get(raw, "outputs").List? && Get(raw, "unmapped_outputs_policy") == Str("collect")
    && var inputs, outputs := Get(raw, "inputs").items, Get(raw, "outputs").items;
       && 1 <= |inputs| <= 256 && 1 <= |outputs| <= 256
       && (forall i :: 0 <= i < |inputs| ==> GoodInput(inputs[i], api, runtime))
       && (forall i, j :: 0 <= i < j < |inputs| ==> IdText(inputs[i]) != IdText(inputs[j]))
       && (forall i :: 0 <= i < |outputs| ==> GoodOutput(outputs[i], SaysText(outputs)))
       && (forall i, j :: 0 <= i < j < |outputs| ==> OutputIdText(outputs[i]) != OutputIdText(outputs[j]))
       && OnlyOne(outputs, "role", Str("final"))
       && if SaysText(outputs) then
            OnlyOne(inputs, "required", Bool(true))
            && forall i :: 0 <= i < |inputs| && inputs[i].Obj? ==>
               Get(inputs[i].fields, "type") !in {Str("image"), Str("lora_stack")}
          else OnlyOne(inputs, "semantic_role", Str("positive_prompt"))
  }

  /** The checker accepts exactly the interfaces that keep the rules. */
  lemma {:induction false} InterfaceMeans(raw: Mapping, api: Graph, runtime: Runtime)
    ensures InterfaceOk(raw, api, runtime) <==> GoodInterface(raw, api, runtime)
  {
    hide InputOk, GoodInput, FinalKind, OnlyOne, R.FinalText, R.FinalOutput, P.Count, P.IsPublicId, TextKind;
    if Get(raw, "outputs").List? {
      var outputs := Get(raw, "outputs").items;
      R.KindMeans(outputs);
      CountsOne(outputs, IsFinal, "role", Str("final"));
    }
    if Get(raw, "inputs").List? {
      var inputs := Get(raw, "inputs").items;
      CountsOne(inputs, IsRequired, "required", Bool(true));
      CountsOne(inputs, IsPositive, "semantic_role", Str("positive_prompt"));
      forall i | 0 <= i < |inputs|
        ensures InputOk(inputs[i], api, runtime) <==> GoodInput(inputs[i], api, runtime)
        ensures GoodInput(inputs[i], api, runtime) ==>
                  inputs[i].Obj? && (TextKind(inputs[i]) <==>
                    Get(inputs[i].fields, "type") !in {Str("image"), Str("lora_stack")})
      {
        InputMeans(inputs[i], api, runtime);
        SimpleMeans(inputs[i], api, runtime);
      }
    }
  }

  lemma {:induction false} SimpleMeans(raw: Value, api: Graph, runtime: Runtime)
    ensures GoodInput(raw, api, runtime) ==>
              raw.Obj? && (TextKind(raw) <==> Get(raw.fields, "type") !in {Str("image"), Str("lora_stack")})
  {
    hide GoodType, GoodBindings, P.IsPublicId;
  }
}
