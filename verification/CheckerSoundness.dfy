/** What the checker accepts never makes the compiler find fault with the
    contract, exactly as long as the positive prompt is a text. */
module CheckerSoundness {
  import opened Values
  import opened LoraStack
  import opened Compiler
  import opened Checker
  import P = Publications
  import opened Recompile
  import JsonTree

  // ----- what a stored declaration guarantees -----

  /** Whatever value is tried, validation does not blame the declaration, and the
      stored default passes. */
  ghost predicate SoundValues(d: Mapping) {
    && Kind(d).Str? && Supported(Kind(d).text)
    && match Kind(d).text
       case "string" => Get(d, "default").Str? && |Get(d, "default").text| <= MAX_TEXT
       case "boolean" => Get(d, "default").Bool?
       case "choice" => ChoiceValues(Get(d, "choices")).Some? && Get(d, "default").Str?
                        && Get(d, "default").text in ChoiceValues(Get(d, "choices")).value
       case "lora_stack" => Usable(d) && "default" in d && Accepts(d["default"], d)
       case "image" => true
       case kind => NumericOk(d, kind) && "step" in d && "default" in d
  }

  /** Every binding targets an existing input of a parameter node. */
  ghost predicate SoundBinding(b: Value, kind: Value, api: Graph) {
    && Patchable(api, kind, b) && kind.Str?
    && ClassOf(api, TargetOf(b).value.node).Str? && ExpectedClass(kind.text, ClassOf(api, TargetOf(b).value.node).text)
  }

  ghost predicate Sound(d: Mapping, api: Graph) {
    && SoundValues(d)
    && BindingsOf(d) != [] && forall i :: 0 <= i < |BindingsOf(d)| ==> SoundBinding(BindingsOf(d)[i], Kind(d), api)
  }

  lemma {:induction false} StoredGet(raw: Value, api: Graph, key: string)
    requires raw.Obj? && Get(raw.fields, "type").Str?
    requires key in {"id", "type", "semantic_role", "required"} + PrivateFields(Get(raw.fields, "type").text)
    requires key != "default" || Get(raw.fields, "type").text != "seed"
    ensures key in PrivateInput(raw, api) <==> key in raw.fields
    ensures Get(PrivateInput(raw, api), key) == Get(raw.fields, key)
  {
  }

  lemma {:induction false} StoredValuesAreSound(raw: Value, api: Graph, runtime: Runtime)
    requires InputOk(raw, api, runtime)
    ensures SoundValues(PrivateInput(raw, api))
  {
    hide Accepts, BindingsOk, P.IsPublicId, ChoicesOk, LoraOk, NumericOk, PrivateBindings;
    var kind := Get(raw.fields, "type").text;
    StoredGet(raw, api, "type");
    if kind == "string" || kind == "boolean" {
      StoredGet(raw, api, "default");
    } else if kind == "choice" {
      StoredGet(raw, api, "default");
      StoredGet(raw, api, "choices");
      ChoicesHaveValues(raw.fields);
    } else if kind == "lora_stack" {
      StoredStack(raw, api, runtime);
    } else if kind != "image" {
      StoredNumbers(raw, api, runtime);
    }
  }

  lemma {:induction false} ChoicesHaveValues(m: Mapping)
    requires ChoicesOk(m)
    ensures ChoiceValues(Get(m, "choices")).Some? && Get(m, "default").Str?
    ensures Get(m, "default").text in ChoiceValues(Get(m, "choices")).value
  {
    var items := Get(m, "choices").items;
    var i :| 0 <= i < |items| && ChoiceValue(items[i]) == Get(m, "default").text;
    assert ChoiceValues(Get(m, "choices")).value[i] == ChoiceValue(items[i]);
  }

  lemma {:induction false} StoredStack(raw: Value, api: Graph, runtime: Runtime)
    requires InputOk(raw, api, runtime) && Get(raw.fields, "type").text == "lora_stack"
    ensures var d := PrivateInput(raw, api); Usable(d) && "default" in d && Accepts(d["default"], d)
  {
    hide BindingsOk, P.IsPublicId, Published, PrivateBindings;
    StoredGet(raw, api, "items");
    StoredGet(raw, api, "minimum");
    StoredGet(raw, api, "maximum");
    StoredGet(raw, api, "step");
    StoredGet(raw, api, "default");
    assert TypeOk(raw.fields, "lora_stack", api);
  }

  lemma {:induction false} StoredNumbers(raw: Value, api: Graph, runtime: Runtime)
    requires InputOk(raw, api, runtime) && Get(raw.fields, "type").text in {"integer", "number", "seed"}
    ensures var d := PrivateInput(raw, api); NumericOk(d, Get(raw.fields, "type").text) && "step" in d && "default" in d
  {
    hide BindingsOk, P.IsPublicId, PrivateBindings, InSteps;
    var kind := Get(raw.fields, "type").text;
    assert TypeOk(raw.fields, kind, api);
    StoredGet(raw, api, "minimum");
    StoredGet(raw, api, "maximum");
    StoredGet(raw, api, "step");
    if kind == "seed" { StoredGet(raw, api, "default_mode"); } else { StoredGet(raw, api, "default"); }
  }

  lemma {:induction false} StoredIsSound(raw: Value, api: Graph, runtime: Runtime)
    requires InputOk(raw, api, runtime)
    ensures Sound(PrivateInput(raw, api), api)
    ensures IsInput(Obj(PrivateInput(raw, api))) && ToInput(Obj(PrivateInput(raw, api))).id == IdText(raw)
  {
    hide SoundValues, SoundBinding, P.IsPublicId, TypeOk;
    StoredValuesAreSound(raw, api, runtime);
    StoredGet(raw, api, "type");
    StoredGet(raw, api, "id");
    var d, bindings := PrivateInput(raw, api), Get(raw.fields, "bindings").items;
    forall i | 0 <= i < |bindings| ensures SoundBinding(BindingsOf(d)[i], Kind(d), api) {
      StoredBinding(bindings[i], Get(raw.fields, "type").text, api, runtime);
    }
  }

  lemma {:induction false} StoredBinding(raw: Value, kind: string, api: Graph, runtime: Runtime)
    requires BindingOk(raw, kind, api, runtime)
    ensures SoundBinding(PrivateBinding(raw, api), Str(kind), api)
  {
    var b, t := PrivateBinding(raw, api), RawTarget(raw);
    assert TargetOf(b) == Some(t);
  }

  // ----- judging values -----

  /** The distance between the bounds of a number still divides by its step; if
      so, the distance of every value in between does. */
  predicate Countable(d: Mapping) {
    Get(d, "type") in {Str("integer"), Str("number"), Str("seed")} && BoundsOk(d, Get(d, "type").text) ==>
      Divides(Exact(Get(d, "maximum")) - Exact(Get(d, "minimum")), Exact(Get(d, "step")))
  }

  lemma {:induction false} SoundNumbers(d: Mapping, v: Value)
    requires Kind(d) in {Str("integer"), Str("number"), Str("seed")} && BoundsOk(d, Kind(d).text) && Countable(d)
             && IsFinite(v)
    ensures !CheckNumber(d, v).Broken?
  {
    hide Divides, Multiple, Rounded;
    var minimum, maximum := Exact(Get(d, "minimum")), Exact(Get(d, "maximum"));
    if minimum <= Exact(v) <= maximum {
      DividesLess(Exact(v) - minimum, maximum - minimum, Exact(Get(d, "step")));
    }
  }

  /** The declaration is never to blame. */
  lemma {:induction false} NeverBlamed(d: Mapping, v: Value)
    requires SoundValues(d) && Kind(d) != Str("seed") && Countable(d)
    ensures !ValidateValue(d, v).Broken?
  {
    hide Accepts, ChoiceValues, InSteps, CheckNumber, Countable;
    if Kind(d).text in {"integer", "number"} && IsFinite(v) {
      SoundNumbers(d, v);
    }
  }

  lemma {:induction false} SeedNeverBlamed(d: Mapping, v: Option<Value>, slot: int)
    requires SoundValues(d) && Kind(d) == Str("seed") && Countable(d)
    ensures !ResolveSeed(d, v, slot).BrokenSeed?
  {
    hide Divides, Multiple, Rounded, NumericCheck, Countable, InSteps, Canonical, Parse;
    var chosen := ParseSeed(if WantsRandom(v) then Optional(d, "default") else v);
    if chosen.Some? { SoundNumbers(d, Int(chosen.value)); }
  }

  lemma {:induction false} JudgedOnItsValue(input: Input, requested: Mapping, text: bool, slot: int)
    requires SoundValues(input.declaration)
    ensures Countable(input.declaration) ==> !Judge(input, requested, text, slot).Unusable?
    ensures Judge(input, requested, text, slot).Skipped? ==> IsImage(input)
  {
    hide SoundValues, ValidateValue, ResolveSeed, Countable;
    var d, v := input.declaration, Optional(requested, input.id);
    HasDefault(d);
    if !Countable(d) { return; }
    if Kind(d) == Str("seed") {
      SeedNeverBlamed(d, v, slot);
    } else {
      var chosen := if v.None? || (v.value.Null? && Kind(d) != Str("lora_stack")) then Optional(d, "default") else v;
      if chosen.Some? { NeverBlamed(d, chosen.value); }
    }
  }

  lemma {:induction false} HasDefault(d: Mapping)
    requires SoundValues(d)
    ensures "default" in d || Kind(d) == Str("image")
  {
  }

  lemma {:induction false} FinalOnItsValue(inputs: seq<Input>, input: Input, requested: Mapping, text: bool,
                                           slots: string -> int)
    requires forall x :: x in inputs ==> SoundValues(x.declaration)
    requires input in inputs
    ensures (forall x :: x in inputs ==> Countable(x.declaration)) ==>
            !Final(inputs, requested, text, slots, input).Unusable?
    ensures Final(inputs, requested, text, slots, input).Skipped? ==> IsImage(input)
    ensures Final(inputs, requested, text, slots, input).Unresolved? ==>
            Judge(input, requested, text, slots(input.id)).Unresolved?
  {
    hide SoundValues, ValidateValue, Judge, Countable;
    JudgedOnItsValue(input, requested, text, slots(input.id));
    var c := ChoiceOf(inputs, input);
    if c.Some? {
      assert Companion(inputs, input, c.value) && IsNumberInput(input);
      var choice := Judge(c.value, requested, text, slots(c.value.id));
      if choice.Kept? && choice.value.Str? {
        var suggested := Suggested(c.value.declaration, choice.value.text, input.declaration);
        if suggested.Some? && Countable(input.declaration) { NeverBlamed(input.declaration, suggested.value); }
      }
    }
  }

  // ----- patching -----

  /** The same nodes with the same classes and the same input names. */
  ghost predicate SameShape(api: Graph, graph: Graph) {
    forall node :: ClassOf(graph, node) == ClassOf(api, node)
                   && (InputsOf(graph, node).Some? <==> InputsOf(api, node).Some?)
                   && (InputsOf(api, node).Some? ==> InputsOf(graph, node).value.Keys == InputsOf(api, node).value.Keys)
  }

  lemma {:induction false} PatchKeepsShape(api: Graph, graph: Graph, t: Target, v: Value)
    requires SameShape(api, graph) && InputsOf(graph, t.node).Some? && t.name in InputsOf(graph, t.node).value
    ensures SameShape(api, Patch(graph, t, v))
  {
  }

  lemma {:induction false} BindingsPatch(api: Graph, graph: Graph, kind: Value, bindings: seq<Value>, v: Value)
    requires SameShape(api, graph) && forall i :: 0 <= i < |bindings| ==> SoundBinding(bindings[i], kind, api)
    ensures PatchBindings(graph, kind, bindings, v).Some?
            && SameShape(api, PatchBindings(graph, kind, bindings, v).value)
  {
    hide SameShape, Patch, SoundBinding, Patchable;
    if bindings != [] {
      var front, b := bindings[..|bindings| - 1], bindings[|bindings| - 1];
      BindingsPatch(api, graph, kind, front, v);
      SoundIsPatchable(api, PatchBindings(graph, kind, front, v).value, kind, b);
      PatchKeepsShape(api, PatchBindings(graph, kind, front, v).value, TargetOf(b).value, v);
    }
  }

  lemma {:induction false} SoundIsPatchable(api: Graph, graph: Graph, kind: Value, b: Value)
    requires SameShape(api, graph) && SoundBinding(b, kind, api)
    ensures Patchable(graph, kind, b) && TargetOf(b).Some?
    ensures InputsOf(graph, TargetOf(b).value.node).Some?
            && TargetOf(b).value.name in InputsOf(graph, TargetOf(b).value.node).value
  {
  }

  lemma {:induction false} AllPatch(api: Graph, inputs: seq<Input>, effective: Mapping)
    requires forall x :: x in inputs ==> Sound(x.declaration, api)
                                         && (x.id in effective ==>
                                             GraphValue(Kind(x.declaration), effective[x.id]).Some?)
    ensures PatchAll(api, inputs, effective).Some? && SameShape(api, PatchAll(api, inputs, effective).value)
  {
    hide SameShape, SoundValues, SoundBinding, GraphValue, PatchBindings;
    if inputs == [] {
      ShapeOfItself(api);
    } else {
      var front, last := inputs[..|inputs| - 1], inputs[|inputs| - 1];
      assert last in inputs;
      AllPatch(api, front, effective);
      var d, graph := last.declaration, PatchAll(api, front, effective).value;
      if last.id in effective {
        BindingsPatch(api, graph, Kind(d), BindingsOf(d), GraphValue(Kind(d), effective[last.id]).value);
      }
    }
  }

  lemma {:induction false} ShapeOfItself(api: Graph)
    ensures SameShape(api, api)
  {
  }

  // ----- the stored contract -----

  /** The compiler's view of a stored contract. */
  ghost predicate Stored(raw: Mapping, api: Graph, inputs: seq<Input>) {
    && Get(raw, "inputs").List? && |inputs| == |Get(raw, "inputs").items|
    && forall i :: 0 <= i < |inputs| ==>
         && inputs[i] == Input(IdText(Get(raw, "inputs").items[i]), PrivateInput(Get(raw, "inputs").items[i], api))
         && Sound(inputs[i].declaration, api)
  }

  lemma {:induction false} ContractInputs(raw: Mapping, api: Graph, runtime: Runtime)
    requires InterfaceOk(raw, api, runtime)
    ensures Inputs(PrivateContract(raw, api)).Some? && Stored(raw, api, Inputs(PrivateContract(raw, api)).value)
  {
    hide Sound, InputOk, OutputsOk, PrivateInput, P.Count, IsText, TextKind;
    var items := Get(raw, "inputs").items;
    var contract := PrivateContract(raw, api);
    forall i | 0 <= i < |items|
      ensures IsInput(PrivateInputs(items, api)[i]) && ToInput(PrivateInputs(items, api)[i]).id == IdText(items[i])
      ensures Sound(PrivateInput(items[i], api), api)
    {
      StoredIsSound(items[i], api, runtime);
    }
    assert Get(contract, "inputs").items == PrivateInputs(items, api);
  }

  lemma {:induction false} SameFinalKind(raw: seq<Value>, text: bool)
    requires forall i :: 0 <= i < |raw| ==> OutputOk(raw[i], text)
    ensures FinalKind(PrivateOutputs(raw)) == FinalKind(raw)
  {
    hide P.IsPublicId;
    if raw != [] {
      assert PrivateOutputs(raw)[1..] == PrivateOutputs(raw[1..]);
      assert OutputOk(raw[0], text);
      SameFinalKind(raw[1..], text);
    }
  }

  lemma {:induction false} ContractKind(raw: Mapping, api: Graph, runtime: Runtime)
    requires InterfaceOk(raw, api, runtime)
    ensures IsText(PrivateContract(raw, api)) == IsText(raw)
  {
    hide InputsOk, P.Count, OutputOk, FinalKind, PrivateInputs, PrivateOutputs, TextKind;
    SameFinalKind(Get(raw, "outputs").items, IsText(raw));
  }

  /** One of two flaws the checker leaves: the positive prompt of an image
      publication whose type is not one that yields text. */
  predicate PromptIsText(raw: Mapping) {
    IsText(raw)
    || (Get(raw, "inputs").List?
        && forall i :: 0 <= i < |Get(raw, "inputs").items| && IsPositive(Get(raw, "inputs").items[i]) ==>
             Get(Get(raw, "inputs").items[i].fields, "type") in {Str("string"), Str("choice"), Str("seed")})
  }

  /** And the numbers with more steps than 28 digits can count. */
  predicate AllCountable(raw: Mapping) {
    Get(raw, "inputs").List?
    && forall i :: 0 <= i < |Get(raw, "inputs").items| && Get(raw, "inputs").items[i].Obj? ==>
       Countable(Get(raw, "inputs").items[i].fields)
  }

  lemma {:induction false} PositiveIs(inputs: seq<Input>)
    ensures Positive(inputs).Some? <==> exists x :: x in inputs && Role(x.declaration) == Str("positive_prompt")
    ensures Positive(inputs).Some? ==>
              Positive(inputs).value in inputs && Role(Positive(inputs).value.declaration) == Str("positive_prompt")
  {
    if inputs != [] {
      PositiveIs(inputs[1..]);
      assert inputs == [inputs[0]] + inputs[1..];
    }
  }

  /** The stored positive prompt is the declared one. */
  lemma {:induction false} StoredPositive(raw: Mapping, api: Graph, runtime: Runtime, inputs: seq<Input>)
    requires InterfaceOk(raw, api, runtime) && Stored(raw, api, inputs)
    ensures !IsText(raw) ==> Positive(inputs).Some?
    ensures Positive(inputs).Some? ==>
              exists i :: 0 <= i < |inputs| && inputs[i] == Positive(inputs).value
                && IsPositive(Get(raw, "inputs").items[i])
                          && Kind(inputs[i].declaration) == Get(Get(raw, "inputs").items[i].fields, "type")
    ensures !IsText(raw) ==> forall i :: 0 <= i < |inputs| && IsPositive(Get(raw, "inputs").items[i]) ==>
            inputs[i] == Positive(inputs).value
  {
    hide Sound, OutputsOk, IsText, TextKind, PrivateInput, P.Count, P.IsPublicId, BindingsOk, TypeOk;
    var items := Get(raw, "inputs").items;
    forall i | 0 <= i < |inputs|
      ensures Role(inputs[i].declaration) == Get(items[i].fields, "semantic_role")
              && Kind(inputs[i].declaration) == Get(items[i].fields, "type")
    {
      StoredGet(items[i], api, "semantic_role");
      StoredGet(items[i], api, "type");
    }
    PositiveIs(inputs);
    if Positive(inputs).Some? {
      var i :| 0 <= i < |inputs| && inputs[i] == Positive(inputs).value;
    }
    if !IsText(raw) {
      OnlyPositive(items);
    }
  }

  lemma {:induction false} OnlyPositive(items: seq<Value>)
    requires P.Count(items, IsPositive) == 1
    ensures exists i :: 0 <= i < |items| && IsPositive(items[i])
    ensures forall i, j :: 0 <= i < j < |items| ==> !(IsPositive(items[i]) && IsPositive(items[j]))
  {
    P.LastExists(items, IsPositive);
    forall i | 0 <= i < |items| && IsPositive(items[i])
      ensures forall j :: 0 <= j < |items| && IsPositive(items[j]) ==> j == i
    {
      P.CountAtLeast(items, IsPositive, i);
    }
  }

  // ----- no request breaks an accepted contract -----

  lemma {:induction false} OnlyResolverRaises(inputs: seq<Input>, requested: Mapping, text: bool, slots: string -> int)
    requires forall x :: x in inputs ==> SoundValues(x.declaration) && Countable(x.declaration)
    ensures FirstRaised(inputs, requested, text, slots).Some? ==>
            FirstRaised(inputs, requested, text, slots).value.Unresolved?
  {
    hide Judge, SoundValues, Countable;
    if inputs != [] {
      assert inputs[0] in inputs;
      JudgedOnItsValue(inputs[0], requested, text, slots(inputs[0].id));
      OnlyResolverRaises(inputs[1..], requested, text, slots);
    }
  }

  /** A kept value has a form in the graph, and a text where a text is meant. */
  lemma {:induction false} KeptFits(inputs: seq<Input>, input: Input, requested: Mapping, text: bool,
                                    slots: string -> int)
    requires Final(inputs, requested, text, slots, input).Kept?
    ensures GraphValue(Kind(input.declaration), Final(inputs, requested, text, slots, input).value).Some?
    ensures Kind(input.declaration) in {Str("string"), Str("choice"), Str("seed")} ==>
            Final(inputs, requested, text, slots, input).value.Str?
    ensures Kind(input.declaration) in {Str("integer"), Str("number"), Str("boolean")} ==>
            !Final(inputs, requested, text, slots, input).value.Str?
  {
    hide Accepts, NumericCheck, ChoiceValues, ResolveSeed, Suggested, Print;
    var c := ChoiceOf(inputs, input);
    if c.Some? { assert Companion(inputs, input, c.value) && IsNumberInput(input); }
  }

  lemma {:induction false} NoContractError(raw: Mapping, api: Graph, runtime: Runtime, requested: Mapping,
                                           slots: string -> int)
    requires InterfaceOk(raw, api, runtime) && PromptIsText(raw) && AllCountable(raw)
    ensures Compile(PrivateContract(raw, api), api, requested, slots) != ContractError
  {
    hide Final, Judge, FirstRaised, Inputs, Stored, Effective, Assemble, PromptIsText, Declared, IsText,
         PrivateContract, InputsOk, OutputsOk, P.Count, TextKind,
         Countable, AllCountable;
    var contract := PrivateContract(raw, api);
    ContractInputs(raw, api, runtime);
    ContractKind(raw, api, runtime);
    var inputs, text := Inputs(contract).value, IsText(contract);
    StoredSound(raw, api, inputs);
    StoredCountable(raw, api, runtime, inputs);
    OnlyResolverRaises(inputs, requested, text, slots);
    if FirstRaised(inputs, requested, text, slots).None? {
      var outcomes := Outcomes(inputs, requested, text, slots);
      NoneRaised(inputs, requested, text, slots);
      forall i | 0 <= i < |inputs| ensures !outcomes(inputs[i]).Raises() {
        FinalOnItsValue(inputs, inputs[i], requested, text, slots);
      }
      if forall i :: 0 <= i < |inputs| ==> !outcomes(inputs[i]).Faulty? {
        Assembles(raw, api, runtime, inputs, requested, slots);
      }
    }
  }

  lemma {:induction false} StoredSound(raw: Mapping, api: Graph, inputs: seq<Input>)
    requires Stored(raw, api, inputs)
    ensures forall x :: x in inputs ==> SoundValues(x.declaration) && Sound(x.declaration, api)
  {
  }

  lemma {:induction false} InputsAreObjects(raw: Mapping, api: Graph, runtime: Runtime)
    requires InterfaceOk(raw, api, runtime)
    ensures Get(raw, "inputs").List? && forall i :: 0 <= i < |Get(raw, "inputs").items| ==>
            Get(raw, "inputs").items[i].Obj?
  {
    hide TypeOk, BindingsOk, P.IsPublicId, OutputsOk, IsText, TextKind, P.Count;
  }

  lemma {:induction false} StoredCountable(raw: Mapping, api: Graph, runtime: Runtime, inputs: seq<Input>)
    requires InterfaceOk(raw, api, runtime) && Stored(raw, api, inputs)
    ensures forall i :: 0 <= i < |inputs| ==>
              Get(raw, "inputs").items[i].Obj? && (Countable(inputs[i].declaration) <==>
                Countable(Get(raw, "inputs").items[i].fields))
    ensures AllCountable(raw) ==> forall x :: x in inputs ==> Countable(x.declaration)
  {
    hide Sound, OutputsOk, IsText, TextKind, P.Count, Countable, PrivateInput, BindingsOk, TypeOk, P.IsPublicId;
    InputsAreObjects(raw, api, runtime);
    var items := Get(raw, "inputs").items;
    forall i | 0 <= i < |inputs| ensures Countable(inputs[i].declaration) <==> Countable(items[i].fields) {
      SameCountable(items[i], api, runtime);
    }
  }

  lemma {:induction false} SameCountable(raw: Value, api: Graph, runtime: Runtime)
    requires InputOk(raw, api, runtime)
    ensures Countable(PrivateInput(raw, api)) <==> Countable(raw.fields)
  {
    hide BindingsOk, P.IsPublicId, TypeOk, PrivateInput, Divides;
    StoredGet(raw, api, "type");
    if Get(raw.fields, "type").text in {"integer", "number", "seed"} {
      StoredGet(raw, api, "minimum");
      StoredGet(raw, api, "maximum");
      StoredGet(raw, api, "step");
    }
  }

  /** Without errors of the user, a result is assembled. */
  lemma {:induction false} Assembles(raw: Mapping, api: Graph, runtime: Runtime, inputs: seq<Input>,
                                     requested: Mapping, slots: string -> int)
    requires InterfaceOk(raw, api, runtime) && Stored(raw, api, inputs) && DistinctIds(inputs)
    requires forall i :: 0 <= i < |inputs| ==>
               var outcome := Outcomes(inputs, requested, IsText(raw), slots)(inputs[i]);
                 !outcome.Raises() && !outcome.Faulty?
    ensures var outcomes := Outcomes(inputs, requested, IsText(raw), slots);
            PromptIsText(raw) ==> Assemble(inputs, api, IsText(raw), Effective(inputs, outcomes)) != ContractError
    ensures var outcomes := Outcomes(inputs, requested, IsText(raw), slots);
            (!PromptIsText(raw) && forall i :: 0 <= i < |inputs| && IsPositive(Get(raw, "inputs").items[i]) ==>
               outcomes(inputs[i]).Kept? && !outcomes(inputs[i]).value.Str?) ==>
              Assemble(inputs, api, IsText(raw), Effective(inputs, outcomes)) == ContractError
  {
    hide InterfaceOk, Final, Effective, Sound, SoundValues, PatchAll, Seeds, Uploads, IsText, PrivateInput, Positive,
         Stored;
    var text := IsText(raw);
    var outcomes := Outcomes(inputs, requested, text, slots);
    var effective := Effective(inputs, outcomes);
    StoredSound(raw, api, inputs);
    forall x | x in inputs
      ensures x.id in effective ==> GraphValue(Kind(x.declaration), effective[x.id]).Some?
      ensures x.id in effective || IsImage(x)
      ensures x.id in effective && Kind(x.declaration) in {Str("string"), Str("choice"), Str("seed")} ==>
              effective[x.id].Str?
    {
      var i :| 0 <= i < |inputs| && inputs[i] == x;
      FinalOnItsValue(inputs, x, requested, text, slots);
      if outcomes(x).Kept? { KeptFits(inputs, x, requested, text, slots); }
    }
    AllPatch(api, inputs, effective);
    StoredPositive(raw, api, runtime, inputs);
    PositiveNoImage(raw, api, runtime, inputs);
  }

  /** A positive prompt is not an image. */
  lemma {:induction false} PositiveNoImage(raw: Mapping, api: Graph, runtime: Runtime, inputs: seq<Input>)
    requires InterfaceOk(raw, api, runtime) && Stored(raw, api, inputs)
    ensures Positive(inputs).Some? ==> !IsImage(Positive(inputs).value)
    ensures |inputs| == |Get(raw, "inputs").items|
  {
    hide Sound, OutputsOk, IsText, P.Count, P.IsPublicId, BindingsOk, PrivateInput, TextKind, Accepts, Frozen;
    StoredPositive(raw, api, runtime, inputs);
    if Positive(inputs).Some? {
      var i :| 0 <= i < |inputs| && inputs[i] == Positive(inputs).value && IsPositive(Get(raw, "inputs").items[i])
               && Kind(inputs[i].declaration) == Get(Get(raw, "inputs").items[i].fields, "type");
      PositiveType(Get(raw, "inputs").items[i], api, runtime);
    }
  }

  lemma {:induction false} PositiveType(raw: Value, api: Graph, runtime: Runtime)
    requires InputOk(raw, api, runtime) && IsPositive(raw)
    ensures Get(raw.fields, "type") != Str("image") && Get(raw.fields, "type") != Str("lora_stack")
  {
    hide P.IsPublicId, BindingsOk, Accepts, Frozen;
    assert TypeOk(raw.fields, Get(raw.fields, "type").text, api);
  }

  // ----- a request that does break it -----

  /** A value that this declaration accepts and that is never missing. */
  function ValidValue(d: Mapping): Value {
    if Kind(d) == Str("string") then Str("x")
    else if Kind(d) == Str("image") then Obj(map["asset_id" := Str("x")])
    else Get(d, "default")
  }

  /** A request that supplies every input with such a value. */
  function ValidRequest(inputs: seq<Input>): Mapping {
    if inputs == [] then map[]
    else ValidRequest(inputs[..|inputs| - 1])[inputs[|inputs| - 1].id := ValidValue(inputs[|inputs| - 1].declaration)]
  }

  lemma {:induction false} ValidRequestSupplies(inputs: seq<Input>, i: nat)
    requires DistinctIds(inputs) && i < |inputs|
    ensures inputs[i].id in ValidRequest(inputs) && ValidRequest(inputs)[inputs[i].id]
            == ValidValue(inputs[i].declaration)
  {
    var front := inputs[..|inputs| - 1];
    if i < |front| { ValidRequestSupplies(front, i); }
  }

  lemma {:induction false} ValidRequestDeclared(inputs: seq<Input>)
    ensures forall id :: id in ValidRequest(inputs) ==> Declared(inputs, id)
  {
    if inputs != [] {
      var front := inputs[..|inputs| - 1];
      ValidRequestDeclared(front);
      assert inputs[|inputs| - 1].id == inputs[|inputs| - 1].id;
      forall id | id in ValidRequest(front) ensures Declared(inputs, id) {
        var i :| 0 <= i < |front| && front[i].id == id;
        assert inputs[i].id == id;
      }
    }
  }

  lemma {:induction false} ValidValueIsKept(input: Input, requested: Mapping, text: bool, slot: int)
    requires SoundValues(input.declaration)
    requires input.id in requested && requested[input.id] == ValidValue(input.declaration)
    ensures Judge(input, requested, text, slot).Kept?
    ensures Kind(input.declaration) in {Str("integer"), Str("number"), Str("boolean")} ==>
            !Judge(input, requested, text, slot).value.Str?
    ensures Supplies(requested, input.id)
  {
    hide Accepts, ChoiceValues, Multiple, Divides, Rounded;
  }

  lemma {:induction false} ValidValueIsFinal(inputs: seq<Input>, input: Input, requested: Mapping, text: bool,
                                             slots: string -> int)
    requires SoundValues(input.declaration)
    requires input.id in requested && requested[input.id] == ValidValue(input.declaration)
    ensures Final(inputs, requested, text, slots, input) == Judge(input, requested, text, slots(input.id))
  {
    hide SoundValues, Judge;
    ValidValueIsKept(input, requested, text, slots(input.id));
  }

  lemma {:induction false} SomeRequestBreaks(raw: Mapping, api: Graph, runtime: Runtime)
    requires InterfaceOk(raw, api, runtime) && !PromptIsText(raw)
    ensures Inputs(PrivateContract(raw, api)).Some?
    ensures Compile(PrivateContract(raw, api), api, ValidRequest(Inputs(PrivateContract(raw, api)).value), id => 0)
            == ContractError
  {
    hide Final, Judge, FirstRaised, Inputs, Stored, Effective, Assemble, PromptIsText, Declared, IsText,
         PrivateContract, InputsOk, OutputsOk,
         P.Count, TextKind, ValidRequest, ValidValue, SoundValues, Sound;
    var contract := PrivateContract(raw, api);
    ContractInputs(raw, api, runtime);
    ContractKind(raw, api, runtime);
    var inputs, text, slots := Inputs(contract).value, IsText(contract), (id: string) => 0;
    var requested := ValidRequest(inputs);
    StoredSound(raw, api, inputs);
    ValidRequestDeclared(inputs);
    var outcomes := Outcomes(inputs, requested, text, slots);
    forall i | 0 <= i < |inputs|
      ensures outcomes(inputs[i]).Kept? && outcomes(inputs[i]) == Judge(inputs[i], requested, text, slots(inputs[i].id))
      ensures Kind(inputs[i].declaration) in {Str("integer"), Str("number"), Str("boolean")} ==>
              !outcomes(inputs[i]).value.Str?
    {
      ValidRequestSupplies(inputs, i);
      ValidValueIsKept(inputs[i], requested, text, slots(inputs[i].id));
      ValidValueIsFinal(inputs, inputs[i], requested, text, slots);
    }
    forall x | x in inputs ensures !Judge(x, requested, text, slots(x.id)).Raises() {
      var i :| 0 <= i < |inputs| && inputs[i] == x;
    }
    NothingRaised(inputs, requested, text, slots);
    BadPrompt(raw, api, runtime, inputs);
    Assembles(raw, api, runtime, inputs, requested, slots);
  }

  /** A positive prompt that does not yield text yields a number or a flag. */
  lemma {:induction false} BadPrompt(raw: Mapping, api: Graph, runtime: Runtime, inputs: seq<Input>)
    requires InterfaceOk(raw, api, runtime) && Stored(raw, api, inputs) && !PromptIsText(raw)
    ensures |inputs| == |Get(raw, "inputs").items|
    ensures forall i :: 0 <= i < |inputs| && IsPositive(Get(raw, "inputs").items[i]) ==>
              Kind(inputs[i].declaration) in {Str("integer"), Str("number"), Str("boolean")}
  {
    hide Sound, OutputsOk, IsText, P.IsPublicId, BindingsOk, PrivateInput, TextKind, TypeOk, P.Count;
    var items := Get(raw, "inputs").items;
    OnlyPositive(items);
    forall i | 0 <= i < |inputs| && IsPositive(items[i])
      ensures Kind(inputs[i].declaration) in {Str("integer"), Str("number"), Str("boolean")}
    {
      StoredGet(items[i], api, "type");
      PositiveType(items[i], api, runtime);
      var j :| 0 <= j < |items| && IsPositive(items[j])
        && Get(items[j].fields, "type") !in {Str("string"), Str("choice"), Str("seed")};
      assert j == i;
    }
  }

  /** A valid request, but for one number that is set to its maximum. */
  function ExtremeRequest(inputs: seq<Input>, i: nat): Mapping
    requires i < |inputs|
  {
    ValidRequest(inputs)[inputs[i].id := Get(inputs[i].declaration, "maximum")]
  }

  lemma {:induction false} MaximumBreaks(input: Input, requested: Mapping, text: bool, slot: int)
    requires SoundValues(input.declaration) && !Countable(input.declaration)
    requires input.id in requested && requested[input.id] == Get(input.declaration, "maximum")
    ensures Judge(input, requested, text, slot).Unusable?
  {
    hide Divides, Multiple, Rounded, InSteps, Canonical, Parse;
  }

  lemma {:induction false} FirstIsUnusable(inputs: seq<Input>, x: Input, requested: Mapping, text: bool,
                                           slots: string -> int)
    requires x in inputs && Judge(x, requested, text, slots(x.id)).Unusable?
    requires forall y :: y in inputs ==> !Judge(y, requested, text, slots(y.id)).Unresolved?
    ensures FirstRaised(inputs, requested, text, slots) == Some(Unusable)
  {
    hide Judge;
    assert inputs[0] in inputs;
    if x != inputs[0] && !Judge(inputs[0], requested, text, slots(inputs[0].id)).Raises() {
      FirstIsUnusable(inputs[1..], x, requested, text, slots);
    }
  }

  lemma {:induction false} MaximumRequestBreaks(raw: Mapping, api: Graph, runtime: Runtime, i: nat)
    requires InterfaceOk(raw, api, runtime) && i < |Get(raw, "inputs").items|
             && !Countable(Get(raw, "inputs").items[i].fields)
    ensures Inputs(PrivateContract(raw, api)).Some? && |Inputs(PrivateContract(raw, api)).value|
            == |Get(raw, "inputs").items|
    ensures Compile(PrivateContract(raw, api), api, ExtremeRequest(Inputs(PrivateContract(raw, api)).value, i),
            id => 0) == ContractError
  {
    hide InterfaceOk, Judge, FirstRaised, Inputs, PrivateContract, Countable, Declared, SoundValues, Sound, ValidValue,
         ValidRequest,
         Effective, Assemble, IsText, Final;
    var contract := PrivateContract(raw, api);
    ContractInputs(raw, api, runtime);
    var inputs, text, slots := Inputs(contract).value, IsText(contract), (id: string) => 0;
    var requested := ExtremeRequest(inputs, i);
    StoredSound(raw, api, inputs);
    StoredCountable(raw, api, runtime, inputs);
    MaximumBreaks(inputs[i], requested, text, 0);
    forall y | y in inputs ensures !Judge(y, requested, text, slots(y.id)).Unresolved? {
      var j :| 0 <= j < |inputs| && inputs[j] == y;
      if j != i {
        ValidRequestSupplies(inputs, j);
        assert requested[y.id] == ValidRequest(inputs)[y.id];
        ValidValueIsKept(y, requested, text, slots(y.id));
      }
    }
    FirstIsUnusable(inputs, inputs[i], requested, text, slots);
    ValidRequestDeclared(inputs);
    IsDeclared(inputs, i);
  }

  lemma {:induction false} IsDeclared(inputs: seq<Input>, i: nat)
    requires i < |inputs|
    ensures Declared(inputs, inputs[i].id)
  {
  }

  /** A contract the checker accepts never makes any request fail with a contract
      error, whatever is supplied and whatever the seed resolver answers, exactly
      when every number's steps can be counted and it is a text publication or
      its positive prompt has a type that yields text. */
  lemma {:induction false} AcceptedNeverBreaks(raw: Mapping, api: Graph, runtime: Runtime)
    requires InterfaceOk(raw, api, runtime)
    ensures (forall requested, slots :: Compile(PrivateContract(raw, api), api, requested, slots) != ContractError)
            <==> PromptIsText(raw) && AllCountable(raw)
  {
    hide InterfaceOk, Compile, PrivateContract, PromptIsText, ValidRequest, Inputs, Countable, ExtremeRequest;
    if !PromptIsText(raw) {
      SomeRequestBreaks(raw, api, runtime);
    } else if !AllCountable(raw) {
      InputsAreObjects(raw, api, runtime);
      var i :| 0 <= i < |Get(raw, "inputs").items| && Get(raw, "inputs").items[i].Obj?
        && !Countable(Get(raw, "inputs").items[i].fields);
      MaximumRequestBreaks(raw, api, runtime, i);
    } else {
      forall requested, slots ensures Compile(PrivateContract(raw, api), api, requested, slots) != ContractError {
        NoContractError(raw, api, runtime, requested, slots);
      }
    }
  }

  // ----- integers that strict JSON allows -----

  predicate JsonInteger(v: Value) { v.Int? ==> JsonTree.MIN_INTEGER <= v.whole <= JsonTree.MAX_INTEGER }

  /** The bounds of seeds come out of strict JSON. */
  predicate JsonSeeds(raw: Mapping) {
    Get(raw, "inputs").List?
    && forall i :: 0 <= i < |Get(raw, "inputs").items| && Get(raw, "inputs").items[i].Obj? ==>
       JsonBounds(Get(raw, "inputs").items[i].fields)
  }

  predicate JsonBounds(d: Mapping) {
    Get(d, "type") == Str("seed") ==> JsonInteger(Get(d, "minimum")) && JsonInteger(Get(d, "maximum"))
  }

  lemma {:induction false} WholeIsCountable(d: Mapping)
    requires Get(d, "minimum").Int? && Get(d, "maximum").Int? && Get(d, "step").Int? && Narrow(d)
    ensures Countable(d)
  {
    hide Rounded;
    var distance := Get(d, "maximum").whole - Get(d, "minimum").whole;
    if distance >= 0 { RoundedWhole(distance); }
  }

  predicate NumbersCountable(items: seq<Value>) {
    forall i :: 0 <= i < |items| && items[i].Obj? && Get(items[i].fields, "type") == Str("number") ==>
                  Countable(items[i].fields)
  }

  /** Integers and seeds never have too many steps, only numbers can. */
  lemma {:induction false} OnlyNumbersAreUncountable(raw: Mapping, api: Graph, runtime: Runtime)
    requires InterfaceOk(raw, api, runtime) && JsonSeeds(raw)
    ensures AllCountable(raw) <==> Get(raw, "inputs").List? && NumbersCountable(Get(raw, "inputs").items)
  {
    hide InterfaceOk, InputOk, Countable, JsonBounds;
    InputsAreObjects(raw, api, runtime);
    var items := Get(raw, "inputs").items;
    forall i | 0 <= i < |items| && Get(items[i].fields, "type") != Str("number") ensures Countable(items[i].fields) {
      InputAccepted(raw, api, runtime, i);
      NotANumber(items[i], api, runtime);
    }
  }

  lemma {:induction false} InputAccepted(raw: Mapping, api: Graph, runtime: Runtime, i: nat)
    requires InterfaceOk(raw, api, runtime) && Get(raw, "inputs").List? && i < |Get(raw, "inputs").items|
    ensures InputOk(Get(raw, "inputs").items[i], api, runtime)
  {
    hide InputOk, OutputsOk, IsText, TextKind, P.Count;
  }

  lemma {:induction false} NotANumber(raw: Value, api: Graph, runtime: Runtime)
    requires InputOk(raw, api, runtime) && Get(raw.fields, "type") != Str("number") && JsonBounds(raw.fields)
    ensures Countable(raw.fields)
  {
    hide BindingsOk, P.IsPublicId, Divides, InSteps, LoraOk, ChoicesOk;
    var d := raw.fields;
    if Get(d, "type").text in {"integer", "seed"} {
      assert TypeOk(d, Get(d, "type").text, api);
      WholeIsCountable(d);
    }
  }

  /** So what is stored of them recompiles to itself. */
  lemma {:induction false} AcceptedRecompiles(raw: Mapping, api: Graph, runtime: Runtime, requested: Mapping,
                                              slots: string -> int, again: string -> int)
    requires InterfaceOk(raw, api, runtime) && JsonSeeds(raw)
    requires Compile(PrivateContract(raw, api), api, requested, slots).Compiled?
    ensures var r := Compile(PrivateContract(raw, api), api, requested, slots);
            Compile(PrivateContract(raw, api), api, r.effective, again) == r
  {
    hide InterfaceOk, Compile, PrivateContract, Inputs, Narrow, JsonBounds, Sound, PrivateInput;
    ContractInputs(raw, api, runtime);
    InputsAreObjects(raw, api, runtime);
    var inputs, items := Inputs(PrivateContract(raw, api)).value, Get(raw, "inputs").items;
    forall x | x in inputs && IsSeed(x) ensures Narrow(x.declaration) {
      var i :| 0 <= i < |inputs| && inputs[i] == x;
      InputAccepted(raw, api, runtime, i);
      StoredIsNarrow(items[i], api, runtime);
    }
    RecompileIsIdempotent(PrivateContract(raw, api), api, requested, slots, again);
  }

  lemma {:induction false} StoredIsNarrow(raw: Value, api: Graph, runtime: Runtime)
    requires InputOk(raw, api, runtime) && JsonBounds(raw.fields)
    ensures Kind(PrivateInput(raw, api)) == Str("seed") ==> Narrow(PrivateInput(raw, api))
  {
    hide BindingsOk, P.IsPublicId, TypeOk, PrivateInput;
    StoredGet(raw, api, "type");
    if Get(raw.fields, "type").text == "seed" {
      StoredGet(raw, api, "minimum");
      StoredGet(raw, api, "maximum");
    }
  }
}
