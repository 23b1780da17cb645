/** The request compiler: public controls are validated against the accepted
    contract, and a copy of the frozen graph is patched at the trusted bindings. */
module Compiler {
  import opened Values
  import opened LoraStack

  type Graph = map<string, Value>

  datatype Input = Input(id: string, declaration: Mapping)

  const MAX_TEXT := 100000

  function Kind(d: Mapping): Value { Get(d, "type") }

  predicate Required(d: Mapping) { Truthy(Get(d, "required")) }

  function Optional(m: Mapping, key: string): Option<Value> { if key in m then Some(m[key]) else None }

  // ----- single values -----

  /** Range and step of a finite number; the contract's own numbers must be
      numbers, its step usable, and the quotient not beyond the precision. */
  function NumericCheck(v: Value, minimum: Value, maximum: Value, step: Value): Verdict<Value>
    requires IsFinite(v)
  {
    if !IsFinite(minimum) || !IsFinite(maximum) || !IsFinite(step) then Broken
    else if Exact(v) < Exact(minimum) || Exact(v) > Exact(maximum) then Wrong
    else if Exact(step) == 0.0 || !Divides(Exact(v) - Exact(minimum), Exact(step)) then Broken
    else if !Multiple(Rounded(Exact(v) - Exact(minimum)), Exact(step)) then Wrong
    else Good(v)
  }

  function CheckNumber(d: Mapping, v: Value): Verdict<Value>
    requires IsFinite(v)
  {
    NumericCheck(v, Get(d, "minimum"), Get(d, "maximum"), Get(d, "step"))
  }

  /** The values of a usable list of choices. */
  function ChoiceValues(choices: Value): Option<seq<string>> {
    if !choices.List? || choices.items == [] then None
    else if exists i | 0 <= i < |choices.items| ::
              !choices.items[i].Obj? || !Get(choices.items[i].fields, "value").Str? then None
    else
      var values := seq(|choices.items|, i requires 0 <= i < |choices.items| =>
        ChoiceValue(choices.items[i]));
      if exists i, j | 0 <= i < j < |values| :: values[i] == values[j] then None else Some(values)
  }

  function ChoiceValue(option: Value): string {
    if option.Obj? && Get(option.fields, "value").Str? then Get(option.fields, "value").text else ""
  }

  /** Validates one value; nothing is coerced, so a valid value is returned as it is. */
  ghost function ValidateValue(d: Mapping, v: Value): (r: Verdict<Value>)
    ensures r.Good? ==> r.value == v && !v.Null?
  {
    var kind := Kind(d);
    if kind == Str("lora_stack") then
      if !Usable(d) then Broken else if Accepts(v, d) then Good(v) else Wrong
    else if kind == Str("string") then
      if v.Str? && |v.text| <= MAX_TEXT then Good(v) else Wrong
    else if kind == Str("boolean") then
      if v.Bool? then Good(v) else Wrong
    else if kind == Str("integer") then
      if v.Int? then CheckNumber(d, v) else Wrong
    else if kind == Str("number") then
      if IsFinite(v) then CheckNumber(d, v) else Wrong
    else if kind == Str("choice") then
      var values := ChoiceValues(Get(d, "choices"));
      if values.None? then Broken else if v.Str? && v.text in values.value then Good(v) else Wrong
    else if kind == Str("image") then
      if v.Obj? && v.fields.Keys == {"asset_id"} && v.fields["asset_id"].Str?
         && 1 <= |v.fields["asset_id"].text| <= 255 then Good(v) else Wrong
    else Broken
  }

  /** In range, and some whole number of steps above the minimum. */
  ghost predicate OnGrid(d: Mapping, v: Value)
    requires IsFinite(v)
  {
    var minimum, maximum, step := Get(d, "minimum"), Get(d, "maximum"), Get(d, "step");
    && IsFinite(minimum) && IsFinite(maximum) && IsFinite(step) && Exact(step) != 0.0
    && Exact(minimum) <= Exact(v) <= Exact(maximum)
    && exists k :: -CAPACITY < k as real < CAPACITY && Rounded(Exact(v) - Exact(minimum)) == Times(k, Exact(step))
  }

  /** Choices that are objects with distinct texts. */
  ghost predicate WellListed(choices: Value) {
    && choices.List? && choices.items != []
    && (forall i :: 0 <= i < |choices.items| ==> choices.items[i].Obj? && Get(choices.items[i].fields, "value").Str?)
    && forall i, j :: 0 <= i < j < |choices.items| ==>
         Get(choices.items[i].fields, "value") != Get(choices.items[j].fields, "value")
  }

  ghost predicate Offers(choices: Value, v: Value) {
    WellListed(choices) && v.Str? && exists i :: 0 <= i < |choices.items| && Get(choices.items[i].fields, "value") == v
  }

  ghost predicate NamesAsset(v: Value) {
    exists id :: 1 <= |id| <= 255 && v == Obj(map["asset_id" := Str(id)])
  }

  /** The values that a declaration admits, type by type. */
  ghost predicate Admits(d: Mapping, v: Value) {
    || (Kind(d) == Str("string") && v.Str? && |v.text| <= MAX_TEXT)
    || (Kind(d) == Str("boolean") && v.Bool?)
    || (Kind(d) == Str("integer") && v.Int? && OnGrid(d, v))
    || (Kind(d) == Str("number") && IsFinite(v) && OnGrid(d, v))
    || (Kind(d) == Str("choice") && Offers(Get(d, "choices"), v))
    || (Kind(d) == Str("image") && NamesAsset(v))
    || (Kind(d) == Str("lora_stack") && Accepts(v, d))
  }

  /** The declaration itself is at fault: its numbers are none, or its steps are
      too many to count up to this value. */
  ghost predicate AtFault(d: Mapping, v: Value)
    requires IsFinite(v)
  {
    var minimum, maximum, step := Get(d, "minimum"), Get(d, "maximum"), Get(d, "step");
    || !IsFinite(minimum) || !IsFinite(maximum) || !IsFinite(step)
    || (Exact(minimum) <= Exact(v) <= Exact(maximum)
        && (Exact(step) == 0.0 || Rounded(Exact(v) - Exact(minimum)) >= CAPACITY * Abs(Exact(step))))
  }

  /** The values for which a declaration is to blame. */
  ghost predicate Blames(d: Mapping, v: Value) {
    || Kind(d) !in {Str("string"), Str("boolean"), Str("integer"), Str("number"), Str("choice"), Str("image"),
       Str("lora_stack")}
    || (Kind(d) == Str("integer") && v.Int? && AtFault(d, v))
    || (Kind(d) == Str("number") && IsFinite(v) && AtFault(d, v))
    || (Kind(d) == Str("choice") && !WellListed(Get(d, "choices")))
    || (Kind(d) == Str("lora_stack") && !Usable(d))
  }

  /** Validation accepts exactly the admitted values, unchanged, and raises a
      contract error exactly where the declaration is to blame. */
  lemma {:induction false} ValidatedMeans(d: Mapping, v: Value)
    ensures ValidateValue(d, v) == Good(v) <==> Admits(d, v)
    ensures ValidateValue(d, v).Broken? <==> Blames(d, v)
    ensures ValidateValue(d, v).Good? ==> ValidateValue(d, v).value == v
  {
    hide Accepts, CheckNumber, OnGrid, AtFault, ChoiceValues, Offers, WellListed, NamesAsset, Usable;
    if IsFinite(v) { NumberMeans(d, v); }
    ListMeans(Get(d, "choices"), v);
    AssetMeans(v);
    StackMeans(d, v);
  }

  lemma {:induction false} NumberMeans(d: Mapping, v: Value)
    requires IsFinite(v)
    ensures CheckNumber(d, v) == Good(v) <==> OnGrid(d, v)
    ensures CheckNumber(d, v).Broken? <==> AtFault(d, v)
    ensures CheckNumber(d, v).Good? ==> CheckNumber(d, v).value == v
  {
    hide Multiple, Rounded;
    var minimum, maximum, step := Get(d, "minimum"), Get(d, "maximum"), Get(d, "step");
    if IsFinite(minimum) && IsFinite(maximum) && IsFinite(step) && Exact(step) != 0.0 && Exact(minimum) <= Exact(v) {
      AlignedMeans(Exact(v) - Exact(minimum), Exact(step));
    }
  }

  lemma {:induction false} ListMeans(choices: Value, v: Value)
    ensures ChoiceValues(choices).Some? <==> WellListed(choices)
    ensures Offers(choices, v) <==> ChoiceValues(choices).Some? && v.Str? && v.text in ChoiceValues(choices).value
  {
    if choices.List? && choices.items != [] && forall i :: 0 <= i < |choices.items| ==> Named(choices.items[i]) {
      var values := seq(|choices.items|, i requires 0 <= i < |choices.items| => ChoiceValue(choices.items[i]));
      assert forall i :: 0 <= i < |choices.items| ==> Get(choices.items[i].fields, "value") == Str(values[i]);
    }
  }

  predicate Named(option: Value) { option.Obj? && Get(option.fields, "value").Str? }

  lemma {:induction false} StackMeans(d: Mapping, v: Value)
    ensures Accepts(v, d) ==> Usable(d)
  {
  }

  lemma {:induction false} AssetMeans(v: Value)
    ensures NamesAsset(v) <==> v.Obj? && v.fields.Keys == {"asset_id"} && v.fields["asset_id"].Str?
                               && 1 <= |v.fields["asset_id"].text| <= 255
  {
    if v.Obj? && v.fields.Keys == {"asset_id"} && v.fields["asset_id"].Str? {
      assert v.fields == map["asset_id" := Str(v.fields["asset_id"].text)];
    }
  }

  datatype Seed = Concrete(seed: int) | WrongSeed | BrokenSeed | BadSlot

  predicate WantsRandom(v: Option<Value>) {
    v.None? || v.value.Null? || v.value == Str("") || v.value == Str("random")
  }

  function ParseSeed(v: Option<Value>): Option<int> {
    if v.None? then None
    else match v.value
         case Int(i) => Some(i)
         case Str(s) => if Canonical(s) then Some(Parse(s)) else None
         case _ => None
  }

  /** `slot` is what the seed resolver answers when it is asked. */
  function ResolveSeed(d: Mapping, v: Option<Value>, slot: int): Seed {
    var minimum, maximum := Get(d, "minimum"), Get(d, "maximum");
    var step := if "step" in d then d["step"] else Int(1);
    if !minimum.Int? || !maximum.Int? || !step.Int? || step.whole <= 0 then BrokenSeed
    else if WantsRandom(v) && Get(d, "default_mode") == Str("random") then
      if 0 <= slot <= (maximum.whole - minimum.whole) / step.whole then Concrete(minimum.whole + slot * step.whole)
      else BadSlot
    else
      var concrete := ParseSeed(if WantsRandom(v) then Optional(d, "default") else v);
      if concrete.None? then WrongSeed
      else match NumericCheck(Int(concrete.value), minimum, maximum, step)
           case Good(_) => Concrete(concrete.value)
           case Wrong => WrongSeed
           case Broken => BrokenSeed
  }

  // ----- one input -----

  /** What becomes of an input: left out, kept with a value, an error of the
      user, an error of the contract, or an error of the seed resolver. */
  datatype Outcome = Skipped | Kept(value: Value) | Faulty | Unusable | Unresolved {
    predicate Raises() { Unusable? || Unresolved? }
  }

  function Judged(v: Verdict<Value>): Outcome {
    match v
    case Good(value) => Kept(value)
    case Wrong => Faulty
    case Broken => Unusable
  }

  /** An empty text counts as missing, except for choices and for the texts of a
      text publication. */
  predicate Missing(v: Option<Value>, kind: Value, text: bool) {
    v.None? || v.value.Null? || (v.value == Str("") && kind != Str("choice") && !(text && kind == Str("string")))
  }

  ghost function Judge(input: Input, requested: Mapping, text: bool, slot: int): Outcome {
    var d, v := input.declaration, Optional(requested, input.id);
    if Required(d) && Missing(v, Kind(d), text) then Faulty
    else if Kind(d) == Str("seed") then
      match ResolveSeed(d, v, slot)
      case Concrete(seed) => Kept(Str(Print(seed)))
      case WrongSeed => Faulty
      case BrokenSeed => Unusable
      case BadSlot => Unresolved
    else
      var chosen := if v.None? || (v.value.Null? && Kind(d) != Str("lora_stack")) then Optional(d, "default") else v;
      if chosen.None? then (if Required(d) then Faulty else Skipped) else Judged(ValidateValue(d, chosen.value))
  }

  // ----- choice companions -----

  function Role(d: Mapping): Value { Get(d, "semantic_role") }

  predicate IsChoice(input: Input) { Kind(input.declaration) == Str("choice") }

  predicate IsNumberInput(input: Input) { Kind(input.declaration) == Str("number") }

  /** A number named after a choice, with the same role. */
  predicate ExactPair(s: Input, c: Input) {
    IsNumberInput(s) && IsChoice(c) && s.id == c.id + "_strength" && Role(s.declaration) == Role(c.declaration)
  }

  predicate ExactNumber(inputs: seq<Input>, s: Input) { exists c :: c in inputs && ExactPair(s, c) }

  predicate ExactChoice(inputs: seq<Input>, c: Input) { exists s :: s in inputs && ExactPair(s, c) }

  predicate FreeChoice(inputs: seq<Input>, c: Input, role: Value) {
    IsChoice(c) && !ExactChoice(inputs, c) && Role(c.declaration) == role
  }

  predicate FreeNumber(inputs: seq<Input>, s: Input, role: Value) {
    IsNumberInput(s) && !ExactNumber(inputs, s) && Role(s.declaration) == role
  }

  /** The number `s` follows the choice `c`: by name, or as the only free number
      of a role that has only one free choice. */
  ghost predicate Companion(inputs: seq<Input>, s: Input, c: Input) {
    && s in inputs && c in inputs
    && (ExactPair(s, c)
        || (Role(c.declaration).Str? && FreeChoice(inputs, c, Role(c.declaration))
            && FreeNumber(inputs, s, Role(c.declaration))
            && (forall x :: x in inputs && FreeChoice(inputs, x, Role(c.declaration)) ==> x == c)
            && (forall x :: x in inputs && FreeNumber(inputs, x, Role(c.declaration)) ==> x == s)))
  }

  ghost predicate DistinctIds(inputs: seq<Input>) {
    forall i, j :: 0 <= i < j < |inputs| ==> inputs[i].id != inputs[j].id
  }

  /** The value that a selected choice suggests for its number. */
  function Suggested(c: Mapping, selected: string, s: Mapping): Option<Value> {
    var option := OptionWith(Get(c, "choices"), selected);
    if option.Some? && "default_strength" in option.value then Some(option.value["default_strength"])
    else Optional(s, "default")
  }

  function OptionWith(choices: Value, selected: string): Option<Mapping> {
    if !choices.List? then None else OptionIn(choices.items, selected)
  }

  function OptionIn(options: seq<Value>, selected: string): Option<Mapping> {
    if options == [] then None
    else
      var last := options[|options| - 1];
      if last.Obj? && Get(last.fields, "value") == Str(selected) then Some(last.fields)
      else OptionIn(options[..|options| - 1], selected)
  }

  predicate Supplies(requested: Mapping, id: string) { id in requested && !requested[id].Null? }

  ghost function ChoiceOf(inputs: seq<Input>, s: Input): Option<Input> {
    if c :| Companion(inputs, s, c) then Some(c) else None
  }

  lemma {:induction false} CompanionIsUnique(inputs: seq<Input>, s: Input, c: Input, d: Input)
    requires DistinctIds(inputs) && Companion(inputs, s, c) && Companion(inputs, s, d)
    ensures c == d
  {
    if ExactPair(s, c) && ExactPair(s, d) {
      assert |c.id| == |d.id| && c.id == (c.id + "_strength")[..|c.id|] && d.id == (d.id + "_strength")[..|c.id|];
    }
  }

  /** The outcome of an input once its choice, if it follows one, has spoken. */
  ghost function Final(inputs: seq<Input>, requested: Mapping, text: bool, slots: string -> int,
                       input: Input): Outcome {
    var own := Judge(input, requested, text, slots(input.id));
    var c := ChoiceOf(inputs, input);
    if c.None? then own
    else Following(input, c.value, own, Judge(c.value, requested, text, slots(c.value.id)), requested)
  }

  ghost function Following(s: Input, c: Input, own: Outcome, choice: Outcome, requested: Mapping): Outcome {
    if own.Faulty? || choice.Faulty? || Supplies(requested, s.id) || !choice.Kept? || !choice.value.Str? then own
    else
      var suggested := Suggested(c.declaration, choice.value.text, s.declaration);
      if suggested.None? then own else Judged(ValidateValue(s.declaration, suggested.value))
  }

  // ----- patching the graph -----

  function NodeIdText(v: Value): string {
    match v
    case Str(s) => s
    case Int(i) => Print(i)
    case Null => "None"
    case Bool(b) => if b then "True" else "False"
    case _ => ""
  }

  datatype Target = Target(node: string, name: string)

  function TargetOf(b: Value): Option<Target> {
    if b.Obj? && Get(b.fields, "input").Str?
      then Some(Target(NodeIdText(Get(b.fields, "node_id")), Get(b.fields, "input").text))
    else None
  }

  /** The inputs of a node, if it has any. */
  function InputsOf(graph: Graph, node: string): Option<Mapping> {
    if node in graph && graph[node].Obj? && Get(graph[node].fields, "inputs").Obj? then
      Some(Get(graph[node].fields, "inputs").fields)
    else None
  }

  function ClassOf(graph: Graph, node: string): Value {
    if node in graph && graph[node].Obj? then Get(graph[node].fields, "class_type") else Null
  }

  /** A binding that can be patched for an input of this type. */
  predicate Patchable(graph: Graph, kind: Value, b: Value) {
    && TargetOf(b).Some?
    && var t := TargetOf(b).value;
       && InputsOf(graph, t.node).Some? && t.name in InputsOf(graph, t.node).value
       && (kind == Str("choice") ==> t.name == "value")
       && (kind == Str("image") ==> t.name == "image" && ClassOf(graph, t.node) == Str("CIFImageParameter"))
  }

  function Patch(graph: Graph, t: Target, v: Value): Graph
    requires InputsOf(graph, t.node).Some?
  {
    graph[t.node := Obj(graph[t.node].fields["inputs" := Obj(InputsOf(graph, t.node).value[t.name := v])])]
  }

  /** What a kept value looks like in the graph. */
  function GraphValue(kind: Value, v: Value): Option<Value> {
    if kind == Str("image") then
      if v.Obj? && Get(v.fields, "asset_id").Str? then Some(Obj(map["__app_upload_id__" := v.fields["asset_id"]]))
        else None
    else if kind == Str("lora_stack") then Some(Encoded(v))
    else if kind == Str("seed") && v.Str? && Canonical(v.text) then Some(Int(Parse(v.text)))
    else Some(v)
  }

  function BindingsOf(d: Mapping): seq<Value> {
    if Get(d, "bindings").List? then Get(d, "bindings").items else []
  }

  /** The graph with one value written to some bindings, in order. */
  function PatchBindings(graph: Graph, kind: Value, bindings: seq<Value>, v: Value): Option<Graph> {
    if bindings == [] then Some(graph)
    else
      var before, b := PatchBindings(graph, kind, bindings[..|bindings| - 1], v), bindings[|bindings| - 1];
      if before.None? || !Patchable(before.value, kind, b) then None
      else Some(Patch(before.value, TargetOf(b).value, v))
  }

  function PatchInput(graph: Graph, input: Input, effective: Mapping): Option<Graph> {
    var d := input.declaration;
    if input.id !in effective then Some(graph)
    else
      var v := GraphValue(Kind(d), effective[input.id]);
      if v.None? || BindingsOf(d) == [] then None else PatchBindings(graph, Kind(d), BindingsOf(d), v.value)
  }

  /** The graph with every kept value written, in the order of the declarations. */
  function PatchAll(graph: Graph, inputs: seq<Input>, effective: Mapping): Option<Graph> {
    if inputs == [] then Some(graph)
    else
      var before := PatchAll(graph, inputs[..|inputs| - 1], effective);
      if before.None? then None else PatchInput(before.value, inputs[|inputs| - 1], effective)
  }

  // ----- the whole compilation -----

  /** `prompt` is the value of the positive prompt, or the empty text. */
  datatype Result =
    | Compiled(effective: Mapping, seeds: map<string, string>, graph: Graph, uploads: map<string, string>,
      prompt: Value)
    | UnknownControls
    | FieldErrors(fields: set<string>)
    | ContractError
    | ResolverError

  predicate IsInput(v: Value) { v.Obj? && Get(v.fields, "id").Str? }

  function ToInput(v: Value): Input { if IsInput(v) then Input(v.fields["id"].text, v.fields) else Input("", map[]) }

  /** The declared inputs, if they are all usable and their ids are distinct. */
  function Inputs(contract: Mapping): (r: Option<seq<Input>>)
    ensures r.Some? ==> DistinctIds(r.value)
  {
    var raw := Get(contract, "inputs");
    if !raw.List? || exists i | 0 <= i < |raw.items| :: !IsInput(raw.items[i]) then None
    else
      var inputs := seq(|raw.items|, i requires 0 <= i < |raw.items| => ToInput(raw.items[i]));
      if exists i, j | 0 <= i < j < |inputs| :: inputs[i].id == inputs[j].id then None else Some(inputs)
  }

  predicate IsText(contract: Mapping) {
    Get(contract, "outputs").List? && FinalKind(Get(contract, "outputs").items) == Some(Str("text"))
  }

  /** The kind of the first final output. */
  function FinalKind(outputs: seq<Value>): Option<Value> {
    if outputs == [] then None
    else if outputs[0].Obj? && Get(outputs[0].fields, "role") == Str("final") then
      var o := outputs[0].fields;
      Some(if "kind" in o then o["kind"] else if "type" in o then o["type"] else Str("image"))
    else FinalKind(outputs[1..])
  }

  /** The first positive prompt. */
  function Positive(inputs: seq<Input>): Option<Input> {
    if inputs == [] then None
    else if Role(inputs[0].declaration) == Str("positive_prompt") then Some(inputs[0])
    else Positive(inputs[1..])
  }

  /** Which inputs, and with which outcome, once choices have spoken. */
  ghost function Outcomes(inputs: seq<Input>, requested: Mapping, text: bool, slots: string -> int): Input -> Outcome {
    (input: Input) => Final(inputs, requested, text, slots, input)
  }

  ghost function Effective(inputs: seq<Input>, outcomes: Input -> Outcome): (r: Mapping)
    requires DistinctIds(inputs)
    ensures forall input :: input in inputs ==>
              (input.id in r <==> outcomes(input).Kept?) && (outcomes(input).Kept? ==>
                r[input.id] == outcomes(input).value)
    ensures forall id :: id in r ==> Declared(inputs, id)
  {
    if inputs == [] then map[]
    else
      var front, last := inputs[..|inputs| - 1], inputs[|inputs| - 1];
      assert forall input :: input in inputs <==> input in front || input == last;
      var kept := Effective(front, outcomes);
      assert last.id !in kept;
      assert inputs[|inputs| - 1].id == last.id;
      if outcomes(last).Kept? then kept[last.id := outcomes(last).value] else kept
  }

  function TextOf(v: Value): string { if v.Str? then v.text else "" }

  predicate IsSeed(input: Input) { Kind(input.declaration) == Str("seed") }

  predicate IsImage(input: Input) { Kind(input.declaration) == Str("image") }

  function Seeds(inputs: seq<Input>, effective: Mapping): map<string, string> {
    if inputs == [] then map[]
    else
      var before, last := Seeds(inputs[..|inputs| - 1], effective), inputs[|inputs| - 1];
      if IsSeed(last) && last.id in effective then before[last.id := TextOf(effective[last.id])] else before
  }

  function AssetOf(v: Value): string { if v.Obj? then TextOf(Get(v.fields, "asset_id")) else "" }

  function Uploads(inputs: seq<Input>, effective: Mapping): map<string, string> {
    if inputs == [] then map[]
    else
      var before, last := Uploads(inputs[..|inputs| - 1], effective), inputs[|inputs| - 1];
      if IsImage(last) && last.id in effective then before[last.id := AssetOf(effective[last.id])] else before
  }

  /** The first input that raises stops the first loop. */
  ghost function FirstRaised(inputs: seq<Input>, requested: Mapping, text: bool,
                             slots: string -> int): Option<Outcome> {
    if inputs == [] then None
    else
      var first := Judge(inputs[0], requested, text, slots(inputs[0].id));
      if first.Raises() then Some(first) else FirstRaised(inputs[1..], requested, text, slots)
  }

  predicate Declared(inputs: seq<Input>, id: string) { exists i | 0 <= i < |inputs| :: inputs[i].id == id }

  /** The result of a request: `slots` are the seed resolver's answers. */
  ghost function Compile(contract: Mapping, api: Graph, requested: Mapping, slots: string -> int): Result {
    var declared, text := Inputs(contract), IsText(contract);
    if declared.None? then ContractError
    else if exists id :: id in requested && !Declared(declared.value, id) then UnknownControls
    else
      var inputs := declared.value;
      var raised, outcomes := FirstRaised(inputs, requested, text, slots), Outcomes(inputs, requested, text, slots);
      if raised.Some? then (if raised.value.Unresolved? then ResolverError else ContractError)
      else if exists i :: 0 <= i < |inputs| && outcomes(inputs[i]).Raises() then ContractError
      else if exists i :: 0 <= i < |inputs| && outcomes(inputs[i]).Faulty? then
        FieldErrors(set i: nat | i < |inputs| && outcomes(inputs[i]).Faulty? :: inputs[i].id)
      else Assemble(inputs, api, text, Effective(inputs, outcomes))
  }

  /** What is built from the effective controls. */
  function Assemble(inputs: seq<Input>, api: Graph, text: bool, effective: Mapping): Result {
    var graph, positive := PatchAll(api, inputs, effective), Positive(inputs);
    if graph.None? then ContractError
    else if positive.None? then
      if text then Compiled(effective, Seeds(inputs, effective), graph.value, Uploads(inputs, effective), Str(""))
        else ContractError
    else if positive.value.id in effective && (text || effective[positive.value.id].Str?) then
      Compiled(effective, Seeds(inputs, effective), graph.value, Uploads(inputs, effective),
        effective[positive.value.id])
    else ContractError
  }
}
