/** What a successful compilation returns, control by control: which value each of
    them has, what it looks like in the graph, and what is recorded beside it. */
module CompiledResults {
  import opened Values
  import opened LoraStack
  import opened Compiler
  import opened Recompile
  import opened GraphFrame

  // ----- seeds -----

  /** No seed was given, or a random one was asked for. */
  predicate Asks(v: Option<Value>) { v.None? || v.value in {Null, Str(""), Str("random")} }

  predicate GivesInteger(v: Option<Value>, n: int) {
    v == Some(Int(n)) || (v.Some? && v.value.Str? && Canonical(v.value.text) && Parse(v.value.text) == n)
  }

  function StepOf(d: Mapping): Value { if "step" in d then d["step"] else Int(1) }

  ghost predicate SeedBounds(d: Mapping) {
    Get(d, "minimum").Int? && Get(d, "maximum").Int? && StepOf(d).Int? && StepOf(d).whole > 0
  }

  /** The seed is that many steps above the minimum when it is drawn; otherwise it
      is the given or the saved one, in range and on a step. */
  ghost predicate SeedIs(d: Mapping, v: Option<Value>, slot: int, n: int) {
    && SeedBounds(d)
    && var minimum, maximum, step := Get(d, "minimum").whole, Get(d, "maximum").whole, StepOf(d).whole;
       if Asks(v) && Get(d, "default_mode") == Str("random") then
         0 <= slot && n == minimum + slot * step && n <= maximum
       else
         && GivesInteger(if Asks(v) then Optional(d, "default") else v, n) && minimum <= n <= maximum
         && exists k ::
              -CAPACITY < k as real < CAPACITY && Rounded(n as real - minimum as real) == Times(k, Exact(StepOf(d)))
  }

  lemma {:induction false} SlotFits(slot: int, distance: int, step: int)
    requires step > 0
    ensures slot <= distance / step <==> slot * step <= distance
  {
    var q := distance / step;
    assert distance == q * step + distance % step;
    if slot <= q { StepsMore(slot, q, step); } else { StepsMore(q + 1, slot, step); }
  }

  lemma {:induction false} StepsMore(m: int, n: int, step: int)
    requires m <= n && step > 0
    ensures m * step <= n * step
  {
    assert (n - m) * step >= 0;
  }

  lemma {:induction false} ResolvedMeans(d: Mapping, v: Option<Value>, slot: int, n: int)
    ensures ResolveSeed(d, v, slot) == Concrete(n) <==> SeedIs(d, v, slot, n)
  {
    hide Divides, Multiple, Rounded, Canonical, Parse;
    if SeedBounds(d) {
      var minimum, maximum, step := Get(d, "minimum").whole, Get(d, "maximum").whole, StepOf(d).whole;
      SlotFits(slot, maximum - minimum, step);
      if minimum <= n { AlignedMeans(n as real - minimum as real, step as real); }
    }
  }

  // ----- what a compiled input looks like -----

  /** The input has a value of its own: the given one, or the declared default. */
  ghost predicate OwnValue(input: Input, requested: Mapping, slot: int, value: Value) {
    var d, v := input.declaration, Optional(requested, input.id);
    if Kind(d) == Str("seed") then exists n :: SeedIs(d, v, slot, n) && value == Str(Print(n))
    else Admits(d, value)
         && if v.Some? && (v.value != Null || Kind(d) == Str("lora_stack")) then value == v.value
            else Optional(d, "default") == Some(value)
  }

  /** A required input has been given, and is not empty where that would mean missing. */
  ghost predicate RequiredIsGiven(input: Input, requested: Mapping, text: bool) {
    var d := input.declaration;
    Required(d) ==>
      && Supplies(requested, input.id)
      && (requested[input.id] == Str("") ==> Kind(d) == Str("choice") || (text && Kind(d) == Str("string")))
  }

  ghost predicate LeftOut(input: Input, requested: Mapping) {
    var d := input.declaration;
    Kind(d) != Str("seed") && !Required(d) && "default" !in d
    && !(input.id in requested && (requested[input.id] != Null || Kind(d) == Str("lora_stack")))
  }

  lemma {:induction false} JudgedMeans(input: Input, requested: Mapping, text: bool, slot: int)
    ensures forall value :: Judge(input, requested, text, slot) == Kept(value) <==>
              RequiredIsGiven(input, requested, text) && OwnValue(input, requested, slot, value)
    ensures Judge(input, requested, text, slot).Skipped? <==> LeftOut(input, requested)
  {
    hide ValidateValue, ResolveSeed, Admits, SeedIs, Print;
    var d, v := input.declaration, Optional(requested, input.id);
    if Kind(d) == Str("seed") {
      forall n ensures ResolveSeed(d, v, slot) == Concrete(n) <==>
        SeedIs(d, v, slot, n) { ResolvedMeans(d, v, slot, n); }
    } else {
      forall w ensures ValidateValue(d, w) == Good(w) <==> Admits(d, w) { ValidatedMeans(d, w); }
      forall w ensures ValidateValue(d, w).Good? ==> ValidateValue(d, w).value == w { ValidatedMeans(d, w); }
    }
  }

  // ----- strengths that follow a choice -----

  /** The selected option of the choice suggests the value: its default strength if
      it has one, otherwise the declared default. */
  ghost predicate Suggests(c: Mapping, selected: string, d: Mapping, value: Option<Value>) {
    && Get(c, "choices").List?
    && exists i :: 0 <= i < |Get(c, "choices").items| && var option := Get(c, "choices").items[i];
         option.Obj? && Get(option.fields, "value") == Str(selected)
         && value == (if "default_strength" in option.fields then Some(option.fields["default_strength"])
            else Optional(d, "default"))
  }

  lemma {:induction false} OptionFound(options: seq<Value>, selected: string, i: nat)
    requires i < |options| && options[i].Obj? && Get(options[i].fields, "value") == Str(selected)
    ensures OptionIn(options, selected).Some?
    ensures exists j :: 0 <= j < |options| && options[j].Obj? && Get(options[j].fields, "value") == Str(selected)
                        && OptionIn(options, selected) == Some(options[j].fields)
  {
    var front, last := options[..|options| - 1], options[|options| - 1];
    if !(last.Obj? && Get(last.fields, "value") == Str(selected)) {
      OptionFound(front, selected, i);
      var j :| 0 <= j < |front| && front[j].Obj? && Get(front[j].fields, "value") == Str(selected)
               && OptionIn(front, selected) == Some(front[j].fields);
      assert options[j] == front[j];
    }
  }

  lemma {:induction false} SuggestedMeans(c: Mapping, selected: string, d: Mapping)
    requires Offers(Get(c, "choices"), Str(selected))
    ensures Suggests(c, selected, d, Suggested(c, selected, d))
  {
    var options := Get(c, "choices").items;
    var i :| 0 <= i < |options| && Get(options[i].fields, "value") == Str(selected);
    OptionFound(options, selected, i);
  }

  /** What an input ends up with when all went well: nothing, its own value, or,
      for a strength that was not given and follows a selected choice, what the
      selected option suggests. */
  ghost predicate Ends(inputs: seq<Input>, requested: Mapping, text: bool, slots: string -> int, effective: Mapping,
                       input: Input) {
    var d := input.declaration;
    && RequiredIsGiven(input, requested, text)
    && if Supplies(requested, input.id) || ChoiceOf(inputs, input).None?
       then Own(input, requested, slots(input.id), effective)
       else
         var c := ChoiceOf(inputs, input).value;
         if c.id in effective && effective[c.id].Str?
            && exists w :: Suggests(c.declaration, effective[c.id].text, d, Some(w)) then
           input.id in effective && Admits(d, effective[input.id])
           && Suggests(c.declaration, effective[c.id].text, d, Some(effective[input.id]))
         else Own(input, requested, slots(input.id), effective)
  }

  ghost predicate Own(input: Input, requested: Mapping, slot: int, effective: Mapping) {
    if input.id in effective then OwnValue(input, requested, slot, effective[input.id]) else LeftOut(input, requested)
  }

  lemma {:induction false} SuggestsOne(c: Mapping, selected: string, d: Mapping, v: Option<Value>, w: Option<Value>)
    requires Offers(Get(c, "choices"), Str(selected)) && Suggests(c, selected, d, v) && Suggests(c, selected, d, w)
    ensures v == w
  {
  }

  lemma {:induction false} EndsMeans(inputs: seq<Input>, requested: Mapping, text: bool, slots: string -> int,
                                     effective: Mapping,
                                     input: Input)
    requires Succeeds(inputs, requested, text, slots, effective) && input in inputs
    ensures Ends(inputs, requested, text, slots, effective, input)
  {
    hide Judge, ValidateValue, OwnValue, LeftOut, RequiredIsGiven, Suggested, Suggests, Companion, ChoiceOf, Admits,
         DistinctIds;
    JudgedMeans(input, requested, text, slots(input.id));
    LeftOutIsGiven(input, requested, text);
    var c := ChoiceOf(inputs, input);
    if c.Some? && !Supplies(requested, input.id) {
      NotRequired(input, requested, text, slots(input.id));
      ChoiceIsItsOwn(inputs, input, c.value, requested, text, slots);
      if c.value.id in effective && effective[c.value.id].Str? {
        ChoiceOffers(c.value, requested, text, slots(c.value.id));
        FollowingMeans(input, c.value, Judge(input, requested, text, slots(input.id)), effective[c.value.id],
          requested, effective);
      }
    }
  }

  lemma {:induction false} LeftOutIsGiven(input: Input, requested: Mapping, text: bool)
    ensures LeftOut(input, requested) ==> RequiredIsGiven(input, requested, text)
  {
  }

  lemma {:induction false} NotRequired(input: Input, requested: Mapping, text: bool, slot: int)
    requires !Supplies(requested, input.id)
    ensures RequiredIsGiven(input, requested, text) || Judge(input, requested, text, slot).Faulty?
  {
    hide ValidateValue, ResolveSeed;
  }

  lemma {:induction false} ChoiceOffers(c: Input, requested: Mapping, text: bool, slot: int)
    requires IsChoice(c) && Judge(c, requested, text, slot).Kept?
    ensures Offers(Get(c.declaration, "choices"), Judge(c, requested, text, slot).value)
  {
    hide Judge, Offers, OnGrid, NamesAsset, Accepts, RequiredIsGiven;
    JudgedMeans(c, requested, text, slot);
  }

  /** A strength that was not given and whose choice is selected. */
  lemma {:induction false} FollowingMeans(input: Input, c: Input, own: Outcome, selected: Value, requested: Mapping,
                                          effective: Mapping)
    requires selected.Str? && Offers(Get(c.declaration, "choices"), selected) && !Supplies(requested, input.id)
             && !own.Faulty?
    requires var outcome := Following(input, c, own, Kept(selected), requested);
             (outcome.Kept? || outcome.Skipped?) && (input.id in effective <==> outcome.Kept?)
             && (outcome.Kept? ==> effective[input.id] == outcome.value)
    ensures var d := input.declaration;
            if exists w :: Suggests(c.declaration, selected.text, d, Some(w)) then
              input.id in effective && Admits(d, effective[input.id])
              && Suggests(c.declaration, selected.text, d, Some(effective[input.id]))
            else Following(input, c, own, Kept(selected), requested) == own
  {
    hide ValidateValue, Suggested, Suggests, Admits, Offers;
    var d := input.declaration;
    var suggested := Suggested(c.declaration, selected.text, d);
    SuggestedMeans(c.declaration, selected.text, d);
    forall w | Suggests(c.declaration, selected.text, d, Some(w)) ensures suggested == Some(w) {
      SuggestsOne(c.declaration, selected.text, d, suggested, Some(w));
    }
    if suggested.Some? { ValidatedMeans(d, suggested.value); }
  }

  // ----- the graph and the records -----

  /** A binding of an input to a target of the graph. */
  predicate BoundTo(d: Mapping, t: Target) {
    Get(d, "bindings").List?
    && exists i | 0 <= i < |Get(d, "bindings").items| ::
         var b := Get(d, "bindings").items[i];
         b.Obj? && Get(b.fields, "input") == Str(t.name) && NodeIdText(Get(b.fields, "node_id")) == t.node
  }

  /** The `k`-th input is the last of those with a value that are bound to the target. */
  ghost predicate LastBound(inputs: seq<Input>, effective: Mapping, t: Target, k: nat) {
    && k < |inputs| && inputs[k].id in effective && BoundTo(inputs[k].declaration, t)
    && forall j :: k < j < |inputs| && inputs[j].id in effective ==> !BoundTo(inputs[j].declaration, t)
  }

  /** What the value of an input looks like in the graph and in the records: a seed
      is an integer there and recorded as text, an image is a reference to the
      recorded upload, a stack is encoded, and everything else is as it is. */
  ghost predicate Appears(input: Input, r: Result, shown: Option<Value>)
    requires r.Compiled? && input.id in r.effective
  {
    var v := r.effective[input.id];
    match Kind(input.declaration)
    case Str("seed") =>
      exists n :: shown == Some(Int(n)) && v == Str(Print(n)) && input.id in r.seeds && r.seeds[input.id] == Print(n)
    case Str("image") =>
      exists asset :: v == Obj(map["asset_id" := Str(asset)])
        && shown == Some(Obj(map["__app_upload_id__" := Str(asset)]))
                      && input.id in r.uploads && r.uploads[input.id] == asset
    case Str("lora_stack") => shown == Some(Encoded(v))
    case _ => shown == Some(v)
  }

  lemma {:induction false} BoundMeans(d: Mapping, t: Target)
    ensures Binds(BindingsOf(d), t) <==> BoundTo(d, t)
  {
    forall b: Value ensures TargetOf(b) == Some(t) <==>
              b.Obj? && Get(b.fields, "input") == Str(t.name) && NodeIdText(Get(b.fields, "node_id")) == t.node
    {
    }
  }

  lemma {:induction false} WriterMeans(inputs: seq<Input>, effective: Mapping, t: Target)
    ensures forall k: nat :: LastBound(inputs, effective, t, k) ==> Writer(inputs, effective, t) == Some(inputs[k])
    ensures Writer(inputs, effective, t).Some? ==>
              exists k: nat :: LastBound(inputs, effective, t, k) && inputs[k] == Writer(inputs, effective, t).value
  {
    hide Binds, BoundTo;
    if inputs != [] {
      var front, last := inputs[..|inputs| - 1], inputs[|inputs| - 1];
      BoundMeans(last.declaration, t);
      WriterMeans(front, effective, t);
      if last.id in effective && BoundTo(last.declaration, t) {
        assert LastBound(inputs, effective, t, |inputs| - 1);
      } else {
        forall k: nat ensures LastBound(inputs, effective, t, k) <==> LastBound(front, effective, t, k) {
        }
      }
    }
  }

  lemma {:induction false} SeedsMean(inputs: seq<Input>, effective: Mapping)
    requires DistinctIds(inputs)
    ensures forall id :: id in Seeds(inputs, effective) ==>
              exists x :: x in inputs && x.id == id && IsSeed(x) && id in effective
    ensures forall x :: x in inputs && IsSeed(x) && x.id in effective ==>
              x.id in Seeds(inputs, effective) && Seeds(inputs, effective)[x.id] == TextOf(effective[x.id])
  {
    hide TextOf, IsSeed, DistinctIds;
    if inputs != [] {
      var front, last := inputs[..|inputs| - 1], inputs[|inputs| - 1];
      LastIsApart(inputs);
      SeedsMean(front, effective);
    }
  }

  lemma {:induction false} UploadsMean(inputs: seq<Input>, effective: Mapping)
    requires DistinctIds(inputs)
    ensures forall id :: id in Uploads(inputs, effective) ==>
              exists x :: x in inputs && x.id == id && IsImage(x) && id in effective
    ensures forall x :: x in inputs && IsImage(x) && x.id in effective ==>
              x.id in Uploads(inputs, effective) && Uploads(inputs, effective)[x.id] == AssetOf(effective[x.id])
  {
    hide AssetOf, IsImage, DistinctIds;
    if inputs != [] {
      var front, last := inputs[..|inputs| - 1], inputs[|inputs| - 1];
      LastIsApart(inputs);
      UploadsMean(front, effective);
    }
  }

  lemma {:induction false} LastIsApart(inputs: seq<Input>)
    requires DistinctIds(inputs) && inputs != []
    ensures var front, last := inputs[..|inputs| - 1], inputs[|inputs| - 1];
            && DistinctIds(front) && (forall x :: x in front ==> x.id != last.id)
            && forall x :: x in inputs <==> x in front || x == last
  {
  }

  /** A target shows the value of the last control bound to it, or is as frozen. */
  ghost predicate GraphShows(inputs: seq<Input>, api: Graph, r: Result, t: Target)
    requires r.Compiled?
  {
    && (forall k: nat :: LastBound(inputs, r.effective, t, k) ==> Appears(inputs[k], r, At(r.graph, t)))
    && ((forall k: nat :: !LastBound(inputs, r.effective, t, k)) ==> At(r.graph, t) == At(api, t))
  }

  /** Everything about a successful compilation: each control ends as it should and
      nothing else has a value; the graph shows the last control bound to a target
      and is otherwise the frozen one; exactly the seeds and the images are
      recorded; and the prompt is that of the first positive prompt. */
  ghost predicate Right(contract: Mapping, api: Graph, requested: Mapping, slots: string -> int, r: Result)
    requires r.Compiled? && Inputs(contract).Some?
  {
    var inputs, text := Inputs(contract).value, IsText(contract);
    && (forall x :: x in inputs ==> Ends(inputs, requested, text, slots, r.effective, x))
    && (forall id :: id in r.effective ==> exists x :: x in inputs && x.id == id)
    && SameFrame(api, r.graph)
    && (forall t :: GraphShows(inputs, api, r, t))
    && (forall id :: id in r.seeds ==> exists x :: x in inputs && x.id == id && IsSeed(x) && id in r.effective)
    && (forall id :: id in r.uploads ==> exists x :: x in inputs && x.id == id && IsImage(x) && id in r.effective)
    && PromptIs(inputs, text, r)
  }

  predicate IsPrompt(x: Input) { Get(x.declaration, "semantic_role") == Str("positive_prompt") }

  ghost predicate PromptIs(inputs: seq<Input>, text: bool, r: Result)
    requires r.Compiled?
  {
    if forall k :: 0 <= k < |inputs| ==> !IsPrompt(inputs[k]) then text && r.prompt == Str("")
    else exists k :: 0 <= k < |inputs| && IsPrompt(inputs[k]) && (forall j :: 0 <= j < k ==> !IsPrompt(inputs[j]))
                     && inputs[k].id in r.effective && r.prompt == r.effective[inputs[k].id] && (text || r.prompt.Str?)
  }

  lemma {:induction false} PositiveMeans(inputs: seq<Input>)
    ensures Positive(inputs).None? <==> forall k :: 0 <= k < |inputs| ==> !IsPrompt(inputs[k])
    ensures Positive(inputs).Some? ==>
              exists k :: 0 <= k < |inputs| && IsPrompt(inputs[k]) && inputs[k] == Positive(inputs).value
                          && forall j :: 0 <= j < k ==> !IsPrompt(inputs[j])
  {
    if inputs != [] && !IsPrompt(inputs[0]) {
      PositiveMeans(inputs[1..]);
      assert forall j :: 0 < j < |inputs| ==> inputs[j] == inputs[1..][j - 1];
      if Positive(inputs).Some? {
        var k :| 0 <= k < |inputs[1..]| && IsPrompt(inputs[1..][k]) && inputs[1..][k] == Positive(inputs[1..]).value
                 && (forall j :: 0 <= j < k ==> !IsPrompt(inputs[1..][j]));
        assert IsPrompt(inputs[k + 1]);
      }
    }
  }

  /** A kept seed is a printed integer, and a kept image names its asset. */
  lemma {:induction false} KeptForms(inputs: seq<Input>, requested: Mapping, text: bool, slots: string -> int,
                                     effective: Mapping,
                                     input: Input)
    requires Ends(inputs, requested, text, slots, effective, input) && input.id in effective
    requires IsSeed(input) || IsImage(input)
    requires ChoiceOf(inputs, input).Some? ==> IsNumberInput(input)
    ensures IsSeed(input) ==> exists n :: effective[input.id] == Str(Print(n))
    ensures IsImage(input) ==> exists asset :: effective[input.id] == Obj(map["asset_id" := Str(asset)])
  {
    hide SeedIs, Print, OnGrid, Offers, Accepts, RequiredIsGiven, Suggests, ChoiceOf;
  }

  lemma {:induction false} ShownAs(input: Input, r: Result, shown: Option<Value>)
    requires r.Compiled? && input.id in r.effective && shown
             == GraphValue(Kind(input.declaration), r.effective[input.id])
    requires IsSeed(input) ==> (exists n :: r.effective[input.id] == Str(Print(n)))
                               && input.id in r.seeds && r.seeds[input.id] == TextOf(r.effective[input.id])
    requires IsImage(input) ==> (exists asset :: r.effective[input.id] == Obj(map["asset_id" := Str(asset)]))
                                && input.id in r.uploads && r.uploads[input.id] == AssetOf(r.effective[input.id])
    ensures Appears(input, r, shown)
  {
    hide Print, Canonical, Parse;
    if IsSeed(input) {
      var n :| r.effective[input.id] == Str(Print(n));
      ParsePrint(n);
    } else if IsImage(input) {
      var asset :| r.effective[input.id] == Obj(map["asset_id" := Str(asset)]);
    }
  }

  lemma {:induction false} FollowersAreNumbers(inputs: seq<Input>, input: Input)
    ensures ChoiceOf(inputs, input).Some? ==> IsNumberInput(input)
  {
    if ChoiceOf(inputs, input).Some? { assert Companion(inputs, input, ChoiceOf(inputs, input).value); }
  }

  lemma {:induction false} GraphIsRight(inputs: seq<Input>, api: Graph, requested: Mapping, text: bool,
                                        slots: string -> int, r: Result, t: Target)
    requires DistinctIds(inputs) && r.Compiled? && r == Assemble(inputs, api, text, r.effective)
    requires forall x :: x in inputs ==> Ends(inputs, requested, text, slots, r.effective, x)
    ensures SameFrame(api, r.graph) && GraphShows(inputs, api, r, t)
  {
    hide Ends, At, SameFrame, LastBound, GraphValue, Binds, Seeds, Uploads, Positive, PatchAll, Appears, IsSeed,
         IsImage,
         DistinctIds, TextOf, AssetOf;
    AssembledGraph(inputs, api, text, r.effective);
    LastBinderWins(api, inputs, r.effective, t);
    WriterMeans(inputs, r.effective, t);
    SeedsMean(inputs, r.effective);
    UploadsMean(inputs, r.effective);
    LastIsIn(inputs, r.effective, t);
    forall k: nat | k < |inputs| && LastBound(inputs, r.effective, t, k) ensures Appears(inputs[k], r, At(r.graph, t)) {
      FollowersAreNumbers(inputs, inputs[k]);
      if IsSeed(inputs[k]) || IsImage(inputs[k]) {
        KeptForms(inputs, requested, text, slots, r.effective, inputs[k]);
      }
      ShownAs(inputs[k], r, At(r.graph, t));
    }
  }

  lemma {:induction false} LastIsIn(inputs: seq<Input>, effective: Mapping, t: Target)
    ensures forall k: nat :: LastBound(inputs, effective, t, k) ==>
              k < |inputs| && inputs[k] in inputs && inputs[k].id in effective
  {
  }

  /** Whenever compilation succeeds, its result is right. */
  lemma {:induction false} CompiledMeans(contract: Mapping, api: Graph, requested: Mapping, slots: string -> int)
    requires Compile(contract, api, requested, slots).Compiled?
    ensures Inputs(contract).Some? && Right(contract, api, requested, slots, Compile(contract, api, requested, slots))
  {
    hide Compile, Ends, At, SameFrame, GraphShows, IsText, Inputs, Assemble, PromptIs, Final;
    var r := Compile(contract, api, requested, slots);
    CompiledSucceeds(contract, api, requested, slots);
    var inputs, text := Inputs(contract).value, IsText(contract);
    forall x | x in inputs ensures Ends(inputs, requested, text, slots, r.effective, x) {
      EndsMeans(inputs, requested, text, slots, r.effective, x);
    }
    forall t ensures GraphShows(inputs, api, r, t) {
      GraphIsRight(inputs, api, requested, text, slots, r, t);
    }
    GraphIsRight(inputs, api, requested, text, slots, r, Target("", ""));
    RecordsAreRight(inputs, api, text, r, requested, slots);
  }

  lemma {:induction false} RecordsAreRight(inputs: seq<Input>, api: Graph, text: bool, r: Result, requested: Mapping,
                                           slots: string -> int)
    requires r.Compiled? && r == Assemble(inputs, api, text, r.effective)
    requires Succeeds(inputs, requested, text, slots, r.effective)
    ensures forall id :: id in r.effective ==> exists x :: x in inputs && x.id == id
    ensures forall id :: id in r.seeds ==> exists x :: x in inputs && x.id == id && IsSeed(x) && id in r.effective
    ensures forall id :: id in r.uploads ==> exists x :: x in inputs && x.id == id && IsImage(x) && id in r.effective
    ensures PromptIs(inputs, text, r)
  {
    hide PatchAll, Seeds, Uploads, Positive, Final, IsPrompt;
    SeedsMean(inputs, r.effective);
    UploadsMean(inputs, r.effective);
    PositiveMeans(inputs);
    forall id | id in r.effective ensures exists x :: x in inputs && x.id == id {
      var i :| 0 <= i < |inputs| && inputs[i].id == id;
      assert inputs[i] in inputs;
    }
  }

  // ----- what the user is told -----

  /** The seed that was given or saved is no integer, out of range, or off the steps. */
  ghost predicate WrongSeedGiven(d: Mapping, v: Option<Value>) {
    && SeedBounds(d) && !(Asks(v) && Get(d, "default_mode") == Str("random"))
    && var chosen := if Asks(v) then Optional(d, "default") else v;
       var minimum, maximum := Get(d, "minimum").whole, Get(d, "maximum").whole;
       forall n :: GivesInteger(chosen, n) ==>
         !(minimum <= n <= maximum)
         || (Divides(n as real - minimum as real, Exact(StepOf(d)))
             && !Multiple(Rounded(n as real - minimum as real), Exact(StepOf(d))))
  }

  lemma {:induction false} WrongSeedMeans(d: Mapping, v: Option<Value>, slot: int)
    ensures ResolveSeed(d, v, slot).WrongSeed? <==> WrongSeedGiven(d, v)
  {
    hide Divides, Multiple, Rounded, Canonical, Parse;
    var chosen := if Asks(v) then Optional(d, "default") else v;
    if ParseSeed(chosen).Some? {
      assert GivesInteger(chosen, ParseSeed(chosen).value);
    }
  }

  /** An input that the user has to correct on its own account. */
  ghost predicate OwnFault(input: Input, requested: Mapping, text: bool) {
    var d, v := input.declaration, Optional(requested, input.id);
    || !RequiredIsGiven(input, requested, text)
    || (if Kind(d) == Str("seed") then WrongSeedGiven(d, v)
        else
          var chosen := if v.Some? && (v.value != Null || Kind(d) == Str("lora_stack")) then v
            else Optional(d, "default");
          chosen.Some? && !Admits(d, chosen.value) && !Blames(d, chosen.value))
  }

  lemma {:induction false} OwnFaultMeans(input: Input, requested: Mapping, text: bool, slot: int)
    ensures Judge(input, requested, text, slot).Faulty? <==> OwnFault(input, requested, text)
  {
    hide ValidateValue, ResolveSeed, Admits, Blames, WrongSeedGiven;
    var d, v := input.declaration, Optional(requested, input.id);
    WrongSeedMeans(d, v, slot);
    forall w ensures ValidateValue(d, w).Wrong? <==> !Admits(d, w) && !Blames(d, w) { NotGood(d, w); }
  }

  lemma {:induction false} NotGood(d: Mapping, v: Value)
    ensures ValidateValue(d, v).Wrong? <==> !Admits(d, v) && !Blames(d, v)
  {
    hide ValidateValue, Admits, Blames;
    ValidatedMeans(d, v);
  }

  /** A strength that was not given and whose choice suggests an inadmissible value. */
  ghost predicate BadSuggestion(inputs: seq<Input>, requested: Mapping, text: bool, slots: string -> int,
                                input: Input) {
    && !Supplies(requested, input.id) && ChoiceOf(inputs, input).Some?
    && var c, d := ChoiceOf(inputs, input).value, input.declaration;
       && RequiredIsGiven(c, requested, text)
       && exists selected, w ::
            && OwnValue(c, requested, slots(c.id), Str(selected)) && Suggests(c.declaration, selected, d, Some(w))
            && !Admits(d, w) && !Blames(d, w)
  }

  lemma {:induction false} SuggestedFault(inputs: seq<Input>, requested: Mapping, text: bool, slots: string -> int,
                                          input: Input)
    requires input in inputs && !OwnFault(input, requested, text)
    ensures Final(inputs, requested, text, slots, input).Faulty? ==>
            BadSuggestion(inputs, requested, text, slots, input)
  {
    hide Judge, ValidateValue, OwnValue, RequiredIsGiven, Suggested, Suggests, Companion, Admits, Blames, OwnFault,
         Offers;
    OwnFaultMeans(input, requested, text, slots(input.id));
    var c := ChoiceOf(inputs, input);
    if c.Some? && Final(inputs, requested, text, slots, input).Faulty? {
      assert Companion(inputs, input, c.value);
      CompanionIsChoice(inputs, input, c.value);
      var choice := Judge(c.value, requested, text, slots(c.value.id));
      JudgedMeans(c.value, requested, text, slots(c.value.id));
      ChoiceOffers(c.value, requested, text, slots(c.value.id));
      SuggestedMeans(c.value.declaration, choice.value.text, input.declaration);
      NotGood(input.declaration, Suggested(c.value.declaration, choice.value.text, input.declaration).value);
    }
  }

  lemma {:induction false} CompanionIsChoice(inputs: seq<Input>, s: Input, c: Input)
    requires Companion(inputs, s, c)
    ensures IsChoice(c)
  {
  }

  /** At least one field is reported, every input that is at fault on its own
      account is, and none without a fault. */
  ghost predicate Reported(contract: Mapping, requested: Mapping, slots: string -> int, fields: set<string>)
    requires Inputs(contract).Some?
  {
    var inputs, text := Inputs(contract).value, IsText(contract);
    && fields != {}
    && (forall x :: x in inputs && OwnFault(x, requested, text) ==> x.id in fields)
    && (forall id :: id in fields ==>
          exists x :: x in inputs && x.id == id
                      && (OwnFault(x, requested, text) || BadSuggestion(inputs, requested, text, slots, x)))
  }

  lemma {:induction false} FieldErrorsMean(contract: Mapping, api: Graph, requested: Mapping, slots: string -> int)
    requires Compile(contract, api, requested, slots).FieldErrors?
    ensures Inputs(contract).Some?
            && Reported(contract, requested, slots, Compile(contract, api, requested, slots).fields)
  {
    hide Judge, OwnFault, BadSuggestion, Compile, IsText, Inputs, Companion, Suggested, ValidateValue, ChoiceOf;
    ReportedAre(contract, api, requested, slots);
    var inputs, text := Inputs(contract).value, IsText(contract);
    var fields := Compile(contract, api, requested, slots).fields;
    forall x | x in inputs && OwnFault(x, requested, text) ensures x.id in fields {
      OwnFaultMeans(x, requested, text, slots(x.id));
      var i: nat :| i < |inputs| && inputs[i] == x;
      assert Final(inputs, requested, text, slots, inputs[i]).Faulty?;
    }
    forall id | id in fields
      ensures exists x ::
                && x in inputs && x.id == id
                && (OwnFault(x, requested, text) || BadSuggestion(inputs, requested, text, slots, x))
    {
      var i: nat :| i < |inputs| && Final(inputs, requested, text, slots, inputs[i]).Faulty? && inputs[i].id == id;
      if !OwnFault(inputs[i], requested, text) { SuggestedFault(inputs, requested, text, slots, inputs[i]); }
    }
  }

  lemma {:induction false} ReportedAre(contract: Mapping, api: Graph, requested: Mapping, slots: string -> int)
    requires Compile(contract, api, requested, slots).FieldErrors?
    ensures Inputs(contract).Some?
    ensures var inputs, text, fields := Inputs(contract).value, IsText(contract),
            Compile(contract, api, requested, slots).fields;
            && fields != {}
            && forall id :: id in fields <==>
                 exists i: nat :: i < |inputs| && Final(inputs, requested, text, slots, inputs[i]).Faulty?
                   && inputs[i].id == id
  {
    hide Judge, Final, PatchAll, Positive, Seeds, Uploads, FirstRaised, IsText, Declared, Inputs;
    var inputs, text := Inputs(contract).value, IsText(contract);
    var outcomes := Outcomes(inputs, requested, text, slots);
    var i :| 0 <= i < |inputs| && outcomes(inputs[i]).Faulty?;
    assert inputs[i].id in Compile(contract, api, requested, slots).fields;
  }

  // ----- patching on its own -----

  /** The form of a value in the graph, whatever the value is. */
  ghost predicate Shown(kind: Value, v: Value, shown: Option<Value>) {
    match kind
    case Str("seed") =>
      shown == Some(if v.Str? && Canonical(v.text) then Int(Parse(v.text)) else v)
    case Str("image") =>
      exists asset :: v.Obj? && Get(v.fields, "asset_id") == Str(asset)
        && shown == Some(Obj(map["__app_upload_id__" := Str(asset)]))
    case Str("lora_stack") => shown == Some(Encoded(v))
    case _ => shown == Some(v)
  }

  ghost predicate ShowsAll(api: Graph, inputs: seq<Input>, effective: Mapping, graph: Graph) {
    && SameFrame(api, graph)
    && forall t :: ShowsLast(api, inputs, effective, graph, t)
  }

  /** A target shows the last value bound to it, or is as frozen. */
  ghost predicate ShowsLast(api: Graph, inputs: seq<Input>, effective: Mapping, graph: Graph, t: Target) {
    && (forall k: nat :: LastBound(inputs, effective, t, k) ==>
          Shown(Kind(inputs[k].declaration), effective[inputs[k].id], At(graph, t)))
    && ((forall k: nat :: !LastBound(inputs, effective, t, k)) ==> At(graph, t) == At(api, t))
  }

  lemma {:induction false} FormMeans(kind: Value, v: Value)
    requires GraphValue(kind, v).Some?
    ensures Shown(kind, v, GraphValue(kind, v))
  {
    hide Canonical, Parse;
  }

  /** Every value has a form, and every control with a value has bindings, each of
      which can be patched. */
  ghost predicate CanPatch(api: Graph, inputs: seq<Input>, effective: Mapping) {
    forall i :: 0 <= i < |inputs| && inputs[i].id in effective ==>
      CanPatchInput(api, inputs[i].declaration, effective[inputs[i].id])
  }

  ghost predicate CanPatchInput(api: Graph, d: Mapping, v: Value) {
    && (Kind(d) == Str("image") ==> v.Obj? && Get(v.fields, "asset_id").Str?)
    && Get(d, "bindings").List? && Get(d, "bindings").items != []
    && forall j :: 0 <= j < |Get(d, "bindings").items| ==> Patchable(api, Kind(d), Get(d, "bindings").items[j])
  }

  lemma {:induction false} SamePatchable(api: Graph, graph: Graph, kind: Value, b: Value)
    requires SameFrame(api, graph)
    ensures Patchable(graph, kind, b) <==> Patchable(api, kind, b)
  {
  }

  lemma {:induction false} BindingsExactly(api: Graph, graph: Graph, kind: Value, bindings: seq<Value>, v: Value)
    requires SameFrame(api, graph)
    ensures PatchBindings(graph, kind, bindings, v).Some? <==> forall j :: 0 <= j < |bindings| ==>
            Patchable(api, kind, bindings[j])
  {
    hide SameFrame, Patchable, Patch;
    if bindings != [] {
      var front, last := bindings[..|bindings| - 1], bindings[|bindings| - 1];
      BindingsExactly(api, graph, kind, front, v);
      if PatchBindings(graph, kind, front, v).Some? {
        BindingsWrite(graph, kind, front, v, Target("", ""));
        SameFrameTrans(api, graph, PatchBindings(graph, kind, front, v).value);
        SamePatchable(api, PatchBindings(graph, kind, front, v).value, kind, last);
      }
    }
  }

  /** Patching fails exactly when some control cannot be patched in the frozen graph. */
  lemma {:induction false} PatchedExactly(api: Graph, inputs: seq<Input>, effective: Mapping)
    ensures PatchAll(api, inputs, effective).Some? <==> CanPatch(api, inputs, effective)
  {
    hide SameFrame, Patchable, PatchBindings;
    if inputs != [] {
      var front, last := inputs[..|inputs| - 1], inputs[|inputs| - 1];
      PatchedExactly(api, front, effective);
      FrontCanPatch(api, inputs, effective);
      if PatchAll(api, front, effective).Some? && last.id in effective {
        var graph, d := PatchAll(api, front, effective).value, last.declaration;
        LastBinderWins(api, front, effective, Target("", ""));
        var v := GraphValue(Kind(d), effective[last.id]);
        if v.Some? { BindingsExactly(api, graph, Kind(d), BindingsOf(d), v.value); }
      }
    }
  }

  lemma {:induction false} FrontCanPatch(api: Graph, inputs: seq<Input>, effective: Mapping)
    requires inputs != []
    ensures var front, last := inputs[..|inputs| - 1], inputs[|inputs| - 1];
            CanPatch(api, inputs, effective) <==>
              CanPatch(api, front, effective) && (last.id in effective ==>
                CanPatchInput(api, last.declaration, effective[last.id]))
  {
    hide CanPatchInput;
  }

  lemma {:induction false} PatchedShows(api: Graph, inputs: seq<Input>, effective: Mapping)
    requires PatchAll(api, inputs, effective).Some?
    ensures ShowsAll(api, inputs, effective, PatchAll(api, inputs, effective).value)
  {
    hide At, SameFrame, LastBound, GraphValue, Binds, PatchAll, Shown, CanPatch;
    PatchedExactly(api, inputs, effective);
    var graph := PatchAll(api, inputs, effective).value;
    LastBinderWins(api, inputs, effective, Target("", ""));
    forall t ensures ShowsLast(api, inputs, effective, graph, t) {
      LastBinderWins(api, inputs, effective, t);
      WriterMeans(inputs, effective, t);
      LastIsIn(inputs, effective, t);
      var writer := Writer(inputs, effective, t);
      if writer.Some? {
        HasForm(api, inputs, effective, writer.value);
        FormMeans(Kind(writer.value.declaration), effective[writer.value.id]);
      }
    }
  }

  lemma {:induction false} HasForm(api: Graph, inputs: seq<Input>, effective: Mapping, x: Input)
    requires CanPatch(api, inputs, effective) && x in inputs && x.id in effective
    ensures GraphValue(Kind(x.declaration), effective[x.id]).Some?
  {
    hide Patchable;
    var i :| 0 <= i < |inputs| && inputs[i] == x;
    assert CanPatchInput(api, inputs[i].declaration, effective[inputs[i].id]);
  }

  // ----- what a contract declares -----

  /** A usable contract lists objects with different text ids, in this order. */
  lemma {:induction false} InputsMean(contract: Mapping)
    ensures Inputs(contract).Some? <==>
              && Get(contract, "inputs").List?
              && (forall i :: 0 <= i < |Get(contract, "inputs").items| ==>
                    Get(contract, "inputs").items[i].Obj? && Get(Get(contract, "inputs").items[i].fields, "id").Str?)
              && forall i, j :: 0 <= i < j < |Get(contract, "inputs").items| ==>
                   Get(Get(contract, "inputs").items[i].fields, "id")
                     != Get(Get(contract, "inputs").items[j].fields, "id")
    ensures Inputs(contract).Some? ==>
              && |Inputs(contract).value| == |Get(contract, "inputs").items|
              && forall i :: 0 <= i < |Inputs(contract).value| ==>
                   var raw := Get(contract, "inputs").items[i].fields;
                   Inputs(contract).value[i].declaration == raw && Get(raw, "id") == Str(Inputs(contract).value[i].id)
  {
    if Get(contract, "inputs").List? {
      var items := Get(contract, "inputs").items;
      if forall i :: 0 <= i < |items| ==> IsInput(items[i]) {
        forall i | 0 <= i < |items| ensures Get(items[i].fields, "id") == Str(ToInput(items[i]).id) {
        }
        var inputs := seq(|items|, i requires 0 <= i < |items| => ToInput(items[i]));
        assert forall i, j :: 0 <= i < j < |items| ==>
          (inputs[i].id == inputs[j].id <==> Get(items[i].fields, "id") == Get(items[j].fields, "id"));
      }
    }
  }

  /** A text publication is one whose first final output is a text. */
  lemma {:induction false} KindMeans(outputs: seq<Value>)
    ensures FinalKind(outputs) == Some(Str("text")) <==>
              exists k :: 0 <= k < |outputs| && FinalText(outputs[k]) && forall j :: 0 <= j < k ==>
                !FinalOutput(outputs[j])
  {
    if outputs != [] && !FinalOutput(outputs[0]) {
      KindMeans(outputs[1..]);
      assert forall j :: 0 < j < |outputs| ==> outputs[j] == outputs[1..][j - 1];
      if k :| 0 <= k < |outputs| && FinalText(outputs[k]) && forall j :: 0 <= j < k ==> !FinalOutput(outputs[j]) {
        assert FinalText(outputs[1..][k - 1]);
      }
      if k :| 0 <= k < |outputs[1..]| && FinalText(outputs[1..][k]) && forall j :: 0 <= j < k ==>
        !FinalOutput(outputs[1..][j]) {
        assert FinalText(outputs[k + 1]);
      }
    }
  }

  predicate FinalOutput(output: Value) { output.Obj? && Get(output.fields, "role") == Str("final") }

  predicate FinalText(output: Value) {
    && FinalOutput(output)
    && (if "kind" in output.fields then output.fields["kind"]
        else if "type" in output.fields then output.fields["type"] else Str("image")) == Str("text")
  }
}
