/** Recall: compiling the effective controls of a successful compilation again
    gives the same result, whatever the seed resolver answers. */
module Recompile {
  import opened Values
  import opened LoraStack
  import opened Compiler

  /** A seed whose distances from its minimum have at most 28 digits. */
  predicate Narrow(d: Mapping) {
    Get(d, "minimum").Int? && Get(d, "maximum").Int? ==>
      (Get(d, "maximum").whole - Get(d, "minimum").whole) as real < CAPACITY
  }

  /** A resolved seed, drawn at random or given, is in range and on a step. */
  lemma {:induction false} ResolvedSeedIsInSteps(d: Mapping, v: Option<Value>, slot: int)
    requires ResolveSeed(d, v, slot).Concrete? && Narrow(d)
    ensures Get(d, "minimum").Int? && Get(d, "maximum").Int?
    ensures InSteps(ResolveSeed(d, v, slot).seed as real, Exact(Get(d, "minimum")), Exact(Get(d, "maximum")),
            SeedStep(d))
  {
    hide Multiple, Divides, Rounded;
    var minimum, maximum := Get(d, "minimum"), Get(d, "maximum");
    var step := if "step" in d then d["step"] else Int(1);
    if WantsRandom(v) && Get(d, "default_mode") == Str("random") {
      SlotIsInSteps(minimum.whole, maximum.whole, step.whole, slot);
    }
  }

  /** Given back as text, a resolved seed resolves to itself without asking the
      resolver. */
  lemma {:induction false} ResolvedSeedIsStable(d: Mapping, v: Option<Value>, slot: int, again: int)
    requires ResolveSeed(d, v, slot).Concrete? && Narrow(d)
    ensures ResolveSeed(d, Some(Str(Print(ResolveSeed(d, v, slot).seed))), again) == ResolveSeed(d, v, slot)
  {
    hide Multiple, Divides, Rounded, Print, Canonical, Parse;
    var seed := ResolveSeed(d, v, slot).seed;
    ParsePrint(seed);
    PrintIsNoWord(seed);
    ResolvedSeedIsInSteps(d, v, slot);
  }

  /** Every seed that is drawn in steps of one comes back, if and only if the
      declaration is narrow; no integer that strict JSON allows is that wide. */
  lemma {:induction false} DrawnSeedComesBack(d: Mapping)
    requires Get(d, "minimum").Int? && Get(d, "maximum").Int? && Get(d, "minimum").whole <= Get(d, "maximum").whole
    requires Get(d, "step") == Int(1) && Get(d, "default_mode") == Str("random")
    ensures (forall slot, again :: ResolveSeed(d, None, slot).Concrete? ==>
               ResolveSeed(d, Some(Str(Print(ResolveSeed(d, None, slot).seed))), again)
                 == ResolveSeed(d, None, slot)) <==> Narrow(d)
  {
    hide Multiple, Divides, Rounded, Print, Canonical, Parse;
    if Narrow(d) {
      forall slot, again | ResolveSeed(d, None, slot).Concrete?
        ensures ResolveSeed(d, Some(Str(Print(ResolveSeed(d, None, slot).seed))), again) == ResolveSeed(d, None, slot)
      {
        ResolvedSeedIsStable(d, None, slot, again);
      }
    } else {
      var slot := Get(d, "maximum").whole - Get(d, "minimum").whole;
      WideIsRefused(d);
      assert ResolveSeed(d, None, slot) == Concrete(Get(d, "maximum").whole);
      assert !ResolveSeed(d, Some(Str(Print(ResolveSeed(d, None, slot).seed))), 0).Concrete?;
    }
  }

  lemma {:induction false} WideIsRefused(d: Mapping)
    requires Get(d, "minimum").Int? && Get(d, "maximum").Int? && Get(d, "minimum").whole <= Get(d, "maximum").whole
    requires Get(d, "step") == Int(1) && !Narrow(d)
    ensures ResolveSeed(d, Some(Str(Print(Get(d, "maximum").whole))), 0).BrokenSeed?
  {
    hide Multiple, Rounded, Print, Canonical, Parse;
    var maximum := Get(d, "maximum").whole;
    ParsePrint(maximum);
    PrintIsNoWord(maximum);
    RoundedRange((maximum - Get(d, "minimum").whole) as real);
  }

  function SeedStep(d: Mapping): (r: real)
    ensures r != 0.0
  {
    if "step" in d && IsFinite(d["step"]) && Exact(d["step"]) != 0.0 then Exact(d["step"]) else 1.0
  }

  lemma {:induction false} SlotIsInSteps(minimum: int, maximum: int, step: int, slot: int)
    requires step > 0 && 0 <= slot <= (maximum - minimum) / step && (maximum - minimum) as real < CAPACITY
    ensures minimum <= minimum + slot * step <= maximum
    ensures Aligned((minimum + slot * step) as real - minimum as real, step as real)
  {
    hide Multiple, Rounded;
    var q, n := (maximum - minimum) / step, slot * step;
    assert q * step <= maximum - minimum;
    assert 0 <= n <= q * step;
    RoundedWhole(n);
    assert n as real == Times(slot, step as real) == (minimum + n) as real - minimum as real;
    MultipleMeans(n as real, step as real);
  }

  /** A printed integer is neither empty nor a word. */
  lemma {:induction false} PrintIsNoWord(i: int)
    ensures Print(i) != "" && Print(i) != "random"
  {
    ParsePrint(i);
  }

  /** A value that validation returned is not missing when it was not before, and
      is judged again as it was. */
  lemma {:induction false} KeptIsJudgedAgain(inputs: seq<Input>, input: Input, requested: Mapping, effective: Mapping,
                                             text: bool,
                          slots: string -> int, again: int)
    requires DistinctIds(inputs) && input in inputs
    requires IsSeed(input) ==> Narrow(input.declaration)
    requires Final(inputs, requested, text, slots, input).Kept?
    requires input.id in effective && effective[input.id] == Final(inputs, requested, text, slots, input).value
    ensures Judge(input, effective, text, again) == Final(inputs, requested, text, slots, input)
    ensures Supplies(effective, input.id)
  {
    var d, own := input.declaration, Judge(input, requested, text, slots(input.id));
    var c := ChoiceOf(inputs, input);
    if c.None? || Final(inputs, requested, text, slots, input) == own {
      OwnIsJudgedAgain(input, requested, effective, text, slots(input.id), again);
    } else {
      assert Companion(inputs, input, c.value);
      assert IsNumberInput(input);
      assert IsFinite(effective[input.id]);
    }
  }

  lemma {:induction false} OwnIsJudgedAgain(input: Input, requested: Mapping, effective: Mapping, text: bool,
                                            slot: int, again: int)
    requires IsSeed(input) ==> Narrow(input.declaration)
    requires Judge(input, requested, text, slot).Kept?
    requires input.id in effective && effective[input.id] == Judge(input, requested, text, slot).value
    ensures Judge(input, effective, text, again) == Judge(input, requested, text, slot)
    ensures Supplies(effective, input.id)
  {
    var d, v := input.declaration, Optional(requested, input.id);
    if Kind(d) == Str("seed") {
      ResolvedSeedIsStable(d, v, slot, again);
      PrintIsNoWord(ResolveSeed(d, v, slot).seed);
    }
  }

  lemma {:induction false} SkippedOnItsOwn(input: Input, requested: Mapping, effective: Mapping, text: bool, slot: int,
                                           again: int)
    requires Judge(input, requested, text, slot).Skipped? && input.id !in effective
    ensures Judge(input, effective, text, again).Skipped?
  {
  }

  /** `effective` are the values that a successful request keeps. */
  ghost predicate Succeeds(inputs: seq<Input>, requested: Mapping, text: bool, slots: string -> int,
                           effective: Mapping) {
    && DistinctIds(inputs)
    && (forall input :: input in inputs ==>
          var outcome := Final(inputs, requested, text, slots, input);
          (outcome.Kept? || outcome.Skipped?) && (input.id in effective <==> outcome.Kept?)
          && (outcome.Kept? ==> effective[input.id] == outcome.value))
    && forall id :: id in effective ==> Declared(inputs, id)
  }

  /** An input that was left out is left out again. */
  lemma {:induction false} SkippedIsSkippedAgain(inputs: seq<Input>, input: Input, requested: Mapping,
                                                 effective: Mapping, text: bool,
                              slots: string -> int, again: string -> int)
    requires Succeeds(inputs, requested, text, slots, effective) && input in inputs
    requires Final(inputs, requested, text, slots, input).Skipped?
    ensures Final(inputs, effective, text, again, input).Skipped?
  {
    hide Judge, Companion, Suggested, ValidateValue, DistinctIds;
    SkippedBefore(inputs, input, requested, text, slots);
    SkippedOnItsOwn(input, requested, effective, text, slots(input.id), again(input.id));
    var c := ChoiceOf(inputs, input);
    if c.Some? {
      ChoiceIsItsOwn(inputs, input, c.value, requested, text, slots);
      var choice := Judge(c.value, requested, text, slots(c.value.id));
      if choice.Kept? {
        OwnIsJudgedAgain(c.value, requested, effective, text, slots(c.value.id), again(c.value.id));
      } else {
        SkippedOnItsOwn(c.value, requested, effective, text, slots(c.value.id), again(c.value.id));
      }
    }
  }

  /** What is left out in the end was never given a value. */
  lemma {:induction false} SkippedBefore(inputs: seq<Input>, input: Input, requested: Mapping, text: bool,
                                         slots: string -> int)
    requires Final(inputs, requested, text, slots, input).Skipped?
    ensures Judge(input, requested, text, slots(input.id)).Skipped? && !Supplies(requested, input.id)
  {
  }

  /** A choice follows nothing. */
  lemma {:induction false} ChoiceIsItsOwn(inputs: seq<Input>, s: Input, c: Input, requested: Mapping, text: bool,
                                          slots: string -> int)
    requires ChoiceOf(inputs, s) == Some(c)
    ensures c in inputs && IsChoice(c) && Final(inputs, requested, text, slots, c)
            == Judge(c, requested, text, slots(c.id))
  {
    assert Companion(inputs, s, c);
    assert forall x :: !Companion(inputs, c, x);
  }

  /** Every input comes out as before. */
  lemma {:induction false} FinalAgain(inputs: seq<Input>, input: Input, requested: Mapping, effective: Mapping,
                                      text: bool,
                   slots: string -> int, again: string -> int)
    requires IsSeed(input) ==> Narrow(input.declaration)
    requires Succeeds(inputs, requested, text, slots, effective) && input in inputs
    ensures Final(inputs, effective, text, again, input) == Final(inputs, requested, text, slots, input)
    ensures !Judge(input, effective, text, again(input.id)).Raises()
  {
    hide Judge, Companion, Suggested, ValidateValue, ChoiceOf;
    var before := Final(inputs, requested, text, slots, input);
    if before.Kept? {
      KeptIsJudgedAgain(inputs, input, requested, effective, text, slots, again(input.id));
    } else {
      SkippedIsSkippedAgain(inputs, input, requested, effective, text, slots, again);
      SkippedBefore(inputs, input, requested, text, slots);
      SkippedOnItsOwn(input, requested, effective, text, slots(input.id), again(input.id));
    }
  }

  lemma {:induction false} CompiledSucceeds(contract: Mapping, api: Graph, requested: Mapping, slots: string -> int)
    requires Compile(contract, api, requested, slots).Compiled?
    ensures Inputs(contract).Some?
    ensures Succeeds(Inputs(contract).value, requested, IsText(contract), slots,
            Compile(contract, api, requested, slots).effective)
    ensures var r, inputs := Compile(contract, api, requested, slots), Inputs(contract).value;
            r == Assemble(inputs, api, IsText(contract), r.effective)
  {
    hide Judge, Final, PatchAll, Seeds, Uploads, Positive, FirstRaised, Effective, Inputs, DistinctIds;
    var inputs, text := Inputs(contract).value, IsText(contract);
    var outcomes := Outcomes(inputs, requested, text, slots);
    var effective := Effective(inputs, outcomes);
    forall input | input in inputs ensures outcomes(input).Kept? || outcomes(input).Skipped? {
      var i: nat :| i < |inputs| && inputs[i] == input;
    }
  }

  lemma {:induction false} NothingRaised(inputs: seq<Input>, requested: Mapping, text: bool, slots: string -> int)
    requires forall input :: input in inputs ==> !Judge(input, requested, text, slots(input.id)).Raises()
    ensures FirstRaised(inputs, requested, text, slots).None?
  {
    if inputs != [] {
      assert inputs[0] in inputs;
      NothingRaised(inputs[1..], requested, text, slots);
    }
  }

  lemma {:induction false} NoneRaised(inputs: seq<Input>, requested: Mapping, text: bool, slots: string -> int)
    requires FirstRaised(inputs, requested, text, slots).None?
    ensures forall input :: input in inputs ==> !Judge(input, requested, text, slots(input.id)).Raises()
  {
    if inputs != [] {
      NoneRaised(inputs[1..], requested, text, slots);
      assert inputs == [inputs[0]] + inputs[1..];
    }
  }

  /** Strict JSON admits no integers that far apart. */
  ghost predicate SeedsAreNarrow(contract: Mapping) {
    Inputs(contract).Some? ==> forall x :: x in Inputs(contract).value && IsSeed(x) ==> Narrow(x.declaration)
  }

  /** Compiling the effective controls again succeeds with any resolver and gives
      the same effective controls, the same resolved seeds, among them those drawn
      at random, and the same graph. */
  lemma {:induction false} RecompileIsIdempotent(contract: Mapping, api: Graph, requested: Mapping,
                                                 slots: string -> int, again: string -> int)
    requires Compile(contract, api, requested, slots).Compiled? && SeedsAreNarrow(contract)
    ensures Compile(contract, api, Compile(contract, api, requested, slots).effective, again)
            == Compile(contract, api, requested, slots)
  {
    hide Judge, Final, Assemble, FirstRaised, Inputs;
    var r := Compile(contract, api, requested, slots);
    CompiledSucceeds(contract, api, requested, slots);
    var inputs, text := Inputs(contract).value, IsText(contract);
    forall input | input in inputs
      ensures Final(inputs, r.effective, text, again, input) == Final(inputs, requested, text, slots, input)
      ensures !Judge(input, r.effective, text, again(input.id)).Raises()
    {
      FinalAgain(inputs, input, requested, r.effective, text, slots, again);
    }
    NothingRaised(inputs, r.effective, text, again);
    var outcomes := Outcomes(inputs, r.effective, text, again);
    forall i | 0 <= i < |inputs| ensures !outcomes(inputs[i]).Raises() && !outcomes(inputs[i]).Faulty? {
      assert inputs[i] in inputs;
    }
    EffectiveAgain(inputs, outcomes, r.effective);
  }

  lemma {:induction false} EffectiveAgain(inputs: seq<Input>, outcomes: Input -> Outcome, effective: Mapping)
    requires DistinctIds(inputs)
    requires forall input :: input in inputs ==>
               (input.id in effective <==> outcomes(input).Kept?)
               && (outcomes(input).Kept? ==> effective[input.id] == outcomes(input).value)
    requires forall id :: id in effective ==> Declared(inputs, id)
    ensures Effective(inputs, outcomes) == effective
  {
  }
}
