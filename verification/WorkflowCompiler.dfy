/** The compiler as it runs: loops that fill the effective controls and patch a
    copy of the frozen graph in place, proved to give the specified result. */
module WorkflowCompiler {
  import opened Values
  import opened LoraStack
  import opened Compiler
  import opened Recompile
  import CompiledResults
  import P = Publications

  method CheckValue(d: Mapping, v: Value) returns (r: Verdict<Value>)
    ensures r == ValidateValue(d, v)
    ensures if Admits(d, v) then r == Good(v) else if Blames(d, v) then r == Broken else r == Wrong
  {
    ValidatedMeans(d, v);
    hide Admits, Blames;
    var kind := Kind(d);
    if kind == Str("lora_stack") {
      r := ValidateLoraStack(v, d);
    } else if kind == Str("string") {
      r := if v.Str? && |v.text| <= MAX_TEXT then Good(v) else Wrong;
    } else if kind == Str("boolean") {
      r := if v.Bool? then Good(v) else Wrong;
    } else if kind == Str("integer") {
      r := if v.Int? then CheckNumber(d, v) else Wrong;
    } else if kind == Str("number") {
      r := if IsFinite(v) then CheckNumber(d, v) else Wrong;
    } else if kind == Str("choice") {
      var values := ChoiceValues(Get(d, "choices"));
      r := if values.None? then Broken else if v.Str? && v.text in values.value then Good(v) else Wrong;
    } else if kind == Str("image") {
      r := if v.Obj? && v.fields.Keys == {"asset_id"} && v.fields["asset_id"].Str?
        && 1 <= |v.fields["asset_id"].text| <= 255
           then Good(Obj(map["asset_id" := v.fields["asset_id"]])) else Wrong;
      assert r.Good? ==> r.value.fields == v.fields;
    } else {
      r := Broken;
    }
  }

  ghost function Own(requested: Mapping, text: bool, slots: string -> int): Input -> Outcome {
    (input: Input) => Judge(input, requested, text, slots(input.id))
  }

  /** The ids of the inputs that are in error. */
  ghost function FaultyIds(inputs: seq<Input>, outcomes: Input -> Outcome): set<string> {
    set i: nat | i < |inputs| && outcomes(inputs[i]).Faulty? :: inputs[i].id
  }

  lemma {:induction false} FaultyNext(inputs: seq<Input>, outcomes: Input -> Outcome, i: nat)
    requires i < |inputs|
    ensures FaultyIds(inputs[..0], outcomes) == {}
    ensures FaultyIds(inputs[..i + 1], outcomes)
            == FaultyIds(inputs[..i], outcomes) + if outcomes(inputs[i]).Faulty? then {inputs[i].id} else {}
  {
  }

  lemma {:induction false} PrefixesDistinct(inputs: seq<Input>)
    requires DistinctIds(inputs)
    ensures forall i :: 0 <= i <= |inputs| ==> DistinctIds(inputs[..i])
  {
  }

  lemma {:induction false} NothingYet(inputs: seq<Input>, outcomes: Input -> Outcome)
    ensures Effective([], outcomes) == map[] && FaultyIds([], outcomes) == {} && Seeds([], map[]) == map[]
            && inputs[..0] == []
  {
  }

  lemma {:induction false} EffectiveNext(inputs: seq<Input>, outcomes: Input -> Outcome, i: nat)
    requires i < |inputs| && DistinctIds(inputs)
    ensures inputs[i].id !in Effective(inputs[..i], outcomes)
    ensures Effective(inputs[..i + 1], outcomes) ==
            if outcomes(inputs[i]).Kept? then Effective(inputs[..i], outcomes)[inputs[i].id :=
              outcomes(inputs[i]).value]
            else Effective(inputs[..i], outcomes)
  {
    assert inputs[..i + 1][..i] == inputs[..i];
  }

  /** Values of other inputs do not matter to the seeds of these. */
  lemma {:induction false} SeedsFrame(inputs: seq<Input>, effective: Mapping, id: string, v: Value)
    requires forall input :: input in inputs ==> input.id != id
    ensures Seeds(inputs, effective[id := v]) == Seeds(inputs, effective)
  {
    if inputs != [] { SeedsFrame(inputs[..|inputs| - 1], effective, id, v); }
  }

  lemma {:induction false} SeedsNext(inputs: seq<Input>, effective: Mapping, i: nat, v: Option<Value>)
    requires i < |inputs| && DistinctIds(inputs) && inputs[i].id !in effective
    ensures Seeds(inputs[..i + 1], if v.Some? then effective[inputs[i].id := v.value] else effective)
            == if v.Some? && IsSeed(inputs[i]) then Seeds(inputs[..i], effective)[inputs[i].id := TextOf(v.value)]
               else Seeds(inputs[..i], effective)
  {
    assert inputs[..i + 1][..i] == inputs[..i];
    if v.Some? { SeedsFrame(inputs[..i], effective, inputs[i].id, v.value); }
  }

  /** The first loop: every input on its own. */
  method FillEffective(inputs: seq<Input>, requested: Mapping, text: bool, slots: string -> int)
    returns (effective: Mapping, seeds: map<string, string>, errors: set<string>, raised: Option<Outcome>)
    requires DistinctIds(inputs)
    ensures raised == FirstRaised(inputs, requested, text, slots)
    ensures raised.None? ==>
              var own := Own(requested, text, slots);
              && effective == Effective(inputs, own) && errors == FaultyIds(inputs, own)
              && seeds == Seeds(inputs, effective)
  {
    hide Judge, ValidateValue, Effective, FaultyIds, Seeds, DistinctIds;
    NothingYet(inputs, Own(requested, text, slots));
    PrefixesDistinct(inputs);
    effective, seeds, errors, raised := map[], map[], {}, None;
    ghost var own := Own(requested, text, slots);
    var i := 0;
    while i < |inputs|
      invariant 0 <= i <= |inputs|
      invariant FirstRaised(inputs, requested, text, slots) == FirstRaised(inputs[i..], requested, text, slots)
      invariant effective == Effective(inputs[..i], own) && errors == FaultyIds(inputs[..i], own)
      invariant seeds == Seeds(inputs[..i], effective)
    {
      var input := inputs[i];
      var outcome := JudgeInput(input, requested, text, slots(input.id));
      assert inputs[i..][1..] == inputs[i + 1..];
      FaultyNext(inputs, own, i);
      EffectiveNext(inputs, own, i);
      SeedsNext(inputs, effective, i, if outcome.Kept? then Some(outcome.value) else None);
      if outcome.Raises() { return effective, seeds, errors, Some(outcome); }
      if outcome.Faulty? {
        errors := errors + {input.id};
      } else if outcome.Kept? {
        effective := effective[input.id := outcome.value];
        if IsSeed(input) { seeds := seeds[input.id := TextOf(outcome.value)]; }
      }
      i := i + 1;
    }
    assert inputs[..i] == inputs;
  }

  method JudgeInput(input: Input, requested: Mapping, text: bool, slot: int) returns (outcome: Outcome)
    ensures outcome == Judge(input, requested, text, slot)
  {
    var d := input.declaration;
    var value := Optional(requested, input.id);
    if Required(d) && Missing(value, Kind(d), text) { return Faulty; }
    if IsSeed(input) {
      var seed := ResolveSeed(d, value, slot);
      return match seed
             case Concrete(n) => Kept(Str(Print(n)))
             case WrongSeed => Faulty
             case BrokenSeed => Unusable
             case BadSlot => Unresolved;
    }
    if value.None? || (value.value.Null? && Kind(d) != Str("lora_stack")) { value := Optional(d, "default"); }
    if value.None? { return if Required(d) then Faulty else Skipped; }
    var verdict := CheckValue(d, value.value);
    outcome := Judged(verdict);
  }

  // ----- companions -----

  datatype Pair = Pair(strength: Input, choice: Input)

  /** The pairs are exactly the companions, and no choice is used twice. */
  ghost predicate ArePaired(inputs: seq<Input>, pairs: seq<Pair>) {
    && (forall p :: p in pairs ==> Companion(inputs, p.strength, p.choice))
    && (forall s, c :: Companion(inputs, s, c) ==> Pair(s, c) in pairs)
    && (forall i, j :: 0 <= i < j < |pairs| ==> pairs[i].strength != pairs[j].strength)
  }

  /** The number declared under an id, if there is one. */
  function NumberNamed(inputs: seq<Input>, id: string): (r: Option<Input>)
    ensures r.Some? ==> r.value in inputs && r.value.id == id && IsNumberInput(r.value)
    ensures r.None? ==> forall s :: s in inputs ==> !(s.id == id && IsNumberInput(s))
  {
    if inputs == [] then None
    else if inputs[0].id == id && IsNumberInput(inputs[0]) then Some(inputs[0])
    else NumberNamed(inputs[1..], id)
  }

  /** First by name. */
  method PairByName(inputs: seq<Input>) returns (pairs: seq<Pair>)
    requires DistinctIds(inputs)
    ensures NamedPairs(inputs, pairs)
  {
    hide NamedBy, DistinctIds;
    pairs := [];
    NoneByName(inputs);
    var k := 0;
    while k < |inputs|
      invariant 0 <= k <= |inputs| && NamedBy(inputs, inputs[..k], pairs)
    {
      var c := inputs[k];
      ghost var was := pairs;
      if IsChoice(c) {
        var exact := NumberNamed(inputs, c.id + "_strength");
        if exact.Some? && Role(exact.value.declaration) == Role(c.declaration) {
          pairs := pairs + [Pair(exact.value, c)];
        }
      }
      NextByName(inputs, k, was, pairs);
      k := k + 1;
    }
    assert inputs[..k] == inputs;
  }

  /** The pairs of the given choices with the numbers named after them. */
  ghost predicate NamedBy(inputs: seq<Input>, choices: seq<Input>, pairs: seq<Pair>) {
    && (forall p :: p in pairs ==> p.strength in inputs && p.choice in choices && ExactPair(p.strength, p.choice))
    && (forall s, c :: s in inputs && c in choices && ExactPair(s, c) ==> Pair(s, c) in pairs)
    && (forall i, j :: 0 <= i < j < |pairs| ==> pairs[i].choice != pairs[j].choice)
  }

  ghost predicate NamedPairs(inputs: seq<Input>, pairs: seq<Pair>) { NamedBy(inputs, inputs, pairs) }

  lemma {:induction false} NoneByName(inputs: seq<Input>)
    ensures NamedBy(inputs, inputs[..0], [])
  {
  }

  /** The number named after a choice, when their roles agree. */
  function ExactOf(inputs: seq<Input>, c: Input): Option<Input> {
    var exact := NumberNamed(inputs, c.id + "_strength");
    if IsChoice(c) && exact.Some? && Role(exact.value.declaration) == Role(c.declaration) then exact else None
  }

  lemma {:induction false} ExactIs(inputs: seq<Input>, c: Input, s: Input)
    requires DistinctIds(inputs)
    ensures s in inputs && ExactPair(s, c) <==> ExactOf(inputs, c) == Some(s)
  {
    hide Role, IsChoice;
    if s in inputs && ExactPair(s, c) {
      var exact := NumberNamed(inputs, c.id + "_strength").value;
      var i :| 0 <= i < |inputs| && inputs[i] == s;
      var j :| 0 <= j < |inputs| && inputs[j] == exact;
    }
  }

  lemma {:induction false} NextByName(inputs: seq<Input>, k: nat, was: seq<Pair>, pairs: seq<Pair>)
    requires DistinctIds(inputs) && k < |inputs| && NamedBy(inputs, inputs[..k], was)
    requires var exact := ExactOf(inputs, inputs[k]); pairs == if exact.Some? then was + [Pair(exact.value, inputs[k])]
             else was
    ensures NamedBy(inputs, inputs[..k + 1], pairs)
  {
    hide ExactOf, ExactPair;
    var c := inputs[k];
    assert c !in inputs[..k] && inputs[..k + 1] == inputs[..k] + [c];
    forall s ensures s in inputs && ExactPair(s, c) <==> ExactOf(inputs, c) == Some(s) { ExactIs(inputs, c, s); }
  }

  predicate Follows(pairs: seq<Pair>, s: Input) { exists i | 0 <= i < |pairs| :: pairs[i].strength == s }

  predicate Leads(pairs: seq<Pair>, c: Input) { exists i | 0 <= i < |pairs| :: pairs[i].choice == c }

  /** Pairs by name, and by those roles that have been looked at. */
  ghost predicate PairedSoFar(inputs: seq<Input>, pairs: seq<Pair>, roles: seq<Value>) {
    && (forall p :: p in pairs ==> Companion(inputs, p.strength, p.choice))
    && (forall s, c :: Companion(inputs, s, c) && (ExactPair(s, c) || Role(c.declaration) in roles) ==>
        Pair(s, c) in pairs)
    && (forall i, j :: 0 <= i < j < |pairs| ==> pairs[i].choice != pairs[j].choice)
    && (forall c :: c in inputs && Role(c.declaration) !in roles ==> (Leads(pairs, c) <==> ExactChoice(inputs, c)))
    && (forall s :: s in inputs && Role(s.declaration) !in roles ==> (Follows(pairs, s) <==> ExactNumber(inputs, s)))
  }

  lemma {:induction false} NamedIsPairedSoFar(inputs: seq<Input>, pairs: seq<Pair>)
    requires DistinctIds(inputs) && NamedPairs(inputs, pairs)
    ensures PairedSoFar(inputs, pairs, [])
  {
    forall c | c in inputs && Leads(pairs, c) ensures ExactChoice(inputs, c) {
      var i :| 0 <= i < |pairs| && pairs[i].choice == c;
      assert pairs[i] in pairs;
    }
    forall c | c in inputs && ExactChoice(inputs, c) ensures Leads(pairs, c) {
      var s :| s in inputs && ExactPair(s, c);
      var i :| 0 <= i < |pairs| && pairs[i] == Pair(s, c);
    }
    forall s | s in inputs && Follows(pairs, s) ensures ExactNumber(inputs, s) {
      var i :| 0 <= i < |pairs| && pairs[i].strength == s;
      assert pairs[i] in pairs;
    }
    forall s | s in inputs && ExactNumber(inputs, s) ensures Follows(pairs, s) {
      var c :| c in inputs && ExactPair(s, c);
      var i :| 0 <= i < |pairs| && pairs[i] == Pair(s, c);
    }
  }

  /** Then by role, where a role has one choice and one number left. */
  method PairByRole(inputs: seq<Input>, named: seq<Pair>) returns (pairs: seq<Pair>)
    requires DistinctIds(inputs) && NamedPairs(inputs, named)
    ensures ArePaired(inputs, pairs)
  {
    hide ExactPair, NamedPairs, Companion, PairedSoFar, ArePaired;
    pairs := named;
    var roles := RolesLeft(inputs, named);
    NamedIsPairedSoFar(inputs, named);
    var r := 0;
    while r < |roles|
      invariant 0 <= r <= |roles| && PairedSoFar(inputs, pairs, roles[..r])
    {
      var role := roles[r];
      var freeChoice := (c: Input) => IsChoice(c) && !Leads(pairs, c) && Role(c.declaration) == role;
      var freeNumber := (s: Input) => IsNumberInput(s) && !Follows(pairs, s) && Role(s.declaration) == role;
      var i, j := P.Only(inputs, freeChoice), P.Only(inputs, freeNumber);
      assert role !in roles[..r] && roles[..r + 1] == roles[..r] + [role];
      assert Picks(freeChoice, freeNumber, pairs, role);
      if i.Some? && j.Some? {
        RolePairs(inputs, pairs, roles[..r], role, freeChoice, freeNumber, i.value, j.value);
        pairs := pairs + [Pair(inputs[j.value], inputs[i.value])];
      } else {
        RoleHasNone(inputs, pairs, roles[..r], role, freeChoice, freeNumber);
      }
      r := r + 1;
    }
    assert roles[..r] == roles;
    AllRolesPaired(inputs, named, pairs, roles);
  }

  /** The roles of the choices that no number is named after, each once. */
  method RolesLeft(inputs: seq<Input>, named: seq<Pair>) returns (roles: seq<Value>)
    ensures forall i, j :: 0 <= i < j < |roles| ==> roles[i] != roles[j]
    ensures forall role :: role in roles ==> role.Str?
    ensures forall c :: c in inputs && IsChoice(c) && !Leads(named, c) && Role(c.declaration).Str? ==>
            Role(c.declaration) in roles
  {
    roles := [];
    var k := 0;
    while k < |inputs|
      invariant 0 <= k <= |inputs|
      invariant forall i, j :: 0 <= i < j < |roles| ==> roles[i] != roles[j]
      invariant forall role :: role in roles ==> role.Str?
      invariant forall c :: c in inputs[..k] && IsChoice(c) && !Leads(named, c) && Role(c.declaration).Str? ==>
                Role(c.declaration) in roles
    {
      var c := inputs[k];
      assert inputs[..k + 1] == inputs[..k] + [c];
      if IsChoice(c) && !Leads(named, c) && Role(c.declaration).Str? && Role(c.declaration) !in roles {
        roles := roles + [Role(c.declaration)];
      }
      k := k + 1;
    }
    assert inputs[..k] == inputs;
  }

  /** What is free by the pairs made so far is free by definition. */
  lemma {:induction false} FreeSoFar(inputs: seq<Input>, pairs: seq<Pair>, roles: seq<Value>, role: Value, x: Input)
    requires PairedSoFar(inputs, pairs, roles) && role !in roles && x in inputs
    ensures FreeChoice(inputs, x, role) <==> IsChoice(x) && !Leads(pairs, x) && Role(x.declaration) == role
    ensures FreeNumber(inputs, x, role) <==> IsNumberInput(x) && !Follows(pairs, x) && Role(x.declaration) == role
  {
  }

  /** The two selections of a round. */
  ghost predicate Picks(freeChoice: Input -> bool, freeNumber: Input -> bool, pairs: seq<Pair>, role: Value) {
    && (forall c :: freeChoice(c) == (IsChoice(c) && !Leads(pairs, c) && Role(c.declaration) == role))
    && (forall s :: freeNumber(s) == (IsNumberInput(s) && !Follows(pairs, s) && Role(s.declaration) == role))
  }

  /** A selection picks an input alone exactly when nothing else is free. */
  lemma {:induction false} OnlyFree(inputs: seq<Input>, free: Input -> bool, x: Input)
    requires DistinctIds(inputs) && x in inputs && free(x) && forall y :: y in inputs && free(y) ==> y == x
    ensures P.Only(inputs, free).Some? && inputs[P.Only(inputs, free).value] == x
  {
    var i :| 0 <= i < |inputs| && inputs[i] == x;
    forall j | 0 <= j < |inputs| && free(inputs[j]) ensures j == i {
      assert inputs[j] in inputs;
    }
    P.OnlyIs(inputs, free, i);
  }

  /** Companions by role are what a round picks. */
  lemma {:induction false} RoundFinds(inputs: seq<Input>, pairs: seq<Pair>, roles: seq<Value>, role: Value,
                   freeChoice: Input -> bool, freeNumber: Input -> bool, s: Input, c: Input)
    requires DistinctIds(inputs) && PairedSoFar(inputs, pairs, roles) && role !in roles && role.Str?
    requires Picks(freeChoice, freeNumber, pairs, role)
    requires Companion(inputs, s, c) && !ExactPair(s, c) && Role(c.declaration) == role
    ensures P.Only(inputs, freeChoice).Some? && inputs[P.Only(inputs, freeChoice).value] == c
    ensures P.Only(inputs, freeNumber).Some? && inputs[P.Only(inputs, freeNumber).value] == s
  {
    hide PairedSoFar, Leads, Follows, FreeChoice, FreeNumber;
    forall x | x in inputs ensures freeChoice(x) == FreeChoice(inputs, x, role)
      && freeNumber(x) == FreeNumber(inputs, x, role) {
      FreeSoFar(inputs, pairs, roles, role, x);
    }
    OnlyFree(inputs, freeChoice, c);
    OnlyFree(inputs, freeNumber, s);
  }

  /** What a round picks are companions by role. */
  lemma {:induction false} RoundIsRight(inputs: seq<Input>, pairs: seq<Pair>, roles: seq<Value>, role: Value,
                     freeChoice: Input -> bool, freeNumber: Input -> bool, i: nat, j: nat)
    requires DistinctIds(inputs) && PairedSoFar(inputs, pairs, roles) && role !in roles && role.Str?
    requires Picks(freeChoice, freeNumber, pairs, role)
    requires P.Only(inputs, freeChoice) == P.Some(i) && P.Only(inputs, freeNumber) == P.Some(j)
    ensures Companion(inputs, inputs[j], inputs[i])
    ensures !Leads(pairs, inputs[i]) && Role(inputs[i].declaration) == role == Role(inputs[j].declaration)
  {
    hide PairedSoFar, Leads, Follows, DistinctIds;
    P.OnlyIs(inputs, freeChoice, i);
    P.OnlyIs(inputs, freeNumber, j);
    forall x | x in inputs ensures freeChoice(x) == FreeChoice(inputs, x, role)
      && freeNumber(x) == FreeNumber(inputs, x, role) {
      FreeSoFar(inputs, pairs, roles, role, x);
    }
  }

  lemma {:induction false} RolePairs(inputs: seq<Input>, pairs: seq<Pair>, roles: seq<Value>, role: Value,
                  freeChoice: Input -> bool, freeNumber: Input -> bool, i: nat, j: nat)
    requires DistinctIds(inputs) && PairedSoFar(inputs, pairs, roles) && role !in roles && role.Str?
    requires Picks(freeChoice, freeNumber, pairs, role)
    requires P.Only(inputs, freeChoice) == P.Some(i) && P.Only(inputs, freeNumber) == P.Some(j)
    ensures PairedSoFar(inputs, pairs + [Pair(inputs[j], inputs[i])], roles + [role])
  {
    hide Companion, ExactPair, ExactChoice, ExactNumber, DistinctIds, P.Only;
    var pairs' := pairs + [Pair(inputs[j], inputs[i])];
    RoundIsRight(inputs, pairs, roles, role, freeChoice, freeNumber, i, j);
    forall s, c | Companion(inputs, s, c) && (ExactPair(s, c) || Role(c.declaration) in roles + [role])
      ensures Pair(s, c) in pairs' {
      if !ExactPair(s, c) && Role(c.declaration) == role {
        RoundFinds(inputs, pairs, roles, role, freeChoice, freeNumber, s, c);
      }
    }
    forall c | c in inputs && Role(c.declaration) !in roles + [role]
      ensures Leads(pairs', c) <==> ExactChoice(inputs, c) {
      LeadsMore(pairs, Pair(inputs[j], inputs[i]), c);
    }
    forall s | s in inputs && Role(s.declaration) !in roles + [role]
      ensures Follows(pairs', s) <==> ExactNumber(inputs, s) {
      LeadsMore(pairs, Pair(inputs[j], inputs[i]), s);
    }
  }

  lemma {:induction false} LeadsMore(pairs: seq<Pair>, p: Pair, x: Input)
    ensures Leads(pairs + [p], x) <==> Leads(pairs, x) || p.choice == x
    ensures Follows(pairs + [p], x) <==> Follows(pairs, x) || p.strength == x
  {
    var pairs' := pairs + [p];
    if i :| 0 <= i < |pairs| && pairs[i].choice == x { assert pairs'[i].choice == x; }
    if i :| 0 <= i < |pairs| && pairs[i].strength == x { assert pairs'[i].strength == x; }
    assert pairs'[|pairs|] == p;
  }

  lemma {:induction false} RoleHasNone(inputs: seq<Input>, pairs: seq<Pair>, roles: seq<Value>, role: Value,
                    freeChoice: Input -> bool, freeNumber: Input -> bool)
    requires DistinctIds(inputs) && PairedSoFar(inputs, pairs, roles) && role !in roles && role.Str?
    requires Picks(freeChoice, freeNumber, pairs, role)
    requires P.Only(inputs, freeChoice).None? || P.Only(inputs, freeNumber).None?
    ensures PairedSoFar(inputs, pairs, roles + [role])
  {
    hide Companion, ExactPair, ExactChoice, ExactNumber, DistinctIds, P.Only, Leads, Follows;
    forall s, c | Companion(inputs, s, c) && (ExactPair(s, c) || Role(c.declaration) in roles + [role])
      ensures Pair(s, c) in pairs {
      if !ExactPair(s, c) && Role(c.declaration) == role {
        RoundFinds(inputs, pairs, roles, role, freeChoice, freeNumber, s, c);
      }
    }
  }

  lemma {:induction false} AllRolesPaired(inputs: seq<Input>, named: seq<Pair>, pairs: seq<Pair>, roles: seq<Value>)
    requires DistinctIds(inputs) && NamedPairs(inputs, named) && PairedSoFar(inputs, pairs, roles)
    requires forall c :: c in inputs && IsChoice(c) && !Leads(named, c) && Role(c.declaration).Str? ==>
             Role(c.declaration) in roles
    ensures ArePaired(inputs, pairs)
  {
    hide ExactPair, ExactChoice, ExactNumber, DistinctIds, Leads, Follows;
    forall s, c | Companion(inputs, s, c) && !ExactPair(s, c) ensures Role(c.declaration) in roles {
      ByRoleNotLed(inputs, named, s, c);
    }
    forall i, j | 0 <= i < j < |pairs| ensures pairs[i].strength != pairs[j].strength {
      assert pairs[i] in pairs && pairs[j] in pairs;
      if pairs[i].strength == pairs[j].strength {
        CompanionIsUnique(inputs, pairs[i].strength, pairs[i].choice, pairs[j].choice);
      }
    }
  }

  lemma {:induction false} ByRoleNotLed(inputs: seq<Input>, named: seq<Pair>, s: Input, c: Input)
    requires NamedPairs(inputs, named) && Companion(inputs, s, c) && !ExactPair(s, c)
    ensures c in inputs && IsChoice(c) && !Leads(named, c) && Role(c.declaration).Str?
  {
  }

  // ----- the second loop -----

  /** Inputs whose choice has spoken already, and inputs on their own. */
  ghost function Mixed(inputs: seq<Input>, requested: Mapping, text: bool, slots: string -> int,
                       spoken: seq<Pair>): Input -> Outcome {
    (input: Input) => if Follows(spoken, input) then Final(inputs, requested, text, slots, input)
                      else Judge(input, requested, text, slots(input.id))
  }

  /** The effective controls are right for every input that is not in error. */
  ghost predicate Tracks(inputs: seq<Input>, outcomes: Input -> Outcome, effective: Mapping, errors: set<string>) {
    && (forall input :: input in inputs ==> (input.id in errors <==> outcomes(input).Faulty?))
    && (forall input :: input in inputs && input.id !in errors ==>
          (input.id in effective <==> outcomes(input).Kept?)
          && (outcomes(input).Kept? ==> effective[input.id] == outcomes(input).value))
    && (forall id :: id in effective || id in errors ==> Declared(inputs, id))
  }

  /** Strengths that were not supplied follow the selected choice. */
  method LetChoicesSpeak(inputs: seq<Input>, pairs: seq<Pair>, requested: Mapping, ghost text: bool,
                         ghost slots: string -> int,
                         effective: Mapping, errors: set<string>)
    returns (effective': Mapping, errors': set<string>, broken: bool)
    requires DistinctIds(inputs) && ArePaired(inputs, pairs)
    requires Tracks(inputs, Mixed(inputs, requested, text, slots, []), effective, errors)
    ensures broken ==> exists input :: input in inputs && Final(inputs, requested, text, slots, input).Unusable?
    ensures !broken ==> Tracks(inputs, Mixed(inputs, requested, text, slots, pairs), effective', errors')
    ensures !broken ==> forall p :: p in pairs ==> !Final(inputs, requested, text, slots, p.strength).Raises()
                                                    || Judge(p.strength, requested, text, slots(p.strength.id)).Raises()
  {
    hide Judge, ValidateValue, Suggested, Companion, Tracks, Follows, DistinctIds, ArePaired;
    effective', errors', broken := effective, errors, false;
    var k := 0;
    while k < |pairs|
      invariant 0 <= k <= |pairs| && !broken
      invariant Tracks(inputs, Mixed(inputs, requested, text, slots, pairs[..k]), effective', errors')
      invariant forall p :: p in pairs[..k] ==> !Final(inputs, requested, text, slots, p.strength).Raises()
                                                || Judge(p.strength, requested, text, slots(p.strength.id)).Raises()
    {
      var s, c := pairs[k].strength, pairs[k].choice;
      ghost var before := Mixed(inputs, requested, text, slots, pairs[..k]);
      ghost var after := Mixed(inputs, requested, text, slots, pairs[..k + 1]);
      PairFollows(inputs, pairs, k, requested, text, slots);
      TrackedPair(inputs, before, effective', errors', s, c);
      if s.id !in errors' && c.id !in errors' && !Supplies(requested, s.id) && c.id in effective'
        && effective'[c.id].Str? {
        var suggested := Suggested(c.declaration, effective'[c.id].text, s.declaration);
        if suggested.Some? {
          var verdict := CheckValue(s.declaration, suggested.value);
          if verdict.Broken? { return effective', errors', true; }
          Retrack(inputs, before, after, effective', errors', s);
          if verdict.Good? {
            effective' := effective'[s.id := verdict.value];
          } else {
            errors' := errors' + {s.id};
          }
        } else {
          Retrack(inputs, before, after, effective', errors', s);
        }
      } else {
        Retrack(inputs, before, after, effective', errors', s);
      }
      assert pairs[..k + 1] == pairs[..k] + [pairs[k]];
      k := k + 1;
    }
    assert pairs[..k] == pairs;
  }

  /** The strength of the `k`-th pair has not been dealt with, and its choice
      never is. */
  lemma {:induction false} PairFollows(inputs: seq<Input>, pairs: seq<Pair>, k: nat, requested: Mapping, text: bool,
                                       slots: string -> int)
    requires DistinctIds(inputs) && ArePaired(inputs, pairs) && k < |pairs|
    ensures var s, c := pairs[k].strength, pairs[k].choice;
            var before, after := Mixed(inputs, requested, text, slots, pairs[..k]),
              Mixed(inputs, requested, text, slots, pairs[..k + 1]);
            && s in inputs && c in inputs && s != c
            && before(s) == Judge(s, requested, text, slots(s.id))
            && before(c) == Judge(c, requested, text, slots(c.id))
            && after(s) == Final(inputs, requested, text, slots, s)
            && after(s) == Following(s, c, before(s), before(c), requested)
            && forall x :: x != s ==> after(x) == before(x)
  {
    hide Judge, Following;
    var s, c := pairs[k].strength, pairs[k].choice;
    assert pairs[k] in pairs;
    assert ChoiceOf(inputs, s) == Some(c) by {
      assert Companion(inputs, s, c);
      CompanionIsUnique(inputs, s, c, ChoiceOf(inputs, s).value);
    }
    forall i | 0 <= i < k ensures pairs[i].strength != s && pairs[i].strength != c {
      assert pairs[i] in pairs;
    }
    assert pairs[..k + 1][k] == pairs[k];
    forall x | x != s ensures Follows(pairs[..k + 1], x) == Follows(pairs[..k], x) {
      assert pairs[..k + 1] == pairs[..k] + [pairs[k]];
      LeadsMore(pairs[..k], pairs[k], x);
    }
  }

  lemma {:induction false} TrackedPair(inputs: seq<Input>, outcomes: Input -> Outcome, effective: Mapping,
                                       errors: set<string>, s: Input, c: Input)
    requires Tracks(inputs, outcomes, effective, errors) && s in inputs && c in inputs
    ensures s.id in errors <==> outcomes(s).Faulty?
    ensures c.id in errors <==> outcomes(c).Faulty?
    ensures c.id !in errors ==>
              (c.id in effective <==> outcomes(c).Kept?) && (outcomes(c).Kept? ==> effective[c.id] == outcomes(c).value)
  {
  }

  /** Only one outcome changes. */
  lemma {:induction false} Retrack(inputs: seq<Input>, before: Input -> Outcome, after: Input -> Outcome,
                                   effective: Mapping, errors: set<string>, s: Input)
    requires DistinctIds(inputs) && Tracks(inputs, before, effective, errors) && s in inputs
    requires forall x :: x != s ==> after(x) == before(x)
    ensures after(s) == before(s) ==> Tracks(inputs, after, effective, errors)
    ensures after(s).Kept? && s.id !in errors ==> Tracks(inputs, after, effective[s.id := after(s).value], errors)
    ensures after(s).Faulty? ==> Tracks(inputs, after, effective, errors + {s.id})
  {
    assert Declared(inputs, s.id) by {
      var i :| 0 <= i < |inputs| && inputs[i] == s;
    }
    forall x | x in inputs && x != s ensures x.id != s.id {
      var i :| 0 <= i < |inputs| && inputs[i] == s;
      var j :| 0 <= j < |inputs| && inputs[j] == x;
    }
  }

  // ----- the third loop -----

  /** Patches a copy of the frozen graph, binding by binding. */
  method PatchGraph(api: Graph, inputs: seq<Input>, effective: Mapping)
    returns (patched: Option<Graph>, uploads: map<string, string>)
    ensures patched == PatchAll(api, inputs, effective)
    ensures patched.Some? ==> uploads == Uploads(inputs, effective)
    ensures patched.Some? <==> CompiledResults.CanPatch(api, inputs, effective)
    ensures patched.Some? ==> CompiledResults.ShowsAll(api, inputs, effective, patched.value)
  {
    hide Patch, Patchable, GraphValue, CompiledResults.CanPatch, CompiledResults.ShowsAll;
    CompiledResults.PatchedExactly(api, inputs, effective);
    if PatchAll(api, inputs, effective).Some? { CompiledResults.PatchedShows(api, inputs, effective); }
    var graph, i := api, 0;
    uploads := map[];
    while i < |inputs|
      invariant 0 <= i <= |inputs|
      invariant PatchAll(api, inputs[..i], effective) == Some(graph) && uploads == Uploads(inputs[..i], effective)
    {
      var input := inputs[i];
      PatchedNext(api, inputs, effective, i);
      if input.id in effective {
        var d := input.declaration;
        var value := GraphValue(Kind(d), effective[input.id]);
        if value.None? || BindingsOf(d) == [] {
          PatchFails(api, inputs, effective, i + 1);
          return None, uploads;
        }
        if IsImage(input) { uploads := uploads[input.id := AssetOf(effective[input.id])]; }
        var bindings, j := BindingsOf(d), 0;
        ghost var before := graph;
        while j < |bindings|
          invariant 0 <= j <= |bindings|
          invariant PatchBindings(before, Kind(d), bindings[..j], value.value) == Some(graph)
        {
          BindingNext(before, Kind(d), bindings, value.value, j);
          if !Patchable(graph, Kind(d), bindings[j]) {
            BindingsFail(before, Kind(d), bindings, value.value, j + 1);
            PatchFails(api, inputs, effective, i + 1);
            return None, uploads;
          }
          PatchableHasTarget(graph, Kind(d), bindings[j]);
          graph := Patch(graph, TargetOf(bindings[j]).value, value.value);
          j := j + 1;
        }
        assert bindings[..j] == bindings;
      }
      i := i + 1;
    }
    assert inputs[..i] == inputs;
    patched := Some(graph);
  }

  lemma {:induction false} PatchableHasTarget(graph: Graph, kind: Value, b: Value)
    requires Patchable(graph, kind, b)
    ensures TargetOf(b).Some? && InputsOf(graph, TargetOf(b).value.node).Some?
  {
  }

  lemma {:induction false} PatchedNext(api: Graph, inputs: seq<Input>, effective: Mapping, i: nat)
    requires i < |inputs| && PatchAll(api, inputs[..i], effective).Some?
    ensures PatchAll(api, inputs[..i + 1], effective)
            == PatchInput(PatchAll(api, inputs[..i], effective).value, inputs[i], effective)
    ensures Uploads(inputs[..i + 1], effective) ==
            if IsImage(inputs[i]) && inputs[i].id in effective
            then Uploads(inputs[..i], effective)[inputs[i].id := AssetOf(effective[inputs[i].id])]
              else Uploads(inputs[..i], effective)
  {
    assert inputs[..i + 1][..i] == inputs[..i];
  }

  lemma {:induction false} BindingNext(graph: Graph, kind: Value, bindings: seq<Value>, v: Value, j: nat)
    requires j < |bindings| && PatchBindings(graph, kind, bindings[..j], v).Some?
    ensures var before := PatchBindings(graph, kind, bindings[..j], v).value;
            PatchBindings(graph, kind, bindings[..j + 1], v) ==
            if Patchable(before, kind, bindings[j]) then Some(Patch(before, TargetOf(bindings[j]).value, v)) else None
  {
    assert bindings[..j + 1][..j] == bindings[..j];
  }

  /** A failure is final. */
  lemma {:induction false} BindingsFail(graph: Graph, kind: Value, bindings: seq<Value>, v: Value, j: nat)
    requires j <= |bindings| && PatchBindings(graph, kind, bindings[..j], v).None?
    ensures PatchBindings(graph, kind, bindings, v).None?
    decreases |bindings|
  {
    if j < |bindings| {
      var front := bindings[..|bindings| - 1];
      assert front[..j] == bindings[..j];
      BindingsFail(graph, kind, front, v, j);
    } else {
      assert bindings[..j] == bindings;
    }
  }

  lemma {:induction false} PatchFails(api: Graph, inputs: seq<Input>, effective: Mapping, i: nat)
    requires i <= |inputs| && PatchAll(api, inputs[..i], effective).None?
    ensures PatchAll(api, inputs, effective).None?
    decreases |inputs|
  {
    if i < |inputs| {
      var front := inputs[..|inputs| - 1];
      assert front[..i] == inputs[..i];
      PatchFails(api, front, effective, i);
    } else {
      assert inputs[..i] == inputs;
    }
  }

  // ----- everything -----

  lemma {:induction false} OwnTracks(inputs: seq<Input>, requested: Mapping, text: bool, slots: string -> int,
                                     effective: Mapping, errors: set<string>)
    requires DistinctIds(inputs)
    requires effective == Effective(inputs, Own(requested, text, slots))
             && errors == FaultyIds(inputs, Own(requested, text, slots))
    ensures Tracks(inputs, Mixed(inputs, requested, text, slots, []), effective, errors)
  {
    hide Judge, DistinctIds, Declared, FaultyIds;
    FaultyMeans(inputs, Own(requested, text, slots));
    forall input ensures Mixed(inputs, requested, text, slots, [])(input) == Own(requested, text, slots)(input) {
      assert !Follows([], input);
    }
  }

  lemma {:induction false} FaultyMeans(inputs: seq<Input>, outcomes: Input -> Outcome)
    requires DistinctIds(inputs)
    ensures forall input :: input in inputs ==> (input.id in FaultyIds(inputs, outcomes) <==> outcomes(input).Faulty?)
    ensures forall id :: id in FaultyIds(inputs, outcomes) ==> Declared(inputs, id)
  {
  }

  /** When all pairs have been dealt with, every choice has spoken. */
  lemma {:induction false} AllSpoken(inputs: seq<Input>, requested: Mapping, text: bool, slots: string -> int,
                                     pairs: seq<Pair>, input: Input)
    requires ArePaired(inputs, pairs)
    ensures Mixed(inputs, requested, text, slots, pairs)(input) == Outcomes(inputs, requested, text, slots)(input)
    ensures Follows(pairs, input) ==> IsNumberInput(input)
  {
    hide Judge, Following;
    FollowsItsChoice(inputs, pairs, input);
    if Follows(pairs, input) {
      var i :| 0 <= i < |pairs| && pairs[i].strength == input;
      assert pairs[i] in pairs;
    }
  }

  lemma {:induction false} FollowsItsChoice(inputs: seq<Input>, pairs: seq<Pair>, input: Input)
    requires ArePaired(inputs, pairs)
    ensures ChoiceOf(inputs, input).Some? ==> Follows(pairs, input)
  {
  }

  lemma {:induction false} AfterChoices(inputs: seq<Input>, requested: Mapping, text: bool, slots: string -> int,
                                        pairs: seq<Pair>,
                     effective: Mapping, errors: set<string>)
    requires DistinctIds(inputs) && ArePaired(inputs, pairs) && FirstRaised(inputs, requested, text, slots).None?
    requires Tracks(inputs, Mixed(inputs, requested, text, slots, pairs), effective, errors)
    requires forall p :: p in pairs ==> !Final(inputs, requested, text, slots, p.strength).Raises()
                                        || Judge(p.strength, requested, text, slots(p.strength.id)).Raises()
    ensures var outcomes := Outcomes(inputs, requested, text, slots);
            && (forall i :: 0 <= i < |inputs| ==> !outcomes(inputs[i]).Raises())
            && errors == (set i: nat | i < |inputs| && outcomes(inputs[i]).Faulty? :: inputs[i].id)
            && (errors == {} ==> effective == Effective(inputs, outcomes))
  {
    hide Judge, Final, Effective;
    var outcomes := Outcomes(inputs, requested, text, slots);
    NoneRaised(inputs, requested, text, slots);
    forall i | 0 <= i < |inputs| ensures !outcomes(inputs[i]).Raises() {
      AllSpoken(inputs, requested, text, slots, pairs, inputs[i]);
      if Follows(pairs, inputs[i]) {
        var k :| 0 <= k < |pairs| && pairs[k].strength == inputs[i];
        assert pairs[k] in pairs;
      }
    }
    forall input | input in inputs ensures Mixed(inputs, requested, text, slots, pairs)(input) == outcomes(input) {
      AllSpoken(inputs, requested, text, slots, pairs, input);
    }
    forall id | id in errors ensures exists i: nat ::
      i < |inputs| && outcomes(inputs[i]).Faulty? && inputs[i].id == id {
      var i :| 0 <= i < |inputs| && inputs[i].id == id;
      assert inputs[i] in inputs;
    }
    if errors == {} { EffectiveAgain(inputs, outcomes, effective); }
  }

  /** Choices decide about numbers only, so the resolved seeds stand. */
  lemma {:induction false} SeedsStand(inputs: seq<Input>, requested: Mapping, text: bool, slots: string -> int,
                                      pairs: seq<Pair>,
                   before: Mapping, after: Mapping)
    requires DistinctIds(inputs) && ArePaired(inputs, pairs)
    requires before == Effective(inputs, Own(requested, text, slots))
    requires Tracks(inputs, Mixed(inputs, requested, text, slots, pairs), after, {})
    ensures Seeds(inputs, before) == Seeds(inputs, after)
  {
    hide Judge, Final;
    forall input | input in inputs && IsSeed(input)
      ensures (input.id in before <==> input.id in after) && (input.id in before ==>
              before[input.id] == after[input.id])
    {
      AllSpoken(inputs, requested, text, slots, pairs, input);
    }
    SeedsAgree(inputs, before, after);
  }

  lemma {:induction false} SeedsAgree(inputs: seq<Input>, before: Mapping, after: Mapping)
    requires forall input :: input in inputs && IsSeed(input) ==>
               (input.id in before <==> input.id in after) && (input.id in before ==>
                 before[input.id] == after[input.id])
    ensures Seeds(inputs, before) == Seeds(inputs, after)
  {
    if inputs != [] { SeedsAgree(inputs[..|inputs| - 1], before, after); }
  }

  /** Compiles one request; `slots` answers for the seed resolver. */
  method CompileRequest(contract: Mapping, api: Graph, requested: Mapping, slots: string -> int) returns (r: Result)
    ensures r == Compile(contract, api, requested, slots)
    ensures r.Compiled? ==> Inputs(contract).Some? && CompiledResults.Right(contract, api, requested, slots, r)
    ensures r.FieldErrors? ==> Inputs(contract).Some? && CompiledResults.Reported(contract, requested, slots, r.fields)
    ensures r.UnknownControls? <==> NamesUndeclared(contract, requested)
  {
    hide Judge, Seeds, FirstRaised, Effective, Own, FaultyIds, Inputs, IsText, Declared, CompiledResults.Right,
         CompiledResults.Reported, Compile, NamesUndeclared;
    RightResult(contract, api, requested, slots);
    EarlyResult(contract, api, requested, slots);
    var declared, text := Inputs(contract), IsText(contract);
    if declared.None? { return ContractError; }
    var inputs := declared.value;
    if exists id | id in requested.Keys :: !Declared(inputs, id) { return UnknownControls; }
    var effective, seeds, errors, raised := FillEffective(inputs, requested, text, slots);
    if raised.Some? { return if raised.value.Unresolved? then ResolverError else ContractError; }
    r := Conclude(contract, api, inputs, requested, text, slots, effective, seeds, errors);
  }

  /** The second loop and the third, once all inputs have been looked at. */
  method Conclude(contract: Mapping, api: Graph, inputs: seq<Input>, requested: Mapping, text: bool,
                  slots: string -> int,
                  filled: Mapping, seeds: map<string, string>, faulty: set<string>) returns (r: Result)
    requires Filled(contract, requested, slots) && Inputs(contract) == Some(inputs) && text == IsText(contract)
    requires var own := Own(requested, text, slots);
             filled == Effective(inputs, own) && faulty == FaultyIds(inputs, own) && seeds == Seeds(inputs, filled)
    ensures r == Compile(contract, api, requested, slots)
  {
    hide Judge, Final, Assemble, Seeds, FirstRaised, Effective, Tracks, Mixed, Own, FaultyIds, ArePaired, NamedPairs,
         Inputs,
         IsText, Declared, Outcomes, DistinctIds;
    var effective, errors := filled, faulty;
    var named := PairByName(inputs);
    var pairs := PairByRole(inputs, named);
    OwnTracks(inputs, requested, text, slots, effective, errors);
    var broken;
    effective, errors, broken := LetChoicesSpeak(inputs, pairs, requested, text, slots, effective, errors);
    if broken {
      BrokenResult(contract, api, requested, slots);
      return ContractError;
    }
    AfterChoices(inputs, requested, text, slots, pairs, effective, errors);
    StageResult(contract, api, requested, slots, errors);
    if errors != {} { return FieldErrors(errors); }
    SeedsStand(inputs, requested, text, slots, pairs, filled, effective);
    r := Finish(inputs, api, text, effective, seeds);
  }

  lemma {:induction false} RightResult(contract: Mapping, api: Graph, requested: Mapping, slots: string -> int)
    ensures var r := Compile(contract, api, requested, slots);
            && (r.Compiled? ==> Inputs(contract).Some? && CompiledResults.Right(contract, api, requested, slots, r))
            && (r.FieldErrors? ==>
                 Inputs(contract).Some? && CompiledResults.Reported(contract, requested, slots, r.fields))
  {
    hide Compile, CompiledResults.Right, CompiledResults.Reported, Inputs;
    if Compile(contract, api, requested, slots).Compiled? { CompiledResults.CompiledMeans(contract, api, requested,
      slots); }
    if Compile(contract, api, requested, slots).FieldErrors? { CompiledResults.FieldErrorsMean(contract, api,
      requested, slots); }
  }

  /** The request names a control that the contract does not declare. */
  ghost predicate NamesUndeclared(contract: Mapping, requested: Mapping) {
    Inputs(contract).Some? && exists id :: id in requested && !Declared(Inputs(contract).value, id)
  }

  /** What stops a request before its values are looked at, or while they are. */
  lemma {:induction false} EarlyResult(contract: Mapping, api: Graph, requested: Mapping, slots: string -> int)
    ensures Compile(contract, api, requested, slots).UnknownControls? <==> NamesUndeclared(contract, requested)
    ensures var r, declared := Compile(contract, api, requested, slots), Inputs(contract);
            if declared.None? then r == ContractError
            else if exists id :: id in requested && !Declared(declared.value, id) then r == UnknownControls
            else
              var raised := FirstRaised(declared.value, requested, IsText(contract), slots);
              raised.Some? ==> r == if raised.value.Unresolved? then ResolverError else ContractError
  {
    hide Judge, Final, FirstRaised, Effective, Inputs, IsText, Declared, PatchAll, Positive, Seeds, Uploads;
  }

  method Finish(inputs: seq<Input>, api: Graph, text: bool, effective: Mapping, seeds: map<string, string>)
    returns (r: Result)
    requires seeds == Seeds(inputs, effective)
    ensures r == Assemble(inputs, api, text, effective)
  {
    var graph, uploads := PatchGraph(api, inputs, effective);
    if graph.None? { return ContractError; }
    var positive := Positive(inputs);
    if !text && (positive.None? || positive.value.id !in effective
      || !effective[positive.value.id].Str?) { return ContractError; }
    if positive.None? { return Compiled(effective, seeds, graph.value, uploads, Str("")); }
    if positive.value.id !in effective { return ContractError; }
    return Compiled(effective, seeds, graph.value, uploads, effective[positive.value.id]);
  }

  /** A request that names only declared inputs and whose inputs do not raise. */
  ghost predicate Filled(contract: Mapping, requested: Mapping, slots: string -> int) {
    && Inputs(contract).Some? && (forall id :: id in requested ==> Declared(Inputs(contract).value, id))
    && FirstRaised(Inputs(contract).value, requested, IsText(contract), slots).None?
  }

  lemma {:induction false} BrokenResult(contract: Mapping, api: Graph, requested: Mapping, slots: string -> int)
    requires Filled(contract, requested, slots)
    requires exists input :: input in Inputs(contract).value
                             && Final(Inputs(contract).value, requested, IsText(contract), slots, input).Unusable?
    ensures Compile(contract, api, requested, slots) == ContractError
  {
    hide Final, Inputs, FirstRaised, Declared, Assemble;
    var inputs, text := Inputs(contract).value, IsText(contract);
    var input :| input in inputs && Final(inputs, requested, text, slots, input).Unusable?;
    var i :| 0 <= i < |inputs| && inputs[i] == input;
    assert Outcomes(inputs, requested, text, slots)(inputs[i]).Raises();
  }

  lemma {:induction false} StageResult(contract: Mapping, api: Graph, requested: Mapping, slots: string -> int,
                                       errors: set<string>)
    requires Filled(contract, requested, slots)
    requires var inputs := Inputs(contract).value;
             var outcomes := Outcomes(inputs, requested, IsText(contract), slots);
             && (forall i :: 0 <= i < |inputs| ==> !outcomes(inputs[i]).Raises())
             && errors == (set i: nat | i < |inputs| && outcomes(inputs[i]).Faulty? :: inputs[i].id)
    ensures var inputs := Inputs(contract).value;
            var outcomes := Outcomes(inputs, requested, IsText(contract), slots);
            Compile(contract, api, requested, slots) ==
            if errors != {} then FieldErrors(errors)
              else Assemble(inputs, api, IsText(contract), Effective(inputs, outcomes))
  {
    hide Final, Inputs, FirstRaised, Declared, Assemble, Effective;
    var inputs := Inputs(contract).value;
    var outcomes := Outcomes(inputs, requested, IsText(contract), slots);
    if i: nat :| i < |inputs| && outcomes(inputs[i]).Faulty? {
      assert inputs[i].id in errors;
    }
  }
}
