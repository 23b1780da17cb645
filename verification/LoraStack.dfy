/** The ordered LoRA stack end to end: the check that an entry list is a complete
    permutation of the published items, and the node that applies it. */
module LoraStack {
  import opened Values
  import P = Publications

  /** How a validation ends: with a value, with a user error, or with the
      contract itself found unusable. */
  datatype Verdict<+T> = Good(value: T) | Wrong | Broken

  // ----- what is accepted -----

  predicate InSteps(v: real, minimum: real, maximum: real, step: real)
    requires step != 0.0
  {
    minimum <= v <= maximum && Aligned(v - minimum, step)
  }

  predicate Usable(declaration: Mapping) {
    "items" in declaration && "minimum" in declaration && "maximum" in declaration && "step" in declaration
  }

  predicate Bounded(declaration: Mapping)
    requires Usable(declaration)
  {
    && IsFinite(declaration["minimum"]) && IsFinite(declaration["maximum"]) && IsFinite(declaration["step"])
    && Exact(declaration["minimum"]) == 0.0
    && Exact(declaration["maximum"]) > 0.0 && Exact(declaration["step"]) > 0.0
  }

  predicate BoundedText(v: Value, limit: nat) { v.Str? && P.Strip(v.text) != "" && |v.text| <= limit }

  predicate PublicItem(item: Value) {
    && item.Obj?
    && {"id", "label"} <= item.fields.Keys <= {"id", "label", "description", "trigger_word"}
    && item.fields["id"].Str? && P.IsPublicId(item.fields["id"].text)
    && BoundedText(item.fields["label"], 120)
    && ("description" in item.fields ==> BoundedText(item.fields["description"], 1000))
    && ("trigger_word" in item.fields ==> BoundedText(item.fields["trigger_word"], P.MAX_TRIGGER_WORD))
  }

  function IdOf(v: Value): string {
    if v.Obj? && "id" in v.fields && v.fields["id"].Str? then v.fields["id"].text else ""
  }

  function Ids(vs: seq<Value>): (ids: seq<string>)
    ensures |ids| == |vs| && forall i :: 0 <= i < |vs| ==> ids[i] == IdOf(vs[i])
  {
    seq(|vs|, i requires 0 <= i < |vs| => IdOf(vs[i]))
  }

  ghost predicate Distinct(ids: seq<string>) {
    forall i, j :: 0 <= i < j < |ids| ==> ids[i] != ids[j]
  }

  ghost predicate Published(items: Value) {
    && items.List? && |items.items| <= P.MAX_CATALOG
    && (forall i :: 0 <= i < |items.items| ==> PublicItem(items.items[i]))
    && Distinct(Ids(items.items))
  }

  predicate Entry(v: Value, maximum: real, step: real)
    requires step != 0.0
  {
    && v.Obj? && v.fields.Keys == {"id", "strength"} && v.fields["id"].Str?
    && IsFinite(v.fields["strength"]) && InSteps(Exact(v.fields["strength"]), 0.0, maximum, step)
  }

  /** A value that is a complete ordered permutation of the published items, with
      every strength in range and on a step. */
  ghost predicate Accepts(value: Value, declaration: Mapping)
    ensures Accepts(value, declaration) ==> value.List?
  {
    && Usable(declaration) && Bounded(declaration) && Published(declaration["items"])
    && value.List?
    && (forall i :: 0 <= i < |value.items| ==>
        Entry(value.items[i], Exact(declaration["maximum"]), Exact(declaration["step"])))
    && multiset(Ids(value.items)) == multiset(Ids(declaration["items"].items))
  }

  // ----- the validation -----

  method CheckItems(items: Value) returns (ok: bool, ids: set<string>)
    ensures ok <==> Published(items)
    ensures ok ==> ids == set k | 0 <= k < |items.items| :: IdOf(items.items[k])
  {
    hide PublicItem;
    ids := {};
    if !items.List? || |items.items| > P.MAX_CATALOG { return false, ids; }
    var i := 0;
    while i < |items.items|
      invariant 0 <= i <= |items.items|
      invariant ids == set k | 0 <= k < i :: IdOf(items.items[k])
      invariant forall k :: 0 <= k < i ==> PublicItem(items.items[k])
      invariant Distinct(Ids(items.items[..i]))
    {
      if !PublicItem(items.items[i]) || IdOf(items.items[i]) in ids {
        NotPublished(items, i);
        return false, ids;
      }
      assert Ids(items.items[..i + 1]) == Ids(items.items[..i]) + [IdOf(items.items[i])];
      ids, i := ids + {IdOf(items.items[i])}, i + 1;
    }
    assert items.items[..i] == items.items;
    ok := true;
  }

  /** Validates an entry list without coercing or changing it. */
  method ValidateLoraStack(value: Value, declaration: Mapping) returns (r: Verdict<Value>)
    ensures r.Good? <==> Accepts(value, declaration)
    ensures r.Good? ==> r.value == value
    ensures r.Broken? <==> !Usable(declaration)
  {
    hide PublicItem, Aligned;
    if "items" !in declaration || "minimum" !in declaration || "maximum" !in declaration || "step" !in declaration {
      return Broken;
    }
    var items, minimum, maximum, step := declaration["items"], declaration["minimum"], declaration["maximum"],
      declaration["step"];
    if !IsFinite(minimum) || !IsFinite(maximum) || !IsFinite(step) { return Wrong; }
    if Exact(minimum) != 0.0 || Exact(maximum) <= Exact(minimum) || Exact(step) <= 0.0 { return Wrong; }
    var published, ids := CheckItems(items);
    if !published { return Wrong; }
    if !value.List? || |value.items| != |items.items| {
      LengthsAgree(value, items);
      return Wrong;
    }
    var checked, result := CheckEntries(value.items, ids, minimum, maximum, step);
    AllOfThem(value.items, items.items, ids);
    return if checked then Good(List(result)) else Wrong;
  }

  ghost predicate KnownOnce(entries: seq<Value>, ids: set<string>) {
    Distinct(Ids(entries)) && forall k :: 0 <= k < |entries| ==> IdOf(entries[k]) in ids
  }

  method CheckEntries(entries: seq<Value>, ids: set<string>, minimum: Value, maximum: Value, step: Value)
    returns (ok: bool, result: seq<Value>)
    requires IsFinite(minimum) && IsFinite(maximum) && IsFinite(step) && Exact(minimum) == 0.0 && Exact(step) > 0.0
    ensures ok <==> KnownOnce(entries, ids) && forall k :: 0 <= k < |entries| ==>
            Entry(entries[k], Exact(maximum), Exact(step))
    ensures ok ==> result == entries
  {
    hide Aligned, Ids;
    var seen: set<string>, j := {}, 0;
    result := [];
    IdsNext([], 0);
    while j < |entries|
      invariant 0 <= j <= |entries| && result == entries[..j]
      invariant seen == set k | 0 <= k < j :: IdOf(entries[k])
      invariant KnownOnce(entries[..j], ids)
      invariant forall k :: 0 <= k < j ==> Entry(entries[k], Exact(maximum), Exact(step))
    {
      var entry := entries[j];
      if !entry.Obj? || entry.fields.Keys != {"id", "strength"} || !entry.fields["id"].Str? {
        assert !Entry(entries[j], Exact(maximum), Exact(step));
        return false, result;
      }
      var id, strength := entry.fields["id"], entry.fields["strength"];
      if id.text !in ids || id.text in seen {
        NotOnce(entries, ids, j);
        return false, result;
      }
      seen := seen + {id.text};
      if !IsFinite(strength) || !(Exact(minimum) <= Exact(strength) <= Exact(maximum))
         || !Aligned(Exact(strength) - Exact(minimum), Exact(step))
      {
        assert !Entry(entries[j], Exact(maximum), Exact(step));
        return false, result;
      }
      assert entry == Obj(map["id" := id, "strength" := strength]);
      result := result + [Obj(map["id" := id, "strength" := strength])];
      IdsNext(entries, j);
      j := j + 1;
    }
    assert entries[..j] == entries;
    ok := true;
  }

  lemma {:induction false} IdsNext(entries: seq<Value>, j: nat)
    ensures Ids([]) == []
    ensures j < |entries| ==> Ids(entries[..j + 1]) == Ids(entries[..j]) + [IdOf(entries[j])]
    ensures j < |entries| ==> forall k :: 0 <= k < j ==> Ids(entries[..j])[k] == IdOf(entries[k])
  {
  }

  lemma {:induction false} NotOnce(entries: seq<Value>, ids: set<string>, j: nat)
    requires j < |entries| && (IdOf(entries[j]) !in ids || exists k ::
               0 <= k < j && IdOf(entries[k]) == IdOf(entries[j]))
    ensures !KnownOnce(entries, ids)
  {
  }

  /** With equal lengths, naming known items once each is naming all of them. */
  lemma {:induction false} AllOfThem(entries: seq<Value>, items: seq<Value>, ids: set<string>)
    requires |entries| == |items| && Distinct(Ids(items)) && ids == set k | 0 <= k < |items| :: IdOf(items[k])
    ensures KnownOnce(entries, ids) <==> multiset(Ids(entries)) == multiset(Ids(items))
  {
    if KnownOnce(entries, ids) {
      SeenArePublished(entries, items, ids);
      Pigeonhole(Ids(entries), Ids(items));
    } else {
      if k :| 0 <= k < |entries| && IdOf(entries[k]) !in ids {
        NoPermutation(entries, items, ids, k);
      } else {
        var k, j :| 0 <= k < j < |entries| && Ids(entries)[k] == Ids(entries)[j];
        assert IdOf(entries[k]) == IdOf(entries[j]);
        NoPermutation(entries, items, ids, j);
      }
    }
  }

  lemma {:induction false} NotPublished(items: Value, i: nat)
    requires items.List? && i < |items.items|
    requires !PublicItem(items.items[i]) || exists k :: 0 <= k < i && IdOf(items.items[k]) == IdOf(items.items[i])
    ensures !Published(items)
  {
  }

  lemma {:induction false} LengthsAgree(value: Value, items: Value)
    requires items.List? && (value.List? ==> |value.items| != |items.items|)
    ensures value.List? ==> multiset(Ids(value.items)) != multiset(Ids(items.items))
  {
    if value.List? {
      assert |multiset(Ids(value.items))| == |value.items| && |multiset(Ids(items.items))| == |items.items|;
    }
  }

  lemma {:induction false} NoPermutation(entries: seq<Value>, items: seq<Value>, ids: set<string>, j: nat)
    requires j < |entries| && Distinct(Ids(items)) && ids == set k | 0 <= k < |items| :: IdOf(items[k])
    requires IdOf(entries[j]) !in ids || exists k :: 0 <= k < j && IdOf(entries[k]) == IdOf(entries[j])
    ensures multiset(Ids(entries)) != multiset(Ids(items))
  {
    var a, b, x := Ids(entries), Ids(items), IdOf(entries[j]);
    if multiset(a) == multiset(b) {
      assert x in a && x in multiset(a) && x in b;
      var n :| 0 <= n < |b| && b[n] == x;
      assert IdOf(items[n]) in ids;
      var k :| 0 <= k < j && a[k] == a[j];
      TwiceInMultiset(a, k, j);
      OnceInMultiset(b, n);
    }
  }

  lemma {:induction false} SeenArePublished(entries: seq<Value>, items: seq<Value>, ids: set<string>)
    requires ids == set k | 0 <= k < |items| :: IdOf(items[k])
    requires forall k :: 0 <= k < |entries| ==> IdOf(entries[k]) in ids
    ensures forall x :: x in Ids(entries) ==> x in Ids(items)
  {
  }

  lemma {:induction false} TwiceInMultiset(a: seq<string>, k: nat, j: nat)
    requires k < j < |a| && a[k] == a[j]
    ensures multiset(a)[a[j]] >= 2
  {
    assert a == a[..j] + [a[j]] + a[j + 1..];
    assert a[j] == a[..j][k] && a[j] in a[..j];
  }

  lemma {:induction false} OnceInMultiset(a: seq<string>, n: nat)
    requires n < |a| && Distinct(a)
    ensures multiset(a)[a[n]] == 1
  {
    assert a == a[..n] + [a[n]] + a[n + 1..];
    assert a[n] !in a[..n] && a[n] !in a[n + 1..];
  }

  lemma {:induction false} WithoutOne(b: seq<string>, n: nat)
    requires n < |b| && Distinct(b)
    ensures var b' := b[..n] + b[n + 1..];
            && Distinct(b') && multiset(b) == multiset(b') + multiset{b[n]}
            && forall y :: y in b && y != b[n] ==> y in b'
  {
    var b' := b[..n] + b[n + 1..];
    forall y | y in b && y != b[n] ensures y in b' {
      var i :| 0 <= i < |b| && b[i] == y;
      assert y == b'[if i < n then i else i - 1];
    }
    assert b == b[..n] + [b[n]] + b[n + 1..];
  }

  /** As many distinct names as there are to choose from are all of them. */
  lemma {:induction false} Pigeonhole(a: seq<string>, b: seq<string>)
    requires |a| == |b| && Distinct(a) && Distinct(b) && forall x :: x in a ==> x in b
    ensures multiset(a) == multiset(b)
  {
    if a != [] {
      var x := a[|a| - 1];
      assert x in a;
      var n :| 0 <= n < |b| && b[n] == x;
      WithoutOne(b, n);
      var a' := a[..|a| - 1];
      assert x !in a' && a == a' + [x];
      Pigeonhole(a', b[..n] + b[n + 1..]);
    }
  }

  // ----- the node that applies the stack -----

  /** The patches a model carries, in order of application. */
  type Model = seq<(string, Value)>

  function PublicPart(item: Mapping): Mapping {
    map key | key in item.Keys && key in {"id", "label", "description", "trigger_word"} :: item[key]
  }

  predicate PrivateItem(item: Value)
    ensures PrivateItem(item) ==> item.Obj?
  {
    && item.Obj?
    && {"id", "label", "filename"} <= item.fields.Keys <= {"id", "label", "filename", "description", "trigger_word"}
    && item.fields["filename"].Str? && item.fields["filename"].text != "" && |item.fields["filename"].text| <= 1000
  }

  function PublicParts(catalog: seq<Value>): (r: seq<Value>)
    requires forall i :: 0 <= i < |catalog| ==> catalog[i].Obj?
    ensures |r| == |catalog|
  {
    seq(|catalog|, i requires 0 <= i < |catalog| => Obj(PublicPart(catalog[i].fields)))
  }

  function Filename(catalog: seq<Value>, id: string): string {
    if catalog == [] then ""
    else
      var item := catalog[|catalog| - 1];
      if IdOf(item) == id && item.Obj? && "filename" in item.fields && item.fields["filename"].Str? then
        item.fields["filename"].text
      else Filename(catalog[..|catalog| - 1], id)
  }

  predicate IsZero(v: Value) { IsFinite(v) && Exact(v) == 0.0 }

  /** The model with every nonzero entry applied, first to last. */
  function Applied(model: Model, catalog: seq<Value>, entries: seq<Value>): Model
    requires forall i :: 0 <= i < |entries| ==> entries[i].Obj? && {"id", "strength"} <= entries[i].fields.Keys
  {
    if entries == [] then model
    else
      var last := entries[|entries| - 1];
      var before := Applied(model, catalog, entries[..|entries| - 1]);
      if IsZero(last.fields["strength"]) then before
      else before + [(Filename(catalog, IdOf(last)), last.fields["strength"])]
  }

  /** The file of the catalog item that has the entry's id, with the entry's strength. */
  ghost predicate IsPatchOf(catalog: seq<Value>, entry: Value, patch: (string, Value)) {
    && entry.Obj? && Get(entry.fields, "strength") == patch.1
    && exists k :: 0 <= k < |catalog| && catalog[k].Obj? && Get(catalog[k].fields, "id") == Get(entry.fields, "id")
                   && Get(catalog[k].fields, "filename") == Str(patch.0)
  }

  predicate NonZero(entry: Value) { entry.Obj? && Get(entry.fields, "strength") !in {Int(0), Float(0.0)} }

  /** The patches are, in order and one for one, those of the nonzero entries, which
      stand at the places `at`. */
  ghost predicate Patches(catalog: seq<Value>, entries: seq<Value>, patches: seq<(string, Value)>, at: seq<nat>) {
    && |at| == |patches|
    && (forall m, n :: 0 <= m < n < |at| ==> at[m] < at[n])
    && (forall n :: 0 <= n < |at| ==>
          at[n] < |entries| && NonZero(entries[at[n]]) && IsPatchOf(catalog, entries[at[n]], patches[n]))
    && forall i :: 0 <= i < |entries| && NonZero(entries[i]) ==> i in at
  }

  ghost predicate PatchesAll(catalog: seq<Value>, entries: seq<Value>, patches: seq<(string, Value)>) {
    exists at :: Patches(catalog, entries, patches, at)
  }

  /** An entry for an item of the catalog. */
  ghost predicate ForItem(catalog: seq<Value>, entry: Value) {
    && entry.Obj? && {"id", "strength"} <= entry.fields.Keys && entry.fields["id"].Str?
    && IsFinite(entry.fields["strength"])
    && exists k :: 0 <= k < |catalog| && IdOf(catalog[k]) == IdOf(entry)
  }

  /** Applying a stack adds exactly the patches of its nonzero entries. */
  lemma {:induction false} AppliedMeans(model: Model, catalog: seq<Value>, entries: seq<Value>)
    requires forall i :: 0 <= i < |catalog| ==> PrivateItem(catalog[i]) && Get(catalog[i].fields, "id").Str?
    requires forall i :: 0 <= i < |entries| ==> entries[i].Obj? && {"id", "strength"} <= entries[i].fields.Keys
    requires forall i :: 0 <= i < |entries| ==> ForItem(catalog, entries[i])
    ensures model <= Applied(model, catalog, entries)
    ensures PatchesAll(catalog, entries, Applied(model, catalog, entries)[|model|..])
  {
    hide PrivateItem, ForItem, Filename, IsPatchOf;
    if entries == [] {
      assert Patches(catalog, entries, [], []) && Applied(model, catalog, entries)[|model|..] == [];
    } else {
      var front, last := entries[..|entries| - 1], entries[|entries| - 1];
      AppliedMeans(model, catalog, front);
      var before, after := Applied(model, catalog, front), Applied(model, catalog, entries);
      var at :| Patches(catalog, front, before[|model|..], at);
      EntryMeans(catalog, last);
      if NonZero(last) {
        assert after[|model|..] == before[|model|..] + [(Filename(catalog, IdOf(last)), last.fields["strength"])];
        PatchesMore(catalog, entries, before[|model|..], at, (Filename(catalog, IdOf(last)), last.fields["strength"]));
      } else {
        PatchesSame(catalog, entries, before[|model|..], at);
      }
    }
  }

  lemma {:induction false} PatchesMore(catalog: seq<Value>, entries: seq<Value>, patches: seq<(string, Value)>,
                                       at: seq<nat>,
                                       patch: (string, Value))
    requires entries != [] && Patches(catalog, entries[..|entries| - 1], patches, at)
    requires NonZero(entries[|entries| - 1]) && IsPatchOf(catalog, entries[|entries| - 1], patch)
    ensures PatchesAll(catalog, entries, patches + [patch])
  {
    hide NonZero, IsPatchOf;
    var at' := at + [|entries| - 1];
    assert forall i :: 0 <= i < |at| ==> at'[i] == at[i];
    assert at'[|at|] == |entries| - 1;
    assert Patches(catalog, entries, patches + [patch], at');
  }

  lemma {:induction false} PatchesSame(catalog: seq<Value>, entries: seq<Value>, patches: seq<(string, Value)>,
                                       at: seq<nat>)
    requires entries != [] && Patches(catalog, entries[..|entries| - 1], patches, at)
             && !NonZero(entries[|entries| - 1])
    ensures PatchesAll(catalog, entries, patches)
  {
    hide NonZero, IsPatchOf;
    assert Patches(catalog, entries, patches, at);
  }

  lemma {:induction false} EntryMeans(catalog: seq<Value>, entry: Value)
    requires forall i :: 0 <= i < |catalog| ==> PrivateItem(catalog[i]) && Get(catalog[i].fields, "id").Str?
    requires ForItem(catalog, entry)
    ensures entry.Obj? && "strength" in entry.fields && (IsZero(entry.fields["strength"]) <==> !NonZero(entry))
    ensures IsPatchOf(catalog, entry, (Filename(catalog, IdOf(entry)), entry.fields["strength"]))
  {
    var k :| 0 <= k < |catalog| && IdOf(catalog[k]) == IdOf(entry);
    FilenameIs(catalog, IdOf(entry), k);
  }

  lemma {:induction false} FilenameIs(catalog: seq<Value>, id: string, k: nat)
    requires forall i :: 0 <= i < |catalog| ==> PrivateItem(catalog[i]) && Get(catalog[i].fields, "id").Str?
    requires k < |catalog| && IdOf(catalog[k]) == id
    ensures exists i :: 0 <= i < |catalog| && catalog[i].Obj? && Get(catalog[i].fields, "id") == Str(id)
                        && Get(catalog[i].fields, "filename") == Str(Filename(catalog, id))
  {
    var front, last := catalog[..|catalog| - 1], catalog[|catalog| - 1];
    assert PrivateItem(last) && Get(last.fields, "id").Str?;
    if IdOf(last) != id {
      FilenameIs(front, id, k);
      var i :| 0 <= i < |front| && front[i].Obj? && Get(front[i].fields, "id") == Str(id)
               && Get(front[i].fields, "filename") == Str(Filename(front, id));
      assert catalog[i] == front[i];
    }
  }

  /** An accepted value consists of entries for the items of the catalog. */
  lemma {:induction false} AcceptedAreForItems(value: Value, catalog: seq<Value>, minimum: Value, maximum: Value,
                                               step: Value)
    requires forall i :: 0 <= i < |catalog| ==> catalog[i].Obj? && PrivateItem(catalog[i])
    requires Accepts(value, RuntimeDeclaration(catalog, minimum, maximum, step))
    ensures value.List? && forall i :: 0 <= i < |value.items| ==> ForItem(catalog, value.items[i])
    ensures forall i :: 0 <= i < |catalog| ==> Get(catalog[i].fields, "id").Str?
  {
    hide PublicItem, InSteps, PublicPart, PrivateItem, ForItem, Entry;
    var items := PublicParts(catalog);
    assert RuntimeDeclaration(catalog, minimum, maximum, step)["items"] == List(items);
    forall i | 0 <= i < |catalog| ensures Get(catalog[i].fields, "id").Str? && IdOf(catalog[i]) == IdOf(items[i]) {
      assert PublicItem(items[i]);
      PublicIdentity(catalog[i]);
    }
    forall i | 0 <= i < |value.items| ensures ForItem(catalog, value.items[i]) {
      assert Entry(value.items[i], Exact(maximum), Exact(step));
      SomeItem(Ids(value.items), Ids(items), i);
      var k :| 0 <= k < |items| && Ids(items)[k] == Ids(value.items)[i];
      assert IdOf(catalog[k]) == IdOf(value.items[i]);
      EntryIsFor(catalog, value.items[i], Exact(maximum), Exact(step));
    }
  }

  lemma {:induction false} SomeItem(a: seq<string>, b: seq<string>, i: nat)
    requires multiset(a) == multiset(b) && i < |a|
    ensures exists k :: 0 <= k < |b| && b[k] == a[i]
  {
    assert a[i] in multiset(a) && a[i] in b;
  }

  lemma {:induction false} EntryIsFor(catalog: seq<Value>, entry: Value, maximum: real, step: real)
    requires step != 0.0 && Entry(entry, maximum, step) && exists k ::
               0 <= k < |catalog| && IdOf(catalog[k]) == IdOf(entry)
    ensures ForItem(catalog, entry)
  {
    hide InSteps;
  }

  lemma {:induction false} PublicIdentity(item: Value)
    requires item.Obj? && PublicItem(Obj(PublicPart(item.fields)))
    ensures Get(item.fields, "id").Str? && IdOf(item) == IdOf(Obj(PublicPart(item.fields)))
  {
  }

  function RuntimeDeclaration(catalog: seq<Value>, minimum: Value, maximum: Value, step: Value): Mapping
    requires forall i :: 0 <= i < |catalog| ==> catalog[i].Obj?
  {
    map["items" := List(PublicParts(catalog)), "minimum" := minimum, "maximum" := maximum, "step" := step]
  }

  ghost predicate PrivateCatalog(catalog: Value) {
    catalog.List? && |catalog.items| <= P.MAX_CATALOG && forall i :: 0 <= i < |catalog.items| ==>
      PrivateItem(catalog.items[i])
  }

  /** `loads` counts the loaders created: none when every entry is zero. */
  method ApplyStack(model: Model, catalog: Value, value: Value, minimum: Value, maximum: Value, step: Value)
    returns (r: Option<Model>, loads: nat)
    ensures r.Some? <==>
              PrivateCatalog(catalog) && Accepts(value, RuntimeDeclaration(catalog.items, minimum, maximum, step))
    ensures r.Some? ==> r.value == Applied(model, catalog.items, value.items)
    ensures r.Some? ==> model <= r.value && PatchesAll(catalog.items, value.items, r.value[|model|..])
    ensures r.Some? ==> loads == if forall i :: 0 <= i < |value.items| ==>
            IsZero(value.items[i].fields["strength"]) then 0 else 1
  {
    hide Accepts, PublicParts, PublicPart, RuntimeDeclaration, Filename, PrivateItem, PatchesAll, ForItem;
    loads := 0;
    if !catalog.List? || |catalog.items| > P.MAX_CATALOG { return None, 0; }
    var i := 0;
    while i < |catalog.items|
      invariant 0 <= i <= |catalog.items| && forall k :: 0 <= k < i ==> PrivateItem(catalog.items[k])
    {
      if !PrivateItem(catalog.items[i]) { return None, 0; }
      i := i + 1;
    }
    var configuration := ValidateLoraStack(value, RuntimeDeclaration(catalog.items, minimum, maximum, step));
    if !configuration.Good? { return None, 0; }
    ApplyFacts(model, catalog, value, minimum, maximum, step);
    var entries, patched, j := value.items, model, 0;
    while j < |entries|
      invariant 0 <= j <= |entries| && patched == Applied(model, catalog.items, entries[..j])
      invariant loads == if forall k :: 0 <= k < j ==> IsZero(entries[k].fields["strength"]) then 0 else 1
    {
      var entry := entries[j];
      assert entries[..j + 1][..j] == entries[..j];
      if !IsZero(entry.fields["strength"]) {
        if loads == 0 { loads := 1; }
        patched := patched + [(Filename(catalog.items, IdOf(entry)), entry.fields["strength"])];
      }
      j := j + 1;
    }
    assert entries[..j] == entries;
    r := Some(patched);
  }

  lemma {:induction false} ApplyFacts(model: Model, catalog: Value, value: Value, minimum: Value, maximum: Value,
                                      step: Value)
    requires PrivateCatalog(catalog) && Accepts(value, RuntimeDeclaration(catalog.items, minimum, maximum, step))
    ensures value.List? && forall i :: 0 <= i < |value.items| ==>
                             value.items[i].Obj? && {"id", "strength"} <= value.items[i].fields.Keys
    ensures model <= Applied(model, catalog.items, value.items)
    ensures PatchesAll(catalog.items, value.items, Applied(model, catalog.items, value.items)[|model|..])
  {
    hide Accepts, PublicParts, PublicPart, RuntimeDeclaration, Filename, PatchesAll, ForItem;
    AcceptedEntries(value, RuntimeDeclaration(catalog.items, minimum, maximum, step));
    AcceptedAreForItems(value, catalog.items, minimum, maximum, step);
    AppliedMeans(model, catalog.items, value.items);
  }

  lemma {:induction false} AcceptedEntries(value: Value, declaration: Mapping)
    requires Accepts(value, declaration)
    ensures value.List?
    ensures forall i :: 0 <= i < |value.items| ==>
              value.items[i].Obj? && {"id", "strength"} <= value.items[i].fields.Keys
  {
  }

  /** All entries zero: the model passes through untouched. */
  lemma {:induction false} ZeroIsIdentity(model: Model, catalog: seq<Value>, entries: seq<Value>)
    requires forall i :: 0 <= i < |entries| ==>
      entries[i].Obj? && {"id", "strength"} <= entries[i].fields.Keys && IsZero(entries[i].fields["strength"])
    ensures Applied(model, catalog, entries) == model
  {
    if entries != [] { ZeroIsIdentity(model, catalog, entries[..|entries| - 1]); }
  }

  /** Applying is a fold: two stacks in a row are their concatenation. */
  lemma {:induction false} AppliedInOrder(model: Model, catalog: seq<Value>, a: seq<Value>, b: seq<Value>)
    requires forall i :: 0 <= i < |a| ==> a[i].Obj? && {"id", "strength"} <= a[i].fields.Keys
    requires forall i :: 0 <= i < |b| ==> b[i].Obj? && {"id", "strength"} <= b[i].fields.Keys
    ensures Applied(model, catalog, a + b) == Applied(Applied(model, catalog, a), catalog, b)
  {
    if b == [] {
      assert a + b == a;
    } else {
      assert (a + b)[..|a + b| - 1] == a + b[..|b| - 1];
      AppliedInOrder(model, catalog, a, b[..|b| - 1]);
    }
  }

  // ----- end to end -----

  /** What publishing checks about the frozen node: the same public items, the
      same bounds, and a default of zeros. */
  ghost predicate Frozen(declaration: Mapping, catalog: Value, minimum: Value, maximum: Value, step: Value) {
    && Usable(declaration) && PrivateCatalog(catalog)
    && declaration["items"] == List(PublicParts(catalog.items))
    && declaration["minimum"] == minimum && declaration["maximum"] == maximum && declaration["step"] == step
  }

  /** A stack accepted at compile time is accepted again by the node, for any
      order and any strengths, as long as the catalog is the frozen one. */
  lemma {:induction false} CompiledStackRuns(value: Value, declaration: Mapping, catalog: Value, minimum: Value,
                                             maximum: Value, step: Value)
    requires Accepts(value, declaration) && Frozen(declaration, catalog, minimum, maximum, step)
    ensures PrivateCatalog(catalog) && Accepts(value, RuntimeDeclaration(catalog.items, minimum, maximum, step))
    ensures forall i :: 0 <= i < |value.items| ==> Filename(catalog.items, IdOf(value.items[i])) != ""
    ensures forall i :: 0 <= i < |value.items| ==> ForItem(catalog.items, value.items[i])
  {
    AcceptedAreForItems(value, catalog.items, minimum, maximum, step);
    var d := RuntimeDeclaration(catalog.items, minimum, maximum, step);
    forall i | 0 <= i < |value.items| ensures Filename(catalog.items, IdOf(value.items[i])) != "" {
      var ids := Ids(d["items"].items);
      assert IdOf(value.items[i]) in multiset(Ids(value.items)) by { assert Ids(value.items)[i] in Ids(value.items); }
      var k :| 0 <= k < |ids| && ids[k] == IdOf(value.items[i]);
      assert IdOf(catalog.items[k]) == IdOf(d["items"].items[k]);
      FilenameFound(catalog.items, k);
    }
  }

  lemma {:induction false} FilenameFound(catalog: seq<Value>, k: nat)
    requires k < |catalog| && forall i :: 0 <= i < |catalog| ==> PrivateItem(catalog[i])
    ensures Filename(catalog, IdOf(catalog[k])) != ""
  {
    var last := |catalog| - 1;
    if IdOf(catalog[last]) != IdOf(catalog[k]) {
      assert catalog[..last][k] == catalog[k];
      FilenameFound(catalog[..last], k);
    }
  }
}
