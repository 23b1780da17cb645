/** What a change of a catalog means, field by field: when it is accepted, what the
    next catalog holds, and what of a publication is rewritten. */
module CatalogChanges {
  import opened SourcePaths
  import opened Publications

  // ----- trimming -----

  predicate Blank(s: string) { forall i :: 0 <= i < |s| ==> IsSpace(s[i]) }

  /** `t` is `s` from `i` up to `j`, and the rest of `s` is blank. */
  ghost predicate TrimmedAt(s: string, t: string, i: nat, j: nat) {
    && i <= j <= |s| && |t| == j - i
    && (forall k :: 0 <= k < |t| ==> t[k] == s[i + k])
    && (forall k :: 0 <= k < i ==> IsSpace(s[k])) && (forall k :: j <= k < |s| ==> IsSpace(s[k]))
  }

  /** `t` is what is left of `s` between the blanks at its ends. */
  ghost predicate Trimmed(s: string, t: string) {
    (t == "" || (!IsSpace(t[0]) && !IsSpace(t[|t| - 1]))) && exists i: nat, j: nat :: TrimmedAt(s, t, i, j)
  }

  lemma {:induction false} StripTrims(s: string)
    ensures Trimmed(s, Strip(s))
    ensures Strip(s) == "" <==> Blank(s)
  {
    hide Trimmed, Blank, IsSpace;
    if s == "" {
      NothingToTrim(s);
    } else if IsSpace(s[0]) {
      StripTrims(s[1..]);
      FrontTrims(s, Strip(s));
    } else if IsSpace(s[|s| - 1]) {
      StripTrims(s[..|s| - 1]);
      BackTrims(s, Strip(s));
    } else {
      NothingToTrim(s);
    }
  }

  lemma {:induction false} NothingToTrim(s: string)
    requires s == "" || (!IsSpace(s[0]) && !IsSpace(s[|s| - 1]))
    ensures Trimmed(s, s) && (s == "" <==> Blank(s))
  {
    hide IsSpace;
    assert TrimmedAt(s, s, 0, |s|);
  }

  lemma {:induction false} FrontTrims(s: string, t: string)
    requires s != "" && IsSpace(s[0]) && Trimmed(s[1..], t)
    ensures Trimmed(s, t) && (Blank(s) <==> Blank(s[1..]))
  {
    hide IsSpace;
    var i: nat, j: nat :| TrimmedAt(s[1..], t, i, j);
    assert forall k :: 0 < k < |s| ==> s[k] == s[1..][k - 1];
    assert TrimmedAt(s, t, i + 1, j + 1);
  }

  lemma {:induction false} BackTrims(s: string, t: string)
    requires s != "" && IsSpace(s[|s| - 1]) && Trimmed(s[..|s| - 1], t)
    ensures Trimmed(s, t) && (Blank(s) <==> Blank(s[..|s| - 1]))
  {
    hide IsSpace;
    var i: nat, j: nat :| TrimmedAt(s[..|s| - 1], t, i, j);
    assert TrimmedAt(s, t, i, j);
  }

  // ----- what the next catalog holds -----

  predicate SameText(raw: Option<string>, text: Option<string>) {
    if raw.None? then text.None? else text == Some(Strip(raw.value))
  }

  /** The item of a sync request with its texts trimmed. */
  predicate SameItem(raw: Item, item: Item) {
    && item.id == raw.id && item.filename == raw.filename && item.title == Strip(raw.title)
    && SameText(raw.trigger, item.trigger) && SameText(raw.description, item.description) && item.extra == map[]
  }

  /** All items but the `k`-th, in order. */
  predicate Drops(catalog: seq<Item>, next: seq<Item>, k: nat) {
    && k < |catalog| && |next| == |catalog| - 1
    && (forall i :: 0 <= i < k ==> next[i] == catalog[i])
    && (forall i :: k <= i < |next| ==> next[i] == catalog[i + 1])
  }

  /** The `k`-th item with another title and trigger word. */
  predicate Retitles(catalog: seq<Item>, next: seq<Item>, k: nat, title: string, trigger: string) {
    && k < |catalog| && |next| == |catalog|
    && (forall i :: 0 <= i < |catalog| && i != k ==> next[i] == catalog[i])
    && next[k].id == catalog[k].id && next[k].filename == catalog[k].filename
    && next[k].description == catalog[k].description && next[k].extra == catalog[k].extra
    && next[k].title == Strip(title)
    && next[k].trigger == if Strip(trigger) == "" then None else Some(Strip(trigger))
  }

  ghost predicate OnlyWithId(catalog: seq<Item>, id: string, k: nat) {
    k < |catalog| && catalog[k].id == id && forall i :: 0 <= i < |catalog| && catalog[i].id == id ==> i == k
  }

  /** The catalog that follows from a request as it came in. */
  ghost predicate Follows(request: Change, catalog: seq<Item>, next: seq<Item>) {
    match request
    case Install(id, title, trigger, filename, _) =>
      && |next| == |catalog| + 1 && (forall i :: 0 <= i < |catalog| ==> next[i] == catalog[i])
      && var item := next[|catalog|];
         && item.id == id && item.title == Strip(title) && item.trigger == Some(Strip(trigger))
         && item.filename == filename && item.description == None && item.extra == map[]
    case Remove(id) => exists k: nat :: OnlyWithId(catalog, id, k) && Drops(catalog, next, k)
    case Edit(id, title, trigger) => exists k: nat ::
      OnlyWithId(catalog, id, k) && Retitles(catalog, next, k, title, trigger)
    case SetCatalog(items) => |next| == |items| && forall i :: 0 <= i < |items| ==> SameItem(items[i], next[i])
  }

  /** The file that a change is about: the uploaded one, that of the item with the
      requested id, or none. */
  ghost predicate IsAbout(request: Change, catalog: seq<Item>, file: Option<string>) {
    match request
    case Install(_, _, _, filename, _) => file == Some(filename)
    case Remove(id) => exists k: nat :: OnlyWithId(catalog, id, k) && file == Some(catalog[k].filename)
    case Edit(id, _, _) => exists k: nat :: OnlyWithId(catalog, id, k) && file == Some(catalog[k].filename)
    case SetCatalog(_) => file == None
  }

  // ----- when a request is accepted -----

  ghost predicate ValidText(text: Option<string>, limit: nat) {
    text.None? || (!Blank(text.value) && |text.value| <= limit)
  }

  ghost predicate ValidItem(item: Item, present: set<string>) {
    && item.extra == map[] && IsPublicId(item.id)
    && SafeModelName(item.filename) && item.filename in present
    && ValidText(Some(item.title), 120) && ValidText(item.trigger, 1000) && ValidText(item.description, 1000)
  }

  ghost predicate ValidItems(items: seq<Item>, present: set<string>) {
    && (forall i :: 0 <= i < |items| ==> ValidItem(items[i], present))
    && (forall i, j :: 0 <= i < j < |items| ==> items[i].id != items[j].id && items[i].filename != items[j].filename)
  }

  /** A request that is valid before any publication is looked at. */
  ghost predicate Acceptable(request: Change, ownFile: string, staged: bool, present: set<string>) {
    match request
    case Install(id, title, trigger, filename, digest) =>
      && IsPublicId(id) && ValidText(Some(title), 120) && ValidText(Some(trigger), 1000)
      && filename == ownFile && IsDigest(digest) && staged
    case SetCatalog(items) => 1 <= |items| <= 100 && ValidItems(items, present)
    case _ => true
  }

  lemma {:induction false} StrippedIsEmpty(s: string)
    ensures Strip(s) == "" <==> Blank(s)
  {
    StripTrims(s);
  }

  lemma {:induction false} OptionalTextMeans(text: Option<string>, limit: nat, tooLong: string)
    ensures OptionalText(text, limit, tooLong).Ok? <==> ValidText(text, limit)
    ensures OptionalText(text, limit, tooLong).Ok? ==> SameText(text, OptionalText(text, limit, tooLong).value)
  {
    if text.Some? { StrippedIsEmpty(text.value); }
  }

  /** A sync request is accepted exactly when all its items are valid and no two
      share an id or a file, and then gives its items with trimmed texts. */
  lemma {:induction false} CatalogItemsMeans(items: seq<Item>, present: set<string>)
    ensures CatalogItems(items, present).Ok? <==> ValidItems(items, present)
    ensures CatalogItems(items, present).Ok? ==>
              forall i :: 0 <= i < |items| ==> SameItem(items[i], CatalogItems(items, present).value[i])
  {
    hide Strip, SafeModelName, IsPublicId, Blank, SameText, ValidItems, Filenames, OptionalText;
    if items == [] {
      NothingIsValid(present);
    } else {
      var front, item := items[..|items| - 1], items[|items| - 1];
      CatalogItemsMeans(front, present);
      StrippedIsEmpty(item.title);
      OptionalTextMeans(item.trigger, MAX_TRIGGER_WORD, "LoRA trigger word is too long");
      OptionalTextMeans(item.description, 1000, "Invalid LoRA catalog text");
      FrontIsValid(items, present);
      if CatalogItems(front, present).Ok? { SharedWithFront(front, CatalogItems(front, present).value, item); }
    }
  }

  lemma {:induction false} NothingIsValid(present: set<string>)
    ensures ValidItems([], present)
  {
  }

  lemma {:induction false} FrontIsValid(items: seq<Item>, present: set<string>)
    requires items != []
    ensures var front, last := items[..|items| - 1], items[|items| - 1];
            ValidItems(items, present) <==>
              ValidItems(front, present) && ValidItem(last, present)
              && forall i :: 0 <= i < |front| ==> front[i].id != last.id && front[i].filename != last.filename
  {
    hide ValidItem;
  }

  lemma {:induction false} SharedWithFront(raw: seq<Item>, items: seq<Item>, item: Item)
    requires |raw| == |items| && forall i :: 0 <= i < |raw| ==> SameItem(raw[i], items[i])
    ensures (exists e :: e in items && e.id == item.id) <==> exists i :: 0 <= i < |raw| && raw[i].id == item.id
    ensures item.filename in Filenames(items) <==> exists i :: 0 <= i < |raw| && raw[i].filename == item.filename
  {
    hide Strip, SameText;
    forall i | 0 <= i < |raw| ensures items[i] in items && items[i].id == raw[i].id
      && items[i].filename == raw[i].filename {
    }
  }

  /** Validation accepts exactly the acceptable requests. */
  lemma {:induction false} ValidatedMeans(request: Change, ownFile: string, staged: bool, present: set<string>)
    ensures Validated(request, ownFile, staged, present).Ok? <==> Acceptable(request, ownFile, staged, present)
  {
    hide Strip, Blank, CatalogItems, ValidItems, IsPublicId, IsDigest;
    match request
    case Install(_, title, trigger, _, _) =>
      StrippedIsEmpty(title);
      StrippedIsEmpty(trigger);
    case SetCatalog(items) => CatalogItemsMeans(items, present);
    case _ =>
  }

  ghost predicate HasPair(items: seq<Item>, id: string, filename: string) {
    exists j :: 0 <= j < |items| && items[j].id == id && items[j].filename == filename
  }

  /** A valid request that this publication can take: an installation needs a new
      id and room; a removal or an edit needs exactly one item with the id and its
      file in the library; a removal also needs that nothing else in the
      publication uses the file; an edit and a sync need to change something, and
      a sync must keep every item's id and file. */
  ghost predicate Applicable(request: Change, catalog: seq<Item>, w: WorkflowDoc, a: ApiDoc, stackId: string,
                             present: set<string>) {
    match request
    case Install(id, _, _, _, _) => |catalog| < 100 && forall i :: 0 <= i < |catalog| ==> catalog[i].id != id
    case Remove(id) =>
      exists k: nat :: OnlyWithId(catalog, id, k) && SafeModelName(catalog[k].filename)
        && catalog[k].filename in present
                  && (forall i :: 0 <= i < |catalog| && i != k ==> catalog[i].filename != catalog[k].filename)
                  && !ApiReferences(a, catalog[k].filename, stackId)
                  && !EditableReferences(w, catalog[k].filename, stackId)
    case Edit(id, title, trigger) =>
      IsPublicId(id) && ValidText(Some(title), 120) && |trigger| <= 1000
      && exists k: nat ::
           && OnlyWithId(catalog, id, k) && SafeModelName(catalog[k].filename) && catalog[k].filename in present
           && !(catalog[k].title == Strip(title)
                && (if catalog[k].trigger.Some? then catalog[k].trigger.value else "") == Strip(trigger))
    case SetCatalog(items) =>
      && (forall i :: 0 <= i < |catalog| ==> HasPair(items, catalog[i].id, catalog[i].filename))
      && !(|items| == |catalog| && forall i :: 0 <= i < |items| ==> SameItem(items[i], catalog[i]))
  }

  lemma {:induction false} FoundIs(catalog: seq<Item>, id: string)
    ensures forall k: nat :: Only(catalog, WithId(id)) == Some(k) <==> OnlyWithId(catalog, id, k)
    ensures Only(catalog, WithId(id)).Some? ==> OnlyWithId(catalog, id, Only(catalog, WithId(id)).value)
  {
    hide Only;
    forall k: nat ensures Only(catalog, WithId(id)) == Some(k) <==> OnlyWithId(catalog, id, k) {
      OnlyIs(catalog, WithId(id), k);
    }
  }

  /** A validated request is applied exactly where it is applicable, and then the
      next catalog and the file are those that follow from it. */
  lemma {:induction false} AppliedMeans(request: Change, change: Change, ownFile: string, staged: bool,
                                        catalog: seq<Item>,
                                        w: WorkflowDoc, a: ApiDoc, stackId: string, present: set<string>)
    requires Validated(request, ownFile, staged, present) == Ok(change)
    ensures var r := ApplyChange(change, catalog, w, a, stackId, present);
            && (r.Ok? <==> Applicable(request, catalog, w, a, stackId, present))
            && (r.Ok? ==> Follows(request, catalog, r.value.0) && IsAbout(request, catalog, r.value.1))
  {
    hide Strip, CatalogItems, ApplyChange, IsPublicId, IsDigest, Applicable, Follows, IsAbout;
    match request
    case Install(id, title, trigger, filename, digest) =>
      InstallationMeans(id, title, trigger, filename, digest, catalog, w, a, stackId, present);
    case Remove(id) => RemovalMeans(id, catalog, w, a, stackId, present);
    case Edit(id, title, trigger) => EditMeans(id, title, trigger, catalog, w, a, stackId, present);
    case SetCatalog(items) =>
      SyncMeans(items, catalog, w, a, stackId, present);
      SyncIsAboutNothing(items, catalog);
  }

  lemma {:induction false} InstallationMeans(id: string, title: string, trigger: string, filename: string,
                                             digest: string,
                                             catalog: seq<Item>, w: WorkflowDoc, a: ApiDoc, stackId: string,
                                               present: set<string>)
    ensures var request := Install(id, title, trigger, filename, digest);
            var r := ApplyChange(Install(id, Strip(title), Strip(trigger), filename, digest), catalog, w, a, stackId,
              present);
            && (r.Ok? <==> Applicable(request, catalog, w, a, stackId, present))
            && (r.Ok? ==> Follows(request, catalog, r.value.0) && IsAbout(request, catalog, r.value.1))
  {
    hide Strip;
  }

  lemma {:induction false} RemovalMeans(id: string, catalog: seq<Item>, w: WorkflowDoc, a: ApiDoc, stackId: string,
                                        present: set<string>)
    ensures var r := ApplyChange(Remove(id), catalog, w, a, stackId, present);
            && (r.Ok? <==> Applicable(Remove(id), catalog, w, a, stackId, present))
            && (r.Ok? ==> Follows(Remove(id), catalog, r.value.0) && IsAbout(Remove(id), catalog, r.value.1))
  {
    hide ApiReferences, EditableReferences, SafeModelName, Only, OnlyWithId;
    FoundIs(catalog, id);
  }

  lemma {:induction false} EditMeans(id: string, title: string, trigger: string, catalog: seq<Item>, w: WorkflowDoc,
                                     a: ApiDoc,
                                     stackId: string, present: set<string>)
    ensures var request := Edit(id, title, trigger);
            var r := ApplyChange(request, catalog, w, a, stackId, present);
            && (r.Ok? <==> Applicable(request, catalog, w, a, stackId, present))
            && (r.Ok? ==> Follows(request, catalog, r.value.0) && IsAbout(request, catalog, r.value.1))
  {
    hide Strip, Blank, SafeModelName, IsPublicId, Only, OnlyWithId;
    FoundIs(catalog, id);
    StrippedIsEmpty(title);
  }

  lemma {:induction false} SyncIsAboutNothing(items: seq<Item>, catalog: seq<Item>)
    ensures IsAbout(SetCatalog(items), catalog, None)
  {
  }

  lemma {:induction false} SyncMeans(items: seq<Item>, catalog: seq<Item>, w: WorkflowDoc, a: ApiDoc, stackId: string,
                                     present: set<string>)
    requires CatalogItems(items, present).Ok?
    ensures var library := CatalogItems(items, present).value;
            var r := ApplyChange(SetCatalog(library), catalog, w, a, stackId, present);
            && (r.Ok? <==> Applicable(SetCatalog(items), catalog, w, a, stackId, present))
            && (r.Ok? ==> Follows(SetCatalog(items), catalog, r.value.0) && r.value.1 == None)
  {
    hide Strip, CatalogItems, SameText;
    CatalogItemsMeans(items, present);
    var library := CatalogItems(items, present).value;
    SyncKeeps(items, library, catalog);
    SameItemsAreEqual(items, library, catalog);
  }

  /** A sync keeps the items of its library exactly when it keeps those of the request. */
  lemma {:induction false} SyncKeeps(items: seq<Item>, library: seq<Item>, catalog: seq<Item>)
    requires |items| == |library| && forall i :: 0 <= i < |items| ==> SameItem(items[i], library[i])
    ensures (exists item :: item in catalog && !(exists e ::
              e in library && e.id == item.id && e.filename == item.filename))
            <==> !(forall i :: 0 <= i < |catalog| ==> HasPair(items, catalog[i].id, catalog[i].filename))
  {
    hide HasPair, SameItem;
    forall item: Item ensures (exists e :: e in library && e.id == item.id && e.filename == item.filename)
                        <==> HasPair(items, item.id, item.filename)
    {
      PairIsKept(items, library, item.id, item.filename);
    }
    if i :| 0 <= i < |catalog| && !HasPair(items, catalog[i].id, catalog[i].filename) {
      assert catalog[i] in catalog;
    }
  }

  lemma {:induction false} PairIsKept(items: seq<Item>, library: seq<Item>, id: string, filename: string)
    requires |items| == |library| && forall i :: 0 <= i < |items| ==> SameItem(items[i], library[i])
    ensures (exists e :: e in library && e.id == id && e.filename == filename) <==> HasPair(items, id, filename)
  {
    hide Strip, SameText;
    if j :| 0 <= j < |items| && items[j].id == id && items[j].filename == filename {
      assert library[j] in library;
    }
  }

  lemma {:induction false} SameItemsAreEqual(items: seq<Item>, library: seq<Item>, catalog: seq<Item>)
    requires |items| == |library| && forall i :: 0 <= i < |items| ==> SameItem(items[i], library[i])
    ensures catalog == library <==> |items| == |catalog| && forall i :: 0 <= i < |items| ==>
            SameItem(items[i], catalog[i])
  {
    hide Strip;
    if |items| == |catalog| && forall i :: 0 <= i < |items| ==> SameItem(items[i], catalog[i]) {
      forall i | 0 <= i < |items| ensures catalog[i] == library[i] {
      }
    }
  }

  // ----- what a consistent publication is -----

  ghost predicate OnlyAt<T>(s: seq<T>, p: T -> bool, i: nat) {
    i < |s| && p(s[i]) && forall j :: 0 <= j < |s| && p(s[j]) ==> j == i
  }

  /** The public part of every item, in order; no file is published. */
  predicate PublicParts(catalog: seq<Item>, items: seq<PublicItem>) {
    && |items| == |catalog|
    && forall i :: 0 <= i < |catalog| ==>
         items[i].id == catalog[i].id && items[i].title == catalog[i].title
         && items[i].description == catalog[i].description && items[i].trigger == catalog[i].trigger
  }

  /** One entry of strength zero for every item, in order. */
  predicate AllOff(catalog: seq<Item>, entries: seq<Entry>) {
    |entries| == |catalog| && forall i :: 0 <= i < |catalog| ==>
      entries[i].id == catalog[i].id && entries[i].strength == 0.0
  }

  /** The editable node, the frozen node and the declaration agree on all fourteen
      widgets, on the catalog and on the defaults. */
  ghost predicate Agree(editable: WorkflowNode, frozen: ApiNode, d: Declaration, catalog: seq<Item>) {
    && editable.id == frozen.id && frozen.inputs.Some? && editable.values.Some?
    && |editable.widgetNames| == 14 && (forall n :: 0 <= n < 14 ==> editable.widgetNames[n] == Widget(n))
    && |editable.values.value| == 14
    && (forall n :: 0 <= n < 14 ==>
          if Widget(n) in frozen.inputs.value then frozen.inputs.value[Widget(n)] == editable.values.value[n]
          else editable.values.value[n] == Null)
    && d.bindings.Some? && |d.bindings.value| == 1 && d.bindings.value[0] == Binding(frozen.id, Widget(1))
    && d.role == "lora" && d.required == Some(false)
    && editable.values.value[0].CatalogJson? && editable.values.value[0].items == catalog
    && editable.values.value[1].DefaultJson? && editable.values.value[1].entries == d.default
    && |d.default| == |catalog| && PublicParts(catalog, d.items)
  }

  /** One stack in each document, described alike, with recorded paths and hashes
      that are those of the files. */
  ghost predicate Consistent(raw: Bundle, source: string, at: Located)
    requires EndsWith(source, ".json")
  {
    && raw.workflow.WorkflowBytes? && raw.api.ApiBytes? && raw.manifest.ManifestBytes?
    && var w, a, m := raw.workflow.workflow, raw.api.api, raw.manifest.manifest;
       && OnlyAt(w.nodes, IsStackNode, at.editable) && OnlyAt(a.nodes, IsStackApiNode, at.frozen)
       && OnlyAt(m.inputs, IsStackInput, at.declaration)
       && m.inventory.Some? && OnlyAt(m.inventory.value, IsEntryOf(m.inputs[at.declaration].id), at.entry)
       && var d, e := m.inputs[at.declaration], m.inventory.value[at.entry];
          && Agree(w.nodes[at.editable], a.nodes[at.frozen], d, at.catalog)
          && e.items == d.items && e.default == d.default && e.minimum == d.minimum && e.maximum == d.maximum
          && e.step == d.step
          && m.sourceId == source && m.workflowPath == source && m.apiPath == PartPath(source, Api)
          && m.workflowSha == Sha(raw.workflow) && m.apiSha == Sha(raw.api)
  }

  lemma {:induction false} OnlyMeans<T>(s: seq<T>, p: T -> bool)
    ensures forall i: nat :: Only(s, p) == Some(i) <==> OnlyAt(s, p, i)
    ensures Only(s, p).Some? ==> OnlyAt(s, p, Only(s, p).value)
  {
    hide Only;
    forall i: nat ensures Only(s, p) == Some(i) <==> OnlyAt(s, p, i) { OnlyIs(s, p, i); }
  }

  lemma {:induction false} PublicMeans(catalog: seq<Item>, items: seq<PublicItem>)
    ensures items == Public(catalog) <==> PublicParts(catalog, items)
  {
  }

  lemma {:induction false} AgreeMeans(editable: WorkflowNode, frozen: ApiNode, d: Declaration, catalog: seq<Item>)
    ensures CatalogOf(editable, frozen, d) == Ok(catalog) <==> Agree(editable, frozen, d, catalog)
  {
    hide Public, PublicParts;
    assert |Widgets()| == 14 && forall n :: 0 <= n < 14 ==> Widgets()[n] == Widget(n);
    assert editable.widgetNames == Widgets() <==>
      |editable.widgetNames| == 14 && forall n :: 0 <= n < 14 ==> editable.widgetNames[n] == Widget(n);
    if editable.values.Some? && editable.values.value != [] && editable.values.value[0].CatalogJson? {
      PublicMeans(editable.values.value[0].items, d.items);
    }
    PublicMeans(catalog, d.items);
    if d.bindings.Some? && |d.bindings.value| == 1 { assert d.bindings.value == [d.bindings.value[0]]; }
    forall n | 0 <= n < 14 && frozen.inputs.Some? && editable.values.Some? && |editable.values.value| == 14
      ensures InputOf(frozen.inputs.value, Widget(n)) == editable.values.value[n] <==>
              if Widget(n) in frozen.inputs.value then frozen.inputs.value[Widget(n)] == editable.values.value[n]
              else editable.values.value[n] == Null
    {
    }
  }

  /** The companion's check accepts exactly the consistent publications, and finds
      where the stack is and what its catalog is. */
  lemma {:induction false} InspectMeans(raw: Bundle, source: string, at: Located)
    requires EndsWith(source, ".json")
    ensures Inspect(raw, source) == Ok(at) <==> Consistent(raw, source, at)
  {
    hide CatalogOf, Agree, Only, OnlyAt, PartPath;
    if Parses(raw) {
      var w, a, m := raw.workflow.workflow, raw.api.api, raw.manifest.manifest;
      OnlyMeans(w.nodes, IsStackNode);
      OnlyMeans(a.nodes, IsStackApiNode);
      OnlyMeans(m.inputs, IsStackInput);
      var i, j, k := Only(w.nodes, IsStackNode), Only(a.nodes, IsStackApiNode), Only(m.inputs, IsStackInput);
      if i.Some? && j.Some? && k.Some? {
        if m.inventory.Some? { OnlyMeans(m.inventory.value, IsEntryOf(m.inputs[k.value].id)); }
        AgreeMeans(w.nodes[i.value], a.nodes[j.value], m.inputs[k.value], at.catalog);
      }
      OnlyAtIsIn(w.nodes, IsStackNode, at.editable);
      OnlyAtIsIn(a.nodes, IsStackApiNode, at.frozen);
      OnlyAtIsIn(m.inputs, IsStackInput, at.declaration);
    }
  }

  lemma {:induction false} OnlyAtIsIn<T>(s: seq<T>, p: T -> bool, i: nat)
    ensures OnlyAt(s, p, i) ==> i < |s|
  {
  }

  // ----- what a candidate rewrites -----

  predicate SameBut<T(==)>(s: seq<T>, t: seq<T>, k: nat) {
    |s| == |t| && k < |s| && forall i :: 0 <= i < |s| && i != k ==> t[i] == s[i]
  }

  predicate RewritesEditable(n: WorkflowNode, n': WorkflowNode, catalog: seq<Item>) {
    && n'.id == n.id && n'.kind == n.kind && n'.widgetNames == n.widgetNames && n'.loads == n.loads
    && n.values.Some? && n'.values.Some? && |n.values.value| == |n'.values.value| >= 2
    && (forall i :: 2 <= i < |n.values.value| ==> n'.values.value[i] == n.values.value[i])
    && n'.values.value[0].CatalogJson? && n'.values.value[0].items == catalog
    && n'.values.value[1].DefaultJson? && AllOff(catalog, n'.values.value[1].entries)
  }

  ghost predicate RewritesFrozen(n: ApiNode, n': ApiNode, catalog: seq<Item>) {
    && n'.id == n.id && n'.kind == n.kind && n'.loads == n.loads && n.inputs.Some? && n'.inputs.Some?
    && n'.inputs.value.Keys == n.inputs.value.Keys + {Widget(0), Widget(1)}
    && (forall f :: f in n.inputs.value && f != Widget(0) && f != Widget(1) ==> n'.inputs.value[f] == n.inputs.value[f])
    && n'.inputs.value[Widget(0)].CatalogJson? && n'.inputs.value[Widget(0)].items == catalog
    && n'.inputs.value[Widget(1)].DefaultJson? && AllOff(catalog, n'.inputs.value[Widget(1)].entries)
  }

  predicate RewritesDeclaration(d: Declaration, d': Declaration, catalog: seq<Item>) {
    && d'.id == d.id && d'.kind == d.kind && d'.bindings == d.bindings && d'.role == d.role && d'.required == d.required
    && d'.minimum == d.minimum && d'.maximum == d.maximum && d'.step == d.step
    && PublicParts(catalog, d'.items) && AllOff(catalog, d'.default)
  }

  predicate RewritesEntry(e: InventoryEntry, e': InventoryEntry, catalog: seq<Item>) {
    && e'.usage == e.usage && e'.parameterId == e.parameterId
    && e'.minimum == e.minimum && e'.maximum == e.maximum && e'.step == e.step
    && PublicParts(catalog, e'.items) && AllOff(catalog, e'.default)
  }

  /** `after` is `before` with another catalog, all of it off, under another identity
      and with its own hashes; everything else is as it was. */
  ghost predicate Rewrites(before: Bundle, after: Bundle, at: Located, catalog: seq<Item>, publicationId: string,
                           publishedAt: string) {
    && Parses(before) && Parses(after)
    && var w, w' := before.workflow.workflow, after.workflow.workflow;
       var a, a' := before.api.api, after.api.api;
       var m, m' := before.manifest.manifest, after.manifest.manifest;
       && w'.subNodes == w.subNodes && SameBut(w.nodes, w'.nodes, at.editable)
       && RewritesEditable(w.nodes[at.editable], w'.nodes[at.editable], catalog)
       && SameBut(a.nodes, a'.nodes, at.frozen) && RewritesFrozen(a.nodes[at.frozen], a'.nodes[at.frozen], catalog)
       && m'.publicationId == publicationId && m'.publishedAt == publishedAt && m'.sourceId == m.sourceId
       && m'.workflowPath == m.workflowPath && m'.workflowSha == Sha(after.workflow) && m'.compiledSha == None
       && m'.apiPath == m.apiPath && m'.apiSha == Sha(after.api)
       && SameBut(m.inputs, m'.inputs, at.declaration)
       && RewritesDeclaration(m.inputs[at.declaration], m'.inputs[at.declaration], catalog)
       && m.inventory.Some? && m'.inventory.Some? && SameBut(m.inventory.value, m'.inventory.value, at.entry)
       && RewritesEntry(m.inventory.value[at.entry], m'.inventory.value[at.entry], catalog)
  }

  lemma {:induction false} DefaultsAreOff(catalog: seq<Item>)
    ensures AllOff(catalog, ZeroDefaults(catalog)) && PublicParts(catalog, Public(catalog))
  {
    PublicMeans(catalog, Public(catalog));
  }

  /** A candidate rewrites the catalog of its predecessor and nothing else. */
  lemma {:induction false} CandidateRewrites(raw: Bundle, source: string, catalog: seq<Item>, publicationId: string,
                                             publishedAt: string)
    requires EndsWith(source, ".json") && Inspect(raw, source).Ok?
    ensures var at := Inspect(raw, source).value;
            Rewrites(raw, Candidate(raw, at, catalog, publicationId, publishedAt), at, catalog, publicationId,
              publishedAt)
  {
    hide PublicParts, AllOff, Public, ZeroDefaults, CatalogOf, Only, PartPath;
    DefaultsAreOff(catalog);
  }

  /** Equal revisions are revisions of equal files. */
  lemma {:induction false} RevisionIdentifies(a: Bundle, b: Bundle)
    ensures RevisionOf(a).Ok? && RevisionOf(a) == RevisionOf(b) <==> a == b && a.manifest.ManifestBytes?
    ensures RevisionOf(a).Ok? ==> RevisionOf(a).value.publicationId == a.manifest.manifest.publicationId
  {
  }
}
