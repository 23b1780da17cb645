/** Published bundles: an editable workflow, a frozen execution graph and a
    manifest that must all describe the same LoRA catalog.  JSON text is modelled
    by what it parses to together with its layout, so that different bytes may
    parse alike, and a digest stands for the bytes it was taken of. */
module Publications {
  import opened SourcePaths

  datatype Option<+T> = None | Some(value: T)

  datatype Result<+T> = Ok(value: T) | Refused(reason: string)

  // ----- documents -----

  datatype Item = Item(id: string, title: string, filename: string,
                       description: Option<string>, trigger: Option<string>, extra: map<string, string>)

  datatype PublicItem = PublicItem(id: string, title: string, description: Option<string>, trigger: Option<string>)

  datatype Entry = Entry(id: string, strength: real)

  /** A widget or input value.  Only two kinds of JSON text matter here. */
  datatype Text =
    | Null
    | Plain(text: string)
    | CatalogJson(items: seq<Item>, layout: nat)
    | DefaultJson(entries: seq<Entry>, layout: nat)

  /** The names of widgets and node inputs.  `Widget(n)` is the n-th of the
      fourteen published widgets: catalog_json, value, minimum, maximum, step,
      parameter_id, instance_uuid, label, description, semantic_role, required,
      advanced, group, order. */
  datatype Field = Widget(n: nat) | OtherField(name: string)

  const CatalogField := Widget(0)
  const ValueField := Widget(1)

  /** `loads` are the files that the node's own native loader inputs activate. */
  datatype WorkflowNode = WorkflowNode(id: string, kind: string, widgetNames: seq<Field>,
                                       values: Option<seq<Text>>, loads: set<string>)

  datatype WorkflowDoc = WorkflowDoc(nodes: seq<WorkflowNode>, subNodes: seq<WorkflowNode>)

  datatype ApiNode = ApiNode(id: string, kind: string, inputs: Option<map<Field, Text>>, loads: set<string>)

  datatype ApiDoc = ApiDoc(nodes: seq<ApiNode>)

  datatype Binding = Binding(nodeId: string, input: Field)

  datatype Declaration = Declaration(id: string, kind: string, bindings: Option<seq<Binding>>, role: string,
                                     required: Option<bool>, items: seq<PublicItem>, default: seq<Entry>,
                                     minimum: real, maximum: real, step: real)

  datatype InventoryEntry = InventoryEntry(usage: string, parameterId: string, items: seq<PublicItem>,
                                           default: seq<Entry>, minimum: real, maximum: real, step: real)

  datatype ManifestDoc = ManifestDoc(publicationId: string, publishedAt: string, sourceId: string,
                                     workflowPath: string, workflowSha: Digest, compiledSha: Option<Digest>,
                                     apiPath: string, apiSha: Digest,
                                     inputs: seq<Declaration>, inventory: Option<seq<InventoryEntry>>)

  datatype Bytes =
    | WorkflowBytes(workflow: WorkflowDoc, layout: nat)
    | ApiBytes(api: ApiDoc, layout: nat)
    | ManifestBytes(manifest: ManifestDoc, layout: nat)
    | Opaque(tag: nat)

  datatype Digest = Sha(bytes: Bytes) | Text(text: string)

  datatype Bundle = Bundle(workflow: Bytes, api: Bytes, manifest: Bytes) {
    function At(part: Part): Bytes {
      match part
      case Workflow => workflow
      case Api => api
      case Manifest => manifest
    }
  }

  datatype Revision = Revision(publicationId: string, workflowSha: Digest, apiSha: Digest, manifestSha: Digest)

  // ----- reading a bundle -----

  const STACK := "CIFLoraStack"

  const WIDGET_COUNT := 14

  function Widgets(): seq<Field> { seq(WIDGET_COUNT, n requires 0 <= n => Widget(n)) }

  /** How many elements satisfy `p`. */
  function Count<T>(s: seq<T>, p: T -> bool): nat {
    if s == [] then 0 else Count(s[..|s| - 1], p) + if p(s[|s| - 1]) then 1 else 0
  }

  function Last<T>(s: seq<T>, p: T -> bool): (r: Option<nat>)
    ensures r.Some? ==> r.value < |s| && p(s[r.value])
  {
    if s == [] then None else if p(s[|s| - 1]) then Some(|s| - 1) else Last(s[..|s| - 1], p)
  }

  /** The index of the only element that satisfies `p`, if there is just one. */
  function Only<T>(s: seq<T>, p: T -> bool): (r: Option<nat>)
    ensures r.Some? ==> r.value < |s| && p(s[r.value])
  {
    if Count(s, p) == 1 then Last(s, p) else None
  }

  lemma {:induction false} CountAtLeast<T>(s: seq<T>, p: T -> bool, i: nat)
    requires i < |s| && p(s[i])
    ensures Count(s, p) >= 1
    ensures forall j :: 0 <= j < |s| && j != i && p(s[j]) ==> Count(s, p) >= 2
  {
    var front := s[..|s| - 1];
    if i < |front| {
      CountAtLeast(front, p, i);
    } else {
      forall j | 0 <= j < |front| && p(s[j]) ensures Count(front, p) >= 1 { CountAtLeast(front, p, j); }
    }
  }

  lemma {:induction false} LastExists<T>(s: seq<T>, p: T -> bool)
    requires Count(s, p) >= 1
    ensures Last(s, p).Some?
  {
    if !p(s[|s| - 1]) { LastExists(s[..|s| - 1], p); }
  }

  /** `Only` finds an index exactly when no other index qualifies. */
  lemma {:induction false} OnlyIs<T>(s: seq<T>, p: T -> bool, i: nat)
    ensures Only(s, p) == Some(i) <==> i < |s| && p(s[i]) && forall j :: 0 <= j < |s| && p(s[j]) ==> j == i
  {
    if Only(s, p) == Some(i) {
      CountAtLeast(s, p, i);
    }
    if i < |s| && p(s[i]) && forall j :: 0 <= j < |s| && p(s[j]) ==> j == i {
      CountAtLeast(s, p, i);
      CountOne(s, p, i);
      LastExists(s, p);
    }
  }

  lemma {:induction false} CountOne<T>(s: seq<T>, p: T -> bool, i: nat)
    requires i < |s| && p(s[i]) && forall j :: 0 <= j < |s| && p(s[j]) ==> j == i
    ensures Count(s, p) == 1
  {
    var front := s[..|s| - 1];
    if i < |front| { CountOne(front, p, i); } else { CountNone(front, p); }
  }

  lemma {:induction false} CountNone<T>(s: seq<T>, p: T -> bool)
    requires forall j :: 0 <= j < |s| ==> !p(s[j])
    ensures Count(s, p) == 0
  {
    if s != [] { CountNone(s[..|s| - 1], p); }
  }

  lemma {:induction false} OnlyUpdate<T>(s: seq<T>, p: T -> bool, i: nat, x: T)
    requires Only(s, p) == Some(i) && p(x)
    ensures Only(s[i := x], p) == Some(i)
  {
    OnlyIs(s, p, i);
    OnlyIs(s[i := x], p, i);
  }

  predicate IsStackNode(n: WorkflowNode) { n.kind == STACK }

  predicate IsStackApiNode(n: ApiNode) { n.kind == STACK }

  predicate IsStackInput(d: Declaration) { d.kind == "lora_stack" }

  function IsEntryOf(parameterId: string): InventoryEntry -> bool {
    (e: InventoryEntry) => e.usage == "public_stack" && e.parameterId == parameterId
  }

  function Public(catalog: seq<Item>): seq<PublicItem> {
    seq(|catalog|, i requires 0 <= i < |catalog| =>
      PublicItem(catalog[i].id, catalog[i].title, catalog[i].description, catalog[i].trigger))
  }

  function ZeroDefaults(catalog: seq<Item>): seq<Entry> {
    seq(|catalog|, i requires 0 <= i < |catalog| => Entry(catalog[i].id, 0.0))
  }

  function InputOf(inputs: map<Field, Text>, name: Field): Text {
    if name in inputs then inputs[name] else Null
  }

  /** Where the stack lives in the three documents, and its private catalog. */
  datatype Located = Located(editable: nat, frozen: nat, declaration: nat, entry: nat, catalog: seq<Item>)

  predicate InventoryAgrees(e: InventoryEntry, d: Declaration) {
    e.items == d.items && e.default == d.default
    && e.minimum == d.minimum && e.maximum == d.maximum && e.step == d.step
  }

  /** The catalog on which the editable node, the frozen node and the public
      declaration agree. */
  function CatalogOf(editable: WorkflowNode, frozen: ApiNode, d: Declaration): (r: Result<seq<Item>>)
    ensures r.Ok? ==> editable.values.Some? && frozen.inputs.Some? && |editable.values.value| == WIDGET_COUNT
  {
    if editable.id != frozen.id || frozen.inputs.None? then Refused("Editable and frozen LoRA nodes differ")
    else if editable.widgetNames != Widgets() || editable.values.None? || |editable.values.value| != WIDGET_COUNT then
      Refused("Unknown editable CIFLoraStack widget layout")
    else if d.bindings != Some([Binding(frozen.id, ValueField)]) then
      Refused("Unknown CIFLoraStack publication binding")
    else if d.role != "lora" || d.required != Some(false) then Refused("Invalid CIFLoraStack publication")
    else
      var inputs, values := frozen.inputs.value, editable.values.value;
      if exists n | 0 <= n < WIDGET_COUNT :: InputOf(inputs, Widget(n)) != values[n] then
        Refused("Editable and frozen CIFLoraStack values differ")
      else if !values[0].CatalogJson? || !values[1].DefaultJson? then Refused("Invalid CIFLoraStack JSON")
      else if |values[0].items| != |values[1].entries| then Refused("Invalid CIFLoraStack catalog/default")
      else if d.items != Public(values[0].items) || d.default != values[1].entries then
        Refused("Published and frozen CIFLoraStack values differ")
      else Ok(values[0].items)
  }

  function Stack(w: WorkflowDoc, a: ApiDoc, m: ManifestDoc): (r: Result<Located>)
    ensures r.Ok? ==> r.value.editable < |w.nodes| && r.value.frozen < |a.nodes| && r.value.declaration < |m.inputs|
                      && m.inventory.Some? && r.value.entry < |m.inventory.value|
                      && CatalogOf(w.nodes[r.value.editable], a.nodes[r.value.frozen], m.inputs[r.value.declaration])
                         == Ok(r.value.catalog)
  {
    var i, j, k := Only(w.nodes, IsStackNode), Only(a.nodes, IsStackApiNode), Only(m.inputs, IsStackInput);
    if i.None? || j.None? || k.None? then Refused("Publication must contain one root CIFLoraStack")
    else
      var declaration := m.inputs[k.value];
      var catalog := CatalogOf(w.nodes[i.value], a.nodes[j.value], declaration);
      if catalog.Refused? then Refused(catalog.reason)
      else
        var entry := if m.inventory.Some? then Only(m.inventory.value, IsEntryOf(declaration.id)) else None;
        if entry.None? || !InventoryAgrees(m.inventory.value[entry.value], declaration) then
          Refused("Technical inventory does not match the LoRA stack")
        else Ok(Located(i.value, j.value, k.value, entry.value, catalog.value))
  }

  function RevisionOf(raw: Bundle): Result<Revision> {
    if raw.manifest.ManifestBytes? then
      Ok(Revision(raw.manifest.manifest.publicationId, Sha(raw.workflow), Sha(raw.api), Sha(raw.manifest)))
    else Refused("Publication artifact is not valid JSON")
  }

  predicate Parses(raw: Bundle) {
    raw.workflow.WorkflowBytes? && raw.api.ApiBytes? && raw.manifest.ManifestBytes?
  }

  /** The companion's own consistency check of a live publication. */
  function Inspect(raw: Bundle, source: string): (r: Result<Located>)
    requires EndsWith(source, ".json")
    ensures r.Ok? ==> Parses(raw) && r == Stack(raw.workflow.workflow, raw.api.api, raw.manifest.manifest)
  {
    if !Parses(raw) then Refused("Publication artifact is not valid JSON")
    else
      var m := raw.manifest.manifest;
      var located := Stack(raw.workflow.workflow, raw.api.api, m);
      if located.Refused? then located
      else if m.sourceId != source || m.workflowPath != source || m.apiPath != PartPath(source, Api) then
        Refused("Publication paths are inconsistent")
      else if m.workflowSha != Sha(raw.workflow) || m.apiSha != Sha(raw.api) then
        Refused("Publication files differ from recorded hashes")
      else located
  }

  // ----- which files a document names -----

  function Filenames(catalog: seq<Item>): set<string> {
    set item | item in catalog :: item.filename
  }

  function CatalogNames(text: Text): set<string> {
    if text.CatalogJson? then Filenames(text.items) else {}
  }

  function NodeNames(n: WorkflowNode): set<string> {
    n.loads + if IsStackNode(n) && n.values.Some? && n.values.value != [] then CatalogNames(n.values.value[0]) else {}
  }

  function ApiNodeNames(n: ApiNode): set<string> {
    n.loads + if IsStackApiNode(n) && n.inputs.Some? then CatalogNames(InputOf(n.inputs.value, CatalogField)) else {}
  }

  /** The model files named by a live document. */
  function Named(b: Bytes): set<string> {
    match b
    case WorkflowBytes(w, _) =>
      (set n, f | n in w.nodes && f in NodeNames(n) :: f) + (set n, f | n in w.subNodes && f in NodeNames(n) :: f)
    case ApiBytes(a, _) => set n, f | n in a.nodes && f in ApiNodeNames(n) :: f
    case _ => {}
  }

  /** A stack other than the published one, or a native loader, needs `f`, or
      cannot be read well enough to tell. */
  predicate ApiReferences(a: ApiDoc, f: string, ignored: string) {
    exists n :: n in a.nodes
      && (f in n.loads
          || (IsStackApiNode(n) && n.id != ignored && n.inputs.Some?
              && CatalogField in n.inputs.value
              && (!n.inputs.value[CatalogField].CatalogJson? || f in CatalogNames(n.inputs.value[CatalogField]))))
  }

  predicate EditableNodeReferences(n: WorkflowNode, f: string, ignored: bool) {
    f in n.loads
    || (IsStackNode(n) && !ignored && n.values.Some? && n.values.value != []
        && (!n.values.value[0].CatalogJson? || f in CatalogNames(n.values.value[0])))
  }

  predicate EditableReferences(w: WorkflowDoc, f: string, ignored: string) {
    (exists n :: n in w.nodes && EditableNodeReferences(n, f, n.id == ignored))
    || (exists n :: n in w.subNodes && EditableNodeReferences(n, f, false))
  }

  // ----- changing a catalog -----

  const MAX_CATALOG := 100
  const MAX_LABEL := 120
  const MAX_TRIGGER_WORD := 1000

  predicate IsSpace(c: char) {
    || '\t' <= c <= '\r' || '\U{1c}' <= c <= ' ' || c == '\U{85}' || c == '\U{a0}' || c == '\U{1680}'
    || '\U{2000}' <= c <= '\U{200a}' || c == '\U{2028}' || c == '\U{2029}' || c == '\U{202f}'
    || c == '\U{205f}' || c == '\U{3000}'
  }

  function Strip(s: string): string {
    if s == "" then ""
    else if IsSpace(s[0]) then Strip(s[1..])
    else if IsSpace(s[|s| - 1]) then Strip(s[..|s| - 1])
    else s
  }

  predicate IsPublicId(s: string) {
    1 <= |s| <= 64 && 'a' <= s[0] <= 'z' && forall c :: c in s ==> 'a' <= c <= 'z' || '0' <= c <= '9' || c == '_'
  }

  predicate IsDigest(s: string) {
    |s| == 64 && forall c :: c in s ==> '0' <= c <= '9' || 'a' <= c <= 'f'
  }

  function LowerAscii(s: string): string {
    seq(|s|, i requires 0 <= i < |s| => if 'A' <= s[i] <= 'Z' then ((s[i] as int) + 32) as char else s[i])
  }

  predicate SafeModelName(s: string) {
    Utf8Length(s) <= 1000 && Normalized(s) && EndsWith(LowerAscii(s), ".safetensors")
  }

  /** A request to change the catalog of every target. */
  datatype Change =
    | Install(id: string, title: string, trigger: string, filename: string, digest: string)
    | Remove(id: string)
    | Edit(id: string, title: string, trigger: string)
    | SetCatalog(items: seq<Item>)

  function OptionalText(text: Option<string>, limit: nat, tooLong: string): (r: Result<Option<string>>) {
    match text
    case None => Ok(None)
    case Some(t) =>
      if Strip(t) == "" then Refused("Invalid LoRA catalog text")
      else if |t| > limit then Refused(tooLong)
      else Ok(Some(Strip(t)))
  }

  /** Validates the complete catalog of a sync request; `present` are the files
      that exist in the model library. */
  function CatalogItems(items: seq<Item>, present: set<string>): (r: Result<seq<Item>>)
    ensures r.Ok? ==> |r.value| == |items|
    ensures r.Ok? ==> Filenames(r.value) <= present
    ensures r.Ok? ==> forall i, j :: 0 <= i < j < |items| ==> r.value[i].id != r.value[j].id
  {
    if items == [] then Ok([])
    else
      var front := CatalogItems(items[..|items| - 1], present);
      if front.Refused? then front
      else
        var item := items[|items| - 1];
        if item.extra != map[] then Refused("Invalid LoRA catalog entry")
        else if !IsPublicId(item.id) || (exists e :: e in front.value && e.id == item.id) then
          Refused("Invalid or duplicate LoRA ID")
        else if !SafeModelName(item.filename) then Refused("Invalid LoRA filename")
        else if item.filename in Filenames(front.value) then Refused("LoRA file is shared by another catalog entry")
        else if item.filename !in present then Refused("LoRA file is missing")
        else if Strip(item.title) == "" then Refused("Invalid LoRA catalog text")
        else if |item.title| > MAX_LABEL then Refused("LoRA title is too long")
        else
          var trigger := OptionalText(item.trigger, MAX_TRIGGER_WORD, "LoRA trigger word is too long");
          var description := OptionalText(item.description, 1000, "Invalid LoRA catalog text");
          if trigger.Refused? then Refused(trigger.reason)
          else if description.Refused? then Refused(description.reason)
          else Ok(front.value + [Item(item.id, Strip(item.title), item.filename, description.value, trigger.value,
            map[])])
  }

  /** What a request needs before any target is looked at. */
  function Validated(change: Change, ownFile: string, staged: bool, present: set<string>): Result<Change> {
    match change
    case Install(id, title, trigger, filename, digest) =>
      if !IsPublicId(id) then Refused("Invalid or duplicate LoRA ID")
      else if Strip(title) == "" || Strip(trigger) == "" then Refused("LoRA title and trigger word are required")
      else if |title| > MAX_LABEL then Refused("LoRA title is too long")
      else if |trigger| > MAX_TRIGGER_WORD then Refused("LoRA trigger word is too long")
      else if filename != ownFile || !IsDigest(digest) then Refused("Invalid LoRA upload declaration")
      else if !staged then Refused("Validated LoRA upload is unavailable")
      else Ok(Install(id, Strip(title), Strip(trigger), filename, digest))
    case SetCatalog(items) =>
      if items == [] || |items| > MAX_CATALOG then Refused("Invalid LoRA catalog")
      else
        var library := CatalogItems(items, present);
        if library.Refused? then Refused(library.reason) else Ok(SetCatalog(library.value))
    case _ => Ok(change)
  }

  function WithId(id: string): Item -> bool { (item: Item) => item.id == id }

  function Without(catalog: seq<Item>, k: nat): seq<Item>
    requires k < |catalog|
  {
    catalog[..k] + catalog[k + 1..]
  }

  function InstallInto(catalog: seq<Item>, id: string, title: string, trigger: string,
                       filename: string): Result<seq<Item>> {
    if exists item :: item in catalog && item.id == id then Refused("Invalid or duplicate LoRA ID")
    else if |catalog| >= MAX_CATALOG then Refused("Invalid LoRA upload declaration")
    else Ok(catalog + [Item(id, title, filename, None, Some(trigger), map[])])
  }

  /** The index of the item to remove. */
  function Removable(catalog: seq<Item>, id: string, w: WorkflowDoc, a: ApiDoc, stackId: string,
                     present: set<string>): (r: Result<nat>)
    ensures r.Ok? ==> r.value < |catalog| && catalog[r.value].id == id
    ensures r.Ok? ==> forall i :: 0 <= i < |catalog| && i != r.value ==>
            catalog[i].filename != catalog[r.value].filename
    ensures r.Ok? ==> !ApiReferences(a, catalog[r.value].filename, stackId)
                      && !EditableReferences(w, catalog[r.value].filename, stackId)
  {
    var found := Only(catalog, WithId(id));
    if found.None? then Refused("LoRA is not in this publication")
    else
      var k, filename := found.value, catalog[found.value].filename;
      if !SafeModelName(filename) then Refused("Invalid LoRA filename")
      else if exists i | 0 <= i < |catalog| :: i != k && catalog[i].filename == filename then
        Refused("LoRA file is shared by another catalog entry")
      else if filename !in present then Refused("LoRA file is missing")
      else if ApiReferences(a, filename, stackId) then Refused("LoRA is used by another active loader in this workflow")
      else if EditableReferences(w, filename, stackId) then
        Refused("LoRA is used by another loader in this authoring workflow")
      else Ok(k)
  }

  /** The index of the item to edit and its new content. */
  function Edited(catalog: seq<Item>, id: string, title: string, trigger: string,
                  present: set<string>): (r: Result<(nat, Item)>)
    ensures r.Ok? ==> r.value.0 < |catalog| && catalog[r.value.0] != r.value.1
                      && catalog[r.value.0].id == r.value.1.id && catalog[r.value.0].filename == r.value.1.filename
  {
    var found := Only(catalog, WithId(id));
    if !IsPublicId(id) then Refused("Invalid LoRA ID")
    else if Strip(title) == "" then Refused("Invalid LoRA title or trigger word")
    else if |title| > MAX_LABEL then Refused("LoRA title is too long")
    else if |trigger| > MAX_TRIGGER_WORD then Refused("LoRA trigger word is too long")
    else if found.None? then Refused("LoRA is not uniquely present in this publication")
    else
      var item, nextTrigger := catalog[found.value], Strip(trigger);
      if !SafeModelName(item.filename) then Refused("Invalid LoRA filename")
      else if item.filename !in present then Refused("LoRA file is missing")
      else if item.title == Strip(title) && (if item.trigger.Some? then item.trigger.value else "") == nextTrigger then
        Refused("LoRA title and trigger word are unchanged")
      else Ok((found.value, item.(title := Strip(title), trigger := if nextTrigger == "" then None
        else Some(nextTrigger))))
  }

  /** The change of one target's catalog, and the file the change is about. */
  function ApplyChange(change: Change, catalog: seq<Item>, w: WorkflowDoc, a: ApiDoc, stackId: string,
                       present: set<string>): Result<(seq<Item>, Option<string>)>
  {
    match change
    case Install(id, title, trigger, filename, digest) =>
      var next := InstallInto(catalog, id, title, trigger, filename);
      if next.Refused? then Refused(next.reason) else Ok((next.value, Some(filename)))
    case Remove(id) =>
      var k := Removable(catalog, id, w, a, stackId, present);
      if k.Refused? then Refused(k.reason)
      else Ok((Without(catalog, k.value), Some(catalog[k.value].filename)))
    case Edit(id, title, trigger) =>
      var edit := Edited(catalog, id, title, trigger, present);
      if edit.Refused? then Refused(edit.reason)
      else Ok((catalog[edit.value.0 := edit.value.1], Some(catalog[edit.value.0].filename)))
    case SetCatalog(library) =>
      if exists item :: item in catalog && !(exists e ::
        e in library && e.id == item.id && e.filename == item.filename) then
        Refused("LoRA catalog change would drop an existing LoRA")
      else if catalog == library then Refused("LoRA catalog is already current")
      else Ok((library, None))
  }

  function EditedNode(n: WorkflowNode, catalog: seq<Item>): (r: WorkflowNode)
    requires n.values.Some? && |n.values.value| >= 2
  {
    n.(values := Some(n.values.value[0 := CatalogJson(catalog, 0)][1 := DefaultJson(ZeroDefaults(catalog), 0)]))
  }

  function FrozenNode(n: ApiNode, catalog: seq<Item>): (r: ApiNode)
    requires n.inputs.Some?
  {
    n.(inputs := Some(n.inputs.value[CatalogField := CatalogJson(catalog, 0)]
                                    [ValueField := DefaultJson(ZeroDefaults(catalog), 0)]))
  }

  function Republished(d: Declaration, catalog: seq<Item>): Declaration {
    d.(items := Public(catalog), default := ZeroDefaults(catalog))
  }

  function Reinventoried(e: InventoryEntry, catalog: seq<Item>): InventoryEntry {
    e.(items := Public(catalog), default := ZeroDefaults(catalog))
  }

  /** Rewrites only the LoRA declaration of the three documents. */
  function Candidate(raw: Bundle, at: Located, catalog: seq<Item>, publicationId: string,
                     publishedAt: string): (r: Bundle)
    requires Parses(raw) && Stack(raw.workflow.workflow, raw.api.api, raw.manifest.manifest) == Ok(at)
    ensures Parses(r)
  {
    var w, a, m := raw.workflow.workflow, raw.api.api, raw.manifest.manifest;
    var w' := WorkflowBytes(w.(nodes := w.nodes[at.editable := EditedNode(w.nodes[at.editable], catalog)]), 0);
    var a' := ApiBytes(a.(nodes := a.nodes[at.frozen := FrozenNode(a.nodes[at.frozen], catalog)]), 0);
    Bundle(w', a', ManifestBytes(m.(
      publicationId := publicationId, publishedAt := publishedAt, compiledSha := None,
      workflowSha := Sha(w'), apiSha := Sha(a'),
      inputs := m.inputs[at.declaration := Republished(m.inputs[at.declaration], catalog)],
      inventory := Some(m.inventory.value[at.entry := Reinventoried(m.inventory.value[at.entry], catalog)])), 0))
  }

  // ----- what a change guarantees -----

  ghost predicate UniqueIds(catalog: seq<Item>) {
    forall i, j :: 0 <= i < j < |catalog| ==> catalog[i].id != catalog[j].id
  }

  /** A candidate passes the very check its predecessor passed, in the same
      places, and publishes exactly the new catalog. */
  lemma {:induction false} CandidatePasses(raw: Bundle, source: string, catalog: seq<Item>, publicationId: string,
                                           publishedAt: string)
    requires EndsWith(source, ".json") && Inspect(raw, source).Ok?
    ensures var at := Inspect(raw, source).value;
            var new' := Candidate(raw, at, catalog, publicationId, publishedAt);
            Inspect(new', source) == Ok(at.(catalog := catalog))
            && RevisionOf(new') == Ok(Revision(publicationId, Sha(new'.workflow), Sha(new'.api), Sha(new'.manifest)))
  {
    hide CatalogOf;
    var at := Inspect(raw, source).value;
    var w, a, m := raw.workflow.workflow, raw.api.api, raw.manifest.manifest;
    var new' := Candidate(raw, at, catalog, publicationId, publishedAt);
    var w', a', m' := new'.workflow.workflow, new'.api.api, new'.manifest.manifest;
    OnlyUpdate(w.nodes, IsStackNode, at.editable, w'.nodes[at.editable]);
    OnlyUpdate(a.nodes, IsStackApiNode, at.frozen, a'.nodes[at.frozen]);
    OnlyUpdate(m.inputs, IsStackInput, at.declaration, m'.inputs[at.declaration]);
    OnlyUpdate(m.inventory.value, IsEntryOf(m.inputs[at.declaration].id), at.entry, m'.inventory.value[at.entry]);
    CatalogIsPublished(w.nodes[at.editable], a.nodes[at.frozen], m.inputs[at.declaration], catalog);
  }

  /** Rewriting the three nodes alike makes them agree on the new catalog. */
  lemma {:induction false} CatalogIsPublished(editable: WorkflowNode, frozen: ApiNode, d: Declaration,
                                              catalog: seq<Item>)
    requires CatalogOf(editable, frozen, d).Ok?
    ensures CatalogOf(EditedNode(editable, catalog), FrozenNode(frozen, catalog), Republished(d, catalog))
            == Ok(catalog)
  {
    var inputs, values := frozen.inputs.value, editable.values.value;
    var inputs', values' := FrozenNode(frozen, catalog).inputs.value, EditedNode(editable, catalog).values.value;
    forall n | 0 <= n < WIDGET_COUNT
      ensures InputOf(inputs', Widget(n)) == values'[n]
    {
      assert InputOf(inputs, Widget(n)) == values[n];
    }
  }

  /** Every change makes a different catalog, so every one of the three files
      changes, whatever the publication identity. */
  lemma {:induction false} CandidateDiffers(raw: Bundle, source: string, catalog: seq<Item>, publicationId: string,
                                            publishedAt: string)
    requires EndsWith(source, ".json") && Inspect(raw, source).Ok?
    requires catalog != Inspect(raw, source).value.catalog
    ensures var new' := Candidate(raw, Inspect(raw, source).value, catalog, publicationId, publishedAt);
            forall part :: new'.At(part) != raw.At(part)
  {
    hide Stack, RevisionOf;
    var at := Inspect(raw, source).value;
    var w, a := raw.workflow.workflow, raw.api.api;
    var new' := Candidate(raw, at, catalog, publicationId, publishedAt);
    assert new'.workflow.workflow.nodes[at.editable].values.value[0].items == catalog;
    assert w.nodes[at.editable].values.value[0].items == at.catalog;
    assert InputOf(a.nodes[at.frozen].inputs.value, CatalogField) == w.nodes[at.editable].values.value[0];
    assert InputOf(new'.api.api.nodes[at.frozen].inputs.value, CatalogField).items == catalog;
    assert raw.manifest.manifest.workflowSha == Sha(raw.workflow);
    assert new'.manifest.manifest.workflowSha == Sha(new'.workflow);
  }

  /** Catalog identifiers stay unique, a sync keeps every (id, file) pair, and
      no accepted change is a no-op. */
  lemma {:induction false} ChangeKeepsCatalog(change: Change, request: Change, catalog: seq<Item>, w: WorkflowDoc,
                                              a: ApiDoc,
                           stackId: string, ownFile: string, staged: bool, present: set<string>)
    requires Validated(request, ownFile, staged, present) == Ok(change)
    requires ApplyChange(change, catalog, w, a, stackId, present).Ok?
    ensures var next := ApplyChange(change, catalog, w, a, stackId, present).value.0;
            && next != catalog
            && (UniqueIds(catalog) ==> UniqueIds(next))
            && (change.SetCatalog? || change.Edit? ==> KeepsPairs(catalog, next))
  {
    hide Strip, ApiReferences, EditableReferences, Utf8Length, LowerAscii;
    var next := ApplyChange(change, catalog, w, a, stackId, present).value.0;
    match change
    case Install(_, _, _, _, _) =>
      assert |next| == |catalog| + 1;
    case Remove(_) =>
      assert |next| == |catalog| - 1;
    case Edit(id, _, _) =>
      EditKeepsPairs(catalog, Edited(catalog, id, change.title, change.trigger, present).value.0, next);
    case SetCatalog(_) =>
  }

  /** No existing (id, file) pair is lost. */
  ghost predicate KeepsPairs(catalog: seq<Item>, next: seq<Item>) {
    forall item :: item in catalog ==> exists e :: e in next && e.id == item.id && e.filename == item.filename
  }

  lemma {:induction false} EditKeepsPairs(catalog: seq<Item>, k: nat, next: seq<Item>)
    requires k < |catalog| == |next| && next == catalog[k := next[k]]
    requires next[k].id == catalog[k].id && next[k].filename == catalog[k].filename
    ensures KeepsPairs(catalog, next)
    ensures UniqueIds(catalog) ==> UniqueIds(next)
  {
    forall item | item in catalog
      ensures exists e :: e in next && e.id == item.id && e.filename == item.filename
    {
      var i :| 0 <= i < |catalog| && catalog[i] == item;
      assert next[i] in next;
    }
  }

  /** The files named after a change: an install adds its own file, a removal
      drops the removed one for good, a sync names only files that exist, and an
      edit names what was named before. */
  ghost predicate NamesFollow(change: Change, file: Option<string>, before: set<string>, after: set<string>,
                              present: set<string>) {
    match change
    case Install(_, _, _, filename, _) => file == Some(filename) && after <= before + {filename}
    case Remove(_) => file.Some? && after <= before - {file.value}
    case Edit(_, _, _) => after <= before
    case SetCatalog(_) => after <= before + present
  }

  lemma {:induction false} CatalogNamesFollow(change: Change, request: Change, catalog: seq<Item>, w: WorkflowDoc,
                                              a: ApiDoc,
                           stackId: string, ownFile: string, staged: bool, present: set<string>)
    requires Validated(request, ownFile, staged, present) == Ok(change)
    requires ApplyChange(change, catalog, w, a, stackId, present).Ok?
    ensures var (next, file) := ApplyChange(change, catalog, w, a, stackId, present).value;
            NamesFollow(change, file, Filenames(catalog), Filenames(next), present)
  {
    hide Strip, ApiReferences, EditableReferences, Utf8Length;
    var next := ApplyChange(change, catalog, w, a, stackId, present).value.0;
    match change
    case Install(_, _, _, filename, _) =>
      forall f | f in Filenames(next) && f != filename ensures f in Filenames(catalog) {
        var i :| 0 <= i < |next| && next[i].filename == f;
        assert catalog[i] in catalog;
      }
    case Remove(id) =>
      RemoveDropsName(catalog, Removable(catalog, id, w, a, stackId, present).value);
    case Edit(id, _, _) =>
      forall f | f in Filenames(next) ensures f in Filenames(catalog) {
        var i :| 0 <= i < |next| && next[i].filename == f;
        assert catalog[i] in catalog;
      }
    case SetCatalog(_) =>
  }

  /** An accepted removal is about an existing file that nothing else in the
      publication needs. */
  lemma {:induction false} RemovalIsClear(change: Change, catalog: seq<Item>, w: WorkflowDoc, a: ApiDoc,
                                          stackId: string, present: set<string>)
    requires change.Remove? && ApplyChange(change, catalog, w, a, stackId, present).Ok?
    ensures var file := ApplyChange(change, catalog, w, a, stackId, present).value.1;
            file.Some? && file.value in present
            && !ApiReferences(a, file.value, stackId) && !EditableReferences(w, file.value, stackId)
  {
    hide ApiReferences, EditableReferences, SafeModelName;
  }

  lemma {:induction false} RemoveDropsName(catalog: seq<Item>, k: nat)
    requires k < |catalog|
    requires forall i :: 0 <= i < |catalog| && i != k ==> catalog[i].filename != catalog[k].filename
    ensures Filenames(Without(catalog, k)) <= Filenames(catalog) - {catalog[k].filename}
  {
  }

  /** The same at the level of the documents on disk. */
  lemma {:induction false} CandidateNames(raw: Bundle, source: string, next: seq<Item>, change: Change,
                                          file: Option<string>,
                       publicationId: string, publishedAt: string, present: set<string>, part: Part)
    requires EndsWith(source, ".json") && Inspect(raw, source).Ok?
    requires NamesFollow(change, file, Filenames(Inspect(raw, source).value.catalog), Filenames(next), present)
    requires change.Remove? ==>
               var stackId := raw.workflow.workflow.nodes[Inspect(raw, source).value.editable].id;
               !EditableReferences(raw.workflow.workflow, file.value, stackId)
                 && !ApiReferences(raw.api.api, file.value, stackId)
    ensures var new' := Candidate(raw, Inspect(raw, source).value, next, publicationId, publishedAt);
            NamesFollow(change, file, Named(raw.At(part)), Named(new'.At(part)), present)
  {
    hide ApiReferences, EditableReferences;
    var at := Inspect(raw, source).value;
    var w, a := raw.workflow.workflow, raw.api.api;
    CatalogIsNamed(w.nodes[at.editable], a.nodes[at.frozen], raw.manifest.manifest.inputs[at.declaration], at.catalog);
    var new' := Candidate(raw, at, next, publicationId, publishedAt);
    match part
    case Workflow => WorkflowNames(w, new'.workflow.workflow, at, next, change, file, present);
    case Api => ApiNames(a, new'.api.api, at, next, change, file, present);
    case Manifest =>
  }

  lemma {:induction false} CatalogIsNamed(editable: WorkflowNode, frozen: ApiNode, d: Declaration, catalog: seq<Item>)
    requires CatalogOf(editable, frozen, d) == Ok(catalog)
    ensures IsStackNode(editable) ==> Filenames(catalog) <= NodeNames(editable)
    ensures IsStackApiNode(frozen) ==> Filenames(catalog) <= ApiNodeNames(frozen)
  {
    assert InputOf(frozen.inputs.value, Widget(0)) == editable.values.value[0];
  }

  lemma {:induction false} WorkflowNames(w: WorkflowDoc, w': WorkflowDoc, at: Located, next: seq<Item>, change: Change,
                                         file: Option<string>,
                      present: set<string>)
    requires Only(w.nodes, IsStackNode) == Some(at.editable)
    requires w.nodes[at.editable].values.Some? && |w.nodes[at.editable].values.value| == WIDGET_COUNT
    requires Filenames(at.catalog) <= NodeNames(w.nodes[at.editable])
    requires w' == w.(nodes := w.nodes[at.editable := EditedNode(w.nodes[at.editable], next)])
    requires NamesFollow(change, file, Filenames(at.catalog), Filenames(next), present)
    requires change.Remove? ==> !EditableReferences(w, file.value, w.nodes[at.editable].id)
    ensures NamesFollow(change, file, Named(WorkflowBytes(w, 0)), Named(WorkflowBytes(w', 0)), present)
  {
    assert w.nodes[at.editable] in w.nodes;
    assert Filenames(at.catalog) <= Named(WorkflowBytes(w, 0));
    forall f | f in Named(WorkflowBytes(w', 0))
      ensures f in Filenames(next) || (f in Named(WorkflowBytes(w, 0)) && (change.Remove? ==> Some(f) != file))
    {
      WorkflowNameStays(w, w', at, next, f);
    }
  }

  lemma {:induction false} ApiNames(a: ApiDoc, a': ApiDoc, at: Located, next: seq<Item>, change: Change,
                                    file: Option<string>, present: set<string>)
    requires Only(a.nodes, IsStackApiNode) == Some(at.frozen)
    requires a.nodes[at.frozen].inputs.Some?
    requires Filenames(at.catalog) <= ApiNodeNames(a.nodes[at.frozen])
    requires a' == a.(nodes := a.nodes[at.frozen := FrozenNode(a.nodes[at.frozen], next)])
    requires NamesFollow(change, file, Filenames(at.catalog), Filenames(next), present)
    requires change.Remove? ==> !ApiReferences(a, file.value, a.nodes[at.frozen].id)
    ensures NamesFollow(change, file, Named(ApiBytes(a, 0)), Named(ApiBytes(a', 0)), present)
  {
    assert a.nodes[at.frozen] in a.nodes;
    assert Filenames(at.catalog) <= Named(ApiBytes(a, 0));
    forall f | f in Named(ApiBytes(a', 0))
      ensures f in Filenames(next) || (f in Named(ApiBytes(a, 0)) && (change.Remove? ==> Some(f) != file))
    {
      ApiNameStays(a, a', at, next, f);
    }
  }

  /** A name in a rewritten workflow comes from the new catalog, or was there
      before and is not exempt from the reference scan. */
  lemma {:induction false} WorkflowNameStays(w: WorkflowDoc, w': WorkflowDoc, at: Located, next: seq<Item>, f: string)
    requires at.editable < |w.nodes| && Only(w.nodes, IsStackNode) == Some(at.editable)
    requires w.nodes[at.editable].values.Some? && |w.nodes[at.editable].values.value| == WIDGET_COUNT
    requires |w'.nodes| == |w.nodes| && w' == w.(nodes := w.nodes[at.editable := w'.nodes[at.editable]])
    requires w'.nodes[at.editable].loads == w.nodes[at.editable].loads
    requires NodeNames(w'.nodes[at.editable]) == w.nodes[at.editable].loads + Filenames(next)
    requires f in Named(WorkflowBytes(w', 0))
    ensures f in Filenames(next)
            || (f in Named(WorkflowBytes(w, 0)) && EditableReferences(w, f, w.nodes[at.editable].id))
  {
    if n :| n in w.subNodes && f in NodeNames(n) {
      assert EditableNodeReferences(n, f, false);
    } else {
      var n :| n in w'.nodes && f in NodeNames(n);
      var i :| 0 <= i < |w'.nodes| && w'.nodes[i] == n;
      if i != at.editable {
        assert w.nodes[i] == n && n in w.nodes;
        OnlyIs(w.nodes, IsStackNode, at.editable);
        assert EditableNodeReferences(n, f, n.id == w.nodes[at.editable].id);
      } else if f !in Filenames(next) {
        var old' := w.nodes[at.editable];
        assert old' in w.nodes && f in NodeNames(old') && EditableNodeReferences(old', f, true);
      }
    }
  }

  lemma {:induction false} ApiNameStays(a: ApiDoc, a': ApiDoc, at: Located, next: seq<Item>, f: string)
    requires at.frozen < |a.nodes| && Only(a.nodes, IsStackApiNode) == Some(at.frozen)
    requires |a'.nodes| == |a.nodes| && a' == a.(nodes := a.nodes[at.frozen := a'.nodes[at.frozen]])
    requires a'.nodes[at.frozen].loads == a.nodes[at.frozen].loads
    requires ApiNodeNames(a'.nodes[at.frozen]) == a.nodes[at.frozen].loads + Filenames(next)
    requires f in Named(ApiBytes(a', 0))
    ensures f in Filenames(next)
            || (f in Named(ApiBytes(a, 0)) && ApiReferences(a, f, a.nodes[at.frozen].id))
  {
    var n :| n in a'.nodes && f in ApiNodeNames(n);
    var i :| 0 <= i < |a'.nodes| && a'.nodes[i] == n;
    if i != at.frozen {
      assert a.nodes[i] == n && n in a.nodes;
      OnlyIs(a.nodes, IsStackApiNode, at.frozen);
    } else if f !in Filenames(next) {
      assert a.nodes[i] in a.nodes && f in a.nodes[i].loads && f in ApiNodeNames(a.nodes[i]);
    }
  }
}
