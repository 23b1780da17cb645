/** What prepare computes for each target before it writes anything, and what
    it may rely on afterwards. */
module Preparation {
  import opened SourcePaths
  import opened Publications
  import opened CatalogChanges
  import opened Transaction
  import opened CrashAtomicity
  import opened WeightSafety

  /** One target with its live files and their successors. */
  datatype Draft = Draft(requested: Requested, raw: Bundle, at: Located, next: seq<Item>, file: Option<string>,
                         candidate: Bundle)
  {
    function Bytes(g: Generation, part: Part): Bytes { if g.Before? then raw.At(part) else candidate.At(part) }

    function Journaled(): Target
      requires raw.manifest.ManifestBytes? && candidate.manifest.ManifestBytes?
    {
      Target(requested.source, RevisionOf(raw).value, RevisionOf(candidate).value)
    }
  }

  function LibraryFiles(d: Disk): set<string> {
    set place | place in d.weights.Keys && place.Library? :: place.filename
  }

  function BundleIn(live: map<string, Bytes>, source: string): (r: Result<Bundle>)
    requires EndsWith(source, ".json")
    ensures r.Ok? ==> forall part :: PartPath(source, part) in live && live[PartPath(source, part)] == r.value.At(part)
  {
    var w, a, m := PartPath(source, Workflow), PartPath(source, Api), PartPath(source, Manifest);
    if w in live && a in live && m in live then Ok(Bundle(live[w], live[a], live[m]))
    else Refused("Publication file is missing or unsafe")
  }

  /** The draft of one target, from the files as they are. */
  function DraftOf(d: Disk, change: Change, publishedAt: string, target: Requested): (r: Result<Draft>)
    requires EndsWith(target.source, ".json")
  {
    var raw := BundleIn(d.live, target.source);
    if raw.Refused? then Refused(raw.reason)
    else
      var revision, at := RevisionOf(raw.value), Inspect(raw.value, target.source);
      if revision.Refused? then Refused(revision.reason)
      else if revision.value != target.expected then Refused("Publication revision changed")
      else if at.Refused? then Refused(at.reason)
      else
        var w, a := raw.value.workflow.workflow, raw.value.api.api;
        var changed := ApplyChange(change, at.value.catalog, w, a, w.nodes[at.value.editable].id, LibraryFiles(d));
        if changed.Refused? then Refused(changed.reason)
        else
          var candidate := Candidate(raw.value, at.value, changed.value.0, target.publicationId, publishedAt);
          Ok(Draft(target, raw.value, at.value, changed.value.0, changed.value.1, candidate))
  }

  lemma {:induction false} DraftFacts(d: Disk, change: Change, publishedAt: string, target: Requested)
    requires EndsWith(target.source, ".json") && DraftOf(d, change, publishedAt, target).Ok?
    ensures var t := DraftOf(d, change, publishedAt, target).value;
            && t.requested == target && BundleIn(d.live, target.source) == Ok(t.raw)
            && RevisionOf(t.raw) == Ok(target.expected)
            && Inspect(t.raw, target.source) == Ok(t.at)
            && ApplyChange(change, t.at.catalog, t.raw.workflow.workflow, t.raw.api.api,
                           t.raw.workflow.workflow.nodes[t.at.editable].id, LibraryFiles(d)) == Ok((t.next, t.file))
            && t.candidate == Candidate(t.raw, t.at, t.next, target.publicationId, publishedAt)
  {
    hide Inspect, ApplyChange, Candidate, BundleIn;
  }

  /** The change as validated against the disk: an installation needs its own
      upload to be staged. */
  function ValidatedOn(d: Disk, op: OpId, request: Change): Result<Change> {
    Validated(request, OwnFile(op), Staged(d, op, request), LibraryFiles(d))
  }

  function OwnFile(op: OpId): string { "cif-managed/" + op + ".safetensors" }

  predicate Staged(d: Disk, op: OpId, change: Change) {
    change.Install? && Upload(op) in d.weights && d.weights[Upload(op)] == change.digest
  }

  /** The candidate passes the companion's own check with the new catalog and
      under the requested identity, differs from the live publication in every
      file, keeps identifiers unique and, for an edit or a sync, keeps every
      (id, file) pair. */
  lemma {:induction false} DraftIsSound(d: Disk, op: OpId, request: Change, change: Change, publishedAt: string,
                                        target: Requested)
    requires EndsWith(target.source, ".json") && ValidatedOn(d, op, request) == Ok(change)
    requires DraftOf(d, change, publishedAt, target).Ok?
    ensures var t := DraftOf(d, change, publishedAt, target).value;
            && Inspect(t.candidate, target.source) == Ok(t.at.(catalog := t.next))
            && t.candidate.manifest.manifest.publicationId == target.publicationId
            && (forall part :: t.candidate.At(part) != t.raw.At(part))
            && (UniqueIds(t.at.catalog) ==> UniqueIds(t.next))
            && (change.SetCatalog? || change.Edit? ==> KeepsPairs(t.at.catalog, t.next))
  {
    DraftFacts(d, change, publishedAt, target);
    var t := DraftOf(d, change, publishedAt, target).value;
    var w, a := t.raw.workflow.workflow, t.raw.api.api;
    CandidatePasses(t.raw, target.source, t.next, target.publicationId, publishedAt);
    ChangeKeepsCatalog(change, request, t.at.catalog, w, a, w.nodes[t.at.editable].id, OwnFile(op),
      Staged(d, op, request),
                       LibraryFiles(d));
    CandidateDiffers(t.raw, target.source, t.next, target.publicationId, publishedAt);
  }

  /** The draft has the catalog that follows from the request as it came in, is
      about the requested file, and rewrites nothing but the catalog. */
  lemma {:induction false} DraftMeans(d: Disk, op: OpId, request: Change, change: Change, publishedAt: string,
                                      target: Requested)
    requires EndsWith(target.source, ".json") && ValidatedOn(d, op, request) == Ok(change)
    requires DraftOf(d, change, publishedAt, target).Ok?
    ensures var t := DraftOf(d, change, publishedAt, target).value;
            && Follows(request, t.at.catalog, t.next) && IsAbout(request, t.at.catalog, t.file)
            && Rewrites(t.raw, t.candidate, t.at, t.next, target.publicationId, publishedAt)
  {
    hide DraftOf, Inspect, ApplyChange, Candidate, Follows, IsAbout, Applicable, Rewrites, Validated;
    DraftFacts(d, change, publishedAt, target);
    var t := DraftOf(d, change, publishedAt, target).value;
    var w, a := t.raw.workflow.workflow, t.raw.api.api;
    AppliedMeans(request, change, OwnFile(op), Staged(d, op, request), t.at.catalog, w, a, w.nodes[t.at.editable].id,
                 LibraryFiles(d));
    CandidateRewrites(t.raw, target.source, t.next, target.publicationId, publishedAt);
  }

  /** A target whose publication is there, has the expected revision, is consistent
      and can take the change. */
  ghost predicate CanTake(d: Disk, request: Change, target: Requested)
    requires EndsWith(target.source, ".json")
  {
    && BundleIn(d.live, target.source).Ok?
    && var raw := BundleIn(d.live, target.source).value;
       && RevisionOf(raw) == Ok(target.expected)
       && exists at :: Consistent(raw, target.source, at)
                       && Applicable(request, at.catalog, raw.workflow.workflow, raw.api.api,
                                     raw.workflow.workflow.nodes[at.editable].id, LibraryFiles(d))
  }

  lemma {:induction false} DraftedExactly(d: Disk, op: OpId, request: Change, change: Change, publishedAt: string,
                                          target: Requested)
    requires EndsWith(target.source, ".json") && ValidatedOn(d, op, request) == Ok(change)
    ensures DraftOf(d, change, publishedAt, target).Ok? <==> CanTake(d, request, target)
  {
    hide BundleIn, ApplyChange, Applicable, Inspect, Consistent, Candidate, Validated, RevisionOf;
    var raw := BundleIn(d.live, target.source);
    if raw.Ok? {
      forall at ensures Inspect(raw.value, target.source) == Ok(at) <==> Consistent(raw.value, target.source, at) {
        InspectMeans(raw.value, target.source, at);
      }
      if Inspect(raw.value, target.source).Ok? {
        var at, w, a := Inspect(raw.value, target.source).value, raw.value.workflow.workflow, raw.value.api.api;
        AppliedMeans(request, change, OwnFile(op), Staged(d, op, request), at.catalog, w, a, w.nodes[at.editable].id,
                     LibraryFiles(d));
        AtIsIn(raw.value, target.source, at);
      }
    }
  }

  lemma {:induction false} AtIsIn(raw: Bundle, source: string, at: Located)
    requires EndsWith(source, ".json") && Inspect(raw, source) == Ok(at)
    ensures Parses(raw) && at.editable < |raw.workflow.workflow.nodes|
  {
  }

  /** The same for the names of weights. */
  lemma {:induction false} DraftNames(d: Disk, op: OpId, request: Change, change: Change, publishedAt: string,
                                      target: Requested, part: Part)
    requires EndsWith(target.source, ".json") && ValidatedOn(d, op, request) == Ok(change)
    requires DraftOf(d, change, publishedAt, target).Ok?
    ensures var t := DraftOf(d, change, publishedAt, target).value;
            && NamesFollow(change, t.file, Named(t.raw.At(part)), Named(t.candidate.At(part)), LibraryFiles(d))
            && (change.Remove? ==> t.file.Some? && Library(t.file.value) in d.weights)
  {
    hide DraftOf, Inspect, Candidate, Named, Validated, ApplyChange, EditableReferences, ApiReferences;
    DraftFacts(d, change, publishedAt, target);
    var t := DraftOf(d, change, publishedAt, target).value;
    var w, a := t.raw.workflow.workflow, t.raw.api.api;
    CatalogNamesFollow(change, request, t.at.catalog, w, a, w.nodes[t.at.editable].id, OwnFile(op),
      Staged(d, op, request),
                       LibraryFiles(d));
    if change.Remove? {
      RemovalIsClear(change, t.at.catalog, w, a, w.nodes[t.at.editable].id, LibraryFiles(d));
    }
    CandidateNames(t.raw, target.source, t.next, change, t.file, target.publicationId, publishedAt, LibraryFiles(d),
      part);
  }

  // ----- from drafts to slots -----

  /** Two publications that both pass the check never share a file: the shared
      manifest would have to name both sources. */
  lemma {:induction false} InspectedAreDisjoint(d: Disk, s: string, t: string, p: Part, q: Part)
    requires SafeSource(s) && SafeSource(t) && BundleIn(d.live, s).Ok? && BundleIn(d.live, t).Ok?
    requires Inspect(BundleIn(d.live, s).value, s).Ok? && Inspect(BundleIn(d.live, t).value, t).Ok?
    requires PartPath(s, p) == PartPath(t, q)
    ensures s == t && p == q
  {
    hide Stack, Normalized, Utf8Length, Stem;
    SharedPart(s, p, t, q);
    if !p.Workflow? {
      assert PartPath(s, Manifest) == PartPath(t, Manifest);
      assert BundleIn(d.live, s).value.At(Manifest) == BundleIn(d.live, t).value.At(Manifest);
    }
  }

  /** Every draft comes from the same disk and request. */
  ghost predicate Drafted(d: Disk, change: Change, publishedAt: string, targets: seq<Requested>, drafts: seq<Draft>) {
    && |drafts| == |targets|
    && (forall i :: 0 <= i < |targets| ==> SafeSource(targets[i].source)
                                           && DraftOf(d, change, publishedAt, targets[i]) == Ok(drafts[i]))
    && (forall i, j :: 0 <= i < j < |targets| ==> targets[i].source != targets[j].source)
    && (forall i, j :: 0 <= i < j < |targets| ==> drafts[i].file == drafts[j].file)
  }

  function TargetsOf(drafts: seq<Draft>): (r: seq<Target>)
    requires forall t :: t in drafts ==> t.raw.manifest.ManifestBytes? && t.candidate.manifest.ManifestBytes?
    ensures |r| == |drafts|
  {
    seq(|drafts|, i requires 0 <= i < |drafts| => drafts[i].Journaled())
  }

  function SlotOf(drafts: seq<Draft>, n: nat): Slot
    requires n < 3 * |drafts| && EndsWith(drafts[n / 3].requested.source, ".json")
  {
    var t, part := drafts[n / 3], PartAt(n);
    Slot(PartPath(t.requested.source, part), t.raw.At(part), t.candidate.At(part))
  }

  /** The slots of a prepared operation are its drafts. */
  ghost predicate SlotsAre(slots: seq<Slot>, drafts: seq<Draft>) {
    && (forall t :: t in drafts ==> EndsWith(t.requested.source, ".json"))
    && |slots| == 3 * |drafts| && forall n :: 0 <= n < |slots| ==> slots[n] == SlotOf(drafts, n)
  }

  lemma {:induction false} SafeIsJson(source: string)
    requires SafeSource(source)
    ensures EndsWith(source, ".json")
  {
  }

  lemma {:induction false} DraftsAreDisjoint(d: Disk, change: Change, publishedAt: string, targets: seq<Requested>,
                                             drafts: seq<Draft>,
                          slots: seq<Slot>, i: nat, j: nat)
    requires Drafted(d, change, publishedAt, targets, drafts) && SlotsAre(slots, drafts) && i < j < |slots|
    ensures slots[i].path != slots[j].path
  {
    hide DraftOf, Inspect, SafeSource, BundleIn, PartPath;
    var s, t := targets[i / 3].source, targets[j / 3].source;
    SafeIsJson(s);
    SafeIsJson(t);
    DraftFacts(d, change, publishedAt, targets[i / 3]);
    DraftFacts(d, change, publishedAt, targets[j / 3]);
    assert slots[i] == SlotOf(drafts, i) && slots[j] == SlotOf(drafts, j);
    if slots[i].path == slots[j].path { InspectedAreDisjoint(d, s, t, PartAt(i), PartAt(j)); }
  }

  lemma {:induction false} DraftSlot(d: Disk, op: OpId, request: Change, change: Change, publishedAt: string,
                                     targets: seq<Requested>,
                  drafts: seq<Draft>, slots: seq<Slot>, n: nat)
    requires ValidatedOn(d, op, request) == Ok(change) && Drafted(d, change, publishedAt, targets, drafts)
    requires SlotsAre(slots, drafts) && n < |slots|
    ensures slots[n].before != slots[n].after && slots[n].path in d.live && d.live[slots[n].path] == slots[n].before
  {
    hide DraftOf, Inspect, SafeSource, ValidatedOn, PartPath;
    SafeIsJson(targets[n / 3].source);
    DraftFacts(d, change, publishedAt, targets[n / 3]);
    DraftIsSound(d, op, request, change, publishedAt, targets[n / 3]);
    assert slots[n] == SlotOf(drafts, n);
  }

  lemma {:induction false} DraftedSlots(d: Disk, op: OpId, request: Change, change: Change, publishedAt: string,
                                        targets: seq<Requested>,
                     drafts: seq<Draft>, slots: seq<Slot>)
    requires ValidatedOn(d, op, request) == Ok(change) && Drafted(d, change, publishedAt, targets, drafts)
    requires SlotsAre(slots, drafts)
    ensures Proper(slots) && All(d, slots, Before)
  {
    hide ValidatedOn, Drafted, SlotsAre;
    forall i, j | 0 <= i < j < |slots| ensures slots[i].path != slots[j].path {
      DraftsAreDisjoint(d, change, publishedAt, targets, drafts, slots, i, j);
    }
    forall n | 0 <= n < |slots| ensures slots[n].before != slots[n].after && slots[n].path in d.live
                                        && d.live[slots[n].path] == slots[n].before {
      DraftSlot(d, op, request, change, publishedAt, targets, drafts, slots, n);
    }
  }

  lemma {:induction false} SlotNames(d: Disk, op: OpId, request: Change, change: Change, publishedAt: string,
                                     targets: seq<Requested>,
                  drafts: seq<Draft>, slots: seq<Slot>, n: nat)
    requires ValidatedOn(d, op, request) == Ok(change) && Drafted(d, change, publishedAt, targets, drafts)
    requires SlotsAre(slots, drafts) && n < |slots|
    ensures NamesFollow(change, drafts[0].file, Named(slots[n].before), Named(slots[n].after), LibraryFiles(d))
  {
    hide DraftOf, ValidatedOn, Named, PartPath, SafeSource;
    assert drafts[n / 3].file == drafts[0].file;
    SafeIsJson(targets[n / 3].source);
    assert DraftOf(d, change, publishedAt, targets[n / 3]) == Ok(drafts[n / 3]);
    DraftNames(d, op, request, change, publishedAt, targets[n / 3], PartAt(n));
  }

  lemma {:induction false} WeighedWhenNamesFollow(d: Disk, op: OpId, change: Change, file: Option<string>,
                                                  slots: seq<Slot>)
    requires op in d.journals && d.journals[op].action == ActionOf(change) && d.journals[op].filename == FileOf(file)
    requires forall n :: 0 <= n < |slots| ==>
               Present(d.weights, Named(slots[n].before))
               && NamesFollow(change, file, Named(slots[n].before), Named(slots[n].after), LibraryFiles(d))
    requires change.Install? ==> Library(change.filename) !in d.weights && slots != []
    requires change.Remove? ==> file.Some? && Library(file.value) in d.weights && Quarantine(op) !in d.weights
    ensures Weighed(d, op, slots)
  {
  }

  /** Preparing an operation whose own weight is not yet installed, on
      publications without dangling weights, establishes everything the safety
      of weights rests on. */
  lemma {:induction false} DraftedWeights(d: Disk, op: OpId, request: Change, change: Change, publishedAt: string,
                                          targets: seq<Requested>,
                       drafts: seq<Draft>, d': Disk, slots: seq<Slot>)
    requires ValidatedOn(d, op, request) == Ok(change) && Drafted(d, change, publishedAt, targets, drafts)
             && drafts != []
    requires SlotsAre(slots, drafts) && d'.weights == d.weights && op in d'.journals
             && d'.journals[op].action == ActionOf(change)
    requires d'.journals[op].filename == FileOf(drafts[0].file)
    requires forall n :: 0 <= n < |slots| ==> Present(d.weights, Named(slots[n].before))
    requires Library(OwnFile(op)) !in d.weights && Quarantine(op) !in d.weights
    ensures Weighed(d', op, slots)
  {
    hide DraftOf, ValidatedOn, Named;
    assert DraftOf(d, change, publishedAt, targets[0]) == Ok(drafts[0]);
    DraftNames(d, op, request, change, publishedAt, targets[0], Workflow);
    ValidatedInstall(d, op, request, change);
    forall n | 0 <= n < |slots|
      ensures NamesFollow(change, drafts[0].file, Named(slots[n].before), Named(slots[n].after), LibraryFiles(d))
    {
      SlotNames(d, op, request, change, publishedAt, targets, drafts, slots, n);
    }
    WeighedWhenNamesFollow(d', op, change, drafts[0].file, slots);
  }

  lemma {:induction false} ValidatedInstall(d: Disk, op: OpId, request: Change, change: Change)
    requires ValidatedOn(d, op, request) == Ok(change)
    ensures change.Install? ==> change.filename == OwnFile(op)
  {
  }

  function ActionOf(change: Change): Action {
    match change
    case Install(_, _, _, _, _) => Installing
    case Remove(_) => Removing
    case Edit(_, _, _) => Editing
    case SetCatalog(_) => Syncing
  }

  function FileOf(file: Option<string>): string { if file.Some? then file.value else "" }

  function DigestOf(change: Change): string { if change.Install? then change.digest else "" }

  /** The journaled revisions are those of the journaled new files, which is
      what commit re-reads and compares after each target. */
  ghost predicate Faithful(d: Disk, op: OpId, targets: seq<Target>)
    requires Complete(d, op, targets)
  {
    forall t :: 0 <= t < |targets| ==> RevisionOf(KeptBundle(d, op, targets, t)) == Ok(targets[t].candidate)
  }

  function KeptBundle(d: Disk, op: OpId, targets: seq<Target>, t: nat): Bundle
    requires Complete(d, op, targets) && t < |targets|
  {
    var slots := Slots(d, op, targets);
    Bundle(slots[3 * t].after, slots[3 * t + 1].after, slots[3 * t + 2].after)
  }
}
