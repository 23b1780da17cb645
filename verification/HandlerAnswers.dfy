/** When a handler is accepted and what it leaves behind once it is through, in
    terms of the journal, the live files and the places of the weights. */
module HandlerAnswers {
  import opened SourcePaths
  import opened Publications
  import opened Transaction
  import opened TransactionRuns
  import opened CrashAtomicity

  // ----- files -----

  /** Both generations of every file of every target are kept, and every live file
      holds one of them. */
  predicate FilesIntact(d: Disk, op: OpId, targets: seq<Target>) {
    && (forall t :: 0 <= t < |targets| ==> EndsWith(targets[t].source, ".json"))
    && forall t, part: Part :: 0 <= t < |targets| ==> FileIntact(d, op, targets[t].source, t, part)
  }

  predicate FileIntact(d: Disk, op: OpId, source: string, t: nat, part: Part)
    requires EndsWith(source, ".json")
  {
    && Saved(op, t, Before, part) in d.saved && Saved(op, t, After, part) in d.saved && PartPath(source, part) in d.live
    && (d.live[PartPath(source, part)] == d.saved[Saved(op, t, Before, part)]
        || d.live[PartPath(source, part)] == d.saved[Saved(op, t, After, part)])
  }

  /** Every live file of every target holds its kept bytes of this generation, and
      all other files are as before. */
  ghost predicate FilesHold(d: Disk, d': Disk, op: OpId, targets: seq<Target>, g: Generation)
    requires FilesIntact(d, op, targets)
  {
    && d'.live.Keys == d.live.Keys
    && (forall t, part: Part :: 0 <= t < |targets| ==>
          FileIntact(d, op, targets[t].source, t, part) && Saved(op, t, g, part) in d.saved
          && d'.live[PartPath(targets[t].source, part)] == d.saved[Saved(op, t, g, part)])
    && forall p :: p in d.live && (forall t, part: Part :: 0 <= t < |targets| ==>
       PartPath(targets[t].source, part) != p) ==>
                     d'.live[p] == d.live[p]
  }

  lemma {:induction false} PartIndex(t: nat, part: Part) returns (p: nat)
    ensures p < 3 && PartAt(p) == part && PartAt(3 * t + p) == part && (3 * t + p) / 3 == t
  {
    p := match part case Workflow => 0 case Api => 1 case Manifest => 2;
  }

  lemma {:induction false} IntactMeans(d: Disk, op: OpId, targets: seq<Target>)
    ensures Complete(d, op, targets) && Known(d, Slots(d, op, targets)) <==> FilesIntact(d, op, targets)
  {
    hide PartPath;
    if Complete(d, op, targets) && Known(d, Slots(d, op, targets)) {
      var slots := Slots(d, op, targets);
      forall t, part: Part | 0 <= t < |targets| ensures FileIntact(d, op, targets[t].source, t, part) {
        var p := PartIndex(t, part);
        assert slots[3 * t + p].path == PartPath(targets[t].source, part);
      }
    }
    if FilesIntact(d, op, targets) {
      forall n | 0 <= n < 3 * |targets| ensures FileIntact(d, op, targets[n / 3].source, n / 3, PartAt(n)) {
      }
    }
  }

  lemma {:induction false} WrittenMeans(d: Disk, d': Disk, op: OpId, targets: seq<Target>, g: Generation)
    requires FilesIntact(d, op, targets) && Complete(d, op, targets)
    requires Paths(Slots(d, op, targets), d.live) && Written(d.live, d'.live, Slots(d, op, targets), g, 3 * |targets|)
    ensures FilesHold(d, d', op, targets, g)
  {
    hide PartPath, Complete, FileIntact;
    var slots := Slots(d, op, targets);
    forall t, part: Part | 0 <= t < |targets|
      ensures FileIntact(d, op, targets[t].source, t, part) && PartPath(targets[t].source, part) in d'.live
              && Saved(op, t, g, part) in d.saved
              && d'.live[PartPath(targets[t].source, part)] == d.saved[Saved(op, t, g, part)]
    {
      OneWritten(d, d', op, targets, g, t, part);
    }
    forall p | p in d.live && forall t, part: Part :: 0 <= t < |targets| ==> PartPath(targets[t].source, part) != p
      ensures d'.live[p] == d.live[p]
    {
      assert forall n :: 0 <= n < |slots| ==> slots[n].path == PartPath(targets[n / 3].source, PartAt(n));
    }
  }

  lemma {:induction false} OneWritten(d: Disk, d': Disk, op: OpId, targets: seq<Target>, g: Generation, t: nat,
                                      part: Part)
    requires FilesIntact(d, op, targets) && Complete(d, op, targets) && t < |targets|
    requires Paths(Slots(d, op, targets), d.live) && Written(d.live, d'.live, Slots(d, op, targets), g, 3 * |targets|)
    ensures FileIntact(d, op, targets[t].source, t, part) && PartPath(targets[t].source, part) in d'.live
            && Saved(op, t, g, part) in d.saved
            && d'.live[PartPath(targets[t].source, part)] == d.saved[Saved(op, t, g, part)]
  {
    hide PartPath;
    var p := PartIndex(t, part);
    assert FileIntact(d, op, targets[t].source, t, part);
    var slot := Slots(d, op, targets)[3 * t + p];
    assert slot.path == PartPath(targets[t].source, part) && slot.Bytes(g) == d.saved[Saved(op, t, g, part)];
  }

  // ----- commit -----

  /** The weight of an installation is in the library, or waits to be moved there,
      with the digest that was declared. */
  predicate WeightReady(d: Disk, op: OpId, j: Journal, writer: bool) {
    j.action.Installing? ==>
      if Library(j.filename) in d.weights then d.weights[Library(j.filename)] == j.digest
      else writer && Upload(op) in d.weights && d.weights[Upload(op)] == j.digest
  }

  predicate CommitAllowed(d: Disk, op: OpId, writer: bool, leased: bool) {
    && op in d.journals && d.journals[op].targets != []
    && var j := d.journals[op];
       j.phase.Committed?
       || ((j.phase.Prepared? || j.phase.Committing?) && !leased && FilesIntact(d, op, j.targets)
           && WeightReady(d, op, j, writer))
  }

  lemma {:induction false} CommitAllowedExactly(d: Disk, op: OpId, writer: bool, leased: bool)
    ensures CommitPlan(d, op, writer, leased).error.None? <==> CommitAllowed(d, op, writer, leased)
  {
    hide Complete, Known, Slots, FilesIntact;
    if op in d.journals { IntactMeans(d, op, d.journals[op].targets); }
  }

  /** What an accepted commit leaves behind: an already committed operation is left
      alone; otherwise every file is new, and the weight of an installation is in
      the library. */
  ghost predicate CommitDone(d: Disk, d': Disk, op: OpId)
    requires op in d.journals
  {
    var j := d.journals[op];
    if j.phase.Committed? then d' == d
    else
      && FilesIntact(d, op, j.targets) && FilesHold(d, d', op, j.targets, After) && d'.saved == d.saved
      && d'.journals == d.journals[op := j.(phase := Committed)]
      && if j.action.Installing? && Library(j.filename) !in d.weights then
           Upload(op) in d.weights
             && d'.weights == (d.weights - {Upload(op)})[Library(j.filename) := d.weights[Upload(op)]]
         else d'.weights == d.weights
  }

  /** Different files of the targets have different paths, as prepare sees to. */
  ghost predicate Separate(targets: seq<Target>) {
    && (forall t :: 0 <= t < |targets| ==> EndsWith(targets[t].source, ".json"))
    && forall s, p: Part, t, q: Part :: 0 <= s < |targets| && 0 <= t < |targets| && (s != t || p != q) ==>
         PartPath(targets[s].source, p) != PartPath(targets[t].source, q)
  }

  lemma {:induction false} SeparatePaths(d: Disk, op: OpId, targets: seq<Target>)
    requires Separate(targets) && FilesIntact(d, op, targets)
    ensures Complete(d, op, targets) && Paths(Slots(d, op, targets), d.live)
  {
    hide PartPath;
    IntactMeans(d, op, targets);
    var slots := Slots(d, op, targets);
    forall i, j | 0 <= i < j < |slots| ensures slots[i].path != slots[j].path {
      assert i / 3 != j / 3 || PartAt(i) != PartAt(j);
      assert slots[i].path == PartPath(targets[i / 3].source, PartAt(i))
             && slots[j].path == PartPath(targets[j / 3].source, PartAt(j));
    }
  }

  lemma {:induction false} SoundIsSeparate(w: World, op: OpId, j: Journal, slots: seq<Slot>)
    requires Sound(w, op, j, slots) && !w.disk.journals[op].phase.Finalized?
    ensures Separate(j.targets) && FilesIntact(w.disk, op, j.targets)
  {
    hide PartPath, FileIntact;
    IntactMeans(w.disk, op, j.targets);
    forall s, p: Part, t, q: Part | 0 <= s < |j.targets| && 0 <= t < |j.targets| && (s != t || p != q)
      ensures PartPath(j.targets[s].source, p) != PartPath(j.targets[t].source, q)
    {
      var m := PartIndex(s, p);
      var n := PartIndex(t, q);
      assert slots[3 * s + m].path == PartPath(j.targets[s].source, p)
             && slots[3 * t + n].path == PartPath(j.targets[t].source, q);
    }
  }

  lemma {:induction false} WholeRun(d: Disk, steps: seq<Step>)
    ensures Run(d, steps) == Run(d, Cut(steps, |steps|))
  {
  }

  /** An accepted commit that is through: every file is new, and the library holds
      the weight of an installation with exactly the declared digest. */
  lemma {:induction false} CommitDoneMeans(d: Disk, op: OpId, writer: bool, leased: bool)
    requires CommitAllowed(d, op, writer, leased) && Separate(d.journals[op].targets)
    ensures var d', j := Run(d, CommitPlan(d, op, writer, leased).steps), d.journals[op];
            && CommitDone(d, d', op)
            && (j.action.Installing? && !j.phase.Committed? ==>
                  Library(j.filename) in d'.weights && d'.weights[Library(j.filename)] == j.digest)
  {
    hide Complete, Known, Slots, FilesIntact, FilesHold, Separate, Written, Paths, Publishes, FileIntact;
    var j, steps := d.journals[op], CommitPlan(d, op, writer, leased).steps;
    if !j.phase.Committed? {
      SeparatePaths(d, op, j.targets);
      IntactMeans(d, op, j.targets);
      var slots := Slots(d, op, j.targets);
      var placing := if j.action.Installing? && Library(j.filename) !in d.weights
        then [Move(Upload(op), Library(j.filename))] else [];
      CommitIs(d, op, writer, leased, placing);
      CommitCut(d, op, placing, slots, |steps|);
      WholeRun(d, steps);
      WrittenMeans(d, Run(d, steps), op, j.targets, After);
      RunPlacing(d, placing);
    }
  }

  lemma {:induction false} RunPlacing(d: Disk, placing: seq<Step>)
    ensures forall k: nat :: k >= |placing| ==> Cut(placing, k) == placing
    ensures placing == [] ==> Run(d, placing) == d
    ensures forall s :: placing == [s] ==> Run(d, placing) == Apply(d, s)
  {
    if |placing| == 1 { RunOne(d, placing[0]); }
  }

  lemma {:induction false} CommitIs(d: Disk, op: OpId, writer: bool, leased: bool, placing: seq<Step>)
    requires CommitAllowed(d, op, writer, leased) && !d.journals[op].phase.Committed?
    requires var j := d.journals[op];
             placing == if j.action.Installing? && Library(j.filename) !in d.weights
               then [Move(Upload(op), Library(j.filename))] else []
    ensures Complete(d, op, d.journals[op].targets)
    ensures CommitPlan(d, op, writer, leased).steps
            == CommitSteps(op, d.journals[op], placing, Slots(d, op, d.journals[op].targets))
  {
    hide Complete, Known, Slots, FilesIntact, CommitSteps;
    IntactMeans(d, op, d.journals[op].targets);
  }

  /** In every reachable state the files are intact, so acceptance depends on the
      recorded phase, the lease and the weight alone. */
  lemma {:induction false} CommitAcceptedExactly(w: World, op: OpId, j: Journal, slots: seq<Slot>, writer: bool,
                                                 leased: bool)
    requires Sound(w, op, j, slots)
    ensures var d := w.disk; var p := d.journals[op].phase;
            CommitPlan(d, op, writer, leased).error.None? <==>
              p.Committed?
              || ((p.Prepared? || p.Committing?) && !leased
                  && (j.action.Installing? ==>
                        if Library(j.filename) in d.weights then d.weights[Library(j.filename)] == j.digest
                        else writer && Upload(op) in d.weights && d.weights[Upload(op)] == j.digest))
  {
    hide Complete, Known, Slots, FilesIntact, CommitPlan, Separate;
    CommitAllowedExactly(w.disk, op, writer, leased);
    if !w.disk.journals[op].phase.Finalized? { SoundIsSeparate(w, op, j, slots); }
  }

  // ----- rollback -----

  /** A rollback is accepted again and again until the operation is finalized, as
      long as no file holds foreign bytes and a removed weight can go back. */
  predicate RollbackAllowed(d: Disk, op: OpId, writer: bool) {
    op in d.journals ==>
      var j := d.journals[op];
      j.phase.RolledBack?
      || (!j.phase.Finalized? && FilesIntact(d, op, j.targets)
          && !(writer && j.action.Removing? && Quarantine(op) in d.weights && Library(j.filename) in d.weights))
  }

  lemma {:induction false} RollbackAllowedExactly(d: Disk, op: OpId, writer: bool)
    ensures RollbackPlan(d, op, writer).error.None? <==> RollbackAllowed(d, op, writer)
  {
    hide Complete, Known, Slots, FilesIntact;
    if op in d.journals { IntactMeans(d, op, d.journals[op].targets); }
  }

  /** The weights after a rollback: on the writer a removed weight is back in the
      library, and an installed one is gone from the library and from the uploads. */
  ghost predicate WeightsBack(d: Disk, d': Disk, op: OpId, j: Journal, writer: bool) {
    if writer && j.action.Installing? then
      && Upload(op) !in d'.weights && (j.targets != [] ==> Library(j.filename) !in d'.weights)
      && forall place :: place != Upload(op) && (j.targets == [] || place != Library(j.filename)) ==>
         SamePlace(d, d', place)
    else if writer && j.action.Removing? && Quarantine(op) in d.weights then
      && Quarantine(op) !in d'.weights
      && Library(j.filename) in d'.weights && d'.weights[Library(j.filename)] == d.weights[Quarantine(op)]
      && forall place :: place != Quarantine(op) && place != Library(j.filename) ==> SamePlace(d, d', place)
    else d'.weights == d.weights
  }

  predicate SamePlace(d: Disk, d': Disk, place: Place) {
    (place in d'.weights <==> place in d.weights) && (place in d.weights ==> d'.weights[place] == d.weights[place])
  }

  /** What an accepted rollback leaves behind. */
  ghost predicate RollbackDone(d: Disk, d': Disk, op: OpId, writer: bool) {
    if op !in d.journals then
      && d' == d.(weights := d'.weights) && (!writer ==> d'.weights == d.weights)
      && (writer ==> Upload(op) !in d'.weights)
      && forall place :: place != Upload(op) ==> SamePlace(d, d', place)
    else
      var j := d.journals[op];
      if j.phase.RolledBack? then d' == d
      else
        && FilesIntact(d, op, j.targets) && FilesHold(d, d', op, j.targets, Before) && d'.saved == d.saved
        && d'.journals == d.journals[op := j.(phase := RolledBack)] && WeightsBack(d, d', op, j, writer)
  }

  lemma {:induction false} RollbackDoneMeans(d: Disk, op: OpId, writer: bool)
    requires RollbackAllowed(d, op, writer) && (op in d.journals ==> Separate(d.journals[op].targets))
    ensures RollbackDone(d, Run(d, RollbackPlan(d, op, writer).steps), op, writer)
  {
    hide Complete, Known, Slots, FilesIntact, FilesHold, Separate, WeightsBack, RollbackSteps;
    if op !in d.journals {
      RunPlacing(d, RollbackPlan(d, op, writer).steps);
    } else if !d.journals[op].phase.RolledBack? {
      RollbackWritten(d, op, writer);
    }
  }

  function Returning(d: Disk, op: OpId, j: Journal, writer: bool): seq<Step> {
    if writer && j.action.Removing? && Quarantine(op) in d.weights then [Move(Quarantine(op), Library(j.filename))]
      else []
  }

  lemma {:induction false} RollbackIs(d: Disk, op: OpId, writer: bool)
    requires RollbackAllowed(d, op, writer) && op in d.journals && !d.journals[op].phase.RolledBack?
    ensures var j := d.journals[op];
            Complete(d, op, j.targets) && RollbackPlan(d, op, writer).steps
            == RollbackSteps(op, j, Returning(d, op, j, writer), Slots(d, op, j.targets), DropWeight(op, j, writer))
  {
    hide Complete, Known, Slots, FilesIntact, RollbackSteps, DropWeight;
    IntactMeans(d, op, d.journals[op].targets);
  }

  lemma {:induction false} RollbackWritten(d: Disk, op: OpId, writer: bool)
    requires RollbackAllowed(d, op, writer) && op in d.journals && !d.journals[op].phase.RolledBack?
    requires Separate(d.journals[op].targets)
    ensures var j, d' := d.journals[op], Run(d, RollbackPlan(d, op, writer).steps);
            && FilesIntact(d, op, j.targets) && FilesHold(d, d', op, j.targets, Before) && d'.saved == d.saved
            && d'.journals == d.journals[op := j.(phase := RolledBack)] && WeightsBack(d, d', op, j, writer)
  {
    hide Complete, Known, Slots, FilesIntact, FilesHold, Separate, Written, Paths, Publishes, WeightsBack,
         RollbackPlan, Run;
    var j, steps := d.journals[op], RollbackPlan(d, op, writer).steps;
    RollbackIs(d, op, writer);
    SeparatePaths(d, op, j.targets);
    var slots, dropping, returning := Slots(d, op, j.targets), DropWeight(op, j, writer), Returning(d, op, j, writer);
    RollbackCut(d, op, returning, slots, dropping, |steps|);
    WholeRun(d, steps);
    WholeWeights(d, returning, |slots|, dropping, |steps|);
    WrittenMeans(d, Run(d, steps), op, j.targets, Before);
    WeightsComeBack(d, Run(d, steps), op, j, writer, returning);
  }

  lemma {:induction false} WholeWeights(d: Disk, returning: seq<Step>, published: nat, dropping: seq<Step>, k: nat)
    requires k > |returning| + published + |dropping|
    ensures RollbackWeights(d, returning, published, dropping, k) == Run(Run(d, returning), dropping).weights
  {
    hide Run;
    RunPlacing(Run(d, returning), dropping);
  }

  lemma {:induction false} WeightsComeBack(d: Disk, d': Disk, op: OpId, j: Journal, writer: bool, returning: seq<Step>)
    requires returning == if writer && j.action.Removing? && Quarantine(op) in d.weights
             then [Move(Quarantine(op), Library(j.filename))] else []
    requires d'.weights == Run(Run(d, returning), DropWeight(op, j, writer)).weights
    ensures WeightsBack(d, d', op, j, writer)
  {
    hide Run, Apply;
    RunPlacing(d, returning);
    if writer && j.action.Installing? {
      InstalledIsDropped(d, op, j);
    } else {
      RunPlacing(Run(d, returning), []);
      if returning != [] { Moved(d, Quarantine(op), Library(j.filename)); }
    }
    SameWeights(d, Run(Run(d, returning), DropWeight(op, j, writer)), d', op, j, writer);
  }

  lemma {:induction false} SameWeights(d: Disk, e: Disk, d': Disk, op: OpId, j: Journal, writer: bool)
    requires e.weights == d'.weights && WeightsBack(d, e, op, j, writer)
    ensures WeightsBack(d, d', op, j, writer)
  {
    assert forall place :: SamePlace(d, e, place) <==> SamePlace(d, d', place);
  }

  lemma {:induction false} Moved(d: Disk, from: Place, to: Place)
    requires from in d.weights && from != to
    ensures var d' := Apply(d, Move(from, to));
            && from !in d'.weights && to in d'.weights && d'.weights[to] == d.weights[from]
            && forall place :: place != from && place != to ==> SamePlace(d, d', place)
  {
  }

  lemma {:induction false} InstalledIsDropped(d: Disk, op: OpId, j: Journal)
    requires j.action.Installing?
    ensures var d' := Run(d, DropWeight(op, j, true));
            && Upload(op) !in d'.weights && (j.targets != [] ==> Library(j.filename) !in d'.weights)
            && forall place :: place != Upload(op) && (j.targets == [] || place != Library(j.filename)) ==>
                 SamePlace(d, d', place)
  {
    var dropping := DropWeight(op, j, true);
    RunPlacing(d, dropping);
    if j.targets != [] {
      assert dropping[..1] == [dropping[0]];
      RunOne(d, dropping[0]);
    }
  }

  /** A refused rollback of a live operation leaves the record that a repair is required. */
  lemma {:induction false} RefusedRollback(d: Disk, op: OpId, writer: bool)
    requires !RollbackAllowed(d, op, writer)
    ensures var d', j := Run(d, RollbackPlan(d, op, writer).steps), d.journals[op];
            if j.phase.Finalized? then d' == d else d' == d.(journals := d.journals[op := j.(phase := RepairRequired)])
  {
    hide Complete, Known, Slots, FilesIntact;
    RollbackAllowedExactly(d, op, writer);
    RunPlacing(d, RollbackPlan(d, op, writer).steps);
  }

  // ----- quarantine and finalize -----

  /** On the writer a removed weight is retired only when nothing else needs it and
      it is there. */
  predicate QuarantineAllowed(d: Disk, op: OpId, writer: bool, clear: bool) {
    && op in d.journals && d.journals[op].action.Removing?
    && (d.journals[op].phase.Quarantined?
        || (d.journals[op].phase.Committed? && (writer ==> clear && Library(d.journals[op].filename) in d.weights)))
  }

  ghost predicate QuarantineDone(d: Disk, d': Disk, op: OpId, writer: bool)
    requires op in d.journals
  {
    var j := d.journals[op];
    if j.phase.Quarantined? then d' == d
    else
      && d'.live == d.live && d'.saved == d.saved && d'.journals == d.journals[op := j.(phase := Quarantined)]
      && if !writer then d'.weights == d.weights
         else
           && Library(j.filename) in d.weights && Library(j.filename) !in d'.weights
           && Quarantine(op) in d'.weights && d'.weights[Quarantine(op)] == d.weights[Library(j.filename)]
           && forall place :: place != Quarantine(op) && place != Library(j.filename) ==> SamePlace(d, d', place)
  }

  lemma {:induction false} QuarantineMeans(d: Disk, op: OpId, writer: bool, clear: bool)
    ensures QuarantinePlan(d, op, writer, clear).error.None? <==> QuarantineAllowed(d, op, writer, clear)
    ensures QuarantineAllowed(d, op, writer, clear) ==>
              QuarantineDone(d, Run(d, QuarantinePlan(d, op, writer, clear).steps), op, writer)
  {
    if QuarantineAllowed(d, op, writer, clear) && !d.journals[op].phase.Quarantined? {
      var steps := QuarantinePlan(d, op, writer, clear).steps;
      var moving := if writer then [Move(Library(d.journals[op].filename), Quarantine(op))] else [];
      QuarantineCut(d, op, moving, |steps|);
      WholeRun(d, steps);
      RunPlacing(d, moving);
    }
  }

  predicate FinalizeAllowed(d: Disk, op: OpId, writer: bool) {
    && op in d.journals
    && var j := d.journals[op];
       j.phase.Finalized? || j.phase.Quarantined? || (j.phase.Committed? && !(j.action.Removing? && writer))
  }

  /** A finalized operation has forgotten its kept bytes and, on the writer, the
      weight it retired. */
  ghost predicate FinalizeDone(d: Disk, d': Disk, op: OpId, writer: bool)
    requires op in d.journals
  {
    var j := d.journals[op];
    if j.phase.Finalized? then d' == d
    else
      && d'.live == d.live && d'.journals == d.journals[op := j.(phase := Finalized)]
      && (forall s: Saved :: s in d'.saved <==> s in d.saved && !(s.op == op && s.dir < |j.targets|))
      && (forall s: Saved :: s in d'.saved ==> d'.saved[s] == d.saved[s])
      && (forall place :: !(writer && j.action.Removing? && place == Quarantine(op)) ==> SamePlace(d, d', place))
      && (writer && j.action.Removing? ==> Quarantine(op) !in d'.weights)
  }

  lemma {:induction false} FinalizeMeans(d: Disk, op: OpId, writer: bool)
    ensures FinalizePlan(d, op, writer).error.None? <==> FinalizeAllowed(d, op, writer)
    ensures FinalizeAllowed(d, op, writer) ==> FinalizeDone(d, Run(d, FinalizePlan(d, op, writer).steps), op, writer)
  {
    hide Discards, Run;
    if FinalizeAllowed(d, op, writer) {
      if d.journals[op].phase.Finalized? { RunPlacing(d, []); } else { FinalizeIs(d, op, writer); }
    }
  }

  lemma {:induction false} FinalizeIs(d: Disk, op: OpId, writer: bool)
    requires FinalizeAllowed(d, op, writer) && !d.journals[op].phase.Finalized?
    ensures FinalizeDone(d, Run(d, FinalizePlan(d, op, writer).steps), op, writer)
  {
    hide Discards, Run;
    var j := d.journals[op];
    var unlinking := if writer && j.action.Removing? then [Unlink(Quarantine(op))] else [];
    var marked := unlinking + [Record(op, j.(phase := Finalized))];
    RunPlacing(d, unlinking);
    RunConcat(d, marked, Discards(op, j.targets));
    RecordLast(d, d, unlinking, op, j.(phase := Finalized), |marked|);
    WholeRun(d, marked);
    DiscardsMean(Run(d, marked), op, j.targets, 6 * |j.targets|);
    AllDiscards(op, j.targets);
  }

  lemma {:induction false} AllDiscards(op: OpId, targets: seq<Target>)
    ensures Discards(op, targets)[..6 * |targets|] == Discards(op, targets)
    ensures forall s: Saved :: PlaceOf(s) < 6 * |targets| <==> s.dir < |targets|
  {
  }

  /** The first `n` discards. */
  lemma {:induction false} DiscardsMean(d: Disk, op: OpId, targets: seq<Target>, n: nat)
    requires n <= 6 * |targets|
    ensures var d' := Run(d, Discards(op, targets)[..n]);
            && d' == d.(saved := d'.saved)
            && (forall s: Saved :: s in d'.saved ==> s in d.saved && d'.saved[s] == d.saved[s])
            && (forall s: Saved :: s in d.saved ==> (s in d'.saved <==> !(s.op == op && PlaceOf(s) < n)))
  {
    if n > 0 {
      DiscardsMean(d, op, targets, n - 1);
      assert Discards(op, targets)[..n][..n - 1] == Discards(op, targets)[..n - 1];
      NthDiscard(op, n - 1);
    }
  }

  /** Where the discard of a kept file stands among all discards. */
  function PlaceOf(s: Saved): nat {
    6 * s.dir + 2 * (match s.part case Workflow => 0 case Api => 1 case Manifest => 2) + if s.generation.Before? then 0
      else 1
  }

  lemma {:induction false} NthDiscard(op: OpId, n: nat)
    ensures forall s: Saved :: s.op == op && PlaceOf(s) == n <==>
              s == Saved(op, n / 6, if n % 2 == 0 then Before else After, PartAt(n / 2))
  {
  }

  // ----- everything about one call -----

  lemma {:induction false} CommitFacts(d: Disk, op: OpId, writer: bool, leased: bool)
    ensures CommitPlan(d, op, writer, leased).error.None? <==> CommitAllowed(d, op, writer, leased)
    ensures CommitAllowed(d, op, writer, leased) && Separate(d.journals[op].targets) ==>
              CommitDone(d, Run(d, CommitPlan(d, op, writer, leased).steps), op)
              && Weighs(Run(d, CommitPlan(d, op, writer, leased).steps), d.journals[op])
  {
    hide CommitPlan, CommitDone, Separate;
    CommitAllowedExactly(d, op, writer, leased);
    if CommitAllowed(d, op, writer, leased)
      && Separate(d.journals[op].targets) { CommitDoneMeans(d, op, writer, leased); }
  }

  /** An installation that was not committed before has its declared weight now. */
  predicate Weighs(d: Disk, j: Journal) {
    j.action.Installing? && !j.phase.Committed? ==>
      Library(j.filename) in d.weights && d.weights[Library(j.filename)] == j.digest
  }

  lemma {:induction false} RollbackFacts(d: Disk, op: OpId, writer: bool)
    ensures RollbackPlan(d, op, writer).error.None? <==> RollbackAllowed(d, op, writer)
    ensures RollbackAllowed(d, op, writer) && (op in d.journals ==> Separate(d.journals[op].targets)) ==>
              RollbackDone(d, Run(d, RollbackPlan(d, op, writer).steps), op, writer)
  {
    hide RollbackPlan, RollbackDone, Separate;
    RollbackAllowedExactly(d, op, writer);
    if RollbackAllowed(d, op, writer) && (op in d.journals ==> Separate(d.journals[op].targets)) {
      RollbackDoneMeans(d, op, writer);
    }
  }
}
