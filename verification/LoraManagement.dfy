/** The handlers themselves, step by step over the disk.  Every step may fail,
    with or without having taken effect; `seen` collects the disks in which the
    process might have been stopped. */
module LoraManagement {
  import opened SourcePaths
  import opened Publications
  import opened CatalogChanges
  import opened Transaction
  import opened TransactionRuns
  import opened CrashAtomicity
  import opened WeightSafety
  import opened Preparation
  import opened HandlerAnswers

  /** `d'` is `d0` after some first steps of `steps`. */
  ghost predicate Partway(d0: Disk, steps: seq<Step>, d': Disk) {
    exists k: nat :: d' == Run(d0, Cut(steps, k))
  }

  lemma {:induction false} PartwayIs(d0: Disk, steps: seq<Step>, k: nat)
    ensures Partway(d0, steps, Run(d0, Cut(steps, k)))
  {
  }

  lemma {:induction false} RunNext(d0: Disk, steps: seq<Step>, k: nat)
    requires k < |steps|
    ensures Run(d0, Cut(steps, k + 1)) == Apply(Run(d0, Cut(steps, k)), steps[k])
  {
    assert Cut(steps, k + 1)[..k] == Cut(steps, k);
  }

  class Manager {
    const writer: bool
    var disk: Disk
    ghost var seen: seq<Disk>
    /** How many steps have failed. */
    ghost var faults: nat

    constructor (writer: bool, disk: Disk)
      ensures this.writer == writer && this.disk == disk && seen == [] && faults == 0
    {
      this.writer := writer;
      this.disk := disk;
      seen, faults := [], 0;
    }

    /** The disk is `d0` after exactly `k` of the steps. */
    ghost predicate At(d0: Disk, steps: seq<Step>, k: nat)
      reads this
    {
      k <= |steps| && disk == Run(d0, Cut(steps, k))
    }

    /** Every disk seen since the first `n` is one of a call cut short. */
    ghost predicate OnlyPartway(n: nat, d0: Disk, steps: seq<Step>)
      reads this
    {
      n <= |seen| && forall i :: n <= i < |seen| ==> Partway(d0, steps, seen[i])
    }

    /** One atomic step, the `k`-th of `steps`.  It may fail before or after it
        takes effect. */
    method Do(step: Step, ghost d0: Disk, ghost steps: seq<Step>, ghost k: nat, ghost n: nat)
      returns (ok: bool, ghost at: nat)
      requires At(d0, steps, k) && k < |steps| && steps[k] == step && OnlyPartway(n, d0, steps)
      modifies this
      ensures At(d0, steps, at) && OnlyPartway(n, d0, steps) && old(seen) <= seen
      ensures if ok then at == k + 1 else k <= at <= k + 1
      ensures faults == old(faults) + if ok then 0 else 1
    {
      var happens: bool := *;
      ok, at := *, k;
      faults := faults + if ok then 0 else 1;
      if ok || happens {
        disk, at := Apply(disk, step), k + 1;
        RunNext(d0, steps, k);
        PartwayIs(d0, steps, at);
        seen := seen + [disk];
      }
    }

    /** Both generations of every file are journaled, and every live file still
        holds one of them. */
    method Intact(op: OpId, targets: seq<Target>) returns (ok: bool)
      ensures ok <==> Complete(disk, op, targets) && Known(disk, Slots(disk, op, targets))
    {
      var t := 0;
      while t < |targets|
        invariant 0 <= t <= |targets|
        invariant forall i :: 0 <= i < t ==> EndsWith(targets[i].source, ".json")
        invariant forall n :: 0 <= n < 3 * t ==> KnownAt(disk, op, targets, n)
      {
        if !EndsWith(targets[t].source, ".json") { return false; }
        var p := 0;
        while p < 3
          invariant 0 <= p <= 3
          invariant forall n :: 0 <= n < 3 * t + p ==> KnownAt(disk, op, targets, n)
        {
          assert (3 * t + p) / 3 == t && PartAt(3 * t + p) == PartAt(p);
          var path := PartPath(targets[t].source, PartAt(p));
          var before, after := Saved(op, t, Before, PartAt(p)), Saved(op, t, After, PartAt(p));
          if before !in disk.saved || after !in disk.saved || path !in disk.live
             || (disk.live[path] != disk.saved[before] && disk.live[path] != disk.saved[after])
          {
            assert !KnownAt(disk, op, targets, 3 * t + p);
            NotIntact(disk, op, targets, 3 * t + p);
            return false;
          }
          p := p + 1;
        }
        t := t + 1;
      }
      AllIntact(disk, op, targets);
      return true;
    }

    /** Writes the three files of one target. */
    method WriteTarget(op: OpId, targets: seq<Target>, t: nat, g: Generation, ghost d0: Disk, ghost steps: seq<Step>,
                       ghost base: nat, ghost n: nat)
      returns (ok: bool, ghost at: nat)
      requires t < |targets| && Complete(disk, op, targets)
      requires Publishing(Slots(disk, op, targets), g, steps, base)
      requires At(d0, steps, base + 3 * t) && OnlyPartway(n, d0, steps)
      modifies this
      ensures disk.saved == old(disk.saved)
      ensures At(d0, steps, at) && OnlyPartway(n, d0, steps) && old(seen) <= seen
      ensures if ok then at == base + 3 * t + 3 else base + 3 * t <= at <= base + 3 * t + 3
      ensures faults == old(faults) + if ok then 0 else 1
    {
      hide Run, Cut, Complete, Slots, PartPath;
      ghost var d1 := disk;
      var p := 0;
      at := base + 3 * t;
      while p < 3
        invariant 0 <= p <= 3 && at == base + 3 * t + p
        invariant disk.saved == d1.saved && faults == old(faults)
        invariant At(d0, steps, at) && OnlyPartway(n, d0, steps) && old(seen) <= seen
      {
        SlotWritten(d1, op, targets, g, steps, base, t, p);
        RunNext(d0, steps, at);
        ok, at := Do(Publish(PartPath(targets[t].source, PartAt(p)), disk.saved[Saved(op, t, g, PartAt(p))]),
                     d0, steps, at, n);
        if !ok { return; }
        p := p + 1;
      }
      ok := true;
    }

    /** Records that a repair is required after a rollback failed at `at`. */
    method MarkRepair(op: OpId, ghost d0: Disk, ghost at: nat, ghost n: nat)
      requires op in d0.journals && op in disk.journals && at < |RollbackPlan(d0, op, writer).steps|
      requires At(d0, RollbackPlan(d0, op, writer).steps, at) && OnlyPartway(n, d0, RollbackPlan(d0, op, writer).steps)
      requires disk.journals[op] == d0.journals[op]
      modifies this
      ensures RollsTo(d0, op, writer, disk) && faults == old(faults)
      ensures n <= |seen| && old(seen) <= seen && forall i :: n <= i < |seen| ==> RollsTo(d0, op, writer, seen[i])
    {
      hide RollbackPlan, Run, Cut;
      var happens: bool := *;
      RollsPartway(d0, op, writer, at);
      OnlyRolls(n, d0, op);
      if happens {
        disk := Apply(disk, Record(op, disk.journals[op].(phase := RepairRequired)));
        assert disk == Effect(d0, op, writer, DoRollback(at, true));
        seen := seen + [disk];
      }
    }

    lemma {:induction false} OnlyRolls(n: nat, d0: Disk, op: OpId)
      requires OnlyPartway(n, d0, RollbackPlan(d0, op, writer).steps)
      ensures forall i :: n <= i < |seen| ==> RollsTo(d0, op, writer, seen[i])
    {
      hide RollbackPlan, Run, Cut;
      forall i | n <= i < |seen| ensures RollsTo(d0, op, writer, seen[i]) {
        assert Partway(d0, RollbackPlan(d0, op, writer).steps, seen[i]);
        var k: nat :| seen[i] == Run(d0, Cut(RollbackPlan(d0, op, writer).steps, k));
        RollsPartway(d0, op, writer, k);
      }
    }

    /** Success means the whole plan ran; anything else leaves a disk that the
        plan, cut short, explains, and so is every disk in between.  Unless a step
        fails, success is the answer exactly when a rollback is allowed. */
    method Rollback(op: OpId) returns (answer: Answer)
      modifies this
      ensures answer.Done? ==> RollbackPlan(old(disk), op, writer).error.None?
                               && disk == Run(old(disk), RollbackPlan(old(disk), op, writer).steps)
      ensures answer.Refusal? ==> RollbackPlan(old(disk), op, writer).error == Some(answer.reason)
      ensures !answer.Unverified? && RollsTo(old(disk), op, writer, disk)
      ensures answer.Done? ==> RollbackAllowed(old(disk), op, writer)
      ensures answer.Done? && (op in old(disk).journals ==> Separate(old(disk).journals[op].targets)) ==>
                RollbackDone(old(disk), disk, op, writer)
      ensures faults >= old(faults) && (faults == old(faults) ==>
                if RollbackAllowed(old(disk), op, writer) then answer.Done? else answer.Refusal?)
      ensures old(seen) <= seen && forall i :: |old(seen)| <= i < |seen| ==> RollsTo(old(disk), op, writer, seen[i])
    {
      hide Run, Cut, Complete, Slots, Known, RollbackSteps, Partway, RollsTo, Publishes, RollbackAllowed, RollbackDone,
           Separate, RollbackPlan, Restoring, ReturnWeight;
      ghost var d0, n := disk, |seen|;
      RollbackFacts(d0, op, writer);
      RollbackBranches(d0, op, writer);
      ghost var steps, at := RollbackPlan(d0, op, writer).steps, 0;
      var ok := true;
      RunNone(d0, 0);
      CutNone(d0, steps);
      RollsPartway(d0, op, writer, 0);
      if op !in disk.journals {
        if writer { ok, at := Do(Unlink(Upload(op)), d0, steps, 0, n); }
        Explained(d0, op, at, n);
        return if ok then Done else Interrupted;
      }
      var journal := disk.journals[op];
      if journal.phase.RolledBack? { return Done; }
      if journal.phase.Finalized? { return Refusal("Finalized operation cannot be rolled back"); }
      var targets := journal.targets;
      var intact := Intact(op, targets);
      if !intact {
        ok, at := Do(Record(op, journal.(phase := RepairRequired)), d0, steps, 0, n);
        Explained(d0, op, at, n);
        return Refusal("External publication edit prevents rollback");
      }
      ghost var returning := ReturnWeight(d0, op, journal, writer);
      if writer && journal.action.Removing? && Place.Quarantine(op) in disk.weights {
        if Library(journal.filename) in disk.weights {
          ok, at := Do(Record(op, journal.(phase := RepairRequired)), d0, steps, 0, n);
          Explained(d0, op, at, n);
          return Refusal("LoRA file was replaced during rollback");
        }
        LaidOut(d0, op, writer);
        ok, at := Do(Move(Place.Quarantine(op), Library(journal.filename)), d0, steps, 0, n);
        RollbackJournal(d0, op, writer, at);
        if !ok { MarkRepair(op, d0, at, n); return Interrupted; }
      }
      answer := Restore(op, journal, d0, at, n);
    }

    lemma {:induction false} Explained(d0: Disk, op: OpId, at: nat, n: nat)
      requires At(d0, RollbackPlan(d0, op, writer).steps, at) && OnlyPartway(n, d0, RollbackPlan(d0, op, writer).steps)
      ensures RollsTo(d0, op, writer, disk)
      ensures at == |RollbackPlan(d0, op, writer).steps| ==> disk == Run(d0, RollbackPlan(d0, op, writer).steps)
      ensures forall i :: n <= i < |seen| ==> RollsTo(d0, op, writer, seen[i])
    {
      hide RollbackPlan, Run;
      RollsPartway(d0, op, writer, at);
      OnlyRolls(n, d0, op);
    }

    /** The rest of a rollback, once the weight is back. */
    method Restore(op: OpId, journal: Journal, ghost d0: Disk, ghost before: nat, ghost n: nat) returns (answer: Answer)
      requires op in d0.journals && Restoring(d0, op, writer) && journal == d0.journals[op]
      requires before == |ReturnWeight(d0, op, journal, writer).value|
      requires At(d0, RollbackPlan(d0, op, writer).steps, before)
               && OnlyPartway(n, d0, RollbackPlan(d0, op, writer).steps)
      modifies this
      ensures answer.Done? ==> disk == Run(d0, RollbackPlan(d0, op, writer).steps)
      ensures !answer.Unverified? && !answer.Refusal? && RollsTo(d0, op, writer, disk)
      ensures faults >= old(faults) && (answer.Done? <==> faults == old(faults))
      ensures n <= |seen| && old(seen) <= seen && forall i :: n <= i < |seen| ==> RollsTo(d0, op, writer, seen[i])
    {
      hide Run, Cut, Complete, Slots, Known, RollbackPlan, RollbackSteps, Restoring, ReturnWeight, Publishing, Partway,
           RollsTo;
      ghost var steps, at := RollbackPlan(d0, op, writer).steps, before;
      var targets, ok := journal.targets, true;
      LaidOut(d0, op, writer);
      RollbackJournal(d0, op, writer, before);
      var t := 0;
      while t < |targets|
        invariant 0 <= t <= |targets| && at == before + 3 * t
        invariant disk.saved == d0.saved && faults == old(faults)
        invariant At(d0, steps, at) && OnlyPartway(n, d0, steps) && old(seen) <= seen
      {
        SlotsSaved(d0, disk, op, targets);
        ok, at := WriteTarget(op, targets, t, Before, d0, steps, before, n);
        RollbackJournal(d0, op, writer, at);
        if !ok { MarkRepair(op, d0, at, n); return Interrupted; }
        t := t + 1;
      }
      if writer && journal.action.Installing? {
        if targets != [] {
          ok, at := Do(Unlink(Library(journal.filename)), d0, steps, at, n);
          RollbackJournal(d0, op, writer, at);
          if !ok { MarkRepair(op, d0, at, n); return Interrupted; }
        }
        ok, at := Do(Unlink(Upload(op)), d0, steps, at, n);
        RollbackJournal(d0, op, writer, at);
        if !ok { MarkRepair(op, d0, at, n); return Interrupted; }
      }
      ok, at := Do(Record(op, journal.(phase := RolledBack)), d0, steps, at, n);
      Explained(d0, op, at, n);
      answer := if ok then Done else Interrupted;
    }

    /** Success means the whole plan ran, so every new file was written and
        verified; a refusal means nothing happened; and whatever else happens,
        the disk is that of a commit cut short, possibly followed by a rollback.
        Files that match their journaled revisions always verify, and then, unless
        a step fails, a commit that is allowed succeeds. */
    method Commit(op: OpId, leased: bool) returns (answer: Answer)
      modifies this
      ensures answer.Done? ==> CommitPlan(old(disk), op, writer, leased).error.None?
                               && disk == Run(old(disk), CommitPlan(old(disk), op, writer, leased).steps)
      ensures CommitPlan(old(disk), op, writer, leased).error.Some? ==>
                answer == Refusal(CommitPlan(old(disk), op, writer, leased).error.value) && disk == old(disk)
                  && seen == old(seen)
      ensures CommitsTo(old(disk), op, writer, leased, disk)
      ensures old(seen) <= seen && forall i :: |old(seen)| <= i < |seen| ==>
              CommitsTo(old(disk), op, writer, leased, seen[i])
      ensures Verifiable(old(disk), op) ==> !answer.Unverified?
      ensures !CommitAllowed(old(disk), op, writer, leased) ==>
              answer.Refusal? && disk == old(disk) && seen == old(seen)
      ensures CommitAllowed(old(disk), op, writer, leased) && Verifiable(old(disk), op) && faults == old(faults) ==>
              answer.Done?
      ensures answer.Done? && Separate(old(disk).journals[op].targets) ==>
                CommitDone(old(disk), disk, op) && Weighs(disk, old(disk).journals[op])
                && (old(disk).journals[op].phase.Committed? || Verifiable(old(disk), op))
    {
      hide Run, Cut, Complete, Slots, Known, CommitSteps, Verifiable, RollbackPlan, Partway, CommitsTo, Publishes,
           CommitAllowed, CommitDone, Separate, Weighs, Apart;
      ghost var d0, n := disk, |seen|;
      CommitFacts(d0, op, writer, leased);
      CommitsNothing(d0, op, writer, leased);
      if op !in disk.journals { return Refusal("Unknown LoRA operation"); }
      var journal := disk.journals[op];
      var targets := journal.targets;
      if targets == [] { return Refusal("Operation is not prepared"); }
      if journal.phase.Committed? { return Done; }
      if !journal.phase.Prepared? && !journal.phase.Committing? { return Refusal("Operation is not prepared"); }
      if leased { return Refusal("Save & Publish is active for this workflow"); }
      var intact := Intact(op, targets);
      if !intact { return Refusal("Publication changed during operation"); }
      ghost var steps, at := CommitPlan(d0, op, writer, leased).steps, 0;
      if journal.action.Installing? {
        var place := Library(journal.filename);
        if writer && place !in disk.weights {
          if Upload(op) !in disk.weights { return Refusal("Uploaded LoRA staging file is missing"); }
          if disk.weights[Upload(op)] != journal.digest { return Refusal("Uploaded LoRA staging file changed"); }
          CommitLaidOut(d0, op, writer);
          var ok;
          ok, at := Do(Move(Upload(op), place), d0, steps, 0, n);
          CommitExplained(d0, op, leased, at, n);
          if !ok { return Interrupted; }
          MovedIn(d0, op, place, steps);
        }
        if place !in disk.weights { return Refusal("LoRA file is missing"); }
        if disk.weights[place] != journal.digest { return Refusal("Installed LoRA file changed"); }
      }
      SeparateIsApart(d0, op);
      answer := PublishAll(op, journal, leased, d0, at, n);
    }

    lemma {:induction false} CommitExplained(d0: Disk, op: OpId, leased: bool, at: nat, n: nat)
      requires At(d0, CommitPlan(d0, op, writer, leased).steps, at)
               && OnlyPartway(n, d0, CommitPlan(d0, op, writer, leased).steps)
      ensures CommitsTo(d0, op, writer, leased, disk)
      ensures at == |CommitPlan(d0, op, writer, leased).steps| ==>
              disk == Run(d0, CommitPlan(d0, op, writer, leased).steps)
      ensures forall i :: n <= i < |seen| ==> CommitsTo(d0, op, writer, leased, seen[i])
    {
      hide CommitPlan, Run;
      CommitsPartway(d0, op, writer, leased, at);
      forall i | n <= i < |seen| ensures CommitsTo(d0, op, writer, leased, seen[i]) {
        var k: nat :| seen[i] == Run(d0, Cut(CommitPlan(d0, op, writer, leased).steps, k));
        CommitsPartway(d0, op, writer, leased, k);
      }
    }

    /** The rest of a commit, once the weight is in place. */
    method PublishAll(op: OpId, journal: Journal, leased: bool, ghost d0: Disk, ghost before: nat, ghost n: nat)
      returns (answer: Answer)
      requires op in d0.journals && Publishable(d0, op, writer) && !leased && journal == d0.journals[op]
      requires before == |PlaceWeight(d0, op, journal, writer).value|
      requires At(d0, CommitPlan(d0, op, writer, leased).steps, before)
      requires OnlyPartway(n, d0, CommitPlan(d0, op, writer, leased).steps)
      modifies this
      ensures answer.Done? ==> disk == Run(d0, CommitPlan(d0, op, writer, leased).steps)
      ensures CommitsTo(d0, op, writer, leased, disk)
      ensures n <= |seen| && old(seen) <= seen && forall i :: n <= i < |seen| ==>
              CommitsTo(d0, op, writer, leased, seen[i])
      ensures Verifiable(d0, op) ==> !answer.Unverified?
      ensures faults >= old(faults) && (Verifiable(d0, op) && faults == old(faults) ==> answer.Done?)
      ensures answer.Done? && Apart(d0, op) ==> Verifiable(d0, op)
    {
      hide Run, Cut, Complete, Slots, Known, CommitPlan, CommitSteps, Publishable, PlaceWeight, RollbackPlan,
           Publishing,
           Partway, CommitsTo, RevisionOf, BundleIn, KeptBundle, Apart;
      ghost var steps, at := CommitPlan(d0, op, writer, leased).steps, before;
      var targets, ok := journal.targets, true;
      CommitLaidOut(d0, op, writer);
      ok, at := Do(Record(op, journal.(phase := Committing)), d0, steps, at, n);
      CommitExplained(d0, op, leased, at, n);
      if !ok { return Interrupted; }
      CommitKeptBytes(d0, op, writer, at);
      var t := 0;
      while t < |targets|
        invariant 0 <= t <= |targets| && at == before + 1 + 3 * t
        invariant disk.saved == d0.saved && faults == old(faults)
        invariant Apart(d0, op) ==> forall k :: 0 <= k < t ==>
                  RevisionOf(KeptBundle(d0, op, targets, k)) == Ok(targets[k].candidate)
        invariant At(d0, steps, at) && OnlyPartway(n, d0, steps) && old(seen) <= seen
      {
        SlotsSaved(d0, disk, op, targets);
        CommitKeptBytes(d0, op, writer, at);
        ok, at := WriteTarget(op, targets, t, After, d0, steps, before + 1, n);
        CommitExplained(d0, op, leased, at, n);
        if !ok { answer := Abandon(op, d0, leased, at, n); return if answer.Done? then Interrupted else answer; }
        var bundle := BundleIn(disk.live, targets[t].source);
        if Apart(d0, op) { Compared(d0, op, t); }
        if bundle.Refused? || RevisionOf(bundle.value) != Ok(targets[t].candidate) {
          answer := Abandon(op, d0, leased, at, n);
          return if answer.Done? then Unverified else answer;
        }
        t := t + 1;
      }
      ok, at := Do(Record(op, journal.(phase := Committed)), d0, steps, at, n);
      CommitExplained(d0, op, leased, at, n);
      answer := if ok then Done else Interrupted;
    }

    /** What is compared after a target has been written are its kept files. */
    lemma {:induction false} Compared(d0: Disk, op: OpId, t: nat)
      requires Apart(d0, op) && Publishable(d0, op, writer) && t < |d0.journals[op].targets|
      requires disk == Run(d0, Cut(CommitPlan(d0, op, writer, false).steps,
                                   |PlaceWeight(d0, op, d0.journals[op], writer).value| + 1 + 3 * t + 3))
      ensures EndsWith(d0.journals[op].targets[t].source, ".json")
      ensures BundleIn(disk.live, d0.journals[op].targets[t].source)
              == Ok(KeptBundle(d0, op, d0.journals[op].targets, t))
    {
      hide CommitPlan, Run, Cut, Complete, Slots, Known, BundleIn, RevisionOf, Written, Publishable, PlaceWeight;
      TargetWritten(d0, op, writer, t);
      TargetVerifies(d0, disk.live, op, d0.journals[op].targets, t);
    }

    /** The rollback with which a failing commit ends. */
    method Abandon(op: OpId, ghost d0: Disk, ghost leased: bool, ghost at: nat, ghost n: nat) returns (answer: Answer)
      requires At(d0, CommitPlan(d0, op, writer, leased).steps, at)
      requires OnlyPartway(n, d0, CommitPlan(d0, op, writer, leased).steps)
      modifies this
      ensures !answer.Unverified? && faults >= old(faults)
      ensures CommitsTo(d0, op, writer, leased, disk)
      ensures n <= |seen| && old(seen) <= seen && forall i :: n <= i < |seen| ==>
              CommitsTo(d0, op, writer, leased, seen[i])
    {
      hide Run, Cut, CommitPlan, RollbackPlan;
      CommitExplained(d0, op, leased, at, n);
      ghost var d1, m := disk, |seen|;
      ghost var earlier := seen;
      assert d1 == Effect(d0, op, writer, DoCommit(leased, at));
      answer := Rollback(op);
    }

    /** Retires the weight of a committed removal. */
    method Quarantine(op: OpId, clear: bool) returns (answer: Answer)
      modifies this
      ensures var plan := QuarantinePlan(old(disk), op, writer, clear);
              && (answer.Done? ==> plan.error.None? && disk == Run(old(disk), plan.steps))
              && (plan.error.Some? ==> answer == Refusal(plan.error.value) && disk == old(disk) && seen == old(seen))
              && Partway(old(disk), plan.steps, disk) && OnlyPartway(|old(seen)|, old(disk), plan.steps)
              && old(seen) <= seen
      ensures QuarantineAllowed(old(disk), op, writer, clear) <==> !answer.Refusal?
      ensures answer.Done? ==> QuarantineDone(old(disk), disk, op, writer)
      ensures faults == old(faults) ==> !answer.Interrupted?
    {
      hide Run, Cut, QuarantineAllowed, QuarantineDone;
      ghost var d0, n := disk, |seen|;
      QuarantineMeans(d0, op, writer, clear);
      ghost var steps, at := QuarantinePlan(d0, op, writer, clear).steps, 0;
      CutNone(d0, steps);
      PartwayIs(d0, steps, 0);
      if op !in disk.journals { return Refusal("Unknown LoRA operation"); }
      var journal, ok := disk.journals[op], true;
      if !journal.action.Removing? { return Refusal("Only removal has a quarantine phase"); }
      if journal.phase.Quarantined? { return Done; }
      if !journal.phase.Committed? { return Refusal("Removal must be committed before quarantine"); }
      if writer {
        if !clear { return Refusal("LoRA is used by another published workflow"); }
        if Library(journal.filename) !in disk.weights { return Refusal("LoRA file is missing"); }
        ok, at := Do(Move(Library(journal.filename), Place.Quarantine(op)), d0, steps, 0, n);
        PartwayIs(d0, steps, at);
        if !ok { return Interrupted; }
      }
      ok, at := Do(Record(op, journal.(phase := Quarantined)), d0, steps, at, n);
      PartwayIs(d0, steps, at);
      WholeCut(d0, steps);
      answer := if ok then Done else Interrupted;
    }

    /** Ends an operation: says so first, then forgets the kept bytes. */
    method Finalize(op: OpId) returns (answer: Answer)
      modifies this
      ensures var plan := FinalizePlan(old(disk), op, writer);
              && (answer.Done? ==> plan.error.None? && disk == Run(old(disk), plan.steps))
              && (plan.error.Some? ==> answer == Refusal(plan.error.value) && disk == old(disk) && seen == old(seen))
              && Partway(old(disk), plan.steps, disk) && OnlyPartway(|old(seen)|, old(disk), plan.steps)
              && old(seen) <= seen
      ensures FinalizeAllowed(old(disk), op, writer) <==> !answer.Refusal?
      ensures answer.Done? ==> FinalizeDone(old(disk), disk, op, writer)
      ensures faults == old(faults) ==> !answer.Interrupted?
    {
      hide Run, Cut, Discards, FinalizeAllowed, FinalizeDone;
      ghost var d0, n := disk, |seen|;
      FinalizeMeans(d0, op, writer);
      ghost var steps := FinalizePlan(d0, op, writer).steps;
      CutNone(d0, steps);
      PartwayIs(d0, steps, 0);
      WholeCut(d0, steps);
      PartwayIs(d0, steps, |steps|);
      if op !in disk.journals { return Refusal("Unknown LoRA operation"); }
      var journal := disk.journals[op];
      if journal.phase.Finalized? { return Done; }
      if !journal.phase.Quarantined? && (!journal.phase.Committed? || (journal.action.Removing? && writer)) {
        return Refusal("Operation is not ready to finalize");
      }
      answer := Forget(op, journal, d0, n);
    }

    method Forget(op: OpId, journal: Journal, ghost d0: Disk, ghost n: nat) returns (answer: Answer)
      requires op in d0.journals && FinalizePlan(d0, op, writer).error.None? && !d0.journals[op].phase.Finalized?
      requires journal == d0.journals[op] && disk == d0 && OnlyPartway(n, d0, FinalizePlan(d0, op, writer).steps)
      modifies this
      ensures answer.Done? || (answer.Interrupted? && Partway(d0, FinalizePlan(d0, op, writer).steps, disk))
      ensures answer.Interrupted? ==> faults > old(faults)
      ensures answer.Done? ==> disk == Run(d0, FinalizePlan(d0, op, writer).steps)
      ensures OnlyPartway(n, d0, FinalizePlan(d0, op, writer).steps) && old(seen) <= seen
    {
      hide Run, Cut, Discards, FinalizePlan, Partway;
      ghost var steps, at := FinalizePlan(d0, op, writer).steps, 0;
      var ok := true;
      CutNone(d0, steps);
      FinalizeLaidOut(d0, op, writer);
      if writer && journal.action.Removing? {
        ok, at := Do(Unlink(Place.Quarantine(op)), d0, steps, 0, n);
        PartwayIs(d0, steps, at);
        if !ok { return Interrupted; }
      }
      ok, at := Do(Record(op, journal.(phase := Finalized)), d0, steps, at, n);
      PartwayIs(d0, steps, at);
      if !ok { return Interrupted; }
      ghost var base := at;
      var t := 0;
      while t < |journal.targets|
        invariant 0 <= t <= |journal.targets| && at == base + 6 * t && faults == old(faults)
        invariant At(d0, steps, at) && OnlyPartway(n, d0, steps) && old(seen) <= seen
      {
        var p := 0;
        while p < 3
          invariant 0 <= p <= 3 && at == base + 6 * t + 2 * p && faults == old(faults)
          invariant At(d0, steps, at) && OnlyPartway(n, d0, steps) && old(seen) <= seen
        {
          DiscardAt(op, journal.targets, t, p);
          assert steps[base + (6 * t + 2 * p)] == Discards(op, journal.targets)[6 * t + 2 * p];
          ok, at := Do(Discard(Saved(op, t, Before, PartAt(p))), d0, steps, at, n);
          PartwayIs(d0, steps, at);
          if !ok { return Interrupted; }
          assert steps[base + (6 * t + 2 * p + 1)] == Discards(op, journal.targets)[6 * t + 2 * p + 1];
          ok, at := Do(Discard(Saved(op, t, After, PartAt(p))), d0, steps, at, n);
          PartwayIs(d0, steps, at);
          if !ok { return Interrupted; }
          p := p + 1;
        }
        t := t + 1;
      }
      WholeCut(d0, steps);
      answer := Done;
    }

    /** Journals old and new bytes of every target, or refuses without a trace,
        and it refuses for the listed reasons only.  Wherever it stops, nothing
        but the operation's own journal and kept bytes has changed, and as soon
        as the operation is recorded as prepared it is ready to commit: its files
        are distinct and all differ from their successors, and every candidate
        passes the check its predecessor passed. */
    method Prepare(op: OpId, request: Request, targets: seq<Requested>, leased: bool, clear: bool)
      returns (answer: Answer)
      requires targets != [] && multiset(targets) == multiset(request.targets)
      requires forall i :: 0 <= i < |targets| ==> SafeSource(targets[i].source)
      requires forall i, j :: 0 <= i < j < |targets| ==> targets[i].source != targets[j].source
      modifies this
      ensures answer.Refusal? <==> Refuses(old(disk), op, request, targets, leased, clear)
      ensures answer.Refusal? || AlreadyPrepared(old(disk), op) ==> disk == old(disk) && seen == old(seen)
      ensures answer.Done? ==> AlreadyPrepared(disk, op) && disk.journals[op].request == Some(request)
      ensures answer.Done? || answer.Refusal? || (answer.Interrupted? && faults > old(faults))
      ensures !AlreadyPrepared(old(disk), op) ==> PrepareStop(old(disk), disk, op, request, targets)
      ensures !AlreadyPrepared(old(disk), op) ==>
                forall i :: |old(seen)| <= i < |seen| ==> PrepareStop(old(disk), seen[i], op, request, targets)
      ensures old(seen) <= seen
    {
      hide PreparedFrom, ValidatedOn, SafeSource, Drafted, Undraftable, OnlyOwn, Acceptable, AllTake;
      if !AlreadyPrepared(disk, op) { NothingPrepared(disk, op, request, targets); }
      if leased { return Refusal("Save & Publish is active for this workflow"); }
      if op in disk.journals {
        var current := disk.journals[op];
        if current.phase.Prepared? {
          return if current.request == Some(request) then Done
                 else Refusal("Operation ID is already prepared for another change");
        }
        if !current.phase.Staged? { return Refusal("Operation is already in progress"); }
        if !request.change.Install? { return Refusal("Staged upload belongs to an install operation"); }
      }
      var change := ValidatedOn(disk, op, request.change);
      AcceptedOn(disk, op, request.change);
      if change.Refused? { return Refusal(change.reason); }
      UndraftableMeans(disk, op, request.change, change.value, request.publishedAt, targets);
      var drafted := DraftAll(change.value, request.publishedAt, targets);
      if drafted.Refused? { return Refusal(drafted.reason); }
      if request.change.Remove? && !clear { return Refusal("LoRA is used by another published workflow"); }
      answer := KeepOperation(op, request, change.value, targets, drafted.value);
    }

    /** Keeps the bytes of all drafts, then records the operation as prepared. */
    method KeepOperation(op: OpId, request: Request, change: Change, targets: seq<Requested>, drafts: seq<Draft>)
      returns (answer: Answer)
      requires targets != [] && multiset(targets) == multiset(request.targets) && !AlreadyPrepared(disk, op)
      requires forall i, j :: 0 <= i < j < |targets| ==> targets[i].source != targets[j].source
      requires Drafted(disk, change, request.publishedAt, targets, drafts)
               && ValidatedOn(disk, op, request.change) == Ok(change)
      modifies this
      ensures answer.Done? || (answer.Interrupted? && faults > old(faults))
      ensures answer.Done? ==> AlreadyPrepared(disk, op) && disk.journals[op].request == Some(request)
      ensures PrepareStop(old(disk), disk, op, request, targets) && old(seen) <= seen
      ensures forall i :: |old(seen)| <= i < |seen| ==> PrepareStop(old(disk), seen[i], op, request, targets)
    {
      hide PreparedFrom, ValidatedOn, Drafted;
      ghost var d0 := disk;
      DraftedParse(disk, change, request.publishedAt, targets, drafts);
      var done := KeepDrafts(op, drafts, |seen|);
      if !done { return Interrupted; }
      var journal := Journal(Prepared, ActionOf(change), TargetsOf(drafts), FileOf(drafts[0].file), DigestOf(change),
        Some(request));
      var happens: bool := *;
      if happens {
        disk := Apply(disk, Record(op, journal));
        seen := seen + [disk];
        DraftsAreReady(d0, disk, op, request, change, targets, drafts);
      }
      var ok: bool := *;
      if happens && ok { return Done; }
      faults := faults + 1;
      answer := Interrupted;
    }

    /** Works out every target before anything is written. */
    method DraftAll(change: Change, publishedAt: string, targets: seq<Requested>) returns (r: Result<seq<Draft>>)
      requires targets != [] && forall i :: 0 <= i < |targets| ==> SafeSource(targets[i].source)
      requires forall i, j :: 0 <= i < j < |targets| ==> targets[i].source != targets[j].source
      ensures r.Ok? ==> Drafted(disk, change, publishedAt, targets, r.value)
      ensures r.Refused? <==> Undraftable(disk, change, publishedAt, targets)
    {
      hide DraftOf, SafeSource, Undraftable, Drafted;
      var drafts: seq<Draft>, i := [], 0;
      while i < |targets|
        invariant 0 <= i <= |targets| && |drafts| == i
        invariant forall k :: 0 <= k < i ==> EndsWith(targets[k].source, ".json")
                                             && DraftOf(disk, change, publishedAt, targets[k]) == Ok(drafts[k])
        invariant forall k :: 0 <= k < i ==> drafts[k].file == drafts[0].file
      {
        SafeIsJson(targets[i].source);
        var draft := DraftOf(disk, change, publishedAt, targets[i]);
        if draft.Refused? {
          TargetRefuses(disk, change, publishedAt, targets, i);
          return Refused(draft.reason);
        }
        if i > 0 && draft.value.file != drafts[0].file {
          TargetsDiffer(disk, change, publishedAt, targets, i);
          return Refused("LoRA file differs between workflows");
        }
        drafts, i := drafts + [draft.value], i + 1;
      }
      AllDrafted(disk, change, publishedAt, targets, drafts);
      r := Ok(drafts);
    }

    /** Writes the old and the new bytes of every draft beside the journal. */
    method KeepDrafts(op: OpId, drafts: seq<Draft>, ghost n: nat) returns (ok: bool)
      requires |seen| == n
      modifies this
      ensures disk == old(disk).(saved := disk.saved) && OnlyOwn(old(disk), disk, op)
      ensures ok ==> forall k :: 0 <= k < 3 * |drafts| ==> KeptAt(disk.saved, op, drafts, k)
      ensures faults == old(faults) + if ok then 0 else 1
      ensures old(seen) <= seen && forall i :: n <= i < |seen| ==> Keeping(old(disk), seen[i], op)
    {
      ghost var d0 := disk;
      var t := 0;
      while t < |drafts|
        invariant 0 <= t <= |drafts| && faults == old(faults)
        invariant disk == d0.(saved := disk.saved) && OnlyOwn(d0, disk, op)
        invariant forall k :: 0 <= k < 3 * t ==> KeptAt(disk.saved, op, drafts, k)
        invariant old(seen) <= seen && forall i :: n <= i < |seen| ==> Keeping(d0, seen[i], op)
      {
        var p := 0;
        while p < 3
          invariant 0 <= p <= 3 && faults == old(faults)
          invariant disk == d0.(saved := disk.saved) && OnlyOwn(d0, disk, op)
          invariant forall k :: 0 <= k < 3 * t + p ==> KeptAt(disk.saved, op, drafts, k)
          invariant old(seen) <= seen && forall i :: n <= i < |seen| ==> Keeping(d0, seen[i], op)
        {
          ghost var d1 := disk;
          ok := KeepOne(Saved(op, t, Before, PartAt(p)), drafts[t].raw.At(PartAt(p)), d0, n);
          if !ok { return; }
          ok := KeepOne(Saved(op, t, After, PartAt(p)), drafts[t].candidate.At(PartAt(p)), d0, n);
          if !ok { return; }
          KeptStays(d1, disk, op, drafts, t, p);
          p := p + 1;
        }
        t := t + 1;
      }
      ok := true;
    }

    method KeepOne(saved: Saved, bytes: Bytes, ghost d0: Disk, ghost n: nat) returns (ok: bool)
      requires disk == d0.(saved := disk.saved) && OnlyOwn(d0, disk, saved.op)
      requires n <= |seen| && forall i :: n <= i < |seen| ==> Keeping(d0, seen[i], saved.op)
      modifies this
      ensures disk == d0.(saved := disk.saved) && OnlyOwn(d0, disk, saved.op)
      ensures old(seen) <= seen && forall i :: n <= i < |seen| ==> Keeping(d0, seen[i], saved.op)
      ensures disk.saved == old(disk.saved)[saved := bytes] || (!ok && disk == old(disk))
      ensures faults == old(faults) + if ok then 0 else 1
    {
      hide OnlyOwn;
      var happens: bool := *;
      ok := *;
      faults := faults + if ok then 0 else 1;
      if ok || happens {
        KeepIsOwn(d0, disk, saved, bytes);
        disk := Apply(disk, Keep(saved, bytes));
        seen := seen + [disk];
      }
    }
  }

  /** One file of an operation is journaled and holds one of its two values. */
  predicate KnownAt(d: Disk, op: OpId, targets: seq<Target>, n: nat)
    requires n < 3 * |targets| && EndsWith(targets[n / 3].source, ".json")
  {
    var before, after := Saved(op, n / 3, Before, PartAt(n)), Saved(op, n / 3, After, PartAt(n));
    var path := PartPath(targets[n / 3].source, PartAt(n));
    before in d.saved && after in d.saved && path in d.live
    && (d.live[path] == d.saved[before] || d.live[path] == d.saved[after])
  }

  lemma {:induction false} NotIntact(d: Disk, op: OpId, targets: seq<Target>, n: nat)
    requires n < 3 * |targets| && EndsWith(targets[n / 3].source, ".json") && !KnownAt(d, op, targets, n)
    ensures !(Complete(d, op, targets) && Known(d, Slots(d, op, targets)))
  {
    if Complete(d, op, targets) {
      var slot := Slots(d, op, targets)[n];
    }
  }

  lemma {:induction false} AllIntact(d: Disk, op: OpId, targets: seq<Target>)
    requires forall t :: t in targets ==> EndsWith(t.source, ".json")
    requires forall n :: 0 <= n < 3 * |targets| ==> KnownAt(d, op, targets, n)
    ensures Complete(d, op, targets) && Known(d, Slots(d, op, targets))
  {
    forall n | 0 <= n < 3 * |targets|
      ensures Saved(op, n / 3, Before, PartAt(n)) in d.saved && Saved(op, n / 3, After, PartAt(n)) in d.saved
    {
      assert KnownAt(d, op, targets, n);
    }
    forall n | 0 <= n < 3 * |targets|
      ensures var slot := Slots(d, op, targets)[n];
              slot.path in d.live && (d.live[slot.path] == slot.before || d.live[slot.path] == slot.after)
    {
      assert KnownAt(d, op, targets, n);
    }
  }

  lemma {:induction false} SlotWritten(d: Disk, op: OpId, targets: seq<Target>, g: Generation, steps: seq<Step>,
                                       base: nat, t: nat, p: nat)
    requires t < |targets| && p < 3 && Complete(d, op, targets)
    requires Publishing(Slots(d, op, targets), g, steps, base)
    ensures EndsWith(targets[t].source, ".json") && Saved(op, t, g, PartAt(p)) in d.saved
    ensures steps[base + 3 * t + p]
            == Publish(PartPath(targets[t].source, PartAt(p)), d.saved[Saved(op, t, g, PartAt(p))])
  {
    var n := 3 * t + p;
    assert n / 3 == t && PartAt(n) == PartAt(p);
    assert Saved(op, n / 3, Before, PartAt(n)) in d.saved && Saved(op, n / 3, After, PartAt(n)) in d.saved;
    assert steps[base + n] == Publish(Slots(d, op, targets)[n].path, Slots(d, op, targets)[n].Bytes(g));
  }

  /** From `base` on, the steps publish the slots. */
  ghost predicate Publishing(slots: seq<Slot>, g: Generation, steps: seq<Step>, base: nat) {
    base + |slots| <= |steps|
    && forall i :: 0 <= i < |slots| ==> steps[base + i] == Publish(slots[i].path, slots[i].Bytes(g))
  }

  /** What a rollback does that does not come as far as the files. */
  lemma {:induction false} RollbackBranches(d: Disk, op: OpId, writer: bool)
    ensures var plan := RollbackPlan(d, op, writer);
            if op !in d.journals then plan == Plan(if writer then [Unlink(Upload(op))] else [], None)
            else
              var j := d.journals[op];
              if j.phase.RolledBack? then plan == Plan([], None)
              else if j.phase.Finalized? then plan == Refuse("Finalized operation cannot be rolled back")
              else if !(Complete(d, op, j.targets) && Known(d, Slots(d, op, j.targets))) then
                plan == RepairPlan(op, j, "External publication edit prevents rollback")
              else if writer && j.action.Removing? && Quarantine(op) in d.weights
                && Library(j.filename) in d.weights then
                plan == RepairPlan(op, j, "LoRA file was replaced during rollback")
              else plan.error.None? && Restoring(d, op, writer)
                   && ReturnWeight(d, op, j, writer).value
                      == if writer && j.action.Removing? && Quarantine(op) in d.weights
                         then [Move(Quarantine(op), Library(j.filename))] else []
  {
    hide Complete, Slots, Known, RollbackSteps;
  }

  /** How a handler answers: it did all of its work, it refused, an I/O failure
      interrupted it, or the published files did not verify. */
  datatype Answer = Done | Refusal(reason: string) | Interrupted | Unverified

  /** `d` is the disk after some rollback of `op` from `d0`, complete or not. */
  ghost predicate RollsTo(d0: Disk, op: OpId, writer: bool, d: Disk) {
    exists cut: nat, failed :: d == Effect(d0, op, writer, DoRollback(cut, failed))
  }

  lemma {:induction false} RollsPartway(d0: Disk, op: OpId, writer: bool, k: nat)
    ensures RollsTo(d0, op, writer, Run(d0, Cut(RollbackPlan(d0, op, writer).steps, k)))
  {
    hide RollbackPlan, Run, Cut;
    assert Effect(d0, op, writer, DoRollback(k, false)) == Run(d0, Cut(RollbackPlan(d0, op, writer).steps, k));
  }

  lemma {:induction false} CutNone(d0: Disk, steps: seq<Step>)
    ensures Run(d0, Cut(steps, 0)) == d0 && Run(d0, []) == d0
  {
  }

  lemma {:induction false} SlotsSaved(d: Disk, d': Disk, op: OpId, targets: seq<Target>)
    requires Complete(d, op, targets) && d'.saved == d.saved
    ensures Complete(d', op, targets) && Slots(d', op, targets) == Slots(d, op, targets)
  {
  }

  /** A rollback that passed every check. */
  ghost predicate Restoring(d: Disk, op: OpId, writer: bool) {
    && op in d.journals && !d.journals[op].phase.RolledBack? && !d.journals[op].phase.Finalized?
    && Complete(d, op, d.journals[op].targets) && Known(d, Slots(d, op, d.journals[op].targets))
    && ReturnWeight(d, op, d.journals[op], writer).Ok?
  }

  lemma {:induction false} LaidOut(d: Disk, op: OpId, writer: bool)
    requires Restoring(d, op, writer)
    ensures var j := d.journals[op];
            var steps, returning, dropping := RollbackPlan(d, op, writer).steps, ReturnWeight(d, op, j, writer).value,
              DropWeight(op, j, writer);
            var base := |returning| + 3 * |j.targets|;
            && Complete(d, op, j.targets)
            && |steps| == base + |dropping| + 1
            && (returning == [] || (returning == [Move(Quarantine(op), Library(j.filename))]
                && steps[0] == returning[0]))
            && Publishing(Slots(d, op, j.targets), Before, steps, |returning|)
            && (dropping != [] ==> steps[base] == dropping[0])
            && (|dropping| > 1 ==> steps[base + 1] == dropping[1])
            && steps[base + |dropping|] == Record(op, j.(phase := RolledBack))
  {
    hide Complete, Slots, Known;
    var j := d.journals[op];
    var base := |ReturnWeight(d, op, j, writer).value| + 3 * |j.targets|;
    assert RollbackPlan(d, op, writer).steps[base..] == DropWeight(op, j, writer)
           + [Record(op, j.(phase := RolledBack))];
  }

  /** Until its last step a rollback leaves the journal and the kept bytes alone. */
  lemma {:induction false} RollbackJournal(d: Disk, op: OpId, writer: bool, k: nat)
    requires Restoring(d, op, writer) && k < |RollbackPlan(d, op, writer).steps|
    ensures var d' := Run(d, Cut(RollbackPlan(d, op, writer).steps, k));
            d'.saved == d.saved && d'.journals == d.journals
  {
    hide Complete, Slots, Known;
    var steps := RollbackPlan(d, op, writer).steps;
    forall i | 0 <= i < k ensures !steps[i].Keep? && !steps[i].Discard? && !steps[i].Record? {
    }
    OnlyPublishesAndMoves(d, steps, k);
  }

  lemma {:induction false} OnlyPublishesAndMoves(d: Disk, steps: seq<Step>, k: nat)
    requires k <= |steps| && forall i :: 0 <= i < k ==> !steps[i].Keep? && !steps[i].Discard? && !steps[i].Record?
    ensures Run(d, Cut(steps, k)).saved == d.saved && Run(d, Cut(steps, k)).journals == d.journals
  {
    if k > 0 {
      OnlyPublishesAndMoves(d, steps, k - 1);
      RunNext(d, steps, k - 1);
    } else {
      CutNone(d, steps);
    }
  }

  /** `d` is the disk after some commit of `op` from `d0`, complete or not, or
      after such a commit and some rollback. */
  ghost predicate CommitsTo(d0: Disk, op: OpId, writer: bool, leased: bool, d: Disk) {
    exists cut: nat ::
      d == Effect(d0, op, writer, DoCommit(leased, cut))
        || RollsTo(Effect(d0, op, writer, DoCommit(leased, cut)), op, writer, d)
  }

  lemma {:induction false} CommitsPartway(d0: Disk, op: OpId, writer: bool, leased: bool, k: nat)
    ensures CommitsTo(d0, op, writer, leased, Run(d0, Cut(CommitPlan(d0, op, writer, leased).steps, k)))
  {
    hide CommitPlan, Run, Cut;
    assert Effect(d0, op, writer, DoCommit(leased, k)) == Run(d0, Cut(CommitPlan(d0, op, writer, leased).steps, k));
  }

  lemma {:induction false} CommitsNothing(d0: Disk, op: OpId, writer: bool, leased: bool)
    ensures CommitsTo(d0, op, writer, leased, d0) && Run(d0, []) == d0
            && Run(d0, Cut(CommitPlan(d0, op, writer, leased).steps, 0)) == d0
  {
    hide CommitPlan;
    CommitsPartway(d0, op, writer, leased, 0);
    CutNone(d0, CommitPlan(d0, op, writer, leased).steps);
  }

  /** A commit that passed every check. */
  ghost predicate Publishable(d: Disk, op: OpId, writer: bool) {
    && op in d.journals && (d.journals[op].phase.Prepared? || d.journals[op].phase.Committing?)
    && d.journals[op].targets != []
    && Complete(d, op, d.journals[op].targets) && Known(d, Slots(d, op, d.journals[op].targets))
    && PlaceWeight(d, op, d.journals[op], writer).Ok?
  }

  lemma {:induction false} CommitLaidOut(d: Disk, op: OpId, writer: bool)
    requires Publishable(d, op, writer)
    ensures var j := d.journals[op];
            var steps, placing := CommitPlan(d, op, writer, false).steps, PlaceWeight(d, op, j, writer).value;
            && Complete(d, op, j.targets)
            && |steps| == |placing| + 1 + 3 * |j.targets| + 1
            && (placing == [] || (placing == [Move(Upload(op), Library(j.filename))] && steps[0] == placing[0]))
            && steps[|placing|] == Record(op, j.(phase := Committing))
            && Publishing(Slots(d, op, j.targets), After, steps, |placing| + 1)
            && steps[|placing| + 1 + 3 * |j.targets|] == Record(op, j.(phase := Committed))
  {
    hide Complete, Slots, Known;
  }

  /** A commit never touches the kept bytes. */
  lemma {:induction false} CommitKeptBytes(d: Disk, op: OpId, writer: bool, k: nat)
    requires Publishable(d, op, writer) && k <= |CommitPlan(d, op, writer, false).steps|
    ensures Run(d, Cut(CommitPlan(d, op, writer, false).steps, k)).saved == d.saved
  {
    hide Complete, Slots, Known;
    KeepsBytes(d, CommitPlan(d, op, writer, false).steps, k);
  }

  lemma {:induction false} KeepsBytes(d: Disk, steps: seq<Step>, k: nat)
    requires k <= |steps| && forall s :: s in steps ==> !s.Keep? && !s.Discard?
    ensures Run(d, Cut(steps, k)).saved == d.saved
  {
    if k > 0 {
      KeepsBytes(d, steps, k - 1);
      RunNext(d, steps, k - 1);
    } else {
      CutNone(d, steps);
    }
  }

  lemma {:induction false} MovedIn(d: Disk, op: OpId, place: Place, steps: seq<Step>)
    requires steps != [] && steps[0] == Move(Upload(op), place) && Upload(op) in d.weights
    ensures var weights := Run(d, Cut(steps, 1)).weights; place in weights && weights[place] == d.weights[Upload(op)]
  {
    RunNext(d, steps, 0);
    CutNone(d, steps);
  }

  /** The journaled new files have the journaled revisions and go to distinct
      live files. */
  ghost predicate Verifiable(d: Disk, op: OpId) { Apart(d, op) && Faithful(d, op, d.journals[op].targets) }

  ghost predicate Apart(d: Disk, op: OpId) {
    && op in d.journals && Complete(d, op, d.journals[op].targets)
    && Paths(Slots(d, op, d.journals[op].targets), d.live)
  }

  lemma {:induction false} SeparateIsApart(d: Disk, op: OpId)
    requires op in d.journals && Complete(d, op, d.journals[op].targets)
             && Known(d, Slots(d, op, d.journals[op].targets))
    ensures Separate(d.journals[op].targets) ==> Apart(d, op)
  {
    hide Complete, Known, Slots, FilesIntact, Separate, Paths;
    IntactMeans(d, op, d.journals[op].targets);
    if Separate(d.journals[op].targets) { SeparatePaths(d, op, d.journals[op].targets); }
  }

  /** The comparison after the target `t` has been written is about its kept files. */
  lemma {:induction false} TargetVerifies(d: Disk, live: map<string, Bytes>, op: OpId, targets: seq<Target>, t: nat)
    requires t < |targets| && Complete(d, op, targets)
    requires Paths(Slots(d, op, targets), d.live) && Written(d.live, live, Slots(d, op, targets), After, 3 * t + 3)
    ensures EndsWith(targets[t].source, ".json")
    ensures BundleIn(live, targets[t].source) == Ok(KeptBundle(d, op, targets, t))
  {
    hide RevisionOf, Slots, Complete, PartPath, Written, Paths;
    LiveSlot(d, live, op, targets, t, 0);
    LiveSlot(d, live, op, targets, t, 1);
    LiveSlot(d, live, op, targets, t, 2);
    assert PartAt(0) == Workflow && PartAt(1) == Api && PartAt(2) == Manifest;
    assert BundleIn(live, targets[t].source) == Ok(KeptBundle(d, op, targets, t));
  }

  lemma {:induction false} LiveSlot(d: Disk, live: map<string, Bytes>, op: OpId, targets: seq<Target>, t: nat, i: nat)
    requires t < |targets| && i < 3 && Complete(d, op, targets)
    requires Paths(Slots(d, op, targets), d.live) && Written(d.live, live, Slots(d, op, targets), After, 3 * t + 3)
    ensures EndsWith(targets[t].source, ".json")
    ensures var path := PartPath(targets[t].source, PartAt(i));
            path in live && live[path] == Slots(d, op, targets)[3 * t + i].after
  {
    hide PartPath;
    var slots := Slots(d, op, targets);
    assert (3 * t + i) / 3 == t && PartAt(3 * t + i) == PartAt(i);
    assert slots[3 * t + i].path == PartPath(targets[t].source, PartAt(i));
    assert live[slots[3 * t + i].path] == slots[3 * t + i].Bytes(After);
  }

  /** The live files after the target `t` of a commit has been written. */
  lemma {:induction false} TargetWritten(d: Disk, op: OpId, writer: bool, t: nat)
    requires Publishable(d, op, writer) && Apart(d, op) && t < |d.journals[op].targets|
    ensures var j := d.journals[op];
            var steps := CommitPlan(d, op, writer, false).steps;
            Written(d.live, Run(d, Cut(steps, |PlaceWeight(d, op, j, writer).value| + 1 + 3 * t + 3)).live,
                    Slots(d, op, j.targets), After, 3 * t + 3)
  {
    hide Known, Run, Cut, Complete, Slots;
    var j := d.journals[op];
    var slots, placing := Slots(d, op, j.targets), PlaceWeight(d, op, j, writer).value;
    CommitCut(d, op, placing, slots, |placing| + 1 + 3 * t + 3);
  }

  lemma {:induction false} WholeCut(d: Disk, steps: seq<Step>)
    ensures Run(d, Cut(steps, |steps|)) == Run(d, steps)
  {
  }

  lemma {:induction false} FinalizeLaidOut(d: Disk, op: OpId, writer: bool)
    requires op in d.journals && FinalizePlan(d, op, writer).error.None? && !d.journals[op].phase.Finalized?
    ensures var j, steps := d.journals[op], FinalizePlan(d, op, writer).steps;
            var base := if writer && j.action.Removing? then 2 else 1;
            && |steps| == base + |Discards(op, j.targets)| && |Discards(op, j.targets)| == 6 * |j.targets|
            && (base == 2 ==> steps[0] == Unlink(Quarantine(op)))
            && steps[base - 1] == Record(op, j.(phase := Finalized))
            && forall i :: 0 <= i < 6 * |j.targets| ==> steps[base + i] == Discards(op, j.targets)[i]
  {
  }

  lemma {:induction false} DiscardAt(op: OpId, targets: seq<Target>, t: nat, p: nat)
    requires t < |targets| && p < 3
    ensures |Discards(op, targets)| == 6 * |targets|
    ensures Discards(op, targets)[6 * t + 2 * p] == Discard(Saved(op, t, Before, PartAt(p)))
    ensures Discards(op, targets)[6 * t + 2 * p + 1] == Discard(Saved(op, t, After, PartAt(p)))
  {
    var n := 6 * t + 2 * p;
    assert n / 6 == t && n % 2 == 0 && n / 2 == 3 * t + p && PartAt(n / 2) == PartAt(p);
    assert (n + 1) / 6 == t && (n + 1) % 2 == 1 && (n + 1) / 2 == 3 * t + p;
  }

  // ----- prepare -----

  predicate AlreadyPrepared(d: Disk, op: OpId) { op in d.journals && d.journals[op].phase.Prepared? }

  /** Why a prepare is refused. */
  ghost predicate Refuses(d: Disk, op: OpId, request: Request, targets: seq<Requested>, leased: bool, clear: bool)
    requires forall i :: 0 <= i < |targets| ==> SafeSource(targets[i].source)
  {
    || leased
    || (if AlreadyPrepared(d, op) then d.journals[op].request != Some(request)
        else
          || (op in d.journals && (!d.journals[op].phase.Staged? || !request.change.Install?))
          || !Acceptable(request.change, "cif-managed/" + op
             + ".safetensors", Uploaded(d, op, request.change), LibraryFiles(d))
          || !AllTake(d, request.change, targets)
          || (request.change.Remove? && !clear))
  }

  lemma {:induction false} AcceptedOn(d: Disk, op: OpId, request: Change)
    ensures ValidatedOn(d, op, request).Ok? <==>
            Acceptable(request, "cif-managed/" + op + ".safetensors", Uploaded(d, op, request), LibraryFiles(d))
  {
    hide Validated, Acceptable;
    ValidatedMeans(request, OwnFile(op), Uploaded(d, op, request), LibraryFiles(d));
  }

  /** The declared upload waits beside the journal. */
  predicate Uploaded(d: Disk, op: OpId, request: Change) {
    request.Install? && Upload(op) in d.weights && d.weights[Upload(op)] == request.digest
  }

  /** Every target can take the change, and all of them are about the same file. */
  ghost predicate AllTake(d: Disk, request: Change, targets: seq<Requested>)
    requires forall i :: 0 <= i < |targets| ==> SafeSource(targets[i].source)
  {
    exists file :: AllTakeFor(d, request, targets, file)
  }

  ghost predicate AllTakeFor(d: Disk, request: Change, targets: seq<Requested>, file: Option<string>)
    requires forall i :: 0 <= i < |targets| ==> SafeSource(targets[i].source)
  {
    forall i :: 0 <= i < |targets| ==> Takes(d, request, targets[i], file)
  }

  ghost predicate Takes(d: Disk, request: Change, target: Requested, file: Option<string>)
    requires SafeSource(target.source)
  {
    SafeIsJson(target.source);
    CanTake(d, request, target)
    && exists at ::
         Consistent(BundleIn(d.live, target.source).value, target.source, at) && IsAbout(request, at.catalog, file)
  }

  /** The drafts of a validated request fail exactly where some target cannot take it. */
  lemma {:induction false} UndraftableMeans(d: Disk, op: OpId, request: Change, change: Change, publishedAt: string,
                                            targets: seq<Requested>)
    requires targets != [] && forall i :: 0 <= i < |targets| ==> SafeSource(targets[i].source)
    requires ValidatedOn(d, op, request) == Ok(change)
    ensures Undraftable(d, change, publishedAt, targets) <==> !AllTake(d, request, targets)
  {
    hide FileDrafted, SafeSource, ValidatedOn, Takes;
    forall i | 0 <= i < |targets|
      ensures forall file :: Takes(d, request, targets[i], file) <==>
              FileDrafted(d, change, publishedAt, targets[i]) == Ok(file)
    {
      FileDraftedMeans(d, op, request, change, publishedAt, targets[i]);
    }
    if !Undraftable(d, change, publishedAt, targets) {
      var file := FileDrafted(d, change, publishedAt, targets[0]).value;
      assert forall i :: 0 <= i < |targets| ==> FileDrafted(d, change, publishedAt, targets[i]) == Ok(file);
      assert AllTakeFor(d, request, targets, file);
    }
  }

  lemma {:induction false} FileDraftedMeans(d: Disk, op: OpId, request: Change, change: Change, publishedAt: string,
                                            target: Requested)
    requires SafeSource(target.source) && ValidatedOn(d, op, request) == Ok(change)
    ensures forall file :: Takes(d, request, target, file) <==> FileDrafted(d, change, publishedAt, target) == Ok(file)
  {
    hide CanTake, DraftOf, ValidatedOn, SafeSource, Consistent, Inspect, BundleIn;
    SafeIsJson(target.source);
    DraftedExactly(d, op, request, change, publishedAt, target);
    if DraftOf(d, change, publishedAt, target).Ok? {
      DraftFacts(d, change, publishedAt, target);
      DraftMeans(d, op, request, change, publishedAt, target);
      var t := DraftOf(d, change, publishedAt, target).value;
      InspectMeans(t.raw, target.source, t.at);
      forall at | Consistent(t.raw, target.source, at) ensures at == t.at { InspectMeans(t.raw, target.source, at); }
      forall file | IsAbout(request, t.at.catalog, file)
        ensures file == t.file { AboutOne(request, t.at.catalog, file, t.file); }
    }
  }

  lemma {:induction false} AboutOne(request: Change, catalog: seq<Item>, f: Option<string>, g: Option<string>)
    requires IsAbout(request, catalog, f) && IsAbout(request, catalog, g)
    ensures f == g
  {
  }

  /** Some target cannot be drafted, or two of them are about different files. */
  ghost predicate Undraftable(d: Disk, change: Change, publishedAt: string, targets: seq<Requested>)
    requires forall i :: 0 <= i < |targets| ==> SafeSource(targets[i].source)
  {
    || (exists i :: 0 <= i < |targets| && FileDrafted(d, change, publishedAt, targets[i]).Refused?)
    || (exists i, j :: 0 <= i < j < |targets|
                       && FileDrafted(d, change, publishedAt, targets[i])
                          != FileDrafted(d, change, publishedAt, targets[j]))
  }

  lemma {:induction false} TargetRefuses(d: Disk, change: Change, publishedAt: string, targets: seq<Requested>, i: nat)
    requires forall i :: 0 <= i < |targets| ==> SafeSource(targets[i].source)
    requires i < |targets| && EndsWith(targets[i].source, ".json")
             && DraftOf(d, change, publishedAt, targets[i]).Refused?
    ensures Undraftable(d, change, publishedAt, targets)
  {
    hide DraftOf, SafeSource;
    assert FileDrafted(d, change, publishedAt, targets[i]).Refused?;
  }

  lemma {:induction false} TargetsDiffer(d: Disk, change: Change, publishedAt: string, targets: seq<Requested>, i: nat)
    requires forall i :: 0 <= i < |targets| ==> SafeSource(targets[i].source)
    requires 0 < i < |targets| && EndsWith(targets[0].source, ".json") && EndsWith(targets[i].source, ".json")
    requires DraftOf(d, change, publishedAt, targets[0]).Ok? && DraftOf(d, change, publishedAt, targets[i]).Ok?
    requires DraftOf(d, change, publishedAt, targets[0]).value.file
             != DraftOf(d, change, publishedAt, targets[i]).value.file
    ensures Undraftable(d, change, publishedAt, targets)
  {
    hide DraftOf, SafeSource;
    assert FileDrafted(d, change, publishedAt, targets[0]) != FileDrafted(d, change, publishedAt, targets[i]);
  }

  lemma {:induction false} AllDrafted(d: Disk, change: Change, publishedAt: string, targets: seq<Requested>,
                                      drafts: seq<Draft>)
    requires |drafts| == |targets| > 0 && forall i :: 0 <= i < |targets| ==> SafeSource(targets[i].source)
    requires forall i, j :: 0 <= i < j < |targets| ==> targets[i].source != targets[j].source
    requires forall k :: 0 <= k < |targets| ==> EndsWith(targets[k].source, ".json")
                                                && DraftOf(d, change, publishedAt, targets[k]) == Ok(drafts[k])
    requires forall k :: 0 <= k < |targets| ==> drafts[k].file == drafts[0].file
    ensures Drafted(d, change, publishedAt, targets, drafts) && !Undraftable(d, change, publishedAt, targets)
  {
    hide DraftOf, SafeSource;
    assert forall k :: 0 <= k < |targets| ==> FileDrafted(d, change, publishedAt, targets[k]) == Ok(drafts[0].file);
  }

  ghost function FileDrafted(d: Disk, change: Change, publishedAt: string, target: Requested): Result<Option<string>>
    requires SafeSource(target.source)
  {
    SafeIsJson(target.source);
    match DraftOf(d, change, publishedAt, target)
    case Ok(draft) => Ok(draft.file)
    case Refused(reason) => Refused("")
  }

  ghost predicate Keeping(d: Disk, d': Disk, op: OpId) { d' == d.(saved := d'.saved) && OnlyOwn(d, d', op) }

  /** Where a prepare may stop: nothing of others has changed, and the operation
      is as it was or completely prepared. */
  ghost predicate PrepareStop(d: Disk, d': Disk, op: OpId, request: Request, targets: seq<Requested>) {
    && OnlyOwn(d, d', op)
    && if AlreadyPrepared(d', op) then PreparedFrom(d, d', op, request, targets) else d'.journals == d.journals
  }

  lemma {:induction false} NothingPrepared(d: Disk, op: OpId, request: Request, targets: seq<Requested>)
    requires !AlreadyPrepared(d, op)
    ensures PrepareStop(d, d, op, request, targets)
  {
  }

  /** Nothing but the journal and the kept bytes of `op` differs. */
  ghost predicate OnlyOwn(d: Disk, d': Disk, op: OpId) {
    && d'.live == d.live && d'.weights == d.weights
    && (forall o :: o != op ==>
         (o in d'.journals <==> o in d.journals) && (o in d.journals ==> d'.journals[o] == d.journals[o]))
    && (forall s: Saved :: s.op != op ==>
         (s in d'.saved <==> s in d.saved) && (s in d.saved ==> d'.saved[s] == d.saved[s]))
    && (op in d'.journals && !d'.journals[op].phase.Prepared? ==> op in d.journals && d'.journals[op] == d.journals[op])
  }

  /** No old file dangles, and the operation has not moved a weight yet. */
  ghost predicate Unweighed(d: Disk, op: OpId, slots: seq<Slot>) {
    && (forall n :: 0 <= n < |slots| ==> Present(d.weights, Named(slots[n].before)))
    && Library(OwnFile(op)) !in d.weights && Quarantine(op) !in d.weights
  }

  lemma {:induction false} KeepIsOwn(d: Disk, d': Disk, saved: Saved, bytes: Bytes)
    requires OnlyOwn(d, d', saved.op)
    ensures OnlyOwn(d, Apply(d', Keep(saved, bytes)), saved.op)
  {
  }

  /** What a successful prepare promises. */
  ghost predicate PreparedFrom(d: Disk, d': Disk, op: OpId, request: Request, targets: seq<Requested>) {
    && op in d'.journals
    && var j := d'.journals[op];
       && j.request == Some(request) && Complete(d', op, j.targets) && Faithful(d', op, j.targets)
       && Ready(d', op, Slots(d', op, j.targets))
       && |j.targets| == |targets|
       && (forall t :: 0 <= t < |targets| ==> j.targets[t].source == targets[t].source
                                              && j.targets[t].expected == targets[t].expected
                                              && Succeeds(d, d', op, request, j.targets, t, targets[t].publicationId))
       && Records(request.change, j)
       && (Unweighed(d, op, Slots(d', op, j.targets)) ==> Weighed(d', op, Slots(d', op, j.targets)))
  }

  /** The journal says what kind of change is made and which upload belongs to it. */
  predicate Records(request: Change, j: Journal) {
    match request
    case Install(_, _, _, _, digest) => j.action == Installing && j.digest == digest
    case Remove(_) => j.action == Removing && j.digest == ""
    case Edit(_, _, _) => j.action == Editing && j.digest == ""
    case SetCatalog(_) => j.action == Syncing && j.digest == ""
  }

  /** The `t`-th candidate is a well-formed successor of the live publication: it
      has the catalog that follows from the request, is about the journaled file,
      and is otherwise as its predecessor. */
  ghost predicate Succeeds(d: Disk, d': Disk, op: OpId, request: Request, targets: seq<Target>, t: nat,
                           publicationId: string)
    requires t < |targets| && Complete(d', op, targets) && op in d'.journals
  {
    var before, after := BundleIn(d.live, targets[t].source), KeptBundle(d', op, targets, t);
    && before.Ok?
    && Inspect(before.value, targets[t].source).Ok? && Inspect(after, targets[t].source).Ok?
    && RevisionOf(before.value) == Ok(targets[t].expected)
    && targets[t].candidate.publicationId == publicationId
    && var at, next := Inspect(before.value, targets[t].source).value, Inspect(after, targets[t].source).value.catalog;
       && Follows(request.change, at.catalog, next)
       && IsAbout(request.change, at.catalog, FileIn(d'.journals[op]))
       && Rewrites(before.value, after, at, next, publicationId, request.publishedAt)
       && (UniqueIds(at.catalog) ==> UniqueIds(next))
       && (request.change.SetCatalog? || request.change.Edit? ==> KeepsPairs(at.catalog, next))
  }

  function FileIn(j: Journal): Option<string> { if j.action.Syncing? then None else Some(j.filename) }

  lemma {:induction false} DraftedParse(d: Disk, change: Change, publishedAt: string, targets: seq<Requested>,
                                        drafts: seq<Draft>)
    requires Drafted(d, change, publishedAt, targets, drafts)
    ensures |drafts| == |targets|
    ensures forall t :: t in drafts ==>
      EndsWith(t.requested.source, ".json") && t.raw.manifest.ManifestBytes? && t.candidate.manifest.ManifestBytes?
  {
    hide DraftOf, SafeSource, Inspect, Candidate;
    forall t | t in drafts
      ensures EndsWith(t.requested.source, ".json") && t.raw.manifest.ManifestBytes?
              && t.candidate.manifest.ManifestBytes?
    {
      var i :| 0 <= i < |drafts| && drafts[i] == t;
      SafeIsJson(targets[i].source);
      DraftFacts(d, change, publishedAt, targets[i]);
    }
  }

  /** The old and new bytes of one file of the drafts are kept. */
  predicate KeptAt(kept: map<Saved, Bytes>, op: OpId, drafts: seq<Draft>, k: nat)
    requires k < 3 * |drafts|
  {
    var before, after := Saved(op, k / 3, Before, PartAt(k)), Saved(op, k / 3, After, PartAt(k));
    before in kept && kept[before] == drafts[k / 3].raw.At(PartAt(k))
    && after in kept && kept[after] == drafts[k / 3].candidate.At(PartAt(k))
  }

  lemma {:induction false} KeptStays(d: Disk, d': Disk, op: OpId, drafts: seq<Draft>, t: nat, p: nat)
    requires t < |drafts| && p < 3 && forall k :: 0 <= k < 3 * t + p ==> KeptAt(d.saved, op, drafts, k)
    requires d'.saved == d.saved[Saved(op, t, Before, PartAt(p)) := drafts[t].raw.At(PartAt(p))]
                                [Saved(op, t, After, PartAt(p)) := drafts[t].candidate.At(PartAt(p))]
    ensures forall k :: 0 <= k < 3 * t + p + 1 ==> KeptAt(d'.saved, op, drafts, k)
  {
    forall k | 0 <= k < 3 * t + p + 1 ensures KeptAt(d'.saved, op, drafts, k) {
      if k < 3 * t + p {
        assert KeptAt(d.saved, op, drafts, k);
      }
    }
  }

  lemma {:induction false} DraftsAreReady(d: Disk, d': Disk, op: OpId, request: Request, change: Change,
                                          targets: seq<Requested>, drafts: seq<Draft>)
    requires targets != [] && ValidatedOn(d, op, request.change) == Ok(change)
    requires Drafted(d, change, request.publishedAt, targets, drafts)
    requires forall k :: 0 <= k < 3 * |drafts| ==> KeptAt(d'.saved, op, drafts, k)
    requires drafts != [] && forall t :: t in drafts ==>
               t.raw.manifest.ManifestBytes? && t.candidate.manifest.ManifestBytes?
    requires d'.live == d.live && d'.weights == d.weights && op in d'.journals
    requires d'.journals[op] == Journal(Prepared, ActionOf(change), TargetsOf(drafts), FileOf(drafts[0].file),
             DigestOf(change), Some(request))
    ensures PreparedFrom(d, d', op, request, targets)
  {
    hide Complete, Slots, DraftOf, ValidatedOn, SafeSource, Inspect, Named, Weighed, Unweighed, Proper, All, Succeeds,
         RevisionOf, SlotsAre, KeptAt, KeptBundle, Drafted, ActionOf, DigestOf, Records;
    var js := TargetsOf(drafts);
    DraftedParse(d, change, request.publishedAt, targets, drafts);
    KeptSlots(d', op, drafts);
    var slots := Slots(d', op, js);
    DraftedSlots(d, op, request.change, change, request.publishedAt, targets, drafts, slots);
    AllOnSameFiles(d, d', slots);
    forall t | 0 <= t < |targets|
      ensures js[t].source == targets[t].source && js[t].expected == targets[t].expected
      ensures Succeeds(d, d', op, request, js, t, targets[t].publicationId)
      ensures RevisionOf(KeptBundle(d', op, js, t)) == Ok(js[t].candidate)
    {
      DraftSucceeds(d, d', op, request, change, targets, drafts, t);
    }
    RecordsKind(d, op, request.change, change, d'.journals[op]);
    if Unweighed(d, op, slots) {
      UnweighedIs(d, op, slots);
      DraftedWeights(d, op, request.change, change, request.publishedAt, targets, drafts, d', slots);
    }
  }

  lemma {:induction false} AllOnSameFiles(d: Disk, d': Disk, slots: seq<Slot>)
    requires All(d, slots, Before) && d'.live == d.live
    ensures All(d', slots, Before)
  {
  }

  lemma {:induction false} UnweighedIs(d: Disk, op: OpId, slots: seq<Slot>)
    requires Unweighed(d, op, slots)
    ensures forall n :: 0 <= n < |slots| ==> Present(d.weights, Named(slots[n].before))
    ensures Library(OwnFile(op)) !in d.weights && Quarantine(op) !in d.weights
  {
  }

  lemma {:induction false} KeptSlots(d: Disk, op: OpId, drafts: seq<Draft>)
    requires forall t :: t in drafts ==> EndsWith(t.requested.source, ".json")
    requires forall t :: t in drafts ==> t.raw.manifest.ManifestBytes? && t.candidate.manifest.ManifestBytes?
    requires forall k :: 0 <= k < 3 * |drafts| ==> KeptAt(d.saved, op, drafts, k)
    ensures Complete(d, op, TargetsOf(drafts)) && SlotsAre(Slots(d, op, TargetsOf(drafts)), drafts)
    ensures forall t :: 0 <= t < |drafts| ==> KeptBundle(d, op, TargetsOf(drafts), t) == drafts[t].candidate
  {
    hide PartPath, Slots, KeptAt, KeptBundle, Complete;
    KeptIsComplete(d, op, drafts);
    forall n | 0 <= n < 3 * |drafts| ensures Slots(d, op, TargetsOf(drafts))[n] == SlotOf(drafts, n) {
      KeptSlot(d, op, drafts, n);
    }
    forall t | 0 <= t < |drafts| ensures KeptBundle(d, op, TargetsOf(drafts), t) == drafts[t].candidate {
      KeptCandidate(d, op, drafts, t);
    }
  }

  lemma {:induction false} KeptIsComplete(d: Disk, op: OpId, drafts: seq<Draft>)
    requires forall t :: t in drafts ==> EndsWith(t.requested.source, ".json")
    requires forall t :: t in drafts ==> t.raw.manifest.ManifestBytes? && t.candidate.manifest.ManifestBytes?
    requires forall k :: 0 <= k < 3 * |drafts| ==> KeptAt(d.saved, op, drafts, k)
    ensures Complete(d, op, TargetsOf(drafts))
  {
    forall n | 0 <= n < 3 * |drafts|
      ensures Saved(op, n / 3, Before, PartAt(n)) in d.saved && Saved(op, n / 3, After, PartAt(n)) in d.saved
    {
      assert KeptAt(d.saved, op, drafts, n);
    }
  }

  lemma {:induction false} KeptSlot(d: Disk, op: OpId, drafts: seq<Draft>, n: nat)
    requires forall t :: t in drafts ==> EndsWith(t.requested.source, ".json")
    requires forall t :: t in drafts ==> t.raw.manifest.ManifestBytes? && t.candidate.manifest.ManifestBytes?
    requires Complete(d, op, TargetsOf(drafts)) && n < 3 * |drafts| && KeptAt(d.saved, op, drafts, n)
    ensures Slots(d, op, TargetsOf(drafts))[n] == SlotOf(drafts, n)
  {
  }

  lemma {:induction false} KeptCandidate(d: Disk, op: OpId, drafts: seq<Draft>, t: nat)
    requires forall t :: t in drafts ==> EndsWith(t.requested.source, ".json")
    requires forall t :: t in drafts ==> t.raw.manifest.ManifestBytes? && t.candidate.manifest.ManifestBytes?
    requires Complete(d, op, TargetsOf(drafts)) && t < |drafts|
    requires forall n :: 0 <= n < 3 * |drafts| ==> Slots(d, op, TargetsOf(drafts))[n] == SlotOf(drafts, n)
    ensures KeptBundle(d, op, TargetsOf(drafts), t) == drafts[t].candidate
  {
    hide PartPath, Slots, Complete;
    var slots := Slots(d, op, TargetsOf(drafts));
    assert slots[3 * t] == SlotOf(drafts, 3 * t) && slots[3 * t + 1] == SlotOf(drafts, 3 * t + 1)
           && slots[3 * t + 2] == SlotOf(drafts, 3 * t + 2);
  }

  lemma {:induction false} DraftSucceeds(d: Disk, d': Disk, op: OpId, request: Request, change: Change,
                                         targets: seq<Requested>,
                      drafts: seq<Draft>, t: nat)
    requires ValidatedOn(d, op, request.change) == Ok(change)
             && Drafted(d, change, request.publishedAt, targets, drafts)
    requires forall t :: t in drafts ==> t.raw.manifest.ManifestBytes? && t.candidate.manifest.ManifestBytes?
    requires t < |targets| && Complete(d', op, TargetsOf(drafts))
    requires KeptBundle(d', op, TargetsOf(drafts), t) == drafts[t].candidate
    requires op in d'.journals && d'.journals[op].action == ActionOf(change)
             && d'.journals[op].filename == FileOf(drafts[0].file)
    ensures var js := TargetsOf(drafts);
            && js[t].source == targets[t].source && js[t].expected == targets[t].expected
            && Succeeds(d, d', op, request, js, t, targets[t].publicationId)
            && RevisionOf(KeptBundle(d', op, js, t)) == Ok(js[t].candidate)
  {
    hide Complete, Slots, DraftOf, SafeSource, Inspect, UniqueIds, KeepsPairs, ValidatedOn, KeptBundle, Follows,
         IsAbout,
         Rewrites;
    SafeIsJson(targets[t].source);
    DraftFacts(d, change, request.publishedAt, targets[t]);
    DraftIsSound(d, op, request.change, change, request.publishedAt, targets[t]);
    DraftMeans(d, op, request.change, change, request.publishedAt, targets[t]);
    SameKind(d, op, request.change, change);
    assert drafts[t].file == drafts[0].file;
    FileIsKept(request.change, drafts[t].at.catalog, drafts[t].file, d'.journals[op]);
  }

  lemma {:induction false} FileIsKept(request: Change, catalog: seq<Item>, file: Option<string>, j: Journal)
    requires IsAbout(request, catalog, file) && j.filename == FileOf(file)
             && (request.SetCatalog? <==> j.action.Syncing?)
    ensures FileIn(j) == file
  {
  }

  lemma {:induction false} RecordsKind(d: Disk, op: OpId, request: Change, change: Change, j: Journal)
    requires ValidatedOn(d, op, request) == Ok(change) && j.action == ActionOf(change) && j.digest == DigestOf(change)
    ensures Records(request, j)
  {
  }

  lemma {:induction false} SameKind(d: Disk, op: OpId, request: Change, change: Change)
    requires ValidatedOn(d, op, request) == Ok(change)
    ensures (request.SetCatalog? <==> change.SetCatalog?) && (request.Edit? <==> change.Edit?)
            && (request.Remove? <==> change.Remove?) && (request.SetCatalog? <==> ActionOf(change).Syncing?)
  {
  }

  /** Every disk in which a commit or a rollback may be stopped is one that the
      crash-atomicity invariant covers. */
  lemma {:induction false} HandlerStatesAreSound(w: World, op: OpId, writer: bool, leased: bool, j: Journal,
                                                 slots: seq<Slot>, d: Disk)
    requires Sound(w, op, j, slots)
    requires CommitsTo(w.disk, op, writer, leased, d) || RollsTo(w.disk, op, writer, d)
    ensures exists torn :: Sound(World(d, torn), op, j, slots)
  {
    hide Sound, CommitPlan, RollbackPlan;
    if RollsTo(w.disk, op, writer, d) {
      var cut: nat, failed :| d == Effect(w.disk, op, writer, DoRollback(cut, failed));
      NextSound(w, op, writer, j, slots, Mine(DoRollback(cut, failed)));
    } else {
      var cut: nat :| d == Effect(w.disk, op, writer, DoCommit(leased, cut))
                      || RollsTo(Effect(w.disk, op, writer, DoCommit(leased, cut)), op, writer, d);
      NextSound(w, op, writer, j, slots, Mine(DoCommit(leased, cut)));
      var w1 := Next(w, op, writer, Mine(DoCommit(leased, cut)));
      if d != w1.disk {
        var again: nat, failed :| d == Effect(w1.disk, op, writer, DoRollback(again, failed));
        NextSound(w1, op, writer, j, slots, Mine(DoRollback(again, failed)));
      }
    }
  }
}
