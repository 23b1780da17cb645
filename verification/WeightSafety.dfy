/** No live document of an operation ever names a weight that is missing from
    the model library, and exactly which calls could break that. */
module WeightSafety {
  import opened SourcePaths
  import opened Publications
  import opened Transaction
  import opened TransactionRuns
  import opened CrashAtomicity

  ghost predicate Present(weights: map<Place, string>, names: set<string>) {
    forall f :: f in names ==> Library(f) in weights
  }

  /** Every weight named by a live file of the operation exists. */
  ghost predicate NoDangling(d: Disk, slots: seq<Slot>) {
    forall n :: 0 <= n < |slots| ==> slots[n].path in d.live && Present(d.weights, Named(d.live[slots[n].path]))
  }

  /** What prepare establishes about names: the old files name existing weights,
      and the new files follow the change. */
  ghost predicate Weighed(d: Disk, op: OpId, slots: seq<Slot>)
    requires op in d.journals
  {
    var j := d.journals[op];
    && (forall n :: 0 <= n < |slots| ==> Present(d.weights, Named(slots[n].before)))
    && match j.action
       case Installing => forall n :: 0 <= n < |slots| ==>
         j.filename !in Named(slots[n].before) && Named(slots[n].after) <= Named(slots[n].before) + {j.filename}
       case Removing =>
         Library(j.filename) in d.weights && Quarantine(op) !in d.weights
         && forall n :: 0 <= n < |slots| ==> Named(slots[n].after) <= Named(slots[n].before) - {j.filename}
       case _ => forall n :: 0 <= n < |slots| ==> Present(d.weights, Named(slots[n].after))
  }

  predicate MovesWeight(j: Journal) { j.action.Installing? || j.action.Removing? }

  /** The weights the operation never moves. */
  ghost predicate OthersPresent(d: Disk, j: Journal, slots: seq<Slot>) {
    forall n, f :: 0 <= n < |slots| && (f in Named(slots[n].before) || f in Named(slots[n].after)) ==>
      Library(f) in d.weights || (MovesWeight(j) && f == j.filename)
  }

  /** An installed weight is there as long as anything may name it. */
  ghost predicate InstallSafe(d: Disk, j: Journal, slots: seq<Slot>) {
    All(d, slots, Before) || Library(j.filename) in d.weights
  }

  /** A removed weight is gone only when nothing names it, and until then it can
      be brought back. */
  ghost predicate RemoveSafe(d: Disk, op: OpId, j: Journal, slots: seq<Slot>)
    requires op in d.journals
  {
    if Library(j.filename) in d.weights then Quarantine(op) !in d.weights
    else All(d, slots, After)
         && (Quarantine(op) in d.weights || d.journals[op].phase.Quarantined? || d.journals[op].phase.Finalized?)
  }

  /** The names in the journaled bytes, which never change. */
  ghost predicate NamesFixed(j: Journal, slots: seq<Slot>) {
    && (j.action.Installing? ==> forall n :: 0 <= n < |slots| ==> j.filename !in Named(slots[n].before))
    && (j.action.Removing? ==> forall n :: 0 <= n < |slots| ==> j.filename !in Named(slots[n].after))
  }

  /** The invariant on the writer instance. */
  ghost predicate Weighted(d: Disk, op: OpId, j: Journal, slots: seq<Slot>) {
    && op in d.journals
    && NamesFixed(j, slots) && OthersPresent(d, j, slots)
    && (j.action.Installing? ==> InstallSafe(d, j, slots))
    && (j.action.Removing? ==> RemoveSafe(d, op, j, slots))
  }

  lemma {:induction false} WeightedIsSafe(d: Disk, op: OpId, j: Journal, slots: seq<Slot>)
    requires Known(d, slots) && Weighted(d, op, j, slots)
    ensures NoDangling(d, slots)
  {
  }

  /** The only two calls that need care, both about a removal: quarantine must
      not follow a torn rollback, and rollback must not come when the weight is
      in neither place. */
  ghost predicate Prudent(w: World, op: OpId, e: Event)
    requires op in w.disk.journals
  {
    var j := w.disk.journals[op];
    j.action.Removing? ==>
      && (e.DoQuarantine? ==> !w.torn)
      && (e.DoRollback? ==> Library(j.filename) in w.disk.weights || Quarantine(op) in w.disk.weights
                            || j.phase.Finalized?)
  }

  /** A foreign change that leaves the operation's weights where they are and
      deletes nothing the operation's files may name. */
  ghost predicate UndisturbedWeights(d: Disk, d': Disk, op: OpId, j: Journal, slots: seq<Slot>) {
    && (Library(j.filename) in d'.weights <==> Library(j.filename) in d.weights)
    && (Quarantine(op) in d'.weights <==> Quarantine(op) in d.weights)
    && (OthersPresent(d, j, slots) ==> OthersPresent(d', j, slots))
  }

  ghost predicate LegitAndPrudent(w: World, op: OpId, j: Journal, slots: seq<Slot>, run: seq<Happening>) {
    run == [] ||
    (LegitAndPrudent(w, op, j, slots, run[..|run| - 1])
     && var u := Reached(w, op, true, run[..|run| - 1]);
        match run[|run| - 1]
        case Mine(e) => op in u.disk.journals && Prudent(u, op, e)
        case Foreign(d') => Undisturbed(u.disk, d', op, slots) && UndisturbedWeights(u.disk, d', op, j, slots))
  }

  lemma {:induction false} PrudentIsLegit(w: World, op: OpId, j: Journal, slots: seq<Slot>, run: seq<Happening>)
    requires LegitAndPrudent(w, op, j, slots, run)
    ensures Legit(w, op, true, slots, run)
  {
    if run != [] { PrudentIsLegit(w, op, j, slots, run[..|run| - 1]); }
  }

  lemma {:induction false} CutOne(d: Disk, s: Step, k: nat)
    ensures Run(d, Cut([s], k)) == if k == 0 then d else Apply(d, s)
    ensures Run(d, Cut([], k)) == d
  {
  }

  predicate Takes(s: Step, f: string) {
    (s.Unlink? && s.place == Library(f)) || (s.Move? && s.from == Library(f))
  }

  lemma {:induction false} Survives(d: Disk, steps: seq<Step>, f: string)
    requires Library(f) in d.weights && forall s :: s in steps ==> !Takes(s, f)
    ensures Library(f) in Run(d, steps).weights
  {
    if steps != [] {
      Survives(d, steps[..|steps| - 1], f);
      assert steps[|steps| - 1] in steps;
    }
  }

  lemma {:induction false} CommitSpares(d: Disk, op: OpId, writer: bool, leased: bool, f: string)
    ensures forall s :: s in CommitPlan(d, op, writer, leased).steps ==> !Takes(s, f)
  {
    hide Complete, Known, Slots;
  }

  lemma {:induction false} RollbackSpares(d: Disk, op: OpId, writer: bool, f: string)
    requires op in d.journals && (MovesWeight(d.journals[op]) ==> f != d.journals[op].filename)
    ensures forall s :: s in RollbackPlan(d, op, writer).steps ==> !Takes(s, f)
  {
    hide Complete, Known, Slots;
  }

  lemma {:induction false} RetirementSpares(d: Disk, op: OpId, writer: bool, clear: bool, f: string)
    requires op in d.journals && (MovesWeight(d.journals[op]) ==> f != d.journals[op].filename)
    ensures forall s :: s in QuarantinePlan(d, op, writer, clear).steps ==> !Takes(s, f)
    ensures forall s :: s in FinalizePlan(d, op, writer).steps ==> !Takes(s, f)
  {
  }

  /** No handler takes away a weight other than the operation's own. */
  lemma {:induction false} PlanSpares(d: Disk, op: OpId, writer: bool, e: Event, f: string)
    requires op in d.journals && (MovesWeight(d.journals[op]) ==> f != d.journals[op].filename)
    ensures forall s :: s in PlanOf(d, op, writer, e).steps ==> !Takes(s, f)
  {
    hide CommitPlan, RollbackPlan, QuarantinePlan, FinalizePlan;
    match e
    case DoCommit(leased, _) => CommitSpares(d, op, writer, leased, f);
    case DoRollback(_, _) => RollbackSpares(d, op, writer, f);
    case DoQuarantine(clear, _) => RetirementSpares(d, op, writer, clear, f);
    case DoFinalize(_) => RetirementSpares(d, op, writer, false, f);
  }

  lemma {:induction false} OthersSurvive(d: Disk, op: OpId, j: Journal, slots: seq<Slot>, e: Event)
    requires op in d.journals && d.journals[op] == j.(phase := d.journals[op].phase) && OthersPresent(d, j, slots)
    ensures OthersPresent(Effect(d, op, true, e), j, slots)
  {
    hide CommitPlan, RollbackPlan, QuarantinePlan, FinalizePlan, Named, Takes;
    var steps := PlanOf(d, op, true, e).steps;
    forall n, f | 0 <= n < |slots| && (f in Named(slots[n].before) || f in Named(slots[n].after))
      ensures Library(f) in Effect(d, op, true, e).weights || (MovesWeight(j) && f == j.filename)
    {
      if MovesWeight(j) ==> f != j.filename {
        PlanSpares(d, op, true, e, f);
        assert forall s :: s in Cut(steps, e.cut) ==> s in steps;
        Survives(d, Cut(steps, e.cut), f);
      }
    }
  }

  /** How a call may move the weight of an installation: a commit changes a
      live file only when the weight is there, and a rollback drops the weight
      only when every live file is old again. */
  ghost predicate InstallMoves(d: Disk, d': Disk, op: OpId, slots: seq<Slot>)
    requires op in d.journals
  {
    var place := Library(d.journals[op].filename);
    || place in d'.weights
    || All(d', slots, Before)
    || (place !in d.weights && d'.live == d.live)
  }

  lemma {:induction false} CommitPlacesFirst(d: Disk, op: OpId, slots: seq<Slot>, leased: bool, k: nat)
    requires op in d.journals && d.journals[op].action.Installing? && Paths(slots, d.live)
    requires Complete(d, op, d.journals[op].targets) ==> Slots(d, op, d.journals[op].targets) == slots
    ensures InstallMoves(d, Run(d, Cut(CommitPlan(d, op, true, leased).steps, k)), op, slots)
  {
    var placing := CommitShape(d, op, true, leased, slots);
    if CommitPlan(d, op, true, leased).steps != [] {
      CommitCut(d, op, placing, slots, k);
      PlacedByCut(d, op, placing, slots, k);
    }
  }

  lemma {:induction false} PlacedByCut(d: Disk, op: OpId, placing: seq<Step>, slots: seq<Slot>, k: nat)
    requires op in d.journals && Paths(slots, d.live)
    requires var place := Library(d.journals[op].filename);
             if place in d.weights then placing == []
             else placing == [Move(Upload(op), place)] && Upload(op) in d.weights
    ensures var live := Run(d, Cut(CommitSteps(op, d.journals[op], placing, slots), k)).live;
            Library(d.journals[op].filename) in Run(d, Cut(placing, k)).weights
            || (Library(d.journals[op].filename) !in d.weights && live == d.live)
  {
  }

  lemma {:induction false} RollbackDropsLast(d: Disk, op: OpId, slots: seq<Slot>, k: nat)
    requires op in d.journals && d.journals[op].action.Installing? && d.journals[op].targets != []
             && Paths(slots, d.live)
    requires Complete(d, op, d.journals[op].targets) ==> Slots(d, op, d.journals[op].targets) == slots
    ensures var d' := Run(d, Cut(RollbackPlan(d, op, true).steps, k));
            All(d', slots, Before) || (Library(d.journals[op].filename) in d.weights
                                       ==> Library(d.journals[op].filename) in d'.weights)
  {
    hide RollbackPlan, RollbackSteps, Run, Complete, Slots;
    RunNone(d, k);
    var j := d.journals[op];
    var returning := RollbackShape(d, op, true, slots);
    var steps := RollbackPlan(d, op, true).steps;
    if steps == [Record(op, j.(phase := RepairRequired))] {
      CutOne(d, steps[0], k);
    } else if steps != [] {
      RollbackCut(d, op, [], slots, DropWeight(op, j, true), k);
      assert Cut([], k) == [];
    }
  }

  lemma {:induction false} InstallRolledBack(d: Disk, d': Disk, op: OpId, slots: seq<Slot>, c: nat, p: Phase)
    requires op in d.journals && Paths(slots, d.live)
    requires All(d, slots, Before) && Rewritten(d, d', op, slots, Before, c, p)
    ensures All(d', slots, Before)
  {
  }

  lemma {:induction false} InstallStays(w: World, op: OpId, j: Journal, slots: seq<Slot>, e: Event)
    requires Sound(w, op, j, slots) && j.action.Installing? && InstallSafe(w.disk, j, slots)
    ensures InstallSafe(Effect(w.disk, op, true, e), j, slots)
  {
    hide CommitPlan, RollbackPlan, FinalizePlan, Rewritten, Complete, Slots, Run;
    RunNone(w.disk, e.cut);
    var d := w.disk;
    KnownPaths(d, slots);
    if d.journals[op].phase.Finalized? {
      FinalizedIsOver(d, op, true, e);
    } else {
      match e
      case DoCommit(_, _) =>
        CommitPlacesFirst(d, op, slots, e.leased, e.cut);
      case DoRollback(_, _) =>
        RollbackDropsLast(d, op, slots, e.cut);
        var c, p := RollbackReaches(d, op, true, slots, e);
        if All(d, slots, Before) { InstallRolledBack(d, Effect(d, op, true, e), op, slots, c, p); }
      case DoQuarantine(_, _) =>
      case DoFinalize(_) =>
        InstallFinalized(d, op, j, slots, e);
    }
  }

  lemma {:induction false} InstallFinalized(d: Disk, op: OpId, j: Journal, slots: seq<Slot>, e: Event)
    requires e.DoFinalize? && op in d.journals && d.journals[op] == j.(phase := d.journals[op].phase)
    requires j.action.Installing? && InstallSafe(d, j, slots)
    ensures InstallSafe(Effect(d, op, true, e), j, slots)
  {
    if FinalizePlan(d, op, true).steps != [] {
      FinalizeCut(d, op, [], e.cut);
      assert Cut([], e.cut) == [];
    }
  }

  lemma {:induction false} FinalizedIsOver(d: Disk, op: OpId, writer: bool, e: Event)
    requires op in d.journals && d.journals[op].phase.Finalized?
    ensures Effect(d, op, writer, e) == d
  {
  }

  lemma {:induction false} CommitLeavesWeights(d: Disk, op: OpId, slots: seq<Slot>, leased: bool, k: nat)
    requires op in d.journals && !d.journals[op].action.Installing? && Paths(slots, d.live)
    requires Complete(d, op, d.journals[op].targets) ==> Slots(d, op, d.journals[op].targets) == slots
    ensures var d' := Run(d, Cut(CommitPlan(d, op, true, leased).steps, k));
            d'.weights == d.weights && (All(d, slots, After) ==> All(d', slots, After))
  {
    var placing := CommitShape(d, op, true, leased, slots);
    if CommitPlan(d, op, true, leased).steps != [] {
      CommitCut(d, op, [], slots, k);
      assert Cut([], k) == [];
    }
  }

  /** How a rollback may move the weight of a removal: it brings the weight back
      before it restores a file. */
  ghost predicate RemoveMoves(d: Disk, d': Disk, op: OpId)
    requires op in d.journals
  {
    || (d'.live == d.live && d'.weights == d.weights)
    || (Quarantine(op) in d.weights && Library(d.journals[op].filename) in d'.weights && Quarantine(op) !in d'.weights)
    || (Quarantine(op) !in d.weights && d'.weights == d.weights)
  }

  lemma {:induction false} RollbackReturnsFirst(d: Disk, op: OpId, slots: seq<Slot>, k: nat)
    requires op in d.journals && d.journals[op].action.Removing? && Paths(slots, d.live)
    requires Complete(d, op, d.journals[op].targets) ==> Slots(d, op, d.journals[op].targets) == slots
    ensures RemoveMoves(d, Run(d, Cut(RollbackPlan(d, op, true).steps, k)), op)
  {
    hide RollbackPlan, RollbackSteps, Run, Complete, Slots, RollbackWeights;
    RunNone(d, k);
    var j := d.journals[op];
    var returning := RollbackShape(d, op, true, slots);
    var steps := RollbackPlan(d, op, true).steps;
    if steps == [Record(op, j.(phase := RepairRequired))] {
      CutOne(d, steps[0], k);
    } else if steps != [] {
      RollbackCut(d, op, returning, slots, [], k);
      ReturnedByCut(d, op, returning, slots, k);
    }
  }

  lemma {:induction false} ReturnedByCut(d: Disk, op: OpId, returning: seq<Step>, slots: seq<Slot>, k: nat)
    requires op in d.journals && Paths(slots, d.live)
    requires if Quarantine(op) in d.weights then returning == [Move(Quarantine(op), Library(d.journals[op].filename))]
             else returning == []
    ensures var weights := RollbackWeights(d, returning, |slots|, [], k);
            || (k == 0 && Run(d, Cut(RollbackSteps(op, d.journals[op], returning, slots, []), k)) == d)
            || (Quarantine(op) in d.weights && Library(d.journals[op].filename) in weights
                && Quarantine(op) !in weights)
            || (Quarantine(op) !in d.weights && weights == d.weights)
  {
    var s := Move(Quarantine(op), Library(d.journals[op].filename));
    CutOne(d, s, k);
    RunOne(d, s);
    if k > |returning| + |slots| { CutOne(Run(d, returning), s, k - |returning| - |slots|); }
    if k == 0 { assert Cut(RollbackSteps(op, d.journals[op], returning, slots, []), k) == []; }
  }

  lemma {:induction false} RemoveStays(w: World, op: OpId, j: Journal, slots: seq<Slot>, e: Event)
    requires Sound(w, op, j, slots) && j.action.Removing? && RemoveSafe(w.disk, op, j, slots) && Prudent(w, op, e)
    requires op in Effect(w.disk, op, true, e).journals
    ensures RemoveSafe(Effect(w.disk, op, true, e), op, j, slots)
  {
    var d := w.disk;
    KnownPaths(d, slots);
    if d.journals[op].phase.Finalized? {
      FinalizedIsOver(d, op, true, e);
    } else {
      match e
      case DoCommit(_, _) => RemoveCommitted(d, op, j, slots, e);
      case DoRollback(_, _) => RemoveRolledBack(w, op, j, slots, e);
      case DoQuarantine(_, _) => RemoveQuarantined(w, op, j, slots, e);
      case DoFinalize(_) => RemoveFinalized(d, op, j, slots, e);
    }
  }

  lemma {:induction false} RemoveQuarantined(w: World, op: OpId, j: Journal, slots: seq<Slot>, e: Event)
    requires e.DoQuarantine? && Sound(w, op, j, slots) && Prudent(w, op, e)
    requires j.action.Removing? && RemoveSafe(w.disk, op, j, slots)
    requires op in Effect(w.disk, op, true, e).journals
    ensures RemoveSafe(Effect(w.disk, op, true, e), op, j, slots)
  {
    hide Run, Complete, Slots;
    RunNone(w.disk, e.cut);
    var d := w.disk;
    if QuarantinePlan(d, op, true, e.clear).steps != [] {
      QuarantineCut(d, op, [Move(Library(j.filename), Quarantine(op))], e.cut);
      CutOne(d, Move(Library(j.filename), Quarantine(op)), e.cut);
    }
  }

  lemma {:induction false} RemoveFinalized(d: Disk, op: OpId, j: Journal, slots: seq<Slot>, e: Event)
    requires e.DoFinalize? && op in d.journals && d.journals[op] == j.(phase := d.journals[op].phase)
    requires j.action.Removing? && RemoveSafe(d, op, j, slots) && !d.journals[op].phase.Finalized?
    requires op in Effect(d, op, true, e).journals
    ensures RemoveSafe(Effect(d, op, true, e), op, j, slots)
  {
    hide Run, Complete, Slots;
    RunNone(d, e.cut);
    if FinalizePlan(d, op, true).steps != [] {
      FinalizeCut(d, op, [Unlink(Quarantine(op))], e.cut);
      CutOne(d, Unlink(Quarantine(op)), e.cut);
    }
  }

  lemma {:induction false} RemoveCommitted(d: Disk, op: OpId, j: Journal, slots: seq<Slot>, e: Event)
    requires e.DoCommit? && op in d.journals && d.journals[op] == j.(phase := d.journals[op].phase)
    requires j.action.Removing? && RemoveSafe(d, op, j, slots) && Paths(slots, d.live)
    requires Complete(d, op, j.targets) ==> Slots(d, op, j.targets) == slots
    requires op in Effect(d, op, true, e).journals
    ensures RemoveSafe(Effect(d, op, true, e), op, j, slots)
  {
    CommitLeavesWeights(d, op, slots, e.leased, e.cut);
    var c, p := CommitReaches(d, op, true, e.leased, slots, e.cut);
  }

  lemma {:induction false} RemoveRolledBack(w: World, op: OpId, j: Journal, slots: seq<Slot>, e: Event)
    requires e.DoRollback? && op in w.disk.journals && w.disk.journals[op] == j.(phase := w.disk.journals[op].phase)
    requires j.action.Removing? && RemoveSafe(w.disk, op, j, slots) && Paths(slots, w.disk.live) && Prudent(w, op, e)
    requires !w.disk.journals[op].phase.Finalized?
    requires Complete(w.disk, op, j.targets) ==> Slots(w.disk, op, j.targets) == slots
    requires op in Effect(w.disk, op, true, e).journals
    ensures RemoveSafe(Effect(w.disk, op, true, e), op, j, slots)
  {
    hide RollbackPlan, Run, Complete, Slots;
    RollbackReturnsFirst(w.disk, op, slots, e.cut);
  }

  lemma {:induction false} NextWeighted(w: World, op: OpId, j: Journal, slots: seq<Slot>, h: Happening)
    requires Sound(w, op, j, slots) && Weighted(w.disk, op, j, slots)
    requires match h
             case Mine(e) => Prudent(w, op, e)
             case Foreign(d') => Undisturbed(w.disk, d', op, slots) && UndisturbedWeights(w.disk, d', op, j, slots)
    ensures Weighted(Next(w, op, true, h).disk, op, j, slots)
  {
    match h
    case Mine(e) =>
      NextSound(w, op, true, j, slots, h);
      OthersSurvive(w.disk, op, j, slots, e);
      if j.action.Installing? { InstallStays(w, op, j, slots, e); }
      if j.action.Removing? { RemoveStays(w, op, j, slots, e); }
    case Foreign(d') =>
  }

  /** At every crash point of every prudent run on the writer instance, each
      weight named by a live file of the operation exists. */
  lemma {:induction false} NoWeightDangles(d: Disk, op: OpId, slots: seq<Slot>, run: seq<Happening>)
    requires Ready(d, op, slots) && Weighed(d, op, slots)
    requires LegitAndPrudent(World(d, false), op, d.journals[op], slots, run)
    ensures var w := Reached(World(d, false), op, true, run);
            && Sound(w, op, d.journals[op], slots) && Weighted(w.disk, op, d.journals[op], slots)
            && NoDangling(w.disk, slots)
  {
    hide Complete, Slots, Named, CommitPlan, RollbackPlan, QuarantinePlan, FinalizePlan;
    var j := d.journals[op];
    var w := Reached(World(d, false), op, true, run);
    if run != [] {
      var front := run[..|run| - 1];
      NoWeightDangles(d, op, slots, front);
      PrudentIsLegit(World(d, false), op, j, slots, run);
      EveryRunIsAtomic(d, op, true, slots, run);
      NextWeighted(Reached(World(d, false), op, true, front), op, j, slots, run[|run| - 1]);
    }
    WeightedIsSafe(w.disk, op, j, slots);
  }

  // ----- the two calls that need care -----

  /** Quarantining a committed removal is safe exactly when the publication has
      not been torn, that is when the live revision is the candidate's. */
  lemma {:induction false} QuarantineExactly(w: World, op: OpId, j: Journal, slots: seq<Slot>, cut: nat)
    requires Sound(w, op, j, slots) && Weighted(w.disk, op, j, slots)
    requires j.action.Removing? && w.disk.journals[op].phase.Committed? && Library(j.filename) in w.disk.weights
    requires j.filename in Named(slots[0].before) && cut >= 2
    ensures NoDangling(Effect(w.disk, op, true, DoQuarantine(true, cut)), slots) <==> !w.torn
    ensures All(w.disk, slots, After) <==> !w.torn
  {
    var d, e := w.disk, DoQuarantine(true, cut);
    QuarantineCut(d, op, [Move(Library(j.filename), Quarantine(op))], cut);
    CutOne(d, Move(Library(j.filename), Quarantine(op)), cut);
    if !w.torn {
      NextSound(w, op, true, j, slots, Mine(e));
      NextWeighted(w, op, j, slots, Mine(e));
      WeightedIsSafe(Effect(d, op, true, e), op, j, slots);
    } else {
      assert Effect(d, op, true, e).live == d.live;
      assert Library(j.filename) !in Effect(d, op, true, e).weights;
    }
  }

  /** Rolling back a removal is safe at every crash point exactly when its
      weight is in the library or in quarantine. */
  lemma {:induction false} RollbackExactly(w: World, op: OpId, j: Journal, slots: seq<Slot>)
    requires Sound(w, op, j, slots) && Weighted(w.disk, op, j, slots)
    requires j.action.Removing? && !w.disk.journals[op].phase.Finalized?
    requires j.filename in Named(slots[0].before)
    ensures (forall cut, failed :: NoDangling(Effect(w.disk, op, true, DoRollback(cut, failed)), slots)) <==>
            Library(j.filename) in w.disk.weights || Quarantine(op) in w.disk.weights
  {
    var d := w.disk;
    if Library(j.filename) in d.weights || Quarantine(op) in d.weights {
      forall cut, failed ensures NoDangling(Effect(d, op, true, DoRollback(cut, failed)), slots) {
        var e := DoRollback(cut, failed);
        NextSound(w, op, true, j, slots, Mine(e));
        NextWeighted(w, op, j, slots, Mine(e));
        WeightedIsSafe(Effect(d, op, true, e), op, j, slots);
      }
    } else {
      GoneDangles(w, op, j, slots);
    }
  }

  /** Both hazards are reachable from every prepared removal: by a rollback that
      stops behind its first file, and by a finalize that stops behind its first
      step. */
  lemma {:induction false} HazardsAreReachable(d: Disk, op: OpId, slots: seq<Slot>)
    requires Ready(d, op, slots) && Weighed(d, op, slots) && d.journals[op].action.Removing?
    requires d.journals[op].filename in Named(slots[0].before)
    ensures var w := Reached(World(d, false), op, true,
                             [Mine(DoCommit(false, |slots| + 2)), Mine(DoRollback(1, false)),
                               Mine(DoQuarantine(true, 2))]);
            !NoDangling(w.disk, slots)
    ensures var w := Reached(World(d, false), op, true,
                             [Mine(DoCommit(false, |slots| + 2)), Mine(DoQuarantine(true, 2)), Mine(DoFinalize(1)),
                              Mine(DoRollback(1, false))]);
            !NoDangling(w.disk, slots)
  {
    var j, w0 := d.journals[op], World(d, false);
    var commit, tear, quarantine, finalize :=
      Mine(DoCommit(false, |slots| + 2)), Mine(DoRollback(1, false)), Mine(DoQuarantine(true, 2)), Mine(DoFinalize(1));
    var w1 := Next(w0, op, true, commit);
    CommittedRemoval(w0, op, j, slots, commit.event);
    ReachedFour(w0, op, commit, tear, quarantine, tear);
    ReachedFour(w0, op, commit, quarantine, finalize, tear);
    var w2 := Next(w1, op, true, tear);
    TornRemoval(w1, op, j, slots);
    QuarantineExactly(w2, op, j, slots, 2);
    FinalizedRemoval(w1, op, j, slots);
    var u3 := Next(Next(w1, op, true, quarantine), op, true, finalize);
    GoneDangles(u3, op, j, slots);
  }

  lemma {:induction false} ReachedFour(w: World, op: OpId, a: Happening, b: Happening, c: Happening, e: Happening)
    ensures Reached(w, op, true, [a, b, c]) == Next(Next(Next(w, op, true, a), op, true, b), op, true, c)
    ensures Reached(w, op, true, [a, b, c, e])
            == Next(Next(Next(Next(w, op, true, a), op, true, b), op, true, c), op, true, e)
  {
    assert [a][..0] == [] && [a, b][..1] == [a] && [a, b, c][..2] == [a, b] && [a, b, c, e][..3] == [a, b, c];
    assert Reached(w, op, true, [a]) == Next(w, op, true, a);
    assert Reached(w, op, true, [a, b]) == Next(Next(w, op, true, a), op, true, b);
  }

  lemma {:induction false} CommittedRemoval(w: World, op: OpId, j: Journal, slots: seq<Slot>, e: Event)
    requires Ready(w.disk, op, slots) && Weighed(w.disk, op, slots) && j == w.disk.journals[op] && !w.torn
    requires j.action.Removing? && e == DoCommit(false, |slots| + 2)
    ensures var w' := Next(w, op, true, Mine(e));
            Sound(w', op, j, slots) && Weighted(w'.disk, op, j, slots) && !w'.torn
            && w'.disk.journals[op].phase.Committed? && Library(j.filename) in w'.disk.weights
  {
    CommitAnswer(w, op, true, j, slots, false, |slots| + 2);
    NextSound(w, op, true, j, slots, Mine(e));
    NextWeighted(w, op, j, slots, Mine(e));
    KnownPaths(w.disk, slots);
    CommitLeavesWeights(w.disk, op, slots, false, |slots| + 2);
  }

  lemma {:induction false} TornRemoval(w: World, op: OpId, j: Journal, slots: seq<Slot>)
    requires Sound(w, op, j, slots) && Weighted(w.disk, op, j, slots) && !w.torn
    requires j.action.Removing? && w.disk.journals[op].phase.Committed? && Library(j.filename) in w.disk.weights
    ensures var w' := Next(w, op, true, Mine(DoRollback(1, false)));
            Sound(w', op, j, slots) && Weighted(w'.disk, op, j, slots) && w'.torn
            && w'.disk.journals[op].phase.Committed? && Library(j.filename) in w'.disk.weights
  {
    hide Run, Complete, Slots;
    var d := w.disk;
    NextSound(w, op, true, j, slots, Mine(DoRollback(1, false)));
    NextWeighted(w, op, j, slots, Mine(DoRollback(1, false)));
    KnownPaths(d, slots);
    RollbackAccepted(w, op, true, j, slots);
    var returning := RollbackShape(d, op, true, slots);
    RollbackCut(d, op, [], slots, [], 1);
    CutOne(d, Unlink(Upload(op)), 1);
    assert Effect(d, op, true, DoRollback(1, false)).live[slots[0].path] == slots[0].before;
  }

  lemma {:induction false} FinalizedRemoval(w: World, op: OpId, j: Journal, slots: seq<Slot>)
    requires Sound(w, op, j, slots) && Weighted(w.disk, op, j, slots) && !w.torn
    requires j.action.Removing? && w.disk.journals[op].phase.Committed? && Library(j.filename) in w.disk.weights
    ensures var w' := Next(Next(w, op, true, Mine(DoQuarantine(true, 2))), op, true, Mine(DoFinalize(1)));
            Sound(w', op, j, slots) && Weighted(w'.disk, op, j, slots) && w'.disk.journals[op].phase.Quarantined?
            && Library(j.filename) !in w'.disk.weights && Quarantine(op) !in w'.disk.weights
  {
    hide Run, Complete, Slots;
    var d := w.disk;
    NextSound(w, op, true, j, slots, Mine(DoQuarantine(true, 2)));
    NextWeighted(w, op, j, slots, Mine(DoQuarantine(true, 2)));
    QuarantineCut(d, op, [Move(Library(j.filename), Quarantine(op))], 2);
    CutOne(d, Move(Library(j.filename), Quarantine(op)), 2);
    var w1 := Next(w, op, true, Mine(DoQuarantine(true, 2)));
    NextSound(w1, op, true, j, slots, Mine(DoFinalize(1)));
    NextWeighted(w1, op, j, slots, Mine(DoFinalize(1)));
    FinalizeCut(w1.disk, op, [Unlink(Quarantine(op))], 1);
    CutOne(w1.disk, Unlink(Quarantine(op)), 1);
  }

  /** Once the weight is in neither place, the first restored file dangles. */
  lemma {:induction false} GoneDangles(w: World, op: OpId, j: Journal, slots: seq<Slot>)
    requires Sound(w, op, j, slots) && j.action.Removing? && w.disk.journals[op].phase.Quarantined?
    requires Library(j.filename) !in w.disk.weights && Quarantine(op) !in w.disk.weights
    requires j.filename in Named(slots[0].before)
    ensures !NoDangling(Effect(w.disk, op, true, DoRollback(1, false)), slots)
  {
    var d := w.disk;
    KnownPaths(d, slots);
    RollbackAccepted(w, op, true, j, slots);
    var returning := RollbackShape(d, op, true, slots);
    RollbackCut(d, op, [], slots, [], 1);
    CutOne(d, Unlink(Upload(op)), 1);
    assert Effect(d, op, true, DoRollback(1, false)).live[slots[0].path] == slots[0].before;
  }
}
