/** Crash atomicity of one prepared operation over every run: any sequence of
    handler calls, each of which may stop after any of its steps, mixed with
    foreign changes that leave the operation's own files alone. */
module CrashAtomicity {
  import opened SourcePaths
  import opened Publications
  import opened Transaction
  import opened TransactionRuns

  /** A call of a handler of the operation, or any other change of the disk. */
  datatype Happening = Mine(event: Event) | Foreign(disk: Disk)

  /** The disk, and whether some rollback has torn a committed publication. */
  datatype World = World(disk: Disk, torn: bool)

  function Next(w: World, op: OpId, writer: bool, h: Happening): World {
    match h
    case Mine(e) => World(Effect(w.disk, op, writer, e), w.torn || Tears(w.disk, op, writer, e))
    case Foreign(disk) => World(disk, w.torn)
  }

  function Reached(w: World, op: OpId, writer: bool, run: seq<Happening>): World {
    if run == [] then w else Next(Reached(w, op, writer, run[..|run| - 1]), op, writer, run[|run| - 1])
  }

  ghost predicate SameSaved(d: Disk, d': Disk, op: OpId) {
    forall s: Saved :: s.op == op ==> (s in d'.saved <==> s in d.saved) && (s in d.saved ==> d'.saved[s] == d.saved[s])
  }

  /** A change that respects the operation's journal, its kept bytes and its live files. */
  ghost predicate Undisturbed(d: Disk, d': Disk, op: OpId, slots: seq<Slot>) {
    && op in d.journals && op in d'.journals && d'.journals[op] == d.journals[op]
    && SameSaved(d, d', op)
    && forall n :: 0 <= n < |slots| ==> slots[n].path in d.live && slots[n].path in d'.live
                                        && d'.live[slots[n].path] == d.live[slots[n].path]
  }

  ghost predicate Legit(w: World, op: OpId, writer: bool, slots: seq<Slot>, run: seq<Happening>) {
    run == [] ||
    (Legit(w, op, writer, slots, run[..|run| - 1])
     && var h := run[|run| - 1];
        h.Foreign? ==> Undisturbed(Reached(w, op, writer, run[..|run| - 1]).disk, h.disk, op, slots))
  }

  /** What a completed prepare leaves behind. */
  ghost predicate Ready(d: Disk, op: OpId, slots: seq<Slot>) {
    && op in d.journals && d.journals[op].phase.Prepared? && d.journals[op].targets != []
    && Complete(d, op, d.journals[op].targets) && Slots(d, op, d.journals[op].targets) == slots
    && Proper(slots) && All(d, slots, Before)
  }

  predicate Closed(p: Phase) { p.Committed? || p.Quarantined? || p.Finalized? }

  /** The invariant of every run that starts with `j` prepared for `slots`. */
  ghost predicate Sound(w: World, op: OpId, j: Journal, slots: seq<Slot>) {
    var d := w.disk;
    && op in d.journals && d.journals[op] == j.(phase := d.journals[op].phase) && j.targets != []
    && Proper(slots) && |slots| == 3 * |j.targets| && Known(d, slots)
    && var p := d.journals[op].phase;
       && !p.Staged?
       && (!p.Finalized? ==> Complete(d, op, j.targets) && Slots(d, op, j.targets) == slots)
       && (p.Prepared? || p.RolledBack? ==> All(d, slots, Before))
       && (p.Prepared? || p.Committing? ==> !w.torn)
       && (Closed(p) && !w.torn ==> All(d, slots, After))
       && (Closed(p) && w.torn ==> d.live[slots[0].path] == slots[0].before)
  }

  lemma {:induction false} KnownPaths(d: Disk, slots: seq<Slot>)
    requires Known(d, slots) && Proper(slots)
    ensures Paths(slots, d.live)
  {
  }

  lemma {:induction false} SlotsDepend(d: Disk, d': Disk, op: OpId, targets: seq<Target>)
    requires Complete(d, op, targets) && SameSaved(d, d', op)
    ensures Complete(d', op, targets) && Slots(d', op, targets) == Slots(d, op, targets)
  {
  }

  /** `d'` is `d` with the first `c` files rewritten and the phase set to `p`;
      weights may differ. */
  ghost predicate Rewritten(d: Disk, d': Disk, op: OpId, slots: seq<Slot>, g: Generation, c: nat, p: Phase)
    requires op in d.journals && Paths(slots, d.live)
  {
    && d'.saved == d.saved && Written(d.live, d'.live, slots, g, c)
    && d'.journals == d.journals[op := d.journals[op].(phase := p)]
  }

  lemma {:induction false} RewrittenNothing(d: Disk, d': Disk, op: OpId, slots: seq<Slot>, g: Generation)
    requires op in d.journals && Paths(slots, d.live)
    requires d'.saved == d.saved && d'.live == d.live && d'.journals == d.journals
    ensures Rewritten(d, d', op, slots, g, 0, d.journals[op].phase)
  {
  }

  /** Where a commit can stop: it announces itself before it writes and records
      success only after it wrote everything. */
  ghost predicate CommitStop(before: Phase, c: nat, p: Phase, count: nat) {
    || (c == 0 && p == before)
    || ((before.Prepared? || before.Committing?) && c <= count && (p.Committing? || (p.Committed? && c == count)))
  }

  /** How a commit that does anything is laid out. */
  lemma {:induction false} CommitShape(d: Disk, op: OpId, writer: bool, leased: bool, slots: seq<Slot>)
    returns (placing: seq<Step>)
    requires op in d.journals
    requires Complete(d, op, d.journals[op].targets) ==> Slots(d, op, d.journals[op].targets) == slots
    ensures var j, steps := d.journals[op], CommitPlan(d, op, writer, leased).steps;
            steps == [] ||
            ((j.phase.Prepared? || j.phase.Committing?) && steps == CommitSteps(op, j, placing, slots)
             && if j.action.Installing? && Library(j.filename) !in d.weights
                then placing == [Move(Upload(op), Library(j.filename))] && Upload(op) in d.weights
                else placing == [])
  {
    hide Complete, Slots, Known;
    var placed := PlaceWeight(d, op, d.journals[op], writer);
    placing := if placed.Ok? then placed.value else [];
  }

  lemma {:induction false} CommitAccepts(d: Disk, op: OpId, writer: bool, leased: bool)
    requires CommitPlan(d, op, writer, leased).error.None?
    ensures op in d.journals
    ensures if CommitPlan(d, op, writer, leased).steps == [] then d.journals[op].phase.Committed?
            else d.journals[op].phase.Prepared? || d.journals[op].phase.Committing?
  {
  }

  lemma {:induction false} CommitReaches(d: Disk, op: OpId, writer: bool, leased: bool, slots: seq<Slot>, k: nat)
    returns (c: nat, p: Phase)
    requires op in d.journals && Paths(slots, d.live)
    requires Complete(d, op, d.journals[op].targets) ==> Slots(d, op, d.journals[op].targets) == slots
    ensures CommitStop(d.journals[op].phase, c, p, |slots|)
    ensures Rewritten(d, Run(d, Cut(CommitPlan(d, op, writer, leased).steps, k)), op, slots, After, c, p)
  {
    hide CommitPlan, Complete, Slots, Known, Run, Paths;
    RunNone(d, k);
    var j := d.journals[op];
    c, p := 0, j.phase;
    RewrittenNothing(d, d, op, slots, After);
    var placing := CommitShape(d, op, writer, leased, slots);
    var steps := CommitPlan(d, op, writer, leased).steps;
    if steps != [] {
      CommitCut(d, op, placing, slots, k);
      if k <= |placing| {
        RewrittenNothing(d, Run(d, Cut(steps, k)), op, slots, After);
      } else {
        c, p := Clamp(k - |placing| - 1, |slots|), if k < |steps| then Committing else Committed;
      }
    }
  }

  lemma {:induction false} CommitKeeps(w: World, op: OpId, writer: bool, j: Journal, slots: seq<Slot>, e: Event)
    requires Sound(w, op, j, slots) && e.DoCommit?
    ensures Sound(Next(w, op, writer, Mine(e)), op, j, slots)
  {
    var d, d' := w.disk, Effect(w.disk, op, writer, e);
    KnownPaths(d, slots);
    if d.journals[op].phase.Prepared? || d.journals[op].phase.Committing? {
      var c, p := CommitReaches(d, op, writer, e.leased, slots, e.cut);
      SlotsDepend(d, d', op, j.targets);
      CommittedSound(w, d', op, j, slots, c, p);
    } else {
      CommitIdles(d, op, writer, e);
    }
  }

  lemma {:induction false} CommitIdles(d: Disk, op: OpId, writer: bool, e: Event)
    requires e.DoCommit? && op in d.journals && !d.journals[op].phase.Prepared? && !d.journals[op].phase.Committing?
    ensures Effect(d, op, writer, e) == d
  {
  }

  lemma {:induction false} CommittedSound(w: World, d': Disk, op: OpId, j: Journal, slots: seq<Slot>, c: nat, p: Phase)
    requires Sound(w, op, j, slots) && Paths(slots, w.disk.live)
    requires w.disk.journals[op].phase.Prepared? || w.disk.journals[op].phase.Committing?
    requires CommitStop(w.disk.journals[op].phase, c, p, |slots|) && Rewritten(w.disk, d', op, slots, After, c, p)
    requires Complete(d', op, j.targets) && Slots(d', op, j.targets) == slots
    ensures Sound(World(d', w.torn), op, j, slots)
  {
    hide Slots, Complete;
  }

  /** Where a rollback can stop. */
  ghost predicate RollbackStop(before: Phase, c: nat, p: Phase, count: nat) {
    || (c == 0 && p == before)
    || (!before.RolledBack? && !before.Finalized? && c <= count
        && (p == before || p.RepairRequired? || (p.RolledBack? && c == count)))
  }

  lemma {:induction false} RollbackReaches(d: Disk, op: OpId, writer: bool, slots: seq<Slot>, e: Event)
    returns (c: nat, p: Phase)
    requires e.DoRollback? && op in d.journals && Paths(slots, d.live)
    requires Complete(d, op, d.journals[op].targets) ==> Slots(d, op, d.journals[op].targets) == slots
    ensures RollbackStop(d.journals[op].phase, c, p, |slots|)
    ensures Rewritten(d, Effect(d, op, writer, e), op, slots, Before, c, p)
  {
    hide RollbackPlan, Complete, Slots, Known, Run, Paths, Written;
    var plan := RollbackPlan(d, op, writer);
    c, p := RollbackRuns(d, op, writer, slots, e.cut);
    if e.failed && e.cut < |plan.steps| {
      p := RepairRequired;
    }
  }

  /** How a rollback that does anything is laid out. */
  lemma {:induction false} RollbackShape(d: Disk, op: OpId, writer: bool, slots: seq<Slot>)
    returns (returning: seq<Step>)
    requires op in d.journals
    requires Complete(d, op, d.journals[op].targets) ==> Slots(d, op, d.journals[op].targets) == slots
    ensures var j, steps := d.journals[op], RollbackPlan(d, op, writer).steps;
            steps == [] ||
            (!j.phase.RolledBack? && !j.phase.Finalized?
             && (steps == [Record(op, j.(phase := RepairRequired))]
                 || (steps == RollbackSteps(op, j, returning, slots, DropWeight(op, j, writer))
                     && if writer && j.action.Removing? && Quarantine(op) in d.weights
                        then returning == [Move(Quarantine(op), Library(j.filename))]
                        else returning == [])))
  {
    hide Complete, Slots, Known;
    var returned := ReturnWeight(d, op, d.journals[op], writer);
    returning := if returned.Ok? then returned.value else [];
  }

  lemma {:induction false} RollbackStepsRun(d: Disk, op: OpId, returning: seq<Step>, slots: seq<Slot>,
                                            dropping: seq<Step>, k: nat) returns (c: nat, p: Phase)
    requires op in d.journals && Paths(slots, d.live)
    requires (forall s :: s in returning ==> TouchesWeights(s)) && (forall s :: s in dropping ==> TouchesWeights(s))
    ensures c <= |slots| && (p == d.journals[op].phase || (p.RolledBack? && c == |slots|))
    ensures k >= |RollbackSteps(op, d.journals[op], returning, slots, dropping)| ==> p.RolledBack? && c == |slots|
    ensures Rewritten(d, Run(d, Cut(RollbackSteps(op, d.journals[op], returning, slots, dropping), k)), op, slots,
            Before, c, p)
  {
    var j := d.journals[op];
    RollbackCut(d, op, returning, slots, dropping, k);
    c := Clamp(k - |returning|, |slots|);
    p := if k < |RollbackSteps(op, j, returning, slots, dropping)| then j.phase else RolledBack;
    assert d.journals == d.journals[op := j];
  }

  lemma {:induction false} RollbackRuns(d: Disk, op: OpId, writer: bool, slots: seq<Slot>, k: nat)
    returns (c: nat, p: Phase)
    requires op in d.journals && Paths(slots, d.live)
    requires Complete(d, op, d.journals[op].targets) ==> Slots(d, op, d.journals[op].targets) == slots
    ensures RollbackStop(d.journals[op].phase, c, p, |slots|)
    ensures RollbackPlan(d, op, writer).steps != [] ==>
              !d.journals[op].phase.RolledBack? && !d.journals[op].phase.Finalized?
    ensures Rewritten(d, Run(d, Cut(RollbackPlan(d, op, writer).steps, k)), op, slots, Before, c, p)
  {
    hide RollbackPlan, Run, Apply, Publishes, Complete, Slots;
    RunNone(d, k);
    var j := d.journals[op];
    var returning := RollbackShape(d, op, writer, slots);
    var steps := RollbackPlan(d, op, writer).steps;
    if steps == [] {
      c, p := 0, j.phase;
      RewrittenNothing(d, d, op, slots, Before);
    } else if steps == [Record(op, j.(phase := RepairRequired))] {
      c, p := RepairRuns(d, op, slots, k);
    } else {
      c, p := RollbackStepsRun(d, op, returning, slots, DropWeight(op, j, writer), k);
    }
  }

  lemma {:induction false} RepairRuns(d: Disk, op: OpId, slots: seq<Slot>, k: nat) returns (c: nat, p: Phase)
    requires op in d.journals && Paths(slots, d.live)
    ensures c == 0 && p == (if k == 0 then d.journals[op].phase else RepairRequired)
    ensures Rewritten(d, Run(d, Cut([Record(op, d.journals[op].(phase := RepairRequired))], k)), op, slots, Before, c,
            p)
  {
    c, p := 0, if k == 0 then d.journals[op].phase else RepairRequired;
    RewrittenNothing(d, d, op, slots, Before);
    RunOne(d, Record(op, d.journals[op].(phase := RepairRequired)));
  }

  lemma {:induction false} RollbackKeeps(w: World, op: OpId, writer: bool, j: Journal, slots: seq<Slot>, e: Event)
    requires Sound(w, op, j, slots) && e.DoRollback?
    ensures Sound(Next(w, op, writer, Mine(e)), op, j, slots)
  {
    var d, d' := w.disk, Effect(w.disk, op, writer, e);
    KnownPaths(d, slots);
    if !d.journals[op].phase.Finalized? {
      var c, p := RollbackReaches(d, op, writer, slots, e);
      SlotsDepend(d, d', op, j.targets);
      RolledBackSound(w, d', op, j, slots, c, p, w.torn || Tears(d, op, writer, e));
    }
  }

  lemma {:induction false} RolledBackSound(w: World, d': Disk, op: OpId, j: Journal, slots: seq<Slot>, c: nat,
                                           p: Phase, torn: bool)
    requires Sound(w, op, j, slots) && Paths(slots, w.disk.live) && !w.disk.journals[op].phase.Finalized?
    requires RollbackStop(w.disk.journals[op].phase, c, p, |slots|)
    requires Rewritten(w.disk, d', op, slots, Before, c, p)
    requires Complete(d', op, j.targets) && Slots(d', op, j.targets) == slots
    requires torn == (w.torn || ((w.disk.journals[op].phase.Committed? || w.disk.journals[op].phase.Quarantined?)
                                 && d'.live != w.disk.live && op in d'.journals
                                 && d'.journals[op] == w.disk.journals[op]))
    ensures Sound(World(d', torn), op, j, slots)
  {
    if c == 0 {
      assert d'.live == w.disk.live;
    } else {
      assert d'.live[slots[0].path] == slots[0].before;
    }
  }

  lemma {:induction false} QuarantineKeeps(w: World, op: OpId, writer: bool, j: Journal, slots: seq<Slot>, e: Event)
    requires Sound(w, op, j, slots) && e.DoQuarantine?
    ensures Sound(Next(w, op, writer, Mine(e)), op, j, slots)
  {
    hide Run, Slots, Complete, Known, Proper, All;
    var d, plan := w.disk, QuarantinePlan(w.disk, op, writer, e.clear);
    RunNone(d, e.cut);
    if plan.steps != [] {
      QuarantineCut(d, op, if writer then [Move(Library(j.filename), Quarantine(op))] else [], e.cut);
      SlotsDepend(d, Effect(d, op, writer, e), op, j.targets);
      SameFiles(d, Effect(d, op, writer, e), slots);
    }
  }

  lemma {:induction false} FinalizeKeeps(w: World, op: OpId, writer: bool, j: Journal, slots: seq<Slot>, e: Event)
    requires Sound(w, op, j, slots) && e.DoFinalize?
    ensures Sound(Next(w, op, writer, Mine(e)), op, j, slots)
  {
    hide Run, Slots, Complete, Known, Proper, All;
    var d, plan := w.disk, FinalizePlan(w.disk, op, writer);
    RunNone(d, e.cut);
    if plan.steps != [] {
      var unlinking := if writer && j.action.Removing? then [Unlink(Quarantine(op))] else [];
      FinalizeCut(d, op, unlinking, e.cut);
      var d' := Effect(d, op, writer, e);
      if e.cut <= |unlinking| { SlotsDepend(d, d', op, j.targets); }
      SameFiles(d, d', slots);
    }
  }

  lemma {:induction false} SameFiles(d: Disk, d': Disk, slots: seq<Slot>)
    requires d'.live == d.live
    ensures Known(d', slots) == Known(d, slots) && forall g :: All(d', slots, g) == All(d, slots, g)
  {
  }

  lemma {:induction false} NextSound(w: World, op: OpId, writer: bool, j: Journal, slots: seq<Slot>, h: Happening)
    requires Sound(w, op, j, slots)
    requires h.Foreign? ==> Undisturbed(w.disk, h.disk, op, slots)
    ensures Sound(Next(w, op, writer, h), op, j, slots)
  {
    match h
    case Mine(e) =>
      match e {
        case DoCommit(_, _) => CommitKeeps(w, op, writer, j, slots, e);
        case DoRollback(_, _) => RollbackKeeps(w, op, writer, j, slots, e);
        case DoQuarantine(_, _) => QuarantineKeeps(w, op, writer, j, slots, e);
        case DoFinalize(_) => FinalizeKeeps(w, op, writer, j, slots, e);
      }
    case Foreign(d') =>
      if !w.disk.journals[op].phase.Finalized? { SlotsDepend(w.disk, d', op, j.targets); }
  }

  /** Whatever calls are made and wherever each of them stops, every live file
      of the operation holds its journaled old or new bytes; the recorded phases
      "prepared" and "rolled back" mean all old; and the recorded phases
      "committed", "quarantined" and "finalized" mean all new exactly as long as
      no rollback has torn the publication. */
  lemma {:induction false} EveryRunIsAtomic(d: Disk, op: OpId, writer: bool, slots: seq<Slot>, run: seq<Happening>)
    requires Ready(d, op, slots) && Legit(World(d, false), op, writer, slots, run)
    ensures var w := Reached(World(d, false), op, writer, run);
            && Sound(w, op, d.journals[op], slots)
            && Known(w.disk, slots)
            && (w.disk.journals[op].phase.Prepared? || w.disk.journals[op].phase.RolledBack? ==>
                All(w.disk, slots, Before))
            && (Closed(w.disk.journals[op].phase) ==> (All(w.disk, slots, After) <==> !w.torn))
  {
    if run != [] {
      var front := run[..|run| - 1];
      EveryRunIsAtomic(d, op, writer, slots, front);
      NextSound(Reached(World(d, false), op, writer, front), op, writer, d.journals[op], slots, run[|run| - 1]);
    }
  }

  // ----- what an answer means -----

  /** A commit that reports success has published every new file, exactly as
      long as no rollback has torn the operation: a recorded "committed" is
      believed without looking at the files.  On the disk this can be told from
      the first file alone. */
  lemma {:induction false} CommitAnswer(w: World, op: OpId, writer: bool, j: Journal, slots: seq<Slot>, leased: bool,
                                        cut: nat)
    requires Sound(w, op, j, slots)
    requires CommitPlan(w.disk, op, writer, leased).error.None? && cut >= |CommitPlan(w.disk, op, writer, leased).steps|
    ensures var d' := Effect(w.disk, op, writer, DoCommit(leased, cut));
            && op in d'.journals && d'.journals[op].phase.Committed?
            && (All(d', slots, After) <==> !w.torn)
            && (All(d', slots, After) <==>
                !w.disk.journals[op].phase.Committed? || w.disk.live[slots[0].path] == slots[0].after)
  {
    hide CommitPlan, Complete, Slots, Run, Paths, Publishes;
    var d := w.disk;
    KnownPaths(d, slots);
    RunNone(d, cut);
    CommitAccepts(d, op, writer, leased);
    var placing := CommitShape(d, op, writer, leased, slots);
    if CommitPlan(d, op, writer, leased).steps != [] {
      CommitCut(d, op, placing, slots, cut);
    }
  }

  /** A rollback that reports success has restored every old file. */
  lemma {:induction false} RollbackAnswer(w: World, op: OpId, writer: bool, j: Journal, slots: seq<Slot>, cut: nat,
                                          failed: bool)
    requires Sound(w, op, j, slots)
    requires RollbackPlan(w.disk, op, writer).error.None? && cut >= |RollbackPlan(w.disk, op, writer).steps|
    ensures var d' := Effect(w.disk, op, writer, DoRollback(cut, failed));
            op in d'.journals && d'.journals[op].phase.RolledBack? && All(d', slots, Before)
  {
    hide Run, Apply, Publishes, Slots;
    RunNone(w.disk, cut);
    var d := w.disk;
    KnownPaths(d, slots);
    var returning := RollbackShape(d, op, writer, slots);
    if RollbackPlan(d, op, writer).steps != [] {
      var c, p := RollbackStepsRun(d, op, returning, slots, DropWeight(op, d.journals[op], writer), cut);
    }
  }

  /** Rollback can always be retried: in every reachable state short of
      "finalized" it is accepted, unless a removed weight sits in two places. */
  lemma {:induction false} RollbackAccepted(w: World, op: OpId, writer: bool, j: Journal, slots: seq<Slot>)
    requires Sound(w, op, j, slots)
    ensures RollbackPlan(w.disk, op, writer).error.None? <==>
            !w.disk.journals[op].phase.Finalized?
            && (w.disk.journals[op].phase.RolledBack?
                || !(writer && j.action.Removing? && Quarantine(op) in w.disk.weights
                   && Library(j.filename) in w.disk.weights))
  {
  }

  /** The failing family: after a commit, a rollback that stops behind its first
      file and a second commit, the second commit reports success although the
      publication is a mixture. */
  lemma {:induction false} TornCommitReportsSuccess(d: Disk, op: OpId, writer: bool, slots: seq<Slot>)
    requires Ready(d, op, slots) && (d.journals[op].action.Editing? || d.journals[op].action.Syncing?)
    ensures var run := [Mine(DoCommit(false, |slots| + 2)), Mine(DoRollback(1, false))];
            var w := Reached(World(d, false), op, writer, run);
            && w.torn && op in w.disk.journals && w.disk.journals[op].phase.Committed?
            && CommitPlan(w.disk, op, writer, false) == Plan([], None)
            && !All(w.disk, slots, After) && !All(w.disk, slots, Before)
  {
    hide CommitPlan, RollbackPlan, Complete, Slots;
    var w0 := World(d, false);
    var commit, rollback := Mine(DoCommit(false, |slots| + 2)), Mine(DoRollback(1, false));
    var run := [commit, rollback];
    assert run[..1] == [commit] && run[..1][..0] == [];
    var w1 := Next(w0, op, writer, commit);
    CommittedFirst(d, op, writer, slots);
    TornByRollback(w1, op, writer, d.journals[op], slots);
    assert Reached(w0, op, writer, run[..1]) == w1;
    assert Reached(w0, op, writer, run) == Next(w1, op, writer, rollback);
  }

  lemma {:induction false} CommittedFirst(d: Disk, op: OpId, writer: bool, slots: seq<Slot>)
    requires Ready(d, op, slots) && (d.journals[op].action.Editing? || d.journals[op].action.Syncing?)
    ensures var w := Next(World(d, false), op, writer, Mine(DoCommit(false, |slots| + 2)));
            Sound(w, op, d.journals[op], slots) && !w.torn && w.disk.journals[op].phase.Committed?
  {
    var w0 := World(d, false);
    assert Sound(w0, op, d.journals[op], slots);
    CommitAnswer(w0, op, writer, d.journals[op], slots, false, |slots| + 2);
    NextSound(w0, op, writer, d.journals[op], slots, Mine(DoCommit(false, |slots| + 2)));
  }

  lemma {:induction false} TornByRollback(w: World, op: OpId, writer: bool, j: Journal, slots: seq<Slot>)
    requires Sound(w, op, j, slots) && (j.action.Editing? || j.action.Syncing?)
    requires !w.torn && w.disk.journals[op].phase.Committed?
    ensures var w' := Next(w, op, writer, Mine(DoRollback(1, false)));
            && w'.torn && op in w'.disk.journals && w'.disk.journals[op].phase.Committed?
            && CommitPlan(w'.disk, op, writer, false) == Plan([], None)
            && !All(w'.disk, slots, After) && !All(w'.disk, slots, Before)
  {
    hide Run, Slots, Complete, Publishes, Apply;
    var d := w.disk;
    KnownPaths(d, slots);
    var returning := RollbackShape(d, op, writer, slots);
    RollbackAccepted(w, op, writer, j, slots);
    RollbackCut(d, op, [], slots, [], 1);
    var live := Effect(d, op, writer, DoRollback(1, false)).live;
    assert live[slots[0].path] == slots[0].before && live[slots[1].path] == slots[1].after;
  }
}
