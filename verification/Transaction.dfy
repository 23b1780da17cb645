/** The journaled publication transaction as plans of atomic steps over a disk.
    A handler is the list of steps it performs when nothing goes wrong; a crash
    or an I/O failure leaves a prefix of it. */
module Transaction {
  import opened SourcePaths
  import opened Publications

  type OpId = string

  // ----- the disk -----

  datatype Action = Installing | Removing | Editing | Syncing

  datatype Phase = Staged | Prepared | Committing | Committed | Quarantined | RolledBack | RepairRequired | Finalized

  datatype Target = Target(source: string, expected: Revision, candidate: Revision)

  datatype Requested = Requested(source: string, expected: Revision, publicationId: string)

  datatype Request = Request(targets: seq<Requested>, change: Change, publishedAt: string)

  /** `filename` and `digest` describe the weight the operation is about. */
  datatype Journal = Journal(phase: Phase, action: Action, targets: seq<Target>, filename: string, digest: string,
                             request: Option<Request>)

  datatype Generation = Before | After

  datatype Saved = Saved(op: OpId, dir: nat, generation: Generation, part: Part)

  datatype Place = Library(filename: string) | Upload(op: OpId) | Quarantine(op: OpId)

  datatype Disk = Disk(live: map<string, Bytes>, saved: map<Saved, Bytes>, journals: map<OpId, Journal>,
                       weights: map<Place, string>)

  datatype Step =
    | Publish(path: string, bytes: Bytes)
    | Keep(saved: Saved, bytes: Bytes)
    | Discard(saved: Saved)
    | Record(op: OpId, journal: Journal)
    | Move(from: Place, to: Place)
    | Unlink(place: Place)

  function Apply(d: Disk, s: Step): Disk {
    match s
    case Publish(path, bytes) => d.(live := d.live[path := bytes])
    case Keep(saved, bytes) => d.(saved := d.saved[saved := bytes])
    case Discard(saved) => d.(saved := d.saved - {saved})
    case Record(op, journal) => d.(journals := d.journals[op := journal])
    case Move(from, to) =>
      if from in d.weights then d.(weights := (d.weights - {from})[to := d.weights[from]]) else d
    case Unlink(place) => d.(weights := d.weights - {place})
  }

  function Run(d: Disk, steps: seq<Step>): Disk {
    if steps == [] then d else Apply(Run(d, steps[..|steps| - 1]), steps[|steps| - 1])
  }

  /** The first `k` steps, or all of them. */
  function Cut(steps: seq<Step>, k: nat): seq<Step> {
    if k < |steps| then steps[..k] else steps
  }

  lemma {:induction false} RunConcat(d: Disk, a: seq<Step>, b: seq<Step>)
    ensures Run(d, a + b) == Run(Run(d, a), b)
  {
    if b == [] {
      assert a + b == a;
    } else {
      RunConcat(d, a, b[..|b| - 1]);
      assert (a + b)[..|a + b| - 1] == a + b[..|b| - 1];
    }
  }

  lemma {:induction false} CutConcat(d: Disk, a: seq<Step>, b: seq<Step>, k: nat)
    ensures Run(d, Cut(a + b, k)) == if k <= |a| then Run(d, Cut(a, k)) else Run(Run(d, a), Cut(b, k - |a|))
  {
    if k <= |a| {
      assert Cut(a + b, k) == Cut(a, k);
    } else {
      assert Cut(a + b, k) == a + Cut(b, k - |a|);
      RunConcat(d, a, Cut(b, k - |a|));
    }
  }

  lemma {:induction false} RunNone(d: Disk, k: nat)
    ensures Run(d, Cut([], k)) == d
  {
  }

  lemma {:induction false} RunOne(d: Disk, s: Step)
    ensures Run(d, [s]) == Apply(d, s)
  {
  }

  // ----- the files of an operation -----

  /** One live file of an operation with its journaled bytes. */
  datatype Slot = Slot(path: string, before: Bytes, after: Bytes) {
    function Bytes(g: Generation): Bytes { if g.Before? then before else after }
  }

  function PartAt(n: nat): Part {
    if n % 3 == 0 then Workflow else if n % 3 == 1 then Api else Manifest
  }

  /** Every before and after file of the operation is on disk. */
  predicate Complete(d: Disk, op: OpId, targets: seq<Target>) {
    && (forall t :: t in targets ==> EndsWith(t.source, ".json"))
    && (forall n :: 0 <= n < 3 * |targets| ==>
          Saved(op, n / 3, Before, PartAt(n)) in d.saved && Saved(op, n / 3, After, PartAt(n)) in d.saved)
  }

  /** The files in the order in which commit and rollback write them. */
  function Slots(d: Disk, op: OpId, targets: seq<Target>): (r: seq<Slot>)
    requires Complete(d, op, targets)
    ensures |r| == 3 * |targets|
  {
    seq(3 * |targets|, n requires 0 <= n < 3 * |targets| =>
      Slot(PartPath(targets[n / 3].source, PartAt(n)),
           d.saved[Saved(op, n / 3, Before, PartAt(n))], d.saved[Saved(op, n / 3, After, PartAt(n))]))
  }

  function Publishes(slots: seq<Slot>, g: Generation): (r: seq<Step>)
    ensures |r| == |slots|
  {
    seq(|slots|, n requires 0 <= n < |slots| => Publish(slots[n].path, slots[n].Bytes(g)))
  }

  /** Every live file holds its old or its new bytes. */
  predicate Known(d: Disk, slots: seq<Slot>) {
    forall n :: 0 <= n < |slots| ==> slots[n].path in d.live
                                     && (d.live[slots[n].path] == slots[n].before
                                         || d.live[slots[n].path] == slots[n].after)
  }

  predicate All(d: Disk, slots: seq<Slot>, g: Generation) {
    forall n :: 0 <= n < |slots| ==> slots[n].path in d.live && d.live[slots[n].path] == slots[n].Bytes(g)
  }

  /** Distinct files, each of which the operation changes. */
  predicate Proper(slots: seq<Slot>) {
    && (forall i, j :: 0 <= i < j < |slots| ==> slots[i].path != slots[j].path)
    && forall n :: 0 <= n < |slots| ==> slots[n].before != slots[n].after
  }

  // ----- the handlers as plans -----

  /** The steps of a handler and the error it ends with, if any. */
  datatype Plan = Plan(steps: seq<Step>, error: Option<string>)

  function Refuse(reason: string): Plan { Plan([], Some(reason)) }

  /** Installation puts the uploaded weight in place before anything names it. */
  function PlaceWeight(d: Disk, op: OpId, j: Journal, writer: bool): Result<seq<Step>> {
    var place := Library(j.filename);
    if !j.action.Installing? then Ok([])
    else if writer && place !in d.weights then
      if Upload(op) !in d.weights then Refused("Uploaded LoRA staging file is missing")
      else if d.weights[Upload(op)] != j.digest then Refused("Uploaded LoRA staging file changed")
      else Ok([Move(Upload(op), place)])
    else if place !in d.weights then Refused("LoRA file is missing")
    else if d.weights[place] != j.digest then Refused("Installed LoRA file changed")
    else Ok([])
  }

  function CommitSteps(op: OpId, j: Journal, placing: seq<Step>, slots: seq<Slot>): seq<Step> {
    placing + [Record(op, j.(phase := Committing))] + Publishes(slots, After) + [Record(op, j.(phase := Committed))]
  }

  function CommitPlan(d: Disk, op: OpId, writer: bool, leased: bool): Plan {
    if op !in d.journals then Refuse("Unknown LoRA operation")
    else
      var j := d.journals[op];
      if j.targets == [] then Refuse("Operation is not prepared")
      else if j.phase.Committed? then Plan([], None)
      else if !j.phase.Prepared? && !j.phase.Committing? then Refuse("Operation is not prepared")
      else if leased then Refuse("Save & Publish is active for this workflow")
      else if !Complete(d, op, j.targets) || !Known(d, Slots(d, op, j.targets)) then
        Refuse("Publication changed during operation")
      else
        var placing := PlaceWeight(d, op, j, writer);
        if placing.Refused? then Refuse(placing.reason)
        else Plan(CommitSteps(op, j, placing.value, Slots(d, op, j.targets)), None)
  }

  function RepairPlan(op: OpId, j: Journal, reason: string): Plan {
    Plan([Record(op, j.(phase := RepairRequired))], Some(reason))
  }

  /** A removal brings its weight back before anything names it again. */
  function ReturnWeight(d: Disk, op: OpId, j: Journal, writer: bool): Result<seq<Step>> {
    if writer && j.action.Removing? && Quarantine(op) in d.weights then
      if Library(j.filename) in d.weights then Refused("LoRA file was replaced during rollback")
      else Ok([Move(Quarantine(op), Library(j.filename))])
    else Ok([])
  }

  /** An installation deletes its weight once nothing names it any more. */
  function DropWeight(op: OpId, j: Journal, writer: bool): seq<Step> {
    if writer && j.action.Installing? then
      (if j.targets != [] then [Unlink(Library(j.filename))] else []) + [Unlink(Upload(op))]
    else []
  }

  function RollbackSteps(op: OpId, j: Journal, returning: seq<Step>, slots: seq<Slot>, dropping: seq<Step>): seq<Step> {
    returning + Publishes(slots, Before) + (dropping + [Record(op, j.(phase := RolledBack))])
  }

  function RollbackPlan(d: Disk, op: OpId, writer: bool): Plan {
    if op !in d.journals then Plan(if writer then [Unlink(Upload(op))] else [], None)
    else
      var j := d.journals[op];
      if j.phase.RolledBack? then Plan([], None)
      else if j.phase.Finalized? then Refuse("Finalized operation cannot be rolled back")
      else if !Complete(d, op, j.targets) || !Known(d, Slots(d, op, j.targets)) then
        RepairPlan(op, j, "External publication edit prevents rollback")
      else
        var returning := ReturnWeight(d, op, j, writer);
        if returning.Refused? then RepairPlan(op, j, returning.reason)
        else Plan(RollbackSteps(op, j, returning.value, Slots(d, op, j.targets), DropWeight(op, j, writer)), None)
  }

  /** `clear` says that no other publication, authoring workflow or queued
      native job needs the weight. */
  function QuarantinePlan(d: Disk, op: OpId, writer: bool, clear: bool): Plan {
    if op !in d.journals then Refuse("Unknown LoRA operation")
    else
      var j := d.journals[op];
      if !j.action.Removing? then Refuse("Only removal has a quarantine phase")
      else if j.phase.Quarantined? then Plan([], None)
      else if !j.phase.Committed? then Refuse("Removal must be committed before quarantine")
      else if writer && !clear then Refuse("LoRA is used by another published workflow")
      else if writer && Library(j.filename) !in d.weights then Refuse("LoRA file is missing")
      else Plan((if writer then [Move(Library(j.filename), Quarantine(op))] else [])
                + [Record(op, j.(phase := Quarantined))], None)
  }

  function Discards(op: OpId, targets: seq<Target>): seq<Step> {
    seq(6 * |targets|, n requires 0 <= n =>
      Discard(Saved(op, n / 6, if n % 2 == 0 then Before else After, PartAt(n / 2))))
  }

  function FinalizePlan(d: Disk, op: OpId, writer: bool): Plan {
    if op !in d.journals then Refuse("Unknown LoRA operation")
    else
      var j := d.journals[op];
      if j.phase.Finalized? then Plan([], None)
      else if !j.phase.Quarantined? && (!j.phase.Committed? || (j.action.Removing? && writer)) then
        Refuse("Operation is not ready to finalize")
      else Plan((if writer && j.action.Removing? then [Unlink(Quarantine(op))] else [])
                + [Record(op, j.(phase := Finalized))] + Discards(op, j.targets), None)
  }

  // ----- runs -----

  /** One call of a handler.  `cut` is the number of steps it gets through: the
      process may stop there.  For rollback an I/O failure at that point is also
      possible, and then the handler records that a repair is required.  An I/O
      failure of commit is a commit that stops followed by a rollback. */
  datatype Event =
    | DoCommit(leased: bool, cut: nat)
    | DoRollback(cut: nat, failed: bool)
    | DoQuarantine(clear: bool, cut: nat)
    | DoFinalize(cut: nat)

  function PlanOf(d: Disk, op: OpId, writer: bool, e: Event): Plan {
    match e
    case DoCommit(leased, _) => CommitPlan(d, op, writer, leased)
    case DoRollback(_, _) => RollbackPlan(d, op, writer)
    case DoQuarantine(clear, _) => QuarantinePlan(d, op, writer, clear)
    case DoFinalize(_) => FinalizePlan(d, op, writer)
  }

  function Effect(d: Disk, op: OpId, writer: bool, e: Event): Disk {
    var plan := PlanOf(d, op, writer, e);
    var d' := Run(d, Cut(plan.steps, e.cut));
    if e.DoRollback? && e.failed && e.cut < |plan.steps| && op in d.journals then
      Apply(d', Record(op, d.journals[op].(phase := RepairRequired)))
    else d'
  }

  /** A rollback that changed a live file of a committed operation and left the
      journal saying what it said before. */
  predicate Tears(d: Disk, op: OpId, writer: bool, e: Event) {
    && e.DoRollback? && op in d.journals && (d.journals[op].phase.Committed? || d.journals[op].phase.Quarantined?)
    && var d' := Effect(d, op, writer, e);
       d'.live != d.live && op in d'.journals && d'.journals[op] == d.journals[op]
  }

  // ----- what publishing does -----

  ghost predicate Paths(slots: seq<Slot>, live: map<string, Bytes>) {
    (forall i, j :: 0 <= i < j < |slots| ==> slots[i].path != slots[j].path)
    && forall n :: 0 <= n < |slots| ==> slots[n].path in live
  }

  /** `live'` is `live` with the first `k` slots overwritten. */
  ghost predicate Written(live: map<string, Bytes>, live': map<string, Bytes>, slots: seq<Slot>, g: Generation, k: nat)
    requires Paths(slots, live)
  {
    && live'.Keys == live.Keys
    && (forall n :: 0 <= n < |slots| ==> live'[slots[n].path] == if n < k then slots[n].Bytes(g)
        else live[slots[n].path])
    && (forall p :: p in live && (forall n :: 0 <= n < |slots| ==> slots[n].path != p) ==> live'[p] == live[p])
  }

  lemma {:induction false} WrittenNext(live: map<string, Bytes>, live': map<string, Bytes>, slots: seq<Slot>,
                                       g: Generation, k: nat)
    requires Paths(slots, live) && k < |slots| && Written(live, live', slots, g, k)
    ensures Written(live, live'[slots[k].path := slots[k].Bytes(g)], slots, g, k + 1)
  {
  }

  lemma {:induction false} CutPublishes(d: Disk, slots: seq<Slot>, g: Generation, k: nat)
    requires Paths(slots, d.live)
    ensures var d' := Run(d, Cut(Publishes(slots, g), k));
            d' == d.(live := d'.live) && Written(d.live, d'.live, slots, g, k)
  {
    var steps := Publishes(slots, g);
    if k > |slots| {
      CutPublishes(d, slots, g, |slots|);
    } else if k > 0 {
      CutPublishes(d, slots, g, k - 1);
      assert Cut(steps, k)[..k - 1] == Cut(steps, k - 1);
      WrittenNext(d.live, Run(d, Cut(steps, k - 1)).live, slots, g, k - 1);
    }
  }
}
