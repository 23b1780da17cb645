/** Optimistic concurrency between operations prepared on overlapping
    publications: a commit or a rollback overwrites only bytes it has seen. */
module FirstCommitter {
  import opened SourcePaths
  import opened Publications
  import opened Transaction

  /** A live file changes only to something a published step carries. */
  lemma {:induction false} RunLive(d: Disk, steps: seq<Step>, p: string)
    ensures var live := Run(d, steps).live;
            || ((p in live <==> p in d.live) && (p in d.live ==> live[p] == d.live[p]))
            || (p in live && Publish(p, live[p]) in steps)
  {
    hide Complete;
    if steps != [] {
      RunLive(d, steps[..|steps| - 1], p);
      var last := steps[|steps| - 1];
      assert steps == steps[..|steps| - 1] + [last];
      assert last in steps;
    }
  }

  lemma {:induction false} RunRest(d: Disk, op: OpId, steps: seq<Step>, other: OpId)
    requires forall s :: s in steps ==> Tame(d, op, s)
    ensures var d' := Run(d, steps);
            && d'.saved.Keys <= d.saved.Keys
            && (forall s :: s in d'.saved ==> d'.saved[s] == d.saved[s])
            && (op != other ==> (other in d'.journals <==> other in d.journals))
            && (op != other && other in d.journals ==> d'.journals[other] == d.journals[other])
            && (op in d'.journals ==> Similar(d, d'.journals[op], op))
  {
    hide Own, Complete, Slots;
    if steps != [] {
      RunRest(d, op, steps[..|steps| - 1], other);
      assert steps[|steps| - 1] in steps;
    }
  }

  /** The journal of `op` up to its phase. */
  ghost predicate Similar(d: Disk, j: Journal, op: OpId) {
    op in d.journals && j == d.journals[op].(phase := j.phase)
  }

  /** Every file that a handler publishes is one of the operation's own, holds
      its old or new bytes at that time, and receives its old or new bytes. */
  ghost predicate Own(d: Disk, op: OpId, p: string, bytes: Bytes) {
    && op in d.journals && Complete(d, op, d.journals[op].targets)
    && var slots := Slots(d, op, d.journals[op].targets);
       Known(d, slots) && exists n ::
         0 <= n < |slots| && slots[n].path == p && (bytes == slots[n].before || bytes == slots[n].after)
  }

  /** All that a handler of `op` may do outside the weights. */
  ghost predicate Tame(d: Disk, op: OpId, s: Step) {
    match s
    case Publish(p, bytes) => Own(d, op, p, bytes)
    case Keep(_, _) => false
    case Record(o, j) => o == op && Similar(d, j, op)
    case _ => true
  }

  lemma {:induction false} CommitTame(d: Disk, op: OpId, writer: bool, leased: bool)
    ensures forall s :: s in CommitPlan(d, op, writer, leased).steps ==> Tame(d, op, s)
  {
    if CommitPlan(d, op, writer, leased).steps != [] {
      var j := d.journals[op];
      var slots, placing := Slots(d, op, j.targets), PlaceWeight(d, op, j, writer).value;
      forall s | s in CommitSteps(op, j, placing, slots) ensures Tame(d, op, s) {
        if s in Publishes(slots, After) { PublishesOwn(d, op, After, s); }
      }
    }
  }

  lemma {:induction false} RollbackTame(d: Disk, op: OpId, writer: bool)
    ensures forall s :: s in RollbackPlan(d, op, writer).steps ==> Tame(d, op, s)
  {
    if |RollbackPlan(d, op, writer).steps| > 1 {
      var j := d.journals[op];
      var slots, returning := Slots(d, op, j.targets), ReturnWeight(d, op, j, writer).value;
      forall s | s in RollbackSteps(op, j, returning, slots, DropWeight(op, j, writer)) ensures Tame(d, op, s) {
        if s in Publishes(slots, Before) { PublishesOwn(d, op, Before, s); }
      }
    }
  }

  lemma {:induction false} PublishesOwn(d: Disk, op: OpId, g: Generation, s: Step)
    requires op in d.journals && Complete(d, op, d.journals[op].targets)
             && Known(d, Slots(d, op, d.journals[op].targets))
    requires s in Publishes(Slots(d, op, d.journals[op].targets), g)
    ensures Tame(d, op, s)
  {
  }

  lemma {:induction false} PlanTame(d: Disk, op: OpId, writer: bool, e: Event)
    ensures forall s :: s in PlanOf(d, op, writer, e).steps ==> Tame(d, op, s)
  {
    match e
    case DoCommit(leased, _) => CommitTame(d, op, writer, leased);
    case DoRollback(_, _) => RollbackTame(d, op, writer);
    case DoQuarantine(_, _) =>
    case DoFinalize(_) =>
  }

  /** No call of any operation, crashed or not, changes a live file unless the
      file held one of the operation's own journaled values and ends with one. */
  lemma {:induction false} OverwritesOnlyOwn(d: Disk, op: OpId, writer: bool, e: Event, p: string)
    requires p in d.live
    ensures var live := Effect(d, op, writer, e).live;
            p in live && (live[p] == d.live[p] || (Own(d, op, p, d.live[p]) && Own(d, op, p, live[p])))
  {
    var steps := PlanOf(d, op, writer, e).steps;
    RunLive(d, Cut(steps, e.cut), p);
    var live := Effect(d, op, writer, e).live;
    if p !in live || live[p] != d.live[p] {
      assert Publish(p, live[p]) in steps;
      PlanTame(d, op, writer, e);
    }
  }

  /** An operation that never saw `bytes` in file `p`. */
  ghost predicate Blind(d: Disk, op: OpId, p: string, bytes: Bytes) {
    op in d.journals && Complete(d, op, d.journals[op].targets) ==>
      var slots := Slots(d, op, d.journals[op].targets);
      forall n :: 0 <= n < |slots| && slots[n].path == p ==> slots[n].before != bytes && slots[n].after != bytes
  }

  lemma {:induction false} BlindStays(d: Disk, op: OpId, writer: bool, e: Event, other: OpId, p: string, bytes: Bytes)
    requires Blind(d, other, p, bytes)
    ensures Blind(Effect(d, op, writer, e), other, p, bytes)
  {
    var steps := PlanOf(d, op, writer, e).steps;
    var d' := Effect(d, op, writer, e);
    PlanTame(d, op, writer, e);
    assert forall s :: s in Cut(steps, e.cut) ==> s in steps;
    RunRest(d, op, Cut(steps, e.cut), other);
    if other in d'.journals && Complete(d', other, d'.journals[other].targets) {
      CompleteBefore(d, d', other, d'.journals[other].targets);
    }
  }

  lemma {:induction false} CompleteBefore(d: Disk, d': Disk, op: OpId, targets: seq<Target>)
    requires d'.saved.Keys <= d.saved.Keys && forall s :: s in d'.saved ==> d'.saved[s] == d.saved[s]
    requires Complete(d', op, targets)
    ensures Complete(d, op, targets) && Slots(d, op, targets) == Slots(d', op, targets)
  {
  }

  /** A call of a handler of one of many operations. */
  datatype Call = Call(op: OpId, event: Event)

  function AfterCalls(d: Disk, writer: bool, calls: seq<Call>): Disk {
    if calls == [] then d
    else
      var last := calls[|calls| - 1];
      Effect(AfterCalls(d, writer, calls[..|calls| - 1]), last.op, writer, last.event)
  }

  /** No run of calls, however interleaved and wherever each of them stops, takes
      a file away from bytes that none of its operations has journaled. */
  lemma {:induction false} UnseenBytesSurvive(d: Disk, writer: bool, calls: seq<Call>, p: string)
    requires p in d.live && forall c :: c in calls ==> Blind(d, c.op, p, d.live[p])
    ensures var d' := AfterCalls(d, writer, calls); p in d'.live && d'.live[p] == d.live[p]
  {
    if calls != [] {
      var front, last := calls[..|calls| - 1], calls[|calls| - 1];
      UnseenBytesSurvive(d, writer, front, p);
      assert last in calls;
      BlindAfterCalls(d, writer, front, last.op, p, d.live[p]);
      OverwritesOnlyOwn(AfterCalls(d, writer, front), last.op, writer, last.event, p);
    }
  }

  lemma {:induction false} BlindAfterCalls(d: Disk, writer: bool, calls: seq<Call>, other: OpId, p: string,
                                           bytes: Bytes)
    requires Blind(d, other, p, bytes)
    ensures Blind(AfterCalls(d, writer, calls), other, p, bytes)
  {
    if calls != [] {
      var front, last := calls[..|calls| - 1], calls[|calls| - 1];
      BlindAfterCalls(d, writer, front, other, p, bytes);
      BlindStays(AfterCalls(d, writer, front), last.op, writer, last.event, other, p, bytes);
    }
  }

  /** The slot of `op` for the manifest of `source`, if it has one, starts from
      `base` and publishes under another identity than `id`. */
  ghost predicate Rival(d: Disk, op: OpId, path: string, base: Bytes, id: string) {
    op in d.journals && Complete(d, op, d.journals[op].targets) ==>
      var slots := Slots(d, op, d.journals[op].targets);
      forall n :: 0 <= n < |slots| && slots[n].path == path ==>
        slots[n].before == base && slots[n].after.ManifestBytes? && slots[n].after.manifest.publicationId != id
  }

  /** First committer wins: once an operation has committed its manifest over
      `base`, no run of rivals that were prepared on `base` under other
      identities ever changes that manifest, even when their workflow and graph
      coincide with the winner's. */
  lemma {:induction false} FirstCommitterWins(d: Disk, writer: bool, calls: seq<Call>, path: string, base: Bytes,
                                              winner: Bytes)
    requires path in d.live && d.live[path] == winner && winner.ManifestBytes? && winner != base
    requires forall c :: c in calls ==> Rival(d, c.op, path, base, winner.manifest.publicationId)
    ensures var d' := AfterCalls(d, writer, calls); path in d'.live && d'.live[path] == winner
  {
    forall c | c in calls ensures Blind(d, c.op, path, winner) {
    }
    UnseenBytesSurvive(d, writer, calls, path);
  }
}
