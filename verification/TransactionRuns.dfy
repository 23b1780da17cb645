/** What each handler leaves behind when it is cut short: the exact disk after
    any number of its steps. */
module TransactionRuns {
  import opened SourcePaths
  import opened Publications
  import opened Transaction

  // ----- the states a single call passes through -----

  ghost predicate TouchesWeights(s: Step) { s.Move? || s.Unlink? }

  lemma {:induction false} WeightSteps(d: Disk, e: Disk, steps: seq<Step>)
    requires d.weights == e.weights && forall s :: s in steps ==> TouchesWeights(s)
    ensures Run(d, steps) == d.(weights := Run(e, steps).weights)
  {
    if steps != [] {
      WeightSteps(d, e, steps[..|steps| - 1]);
      assert steps[|steps| - 1] in steps;
    }
  }

  function Clamp(x: int, limit: nat): nat {
    if x < 0 then 0 else if x > limit then limit else x
  }

  /** Weight steps followed by one journal write. */
  lemma {:induction false} RecordLast(n: Disk, m: Disk, body: seq<Step>, op: OpId, j: Journal, i: nat)
    requires n.weights == m.weights && forall s :: s in body ==> TouchesWeights(s)
    ensures Run(n, Cut(body + [Record(op, j)], i))
            == n.(weights := Run(m, Cut(body, i)).weights,
                  journals := if i <= |body| then n.journals else n.journals[op := j])
  {
    var z := [Record(op, j)];
    CutConcat(n, body, z, i);
    WeightSteps(n, m, Cut(body, i));
    if i > |body| {
      assert Cut(z, i - |body|) == z && Cut(body, i) == body;
      RunOne(Run(n, body), z[0]);
    }
  }

  /** Cutting a plan that publishes between two other groups of steps. */
  lemma {:induction false} CutAround(d: Disk, a: seq<Step>, slots: seq<Slot>, g: Generation, b: seq<Step>, k: nat)
    requires Run(d, a).live == d.live && Paths(slots, d.live)
    ensures var m := Run(d, a);
            var n := Run(m, Publishes(slots, g));
            var d' := Run(d, Cut(a + Publishes(slots, g) + b, k));
            && (k <= |a| ==> d' == Run(d, Cut(a, k)))
            && (|a| <= k <= |a| + |slots| ==> d' == m.(live := d'.live) && Written(d.live, d'.live, slots, g, k - |a|))
            && (|a| + |slots| <= k ==> d' == Run(n, Cut(b, k - |a| - |slots|)))
            && n == m.(live := n.live) && Written(d.live, n.live, slots, g, |slots|)
  {
    var p := Publishes(slots, g);
    var m := Run(d, a);
    CutConcat(d, a + p, b, k);
    CutConcat(d, a, p, k);
    RunConcat(d, a, p);
    CutPublishes(m, slots, g, |slots|);
    assert Cut(p, |slots|) == p;
    if |a| <= k <= |a| + |slots| {
      CutPublishes(m, slots, g, k - |a|);
      assert Cut(a, |a|) == a && Cut(p, 0) == [];
    }
    if |a| + |slots| <= k {
      assert Cut(a + p, |a + p|) == a + p && Cut(b, 0) == [];
    }
  }

  /** A commit that gets through `k` steps has placed the weight before it
      recorded its intention, and recorded it before it wrote a file. */
  lemma {:induction false} CommitCut(d: Disk, op: OpId, placing: seq<Step>, slots: seq<Slot>, k: nat)
    requires op in d.journals && Paths(slots, d.live) && forall s :: s in placing ==> TouchesWeights(s)
    ensures var j := d.journals[op];
            var steps := CommitSteps(op, j, placing, slots);
            var d' := Run(d, Cut(steps, k));
            && d'.saved == d.saved
            && d'.weights == Run(d, Cut(placing, k)).weights
            && Written(d.live, d'.live, slots, After, Clamp(k - |placing| - 1, |slots|))
            && d'.journals == (if k <= |placing| then d.journals
                               else d.journals[op := j.(phase := if k < |steps| then Committing else Committed)])
  {
    hide Written, Publishes, Run, Paths;
    var j := d.journals[op];
    var a, z := placing + [Record(op, j.(phase := Committing))], [Record(op, j.(phase := Committed))];
    Announce(d, placing, op, j.(phase := Committing), k);
    CutAround(d, a, slots, After, z, k);
    if k > |a| + |slots| {
      assert Cut(z, k - |a| - |slots|) == z;
      RunOne(Run(Run(d, a), Publishes(slots, After)), z[0]);
    } else if k < |a| {
      NothingWritten(d.live, slots, After);
    }
  }

  lemma {:induction false} Announce(d: Disk, placing: seq<Step>, op: OpId, j: Journal, k: nat)
    requires forall s :: s in placing ==> TouchesWeights(s)
    ensures var a := placing + [Record(op, j)];
            && (k <= |placing| ==> Run(d, Cut(a, k)) == d.(weights := Run(d, Cut(placing, k)).weights))
            && (k > |placing| ==> Run(d, Cut(a, k)) == Run(d, a) && Cut(placing, k) == placing)
            && Run(d, a) == d.(weights := Run(d, placing).weights, journals := d.journals[op := j])
  {
    var a := placing + [Record(op, j)];
    RecordLast(d, d, placing, op, j, k);
    RecordLast(d, d, placing, op, j, |a|);
    assert Cut(a, |a|) == a && Cut(placing, |a|) == placing;
  }

  /** A rollback that gets through `k` steps has brought the weight back before
      it wrote a file, and drops a weight only after it restored every file. */
  lemma {:induction false} RollbackCut(d: Disk, op: OpId, returning: seq<Step>, slots: seq<Slot>, dropping: seq<Step>,
                                       k: nat)
    requires op in d.journals && Paths(slots, d.live)
    requires (forall s :: s in returning ==> TouchesWeights(s)) && (forall s :: s in dropping ==> TouchesWeights(s))
    ensures var j := d.journals[op];
            var steps := RollbackSteps(op, j, returning, slots, dropping);
            var d' := Run(d, Cut(steps, k));
            && d'.saved == d.saved
            && d'.weights == RollbackWeights(d, returning, |slots|, dropping, k)
            && Written(d.live, d'.live, slots, Before, Clamp(k - |returning|, |slots|))
            && d'.journals == (if k < |steps| then d.journals else d.journals[op := j.(phase := RolledBack)])
  {
    hide Written, Publishes, Apply, Run, Paths;
    var j := d.journals[op].(phase := RolledBack);
    WeightSteps(d, d, returning);
    WeightSteps(d, d, Cut(returning, k));
    CutAround(d, returning, slots, Before, dropping + [Record(op, j)], k);
    if k > |returning| + |slots| {
      var m := Run(d, returning);
      RecordLast(Run(m, Publishes(slots, Before)), m, dropping, op, j, k - |returning| - |slots|);
    } else if k >= |returning| {
      assert Cut(returning, k) == returning;
    } else {
      NothingWritten(d.live, slots, Before);
    }
  }

  lemma {:induction false} NothingWritten(live: map<string, Bytes>, slots: seq<Slot>, g: Generation)
    requires Paths(slots, live)
    ensures Written(live, live, slots, g, 0)
  {
  }

  function RollbackWeights(d: Disk, returning: seq<Step>, published: nat, dropping: seq<Step>, k: nat): map<Place,
                           string> {
    if k <= |returning| + published then Run(d, Cut(returning, k)).weights
    else Run(Run(d, returning), Cut(dropping, k - |returning| - published)).weights
  }

  lemma {:induction false} QuarantineCut(d: Disk, op: OpId, moving: seq<Step>, k: nat)
    requires op in d.journals && forall s :: s in moving ==> TouchesWeights(s)
    ensures var j := d.journals[op];
            var d' := Run(d, Cut(moving + [Record(op, j.(phase := Quarantined))], k));
            && d'.saved == d.saved && d'.live == d.live
            && d'.weights == Run(d, Cut(moving, k)).weights
            && d'.journals == (if k <= |moving| then d.journals else d.journals[op := j.(phase := Quarantined)])
  {
    RecordLast(d, d, moving, op, d.journals[op].(phase := Quarantined), k);
  }

  lemma {:induction false} DiscardSteps(d: Disk, op: OpId, steps: seq<Step>)
    requires forall s :: s in steps ==> s.Discard? && s.saved.op == op
    ensures var d' := Run(d, steps);
            d' == d.(saved := d'.saved)
            && forall s: Saved :: s.op != op ==>
                 (s in d'.saved <==> s in d.saved) && (s in d.saved ==> d'.saved[s] == d.saved[s])
  {
    if steps != [] {
      DiscardSteps(d, op, steps[..|steps| - 1]);
      assert steps[|steps| - 1] in steps;
    }
  }

  /** Finalizing forgets the journaled bytes only after saying so. */
  lemma {:induction false} FinalizeCut(d: Disk, op: OpId, unlinking: seq<Step>, k: nat)
    requires op in d.journals && forall s :: s in unlinking ==> TouchesWeights(s)
    ensures var j := d.journals[op];
            var d' := Run(d, Cut(unlinking + [Record(op, j.(phase := Finalized))] + Discards(op, j.targets), k));
            && d'.live == d.live
            && d'.weights == Run(d, Cut(unlinking, k)).weights
            && (k <= |unlinking| ==> d'.saved == d.saved && d'.journals == d.journals)
            && (k > |unlinking| ==> d'.journals == d.journals[op := j.(phase := Finalized)])
            && forall s: Saved :: s.op != op ==>
                 (s in d'.saved <==> s in d.saved) && (s in d.saved ==> d'.saved[s] == d.saved[s])
  {
    var j := d.journals[op];
    var z, b := [Record(op, j.(phase := Finalized))], Discards(op, j.targets);
    CutConcat(d, unlinking + z, b, k);
    RecordLast(d, d, unlinking, op, j.(phase := Finalized), k);
    RecordLast(d, d, unlinking, op, j.(phase := Finalized), |unlinking + z|);
    if |unlinking + z| < k {
      assert Cut(unlinking + z, |unlinking + z|) == unlinking + z
             && Cut(unlinking, k) == unlinking == Cut(unlinking, |unlinking + z|);
      DiscardSteps(Run(d, unlinking + z), op, Cut(b, k - |unlinking + z|));
    }
  }
}
