/** Multi-source guards: any number of operations take arbitrary sets of locks
    one by one, and sorted acquisition keeps some operation able to proceed. */
module Guards {

  // ----- the order of source names -----

  /** Code-point order of strings. */
  predicate Less(a: string, b: string) {
    if b == "" then false
    else if a == "" then true
    else a[0] < b[0] || (a[0] == b[0] && Less(a[1..], b[1..]))
  }

  lemma {:induction false} LessIsTotal(a: string, b: string)
    ensures Less(a, b) || a == b || Less(b, a)
    ensures !(Less(a, b) && Less(b, a)) && !(Less(a, b) && a == b)
  {
    if a != "" && b != "" {
      LessIsTotal(a[1..], b[1..]);
      assert a == [a[0]] + a[1..] && b == [b[0]] + b[1..];
    }
  }

  lemma {:induction false} LessIsTransitive(a: string, b: string, c: string)
    requires Less(a, b) && Less(b, c)
    ensures Less(a, c)
  {
    if a != "" && a[0] == b[0] == c[0] { LessIsTransitive(a[1..], b[1..], c[1..]); }
  }

  ghost predicate Increasing(s: seq<string>) {
    forall i, j :: 0 <= i < j < |s| ==> Less(s[i], s[j])
  }

  /** A name inserted into an increasing list, unless it is there already. */
  function Insert(x: string, s: seq<string>): seq<string> {
    if s == [] then [x]
    else if Less(x, s[0]) then [x] + s
    else if x == s[0] then s
    else [s[0]] + Insert(x, s[1..])
  }

  /** The distinct names in order. */
  function Sorted(sources: seq<string>): seq<string> {
    if sources == [] then [] else Insert(sources[0], Sorted(sources[1..]))
  }

  lemma {:induction false} InsertKeepsOrder(x: string, s: seq<string>)
    requires Increasing(s)
    ensures Increasing(Insert(x, s))
    ensures forall y :: y in Insert(x, s) <==> y == x || y in s
  {
    if s == [] {
    } else {
      assert s == [s[0]] + s[1..];
      LessIsTotal(x, s[0]);
      if Less(x, s[0]) {
        forall j | 0 <= j < |s| ensures Less(x, s[j]) {
          if j > 0 { LessIsTransitive(x, s[0], s[j]); }
        }
      } else if x != s[0] {
        InsertKeepsOrder(x, s[1..]);
        var rest := Insert(x, s[1..]);
        forall j | 0 <= j < |rest| ensures Less(s[0], rest[j]) {
          assert rest[j] in rest;
        }
      }
    }
  }

  lemma {:induction false} SortedIsIncreasing(sources: seq<string>)
    ensures Increasing(Sorted(sources))
    ensures forall x :: x in Sorted(sources) <==> x in sources
  {
    if sources != [] {
      SortedIsIncreasing(sources[1..]);
      InsertKeepsOrder(sources[0], Sorted(sources[1..]));
    }
  }

  // ----- operations that take locks -----

  /** An operation holds the first `taken` of its locks. */
  datatype Operation = Operation(locks: seq<string>, taken: nat) | Finished {
    predicate Holds(lock: string) { Operation? && taken <= |locks| && lock in locks[..taken] }

    predicate Waits() { Operation? && taken < |locks| }
  }

  /** An operation may start, take its next lock if it is free, or finish and
      give back all its locks. */
  datatype Move = Start(sources: seq<string>) | Take(i: nat) | Finish(i: nat)

  predicate Free(s: seq<Operation>, lock: string) {
    forall k :: 0 <= k < |s| ==> !s[k].Holds(lock)
  }

  predicate Enabled(s: seq<Operation>, m: Move) {
    match m
    case Start(_) => true
    case Take(i) => i < |s| && s[i].Waits() && Free(s, s[i].locks[s[i].taken])
    case Finish(i) => i < |s| && s[i].Operation? && s[i].taken == |s[i].locks|
  }

  function After(s: seq<Operation>, m: Move): seq<Operation>
    requires Enabled(s, m)
  {
    match m
    case Start(sources) => s + [Operation(Sorted(sources), 0)]
    case Take(i) => s[i := s[i].(taken := s[i].taken + 1)]
    case Finish(i) => s[i := Finished]
  }

  /** Nobody takes more than it asked for, in order, and no lock is held twice. */
  ghost predicate Orderly(s: seq<Operation>) {
    && (forall i :: 0 <= i < |s| && s[i].Operation? ==> s[i].taken <= |s[i].locks| && Increasing(s[i].locks))
    && (forall i, j, lock :: 0 <= i < j < |s| ==> !(s[i].Holds(lock) && s[j].Holds(lock)))
  }

  /** The state after an interleaving; a move that is not enabled waits in vain. */
  function Reached(run: seq<Move>): seq<Operation> {
    if run == [] then []
    else
      var before, last := Reached(run[..|run| - 1]), run[|run| - 1];
      if Enabled(before, last) then After(before, last) else before
  }

  lemma {:induction false} ReachedIsOrderly(run: seq<Move>)
    ensures Orderly(Reached(run))
  {
    if run != [] {
      var before, last := Reached(run[..|run| - 1]), run[|run| - 1];
      ReachedIsOrderly(run[..|run| - 1]);
      if Enabled(before, last) {
        match last
        case Start(sources) => SortedIsIncreasing(sources);
        case Take(i) => TakeIsOrderly(before, i);
        case Finish(i) =>
      }
    }
  }

  lemma {:induction false} TakeIsOrderly(s: seq<Operation>, i: nat)
    requires Orderly(s) && Enabled(s, Take(i))
    ensures Orderly(After(s, Take(i)))
  {
    var s' := After(s, Take(i));
    var wanted := s[i].locks[s[i].taken];
    assert s'[i].locks[..s'[i].taken] == s[i].locks[..s[i].taken] + [wanted];
    forall k, lock | 0 <= k < |s| && k != i ensures !(s'[k].Holds(lock) && s'[i].Holds(lock)) {
      if lock == wanted { assert !s[k].Holds(lock); }
    }
  }

  /** The operations that wait for a later lock than `lock`. */
  function WaitingBeyond(s: seq<Operation>, lock: string): set<nat> {
    set k: nat | k < |s| && s[k].Waits() && Less(lock, s[k].locks[s[k].taken])
  }

  /** Whoever an operation waits for is either done with taking locks or waits
      for a later lock, so the chain of waiting ends. */
  lemma {:induction false} SomeoneProceeds(s: seq<Operation>, i: nat) returns (m: Move)
    requires Orderly(s) && i < |s| && s[i].Operation?
    ensures Enabled(s, m) && !m.Start?
    decreases if s[i].Waits() then |WaitingBeyond(s, s[i].locks[s[i].taken])| + 1 else 0
  {
    if !s[i].Waits() { return Finish(i); }
    var wanted := s[i].locks[s[i].taken];
    if Free(s, wanted) { return Take(i); }
    var k :| 0 <= k < |s| && s[k].Holds(wanted);
    if s[k].Waits() {
      var next := s[k].locks[s[k].taken];
      assert Less(wanted, next);
      forall j | j in WaitingBeyond(s, next) ensures j in WaitingBeyond(s, wanted) {
        LessIsTransitive(wanted, next, s[j].locks[s[j].taken]);
      }
      LessIsTotal(next, next);
      assert k in WaitingBeyond(s, wanted) && k !in WaitingBeyond(s, next);
      Smaller(WaitingBeyond(s, next), WaitingBeyond(s, wanted), k);
    }
    m := SomeoneProceeds(s, k);
  }

  lemma {:induction false} Smaller(a: set<nat>, b: set<nat>, x: nat)
    requires a <= b && x in b && x !in a
    ensures |a| < |b|
  {
    assert a <= b - {x};
    Subset(a, b - {x});
  }

  lemma {:induction false} Subset(a: set<nat>, b: set<nat>)
    requires a <= b
    ensures |a| <= |b|
  {
    if a != {} {
      var x :| x in a;
      Subset(a - {x}, b - {x});
    }
  }

  /** No interleaving of any operations ever ends in a deadlock: as long as one
      of them is unfinished, one of them can take its next lock or finish. */
  lemma {:induction false} NoDeadlock(run: seq<Move>)
    requires var s := Reached(run); exists i :: 0 <= i < |s| && s[i].Operation?
    ensures exists m :: Enabled(Reached(run), m) && !m.Start?
  {
    var s := Reached(run);
    ReachedIsOrderly(run);
    var i :| 0 <= i < |s| && s[i].Operation?;
    var m := SomeoneProceeds(s, i);
  }

  /** The order is what prevents it: two operations that take two locks in
      opposite orders, one lock each, are stuck although no lock is held twice. */
  lemma {:induction false} UnorderedCanDeadlock(a: string, b: string)
    requires a != b
    ensures var s := [Operation([a, b], 1), Operation([b, a], 1)];
            (forall lock :: !(s[0].Holds(lock) && s[1].Holds(lock))) && forall m :: Enabled(s, m) ==> m.Start?
  {
    var s := [Operation([a, b], 1), Operation([b, a], 1)];
    assert [a, b][..1] == [a] && [b, a][..1] == [b];
    assert s[0].Holds(a) && s[1].Holds(b);
  }
}
