/** Save & Publish leases and their exclusion with LoRA operations.  A lease is a
    file; whether it has expired matters only to whoever looks at it, and looking
    at an expired one removes it. */
module Leases {
  import opened SourcePaths
  import opened Publications
  import opened Transaction
  import opened FirstCommitter

  datatype Lease = Lease(token: string, expires: int)

  const LEASE_SECONDS := 600

  /** An operation that has been prepared and not given up or finished. */
  predicate Underway(p: Phase) { !p.RolledBack? && !p.Finalized? }

  predicate Claims(j: Journal, source: string) {
    Underway(j.phase) && exists t :: t in j.targets && t.source == source
  }

  predicate Claimed(journals: map<OpId, Journal>, source: string) {
    exists op :: op in journals && Claims(journals[op], source)
  }

  // ----- what the lease operations do -----

  predicate Held(files: map<string, Lease>, source: string, now: int) {
    source in files && files[source].expires > now
  }

  /** Looking at a lease removes it when it has expired. */
  function Looked(files: map<string, Lease>, source: string, now: int): map<string, Lease> {
    if Held(files, source, now) then files else files - {source}
  }

  /** Looking at one lease after the other until one is held. */
  function LookedAt(files: map<string, Lease>, sources: seq<string>, now: int): map<string, Lease> {
    if sources == [] || Held(files, sources[0], now) then files
    else LookedAt(Looked(files, sources[0], now), sources[1..], now)
  }

  predicate AnyHeld(files: map<string, Lease>, sources: seq<string>, now: int) {
    exists s :: s in sources && Held(files, s, now)
  }

  class PublisherLocks {
    var files: map<string, Lease>

    constructor ()
      ensures files == map[]
    {
      files := map[];
    }

    method Locked(source: string, now: int) returns (held: bool)
      modifies this
      ensures held == Held(old(files), source, now) && files == Looked(old(files), source, now)
    {
      if source !in files { assert files - {source} == files; return false; }
      if files[source].expires > now { return true; }
      files := files - {source};
      return false;
    }

    /** The check with which prepare and commit begin.  When it passes, none of
        the sources has a lease file any more, expired or not. */
    method AnyLocked(sources: seq<string>, now: int) returns (held: bool)
      modifies this
      ensures held == AnyHeld(old(files), sources, now) && files == LookedAt(old(files), sources, now)
      ensures forall op, d, d' :: Acted(State(old(files), d), Act.Prepare(op, sources, now, d')) == State(files, d')
      ensures !held ==> forall s :: s in sources ==> s !in files
      ensures forall s :: s in files ==> s in old(files) && files[s] == old(files)[s]
    {
      var i := 0;
      while i < |sources|
        invariant 0 <= i <= |sources|
        invariant LookedAt(old(files), sources, now) == LookedAt(files, sources[i..], now)
        invariant forall s :: s in files ==> s in old(files) && files[s] == old(files)[s]
        invariant forall s :: Held(old(files), s, now) ==> Held(files, s, now)
        invariant forall k :: 0 <= k < i ==> sources[k] !in files
      {
        var locked := Locked(sources[i], now);
        if locked {
          assert sources[i] in sources && Held(old(files), sources[i], now);
          return true;
        }
        assert sources[i..][1..] == sources[i + 1..];
        i := i + 1;
      }
      return false;
    }

    method Acquire(source: string, token: string, now: int, journals: map<OpId, Journal>) returns (granted: bool)
      modifies this
      ensures granted <==> !Held(old(files), source, now) && !Claimed(journals, source)
      ensures files == var looked := Looked(old(files), source, now);
                       if granted then looked[source := Lease(token, now + LEASE_SECONDS)] else looked
      ensures granted ==> forall t :: Held(files, source, t) <==> t < now + 600
      ensures forall d: Disk :: d.journals == journals ==>
                Acted(State(old(files), d), Act.Acquire(source, token, now)) == State(files, d)
    {
      var locked := Locked(source, now);
      if locked || Claimed(journals, source) { return false; }
      files := files[source := Lease(token, now + LEASE_SECONDS)];
      return true;
    }

    /** A lease may be renewed even after it has expired, as long as nobody has
        looked at it since. */
    method Renew(source: string, token: string, now: int) returns (renewed: bool)
      modifies this
      ensures renewed <==> source in old(files) && old(files)[source].token == token
      ensures files == if renewed then old(files)[source := Lease(token, now + LEASE_SECONDS)] else old(files)
      ensures renewed ==> forall t :: Held(files, source, t) <==> t < now + 600
      ensures forall d :: Acted(State(old(files), d), Act.Renew(source, token, now)) == State(files, d)
    {
      if source !in files || files[source].token != token { return false; }
      files := files[source := Lease(token, now + LEASE_SECONDS)];
      return true;
    }

    method Release(source: string, token: string) returns (released: bool)
      modifies this
      ensures released <==> source !in old(files) || old(files)[source].token == token
      ensures files == if released then old(files) - {source} else old(files)
      ensures forall d :: Acted(State(old(files), d), Act.Release(source, token)) == State(files, d)
    {
      if source !in files { assert files - {source} == files; return true; }
      if files[source].token != token { return false; }
      files := files - {source};
      return true;
    }
  }

  // ----- every run of the whole system -----

  datatype State = State(files: map<string, Lease>, disk: Disk)

  datatype Act =
    | Acquire(source: string, token: string, now: int)
    | Renew(source: string, token: string, now: int)
    | Release(source: string, token: string)
    | Prepare(op: OpId, sources: seq<string>, now: int, after: Disk)
    | Handle(op: OpId, writer: bool, event: Event, now: int)

  function Sources(targets: seq<Target>): seq<string> {
    seq(|targets|, i requires 0 <= i < |targets| => targets[i].source)
  }

  /** A prepare that is not refused ends, or stops, in a disk that differs at
      most by a prepared journal of its own operation for the checked sources. */
  ghost predicate Prepares(d: Disk, d': Disk, op: OpId, sources: seq<string>) {
    && (forall o :: o != op ==>
         (o in d'.journals <==> o in d.journals) && (o in d.journals ==> d'.journals[o] == d.journals[o]))
    && (op in d'.journals ==>
          (op in d.journals && d'.journals[op] == d.journals[op])
          || (d'.journals[op].phase.Prepared? && Sources(d'.journals[op].targets) == sources))
  }

  ghost predicate Possible(s: State, a: Act) {
    a.Prepare? ==>
      if AnyHeld(s.files, a.sources, a.now) then a.after == s.disk else Prepares(s.disk, a.after, a.op, a.sources)
  }

  function Acted(s: State, a: Act): State {
    match a
    case Acquire(source, token, now) =>
      var looked := Looked(s.files, source, now);
      State(if Held(s.files, source, now) || Claimed(s.disk.journals, source) then looked
            else looked[source := Lease(token, now + LEASE_SECONDS)], s.disk)
    case Renew(source, token, now) =>
      if source in s.files && s.files[source].token == token then
        s.(files := s.files[source := Lease(token, now + LEASE_SECONDS)])
      else s
    case Release(source, token) =>
      if source in s.files && s.files[source].token == token then s.(files := s.files - {source}) else s
    case Prepare(op, sources, now, after) => State(LookedAt(s.files, sources, now), after)
    case Handle(op, writer, event, now) =>
      if event.DoCommit? && op in s.disk.journals && (s.disk.journals[op].phase.Prepared?
        || s.disk.journals[op].phase.Committing?) then
        var sources := Sources(s.disk.journals[op].targets);
        State(LookedAt(s.files, sources, now),
              Effect(s.disk, op, writer, DoCommit(AnyHeld(s.files, sources, now), event.cut)))
      else s.(disk := Effect(s.disk, op, writer, event))
  }

  function Acts(s: State, run: seq<Act>): State {
    if run == [] then s else Acted(Acts(s, run[..|run| - 1]), run[|run| - 1])
  }

  ghost predicate AllPossible(s: State, run: seq<Act>) {
    run == [] || (AllPossible(s, run[..|run| - 1]) && Possible(Acts(s, run[..|run| - 1]), run[|run| - 1]))
  }

  /** No publication has a lease file and an operation underway. */
  ghost predicate Exclusive(s: State) {
    forall op, t :: op in s.disk.journals && Underway(s.disk.journals[op].phase) && t in s.disk.journals[op].targets ==>
      t.source !in s.files
  }

  lemma {:induction false} LookedAtIsPart(files: map<string, Lease>, sources: seq<string>, now: int)
    ensures var looked := LookedAt(files, sources, now);
            && looked.Keys <= files.Keys
            && (!AnyHeld(files, sources, now) ==> forall s :: s in sources ==> s !in looked)
  {
    if sources != [] && !Held(files, sources[0], now) {
      LookedAtIsPart(Looked(files, sources[0], now), sources[1..], now);
      if !AnyHeld(files, sources, now) {
        forall s | s in sources[1..] ensures !Held(Looked(files, sources[0], now), s, now) {
          assert s in sources;
        }
      }
    }
  }

  /** A handler changes only the phase of its own journal, and never wakes up an
      operation that was given up or finished. */
  lemma {:induction false} HandlerClaimsNothing(d: Disk, op: OpId, writer: bool, e: Event, o: OpId)
    requires o in Effect(d, op, writer, e).journals && Underway(Effect(d, op, writer, e).journals[o].phase)
    ensures o in d.journals && Underway(d.journals[o].phase)
    ensures Effect(d, op, writer, e).journals[o].targets == d.journals[o].targets
  {
    hide CommitPlan, RollbackPlan, QuarantinePlan, FinalizePlan, Run, Cut, Tame;
    var steps := PlanOf(d, op, writer, e).steps;
    PlanTame(d, op, writer, e);
    CutSubset(steps, e.cut);
    RunRest(d, op, Cut(steps, e.cut), o);
    if op in d.journals && !Underway(d.journals[op].phase) { OverIsOver(d, op, writer, e); }
  }

  lemma {:induction false} CutSubset(steps: seq<Step>, k: nat)
    ensures forall s :: s in Cut(steps, k) ==> s in steps
  {
  }

  lemma {:induction false} OverIsOver(d: Disk, op: OpId, writer: bool, e: Event)
    requires op in d.journals && !Underway(d.journals[op].phase)
    ensures Effect(d, op, writer, e) == d
  {
    hide Complete, Slots, Known, CommitSteps, RollbackSteps, Discards;
  }

  lemma {:induction false} ActKeepsExclusion(s: State, a: Act)
    requires Exclusive(s) && Possible(s, a)
    ensures Exclusive(Acted(s, a))
  {
    match a
    case Acquire(source, token, now) =>
    case Renew(source, token, now) =>
    case Release(source, token) =>
    case Prepare(op, sources, now, after) => PrepareKeepsExclusion(s, a);
    case Handle(op, writer, event, now) => HandleKeepsExclusion(s, a);
  }

  lemma {:induction false} PrepareKeepsExclusion(s: State, a: Act)
    requires a.Prepare? && Exclusive(s) && Possible(s, a)
    ensures Exclusive(Acted(s, a))
  {
    LookedAtIsPart(s.files, a.sources, a.now);
    var s' := Acted(s, a);
    forall o, t | o in s'.disk.journals && Underway(s'.disk.journals[o].phase) && t in s'.disk.journals[o].targets
      ensures t.source !in s'.files
    {
      var targets := s'.disk.journals[o].targets;
      var i :| 0 <= i < |targets| && targets[i] == t;
      assert Sources(targets)[i] == t.source;
    }
  }

  lemma {:induction false} HandleKeepsExclusion(s: State, a: Act)
    requires a.Handle? && Exclusive(s)
    ensures Exclusive(Acted(s, a))
  {
    hide Effect, LookedAt;
    var s' := Acted(s, a);
    var commits := a.event.DoCommit? && a.op in s.disk.journals
                   && (s.disk.journals[a.op].phase.Prepared? || s.disk.journals[a.op].phase.Committing?);
    var sources := if commits then Sources(s.disk.journals[a.op].targets) else [];
    var e := if commits then DoCommit(AnyHeld(s.files, sources, a.now), a.event.cut) else a.event;
    LookedAtIsPart(s.files, sources, a.now);
    assert s'.disk == Effect(s.disk, a.op, a.writer, e) && s'.files.Keys <= s.files.Keys;
    forall o, t | o in s'.disk.journals && Underway(s'.disk.journals[o].phase) && t in s'.disk.journals[o].targets
      ensures t.source !in s'.files
    {
      HandlerClaimsNothing(s.disk, a.op, a.writer, e, o);
    }
  }

  /** In every run, with any clock whatever, no publication ever has both a lease
      and an operation underway. */
  lemma {:induction false} LeasesExclude(s: State, run: seq<Act>)
    requires Exclusive(s) && AllPossible(s, run)
    ensures Exclusive(Acts(s, run))
  {
    if run != [] {
      LeasesExclude(s, run[..|run| - 1]);
      ActKeepsExclusion(Acts(s, run[..|run| - 1]), run[|run| - 1]);
    }
  }

  /** So a commit of a prepared operation is never held up by a lease. */
  lemma {:induction false} CommitIsNeverLeased(s: State, run: seq<Act>, op: OpId, now: int)
    requires Exclusive(s) && AllPossible(s, run)
    requires var d := Acts(s, run).disk; op in d.journals && Underway(d.journals[op].phase)
    ensures !AnyHeld(Acts(s, run).files, Sources(Acts(s, run).disk.journals[op].targets), now)
  {
    LeasesExclude(s, run);
  }
}
