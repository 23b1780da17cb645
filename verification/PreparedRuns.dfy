/** Prepare and the runs that follow it: every disk in which a prepare can stop
    is one that the theorems about runs start from, and in runs that interleave
    prepares with all other calls no committed publication is lost. */
module PreparedRuns {
  import opened SourcePaths
  import opened Publications
  import opened Transaction
  import opened CrashAtomicity
  import opened WeightSafety
  import opened FirstCommitter
  import opened Preparation
  import opened LoraManagement
  import Leases

  // ----- wherever prepare stops -----

  function Asked(targets: seq<Requested>): seq<string> {
    seq(|targets|, i requires 0 <= i < |targets| => targets[i].source)
  }

  /** A prepare does, wherever it stops, what the exclusion of leases assumes. */
  lemma {:induction false} PrepareIsExclusive(d: Disk, d': Disk, op: OpId, request: Request, targets: seq<Requested>)
    requires if AlreadyPrepared(d, op) then d' == d else PrepareStop(d, d', op, request, targets)
    ensures Leases.Prepares(d, d', op, Asked(targets))
  {
    hide Complete, Faithful, Ready, Succeeds, Unweighed, Weighed, Slots;
    if !AlreadyPrepared(d, op) && AlreadyPrepared(d', op) {
      assert Leases.Sources(d'.journals[op].targets) == Asked(targets);
    }
  }

  /** As soon as an operation is recorded as prepared, whether prepare answered
      or not, every run of its handlers is atomic, and on the writer instance
      every prudent one is safe. */
  lemma {:induction false} PreparedRunsAreSafe(d: Disk, d': Disk, op: OpId, request: Request, targets: seq<Requested>,
                                               writer: bool,
                                               run: seq<Happening>)
    requires !AlreadyPrepared(d, op) && AlreadyPrepared(d', op) && PrepareStop(d, d', op, request, targets)
    ensures Complete(d', op, d'.journals[op].targets)
    ensures var slots := Slots(d', op, d'.journals[op].targets);
            var w := Reached(World(d', false), op, writer, run);
            && (Legit(World(d', false), op, writer, slots, run) ==>
                Sound(w, op, d'.journals[op], slots) && Known(w.disk, slots))
            && (writer && Unweighed(d, op, slots)
                && LegitAndPrudent(World(d', false), op, d'.journals[op], slots, run) ==>
                  NoDangling(w.disk, slots))
  {
    hide Complete, Faithful, Ready, Succeeds, Unweighed, Weighed, Slots, Sound, Known, NoDangling, Reached, Legit,
         LegitAndPrudent;
    var slots := Slots(d', op, d'.journals[op].targets);
    if Legit(World(d', false), op, writer, slots, run) {
      EveryRunIsAtomic(d', op, writer, slots, run);
    }
    if writer && Unweighed(d, op, slots) && LegitAndPrudent(World(d', false), op, d'.journals[op], slots, run) {
      NoWeightDangles(d', op, slots, run);
    }
  }

  // ----- no lost update -----

  /** A call of a handler, or a prepare that ends or stops in `after`. */
  datatype Move =
    | Handling(op: OpId, event: Event)
    | Preparing(op: OpId, request: Request, targets: seq<Requested>, after: Disk)

  function Moved(d: Disk, writer: bool, m: Move): Disk {
    match m
    case Handling(op, event) => Effect(d, op, writer, event)
    case Preparing(_, _, _, after) => after
  }

  function AfterMoves(d: Disk, writer: bool, moves: seq<Move>): Disk {
    if moves == [] then d else Moved(AfterMoves(d, writer, moves[..|moves| - 1]), writer, moves[|moves| - 1])
  }

  /** A prepare that changes anything is of an operation that has at most staged
      an upload, and stops where prepare can stop. */
  ghost predicate CanMove(d: Disk, m: Move) {
    m.Preparing? && m.after != d ==>
      && (forall i :: 0 <= i < |m.targets| ==> SafeSource(m.targets[i].source))
      && (m.op in d.journals ==> d.journals[m.op].phase.Staged? && d.journals[m.op].targets == [])
      && PrepareStop(d, m.after, m.op, m.request, m.targets)
  }

  ghost predicate CanMoveAll(d: Disk, writer: bool, moves: seq<Move>) {
    moves == [] ||
    (CanMoveAll(d, writer, moves[..|moves| - 1])
      && CanMove(AfterMoves(d, writer, moves[..|moves| - 1]), moves[|moves| - 1]))
  }

  /** Nobody asks for an operation on top of the publication with this manifest. */
  ghost predicate Unexpected(m: Move, path: string, winner: Bytes)
    requires winner.ManifestBytes?
  {
    m.Preparing? ==>
      forall t :: t in m.targets && EndsWith(t.source, ".json") && PartPath(t.source, Manifest) == path ==>
                    t.expected.publicationId != winner.manifest.publicationId
  }

  lemma {:induction false} OthersStayBlind(d: Disk, d': Disk, op: OpId, other: OpId, path: string, winner: Bytes)
    requires OnlyOwn(d, d', op) && other != op && Blind(d, other, path, winner)
    ensures Blind(d', other, path, winner)
  {
    if other in d'.journals && Complete(d', other, d'.journals[other].targets) {
      var targets := d'.journals[other].targets;
      forall n | 0 <= n < 3 * |targets|
        ensures Saved(other, n / 3, Before, PartAt(n)) in d.saved && Saved(other, n / 3, After, PartAt(n)) in d.saved
        ensures d.saved[Saved(other, n / 3, Before, PartAt(n))] == d'.saved[Saved(other, n / 3, Before, PartAt(n))]
        ensures d.saved[Saved(other, n / 3, After, PartAt(n))] == d'.saved[Saved(other, n / 3, After, PartAt(n))]
      {
      }
      assert Slots(d, other, targets) == Slots(d', other, targets);
    }
  }

  /** An operation that is prepared now and touches a manifest was asked for on
      top of what that manifest is. */
  lemma {:induction false} PreparedOnTop(d: Disk, m: Move, source: string, winner: Bytes, n: nat)
    requires SafeSource(source) && CanMove(d, m) && m.Preparing? && m.after != d && AlreadyPrepared(m.after, m.op)
    requires var path := PartPath(source, Manifest); winner.ManifestBytes? && path in d.live && d.live[path] == winner
    requires PreparedFrom(d, m.after, m.op, m.request, m.targets) && n < 3 * |m.targets|
    requires Slots(m.after, m.op, m.after.journals[m.op].targets)[n].path == PartPath(source, Manifest)
    ensures var t := m.targets[n / 3];
            t in m.targets && EndsWith(t.source, ".json") && PartPath(t.source, Manifest) == PartPath(source, Manifest)
            && t.expected.publicationId == winner.manifest.publicationId
  {
    hide Faithful, Unweighed, Weighed, Normalized, Inspect, KeptBundle, UniqueIds, KeepsPairs, Stem;
    var t := m.targets[n / 3];
    SharedPart(source, Manifest, t.source, PartAt(n));
    assert Succeeds(d, m.after, m.op, m.request, m.after.journals[m.op].targets, n / 3, t.publicationId);
    assert BundleIn(d.live, t.source).value.At(Manifest) == winner;
  }

  lemma {:induction false} PreparedIsBlind(d: Disk, m: Move, source: string, winner: Bytes)
    requires SafeSource(source) && CanMove(d, m) && m.Preparing? && m.after != d && AlreadyPrepared(m.after, m.op)
    requires var path := PartPath(source, Manifest);
             winner.ManifestBytes? && path in d.live && d.live[path] == winner && Unexpected(m, path, winner)
    ensures Blind(m.after, m.op, PartPath(source, Manifest), winner)
  {
    hide Faithful, Unweighed, Weighed, Normalized, Succeeds, Stem;
    var path, slots := PartPath(source, Manifest), Slots(m.after, m.op, m.after.journals[m.op].targets);
    forall n | 0 <= n < |slots| && slots[n].path == path
      ensures m.targets[n / 3] in m.targets && m.targets[n / 3].expected.publicationId == winner.manifest.publicationId
      ensures EndsWith(m.targets[n / 3].source, ".json") && PartPath(m.targets[n / 3].source, Manifest) == path
    {
      PreparedOnTop(d, m, source, winner, n);
    }
  }

  lemma {:induction false} MoveKeepsBlind(d: Disk, writer: bool, m: Move, source: string, winner: Bytes, other: OpId)
    requires SafeSource(source) && CanMove(d, m)
    requires var path := PartPath(source, Manifest);
             winner.ManifestBytes? && path in d.live && d.live[path] == winner && Unexpected(m, path, winner)
    requires Blind(d, other, PartPath(source, Manifest), winner)
    ensures Blind(Moved(d, writer, m), other, PartPath(source, Manifest), winner)
  {
    hide Blind, PartPath, Unexpected, PreparedFrom, Effect, Normalized, Utf8Length;
    match m
    case Handling(op, event) => BlindStays(d, op, writer, event, other, PartPath(source, Manifest), winner);
    case Preparing(op, request, targets, after) =>
      if after != d {
        if other != op {
          OthersStayBlind(d, after, op, other, PartPath(source, Manifest), winner);
        } else if AlreadyPrepared(after, op) {
          PreparedIsBlind(d, m, source, winner);
        } else {
          EmptyIsBlind(after, op, PartPath(source, Manifest), winner);
        }
      }
  }

  lemma {:induction false} EmptyIsBlind(d: Disk, op: OpId, path: string, winner: Bytes)
    requires op in d.journals ==> d.journals[op].targets == []
    ensures Blind(d, op, path, winner)
  {
  }

  lemma {:induction false} MoveKeepsWinner(d: Disk, writer: bool, m: Move, path: string, winner: Bytes)
    requires CanMove(d, m) && path in d.live && d.live[path] == winner
    requires m.Handling? ==> Blind(d, m.op, path, winner)
    ensures path in Moved(d, writer, m).live && Moved(d, writer, m).live[path] == winner
  {
    hide Effect, PreparedFrom;
    match m
    case Handling(op, event) => OverwritesOnlyOwn(d, op, writer, event, path);
    case Preparing(_, _, _, _) =>
  }

  /** No lost update: a committed manifest outlives every interleaving of calls
      and prepares, as long as the operations prepared before have not journaled
      it and nobody asks for an operation on top of it.  In other words, only a
      request that names the committed revision can ever replace it. */
  lemma {:induction false} NoLostUpdate(d: Disk, writer: bool, moves: seq<Move>, source: string, winner: Bytes)
    requires SafeSource(source) && CanMoveAll(d, writer, moves) && winner.ManifestBytes?
    requires PartPath(source, Manifest) in d.live && d.live[PartPath(source, Manifest)] == winner
    requires forall m :: m in moves ==> Unexpected(m, PartPath(source, Manifest), winner)
    requires forall m :: m in moves && m.Handling? ==> Blind(d, m.op, PartPath(source, Manifest), winner)
    ensures var d', path := AfterMoves(d, writer, moves), PartPath(source, Manifest);
            path in d'.live && d'.live[path] == winner
    ensures forall o :: Blind(d, o, PartPath(source, Manifest), winner) ==>
                          Blind(AfterMoves(d, writer, moves), o, PartPath(source, Manifest), winner)
  {
    hide Blind, Moved, CanMove, PartPath, Unexpected, Normalized, Utf8Length;
    if moves != [] {
      var front, last := moves[..|moves| - 1], moves[|moves| - 1];
      assert last in moves && forall m :: m in front ==> m in moves;
      NoLostUpdate(d, writer, front, source, winner);
      var d1 := AfterMoves(d, writer, front);
      MoveKeepsWinner(d1, writer, last, PartPath(source, Manifest), winner);
      forall o | Blind(d, o, PartPath(source, Manifest), winner)
        ensures Blind(AfterMoves(d, writer, moves), o, PartPath(source, Manifest), winner)
      {
        MoveKeepsBlind(d1, writer, last, source, winner, o);
      }
    }
  }
}
