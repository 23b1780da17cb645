/** The event stream: subscribe, replay what is durable, then deliver live events
    above the replay's high-water mark.  Which runs lose nothing, exactly. */
module Events {

  /** A durable event is known by its row id; an ephemeral one has none. */
  datatype Item = Durable(id: nat) | Ephemeral(tag: int)

  const QUEUE_SIZE := 200
  const REPLAY_LIMIT := 1000

  // ----- sequences of ids -----

  ghost predicate Increasing(s: seq<nat>) {
    forall i, j :: 0 <= i < j < |s| ==> s[i] < s[j]
  }

  /** The ids above a mark. */
  function Above(s: seq<nat>, mark: nat): seq<nat> {
    if s == [] then [] else Above(s[..|s| - 1], mark) + if s[|s| - 1] > mark then [s[|s| - 1]] else []
  }

  function Ids(items: seq<Item>): seq<nat> {
    if items == [] then [] else Ids(items[..|items| - 1]) + if items[|items| - 1].Durable? then [items[|items| - 1].id]
      else []
  }

  function Tags(items: seq<Item>): seq<int> {
    if items == [] then [] else Tags(items[..|items| - 1]) + if items[|items| - 1].Ephemeral?
      then [items[|items| - 1].tag] else []
  }

  lemma {:induction false} AboveIs(s: seq<nat>, mark: nat)
    ensures forall x :: x in Above(s, mark) <==> x in s && x > mark
    ensures Increasing(s) ==> Increasing(Above(s, mark))
  {
    if s != [] {
      var front := s[..|s| - 1];
      AboveIs(front, mark);
      assert s == front + [s[|s| - 1]];
      if Increasing(s) {
        LastIsGreatest(s);
        forall i | 0 <= i < |Above(front, mark)| ensures Above(front, mark)[i] < s[|s| - 1] {
          assert Above(front, mark)[i] in front;
        }
      }
    }
  }

  lemma {:induction false} LastIsGreatest(s: seq<nat>)
    requires Increasing(s) && s != []
    ensures Increasing(s[..|s| - 1])
    ensures forall x :: x in s[..|s| - 1] <==> x in s && x != s[|s| - 1]
    ensures forall x :: x in s ==> x <= s[|s| - 1]
  {
  }

  lemma {:induction false} AboveConcat(a: seq<nat>, b: seq<nat>, mark: nat)
    ensures Above(a + b, mark) == Above(a, mark) + Above(b, mark)
  {
    if b == [] {
      assert a + b == a;
    } else {
      AboveConcat(a, b[..|b| - 1], mark);
      assert (a + b)[..|a + b| - 1] == a + b[..|b| - 1];
    }
  }

  lemma {:induction false} ItemsConcat(a: seq<Item>, b: seq<Item>)
    ensures Ids(a + b) == Ids(a) + Ids(b) && Tags(a + b) == Tags(a) + Tags(b)
  {
    if b == [] {
      assert a + b == a;
    } else {
      ItemsConcat(a, b[..|b| - 1]);
      assert (a + b)[..|a + b| - 1] == a + b[..|b| - 1];
    }
  }

  lemma {:induction false} ItemsOne(x: Item)
    ensures Ids([x]) == (if x.Durable? then [x.id] else []) && Tags([x]) == if x.Ephemeral? then [x.tag] else []
  {
  }

  /** Increasing sequences with the same elements are the same. */
  lemma {:induction false} SameElements(a: seq<nat>, b: seq<nat>)
    requires Increasing(a) && Increasing(b) && forall x :: x in a <==> x in b
    ensures a == b
  {
    if a != [] {
      HasElement(a, b);
      var x, y := a[|a| - 1], b[|b| - 1];
      LastIsGreatest(a);
      LastIsGreatest(b);
      assert x in a && y in b;
      assert x in b && y in a;
      assert x <= y && y <= x;
      var a', b' := a[..|a| - 1], b[..|b| - 1];
      forall z | z in a' ensures z in b' { assert z in a && z != x; }
      forall z | z in b' ensures z in a' { assert z in b && z != y; }
      SameElements(a', b');
      assert a == a' + [x] && b == b' + [y];
    } else if b != [] {
      HasElement(b, a);
    }
  }

  lemma {:induction false} HasElement(a: seq<nat>, b: seq<nat>)
    requires a != [] && forall x :: x in a ==> x in b
    ensures b != []
  {
    assert a[0] in a;
  }

  // ----- the system around one stream -----

  datatype Phase = Waiting | Subscribed | Replaying | Live

  /** `start` and `loadedAt` are the numbers of events that had been published
      when the stream subscribed and committed when it loaded its replay;
      `replay` is what it loaded, of which the first `done` rows were sent; `taken` and
      `lost` are the live items it took from its queue and those its full queue
      did not take. */
  datatype System = System(after: nat, committed: seq<nat>, published: nat, phase: Phase, start: nat, loadedAt: nat,
                           replay: seq<nat>, done: nat, high: nat, queue: seq<Item>, taken: seq<Item>, lost: seq<Item>,
                           sent: seq<Item>)

  datatype Step = Commit(id: nat) | Publish | Emit(tag: int) | Subscribe | Load | SendRow | Deliver

  function Offer(s: System, item: Item): System {
    if s.phase.Waiting? then s
    else if |s.queue| < QUEUE_SIZE then s.(queue := s.queue + [item])
    else s.(lost := s.lost + [item])
  }

  function First(s: seq<nat>, n: nat): seq<nat> { if |s| <= n then s else s[..n] }

  /** Rows are committed with increasing ids and published in that order. */
  predicate Enabled(s: System, step: Step) {
    match step
    case Commit(id) => s.committed == [] || s.committed[|s.committed| - 1] < id
    case Publish => s.published < |s.committed|
    case Emit(_) => true
    case Subscribe => s.phase.Waiting?
    case Load => s.phase.Subscribed?
    case SendRow => s.phase.Replaying?
    case Deliver => s.phase.Live? && s.queue != []
  }

  function After(s: System, step: Step): System
    requires Enabled(s, step)
  {
    match step
    case Commit(id) => s.(committed := s.committed + [id])
    case Publish => Offer(s, Durable(s.committed[s.published])).(published := s.published + 1)
    case Emit(tag) => Offer(s, Ephemeral(tag))
    case Subscribe => s.(phase := Subscribed, start := s.published)
    case Load =>
      s.(phase := Replaying, loadedAt := |s.committed|, replay := First(Above(s.committed, s.after), REPLAY_LIMIT))
    case SendRow =>
      if s.done >= |s.replay| then s.(phase := Live)
      else
        var id := s.replay[s.done];
        s.(done := s.done + 1, sent := s.sent + [Durable(id)], high := if id > s.high then id else s.high)
    case Deliver =>
      var item := s.queue[0];
      var s' := s.(queue := s.queue[1..], taken := s.taken + [item]);
      if item.Durable? && item.id <= s.high then s' else s'.(sent := s.sent + [item])
  }

  function Initial(after: nat, committed: seq<nat>, published: nat): System {
    System(after, committed, published, Waiting, 0, 0, [], 0, after, [], [], [], [])
  }

  /** The state after a run; a step that is not enabled does not happen. */
  function Reached(s: System, run: seq<Step>): System {
    if run == [] then s
    else
      var before, last := Reached(s, run[..|run| - 1]), run[|run| - 1];
      if Enabled(before, last) then After(before, last) else before
  }

  // ----- the invariant -----

  ghost predicate Ordered(s: System) {
    && Increasing(s.committed) && s.published <= |s.committed|
    && (!s.phase.Waiting? ==> s.start <= s.published)
  }

  /** Live ids are accepted, in order, or lost, and never both. */
  ghost predicate Accounts(live: seq<nat>, accepted: seq<nat>, lost: seq<nat>) {
    && Increasing(accepted)
    && (forall x :: x in live <==> x in accepted || x in lost)
    && (forall x :: x in accepted ==> x !in lost)
  }

  function LiveIds(s: System): seq<nat>
    requires s.start <= s.published <= |s.committed|
  {
    s.committed[s.start..s.published]
  }

  /** What was published since the subscription was accepted or lost. */
  ghost predicate Queued(s: System) {
    if s.phase.Waiting? then s.taken == [] && s.queue == [] && s.lost == []
    else s.start <= s.published <= |s.committed| && Accounts(LiveIds(s), Ids(s.taken + s.queue), Ids(s.lost))
  }

  /** The replay is the first part of what is above the resume id, and the mark is
      its last row sent. */
  ghost predicate Replayed(s: System) {
    && (s.phase.Waiting? || s.phase.Subscribed? ==>
         s.replay == [] && s.sent == [] && s.taken == [] && s.high == s.after)
    && (s.phase.Replaying? || s.phase.Live? ==>
          && s.start <= s.loadedAt <= |s.committed|
          && s.replay == First(Above(s.committed[..s.loadedAt], s.after), REPLAY_LIMIT))
    && s.done <= |s.replay|
    && s.high == (if s.done == 0 then s.after else s.replay[s.done - 1])
    && (s.phase.Live? ==> s.done == |s.replay|)
    && (!s.phase.Live? ==> s.taken == [])
  }

  /** What was sent: the replay so far, then the live ids above the mark; and
      every ephemeral item that was taken. */
  ghost predicate Sent(s: System) {
    && s.done <= |s.replay|
    && Ids(s.sent) == s.replay[..s.done] + Above(Ids(s.taken), s.high)
    && Tags(s.sent) == Tags(s.taken)
  }

  ghost predicate Inv(s: System) { Ordered(s) && Queued(s) && Replayed(s) && Sent(s) }

  lemma {:induction false} InitialHolds(after: nat, committed: seq<nat>, published: nat)
    requires Increasing(committed) && published <= |committed|
    ensures Inv(Initial(after, committed, published))
  {
  }

  lemma {:induction false} AccountsMore(live: seq<nat>, accepted: seq<nat>, lost: seq<nat>, x: nat)
    requires Accounts(live, accepted, lost) && forall y :: y in live ==> y < x
    ensures Accounts(live + [x], accepted + [x], lost) && Accounts(live + [x], accepted, lost + [x])
  {
    forall i | 0 <= i < |accepted| ensures accepted[i] < x {
      assert accepted[i] in accepted;
    }
  }

  lemma {:induction false} CommitHolds(s: System, id: nat)
    requires Inv(s) && Enabled(s, Commit(id))
    ensures Inv(After(s, Commit(id)))
  {
    hide Queued, Replayed, Sent, Increasing;
    MoreIncreasing(s.committed, id);
    CommitQueues(s, id);
    CommitReplays(s, id);
    CommitSends(s, id);
  }

  lemma {:induction false} CommitQueues(s: System, id: nat)
    requires Queued(s)
    ensures Queued(s.(committed := s.committed + [id]))
  {
    hide Accounts, Ids;
    if !s.phase.Waiting? { assert (s.committed + [id])[s.start..s.published] == s.committed[s.start..s.published]; }
  }

  lemma {:induction false} CommitReplays(s: System, id: nat)
    requires Replayed(s)
    ensures Replayed(s.(committed := s.committed + [id]))
  {
    hide First, Above;
    if s.loadedAt <= |s.committed| { assert (s.committed + [id])[..s.loadedAt] == s.committed[..s.loadedAt]; }
  }

  lemma {:induction false} CommitSends(s: System, id: nat)
    requires Sent(s)
    ensures Sent(s.(committed := s.committed + [id]))
  {
  }

  lemma {:induction false} MoreIncreasing(committed: seq<nat>, id: nat)
    requires Increasing(committed) && (committed == [] || committed[|committed| - 1] < id)
    ensures Increasing(committed + [id])
  {
  }

  /** Offering an item to a stream. */
  lemma {:induction false} OfferHolds(s: System, item: Item)
    requires Inv(s)
    requires item.Durable? ==> s.published < |s.committed| && item.id == s.committed[s.published]
    ensures Inv(Offer(s, item).(published := if item.Durable? then s.published + 1 else s.published))
  {
    hide Queued, Sent, Replayed, Increasing;
    OfferIsAccounted(s, item);
    OfferSendsNothing(s, Offer(s, item).(published := if item.Durable? then s.published + 1 else s.published));
  }

  lemma {:induction false} OfferSendsNothing(s: System, s': System)
    requires Replayed(s) && Sent(s)
    requires s' == s.(published := s'.published, queue := s'.queue, lost := s'.lost)
    ensures Replayed(s') && Sent(s')
  {
  }

  lemma {:induction false} OfferIsAccounted(s: System, item: Item)
    requires Ordered(s) && Queued(s)
    requires item.Durable? ==> s.published < |s.committed| && item.id == s.committed[s.published]
    ensures Queued(Offer(s, item).(published := if item.Durable? then s.published + 1 else s.published))
  {
    hide Ids, Tags, Accounts, Increasing;
    if !s.phase.Waiting? {
      assert s.taken + (s.queue + [item]) == (s.taken + s.queue) + [item];
      ItemsConcat(s.taken + s.queue, [item]);
      ItemsConcat(s.lost, [item]);
      ItemsOne(item);
      if item.Durable? {
        NewestIsGreatest(s.committed, s.start, s.published);
        AccountsMore(LiveIds(s), Ids(s.taken + s.queue), Ids(s.lost), item.id);
      } else {
        assert Ids(s.taken + s.queue) + [] == Ids(s.taken + s.queue) && Ids(s.lost) + [] == Ids(s.lost);
      }
    }
  }

  /** The next event to be published is above all live ones. */
  lemma {:induction false} NewestIsGreatest(committed: seq<nat>, start: nat, published: nat)
    requires Increasing(committed) && start <= published < |committed|
    ensures committed[start..published + 1] == committed[start..published] + [committed[published]]
    ensures forall x :: x in committed[start..published] ==> x < committed[published]
  {
  }

  lemma {:induction false} SubscribeHolds(s: System)
    requires Inv(s) && s.phase.Waiting?
    ensures Inv(After(s, Subscribe))
  {
  }

  lemma {:induction false} LoadHolds(s: System)
    requires Inv(s) && s.phase.Subscribed?
    ensures Inv(After(s, Load))
  {
    assert s.committed[..|s.committed|] == s.committed;
    assert Ids([]) == [] && Above([], s.high) == [] && Tags([]) == [];
  }

  lemma {:induction false} SendRowHolds(s: System)
    requires Inv(s) && s.phase.Replaying?
    ensures Inv(After(s, SendRow))
  {
    hide Accounts, First, Increasing, Ids, Tags, Above, Sent;
    RowIsSent(s);
    if s.done < |s.replay| {
      ReplayIncreases(s);
      Next(s.replay, s.done);
      assert s.replay[s.done] in s.replay;
    }
  }

  lemma {:induction false} RowIsSent(s: System)
    requires Replayed(s) && Sent(s) && s.phase.Replaying?
    ensures Sent(After(s, SendRow))
  {
  }

  lemma {:induction false} Next(s: seq<nat>, n: nat)
    requires Increasing(s) && n < |s|
    ensures n > 0 ==> s[n - 1] < s[n]
  {
  }

  lemma {:induction false} ReplayIncreases(s: System)
    requires Ordered(s) && Replayed(s) && (s.phase.Replaying? || s.phase.Live?)
    ensures Increasing(s.replay) && forall x :: x in s.replay ==> x > s.after && x in s.committed
  {
    var loaded := s.committed[..s.loadedAt];
    assert Increasing(loaded);
    AboveIs(loaded, s.after);
    forall x | x in s.replay ensures x > s.after && x in s.committed {
      assert x in Above(loaded, s.after);
    }
  }

  lemma {:induction false} DeliverHolds(s: System)
    requires Inv(s) && Enabled(s, Deliver)
    ensures Inv(After(s, Deliver))
  {
    hide Ids, Tags, Above, First, Accounts, Increasing;
    var item := s.queue[0];
    assert s.queue == [item] + s.queue[1..];
    assert (s.taken + [item]) + s.queue[1..] == s.taken + s.queue;
    ItemsConcat(s.taken, [item]);
    ItemsConcat(s.sent, [item]);
    ItemsOne(item);
    AboveConcat(Ids(s.taken), Ids([item]), s.high);
    AboveOne(item, s.high);
    assert Ids(s.sent) + [] == Ids(s.sent) && Tags(s.sent) + [] == Tags(s.sent) && Tags(s.taken) + [] == Tags(s.taken);
    var sent, above := s.replay[..s.done], Above(Ids(s.taken), s.high);
    assert above + [] == above;
    if item.Durable? { assert (sent + above) + [item.id] == sent + (above + [item.id]); }
  }

  lemma {:induction false} AboveOne(item: Item, mark: nat)
    ensures Above(Ids([item]), mark) == if item.Durable? && item.id > mark then [item.id] else []
  {
  }

  lemma {:induction false} StepHolds(s: System, step: Step)
    requires Inv(s) && Enabled(s, step)
    ensures Inv(After(s, step))
  {
    hide Inv;
    match step
    case Commit(id) => CommitHolds(s, id);
    case Publish => OfferHolds(s, Durable(s.committed[s.published]));
    case Emit(tag) => OfferHolds(s, Ephemeral(tag));
    case Subscribe => SubscribeHolds(s);
    case Load => LoadHolds(s);
    case SendRow => SendRowHolds(s);
    case Deliver => DeliverHolds(s);
  }

  /** The invariant holds in every run: any interleaving of commits, publications,
      ephemeral events, subscription, replay and delivery. */
  lemma {:induction false} EveryRunHolds(s: System, run: seq<Step>)
    requires Inv(s)
    ensures Inv(Reached(s, run))
  {
    hide Inv;
    if run != [] {
      var before, last := Reached(s, run[..|run| - 1]), run[|run| - 1];
      EveryRunHolds(s, run[..|run| - 1]);
      if Enabled(before, last) { StepHolds(before, last); }
    }
  }

  // ----- what the client sees -----

  /** At any time: each durable event at most once, in increasing order, above the
      resume id; and every ephemeral item that left the queue. */
  lemma {:induction false} OnceInOrder(s: System)
    requires Inv(s)
    ensures Increasing(Ids(s.sent)) && (forall x :: x in Ids(s.sent) ==> x > s.after && x in s.committed)
    ensures Tags(s.sent) == Tags(s.taken)
  {
    var before, live := s.replay[..s.done], Above(Ids(s.taken), s.high);
    TakenIncreases(s);
    AboveIs(Ids(s.taken), s.high);
    MarkIsGreatest(s);
    assert Ids(s.sent) == before + live;
    forall i | 0 <= i < |live| ensures live[i] > s.high { assert live[i] in live; }
    forall i | 0 <= i < |before| ensures before[i] <= s.high { assert before[i] in before; }
  }

  lemma {:induction false} TakenIncreases(s: System)
    requires Inv(s)
    ensures Increasing(Ids(s.taken)) && forall x :: x in Ids(s.taken) ==> x in s.committed
  {
    hide Replayed, Sent;
    if !s.phase.Waiting? {
      ItemsConcat(s.taken, s.queue);
      var taken, accepted := Ids(s.taken), Ids(s.taken + s.queue);
      forall i, j | 0 <= i < j < |taken| ensures taken[i] < taken[j] {
        assert accepted[i] == taken[i] && accepted[j] == taken[j];
      }
      forall x | x in taken ensures x in s.committed {
        assert x in accepted && x in LiveIds(s);
      }
    } else {
      assert Ids([]) == [];
    }
  }

  /** The rows sent so far are at or below the mark, which is at or above the
      resume id. */
  lemma {:induction false} MarkIsGreatest(s: System)
    requires Inv(s)
    ensures s.high >= s.after
    ensures var sent := s.replay[..s.done];
            Increasing(sent) && forall x :: x in sent ==> s.after < x <= s.high && x in s.committed
  {
    hide Queued, Sent, First;
    var sent := s.replay[..s.done];
    if s.phase.Replaying? || s.phase.Live? {
      ReplayIncreases(s);
      forall x | x in sent ensures s.after < x <= s.high && x in s.committed {
        var i :| 0 <= i < |sent| && sent[i] == x;
        assert x in s.replay;
      }
      if sent != [] { assert s.high == sent[|sent| - 1] && s.high in s.replay; }
    }
  }

  /** Everything that was committed has been published and the queue is empty. */
  predicate Quiet(s: System) { s.phase.Live? && s.queue == [] && s.published == |s.committed| }

  /** A quiet stream has sent every durable event above the resume id, each once
      and in order, exactly when its queue lost none above the mark and at most as
      many events as a replay holds had been published before it subscribed. */
  lemma {:induction false} CompleteExactly(s: System)
    requires Inv(s) && Quiet(s)
    ensures Ids(s.sent) == Above(s.committed, s.after) <==>
            (forall x :: x in Ids(s.lost) ==> x <= s.high) && |Above(s.committed[..s.start], s.after)| <= REPLAY_LIMIT
  {
    hide Inv, First;
    OnceInOrder(s);
    AboveIs(s.committed, s.after);
    InvOrdered(s);
    LoadedAfterStart(s);
    if (forall x :: x in Ids(s.lost) ==> x <= s.high) && |Above(s.committed[..s.start], s.after)| <= REPLAY_LIMIT {
      forall x | x in s.committed && x > s.after ensures x in Ids(s.sent) { NothingMissing(s, x); }
      SameElements(Ids(s.sent), Above(s.committed, s.after));
    } else if x :| x in Ids(s.lost) && x > s.high {
      LostIsMissing(s, x);
    } else {
      BeyondIsMissing(s);
    }
  }

  lemma {:induction false} InvOrdered(s: System)
    requires Inv(s)
    ensures Increasing(s.committed)
  {
  }

  lemma {:induction false} SentIs(s: System)
    requires Inv(s) && s.phase.Live?
    ensures forall x :: x in Ids(s.sent) <==> x in s.replay || (x in Ids(s.taken) && x > s.high)
    ensures forall x :: x in s.replay ==> x <= s.high
    ensures s.high >= s.after
  {
    hide Queued, Ordered, First;
    assert s.replay[..|s.replay|] == s.replay;
    AboveIs(Ids(s.taken), s.high);
    MarkIsGreatest(s);
  }

  lemma {:induction false} QuietLive(s: System)
    requires Inv(s) && Quiet(s)
    ensures s.start <= |s.committed| && Accounts(s.committed[s.start..], Ids(s.taken), Ids(s.lost))
  {
    hide Replayed, Sent, Accounts;
    assert s.taken + [] == s.taken;
    assert LiveIds(s) == s.committed[s.start..];
  }

  /** The place of an id among those above a mark decides whether it is among the
      first `n` of them. */
  lemma {:induction false} FirstByRank(s: seq<nat>, k: nat, mark: nat, n: nat)
    requires Increasing(s) && k < |s| && s[k] > mark
    ensures s[k] in First(Above(s, mark), n) <==> |Above(s[..k + 1], mark)| <= n
  {
    var head, tail := s[..k + 1], s[k + 1..];
    assert s == head + tail && head[..k] == s[..k];
    AboveConcat(head, tail, mark);
    var all, part := Above(s, mark), Above(head, mark);
    assert part == Above(s[..k], mark) + [s[k]];
    assert all[|part| - 1] == s[k];
    AboveIs(s, mark);
    if |part| <= n {
      assert First(all, n)[|part| - 1] == s[k];
    } else {
      forall i | 0 <= i < |First(all, n)| ensures First(all, n)[i] != s[k] {
        assert all[i] < all[|part| - 1];
      }
    }
  }

  /** A row above the resume id is in the replay, or the replay is full without it. */
  lemma {:induction false} ReplayIsFirst(s: System, k: nat)
    requires Inv(s) && s.phase.Live? && k < s.loadedAt <= |s.committed| && s.committed[k] > s.after
    ensures s.committed[k] in s.replay <==> |Above(s.committed[..k + 1], s.after)| <= REPLAY_LIMIT
  {
    hide Queued, Sent, First, Above;
    var loaded := s.committed[..s.loadedAt];
    assert loaded[..k + 1] == s.committed[..k + 1] && loaded[k] == s.committed[k];
    FirstByRank(loaded, k, s.after, REPLAY_LIMIT);
  }

  lemma {:induction false} NothingMissing(s: System, x: nat)
    requires Inv(s) && Quiet(s) && x in s.committed && x > s.after
    requires (forall y :: y in Ids(s.lost) ==> y <= s.high) && |Above(s.committed[..s.start], s.after)| <= REPLAY_LIMIT
    ensures x in Ids(s.sent)
  {
    hide Inv, First, Increasing;
    SentIs(s);
    QuietLive(s);
    var k :| 0 <= k < |s.committed| && s.committed[k] == x;
    if k < s.start {
      LoadedAfterStart(s);
      ReplayIsFirst(s, k);
      AbovePrefix(s.committed, k + 1, s.start, s.after);
    } else {
      assert s.committed[s.start..][k - s.start] == x;
      if x <= s.high { BelowMarkIsReplayed(s, k); }
    }
  }

  lemma {:induction false} LoadedAfterStart(s: System)
    requires Inv(s) && s.phase.Live?
    ensures s.start <= s.loadedAt <= |s.committed|
  {
  }

  lemma {:induction false} AbovePrefix(s: seq<nat>, i: nat, n: nat, mark: nat)
    requires i <= n <= |s|
    ensures |Above(s[..i], mark)| <= |Above(s[..n], mark)|
  {
    assert s[..n] == s[..i] + s[i..n];
    AboveConcat(s[..i], s[i..n], mark);
  }

  /** What lies between the resume id and the mark was replayed. */
  lemma {:induction false} BelowMarkIsReplayed(s: System, k: nat)
    requires Inv(s) && s.phase.Live? && k < |s.committed| && s.after < s.committed[k] <= s.high
    ensures s.committed[k] in s.replay
  {
    hide Queued, Sent, First;
    ReplayIncreases(s);
    assert s.high in s.replay;
    var loaded := s.committed[..s.loadedAt];
    AboveIs(loaded, s.after);
    assert s.high in Above(loaded, s.after) by { assert s.replay == First(Above(loaded, s.after), REPLAY_LIMIT);
           FirstIsPart(Above(loaded, s.after), REPLAY_LIMIT); }
    var m :| 0 <= m < |loaded| && loaded[m] == s.high;
    assert k <= m;
    ReplayIsFirst(s, m);
    ReplayIsFirst(s, k);
    AbovePrefix(s.committed, k + 1, m + 1, s.after);
  }

  lemma {:induction false} FirstIsPart(s: seq<nat>, n: nat)
    ensures forall x :: x in First(s, n) ==> x in s
  {
  }

  /** What the queue lost above the mark is never sent. */
  lemma {:induction false} LostIsMissing(s: System, x: nat)
    requires Inv(s) && Quiet(s) && x in Ids(s.lost) && x > s.high
    ensures x !in Ids(s.sent) && x in s.committed && x > s.after
  {
    hide Inv;
    SentIs(s);
    QuietLive(s);
  }

  /** More events published before the subscription than a replay holds. */
  lemma {:induction false} BeyondIsMissing(s: System)
    requires Inv(s) && Quiet(s) && |Above(s.committed[..s.start], s.after)| > REPLAY_LIMIT
    ensures exists x :: x in s.committed && x > s.after && x !in Ids(s.sent)
  {
    hide Inv, First, Increasing;
    QuietLive(s);
    LoadedAfterStart(s);
    SentIs(s);
    var k := LastAbove(s.committed[..s.start], s.after);
    var x := s.committed[k];
    assert s.committed[..s.start][..k + 1] == s.committed[..k + 1];
    ReplayIsFirst(s, k);
    EarlierIsNotLive(s, k);
  }

  /** Everything above the mark is already in the part up to the last one above it. */
  lemma {:induction false} LastAbove(s: seq<nat>, mark: nat) returns (k: nat)
    requires Above(s, mark) != []
    ensures k < |s| && s[k] > mark && |Above(s[..k + 1], mark)| == |Above(s, mark)|
  {
    if s[|s| - 1] > mark {
      k := |s| - 1;
      assert s[..k + 1] == s;
    } else {
      k := LastAbove(s[..|s| - 1], mark);
      assert s[..|s| - 1][..k + 1] == s[..k + 1];
    }
  }

  lemma {:induction false} EarlierIsNotLive(s: System, k: nat)
    requires Inv(s) && Quiet(s) && k < s.start <= |s.committed|
    ensures s.committed[k] !in Ids(s.taken)
  {
    InvOrdered(s);
    QuietLive(s);
    forall x | x in s.committed[s.start..] ensures x != s.committed[k] {
      var i :| 0 <= i < |s.committed[s.start..]| && s.committed[s.start..][i] == x;
      assert s.committed[s.start + i] == x;
    }
  }

  /** For a backlog within the limit and a queue that never overflows: every
      durable event exactly once, in increasing order. */
  lemma {:induction false} WithinLimitsNothingIsLost(after: nat, committed: seq<nat>, published: nat, run: seq<Step>)
    requires Increasing(committed) && published <= |committed|
    requires var s := Reached(Initial(after, committed, published), run);
             Quiet(s) && s.lost == [] && s.loadedAt <= |s.committed|
               && |Above(s.committed[..s.loadedAt], after)| <= REPLAY_LIMIT && s.after == after
    ensures var s := Reached(Initial(after, committed, published), run); Ids(s.sent) == Above(s.committed, after)
  {
    hide Inv;
    var s := Reached(Initial(after, committed, published), run);
    InitialHolds(after, committed, published);
    EveryRunHolds(Initial(after, committed, published), run);
    LoadedAfterStart(s);
    AbovePrefix(s.committed, s.start, s.loadedAt, after);
    CompleteExactly(s);
    assert Ids([]) == [];
  }

  // ----- both kinds of loss happen -----

  function Upto(n: nat): seq<nat> { if n == 0 then [] else Upto(n - 1) + [n] }

  /** Events 1 to `n`, each committed and published at once. */
  function Published(n: nat): seq<Step> { if n == 0 then [] else Published(n - 1) + [Commit(n)] + [Publish] }

  function Repeat(step: Step, n: nat): seq<Step> { if n == 0 then [] else Repeat(step, n - 1) + [step] }

  lemma {:induction false} ReachedMore(s: System, run: seq<Step>, last: Step)
    ensures Reached(s, run + [last]) == if Enabled(Reached(s, run), last) then After(Reached(s, run), last)
            else Reached(s, run)
    ensures Reached(s, []) == s
  {
    assert (run + [last])[..|run|] == run;
  }

  lemma {:induction false} ReachedThen(s: System, a: seq<Step>, b: seq<Step>)
    ensures Reached(s, a + b) == Reached(Reached(s, a), b)
  {
    if b == [] {
      assert a + b == a;
    } else {
      ReachedThen(s, a, b[..|b| - 1]);
      assert (a + b)[..|a + b| - 1] == a + b[..|b| - 1];
    }
  }

  lemma {:induction false} UptoIs(n: nat)
    ensures |Upto(n)| == n && forall i :: 0 <= i < n ==> Upto(n)[i] == i + 1
    ensures Above(Upto(n), 0) == Upto(n)
  {
    if n > 0 {
      UptoIs(n - 1);
      assert Upto(n)[..n - 1] == Upto(n - 1);
    }
  }

  lemma {:induction false} BacklogGrows(n: nat)
    ensures Reached(Initial(0, [], 0), Published(n)) == Initial(0, Upto(n), n)
  {
    hide Reached, Above;
    var s := Initial(0, [], 0);
    ReachedMore(s, [], Publish);
    if n > 0 {
      BacklogGrows(n - 1);
      BacklogStep(n);
      ReachedMore(s, Published(n - 1), Commit(n));
      ReachedMore(s, Published(n - 1) + [Commit(n)], Publish);
    }
  }

  lemma {:induction false} BacklogStep(n: nat)
    requires n > 0
    ensures var s := Initial(0, Upto(n - 1), n - 1);
            && Enabled(s, Commit(n)) && Enabled(After(s, Commit(n)), Publish)
            && After(After(s, Commit(n)), Publish) == Initial(0, Upto(n), n)
  {
    hide Above;
    UptoIs(n - 1);
  }

  lemma {:induction false} RowsAreSent(s: System, k: nat)
    requires s.phase.Replaying? && s.done + k <= |s.replay|
    ensures var s' := Reached(s, Repeat(SendRow, k)); s' == s.(done := s.done + k, sent := s'.sent, high := s'.high)
  {
    if k > 0 {
      RowsAreSent(s, k - 1);
      ReachedMore(s, Repeat(SendRow, k - 1), SendRow);
    }
  }

  /** Any backlog of more than a replay holds, and nothing else, ends in a quiet
      stream that has not sent everything. */
  lemma {:induction false} BacklogIsLost(n: nat)
    requires n > REPLAY_LIMIT
    ensures var s := Reached(Initial(0, [], 0), Published(n) + [Subscribe] + [Load] + Repeat(SendRow, REPLAY_LIMIT)
            + [SendRow]);
            Quiet(s) && s.lost == [] && Ids(s.sent) != Above(s.committed, s.after)
  {
    hide Reached, Inv, Above, First, Repeat;
    var s0, run := Initial(0, [], 0), Published(n);
    BacklogGrows(n);
    UptoIs(n);
    ReachedMore(s0, run, Subscribe);
    ReachedMore(s0, run + [Subscribe], Load);
    var s1 := Reached(s0, run + [Subscribe] + [Load]);
    assert Upto(n)[..n] == Upto(n);
    FirstHas(Upto(n), REPLAY_LIMIT);
    ReachedThen(s0, run + [Subscribe] + [Load], Repeat(SendRow, REPLAY_LIMIT));
    RowsAreSent(s1, REPLAY_LIMIT);
    ReachedMore(s0, run + [Subscribe] + [Load] + Repeat(SendRow, REPLAY_LIMIT), SendRow);
    InitialHolds(0, [], 0);
    EveryRunHolds(s0, run + [Subscribe] + [Load] + Repeat(SendRow, REPLAY_LIMIT) + [SendRow]);
    CompleteExactly(Reached(s0, run + [Subscribe] + [Load] + Repeat(SendRow, REPLAY_LIMIT) + [SendRow]));
  }

  lemma {:induction false} FirstHas(s: seq<nat>, n: nat)
    requires n <= |s|
    ensures |First(s, n)| == n
  {
  }

  /** A live stream whose subscriber takes nothing while `n` events are published. */
  ghost predicate Flooded(s: System, n: nat) {
    && s.phase.Live? && s.high == 0 && s.after == 0 && s.committed == Upto(n) && s.published == n
    && |s.queue| == (if n < QUEUE_SIZE then n else QUEUE_SIZE) && (n > QUEUE_SIZE ==> n in Ids(s.lost))
  }

  lemma {:induction false} FloodGrows(s: System, n: nat)
    requires Flooded(s, 0)
    ensures Flooded(Reached(s, Published(n)), n)
  {
    hide Reached, Flooded;
    ReachedMore(s, [], Publish);
    if n > 0 {
      FloodGrows(s, n - 1);
      FloodStep(Reached(s, Published(n - 1)), n);
      ReachedMore(s, Published(n - 1), Commit(n));
      ReachedMore(s, Published(n - 1) + [Commit(n)], Publish);
    }
  }

  lemma {:induction false} FloodStep(s: System, n: nat)
    requires n > 0 && Flooded(s, n - 1)
    ensures Enabled(s, Commit(n)) && Enabled(After(s, Commit(n)), Publish)
    ensures Flooded(After(After(s, Commit(n)), Publish), n)
  {
    hide Ids, Tags, Above, Upto;
    UptoNext(n);
    LostMore(s.lost, n);
  }

  lemma {:induction false} UptoNext(n: nat)
    requires n > 0
    ensures |Upto(n - 1)| == n - 1 && Upto(n) == Upto(n - 1) + [n]
    ensures n > 1 ==> Upto(n - 1)[n - 2] == n - 1
  {
    UptoIs(n - 1);
  }

  lemma {:induction false} LostMore(lost: seq<Item>, n: nat)
    ensures n in Ids(lost + [Durable(n)])
  {
    ItemsConcat(lost, [Durable(n)]);
    ItemsOne(Durable(n));
  }

  lemma {:induction false} QueueIsTaken(s: System, k: nat)
    requires s.phase.Live? && k <= |s.queue|
    ensures var s' := Reached(s, Repeat(Deliver, k));
            s' == s.(queue := s.queue[k..], taken := s'.taken, sent := s'.sent)
  {
    if k > 0 {
      QueueIsTaken(s, k - 1);
      ReachedMore(s, Repeat(Deliver, k - 1), Deliver);
      assert s.queue[k - 1..][1..] == s.queue[k..];
    }
  }

  /** Any burst of more events than the queue holds, behind an empty replay, ends
      in a quiet stream that has not sent everything. */
  lemma {:induction false} OverflowIsLost(n: nat)
    requires n > QUEUE_SIZE
    ensures var s := Reached(Initial(0, [], 0), [Subscribe] + [Load] + [SendRow] + Published(n)
            + Repeat(Deliver, QUEUE_SIZE));
            Quiet(s) && s.start == 0 && Ids(s.sent) != Above(s.committed, s.after)
  {
    hide Reached, Inv, Repeat, Published, Ids, Above, Upto;
    var s0, opening := Initial(0, [], 0), [Subscribe] + [Load] + [SendRow];
    var s1 := Reached(s0, opening);
    Opens();
    FloodGrows(s1, n);
    ReachedThen(s0, opening, Published(n));
    ReachedThen(s0, opening + Published(n), Repeat(Deliver, QUEUE_SIZE));
    var s2 := Reached(s0, opening + Published(n));
    UptoIs(n);
    QueueIsTaken(s2, QUEUE_SIZE);
    StartStays(s1, n);
    InitialHolds(0, [], 0);
    EveryRunHolds(s0, opening + Published(n) + Repeat(Deliver, QUEUE_SIZE));
    var s := Reached(s2, Repeat(Deliver, QUEUE_SIZE));
    assert n in Ids(s.lost) && n > s.high;
    CompleteExactly(s);
  }

  lemma {:induction false} Opens()
    ensures var s := Reached(Initial(0, [], 0), [Subscribe] + [Load] + [SendRow]); Flooded(s, 0) && s.start == 0
  {
    hide Reached;
    var s0 := Initial(0, [], 0);
    ReachedMore(s0, [], Subscribe);
    ReachedMore(s0, [Subscribe], Load);
    ReachedMore(s0, [Subscribe] + [Load], SendRow);
    assert [] + [Subscribe] == [Subscribe];
  }

  lemma {:induction false} StartStays(s: System, n: nat)
    requires s.phase.Live?
    ensures var s' := Reached(s, Published(n)); s'.phase.Live? && s'.start == s.start
  {
    hide Reached;
    ReachedMore(s, [], Publish);
    if n > 0 {
      StartStays(s, n - 1);
      ReachedMore(s, Published(n - 1), Commit(n));
      ReachedMore(s, Published(n - 1) + [Commit(n)], Publish);
    }
  }

  // ----- the stream as it runs -----

  /** The subscriber's queue and the stream's own variables; `system` is the
      state of the whole system that they are part of. */
  class EventStream {
    var queue: seq<Item>
    var high: nat
    var sent: seq<Item>
    ghost var system: System

    ghost predicate Valid()
      reads this
    {
      Inv(system) && queue == system.queue && high == system.high && sent == system.sent
    }

    constructor (after: nat, ghost committed: seq<nat>, ghost published: nat)
      requires Increasing(committed) && published <= |committed|
      ensures Valid() && system == After(Initial(after, committed, published), Subscribe)
    {
      queue, high, sent := [], after, [];
      system := After(Initial(after, committed, published), Subscribe);
      new;
      InitialHolds(after, committed, published);
      SubscribeHolds(Initial(after, committed, published));
    }

    /** The broker offers an item; a full queue silently drops it. */
    method Put(item: Item)
      requires Valid() && !system.phase.Waiting?
      requires item.Durable? ==> system.published < |system.committed| && item.id == system.committed[system.published]
      modifies this
      ensures Valid() && system == After(old(system), if item.Durable? then Publish else Emit(item.tag))
      ensures queue == if |old(queue)| < QUEUE_SIZE then old(queue) + [item] else old(queue)
    {
      hide Inv;
      StepHolds(system, if item.Durable? then Publish else Emit(item.tag));
      if |queue| < QUEUE_SIZE { queue := queue + [item]; }
      system := After(system, if item.Durable? then Publish else Emit(item.tag));
    }

    /** Loads the durable rows above the resume id and sends them all. */
    method Replay(rows: seq<nat>)
      requires Valid() && system.phase.Subscribed? && rows == First(Above(system.committed, system.after), REPLAY_LIMIT)
      modifies this
      ensures Valid() && system.phase.Live? && system.replay == rows && queue == old(queue)
      ensures Ids(sent) == rows && Tags(sent) == []
    {
      hide Inv;
      NothingSent(system);
      StepHolds(system, Load);
      system := After(system, Load);
      var i := 0;
      while i < |rows|
        invariant 0 <= i <= |rows| && Valid() && system.phase.Replaying? && system.replay == rows && system.done == i
        invariant queue == old(queue) && system.taken == []
      {
        StepHolds(system, SendRow);
        if rows[i] > high { high := rows[i]; }
        sent := sent + [Durable(rows[i])];
        system := After(system, SendRow);
        i := i + 1;
      }
      StepHolds(system, SendRow);
      system := After(system, SendRow);
      ReplayIsSent(system);
    }

    /** Takes one item and sends it unless the replay has covered it. */
    method Deliver()
      requires Valid() && system.phase.Live? && queue != []
      modifies this
      ensures Valid() && system == After(old(system), Step.Deliver) && queue == old(queue)[1..]
      ensures sent == old(sent) + if old(queue)[0].Durable? && old(queue)[0].id <= high then [] else [old(queue)[0]]
    {
      hide Inv;
      StepHolds(system, Step.Deliver);
      var item := queue[0];
      queue := queue[1..];
      system := After(system, Step.Deliver);
      if item.Durable? && item.id <= high { return; }
      sent := sent + [item];
    }
  }

  lemma {:induction false} NothingSent(s: System)
    requires Inv(s) && s.phase.Subscribed?
    ensures s.done == 0 && s.taken == [] && s.sent == []
  {
  }

  lemma {:induction false} ReplayIsSent(s: System)
    requires Inv(s) && s.phase.Live? && s.taken == []
    ensures Ids(s.sent) == s.replay && Tags(s.sent) == []
  {
  }
}
