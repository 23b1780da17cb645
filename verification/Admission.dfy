/** HTTP admission control: a bounded first-in first-out queue with two classes
    of tickets and a sub-limit for media, and the life of a request's ticket.
    Tickets are numbered in order of arrival and referred to by number. */
module Admission {

  datatype Option<+T> = None | Some(value: T)

  datatype Future = Pending | Granted | TimedOut

  datatype Ticket = Ticket(media: bool, future: Future, admitted: bool, released: bool) {
    predicate Holds() { admitted && !released }

    predicate Waits() { !admitted && !released }
  }

  datatype Limits = Limits(active: nat, media: nat, queue: nat)

  /** A reference to a ticket, with the one attribute that never changes. */
  datatype Waiter = Waiter(number: nat, media: bool)

  // ----- one pass over the queue, as a function -----

  /** Who gets in, and who is left. */
  datatype Passage = Passage(admitted: seq<Waiter>, left: seq<Waiter>)

  predicate Admissible(media: bool, activeTaken: nat, mediaTaken: nat, limits: Limits) {
    activeTaken < limits.active && !(media && mediaTaken >= limits.media)
  }

  function Share(w: Waiter): nat { if w.media then 1 else 0 }

  function MediaCount(ws: seq<Waiter>): nat {
    if ws == [] then 0 else Share(ws[0]) + MediaCount(ws[1..])
  }

  function Pass(waiters: seq<Waiter>, active: nat, media: nat, limits: Limits): Passage {
    if waiters == [] || active >= limits.active then Passage([], waiters)
    else if Admissible(waiters[0].media, active, media, limits) then
      var rest := Pass(waiters[1..], active + 1, media + Share(waiters[0]), limits);
      Passage([waiters[0]] + rest.admitted, rest.left)
    else
      var rest := Pass(waiters[1..], active, media, limits);
      Passage(rest.admitted, [waiters[0]] + rest.left)
  }

  /** One pass reaches the fixpoint, within both limits. */
  lemma {:induction false} PassSettles(waiters: seq<Waiter>, active: nat, media: nat, limits: Limits)
    requires active <= limits.active && media <= limits.media
    ensures var p := Pass(waiters, active, media, limits);
            var active', media' := active + |p.admitted|, media + MediaCount(p.admitted);
            && active' <= limits.active && media' <= limits.media
            && (forall w :: w in p.left ==> !Admissible(w.media, active', media', limits))
  {
    if waiters != [] && active < limits.active {
      if Admissible(waiters[0].media, active, media, limits) {
        PassSettles(waiters[1..], active + 1, media + Share(waiters[0]), limits);
      } else {
        PassSettles(waiters[1..], active, media, limits);
      }
    }
  }

  lemma {:induction false} PassMembers(waiters: seq<Waiter>, active: nat, media: nat, limits: Limits)
    ensures var p := Pass(waiters, active, media, limits);
            (forall w :: w in p.left ==> w in waiters) && (forall w :: w in p.admitted ==> w in waiters)
  {
    if waiters != [] && active < limits.active {
      assert waiters == [waiters[0]] + waiters[1..];
      if Admissible(waiters[0].media, active, media, limits) {
        PassMembers(waiters[1..], active + 1, media + Share(waiters[0]), limits);
      } else {
        PassMembers(waiters[1..], active, media, limits);
      }
    }
  }

  lemma {:induction false} PassWithoutMedia(waiters: seq<Waiter>, active: nat, media: nat, limits: Limits)
    requires media >= limits.media
    ensures var p := Pass(waiters, active, media, limits);
            MediaCount(p.admitted) == 0 && forall w :: w in p.admitted ==> !w.media
  {
    if waiters != [] && active < limits.active {
      if Admissible(waiters[0].media, active, media, limits) {
        PassWithoutMedia(waiters[1..], active + 1, media + Share(waiters[0]), limits);
      } else {
        PassWithoutMedia(waiters[1..], active, media, limits);
      }
    }
  }

  ghost predicate InLine(ws: seq<Waiter>) {
    forall i, j :: 0 <= i < j < |ws| ==> ws[i].number < ws[j].number
  }

  /** Who is left behind by a later arrival is media, the later one is not, and
      the media places are all taken; everybody else enters strictly in order. */
  lemma {:induction false} PassKeepsOrder(waiters: seq<Waiter>, active: nat, media: nat, limits: Limits, i: nat, j: nat)
    requires i < j < |waiters| && media <= limits.media && InLine(waiters)
    requires waiters[i] in Pass(waiters, active, media, limits).left
             && waiters[j] in Pass(waiters, active, media, limits).admitted
    ensures waiters[i].media && !waiters[j].media
    ensures media + MediaCount(Pass(waiters, active, media, limits).admitted) == limits.media
  {
    hide Pass, MediaCount, InLine;
    var rest := waiters[1..];
    assert waiters[0..] == waiters;
    HeadApart(waiters);
    assert waiters[j] == rest[j - 1] && rest[j - 1] in rest;
    if i > 0 { assert waiters[i] == rest[i - 1] && rest[i - 1] in rest; }
    if active < limits.active {
      PassStep(waiters, 0, active, media, limits);
      if Admissible(waiters[0].media, active, media, limits) {
        PassMembers(rest, active + 1, media + Share(waiters[0]), limits);
        MediaCountCons(waiters[0], Pass(rest, active + 1, media + Share(waiters[0]), limits).admitted);
        PassKeepsOrder(rest, active + 1, media + Share(waiters[0]), limits, i - 1, j - 1);
      } else {
        PassMembers(rest, active, media, limits);
        if i == 0 { PassWithoutMedia(rest, active, media, limits); }
        else { PassKeepsOrder(rest, active, media, limits, i - 1, j - 1); }
      }
    } else {
      PassEnds(waiters, active, media, limits);
    }
  }

  lemma {:induction false} HeadApart(ws: seq<Waiter>)
    requires ws != [] && InLine(ws)
    ensures InLine(ws[1..]) && forall w :: w in ws[1..] ==> w != ws[0]
  {
  }

  lemma {:induction false} MediaCountCons(w: Waiter, ws: seq<Waiter>)
    ensures MediaCount([w] + ws) == Share(w) + MediaCount(ws)
  {
  }

  // ----- counting -----

  function Held(ts: seq<Ticket>, mediaOnly: bool): nat {
    if ts == [] then 0
    else Held(ts[..|ts| - 1], mediaOnly) + Place(ts[|ts| - 1], mediaOnly)
  }

  function Place(t: Ticket, mediaOnly: bool): nat { if t.Holds() && (mediaOnly ==> t.media) then 1 else 0 }

  lemma {:induction false} HeldUpdate(ts: seq<Ticket>, n: nat, t: Ticket, mediaOnly: bool)
    requires n < |ts|
    ensures Held(ts[n := t], mediaOnly) == Held(ts, mediaOnly) - Place(ts[n], mediaOnly) + Place(t, mediaOnly)
  {
    var front := ts[..|ts| - 1];
    if n < |front| {
      HeldUpdate(front, n, t, mediaOnly);
      assert ts[n := t][..|ts| - 1] == front[n := t];
    } else {
      assert ts[n := t][..|ts| - 1] == front;
    }
  }

  lemma {:induction false} HeldPush(ts: seq<Ticket>, t: Ticket, mediaOnly: bool)
    ensures Held(ts + [t], mediaOnly) == Held(ts, mediaOnly) + Place(t, mediaOnly)
  {
  }

  // ----- the queue -----

  function Without(ws: seq<Waiter>, k: nat): seq<Waiter>
    requires k < |ws|
  {
    ws[..k] + ws[k + 1..]
  }

  /** The queue without the first occurrence of a waiter. */
  function Removed(ws: seq<Waiter>, w: Waiter): seq<Waiter> {
    if ws == [] then [] else if ws[0] == w then ws[1..] else [ws[0]] + Removed(ws[1..], w)
  }

  lemma {:induction false} RemovedIsWithout(ws: seq<Waiter>, k: nat)
    requires k < |ws| && InLine(ws)
    ensures Removed(ws, ws[k]) == Without(ws, k)
  {
    if k > 0 {
      RemovedIsWithout(ws[1..], k - 1);
      assert Without(ws, k) == [ws[0]] + Without(ws[1..], k - 1);
    }
  }

  lemma {:induction false} WithoutOne(ws: seq<Waiter>, k: nat)
    requires k < |ws| && InLine(ws)
    ensures InLine(Without(ws, k)) && |Without(ws, k)| == |ws| - 1
    ensures forall w :: w in Without(ws, k) <==> w in ws && w.number != ws[k].number
  {
  }

  /** The queue is in order of arrival and holds exactly the undecided tickets,
      and a ticket's future says whether it was admitted. */
  ghost predicate Lined(ts: seq<Ticket>, ws: seq<Waiter>) {
    && InLine(ws)
    && (forall w :: w in ws ==> w.number < |ts| && ts[w.number].media == w.media && ts[w.number].Waits())
    && (forall n :: 0 <= n < |ts| && ts[n].Waits() ==> Waiter(n, ts[n].media) in ws)
    && (forall n :: 0 <= n < |ts| ==> (ts[n].admitted <==> ts[n].future.Granted?))
  }

  /** Nobody who waits has been answered. */
  ghost predicate Unanswered(ts: seq<Ticket>) {
    forall n :: 0 <= n < |ts| && ts[n].Waits() ==> ts[n].future.Pending?
  }

  /** Whoever still waits while a later arrival has been admitted is media, and
      the later one is not. */
  ghost predicate InOrder(ts: seq<Ticket>) {
    forall m, n :: 0 <= m < n < |ts| && ts[m].Waits() && ts[n].admitted ==> ts[m].media && !ts[n].media
  }

  /** All of these are media, and the media places are taken. */
  ghost predicate Blocked(ws: seq<Waiter>, media: nat, limits: Limits) {
    (forall i :: 0 <= i < |ws| ==> ws[i].media) && (ws != [] ==> media >= limits.media)
  }

  lemma {:induction false} BlockedNone(media: nat, limits: Limits)
    ensures Blocked([], media, limits)
  {
  }

  lemma {:induction false} BlockedMore(ws: seq<Waiter>, w: Waiter, media: nat, limits: Limits)
    requires Blocked(ws, media, limits) && w.media && media >= limits.media
    ensures Blocked(ws + [w], media, limits)
  {
  }

  lemma {:induction false} BlockedStays(ws: seq<Waiter>, media: nat, more: nat, limits: Limits)
    requires Blocked(ws, media, limits)
    ensures Blocked(ws, media + more, limits)
  {
  }

  function Granting(t: Ticket): Ticket { t.(admitted := true, future := Granted) }

  lemma {:induction false} DecidedLeaves(ts: seq<Ticket>, ws: seq<Waiter>, k: nat, t: Ticket)
    requires Lined(ts, ws) && k < |ws|
    requires !t.Waits() && (t.admitted <==> t.future.Granted?)
    ensures Lined(ts[ws[k].number := t], Without(ws, k))
  {
  }

  lemma {:induction false} GrantedInOrder(ts: seq<Ticket>, ws: seq<Waiter>, k: nat)
    requires Lined(ts, ws) && InOrder(ts) && k < |ws|
    requires forall i :: 0 <= i < k ==> ws[i].media && !ws[k].media
    ensures InOrder(ts[ws[k].number := Granting(ts[ws[k].number])])
  {
  }

  class Admission {
    const limits: Limits
    var active: nat
    var media: nat
    var accepted: nat
    var rejected: nat
    var waiters: seq<Waiter>
    var closed: bool
    /** Every ticket ever queued, in order of arrival. */
    var tickets: seq<Ticket>

    constructor (limits: Limits)
      ensures Valid() && !closed && this.limits == limits && tickets == [] && waiters == []
    {
      this.limits := limits;
      active, media, accepted, rejected, waiters, closed, tickets := 0, 0, 0, 0, [], false, [];
    }

    /** Both counters equal the tickets that were admitted and not released and
        stay within their limits, and the queue is bounded. */
    ghost predicate Consistent()
      reads this
    {
      && Lined(tickets, waiters) && InOrder(tickets) && |waiters| <= limits.queue && (!closed ==> Unanswered(tickets))
      && active == Held(tickets, false) <= limits.active && media == Held(tickets, true) <= limits.media
    }

    ghost predicate Settled()
      reads this
    {
      forall w :: w in waiters ==> !Admissible(w.media, active, media, limits)
    }

    /** What holds between any two operations. */
    ghost predicate Valid()
      reads this
    {
      Consistent() && (if closed then waiters == [] else Settled())
    }

    /** A request that is not media waits only while every place is taken, and
        then at least the places that media cannot have are not held by media. */
    lemma {:induction false} ReservedCapacity(w: Waiter)
      requires Valid() && !closed && w in waiters && !w.media
      ensures Held(tickets, false) == limits.active
      ensures Held(tickets, false) - Held(tickets, true) >= limits.active - limits.media
    {
    }

    /** Lets one waiter in. */
    method Admit(w: Waiter, ghost k: nat)
      requires Consistent() && !closed && k < |waiters| && w == waiters[k]
               && Admissible(waiters[k].media, active, media, limits)
      requires Blocked(waiters[..k], media, limits)
      modifies this`waiters, this`tickets, this`active, this`media, this`accepted
      ensures Consistent()
      ensures waiters == Without(old(waiters), k) && active == old(active) + 1
              && media == old(media) + Share(old(waiters[k]))
      ensures accepted == old(accepted) + 1
      ensures var n := old(waiters[k]).number;
              n < |old(tickets)| && tickets == old(tickets)[n := Granting(old(tickets)[n])]
    {
      hide Without, InLine, Lined, InOrder, Held;
      AtHand(tickets, waiters, k);
      LinedIsInLine(tickets, waiters);
      RemovedIsWithout(waiters, k);
      DecidedLeaves(tickets, waiters, k, Granting(tickets[w.number]));
      GrantedInOrder(tickets, waiters, k);
      assert tickets[w.number].future.Pending?;
      HeldUpdate(tickets, w.number, Granting(tickets[w.number]), true);
      HeldUpdate(tickets, w.number, Granting(tickets[w.number]), false);
      WithoutOne(waiters, k);
      waiters := Removed(waiters, w);
      tickets := tickets[w.number := Granting(tickets[w.number])];
      active := active + 1;
      media := media + Share(w);
      accepted := accepted + 1;
    }

    /** Lets in every waiter there is room for, in one pass over a snapshot. */
    method Drain()
      requires Consistent()
      modifies this`waiters, this`tickets, this`active, this`media, this`accepted
      ensures Consistent() && (!closed ==> Settled())
      ensures closed ==>
                waiters == old(waiters) && tickets == old(tickets) && active == old(active) && media == old(media)
      ensures !closed ==>
                var p := Pass(old(waiters), old(active), old(media), limits);
                waiters == p.left && active == old(active) + |p.admitted|
                  && media == old(media) + MediaCount(p.admitted)
      ensures Grants(old(tickets), tickets)
    {
      hide Without, InLine, Lined, InOrder, Held, Pass, Removed, MediaCount, Ahead, Grants, Blocked;
      GrantsNothing(tickets);
      BlockedNone(media, limits);
      AheadStarts(Pass(waiters, active, media, limits));
      if closed { return; }
      var pending, i := waiters, 0;
      ghost var kept: seq<Waiter>, admitted: seq<Waiter> := [], [];
      MediaCountNone();
      while i < |pending|
        invariant 0 <= i <= |pending| && Consistent() && !closed
        invariant waiters == kept + pending[i..]
        invariant Blocked(kept, media, limits)
        invariant Ahead(Pass(pending, old(active), old(media), limits), admitted, kept,
                  Pass(pending[i..], active, media, limits))
        invariant active == old(active) + |admitted| && media == old(media) + MediaCount(admitted)
        invariant Grants(old(tickets), tickets)
      {
        if active >= limits.active { break; }
        var w := pending[i];
        PassStep(pending, i, active, media, limits);
        NextInLine(kept, pending, i);
        if w.media && media >= limits.media {
          AheadKeeps(Pass(pending, old(active), old(media), limits), admitted, kept, w,
                     Pass(pending[i + 1..], active, media, limits));
          BlockedMore(kept, w, media, limits);
          kept := kept + [w];
          i := i + 1;
          continue;
        }
        AtHand(tickets, waiters, |kept|);
        assert waiters[..|kept|] == kept;
        AheadAdmits(Pass(pending, old(active), old(media), limits), admitted, kept, w,
                    Pass(pending[i + 1..], active + 1, media + Share(w), limits));
        GrantsMore(old(tickets), tickets, w.number);
        BlockedStays(kept, media, Share(w), limits);
        Admit(w, |kept|);
        MediaCountPush(admitted, w);
        admitted := admitted + [w];
        i := i + 1;
      }
      PassEnds(pending[i..], active, media, limits);
      AheadEnds(Pass(pending, old(active), old(media), limits), admitted, kept, pending[i..]);
      PassSettles(pending, old(active), old(media), limits);
    }

    /** The first half of acquire: refuse at once, or queue a new ticket. */
    method Arrive(isMedia: bool) returns (w: Option<Waiter>)
      requires Valid()
      modifies this
      ensures Valid() && closed == old(closed)
      ensures w.None? <==> old(closed) || |old(waiters)| >= limits.queue
      ensures w.None? ==>
                tickets == old(tickets) && waiters == old(waiters) && active == old(active)
                && rejected == old(rejected) + 1
      ensures w.Some? ==> w.value == Waiter(|old(tickets)|, isMedia) && rejected == old(rejected)
                          && Grants(old(tickets) + [Ticket(isMedia, Pending, false, false)], tickets)
      ensures w.Some? ==> var p := Pass(old(waiters) + [w.value], old(active), old(media), limits);
                          waiters == p.left && active == old(active) + |p.admitted|
                            && media == old(media) + MediaCount(p.admitted)
    {
      hide Held, InOrder, Lined, Pass, Grants;
      if closed || |waiters| >= limits.queue {
        rejected := rejected + 1;
        return None;
      }
      var ticket := Ticket(isMedia, Pending, false, false);
      ArrivalJoins(tickets, waiters, ticket);
      HeldPush(tickets, ticket, true);
      HeldPush(tickets, ticket, false);
      w := Some(Waiter(|tickets|, isMedia));
      tickets := tickets + [ticket];
      waiters := waiters + [w.value];
      Drain();
    }

    /** Gives a ticket back, once: a place is freed only if it was held, and a
        second release changes nothing. */
    method Release(w: Waiter)
      requires Consistent() && (!closed ==> Settled())
      requires w.number < |tickets| && tickets[w.number].media == w.media
      modifies this`waiters, this`tickets, this`active, this`media, this`accepted
      ensures Consistent() && (!closed ==> Settled())
      ensures old(tickets)[w.number].released ==>
                tickets == old(tickets) && waiters == old(waiters) && active == old(active) && media == old(media)
      ensures closed ==> waiters == Removed(old(waiters), w)
      ensures Grants(old(tickets)[w.number := old(tickets)[w.number].(released := true)], tickets)
      ensures closed ==> tickets == old(tickets)[w.number := old(tickets)[w.number].(released := true)]
                         && active == old(active) - Place(old(tickets)[w.number], false)
                         && media == old(media) - Place(old(tickets)[w.number], true)
    {
      hide Held, InOrder, Lined, Grants, Removed, Without, InLine;
      var t := tickets[w.number];
      GrantsNothing(tickets);
      if t.released {
        assert tickets[w.number := t] == tickets;
        ReleasedIsGone(tickets, waiters, w);
        return;
      }
      var gone := t.(released := true);
      ReleaseKeeps(tickets, waiters, w, gone);
      HeldUpdate(tickets, w.number, gone, true);
      HeldUpdate(tickets, w.number, gone, false);
      tickets := tickets[w.number := gone];
      if w in waiters {
        waiters := Removed(waiters, w);
      }
      if t.admitted {
        active := active - 1;
        media := media - Share(w);
      }
      Drain();
    }

    /** Fails every waiter; nobody is queued afterwards. */
    method Close()
      requires Valid()
      modifies this
      ensures Valid() && closed && waiters == [] && active == old(active) && media == old(media)
      ensures |tickets| == |old(tickets)|
      ensures forall n :: 0 <= n < |tickets| ==>
                tickets[n] == if old(tickets)[n].Waits() then old(tickets)[n].(future := TimedOut, released := true)
                  else old(tickets)[n]
    {
      hide Held, InOrder, Lined, Removed, Grants;
      closed := true;
      var pending, i := waiters, 0;
      LinedIsInLine(tickets, waiters);
      WaitersWait(tickets, waiters);
      while i < |pending|
        invariant 0 <= i <= |pending| && closed && Consistent() && waiters == pending[i..]
        invariant active == old(active) && media == old(media) && |tickets| == |old(tickets)|
        invariant forall n :: 0 <= n < |tickets| ==>
                    tickets[n] == if old(tickets)[n].Waits() && Waiter(n, old(tickets)[n].media) !in pending[i..]
                                  then Failing(old(tickets)[n]) else old(tickets)[n]
      {
        var w := pending[i];
        AtHand(tickets, waiters, 0);
        RemovedHead(pending, i);
        assert tickets[w.number].future.Pending?;
        var failed := tickets[w.number].(future := TimedOut);
        FailedKeeps(tickets, waiters, w.number, failed);
        HeldUpdate(tickets, w.number, failed, true);
        HeldUpdate(tickets, w.number, failed, false);
        tickets := tickets[w.number := failed];
        Release(w);
        i := i + 1;
      }
    }

    /** Any operations of other requests while this one is suspended: they queue
        tickets, release any ticket but this one, or close the queue. */
    method OtherTasks(mine: Waiter)
      requires Valid() && Knows(mine)
      modifies this
      ensures Valid() && Knows(mine) && MayBecome(old(tickets)[mine.number], tickets[mine.number])
    {
      hide Consistent, Settled, Grants, Pass, Removed, MediaCount;
      var steps: nat := *;
      while steps > 0
        invariant Valid() && Knows(mine) && MayBecome(old(tickets)[mine.number], tickets[mine.number])
      {
        ghost var before := tickets;
        var op: nat, number: nat := *, *;
        if op == 0 {
          var isMedia: bool := *;
          var w := Arrive(isMedia);
          if w.Some? { GrantsOne(before + [Ticket(isMedia, Pending, false, false)], tickets, mine.number); }
        } else if op == 1 && number < |tickets| && number != mine.number {
          Released(Waiter(number, tickets[number].media));
          GrantsOne(before[number := before[number].(released := true)], tickets, mine.number);
        } else if op == 2 {
          Close();
        }
        steps := steps - 1;
      }
    }

    /** A release between operations. */
    method Released(w: Waiter)
      requires Valid() && Knows(w)
      modifies this`waiters, this`tickets, this`active, this`media, this`accepted
      ensures Valid() && Knows(w) && tickets[w.number].released
      ensures Grants(old(tickets)[w.number := old(tickets)[w.number].(released := true)], tickets)
      ensures old(tickets)[w.number].released ==>
                tickets == old(tickets) && active == old(active) && media == old(media)
    {
      hide Consistent, Settled, Pass, MediaCount;
      Release(w);
    }

    ghost predicate Knows(w: Waiter)
      reads this
    {
      w.number < |tickets| && tickets[w.number].media == w.media
    }

    /** A request that arrives now is let in at once. */
    ghost predicate Room(isMedia: bool)
      reads this
    {
      !closed && |waiters| < limits.queue && active < limits.active && (isMedia ==> media < limits.media)
    }

    /** Waits until the ticket is granted, or until the time is up, the request
        is cancelled or the queue closes; in those cases the ticket is released,
        even when it was granted at the same moment.  `inTime` says that neither
        the clock nor a cancellation ends the wait.  A ticket that is granted on
        arrival is returned in any case. */
    method Acquire(isMedia: bool, inTime: bool) returns (w: Option<Waiter>, ghost mine: Option<Waiter>)
      requires Valid()
      modifies this
      ensures Valid()
      ensures mine.None? <==> old(closed) || |old(waiters)| >= limits.queue
      ensures old(Room(isMedia)) ==> w.Some?
      ensures w.Some? ==> w.value.media == isMedia
      ensures w.Some? ==> mine == w && Knows(w.value) && tickets[w.value.number].Holds()
      ensures w.None? && mine.Some? ==> Knows(mine.value) && tickets[mine.value.number].released
                                        && (inTime ==> !tickets[mine.value.number].future.Granted?)
    {
      hide Lined, InOrder, Held, Pass, MediaCount, Grants;
      ghost var before := tickets;
      w := Arrive(isMedia);
      mine := w;
      if w.None? { return; }
      GrantsOne(before + [Ticket(isMedia, Pending, false, false)], tickets, w.value.number);
      if old(Room(isMedia)) {
        Numbered(old(tickets), old(waiters));
        LetInAtOnce(old(waiters), w.value, old(active), old(media));
      }
      if tickets[w.value.number].future.Granted? {
        GrantedIsAdmitted(w.value);
        return;
      }
      OtherTasks(w.value);
      if tickets[w.value.number].future.Granted? && inTime {
        GrantedIsAdmitted(w.value);
        return;
      }
      ghost var waited := tickets;
      Released(w.value);
      GrantsOne(waited[w.value.number := waited[w.value.number].(released := true)], tickets, w.value.number);
      rejected := rejected + 1;
      w := None;
    }

    /** Nobody else in the queue can be let in, so a new arrival is, if there is room. */
    lemma {:induction false} LetInAtOnce(ws: seq<Waiter>, w: Waiter, taken: nat, mediaTaken: nat)
      requires Valid() && w.number < |tickets| && tickets[w.number].media == w.media && !tickets[w.number].released
      requires forall v :: v in ws ==> !Admissible(v.media, taken, mediaTaken, limits) && v.number != w.number
      requires Admissible(w.media, taken, mediaTaken, limits)
      requires waiters == Pass(ws + [w], taken, mediaTaken, limits).left
      ensures tickets[w.number].future.Granted?
    {
      hide Pass, InOrder, Held;
      PassTakesLast(ws, w, taken, mediaTaken, limits);
      WaitersWait(tickets, waiters);
    }

    lemma {:induction false} GrantedIsAdmitted(w: Waiter)
      requires Valid() && Knows(w) && tickets[w.number].future.Granted?
      ensures tickets[w.number].admitted
    {
    }

    /** A request from its arrival to its end: refused, abandoned by the client,
        or answered by an application that starts any number of responses and may
        fail.  However it ends, its ticket no longer holds a place. */
    method Serve(isMedia: bool, inTime: bool, leaves: bool, fails: bool)
      returns (outcome: Outcome, ghost mine: Option<Waiter>)
      requires Valid()
      modifies this
      ensures Valid()
      ensures leaves ==> outcome.Abandoned?
      ensures !leaves ==> !outcome.Abandoned? && (old(Room(isMedia)) ==> outcome == if fails then Failed else Answered)
      ensures !leaves && mine.None? ==> outcome.Busy?
      ensures mine.Some? ==> Knows(mine.value) && tickets[mine.value.number].released
      ensures outcome.Answered? || outcome.Failed? ==> mine.Some?
    {
      hide Consistent, Settled, Pass, MediaCount, Grants;
      var responses: nat := *;
      var w;
      w, mine := Acquire(isMedia, inTime);
      if w.None? { return if leaves then Abandoned else Busy, mine; }
      if leaves {
        OtherTasks(w.value);
        Released(w.value);
        return Abandoned, mine;
      }
      while responses > 0
        invariant Valid() && Knows(w.value)
      {
        OtherTasks(w.value);
        Released(w.value);
        responses := responses - 1;
      }
      OtherTasks(w.value);
      Released(w.value);
      Released(w.value);
      outcome := if fails then Failed else Answered;
    }
  }

  datatype Outcome = Busy | Abandoned | Answered | Failed

  lemma {:induction false} Numbered(ts: seq<Ticket>, ws: seq<Waiter>)
    requires Lined(ts, ws)
    ensures forall v :: v in ws ==> v.number < |ts|
  {
  }

  lemma {:induction false} PassTakesLast(ws: seq<Waiter>, w: Waiter, active: nat, media: nat, limits: Limits)
    requires forall v :: v in ws ==> !Admissible(v.media, active, media, limits)
    requires Admissible(w.media, active, media, limits)
    ensures Pass(ws + [w], active, media, limits) == Passage([w], ws)
  {
    if ws == [] {
      assert [] + [w] == [w] && [w][1..] == [];
    } else {
      assert (ws + [w])[1..] == ws[1..] + [w] && ws == [ws[0]] + ws[1..];
      PassTakesLast(ws[1..], w, active, media, limits);
    }
  }

  /** What the rest of the world may do to a ticket it does not own. */
  ghost predicate MayBecome(t: Ticket, t': Ticket) {
    t' == t || (t.Waits() && (t' == Granting(t) || t' == Failing(t)))
  }

  lemma {:induction false} GrantsOne(ts: seq<Ticket>, ts': seq<Ticket>, n: nat)
    requires Grants(ts, ts') && n < |ts|
    ensures |ts'| == |ts| && MayBecome(ts[n], ts'[n]) && ts'[n].released == ts[n].released
  {
  }

  /** Queueing a new ticket behind everybody else. */
  lemma {:induction false} ArrivalJoins(ts: seq<Ticket>, ws: seq<Waiter>, t: Ticket)
    requires Lined(ts, ws) && InOrder(ts) && t.Waits() && t.future.Pending?
    ensures Lined(ts + [t], ws + [Waiter(|ts|, t.media)]) && InOrder(ts + [t])
  {
  }

  lemma {:induction false} WaitersWait(ts: seq<Ticket>, ws: seq<Waiter>)
    requires Lined(ts, ws)
    ensures forall n :: 0 <= n < |ts| && ts[n].Waits() ==> Waiter(n, ts[n].media) in ws
  {
  }

  lemma {:induction false} RemovedHead(ws: seq<Waiter>, i: nat)
    requires i < |ws| && InLine(ws)
    ensures Removed(ws[i..], ws[i]) == ws[i + 1..] && forall w :: w in ws[i..] <==> w in ws[i + 1..] || w == ws[i]
    ensures ws[i] !in ws[i + 1..]
  {
  }

  function Failing(t: Ticket): Ticket { t.(future := TimedOut, released := true) }

  lemma {:induction false} FailedKeeps(ts: seq<Ticket>, ws: seq<Waiter>, n: nat, t: Ticket)
    requires Lined(ts, ws) && InOrder(ts) && n < |ts| && ts[n].Waits() && t == ts[n].(future := TimedOut)
    ensures Lined(ts[n := t], ws) && InOrder(ts[n := t])
  {
  }

  lemma {:induction false} ReleasedIsGone(ts: seq<Ticket>, ws: seq<Waiter>, w: Waiter)
    requires Lined(ts, ws) && w.number < |ts| && ts[w.number].released
    ensures Removed(ws, w) == ws
  {
    RemovedAbsent(ws, w);
  }

  lemma {:induction false} ReleaseKeeps(ts: seq<Ticket>, ws: seq<Waiter>, w: Waiter, t: Ticket)
    requires Lined(ts, ws) && InOrder(ts) && w.number < |ts| && w.media == ts[w.number].media
    requires !ts[w.number].released && t == ts[w.number].(released := true)
    ensures Lined(ts[w.number := t], if w in ws then Removed(ws, w) else ws) && InOrder(ts[w.number := t])
    ensures w in ws <==> !ts[w.number].admitted
    ensures |Removed(ws, w)| <= |ws| && forall v :: v in Removed(ws, w) ==> v in ws
    ensures w !in ws ==> Removed(ws, w) == ws
  {
    hide InLine, Without, Removed;
    if w in ws {
      var k :| 0 <= k < |ws| && ws[k] == w;
      LinedIsInLine(ts, ws);
      RemovedIsWithout(ws, k);
      WithoutOne(ws, k);
      DecidedLeaves(ts, ws, k, t);
    } else {
      RemovedAbsent(ws, w);
    }
  }

  lemma {:induction false} RemovedAbsent(ws: seq<Waiter>, w: Waiter)
    requires w !in ws
    ensures Removed(ws, w) == ws
  {
    if ws != [] { RemovedAbsent(ws[1..], w); }
  }

  /** A whole pass, when these have been dealt with and that pass remains. */
  ghost predicate Ahead(whole: Passage, admitted: seq<Waiter>, kept: seq<Waiter>, rest: Passage) {
    whole.admitted == admitted + rest.admitted && whole.left == kept + rest.left
  }

  lemma {:induction false} AheadStarts(whole: Passage)
    ensures Ahead(whole, [], [], whole)
  {
  }

  lemma {:induction false} AheadAdmits(whole: Passage, admitted: seq<Waiter>, kept: seq<Waiter>, w: Waiter,
                                       rest: Passage)
    requires Ahead(whole, admitted, kept, Passage([w] + rest.admitted, rest.left))
    ensures Ahead(whole, admitted + [w], kept, rest)
  {
  }

  lemma {:induction false} AheadKeeps(whole: Passage, admitted: seq<Waiter>, kept: seq<Waiter>, w: Waiter,
                                      rest: Passage)
    requires Ahead(whole, admitted, kept, Passage(rest.admitted, [w] + rest.left))
    ensures Ahead(whole, admitted, kept + [w], rest)
  {
  }

  lemma {:induction false} AheadEnds(whole: Passage, admitted: seq<Waiter>, kept: seq<Waiter>, rest: seq<Waiter>)
    requires Ahead(whole, admitted, kept, Passage([], rest))
    ensures whole == Passage(admitted, kept + rest)
  {
  }

  lemma {:induction false} MediaCountNone()
    ensures MediaCount([]) == 0
  {
  }

  lemma {:induction false} NextInLine(kept: seq<Waiter>, pending: seq<Waiter>, i: nat)
    requires i < |pending|
    ensures kept + pending[i..] == kept + [pending[i]] + pending[i + 1..]
    ensures Without(kept + pending[i..], |kept|) == kept + pending[i + 1..]
  {
  }

  lemma {:induction false} PassStep(pending: seq<Waiter>, i: nat, active: nat, media: nat, limits: Limits)
    requires i < |pending| && active < limits.active
    ensures Pass(pending[i..], active, media, limits) ==
            if Admissible(pending[i].media, active, media, limits) then
              var q := Pass(pending[i + 1..], active + 1, media + Share(pending[i]), limits);
              Passage([pending[i]] + q.admitted, q.left)
            else
              var q := Pass(pending[i + 1..], active, media, limits);
              Passage(q.admitted, [pending[i]] + q.left)
  {
  }

  lemma {:induction false} PassEnds(rest: seq<Waiter>, active: nat, media: nat, limits: Limits)
    requires rest == [] || active >= limits.active
    ensures Pass(rest, active, media, limits) == Passage([], rest)
  {
  }

  lemma {:induction false} LinedIsInLine(ts: seq<Ticket>, ws: seq<Waiter>)
    requires Lined(ts, ws)
    ensures InLine(ws)
  {
  }

  lemma {:induction false} AtHand(ts: seq<Ticket>, ws: seq<Waiter>, k: nat)
    requires Lined(ts, ws) && k < |ws|
    ensures ws[k].number < |ts| && ts[ws[k].number].media == ws[k].media && ts[ws[k].number].Waits()
  {
  }

  lemma {:induction false} MediaCountPush(ws: seq<Waiter>, w: Waiter)
    ensures MediaCount(ws + [w]) == MediaCount(ws) + Share(w)
  {
    if ws != [] {
      MediaCountPush(ws[1..], w);
      assert (ws + [w])[1..] == ws[1..] + [w];
    }
  }

  /** Some waiting tickets have been granted, and nothing else has changed. */
  ghost predicate Grants(ts: seq<Ticket>, ts': seq<Ticket>) {
    |ts'| == |ts| && forall n :: 0 <= n < |ts| ==> ts'[n] == ts[n] || (ts[n].Waits() && ts'[n] == Granting(ts[n]))
  }

  lemma {:induction false} GrantsNothing(ts: seq<Ticket>)
    ensures Grants(ts, ts)
  {
  }

  lemma {:induction false} GrantsMore(ts: seq<Ticket>, ts': seq<Ticket>, n: nat)
    requires Grants(ts, ts') && n < |ts'| && ts'[n].Waits()
    ensures Grants(ts, ts'[n := Granting(ts'[n])])
  {
  }
}
