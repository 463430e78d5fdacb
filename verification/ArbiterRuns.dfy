/** What holds along whole runs of the arbiter: exclusion, fences, bounded overtaking and
    the life of a lease. */
module ArbiterRuns {
  import opened Common
  import opened ArbiterPolicy
  import opened ArbiterSystem
  import opened ArbiterInvariant

  // ---- exclusion and accounting ----------------------------------------------

  /** In every reachable state at most one kind of lease is held, within its limits, and
      none of a class that an active barrier blocks; and every request is accounted for. */
  lemma RunExclusion(run: seq<System>, evs: seq<Event>, k: nat)
    requires IsRun(run, evs) && k < |run|
    ensures var c := run[k].core;
      && (c.sessions != [] ==> c.oneshot.None? && c.transports == [])
      && (c.oneshot.Some? ==> c.sessions == [] && c.transports == [])
      && |c.sessions| <= c.opts.maxSessions
      && ((exists i :: 0 <= i < |c.transports| && c.transports[i].ticket.scope == Exclusive) ==> |c.transports| == 1)
      && ((forall i :: 0 <= i < |c.transports| ==> c.transports[i].ticket.scope == QMIChannel) ==>
            |c.transports| <= c.opts.maxQMITransports && DistinctChannels(c.transports))
      && (forall i, b :: 0 <= i < |c.transports| && 0 <= b < |c.barriers| ==>
            c.transports[i].ticket.cls !in c.barriers[b].ticket.blocked)
      && (forall i, b :: 0 <= i < |c.sessions| && 0 <= b < |c.barriers| ==>
            c.sessions[i].ticket.cls !in c.barriers[b].ticket.blocked)
      && (forall b :: c.oneshot.Some? && 0 <= b < |c.barriers| ==>
            c.oneshot.value.ticket.cls !in c.barriers[b].ticket.blocked)
    ensures run[k].core.waitRequests == run[k].core.acquires + run[k].core.waitTimeouts + |run[k].core.queue|
  {
    RunInv(run, evs, k);
    var c := run[k].core;
    if forall i :: 0 <= i < |c.transports| ==> c.transports[i].ticket.scope == QMIChannel {
      assert !HasExclusive(c.transports);
    }
  }

  ghost predicate GrantsLease(s: System, e: Event)
    requires Enabled(s, e)
  {
    Granted(s, e).Some? && Granted(s, e).value.leaseType != Barrier
  }

  // ---- how events move the queue ---------------------------------------------

  datatype QueueMove = Same | Appended(t: Ticket) | Removed(i: nat)

  ghost function Move(s: System, e: Event): QueueMove
    requires Enabled(s, e)
  {
    match e
    case Arrive(t) => if Granted(s, e).Some? then Same else Appended(t)
    case Retry(id) => if Granted(s, e).Some? then Removed(TicketIndex(s.core.queue, id)) else Same
    case Cancel(id) => Removed(TicketIndex(s.core.queue, id))
    case _ => Same
  }

  lemma QueueMoves(s: System, e: Event)
    requires Enabled(s, e)
    ensures var q, q' := s.core.queue, Step(s, e).core.queue;
      match Move(s, e)
      case Same => q' == q
      case Appended(t) => q' == q + [t]
      case Removed(i) => i < |q| && q' == RemoveAt(q, i)
  {
    if e.Arrive? && Granted(s, e).Some? {
      assert RemoveAt(s.core.queue + [e.t], |s.core.queue|) == s.core.queue;
    }
  }

  ghost predicate Waits(s: System, id: nat) { TicketIndex(s.core.queue, id) < |s.core.queue| }

  lemma WaitingIdIsUsed(s: System, id: nat)
    requires Inv(s) && Waits(s, id)
    ensures id in s.used
  {
    QueuedIsCounted(s.core.queue, TicketIndex(s.core.queue, id));
    assert LiveCount(s.core, id) > 0;
  }

  /** Somewhere in the queue, u stands in front of b. */
  ghost predicate Ahead(q: seq<Ticket>, u: nat, b: nat) {
    exists p, r :: 0 <= p < r < |q| && q[p].id == u && q[r].id == b
  }

  /** Nobody ever gets in front of a ticket that is already queued. */
  lemma AheadWasAhead(s: System, e: Event, u: nat, b: nat)
    requires Inv(s) && Enabled(s, e) && Waits(s, b)
    requires Ahead(Step(s, e).core.queue, u, b)
    ensures Ahead(s.core.queue, u, b)
  {
    QueueMoves(s, e);
    WaitingIdIsUsed(s, b);
    hide Ahead, Inv, Step, Granted, Move;
    var q := s.core.queue;
    match Move(s, e)
    case Same =>
    case Appended(t) =>
      AppendedIsArrival(s, e);
      AheadBeforeAppend(q, t, u, b);
    case Removed(i) => AheadBeforeRemoval(q, i, u, b);
  }

  lemma AppendedIsArrival(s: System, e: Event)
    requires Enabled(s, e) && Move(s, e).Appended?
    ensures Move(s, e).t.id !in s.used
  {}

  lemma AheadBeforeAppend(q: seq<Ticket>, t: Ticket, u: nat, b: nat)
    requires Ahead(q + [t], u, b) && t.id != b
    ensures Ahead(q, u, b)
  {
    var q' := q + [t];
    var p, r :| 0 <= p < r < |q'| && q'[p].id == u && q'[r].id == b;
    assert q'[p] == q[p] && r < |q| && q'[r] == q[r];
  }

  lemma AheadBeforeRemoval(q: seq<Ticket>, i: nat, u: nat, b: nat)
    requires i < |q| && Ahead(RemoveAt(q, i), u, b)
    ensures Ahead(q, u, b)
  {
    var q' := RemoveAt(q, i);
    var p, r :| 0 <= p < r < |q'| && q'[p].id == u && q'[r].id == b;
    var p0, r0 := if p < i then p else p + 1, if r < i then r else r + 1;
    assert q[p0] == q'[p] && q[r0] == q'[r];
  }

  // ---- barrier fences --------------------------------------------------------

  ghost predicate BarrierWaits(s: System, b: nat) {
    Waits(s, b) && s.core.queue[TicketIndex(s.core.queue, b)].leaseType == Barrier
  }

  lemma GrantIsAheadOfBarrier(s: System, e: Event, b: nat)
    requires Inv(s) && Enabled(s, e) && BarrierWaits(s, b)
    requires Granted(s, e).Some? && Granted(s, e).value.id != b
    ensures Ahead(s.core.queue, Granted(s, e).value.id, b)
  {
    var q := s.core.queue;
    var k := TicketIndex(q, b);
    match e
    case Arrive(t) =>
      var c1 := Enqueue(s.core, t);
      assert c1.queue[k] == q[k];
      WaitingBarrierFences(c1, s.clock, k, |q|);
    case Retry(id) =>
      var i := TicketIndex(q, id);
      if k < i { WaitingBarrierFences(s.core, s.clock, k, i); }
  }

  /** The fence in front of a waiting barrier: as long as the barrier waits, whatever is
      granted stood in front of it when the wait began. */
  lemma {:induction false} QueuedBarrierFence(run: seq<System>, evs: seq<Event>, b: nat, i: nat, k: nat)
    requires IsRun(run, evs) && i <= k < |evs|
    requires forall m :: i <= m <= k ==> BarrierWaits(run[m], b)
    requires Granted(run[k], evs[k]).Some? && Granted(run[k], evs[k]).value.id != b
    ensures Ahead(run[i].core.queue, Granted(run[k], evs[k]).value.id, b)
  {
    RunInv(run, evs, k);
    GrantIsAheadOfBarrier(run[k], evs[k], b);
    AheadBackTo(run, evs, Granted(run[k], evs[k]).value.id, b, i, k);
  }

  lemma {:induction false} AheadBackTo(run: seq<System>, evs: seq<Event>, u: nat, b: nat, i: nat, k: nat)
    requires IsRun(run, evs) && i <= k < |run|
    requires forall m :: i <= m <= k ==> BarrierWaits(run[m], b)
    requires Ahead(run[k].core.queue, u, b)
    ensures Ahead(run[i].core.queue, u, b)
    decreases k
  {
    hide Inv, Ahead, Step, Granted, Init, Enabled;
    if i < k {
      RunInv(run, evs, k - 1);
      AheadWasAhead(run[k - 1], evs[k - 1], u, b);
      AheadBackTo(run, evs, u, b, i, k - 1);
    }
  }

  ghost predicate BarrierHeld(s: System, b: Ticket) { Among(s.core.barriers, b) }

  lemma BarrierReleaseCounts(c: Core, id: nat)
    requires BarrierIndex(c.barriers, id) < |c.barriers|
    ensures forall x: nat :: LiveCount(ReleaseBarrierHold(c, id), x) + One(id, x) == LiveCount(c, x)
  {
    BarrierRemoved(c.barriers, BarrierIndex(c.barriers, id));
    hide BarrierIndex, Times;
  }

  lemma CountedIsUsed(s: System, id: nat)
    requires Inv(s)
    ensures LiveCount(s.core, id) > 0 ==> id in s.used
  {
    hide LiveCount, Exclusion, Parked;
  }

  ghost predicate Among(bs: seq<BarrierHold>, a: Ticket) { exists k :: 0 <= k < |bs| && bs[k].ticket == a }

  lemma BarriersOnlyGrow(s: System, e: Event)
    requires Enabled(s, e) && !e.ReleaseBarrier?
    ensures s.core.barriers <= Step(s, e).core.barriers
  {}

  lemma BarrierStaysHeld(s: System, e: Event, b: Ticket)
    requires Enabled(s, e) && BarrierHeld(s, b) && e != ReleaseBarrier(b.id)
    ensures BarrierHeld(Step(s, e), b)
  {
    var bs, bs' := s.core.barriers, Step(s, e).core.barriers;
    var k :| 0 <= k < |bs| && bs[k].ticket == b;
    if e.ReleaseBarrier? {
      var i := BarrierIndex(bs, e.id);
      if i < |bs| {
        assert bs' == RemoveAt(bs, i);
        assert bs'[if k < i then k else k - 1] == bs[k];
      }
    } else {
      BarriersOnlyGrow(s, e);
      assert bs'[k] == bs[k];
    }
  }

  lemma GrantedBarrierIsHeld(s: System, e: Event, b: Ticket)
    requires Enabled(s, e) && Granted(s, e) == Some(b) && b.leaseType == Barrier
    ensures BarrierHeld(Step(s, e), b)
  {
    var bs' := Step(s, e).core.barriers;
    assert bs'[|bs'| - 1].ticket == b;
  }

  /** No lease of a class that the barrier blocks is held. */
  ghost predicate NoneBlockedHeld(c: Core, b: Ticket) {
    && (forall i :: 0 <= i < |c.transports| ==> c.transports[i].ticket.cls !in b.blocked)
    && (forall i :: 0 <= i < |c.sessions| ==> c.sessions[i].ticket.cls !in b.blocked)
    && (c.oneshot.Some? ==> c.oneshot.value.ticket.cls !in b.blocked)
  }

  lemma HeldBarrierBlocks(s: System, b: Ticket)
    requires Inv(s) && BarrierHeld(s, b)
    ensures NoneBlockedHeld(s.core, b)
    ensures forall cls :: cls in b.blocked ==> BlockedByActive(s.core.barriers, cls)
  {
    hide CanAcquireAt, Parked, OwnIds, Ledger, TransportShape;
    var j :| 0 <= j < |s.core.barriers| && s.core.barriers[j].ticket == b;
  }

  lemma HeldBarrierFences(s: System, e: Event, b: Ticket)
    requires Enabled(s, e) && GrantsLease(s, e)
    requires forall cls :: cls in b.blocked ==> BlockedByActive(s.core.barriers, cls)
    ensures Granted(s, e).value.cls !in b.blocked
  {
    hide BlockedByActive, PendingBarrierAhead, SelectedAt;
  }

  /** From the grant of a barrier to its release no lease of a blocked class is granted,
      and none is held. */
  lemma {:induction false} ActiveBarrierFence(run: seq<System>, evs: seq<Event>, b: Ticket, g: nat, k: nat)
    requires IsRun(run, evs) && g < k < |run|
    requires Granted(run[g], evs[g]) == Some(b) && b.leaseType == Barrier
    requires forall m :: g < m < k ==> evs[m] != ReleaseBarrier(b.id)
    ensures BarrierHeld(run[k], b) && NoneBlockedHeld(run[k].core, b)
    ensures k < |evs| && GrantsLease(run[k], evs[k]) ==> Granted(run[k], evs[k]).value.cls !in b.blocked
  {
    hide Step, Enabled, Granted, Inv, BarrierHeld, NoneBlockedHeld, GrantsLease, BlockedByActive;
    if k == g + 1 {
      GrantedBarrierIsHeld(run[g], evs[g], b);
    } else {
      ActiveBarrierFence(run, evs, b, g, k - 1);
      BarrierStaysHeld(run[k - 1], evs[k - 1], b);
    }
    RunInv(run, evs, k);
    HeldBarrierBlocks(run[k], b);
    if k < |evs| && GrantsLease(run[k], evs[k]) { HeldBarrierFences(run[k], evs[k], b); }
  }

  // ---- bounded overtaking ----------------------------------------------------

  /** A transport outside AKA that has waited long enough and that no active barrier blocks. */
  ghost predicate Entitled(s: System, u: nat) {
    && Waits(s, u)
    && var t := s.core.queue[TicketIndex(s.core.queue, u)];
       t.leaseType == Transport && Aged(t, s.clock) && !BlockedByActive(s.core.barriers, t.cls)
  }

  /** The event grants a QMI transport on another channel while u waits for its own. */
  ghost predicate GrantsOtherChannel(s: System, e: Event, u: nat)
    requires Enabled(s, e) && Waits(s, u)
  {
    var t := s.core.queue[TicketIndex(s.core.queue, u)];
    && t.scope == QMIChannel && ChannelTaken(s.core.transports, t.channel)
    && Granted(s, e).Some?
    && Granted(s, e).value.leaseType == Transport
    && Granted(s, e).value.scope == QMIChannel
    && Granted(s, e).value.channel != t.channel
  }

  lemma PositionAfterRemoval(q: seq<Ticket>, i: nat, u: nat)
    requires i < |q| && i != TicketIndex(q, u) < |q|
    ensures TicketIndex(RemoveAt(q, i), u) == TicketIndex(q, u) - (if i < TicketIndex(q, u) then 1 else 0)
  {
    var p, r := TicketIndex(q, u), RemoveAt(q, i);
    var p' := p - (if i < p then 1 else 0);
    assert r[p'] == q[p];
    assert forall k :: 0 <= k < p' ==> r[k] == q[if k < i then k else k + 1];
  }

  /** One event: nobody gets in front of u, and a lease granted to anybody else came from
      in front of u or is a QMI transport on another channel. */
  lemma StepOvertaking(s: System, e: Event, u: nat)
    requires Inv(s) && Enabled(s, e) && Entitled(s, u) && Waits(Step(s, e), u)
    ensures TicketIndex(Step(s, e).core.queue, u)
              + (if GrantsLease(s, e) && !GrantsOtherChannel(s, e, u) then 1 else 0)
            <= TicketIndex(s.core.queue, u)
  {
    var q, q' := s.core.queue, Step(s, e).core.queue;
    var p := TicketIndex(q, u);
    QueueMoves(s, e);
    match Move(s, e)
    case Same =>
      if Granted(s, e).Some? {
        var c1 := Enqueue(s.core, e.t);
        assert c1.queue[p] == q[p];
        if e.t.leaseType != Barrier { AgedIsNotOvertaken(c1, s.clock, p, |q|); }
      }
    case Appended(t) =>
      assert q'[p] == q[p];
    case Removed(i) =>
      if i == p {
        IndexGone(s.core, s.used, p);
      } else {
        PositionAfterRemoval(q, i, u);
        if GrantsLease(s, e) && p < i { AgedIsNotOvertaken(s.core, s.clock, p, i); }
      }
  }

  lemma IndexGone(c: Core, used: set<nat>, p: nat)
    requires OwnIds(c, used) && p < |c.queue|
    ensures TicketIndex(RemoveAt(c.queue, p), c.queue[p].id) == |c.queue| - 1
  {
    var r := RemoveAt(c.queue, p);
    var k := TicketIndex(r, c.queue[p].id);
    if k < |r| {
      assert r[k] == c.queue[if k < p then k else k + 1];
      QueueIsDistinct(c, used, p, if k < p then k else k + 1);
    }
  }

  /** How many leases were granted to others between two points, not counting QMI
      transports on other channels while u waited for its own. */
  ghost function GrantsToOthers(run: seq<System>, evs: seq<Event>, u: nat, i: nat, j: nat): nat
    requires Follows(run, evs) && i <= j <= |evs|
    requires forall m :: i <= m < j ==> Entitled(run[m], u)
    decreases j
  {
    if i == j then 0
    else
      assert Entitled(run[j - 1], u);
      GrantsToOthers(run, evs, u, i, j - 1)
      + if GrantsLease(run[j - 1], evs[j - 1]) && !GrantsOtherChannel(run[j - 1], evs[j - 1], u) then 1 else 0
  }

  /** Bounded overtaking over runs: the number of tickets in front is a budget that every
      lease granted to anybody else uses up, and that nothing refills. */
  lemma {:induction false} BoundedOvertaking(run: seq<System>, evs: seq<Event>, u: nat, i: nat, j: nat)
    requires IsRun(run, evs) && i <= j <= |evs|
    requires forall m :: i <= m < j ==> Entitled(run[m], u)
    requires Waits(run[j], u)
    ensures TicketIndex(run[j].core.queue, u) + GrantsToOthers(run, evs, u, i, j) <= TicketIndex(run[i].core.queue, u)
    decreases j
  {
    if i < j {
      BoundedOvertaking(run, evs, u, i, j - 1);
      RunInv(run, evs, j - 1);
      StepOvertaking(run[j - 1], evs[j - 1], u);
    }
  }

  // ---- the life of a lease ---------------------------------------------------

  /** The id was issued and is neither queued nor held any more. */
  ghost predicate Retired(s: System, id: nat) { id in s.used && LiveCount(s.core, id) == 0 }

  lemma FoundIsCounted(c: Core, id: nat, lt: LeaseType)
    ensures FindActive(c, id, lt).Some? ==> LeaseCount(c, id) > 0
    ensures BarrierIndex(c.barriers, id) < |c.barriers| ==> Times(BarrierIds(c.barriers), id) > 0
  {
    HeldIsCounted(c.sessions, id);
    HeldIsCounted(c.transports, id);
    var i := BarrierIndex(c.barriers, id);
    assert i < |c.barriers| ==> BarrierIds(c.barriers)[i] in BarrierIds(c.barriers);
  }

  lemma HeldIsCounted(hs: seq<Held>, id: nat)
    ensures HeldIndex(hs, id) < |hs| ==> Times(HeldIds(hs), id) > 0
  {
    var i := HeldIndex(hs, id);
    assert i < |hs| ==> HeldIds(hs)[i] in HeldIds(hs);
  }

  /** A late or repeated release, touch or watchdog of a lease that is gone does nothing. */
  lemma LateReleaseIsHarmless(s: System, id: nat, lt: LeaseType)
    requires Retired(s, id)
    ensures Step(s, Release(id, lt)) == Step(s, Expire(id, lt)) == Step(s, Touch(id, lt)) == s
    ensures Step(s, ReleaseBarrier(id)) == s
  {
    FoundIsCounted(s.core, id, lt);
  }

  /** A release removes the lease it names and no other, and the id is retired. */
  lemma ReleaseTakesItsOwnLease(s: System, id: nat, lt: LeaseType)
    requires Inv(s) && FindActive(s.core, id, lt).Some?
    ensures Retired(Step(s, Release(id, lt)), id)
    ensures forall x: nat :: x != id ==> LiveCount(Step(s, Release(id, lt)).core, x) == LiveCount(s.core, x)
  {
    var c' := Step(s, Release(id, lt)).core;
    ReleaseCounts(s.core, id, lt);
    hide FindActive, ReleaseLease, LeaseCount, Times, LiveCount;
    assert LiveCount(s.core, id) <= 1;
  }

  lemma ReleaseCounts(c: Core, id: nat, lt: LeaseType)
    requires FindActive(c, id, lt).Some?
    ensures forall x: nat :: LiveCount(ReleaseLease(c, id, lt), x) + One(id, x) == LiveCount(c, x)
  {
    RemoveActiveIds(c, id, lt);
    var d := RemoveActive(c, id, lt);
    assert d.queue == c.queue && d.barriers == c.barriers;
    hide FindActive, RemoveActive, Times, HeldIds;
    forall x: nat ensures LiveCount(ReleaseLease(c, id, lt), x) + One(id, x) == LiveCount(c, x) {
      assert LeaseCount(ReleaseLease(c, id, lt), x) == LeaseCount(d, x);
    }
  }

  /** Releasing a barrier removes it and no other: its id is retired, the other barriers go
      on, and exactly the classes are blocked that one of them blocks. */
  lemma ReleaseTakesItsOwnBarrier(s: System, b: Ticket)
    requires Inv(s) && BarrierHeld(s, b)
    ensures var s' := Step(s, ReleaseBarrier(b.id));
      && !BarrierHeld(s', b) && Retired(s', b.id)
      && (forall a :: a != b ==> (BarrierHeld(s', a) <==> BarrierHeld(s, a)))
      && (forall cls :: BlockedByActive(s'.core.barriers, cls) <==>
            exists a :: a != b && BarrierHeld(s, a) && cls in a.blocked)
      && (forall x: nat :: x != b.id ==> LiveCount(s'.core, x) == LiveCount(s.core, x))
  {
    hide Inv, LiveCount, BarrierIndex, Among;
    LivesOnce(s, b.id);
    CountedIsUsed(s, b.id);
    ReleasedBarriers(s.core, b);
    hide ReleaseBarrierHold, BlockedByActive;
    StillBlocked(Step(s, ReleaseBarrier(b.id)), s, b);
  }

  lemma ReleasedBarriers(c: Core, b: Ticket)
    requires LiveCount(c, b.id) <= 1 && Among(c.barriers, b)
    ensures forall a :: Among(ReleaseBarrierHold(c, b.id).barriers, a) <==> a != b && Among(c.barriers, a)
    ensures forall x: nat :: LiveCount(ReleaseBarrierHold(c, b.id), x) + One(b.id, x) == LiveCount(c, x)
  {
    BarrierAlone(c.barriers, b);
    BarrierReleaseCounts(c, b.id);
    OthersLeft(c.barriers, BarrierIndex(c.barriers, b.id), b);
    hide LiveCount, BarrierIndex, RemoveAt, Among;
  }

  lemma OthersLeft(bs: seq<BarrierHold>, i: nat, b: Ticket)
    requires i < |bs| && bs[i].ticket == b
    requires forall k :: 0 <= k < |bs| && k != i ==> bs[k].ticket != b
    ensures forall a :: Among(RemoveAt(bs, i), a) <==> a != b && Among(bs, a)
  {
    var r := RemoveAt(bs, i);
    forall a ensures Among(r, a) <==> a != b && Among(bs, a) {
      if k :| 0 <= k < |r| && r[k].ticket == a {
        assert bs[if k < i then k else k + 1] == r[k];
      }
      if k :| 0 <= k < |bs| && bs[k].ticket == a && a != b {
        assert r[if k < i then k else k - 1] == bs[k];
      }
    }
  }

  lemma StillBlocked(s': System, s: System, b: Ticket)
    requires forall a :: BarrierHeld(s', a) <==> a != b && BarrierHeld(s, a)
    ensures forall cls :: BlockedByActive(s'.core.barriers, cls) <==>
            exists a :: a != b && BarrierHeld(s, a) && cls in a.blocked
  {
    var bs := s'.core.barriers;
    forall cls ensures BlockedByActive(bs, cls) <==> exists a :: a != b && BarrierHeld(s, a) && cls in a.blocked {
      if k :| 0 <= k < |bs| && cls in bs[k].ticket.blocked {
        assert BarrierHeld(s', bs[k].ticket);
      }
      if a :| BarrierHeld(s', a) && cls in a.blocked {
        var k :| 0 <= k < |bs| && bs[k].ticket == a;
      }
    }
  }

  /** With its id used once, a held barrier is found under its id. */
  lemma BarrierAlone(bs: seq<BarrierHold>, b: Ticket)
    requires Times(BarrierIds(bs), b.id) <= 1 && exists k :: 0 <= k < |bs| && bs[k].ticket == b
    ensures BarrierIndex(bs, b.id) < |bs| && bs[BarrierIndex(bs, b.id)].ticket == b
    ensures forall k :: 0 <= k < |bs| && k != BarrierIndex(bs, b.id) ==> bs[k].ticket.id != b.id
  {
    var ids, i := BarrierIds(bs), BarrierIndex(bs, b.id);
    forall k | 0 <= k < |bs| && k != i ensures bs[k].ticket.id != b.id {
      if i < k && bs[k].ticket.id == b.id { CountedOnceIsDistinct(ids, i, k); }
    }
  }

  /** Retired ids never come back. */
  lemma StaysRetired(s: System, e: Event, id: nat)
    requires Inv(s) && Enabled(s, e) && Retired(s, id)
    ensures Retired(Step(s, e), id)
  {
    CountsOnlyGrowByArrival(s, e, id);
  }

  lemma CountsOnlyGrowByArrival(s: System, e: Event, id: nat)
    requires Inv(s) && Enabled(s, e) && !(e.Arrive? && e.t.id == id)
    ensures LiveCount(Step(s, e).core, id) <= LiveCount(s.core, id)
  {
    hide Inv, LiveCount, CanAcquireAt;
    match e
    case Arrive(t) => ArrivalCounts(s, t, id);
    case Retry(i) => RetryCounts(s, i, id);
    case Cancel(i) => CancelCounts(s.core, TicketIndex(s.core.queue, i), id);
    case Touch(i, lt) => TouchCounts(s, i, lt, id);
    case Release(i, lt) => RemovalCounts(s, i, lt, id);
    case Expire(i, lt) => RemovalCounts(s, i, lt, id);
    case ReleaseBarrier(i) => BarrierCounts(s.core, i, id);
    case _ =>
  }

  lemma RetryCounts(s: System, i: nat, id: nat)
    requires Enabled(s, Retry(i))
    ensures LiveCount(Step(s, Retry(i)).core, id) == LiveCount(s.core, id)
  {
    if Granted(s, Retry(i)).Some? {
      AdmitMovesId(s.core, s.clock, TicketIndex(s.core.queue, i));
    }
  }

  lemma CancelCounts(c: Core, i: nat, id: nat)
    requires i < |c.queue|
    ensures LiveCount(Withdraw(c, i), id) <= LiveCount(c, id)
  {
    TicketRemoved(c.queue, i);
  }

  lemma TouchCounts(s: System, i: nat, lt: LeaseType, id: nat)
    requires Inv(s)
    ensures LiveCount(TouchLease(s.core, s.clock, i, lt), id) == LiveCount(s.core, id)
  {
    TouchKeepsView(s.core, s.clock, i, lt);
    SameViewKeeps(s.core, TouchLease(s.core, s.clock, i, lt), s.used);
    hide LeaseCount, Inv;
  }

  lemma BarrierCounts(c: Core, i: nat, id: nat)
    ensures LiveCount(ReleaseBarrierHold(c, i), id) <= LiveCount(c, id)
  {
    if BarrierIndex(c.barriers, i) < |c.barriers| { BarrierReleaseCounts(c, i); }
  }

  lemma ArrivalCounts(s: System, t: Ticket, id: nat)
    requires Enabled(s, Arrive(t)) && t.id != id
    requires Inv(s)
    ensures LiveCount(Step(s, Arrive(t)).core, id) <= LiveCount(s.core, id)
  {
    var c1 := Enqueue(s.core, t);
    TicketAppended(s.core.queue, t);
    assert LiveCount(c1, id) == LiveCount(s.core, id);
    if Granted(s, Arrive(t)).Some? { AdmitMovesId(c1, s.clock, |s.core.queue|); }
  }

  lemma RemovalCounts(s: System, i: nat, lt: LeaseType, id: nat)
    ensures LiveCount(ReleaseLease(s.core, i, lt), id) <= LiveCount(s.core, id)
    ensures LiveCount(ExpireLease(s.core, s.clock, i, lt), id) <= LiveCount(s.core, id)
  {
    if FindActive(s.core, i, lt).Some? {
      RemoveActiveIds(s.core, i, lt);
      var d := RemoveActive(s.core, i, lt);
      assert LeaseCount(d, id) <= LeaseCount(s.core, id);
      assert LeaseCount(ReleaseLease(s.core, i, lt), id) == LeaseCount(d, id);
      assert ExpireLease(s.core, s.clock, i, lt) != s.core ==>
          LeaseCount(ExpireLease(s.core, s.clock, i, lt), id) == LeaseCount(d, id);
    }
  }

  /** Once a lease is gone, however it went, its handle is harmless for the rest of the run. */
  lemma {:induction false} RetiredForGood(run: seq<System>, evs: seq<Event>, id: nat, i: nat, k: nat, lt: LeaseType)
    requires IsRun(run, evs) && i <= k < |run|
    requires Retired(run[i], id)
    ensures Retired(run[k], id)
    ensures Step(run[k], Release(id, lt)) == Step(run[k], Expire(id, lt)) == run[k]
    decreases k
  {
    hide Step, Enabled, Retired, Inv;
    if i < k {
      RetiredForGood(run, evs, id, i, k - 1, lt);
      RunInv(run, evs, k - 1);
      StaysRetired(run[k - 1], evs[k - 1], id);
    }
    LateReleaseIsHarmless(run[k], id, lt);
  }

  // ---- the watchdog ----------------------------------------------------------

  ghost predicate NotBefore(hs: seq<Held>, id: nat, d: nat) {
    forall k :: 0 <= k < |hs| && hs[k].ticket.id == id ==> hs[k].expiresAt >= d
  }

  /** No lease with this id expires before d. */
  ghost predicate SafeUntil(c: Core, id: nat, d: nat) {
    && NotBefore(c.sessions, id, d) && NotBefore(c.transports, id, d)
    && (c.oneshot.Some? && c.oneshot.value.ticket.id == id ==> c.oneshot.value.expiresAt >= d)
  }

  ghost predicate AllDue(hs: seq<Held>, id: nat, d: nat) {
    forall k :: 0 <= k < |hs| && hs[k].ticket.id == id ==> hs[k].expiresAt == d
  }

  /** Every lease with this id expires at d. */
  ghost predicate DueAt(c: Core, id: nat, d: nat) {
    && AllDue(c.sessions, id, d) && AllDue(c.transports, id, d)
    && (c.oneshot.Some? && c.oneshot.value.ticket.id == id ==> c.oneshot.value.expiresAt == d)
  }

  lemma RemovedNotBefore(hs: seq<Held>, i: nat, id: nat, d: nat)
    requires i < |hs| && NotBefore(hs, id, d)
    ensures NotBefore(RemoveAt(hs, i), id, d)
  {}

  lemma RemoveActiveSafe(c: Core, i: nat, lt: LeaseType, id: nat, d: nat)
    requires FindActive(c, i, lt).Some? && SafeUntil(c, id, d)
    ensures SafeUntil(RemoveActive(c, i, lt), id, d)
  {
    match lt
    case Session => RemovedNotBefore(c.sessions, HeldIndex(c.sessions, i), id, d);
    case OneShot =>
    case Transport => RemovedNotBefore(c.transports, HeldIndex(c.transports, i), id, d);
  }

  lemma ReleaseSafe(c: Core, now: nat, i: nat, lt: LeaseType, id: nat, d: nat)
    requires SafeUntil(c, id, d)
    ensures SafeUntil(ReleaseLease(c, i, lt), id, d) && SafeUntil(ExpireLease(c, now, i, lt), id, d)
  {
    if FindActive(c, i, lt).Some? {
      RemoveActiveSafe(c, i, lt, id, d);
    }
  }

  lemma StaysSafe(s: System, e: Event, id: nat, d: nat)
    requires Enabled(s, e) && SafeUntil(s.core, id, d) && d <= s.clock + s.core.opts.maxLeaseHold
    ensures SafeUntil(Step(s, e).core, id, d)
  {
    hide SafeUntil, CanAcquireAt;
    match e
    case Arrive(t) => AdmitSafe(Enqueue(s.core, t), s.clock, |s.core.queue|, id, d); QueueIrrelevant(s.core,
        Enqueue(s.core, t), id, d);
    case Retry(i) => AdmitSafe(s.core, s.clock, TicketIndex(s.core.queue, i), id, d);
    case Cancel(i) => QueueIrrelevant(s.core, Withdraw(s.core, TicketIndex(s.core.queue, i)), id, d);
    case Touch(i, lt) => TouchSafe(s.core, s.clock, i, lt, id, d);
    case Release(i, lt) => ReleaseSafe(s.core, s.clock, i, lt, id, d);
    case Expire(i, lt) => ReleaseSafe(s.core, s.clock, i, lt, id, d);
    case ReleaseBarrier(i) => QueueIrrelevant(s.core, ReleaseBarrierHold(s.core, i), id, d);
    case _ =>
  }

  lemma QueueIrrelevant(c: Core, c': Core, id: nat, d: nat)
    requires c'.sessions == c.sessions && c'.oneshot == c.oneshot && c'.transports == c.transports
    ensures SafeUntil(c', id, d) == SafeUntil(c, id, d)
  {}

  lemma AdmitSafe(c: Core, now: nat, i: nat, id: nat, d: nat)
    requires i < |c.queue| && d <= now + c.opts.maxLeaseHold
    ensures SafeUntil(c, id, d) ==> SafeUntil(Admit(c, now, i), id, d)
  {
    hide RemoveAt;
  }

  lemma TouchSafe(c: Core, now: nat, i: nat, lt: LeaseType, id: nat, d: nat)
    requires SafeUntil(c, id, d) && d <= now + c.opts.maxLeaseHold
    ensures SafeUntil(TouchLease(c, now, i, lt), id, d)
  {}

  /** The event starts the hold of lease id, or extends it. */
  ghost predicate Refreshes(s: System, e: Event, id: nat)
    requires Enabled(s, e)
  {
    || (Granted(s, e).Some? && Granted(s, e).value.id == id)
    || (e.Touch? && e.id == id && FindActive(s.core, id, e.lt).Some?)
  }

  ghost predicate ForcesOut(s: System, e: Event, id: nat) {
    e.Expire? && e.id == id && ExpireLease(s.core, s.clock, id, e.lt) != s.core
  }

  lemma UncountedIsSafe(c: Core, id: nat, d: nat)
    requires LeaseCount(c, id) == 0
    ensures SafeUntil(c, id, d) && DueAt(c, id, d)
  {
    forall k | 0 <= k < |c.sessions| ensures c.sessions[k].ticket.id != id {
      assert HeldIds(c.sessions)[k] in HeldIds(c.sessions);
    }
    forall k | 0 <= k < |c.transports| ensures c.transports[k].ticket.id != id {
      assert HeldIds(c.transports)[k] in HeldIds(c.transports);
    }
  }

  lemma OthersUncounted(hs: seq<Held>, id: nat, k: nat)
    requires Times(HeldIds(hs), id) <= 1 && HeldIndex(hs, id) < |hs|
    requires k < |hs| && k != HeldIndex(hs, id)
    ensures hs[k].ticket.id != id
  {
    var i := HeldIndex(hs, id);
    if i < k { CountedOnceIsDistinct(HeldIds(hs), i, k); }
  }

  /** Renewing the one lease with the id in a list. */
  lemma RenewedInList(hs: seq<Held>, id: nat, h: Held, d: nat)
    requires HeldIndex(hs, id) < |hs| && Times(HeldIds(hs), id) <= 1 && h.expiresAt >= d
    ensures NotBefore(hs[HeldIndex(hs, id) := h], id, d) && AllDue(hs[HeldIndex(hs, id) := h], id, h.expiresAt)
  {
    var i := HeldIndex(hs, id);
    forall k | 0 <= k < |hs| && k != i ensures hs[k].ticket.id != id {
      OthersUncounted(hs, id, k);
    }
  }

  lemma TouchMakesSafe(s: System, id: nat, lt: LeaseType)
    requires Inv(s) && FindActive(s.core, id, lt).Some?
    ensures SafeUntil(Step(s, Touch(id, lt)).core, id, s.clock + s.core.opts.maxLeaseHold)
    ensures DueAt(Step(s, Touch(id, lt)).core, id, s.clock + s.core.opts.maxLeaseHold)
  {
    hide Inv, TouchLease, FindActive, SafeUntil, DueAt, LiveCount;
    LivesOnce(s, id);
    TouchedIsSafe(s.core, s.clock, id, lt);
  }

  lemma LivesOnce(s: System, id: nat)
    requires Inv(s)
    ensures LiveCount(s.core, id) <= 1
  {
    hide LiveCount, Exclusion, Parked;
  }

  lemma TouchedIsSafe(c: Core, now: nat, id: nat, lt: LeaseType)
    requires FindActive(c, id, lt).Some? && LiveCount(c, id) <= 1
    ensures SafeUntil(TouchLease(c, now, id, lt), id, now + c.opts.maxLeaseHold)
    ensures DueAt(TouchLease(c, now, id, lt), id, now + c.opts.maxLeaseHold)
  {
    var d := now + c.opts.maxLeaseHold;
    var h := FindActive(c, id, lt).value.(expiresAt := d);
    match lt
    case Session =>
      HeldIsCounted(c.sessions, id);
      RenewedInList(c.sessions, id, h, d);
      UncountedIsSafe(c.(sessions := []), id, d);
    case OneShot =>
      UncountedIsSafe(c.(oneshot := None), id, d);
    case Transport =>
      HeldIsCounted(c.transports, id);
      RenewedInList(c.transports, id, h, d);
      UncountedIsSafe(c.(transports := []), id, d);
  }

  lemma GrantMakesSafe(s: System, e: Event, id: nat)
    requires Inv(s) && Enabled(s, e) && Granted(s, e).Some? && Granted(s, e).value.id == id
    ensures SafeUntil(Step(s, e).core, id, s.clock + s.core.opts.maxLeaseHold)
    ensures DueAt(Step(s, e).core, id, s.clock + s.core.opts.maxLeaseHold)
  {
    hide *;
    var d := s.clock + s.core.opts.maxLeaseHold;
    GrantedIsNotHeld(s, e, id);
    UncountedIsSafe(s.core, id, d);
    StaysSafe(s, e, id, d);
    GrantedStaysDue(s, e, id, d);
  }

  lemma GrantedStaysDue(s: System, e: Event, id: nat, d: nat)
    requires Enabled(s, e) && Granted(s, e).Some? && DueAt(s.core, id, d) && d == s.clock + s.core.opts.maxLeaseHold
    ensures DueAt(Step(s, e).core, id, d)
  {
    hide DueAt, CanAcquireAt, Admit;
    match e
    case Arrive(t) =>
      SameLeasesSameDue(s.core, Enqueue(s.core, t), id, d);
      AdmitDue(Enqueue(s.core, t), s.clock, |s.core.queue|, id, d);
    case Retry(i) => AdmitDue(s.core, s.clock, TicketIndex(s.core.queue, i), id, d);
  }

  lemma GrantedIsNotHeld(s: System, e: Event, id: nat)
    requires Inv(s) && Enabled(s, e) && Granted(s, e).Some? && Granted(s, e).value.id == id
    ensures LeaseCount(s.core, id) == 0
  {
    hide CanAcquireAt, Exclusion, Parked;
    assert LiveCount(s.core, id) <= 1;
    if e.Retry? {
      QueuedIsCounted(s.core.queue, TicketIndex(s.core.queue, id));
    }
  }

  lemma {:induction false} SafeAlongRun(run: seq<System>, evs: seq<Event>, id: nat, i: nat, k: nat)
    requires IsRun(run, evs) && i < k < |run|
    requires Refreshes(run[i], evs[i], id)
    ensures SafeUntil(run[k].core, id, run[i].clock + run[i].core.opts.maxLeaseHold)
    ensures run[k].clock >= run[i].clock && run[k].core.opts == run[i].core.opts
    decreases k
  {
    hide Step, Inv, Enabled, Granted, SafeUntil, DueAt, FindActive;
    if k == i + 1 {
      RunInv(run, evs, i);
      if Granted(run[i], evs[i]).Some? && Granted(run[i], evs[i]).value.id == id {
        GrantMakesSafe(run[i], evs[i], id);
      } else {
        TouchMakesSafe(run[i], id, evs[i].lt);
      }
      ClockAndOptions(run[i], evs[i]);
    } else {
      SafeAlongRun(run, evs, id, i, k - 1);
      StaysSafe(run[k - 1], evs[k - 1], id, run[i].clock + run[i].core.opts.maxLeaseHold);
      ClockAndOptions(run[k - 1], evs[k - 1]);
    }
  }

  lemma ClockAndOptions(s: System, e: Event)
    requires Enabled(s, e)
    ensures Step(s, e).clock >= s.clock && Step(s, e).core.opts == s.core.opts
  {}

  /** A forced release comes only after a full hold without progress: a whole
      MaxLeaseHold lies between it and the grant of the lease and every touch, whichever
      timer fires. */
  lemma ForcedReleaseIsLate(run: seq<System>, evs: seq<Event>, id: nat, i: nat, k: nat)
    requires IsRun(run, evs) && i < k < |evs|
    requires Refreshes(run[i], evs[i], id) && ForcesOut(run[k], evs[k], id)
    ensures run[k].clock >= run[i].clock + run[i].core.opts.maxLeaseHold
  {
    SafeAlongRun(run, evs, id, i, k);
  }

  // ---- and it does come ------------------------------------------------------

  lemma RemoveActiveDue(c: Core, i: nat, lt: LeaseType, id: nat, d: nat)
    requires FindActive(c, i, lt).Some? && DueAt(c, id, d)
    ensures DueAt(RemoveActive(c, i, lt), id, d)
  {}

  lemma TouchDue(c: Core, now: nat, i: nat, lt: LeaseType, id: nat, d: nat)
    requires DueAt(c, id, d) && (i == id ==> FindActive(c, id, lt).None?)
    ensures DueAt(TouchLease(c, now, i, lt), id, d)
  {}

  lemma AdmitDue(c: Core, now: nat, i: nat, id: nat, d: nat)
    requires i < |c.queue| && (c.queue[i].id == id ==> d == now + c.opts.maxLeaseHold) && DueAt(c, id, d)
    ensures DueAt(Admit(c, now, i), id, d)
  {
    hide RemoveAt;
  }

  lemma SameLeasesSameDue(c: Core, c': Core, id: nat, d: nat)
    requires c'.sessions == c.sessions && c'.oneshot == c.oneshot && c'.transports == c.transports
    ensures DueAt(c', id, d) == DueAt(c, id, d)
  {}

  lemma StaysDue(s: System, e: Event, id: nat, d: nat)
    requires Enabled(s, e) && DueAt(s.core, id, d) && !Refreshes(s, e, id)
    ensures DueAt(Step(s, e).core, id, d)
  {
    hide DueAt, CanAcquireAt;
    var c := s.core;
    match e
    case Arrive(t) =>
      SameLeasesSameDue(c, Enqueue(c, t), id, d);
      if Granted(s, e).Some? { AdmitDue(Enqueue(c, t), s.clock, |c.queue|, id, d); }
    case Retry(i) =>
      if Granted(s, e).Some? { AdmitDue(c, s.clock, TicketIndex(c.queue, i), id, d); }
    case Cancel(i) => SameLeasesSameDue(c, Withdraw(c, TicketIndex(c.queue, i)), id, d);
    case Touch(i, lt) => TouchDue(c, s.clock, i, lt, id, d);
    case Release(i, lt) => ReleaseDue(c, s.clock, i, lt, id, d);
    case Expire(i, lt) => ReleaseDue(c, s.clock, i, lt, id, d);
    case ReleaseBarrier(i) => SameLeasesSameDue(c, ReleaseBarrierHold(c, i), id, d);
    case _ =>
  }

  lemma ReleaseDue(c: Core, now: nat, i: nat, lt: LeaseType, id: nat, d: nat)
    requires DueAt(c, id, d)
    ensures DueAt(ReleaseLease(c, i, lt), id, d) && DueAt(ExpireLease(c, now, i, lt), id, d)
  {
    if FindActive(c, i, lt).Some? {
      RemoveActiveDue(c, i, lt, id, d);
      hide FindActive, RemoveActive;
      SameLeasesSameDue(RemoveActive(c, i, lt), ReleaseLease(c, i, lt), id, d);
    }
  }

  lemma {:induction false} DueAlongRun(run: seq<System>, evs: seq<Event>, id: nat, i: nat, k: nat)
    requires IsRun(run, evs) && i < k < |run| && Refreshes(run[i], evs[i], id)
    requires forall m :: i < m < k ==> !Refreshes(run[m], evs[m], id)
    ensures DueAt(run[k].core, id, run[i].clock + run[i].core.opts.maxLeaseHold)
    decreases k
  {
    hide DueAt, Step, Inv, Enabled, Granted;
    if k == i + 1 {
      RunInv(run, evs, i);
      if Granted(run[i], evs[i]).Some? && Granted(run[i], evs[i]).value.id == id {
        GrantMakesSafe(run[i], evs[i], id);
      } else {
        TouchMakesSafe(run[i], id, evs[i].lt);
      }
    } else {
      DueAlongRun(run, evs, id, i, k - 1);
      StaysDue(run[k - 1], evs[k - 1], id, run[i].clock + run[i].core.opts.maxLeaseHold);
    }
  }

  lemma DueIsFound(c: Core, id: nat, lt: LeaseType, d: nat)
    requires DueAt(c, id, d) && FindActive(c, id, lt).Some?
    ensures FindActive(c, id, lt).value.expiresAt == d
  {}

  /** Exactly when a timer that fires releases the lease it watches: a full MaxLeaseHold has
      passed since the lease was granted or last touched.  Then the lease is gone, it is
      counted, and nothing else has changed hands; before that nothing happens at all. */
  lemma TimerExactly(run: seq<System>, evs: seq<Event>, id: nat, i: nat, k: nat)
    requires IsRun(run, evs) && i < k < |evs| && Refreshes(run[i], evs[i], id)
    requires forall m :: i < m < k ==> !Refreshes(run[m], evs[m], id)
    requires evs[k].Expire? && evs[k].id == id && FindActive(run[k].core, id, evs[k].lt).Some?
    ensures var s, s' := run[k], run[k + 1];
      if s.clock >= run[i].clock + run[i].core.opts.maxLeaseHold then
        && Retired(s', id) && s'.core.forcedReleases == s.core.forcedReleases + 1
        && forall x: nat :: x != id ==> LiveCount(s'.core, x) == LiveCount(s.core, x)
      else s' == s
  {
    var lt := evs[k].lt;
    RunInv(run, evs, k);
    DueAlongRun(run, evs, id, i, k);
    DueIsFound(run[k].core, id, lt, run[i].clock + run[i].core.opts.maxLeaseHold);
    hide Inv, DueAt, FindActive;
    if run[k].clock >= run[i].clock + run[i].core.opts.maxLeaseHold { ForcedOut(run[k], id, lt); }
  }

  lemma ForcedOut(s: System, id: nat, lt: LeaseType)
    requires Inv(s) && FindActive(s.core, id, lt).Some? && s.clock >= FindActive(s.core, id, lt).value.expiresAt
    ensures var s' := Step(s, Expire(id, lt));
      && Retired(s', id) && s'.core.forcedReleases == s.core.forcedReleases + 1
      && forall x: nat :: x != id ==> LiveCount(s'.core, x) == LiveCount(s.core, x)
  {
    hide Inv, FindActive, RemoveActive, LiveCount, LeaseCount;
    ReleaseTakesItsOwnLease(s, id, lt);
    var r, e := ReleaseLease(s.core, id, lt), ExpireLease(s.core, s.clock, id, lt);
    ExpiryIsRelease(s.core, s.clock, id, lt);
    hide ReleaseLease, ExpireLease;
    CountsIgnoreForces(r, e);
  }

  lemma ExpiryIsRelease(c: Core, now: nat, id: nat, lt: LeaseType)
    requires FindActive(c, id, lt).Some? && now >= FindActive(c, id, lt).value.expiresAt
    ensures var r, e := ReleaseLease(c, id, lt), ExpireLease(c, now, id, lt);
      e == r.(forcedReleases := c.forcedReleases + 1)
  {
    hide FindActive;
  }

  lemma CountsIgnoreForces(c: Core, d: Core)
    requires d == c.(forcedReleases := d.forcedReleases)
    ensures forall x: nat :: LiveCount(d, x) == LiveCount(c, x)
  {}

  // ---- waiting for idleness ----------------------------------------------------

  lemma SomebodyLives(c: Core) returns (id: nat)
    requires !Idle(c)
    ensures LiveCount(c, id) > 0
  {
    if c.queue != [] {
      id := TicketIds(c.queue)[0];
      assert id in multiset(TicketIds(c.queue));
    } else if c.sessions != [] {
      id := HeldIds(c.sessions)[0];
      assert id in multiset(HeldIds(c.sessions));
    } else if c.transports != [] {
      id := HeldIds(c.transports)[0];
      assert id in multiset(HeldIds(c.transports));
    } else if c.barriers != [] {
      id := BarrierIds(c.barriers)[0];
      assert id in multiset(BarrierIds(c.barriers));
    } else {
      id := c.oneshot.value.ticket.id;
    }
  }

  /** Whoever waits for idleness is let go exactly when no ticket lives anywhere: none is
      queued, no lease is held and no barrier is active. */
  lemma IdleExactly(s: System, w: nat)
    requires Enabled(s, IdleCheck(w))
    ensures w !in Step(s, IdleCheck(w)).idlers <==> forall id: nat :: LiveCount(s.core, id) == 0
  {
    if !Idle(s.core) {
      var id := SomebodyLives(s.core);
    }
  }
}
