/** Every event keeps the invariant, so every state of every run satisfies it. */
module ArbiterInvariant {
  import opened ArbiterPolicy
  import opened ArbiterSystem

  // ---- lists of ids ----------------------------------------------------------

  function One(a: nat, b: nat): nat { if a == b then 1 else 0 }

  lemma RemovedFrom(ids: seq<nat>, i: nat)
    requires i < |ids|
    ensures forall x: nat :: Times(RemoveAt(ids, i), x) + One(ids[i], x) == Times(ids, x)
  {
    assert ids == ids[..i] + [ids[i]] + ids[i + 1..];
  }

  lemma AppendedTo(ids: seq<nat>, id: nat)
    ensures forall x: nat :: Times(ids + [id], x) == Times(ids, x) + One(id, x)
  {}

  lemma TicketRemoved(q: seq<Ticket>, i: nat)
    requires i < |q|
    ensures forall x: nat :: Times(TicketIds(RemoveAt(q, i)), x) + One(q[i].id, x) == Times(TicketIds(q), x)
  {
    assert TicketIds(RemoveAt(q, i)) == RemoveAt(TicketIds(q), i);
    RemovedFrom(TicketIds(q), i);
  }

  lemma HeldRemoved(hs: seq<Held>, i: nat)
    requires i < |hs|
    ensures forall x: nat :: Times(HeldIds(RemoveAt(hs, i)), x) + One(hs[i].ticket.id, x) == Times(HeldIds(hs), x)
  {
    assert HeldIds(RemoveAt(hs, i)) == RemoveAt(HeldIds(hs), i);
    RemovedFrom(HeldIds(hs), i);
  }

  lemma BarrierRemoved(bs: seq<BarrierHold>, i: nat)
    requires i < |bs|
    ensures forall x: nat :: Times(BarrierIds(RemoveAt(bs, i)), x) + One(bs[i].ticket.id, x) == Times(BarrierIds(bs), x)
    ensures forall cls :: BlockedByActive(RemoveAt(bs, i), cls) ==> BlockedByActive(bs, cls)
  {
    var r := RemoveAt(bs, i);
    assert BarrierIds(r) == RemoveAt(BarrierIds(bs), i);
    RemovedFrom(BarrierIds(bs), i);
    assert forall k :: 0 <= k < |r| ==> r[k] == bs[if k < i then k else k + 1];
  }

  lemma TicketAppended(q: seq<Ticket>, t: Ticket)
    ensures forall x: nat :: Times(TicketIds(q + [t]), x) == Times(TicketIds(q), x) + One(t.id, x)
  {
    assert TicketIds(q + [t]) == TicketIds(q) + [t.id];
    AppendedTo(TicketIds(q), t.id);
  }

  lemma HeldAppended(hs: seq<Held>, h: Held)
    ensures forall x: nat :: Times(HeldIds(hs + [h]), x) == Times(HeldIds(hs), x) + One(h.ticket.id, x)
  {
    assert HeldIds(hs + [h]) == HeldIds(hs) + [h.ticket.id];
    AppendedTo(HeldIds(hs), h.ticket.id);
  }

  lemma BarrierAppended(bs: seq<BarrierHold>, b: BarrierHold)
    ensures forall x: nat :: Times(BarrierIds(bs + [b]), x) == Times(BarrierIds(bs), x) + One(b.ticket.id, x)
  {
    assert BarrierIds(bs + [b]) == BarrierIds(bs) + [b.ticket.id];
    AppendedTo(BarrierIds(bs), b.ticket.id);
  }

  lemma QueuedIsCounted(q: seq<Ticket>, i: nat)
    requires i < |q|
    ensures Times(TicketIds(q), q[i].id) > 0
  {
    assert TicketIds(q)[i] in TicketIds(q);
  }

  lemma CountedOnceIsDistinct(s: seq<nat>, i: nat, j: nat)
    requires i < j < |s| && Times(s, s[i]) <= 1
    ensures s[i] != s[j]
  {
    assert s == s[..j] + s[j..];
    assert s[i] in s[..j] && s[j] in s[j..];
  }

  lemma QueueIsDistinct(c: Core, used: set<nat>, i: nat, j: nat)
    requires OwnIds(c, used) && i < |c.queue| && j < |c.queue| && i != j
    ensures c.queue[i].id != c.queue[j].id
  {
    var ids := TicketIds(c.queue);
    assert LiveCount(c, ids[i]) <= 1 && LiveCount(c, ids[j]) <= 1;
    if i < j { CountedOnceIsDistinct(ids, i, j); } else { CountedOnceIsDistinct(ids, j, i); }
  }

  lemma IndexIsUnique(c: Core, used: set<nat>, i: nat)
    requires OwnIds(c, used) && i < |c.queue|
    ensures TicketIndex(c.queue, c.queue[i].id) == i
  {
    var k := TicketIndex(c.queue, c.queue[i].id);
    if k < i { QueueIsDistinct(c, used, k, i); }
  }

  lemma QmiCountAll(ts: seq<Held>)
    requires !HasExclusive(ts)
    ensures QmiCount(ts) == |ts|
  {
    if ts != [] {
      assert forall k :: 0 <= k < |ts| - 1 ==> ts[..|ts| - 1][k] == ts[k];
      QmiCountAll(ts[..|ts| - 1]);
    }
  }

  // ---- the core, one lock section at a time ----------------------------------

  lemma EnqueueKeeps(c: Core, used: set<nat>, t: Ticket)
    requires CoreInv(c, used) && t.id !in used
    ensures CoreInv(Enqueue(c, t), used + {t.id})
  {
    TicketAppended(c.queue, t);
    forall x: nat ensures LiveCount(Enqueue(c, t), x) == LiveCount(c, x) + One(t.id, x) {}
  }

  lemma AdmitMovesId(c: Core, now: nat, i: nat)
    requires i < |c.queue| && c.queue[i].leaseType == OneShot ==> c.oneshot.None?
    requires i < |c.queue|
    ensures forall x: nat :: LiveCount(Admit(c, now, i), x) == LiveCount(c, x)
  {
    var t := c.queue[i];
    var h := Held(t, now, now + c.opts.maxLeaseHold);
    var c1 := c.(queue := RemoveAt(c.queue, i), acquires := c.acquires + 1, gen := c.gen + 1);
    assert Admit(c, now, i) == AddActive(c1, h);
    TicketRemoved(c.queue, i);
    assert forall x: nat :: LiveCount(c1, x) + One(t.id, x) == LiveCount(c, x) by {
      hide Times, HeldIds, BarrierIds, TicketIds;
    }
    AddActiveCounts(c1, h);
    hide LiveCount, AddActive, Admit;
  }

  lemma AddActiveCounts(c: Core, h: Held)
    requires h.ticket.leaseType == OneShot ==> c.oneshot.None?
    ensures forall x: nat :: LiveCount(AddActive(c, h), x) == LiveCount(c, x) + One(h.ticket.id, x)
  {
    hide TicketIds, HeldIds, BarrierIds, Times;
    match h.ticket.leaseType
    case Session => HeldAppended(c.sessions, h);
    case OneShot =>
    case Transport => HeldAppended(c.transports, h);
    case Barrier => BarrierAppended(c.barriers, BarrierHold(h.ticket, h.acquiredAt));
  }

  lemma ShapeAfterAdmit(c: Core, now: nat, i: nat)
    requires i < |c.queue| && CanAcquireAt(c, now, i) && c.queue[i].leaseType == Transport
    requires TransportShape(c.transports, c.opts.maxQMITransports)
    ensures TransportShape(Admit(c, now, i).transports, c.opts.maxQMITransports)
  {
    var t, ts, ts' := c.queue[i], c.transports, Admit(c, now, i).transports;
    assert Candidate(c, i);
    assert ts'[|ts|].ticket == t;
    if t.scope == QMIChannel {
      QmiCountAll(ts);
      assert !HasExclusive(ts');
      forall p, q | 0 <= p < q < |ts'| ensures ts'[p].ticket.channel != ts'[q].ticket.channel {
        assert ts'[p] == ts[p] && ts[p].ticket.scope == QMIChannel;
      }
    }
  }

  lemma AdmitKeepsExclusion(c: Core, now: nat, i: nat)
    requires i < |c.queue| && CanAcquireAt(c, now, i)
    requires ValidOptions(c.opts) && Exclusion(c) && Sorted(c)
    ensures Exclusion(Admit(c, now, i)) && Sorted(Admit(c, now, i))
  {
    if c.queue[i].leaseType == Transport {
      ShapeAfterAdmit(c, now, i);
    }
  }

  lemma AdmitKeeps(c: Core, used: set<nat>, now: nat, i: nat)
    requires CoreInv(c, used)
    requires i < |c.queue| && CanAcquireAt(c, now, i)
    ensures CoreInv(Admit(c, now, i), used)
  {
    AdmitKeepsExclusion(c, now, i);
    AdmitMovesId(c, now, i);
  }

  lemma WithdrawKeeps(c: Core, used: set<nat>, i: nat)
    requires CoreInv(c, used) && i < |c.queue|
    ensures CoreInv(Withdraw(c, i), used)
  {
    TicketRemoved(c.queue, i);
    forall x: nat ensures LiveCount(Withdraw(c, i), x) + One(c.queue[i].id, x) == LiveCount(c, x) {}
  }

  lemma ShapeAfterRemoval(ts: seq<Held>, i: nat, limit: nat, bs: seq<BarrierHold>, lt: LeaseType)
    requires i < |ts| && TransportShape(ts, limit) && Unblocked(ts, bs) && AllOfType(ts, lt)
    ensures TransportShape(RemoveAt(ts, i), limit)
    ensures Unblocked(RemoveAt(ts, i), bs) && AllOfType(RemoveAt(ts, i), lt)
  {
    var ts' := RemoveAt(ts, i);
    assert forall k :: 0 <= k < |ts'| ==> ts'[k] == ts[if k < i then k else k + 1];
    if HasExclusive(ts) {
      assert ts' == [];
    } else {
      assert !HasExclusive(ts');
    }
  }

  lemma ListAfterRemoval(hs: seq<Held>, i: nat, bs: seq<BarrierHold>, lt: LeaseType)
    requires i < |hs| && Unblocked(hs, bs) && AllOfType(hs, lt)
    ensures Unblocked(RemoveAt(hs, i), bs) && AllOfType(RemoveAt(hs, i), lt)
  {
    var r := RemoveAt(hs, i);
    assert forall k :: 0 <= k < |r| ==> r[k] == hs[if k < i then k else k + 1];
  }

  /** A release takes out exactly the lease it names. */
  lemma RemoveActiveIds(c: Core, id: nat, lt: LeaseType)
    requires FindActive(c, id, lt).Some?
    ensures forall x: nat :: LeaseCount(RemoveActive(c, id, lt), x) + One(id, x) == LeaseCount(c, x)
  {
    match lt
    case Session => HeldRemoved(c.sessions, HeldIndex(c.sessions, id));
    case OneShot =>
    case Transport => HeldRemoved(c.transports, HeldIndex(c.transports, id));
  }

  lemma RemoveActiveKeepsExclusion(c: Core, id: nat, lt: LeaseType)
    requires FindActive(c, id, lt).Some? && Exclusion(c) && Sorted(c)
    ensures Exclusion(RemoveActive(c, id, lt)) && Sorted(RemoveActive(c, id, lt))
  {
    match lt
    case Session => ListAfterRemoval(c.sessions, HeldIndex(c.sessions, id), c.barriers, Session);
    case OneShot =>
    case Transport =>
      ShapeAfterRemoval(c.transports, HeldIndex(c.transports, id), c.opts.maxQMITransports, c.barriers, Transport);
  }

  lemma RemoveActiveKeeps(c: Core, used: set<nat>, id: nat, lt: LeaseType)
    requires CoreInv(c, used) && FindActive(c, id, lt).Some?
    ensures CoreInv(RemoveActive(c, id, lt), used)
  {
    RemoveActiveKeepsExclusion(c, id, lt);
    RemoveActiveCounts(c, id, lt);
    hide Exclusion, Sorted, LiveCount;
  }

  lemma RemoveActiveCounts(c: Core, id: nat, lt: LeaseType)
    requires FindActive(c, id, lt).Some?
    ensures forall x: nat :: LiveCount(RemoveActive(c, id, lt), x) + One(id, x) == LiveCount(c, x)
  {
    RemoveActiveIds(c, id, lt);
    hide Times, LeaseCount;
  }

  /** The two states hold the same tickets; only deadlines may differ. */
  ghost predicate SameTickets(a: seq<Held>, b: seq<Held>) {
    |a| == |b| && forall k :: 0 <= k < |a| ==> a[k].ticket == b[k].ticket
  }

  ghost predicate SameView(c: Core, d: Core) {
    && c.queue == d.queue && c.opts == d.opts && c.barriers == d.barriers
    && SameTickets(c.sessions, d.sessions)
    && c.oneshot.Some? == d.oneshot.Some?
    && (c.oneshot.Some? ==> c.oneshot.value.ticket == d.oneshot.value.ticket)
    && SameTickets(c.transports, d.transports)
  }

  lemma SameTicketsSameShape(a: seq<Held>, b: seq<Held>, limit: nat)
    requires SameTickets(a, b)
    ensures HeldIds(a) == HeldIds(b)
    ensures HasExclusive(a) == HasExclusive(b)
    ensures TransportShape(a, limit) ==> TransportShape(b, limit)
    ensures forall ch :: ChannelTaken(a, ch) == ChannelTaken(b, ch)
    ensures QmiCount(a) == QmiCount(b)
  {
    SameQmiCount(a, b);
  }

  lemma SameQmiCount(a: seq<Held>, b: seq<Held>)
    requires SameTickets(a, b)
    ensures QmiCount(a) == QmiCount(b)
  {
    if a != [] {
      SameQmiCount(a[..|a| - 1], b[..|b| - 1]);
    }
  }

  lemma SameViewKeeps(c: Core, d: Core, used: set<nat>)
    requires CoreInv(c, used) && SameView(c, d)
    requires d.waitRequests == c.waitRequests && d.acquires == c.acquires && d.waitTimeouts == c.waitTimeouts
    ensures CoreInv(d, used)
    ensures forall x: nat :: LeaseCount(d, x) == LeaseCount(c, x)
  {
    SameTicketsSameShape(c.sessions, d.sessions, 0);
    SameTicketsSameShape(c.transports, d.transports, c.opts.maxQMITransports);
    forall x: nat ensures LiveCount(d, x) == LiveCount(c, x) {}
  }

  lemma TouchKeepsView(c: Core, now: nat, id: nat, lt: LeaseType)
    ensures SameView(c, TouchLease(c, now, id, lt))
  {}

  lemma ReleaseBarrierKeeps(c: Core, used: set<nat>, id: nat)
    requires CoreInv(c, used)
    ensures CoreInv(ReleaseBarrierHold(c, id), used)
  {
    var i := BarrierIndex(c.barriers, id);
    if i < |c.barriers| {
      BarrierRemoved(c.barriers, i);
      forall x: nat ensures LiveCount(ReleaseBarrierHold(c, id), x) + One(id, x) == LiveCount(c, x) {}
    }
  }

  // ---- what admission depends on ---------------------------------------------

  lemma SameViewSameAdmission(c: Core, d: Core, now: nat, i: nat)
    requires SameView(c, d) && i < |c.queue|
    ensures CanAcquireAt(c, now, i) == CanAcquireAt(d, now, i)
  {
    SameTicketsSameShape(c.transports, d.transports, 0);
    assert forall t :: Fits(c, t) == Fits(d, t) && Gates(c, t) == Gates(d, t);
    assert forall t :: Stops(c, t) == Stops(d, t);
    forall j ensures Candidate(c, j) == Candidate(d, j) {
      if 0 <= j < |c.queue| {
        assert Reached(c, j) == Reached(d, j);
      }
    }
    assert SelectedAt(c, now, i) == SelectedAt(d, now, i);
  }

  // ---- who is parked ---------------------------------------------------------

  /** After a signal nobody sleeps on the open channel. */
  lemma ParkedAfterSignal(s: System, s': System)
    requires Parked(s) && IdlersParked(s)
    requires s'.clock == s.clock && s'.idlers == s.idlers && s'.core.gen > s.core.gen
    requires forall id :: id in s'.waiters <==> Times(TicketIds(s'.core.queue), id) > 0
    requires forall id :: id in s'.waiters ==> id in s.waiters && s'.waiters[id] == s.waiters[id]
    requires forall i :: 0 <= i < |s'.core.queue| ==> s'.core.queue[i].enqueued <= s.clock
    ensures Parked(s') && IdlersParked(s')
  {}

  lemma ParkedAfterCoreChange(s: System, c': Core)
    requires Inv(s)
    requires c' == s.core || (c'.gen == s.core.gen + 1 && c'.queue == s.core.queue)
    ensures Parked(s.(core := c')) && IdlersParked(s.(core := c'))
  {
    if c' != s.core {
      ParkedAfterSignal(s, s.(core := c'));
    }
  }

  lemma RemainingIds(c: Core, used: set<nat>, i: nat)
    requires OwnIds(c, used) && i < |c.queue|
    ensures forall x: nat :: Times(TicketIds(RemoveAt(c.queue, i)), x) > 0 <==>
                             Times(TicketIds(c.queue), x) > 0 && x != c.queue[i].id
  {
    TicketRemoved(c.queue, i);
    assert LiveCount(c, c.queue[i].id) <= 1;
  }

  lemma ParkedAfterRemoval(s: System, c': Core, i: nat)
    requires Inv(s) && i < |s.core.queue|
    requires c'.queue == RemoveAt(s.core.queue, i) && c'.gen == s.core.gen + 1
    ensures var s' := s.(core := c', waiters := s.waiters - {s.core.queue[i].id}); Parked(s') && IdlersParked(s')
  {
    var s' := s.(core := c', waiters := s.waiters - {s.core.queue[i].id});
    RemainingIds(s.core, s.used, i);
    RemainingWereQueuedBefore(s.core.queue, i, s.clock);
    hide CanAcquireAt, Idle, CoreInv, RemoveAt;
    ParkedAfterSignal(s, s');
  }

  lemma RemainingWereQueuedBefore(q: seq<Ticket>, i: nat, clock: nat)
    requires i < |q| && forall k :: 0 <= k < |q| ==> q[k].enqueued <= clock
    ensures forall k :: 0 <= k < |RemoveAt(q, i)| ==> RemoveAt(q, i)[k].enqueued <= clock
  {}

  lemma ArriveGrantedKeeps(s: System, t: Ticket)
    requires Inv(s) && Enabled(s, Arrive(t)) && Granted(s, Arrive(t)).Some?
    ensures Inv(Step(s, Arrive(t)))
  {
    var c1 := Enqueue(s.core, t);
    var i := |s.core.queue|;
    EnqueueKeeps(s.core, s.used, t);
    AdmitKeeps(c1, s.used + {t.id}, s.clock, i);
    assert RemoveAt(c1.queue, i) == s.core.queue;
    ParkedAfterSignal(s, Step(s, Arrive(t)));
  }

  lemma ParkedAfterArrival(s: System, t: Ticket)
    requires Parked(s) && IdlersParked(s) && Enabled(s, Arrive(t)) && Times(TicketIds(s.core.queue), t.id) == 0
    requires Granted(s, Arrive(t)).None?
    ensures Parked(Step(s, Arrive(t))) && IdlersParked(Step(s, Arrive(t)))
  {
    hide CanAcquireAt, Times, Idle, TicketIds;
    var c1, s' := Enqueue(s.core, t), Step(s, Arrive(t));
    TicketAppended(s.core.queue, t);
    assert s'.core == c1 && s'.clock == s.clock;
    forall k | 0 <= k < |s.core.queue| ensures !Asleep(s', c1.queue[k].id) {
      assert c1.queue[k] == s.core.queue[k];
      QueuedIsCounted(s.core.queue, k);
    }
  }

  lemma ArriveWaitsKeeps(s: System, t: Ticket)
    requires Inv(s) && Enabled(s, Arrive(t)) && Granted(s, Arrive(t)).None?
    ensures Inv(Step(s, Arrive(t)))
  {
    EnqueueKeeps(s.core, s.used, t);
    assert LiveCount(s.core, t.id) == 0;
    ParkedAfterArrival(s, t);
  }

  lemma ParkedAfterRetry(s: System, id: nat)
    requires Inv(s) && Enabled(s, Retry(id)) && Granted(s, Retry(id)).None?
    ensures Parked(Step(s, Retry(id)))
  {
    var s' := Step(s, Retry(id));
    forall k | 0 <= k < |s.core.queue| && Asleep(s', s.core.queue[k].id)
      ensures !CanAcquireAt(s.core, s'.waiters[s.core.queue[k].id].evalAt, k)
    {
      IndexIsUnique(s.core, s.used, k);
      assert s.core.queue[k].id != id ==> Asleep(s, s.core.queue[k].id);
    }
  }

  lemma RetryKeeps(s: System, id: nat)
    requires Inv(s) && Enabled(s, Retry(id))
    ensures Inv(Step(s, Retry(id)))
  {
    var i := TicketIndex(s.core.queue, id);
    if Granted(s, Retry(id)).Some? {
      AdmitKeeps(s.core, s.used, s.clock, i);
      ParkedAfterRemoval(s, Admit(s.core, s.clock, i), i);
    } else {
      ParkedAfterRetry(s, id);
    }
  }

  lemma TouchKeepsInv(s: System, id: nat, lt: LeaseType)
    requires Inv(s)
    ensures Inv(Step(s, Touch(id, lt)))
  {
    var c' := TouchLease(s.core, s.clock, id, lt);
    TouchKeepsView(s.core, s.clock, id, lt);
    SameViewKeeps(s.core, c', s.used);
    var s' := s.(core := c');
    forall k | 0 <= k < |s.core.queue| && Asleep(s', s.core.queue[k].id)
      ensures !CanAcquireAt(c', s.waiters[s.core.queue[k].id].evalAt, k)
    {
      assert Asleep(s, s.core.queue[k].id);
      SameViewSameAdmission(s.core, c', s.waiters[s.core.queue[k].id].evalAt, k);
    }
  }

  lemma CancelKeepsInv(s: System, id: nat)
    requires Inv(s) && Enabled(s, Cancel(id))
    ensures Inv(Step(s, Cancel(id)))
  {
    var i := TicketIndex(s.core.queue, id);
    WithdrawKeeps(s.core, s.used, i);
    ParkedAfterRemoval(s, Withdraw(s.core, i), i);
  }

  /** The invariant of the core does not look at the generation or the force counter. */
  lemma BumpKeeps(c: Core, d: Core, used: set<nat>)
    requires CoreInv(c, used)
    requires d == c.(gen := d.gen, forcedReleases := d.forcedReleases)
    ensures CoreInv(d, used)
  {
    forall x: nat ensures LiveCount(d, x) == LiveCount(c, x) {}
  }

  lemma ReleaseCoreKeeps(c: Core, used: set<nat>, now: nat, id: nat, lt: LeaseType)
    requires CoreInv(c, used)
    ensures CoreInv(ReleaseLease(c, id, lt), used)
    ensures CoreInv(ExpireLease(c, now, id, lt), used)
  {
    hide CoreInv;
    if FindActive(c, id, lt).Some? {
      RemoveActiveKeeps(c, used, id, lt);
      var d := RemoveActive(c, id, lt);
      BumpKeeps(d, ReleaseLease(c, id, lt), used);
      if ExpireLease(c, now, id, lt) != c {
        BumpKeeps(d, d.(gen := c.gen + 1, forcedReleases := c.forcedReleases + 1), used);
      }
    }
  }

  lemma ReleaseSignals(c: Core, now: nat, id: nat, lt: LeaseType)
    ensures ReleaseLease(c, id, lt) == c || (ReleaseLease(c, id, lt).gen == c.gen + 1
        && ReleaseLease(c, id, lt).queue == c.queue)
    ensures ExpireLease(c, now, id, lt) == c || (ExpireLease(c, now, id, lt).gen == c.gen + 1
        && ExpireLease(c, now, id, lt).queue == c.queue)
  {}

  lemma ReleaseKeepsInv(s: System, id: nat, lt: LeaseType)
    requires Inv(s)
    ensures Inv(Step(s, Release(id, lt))) && Inv(Step(s, Expire(id, lt)))
  {
    hide CoreInv, Parked, IdlersParked, ReleaseLease, ExpireLease;
    ReleaseCoreKeeps(s.core, s.used, s.clock, id, lt);
    ReleaseSignals(s.core, s.clock, id, lt);
    ParkedAfterCoreChange(s, ReleaseLease(s.core, id, lt));
    ParkedAfterCoreChange(s, ExpireLease(s.core, s.clock, id, lt));
  }

  lemma ReleaseBarrierKeepsInv(s: System, id: nat)
    requires Inv(s)
    ensures Inv(Step(s, ReleaseBarrier(id)))
  {
    ReleaseBarrierKeeps(s.core, s.used, id);
    ParkedAfterCoreChange(s, ReleaseBarrierHold(s.core, id));
  }

  lemma PassiveKeepsInv(s: System, e: Event)
    requires Inv(s) && Enabled(s, e) && (e.Tick? || e.IdleCheck? || e.IdleCancel?)
    ensures Inv(Step(s, e))
  {
    hide CoreInv, CanAcquireAt, Times, TicketIds;
  }

  lemma StepKeepsInv(s: System, e: Event)
    requires Inv(s) && Enabled(s, e)
    ensures Inv(Step(s, e))
  {
    hide *;
    match e
    case Tick(_) => PassiveKeepsInv(s, e);
    case Arrive(t) =>
      if Granted(s, e).Some? { ArriveGrantedKeeps(s, t); } else { ArriveWaitsKeeps(s, t); }
    case Retry(id) => RetryKeeps(s, id);
    case Cancel(id) => CancelKeepsInv(s, id);
    case Touch(id, lt) => TouchKeepsInv(s, id, lt);
    case Release(id, lt) => ReleaseKeepsInv(s, id, lt);
    case Expire(id, lt) => ReleaseKeepsInv(s, id, lt);
    case ReleaseBarrier(id) => ReleaseBarrierKeepsInv(s, id);
    case IdleCheck(_) => PassiveKeepsInv(s, e);
    case IdleCancel(_) => PassiveKeepsInv(s, e);
  }

  lemma InitInv(s: System)
    requires Init(s)
    ensures Inv(s)
  {}

  /** Every state of every run satisfies the invariant. */
  lemma {:induction false} RunInv(run: seq<System>, evs: seq<Event>, k: nat)
    requires IsRun(run, evs) && k < |run|
    ensures Inv(run[k])
  {
    if k == 0 {
      InitInv(run[0]);
    } else {
      RunInv(run, evs, k - 1);
      StepKeepsInv(run[k - 1], evs[k - 1]);
    }
  }
}
