/** The arbiter object itself.  Every public method here is one lock section of the
    program, proved to do what the corresponding function of ArbiterPolicy says. */
module ArbiterObject {
  import opened Common
  import opened ArbiterPolicy
  import opened ArbiterSystem
  import opened ArbiterAdmission

  ghost predicate ProperIds(q: seq<Ticket>) {
    && (forall i :: 0 <= i < |q| ==> q[i].id > 0)
    && (forall i, j :: 0 <= i < j < |q| ==> q[i].id != q[j].id)
  }

  /** One barrier with the id is gone from the list, and nothing else has changed. */
  ghost predicate TakenOut(bs: seq<BarrierHold>, left: seq<BarrierHold>, id: nat) {
    exists k :: 0 <= k < |bs| && bs[k].ticket.id == id && left == bs[..k] + bs[k + 1..]
  }

  class Arbiter {
    const opts: Options
    var queue: seq<Ticket>
    var activeSessions: seq<Held>
    var activeOneshot: Option<Held>
    var activeTransports: seq<Held>
    var activeBarriers: seq<BarrierHold>
    var generation: nat
    var waitRequests: nat
    var acquires: nat
    var waitTimeouts: nat
    var forcedReleases: nat

    ghost function View(): Core
      reads this
    {
      Core(opts, queue, activeSessions, activeOneshot, activeTransports, activeBarriers,
           generation, waitRequests, acquires, waitTimeouts, forcedReleases)
    }

    /** Ids are positive and nobody queues twice under one id. */
    ghost predicate Valid()
      reads this
    {
      ProperIds(queue)
    }

    constructor (maxLeaseHold: int, maxSessions: int, maxQMITransports: int)
      ensures Valid() && ValidOptions(opts)
      ensures opts.maxLeaseHold == if maxLeaseHold > 0 then maxLeaseHold else 120000
      ensures opts.maxSessions == if maxSessions > 0 then maxSessions else 1
      ensures opts.maxQMITransports == if maxQMITransports > 0 then maxQMITransports else 1
      ensures View() == Core(opts, [], [], None, [], [], 0, 0, 0, 0, 0)
    {
      opts := Options(
        if maxLeaseHold <= 0 then 120000 else maxLeaseHold,
        if maxSessions <= 0 then 1 else maxSessions,
        if maxQMITransports <= 0 then 1 else maxQMITransports);
      queue, activeSessions, activeOneshot, activeTransports, activeBarriers := [], [], None, [], [];
      generation, waitRequests, acquires, waitTimeouts, forcedReleases := 0, 0, 0, 0, 0;
    }

    // ---- scans ---------------------------------------------------------------

    method IsBlockedByActiveBarrier(cls: APDUClass) returns (r: bool)
      ensures r == BlockedByActive(activeBarriers, cls)
    {
      var i := 0;
      while i < |activeBarriers|
        invariant 0 <= i <= |activeBarriers|
        invariant forall k :: 0 <= k < i ==> cls !in activeBarriers[k].ticket.blocked
      {
        if cls in activeBarriers[i].ticket.blocked { return true; }
        i := i + 1;
      }
      return false;
    }

    method HasActiveExclusiveTransport() returns (r: bool)
      ensures r == HasExclusive(activeTransports)
    {
      var i := 0;
      while i < |activeTransports|
        invariant 0 <= i <= |activeTransports|
        invariant forall k :: 0 <= k < i ==> activeTransports[k].ticket.scope == QMIChannel
      {
        if activeTransports[i].ticket.scope != QMIChannel { return true; }
        i := i + 1;
      }
      return false;
    }

    method ActiveQMITransportCount() returns (count: nat)
      ensures count == QmiCount(activeTransports)
    {
      count := 0;
      var i := 0;
      while i < |activeTransports|
        invariant 0 <= i <= |activeTransports|
        invariant count == QmiCount(activeTransports[..i])
      {
        assert activeTransports[..i + 1][..i] == activeTransports[..i];
        if activeTransports[i].ticket.scope == QMIChannel { count := count + 1; }
        i := i + 1;
      }
      assert activeTransports[..i] == activeTransports;
    }

    method HasActiveTransportOnChannel(channel: int) returns (r: bool)
      ensures r == ChannelTaken(activeTransports, channel)
    {
      var i := 0;
      while i < |activeTransports|
        invariant 0 <= i <= |activeTransports|
        invariant forall k :: 0 <= k < i ==>
          !(activeTransports[k].ticket.scope == QMIChannel && activeTransports[k].ticket.channel == channel)
      {
        if activeTransports[i].ticket.scope == QMIChannel
            && activeTransports[i].ticket.channel == channel { return true; }
        i := i + 1;
      }
      return false;
    }

    method CanAcquireTransportNow(t: Ticket) returns (r: bool)
      ensures r == Fits(View(), t)
      ensures TransportShape(activeTransports, opts.maxQMITransports) ==>
        (r <==> t.leaseType == Transport
                && TransportShape(activeTransports + [Held(t, 0, 0)], opts.maxQMITransports))
    {
      FitsBeside(View(), Held(t, 0, 0));
      hide TransportShape;
      if t.leaseType != Transport { return false; }
      if t.scope != QMIChannel { return activeTransports == []; }
      var exclusive := HasActiveExclusiveTransport();
      if exclusive { return false; }
      var count := ActiveQMITransportCount();
      if count >= opts.maxQMITransports { return false; }
      var taken := HasActiveTransportOnChannel(t.channel);
      return !taken;
    }

    method TransportWaitGatesQueue(t: Ticket) returns (r: bool)
      ensures r == Gates(View(), t)
    {
      if t.leaseType != Transport { return true; }
      if t.scope != QMIChannel { return true; }
      var exclusive := HasActiveExclusiveTransport();
      var count := ActiveQMITransportCount();
      return exclusive || count >= opts.maxQMITransports;
    }

    method HasPendingBarrierAhead(i: nat) returns (r: bool)
      requires Valid() && i < |queue|
      ensures r == PendingBarrierAhead(queue, i)
    {
      var t := queue[i];
      var j := 0;
      while j < |queue|
        invariant 0 <= j <= i
        invariant forall k :: 0 <= k < j ==> !(queue[k].leaseType == Barrier && t.cls in queue[k].blocked)
      {
        if queue[j].id == t.id { return false; }
        if queue[j].leaseType == Barrier && t.cls in queue[j].blocked { return true; }
        j := j + 1;
      }
      return false;
    }

    /** The barrier that comes first in the queue, 0 when there is none. */
    method SelectedBarrier() returns (id: nat)
      requires Valid()
      ensures id != 0 ==> exists i :: 0 <= i < |queue| && FirstBarrier(queue, i) && queue[i].id == id
      ensures id == 0 ==> forall i :: 0 <= i < |queue| ==> queue[i].leaseType != Barrier
    {
      var i := 0;
      while i < |queue|
        invariant 0 <= i <= |queue|
        invariant forall k :: 0 <= k < i ==> queue[k].leaseType != Barrier
      {
        if queue[i].leaseType == Barrier { return queue[i].id; }
        i := i + 1;
      }
      return 0;
    }

    /** One pass over the queue: the first candidate, the first aged one outside AKA and
        the first AKA one. */
    method ScanTransports(now: nat) returns (eligible: Option<nat>, aged: Option<nat>, aka: Option<nat>)
      ensures FirstOf(View(), eligible, |queue|, Anyone)
      ensures FirstOf(View(), aged, |queue|, AgedAt(now))
      ensures FirstOf(View(), aka, |queue|, AKA)
    {
      hide FirstOf, Candidate, Reached, Stops, Fits, Gates, BlockedByActive;
      eligible, aged, aka := None, None, None;
      var i := 0;
      ghost var v := View();
      NothingSeen(v, now);
      while i < |queue|
        invariant 0 <= i <= |queue| && v == View() && Reached(v, i)
        invariant FirstOf(v, eligible, i, Anyone) && FirstOf(v, aged, i, AgedAt(now)) && FirstOf(v, aka, i, AKA)
      {
        var t := queue[i];
        ghost var e, g, k := eligible, aged, aka;
        Classified(v, i);
        if t.leaseType != Transport {
          ScanEnds(v, i, eligible, aged, aka, now);
          return;
        }
        var blocked := IsBlockedByActiveBarrier(t.cls);
        if !blocked {
          var fits := CanAcquireTransportNow(t);
          if !fits {
            var gates := TransportWaitGatesQueue(t);
            if gates {
              ScanEnds(v, i, eligible, aged, aka, now);
              return;
            }
          } else {
            if eligible.None? { eligible := Some(i); }
            if t.cls == USIMAKA {
              if aka.None? { aka := Some(i); }
            } else if aged.None? && now - t.enqueued >= PRIORITY_AGING {
              aged := Some(i);
            }
          }
        }
        AdvanceAll(v, i, e, g, k, now, eligible, aged, aka);
        i := i + 1;
      }
    }

    /** The transport the policy picks, 0 when it picks none. */
    method SelectedTransport(now: nat) returns (id: nat)
      requires Valid()
      ensures id != 0 ==> exists i :: SelectedAt(View(), now, i) && queue[i].id == id
      ensures id == 0 ==> forall i :: !Candidate(View(), i)
    {
      var eligible, aged, aka := ScanTransports(now);
      BestIsSelected(View(), now, eligible, aged, aka);
      if aged.Some? {
        return queue[aged.value].id;
      } else if aka.Some? {
        return queue[aka.value].id;
      } else if eligible.Some? {
        return queue[eligible.value].id;
      }
      return 0;
    }

    // ---- admission -----------------------------------------------------------

    method CanAcquireLease(i: nat, now: nat) returns (r: bool)
      requires Valid() && i < |queue| && queue[i].leaseType != Barrier
      ensures r == CanAcquireAt(View(), now, i)
    {
      var t := queue[i];
      var blocked := IsBlockedByActiveBarrier(t.cls);
      if blocked { return false; }
      var pending := HasPendingBarrierAhead(i);
      if pending { return false; }
      match t.leaseType
      case Session =>
        return queue[0].id == t.id && activeOneshot.None? && activeTransports == []
            && |activeSessions| < opts.maxSessions;
      case OneShot =>
        return queue[0].id == t.id && activeSessions == [] && activeOneshot.None? && activeTransports == [];
      case Transport =>
        if activeSessions != [] || activeOneshot.Some? { return false; }
        var selected := SelectedTransport(now);
        SelectionIsUnique(View(), now);
        return selected == t.id;
    }

    method CanAcquireBarrier(i: nat, now: nat) returns (r: bool)
      requires Valid() && i < |queue| && queue[i].leaseType == Barrier
      ensures r == CanAcquireAt(View(), now, i)
    {
      if activeTransports != [] || activeSessions != [] || activeOneshot.Some? { return false; }
      var selected := SelectedBarrier();
      return selected == queue[i].id;
    }

    method CanAcquire(i: nat, now: nat) returns (r: bool)
      requires Valid() && i < |queue|
      ensures r == CanAcquireAt(View(), now, i)
      ensures Exclusion(View()) ==> (r <==> Deserves(View(), now, i))
    {
      hide Exclusion, CanAcquireAt, Deserves;
      if Exclusion(View()) { AdmittedExactly(View(), now, i); }
      if queue[i].leaseType == Barrier {
        r := CanAcquireBarrier(i, now);
      } else {
        r := CanAcquireLease(i, now);
      }
    }

    // ---- changes -------------------------------------------------------------

    method RemoveTicket(id: nat) returns (removed: bool)
      requires Valid()
      modifies this`queue
      ensures Valid()
      ensures removed <==> TicketIndex(old(queue), id) < |old(queue)|
      ensures queue == if removed then RemoveAt(old(queue), TicketIndex(old(queue), id)) else old(queue)
    {
      var i := 0;
      while i < |queue|
        invariant 0 <= i <= |queue| && queue == old(queue)
        invariant forall k :: 0 <= k < i ==> queue[k].id != id
      {
        if queue[i].id == id {
          FirstMatch(queue, id, i);
          RemovalKeepsIds(queue, i);
          queue := queue[..i] + queue[i + 1..];
          return true;
        }
        i := i + 1;
      }
      return false;
    }

    /** Grants the ticket at position i: off the queue, into the active list of its type,
        with a fresh watchdog deadline, and everybody woken. */
    method GrantTicket(i: nat, now: nat)
      requires Valid() && i < |queue|
      modifies this
      ensures Valid() && View() == Admit(old(View()), now, i)
    {
      var t := queue[i];
      AdmitInParts(View(), now, i);
      FirstMatch(queue, t.id, i);
      hide ProperIds, Admit, AddActive, RemoveAt, TicketIndex;
      var _ := RemoveTicket(t.id);
      AddActiveHold(Held(t, now, now + opts.maxLeaseHold));
      acquires := acquires + 1;
      generation := generation + 1;
    }

    /** Files a granted ticket in the active list of its type. */
    method AddActiveHold(h: Held)
      modifies this`activeSessions, this`activeOneshot, this`activeTransports, this`activeBarriers
      ensures View() == AddActive(old(View()), h)
    {
      match h.ticket.leaseType {
        case Session => activeSessions := activeSessions + [h];
        case OneShot => activeOneshot := Some(h);
        case Transport => activeTransports := activeTransports + [h];
        case Barrier => activeBarriers := activeBarriers + [BarrierHold(h.ticket, h.acquiredAt)];
      }
    }

    /** First lock section of a request: queue up, wake everybody, try at once. */
    method Enter(t: Ticket, now: nat) returns (granted: bool)
      requires Valid() && t.id > 0 && TicketIndex(queue, t.id) == |queue|
      modifies this
      ensures Valid()
      ensures granted <==> CanAcquireAt(Enqueue(old(View()), t), now, |old(queue)|)
      ensures Exclusion(old(View())) ==> (granted <==> Deserves(Enqueue(old(View()), t), now, |old(queue)|))
      ensures View() == var c := Enqueue(old(View()), t); if granted then Admit(c, now, |old(queue)|) else c
    {
      EnqueueKeepsIds(queue, t);
      EnqueueKeepsExclusion(View(), t);
      hide ProperIds, Admit, CanAcquireAt, TicketIndex, Exclusion, Deserves;
      queue := queue + [t];
      waitRequests := waitRequests + 1;
      generation := generation + 1;
      assert View() == Enqueue(old(View()), t);
      hide Enqueue;
      granted := CanAcquire(|queue| - 1, now);
      if granted { GrantTicket(|queue| - 1, now); }
    }

    /** Lock section after a wakeup: try again. */
    method Resume(id: nat, now: nat) returns (granted: bool)
      requires Valid() && TicketIndex(queue, id) < |queue|
      modifies this
      ensures Valid()
      ensures granted <==> CanAcquireAt(old(View()), now, TicketIndex(old(queue), id))
      ensures Exclusion(old(View())) ==> (granted <==> Deserves(old(View()), now, TicketIndex(old(queue), id)))
      ensures View() == if granted then Admit(old(View()), now, TicketIndex(old(queue), id)) else old(View())
    {
      hide Exclusion, Deserves, CanAcquireAt, Admit;
      var i := TicketIndex(queue, id);
      granted := CanAcquire(i, now);
      if granted { GrantTicket(i, now); }
    }

    /** Lock section of a caller that gives up: a ticket still queued is withdrawn. */
    method Abandon(id: nat) returns (removed: bool)
      requires Valid()
      modifies this
      ensures Valid()
      ensures removed <==> TicketIndex(old(queue), id) < |old(queue)|
      ensures View() == if removed then Withdraw(old(View()), TicketIndex(old(queue), id)) else old(View())
    {
      removed := RemoveTicket(id);
      if removed {
        waitTimeouts := waitTimeouts + 1;
        generation := generation + 1;
      }
    }

    method IndexOfActive(hs: seq<Held>, id: nat) returns (i: nat)
      ensures i == HeldIndex(hs, id)
    {
      i := 0;
      while i < |hs|
        invariant 0 <= i <= |hs|
        invariant forall k :: 0 <= k < i ==> hs[k].ticket.id != id
      {
        if hs[i].ticket.id == id { return; }
        i := i + 1;
      }
    }

    method RemoveActiveLease(id: nat, lt: LeaseType) returns (released: bool)
      modifies this
      ensures queue == old(queue)
      ensures released <==> FindActive(old(View()), id, lt).Some?
      ensures View() == if released then RemoveActive(old(View()), id, lt) else old(View())
    {
      match lt
      case Session =>
        var i := IndexOfActive(activeSessions, id);
        if i < |activeSessions| {
          activeSessions := activeSessions[..i] + activeSessions[i + 1..];
          return true;
        }
        return false;
      case OneShot =>
        if activeOneshot.Some? && activeOneshot.value.ticket.id == id {
          activeOneshot := None;
          return true;
        }
        return false;
      case Transport =>
        var i := IndexOfActive(activeTransports, id);
        if i < |activeTransports| {
          activeTransports := activeTransports[..i] + activeTransports[i + 1..];
          return true;
        }
        return false;
      case Barrier => return false;
    }

    method Release(id: nat, lt: LeaseType)
      requires Valid()
      modifies this
      ensures Valid() && View() == ReleaseLease(old(View()), id, lt)
    {
      var released := RemoveActiveLease(id, lt);
      if released { generation := generation + 1; }
    }

    method DeadlineOf(id: nat, lt: LeaseType) returns (deadline: Option<nat>)
      ensures deadline == var h := FindActive(View(), id, lt); if h.Some? then Some(h.value.expiresAt) else None
    {
      match lt
      case Session =>
        var i := IndexOfActive(activeSessions, id);
        return if i < |activeSessions| then Some(activeSessions[i].expiresAt) else None;
      case OneShot =>
        return if activeOneshot.Some?
            && activeOneshot.value.ticket.id == id then Some(activeOneshot.value.expiresAt) else None;
      case Transport =>
        var i := IndexOfActive(activeTransports, id);
        return if i < |activeTransports| then Some(activeTransports[i].expiresAt) else None;
      case Barrier => return None;
    }

    /** A watchdog timer fired; it may be an old one. */
    method ReleaseExpired(id: nat, lt: LeaseType, now: nat)
      requires Valid()
      modifies this
      ensures Valid() && View() == ExpireLease(old(View()), now, id, lt)
    {
      var deadline := DeadlineOf(id, lt);
      if deadline.None? || now < deadline.value { return; }
      var _ := RemoveActiveLease(id, lt);
      forcedReleases := forcedReleases + 1;
      generation := generation + 1;
    }

    method Touch(id: nat, lt: LeaseType, now: nat) returns (active: bool)
      requires Valid()
      modifies this
      ensures Valid() && View() == TouchLease(old(View()), now, id, lt)
      ensures active <==> FindActive(old(View()), id, lt).Some?
    {
      match lt
      case Session =>
        var i := IndexOfActive(activeSessions, id);
        active := i < |activeSessions|;
        if active {
          activeSessions := activeSessions[i := activeSessions[i].(expiresAt := now + opts.maxLeaseHold)];
        }
      case OneShot =>
        active := activeOneshot.Some? && activeOneshot.value.ticket.id == id;
        if active {
          activeOneshot := Some(activeOneshot.value.(expiresAt := now + opts.maxLeaseHold));
        }
      case Transport =>
        var i := IndexOfActive(activeTransports, id);
        active := i < |activeTransports|;
        if active {
          activeTransports := activeTransports[i := activeTransports[i].(expiresAt := now + opts.maxLeaseHold)];
        }
      case Barrier => active := false;
    }

    method ReleaseBarrier(id: nat)
      requires Valid()
      modifies this
      ensures Valid() && View() == ReleaseBarrierHold(old(View()), id)
      ensures if forall k :: 0 <= k < |old(activeBarriers)| ==> old(activeBarriers)[k].ticket.id != id
        then activeBarriers == old(activeBarriers) else TakenOut(old(activeBarriers), activeBarriers, id)
    {
      var i := 0;
      while i < |activeBarriers|
        invariant 0 <= i <= |activeBarriers| && View() == old(View())
        invariant forall k :: 0 <= k < i ==> activeBarriers[k].ticket.id != id
      {
        if activeBarriers[i].ticket.id == id {
          activeBarriers := activeBarriers[..i] + activeBarriers[i + 1..];
          generation := generation + 1;
          return;
        }
        i := i + 1;
      }
    }
  }

  // ---- what the scan has seen --------------------------------------------------

  datatype Filter = Anyone | AgedAt(now: nat) | AKA

  predicate Accepts(f: Filter, t: Ticket) {
    match f
    case Anyone => true
    case AgedAt(now) => Aged(t, now)
    case AKA => t.cls == USIMAKA
  }

  /** The tracker holds the first candidate before n that the filter accepts. */
  ghost predicate FirstOf(c: Core, o: Option<nat>, n: nat, f: Filter)
    requires n <= |c.queue|
  {
    match o
    case None => forall j :: 0 <= j < n && Candidate(c, j) ==> !Accepts(f, c.queue[j])
    case Some(k) =>
      && k < |c.queue| && Candidate(c, k) && Accepts(f, c.queue[k])
      && forall j :: 0 <= j < k && Candidate(c, j) ==> !Accepts(f, c.queue[j])
  }

  lemma Advance(c: Core, i: nat, f: Filter, o: Option<nat>, o': Option<nat>)
    requires i < |c.queue| && FirstOf(c, o, i, f)
    requires o' == if o.None? && Candidate(c, i) && Accepts(f, c.queue[i]) then Some(i) else o
    ensures FirstOf(c, o', i + 1, f)
  {
    hide Candidate;
  }

  lemma NothingSeen(c: Core, now: nat)
    ensures Reached(c, 0) && FirstOf(c, None, 0, Anyone) && FirstOf(c, None, 0, AgedAt(now)) && FirstOf(c, None, 0, AKA)
  {}

  /** What the tests of one ticket mean for the scan. */
  lemma Classified(c: Core, i: nat)
    requires i < |c.queue| && Reached(c, i)
    ensures var t := c.queue[i];
      && (Stops(c, t) <==>
            t.leaseType != Transport || (!BlockedByActive(c.barriers, t.cls) && !Fits(c, t) && Gates(c, t)))
      && (Candidate(c, i) <==> t.leaseType == Transport && !BlockedByActive(c.barriers, t.cls) && Fits(c, t))
      && (!Stops(c, t) ==> Reached(c, i + 1))
  {
    hide Fits, Gates, BlockedByActive;
  }

  lemma AdvanceAll(c: Core, i: nat, e: Option<nat>, g: Option<nat>, k: Option<nat>, now: nat,
                   e': Option<nat>, g': Option<nat>, k': Option<nat>)
    requires i < |c.queue| && FirstOf(c, e, i, Anyone) && FirstOf(c, g, i, AgedAt(now)) && FirstOf(c, k, i, AKA)
    requires e' == if e.None? && Candidate(c, i) then Some(i) else e
    requires g' == if g.None? && Candidate(c, i) && Aged(c.queue[i], now) then Some(i) else g
    requires k' == if k.None? && Candidate(c, i) && c.queue[i].cls == USIMAKA then Some(i) else k
    ensures FirstOf(c, e', i + 1, Anyone) && FirstOf(c, g', i + 1, AgedAt(now)) && FirstOf(c, k', i + 1, AKA)
  {
    hide FirstOf, Candidate;
    Advance(c, i, Anyone, e, e');
    Advance(c, i, AgedAt(now), g, g');
    Advance(c, i, AKA, k, k');
  }

  /** Behind a ticket that stops the scan there is no candidate. */
  lemma ScanEnds(c: Core, i: nat, e: Option<nat>, g: Option<nat>, k: Option<nat>, now: nat)
    requires i < |c.queue| && Stops(c, c.queue[i])
    requires FirstOf(c, e, i, Anyone) && FirstOf(c, g, i, AgedAt(now)) && FirstOf(c, k, i, AKA)
    ensures FirstOf(c, e, |c.queue|, Anyone) && FirstOf(c, g, |c.queue|, AgedAt(now)) && FirstOf(c, k, |c.queue|, AKA)
  {
    assert forall j :: i <= j ==> !Candidate(c, j);
    hide Candidate, Stops;
  }

  lemma BestIsSelected(c: Core, now: nat, e: Option<nat>, g: Option<nat>, k: Option<nat>)
    requires FirstOf(c, e, |c.queue|, Anyone) && FirstOf(c, g, |c.queue|, AgedAt(now)) && FirstOf(c, k, |c.queue|, AKA)
    ensures g.Some? ==> SelectedAt(c, now, g.value)
    ensures g.None? && k.Some? ==> SelectedAt(c, now, k.value)
    ensures g.None? && k.None? && e.Some? ==> SelectedAt(c, now, e.value)
    ensures e.None? ==> forall i :: !Candidate(c, i)
  {
    forall j | Candidate(c, j) ensures 0 <= j < |c.queue| {}
    hide Candidate;
  }

  lemma SelectionIsUnique(c: Core, now: nat)
    ensures forall i, j :: SelectedAt(c, now, i) && SelectedAt(c, now, j) ==> i == j
  {
    forall i, j | SelectedAt(c, now, i) && SelectedAt(c, now, j) ensures i == j {
      assert Precedes(c, now, i, j) && Precedes(c, now, j, i);
    }
  }

  /** A grant: off the queue, into the active lists, counted and signalled. */
  lemma AdmitInParts(c: Core, now: nat, i: nat)
    requires i < |c.queue|
    ensures var d := AddActive(c.(queue := RemoveAt(c.queue, i)), Held(c.queue[i], now, now + c.opts.maxLeaseHold));
      Admit(c, now, i) == d.(acquires := c.acquires + 1, gen := c.gen + 1)
      && d.acquires == c.acquires && d.gen == c.gen
  {}

  lemma EnqueueKeepsIds(q: seq<Ticket>, t: Ticket)
    requires ProperIds(q) && t.id > 0 && TicketIndex(q, t.id) == |q|
    ensures ProperIds(q + [t])
  {}

  lemma RemovalKeepsIds(q: seq<Ticket>, i: nat)
    requires i < |q| && ProperIds(q)
    ensures ProperIds(q[..i] + q[i + 1..])
  {
    var r := q[..i] + q[i + 1..];
    assert forall k :: 0 <= k < |r| ==> r[k] == q[if k < i then k else k + 1];
  }

  lemma FirstMatch(q: seq<Ticket>, id: nat, i: nat)
    requires i < |q| && q[i].id == id && forall k :: 0 <= k < i ==> q[k].id != id
    ensures TicketIndex(q, id) == i
  {}
}
