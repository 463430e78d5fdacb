/** The arbiter with everybody who uses it: callers waiting for a grant, callers
    waiting for idleness, holders, watchdog timers and a clock.  Each lock section of
    the program is one event. */
module ArbiterSystem {
  import opened Common
  import opened ArbiterPolicy

  // A caller parked in `select`: the channel generation it sleeps on and the time of
  // the evaluation that sent it to sleep.
  datatype Waiter = Waiter(gen: nat, evalAt: nat)

  datatype System = System(
    core: Core,
    clock: nat,
    waiters: map<nat, Waiter>,
    idlers: map<nat, nat>,
    used: set<nat>)

  datatype Event =
    | Tick(to: nat)
    | Arrive(t: Ticket)
    | Retry(id: nat)
    | Cancel(id: nat)
    | Touch(id: nat, lt: LeaseType)
    | Release(id: nat, lt: LeaseType)
    | Expire(id: nat, lt: LeaseType)
    | ReleaseBarrier(id: nat)
    | IdleCheck(w: nat)
    | IdleCancel(w: nat)

  ghost predicate Init(s: System) {
    && ValidOptions(s.core.opts)
    && NothingHeld(s.core)
    && s.core.queue == []
    && s.core.waitRequests == s.core.acquires == s.core.waitTimeouts == s.core.forcedReleases == 0
    && s.waiters == map[] && s.idlers == map[] && s.used == {}
  }

  /** When the environment may produce an event.  A parked caller runs again only after
      the channel it sleeps on has been closed; watchdog timers, late releases and
      cancellations may come at any time. */
  ghost predicate Enabled(s: System, e: Event) {
    match e
    case Tick(to) => s.clock <= to
    case Arrive(t) => t.id > 0 && t.id !in s.used && t.enqueued <= s.clock
    case Retry(id) => id in s.waiters && s.waiters[id].gen < s.core.gen
        && TicketIndex(s.core.queue, id) < |s.core.queue|
    case Cancel(id) => id in s.waiters && TicketIndex(s.core.queue, id) < |s.core.queue|
    case IdleCheck(w) => w in s.idlers ==> s.idlers[w] < s.core.gen
    case _ => true
  }

  /** The ticket an event grants, if any. */
  ghost function Granted(s: System, e: Event): Option<Ticket>
    requires Enabled(s, e)
  {
    match e
    case Arrive(t) =>
      if CanAcquireAt(Enqueue(s.core, t), s.clock, |s.core.queue|) then Some(t) else None
    case Retry(id) =>
      var i := TicketIndex(s.core.queue, id);
      if CanAcquireAt(s.core, s.clock, i) then Some(s.core.queue[i]) else None
    case _ => None
  }

  ghost function Step(s: System, e: Event): System
    requires Enabled(s, e)
  {
    var c := s.core;
    match e
    case Tick(to) => s.(clock := to)
    case Arrive(t) =>
      var c1 := Enqueue(c, t);
      var i := |c.queue|;
      if CanAcquireAt(c1, s.clock, i) then
        s.(core := Admit(c1, s.clock, i), used := s.used + {t.id})
      else
        s.(core := c1, waiters := s.waiters[t.id := Waiter(c1.gen, s.clock)], used := s.used + {t.id})
    case Retry(id) =>
      var i := TicketIndex(c.queue, id);
      if CanAcquireAt(c, s.clock, i) then
        s.(core := Admit(c, s.clock, i), waiters := s.waiters - {id})
      else
        s.(waiters := s.waiters[id := Waiter(c.gen, s.clock)])
    case Cancel(id) =>
      s.(core := Withdraw(c, TicketIndex(c.queue, id)), waiters := s.waiters - {id})
    case Touch(id, lt) => s.(core := TouchLease(c, s.clock, id, lt))
    case Release(id, lt) => s.(core := ReleaseLease(c, id, lt))
    case Expire(id, lt) => s.(core := ExpireLease(c, s.clock, id, lt))
    case ReleaseBarrier(id) => s.(core := ReleaseBarrierHold(c, id))
    case IdleCheck(w) =>
      if Idle(c) then s.(idlers := s.idlers - {w}) else s.(idlers := s.idlers[w := c.gen])
    case IdleCancel(w) => s.(idlers := s.idlers - {w})
  }

  // ---- runs ------------------------------------------------------------------

  ghost predicate Follows(run: seq<System>, evs: seq<Event>) {
    && |run| == |evs| + 1
    && forall k :: 0 <= k < |evs| ==> Enabled(run[k], evs[k]) && run[k + 1] == Step(run[k], evs[k])
  }

  ghost predicate IsRun(run: seq<System>, evs: seq<Event>) {
    Follows(run, evs) && Init(run[0])
  }

  // ---- the invariant ---------------------------------------------------------

  function TicketIds(q: seq<Ticket>): seq<nat> { seq(|q|, i requires 0 <= i < |q| => q[i].id) }
  function HeldIds(hs: seq<Held>): seq<nat> { seq(|hs|, i requires 0 <= i < |hs| => hs[i].ticket.id) }
  function BarrierIds(bs: seq<BarrierHold>): seq<nat> { seq(|bs|, i requires 0 <= i < |bs| => bs[i].ticket.id) }

  function Times(ids: seq<nat>, id: nat): nat { multiset(ids)[id] }

  /** How many leases, and how many places in all, carry this id. */
  function LeaseCount(c: Core, id: nat): nat {
    Times(HeldIds(c.sessions), id)
    + (if c.oneshot.Some? && c.oneshot.value.ticket.id == id then 1 else 0)
    + Times(HeldIds(c.transports), id)
  }

  function LiveCount(c: Core, id: nat): nat {
    Times(TicketIds(c.queue), id) + LeaseCount(c, id) + Times(BarrierIds(c.barriers), id)
  }

  /** Every issued id lives in at most one place. */
  ghost predicate OwnIds(c: Core, used: set<nat>) {
    forall id: nat :: LiveCount(c, id) <= 1 && (LiveCount(c, id) > 0 ==> id in used)
  }

  ghost predicate DistinctChannels(ts: seq<Held>) {
    forall i, j :: 0 <= i < j < |ts| ==> ts[i].ticket.channel != ts[j].ticket.channel
  }

  /** One exclusive transport, or a bounded number on pairwise different channels. */
  ghost predicate TransportShape(ts: seq<Held>, limit: nat) {
    && (HasExclusive(ts) ==> |ts| == 1)
    && (!HasExclusive(ts) ==> |ts| <= limit && DistinctChannels(ts))
  }

  ghost predicate Unblocked(hs: seq<Held>, bs: seq<BarrierHold>) {
    forall k :: 0 <= k < |hs| ==> !BlockedByActive(bs, hs[k].ticket.cls)
  }

  /** Resource exclusion. */
  ghost predicate Exclusion(c: Core) {
    && (c.sessions != [] ==> c.oneshot.None? && c.transports == [])
    && (c.oneshot.Some? ==> c.transports == [])
    && |c.sessions| <= c.opts.maxSessions
    && TransportShape(c.transports, c.opts.maxQMITransports)
    && Unblocked(c.sessions, c.barriers)
    && (c.oneshot.Some? ==> !BlockedByActive(c.barriers, c.oneshot.value.ticket.cls))
    && Unblocked(c.transports, c.barriers)
  }

  ghost predicate AllOfType(hs: seq<Held>, lt: LeaseType) {
    forall k :: 0 <= k < |hs| ==> hs[k].ticket.leaseType == lt
  }

  /** Every lease is kept in the list of its own type. */
  ghost predicate Sorted(c: Core) {
    && AllOfType(c.sessions, Session)
    && (c.oneshot.Some? ==> c.oneshot.value.ticket.leaseType == OneShot)
    && AllOfType(c.transports, Transport)
  }

  ghost predicate Ledger(c: Core) {
    c.waitRequests == c.acquires + c.waitTimeouts + |c.queue|
  }

  ghost predicate CoreInv(c: Core, used: set<nat>) {
    && ValidOptions(c.opts)
    && OwnIds(c, used)
    && Exclusion(c)
    && Sorted(c)
    && Ledger(c)
  }

  /** Asleep on the channel that is still open. */
  predicate Asleep(s: System, id: nat) {
    id in s.waiters && s.waiters[id].gen == s.core.gen
  }

  /** Everyone queued is parked; nobody sleeps on a future channel; and the ticket of
      anyone asleep on the open channel was not admissible when it was last looked at. */
  ghost predicate Parked(s: System) {
    && (forall id :: id in s.waiters <==> Times(TicketIds(s.core.queue), id) > 0)
    && (forall id :: id in s.waiters ==> s.waiters[id].gen <= s.core.gen && s.waiters[id].evalAt <= s.clock)
    && (forall i :: 0 <= i < |s.core.queue| ==> s.core.queue[i].enqueued <= s.clock)
    && (forall i :: 0 <= i < |s.core.queue| && Asleep(s, s.core.queue[i].id)
          ==> !CanAcquireAt(s.core, s.waiters[s.core.queue[i].id].evalAt, i))
  }

  /** Whoever waits for idleness on the open channel waits for a reason. */
  ghost predicate IdlersParked(s: System) {
    forall w :: w in s.idlers ==> s.idlers[w] <= s.core.gen && (s.idlers[w] == s.core.gen ==> !Idle(s.core))
  }

  ghost predicate Inv(s: System) {
    CoreInv(s.core, s.used) && Parked(s) && IdlersParked(s)
  }
}
