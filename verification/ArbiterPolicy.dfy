/** The admission policy of the APDU arbiter: which queued ticket may be granted,
    given what is held now.  Everything here is a function of one state value; the
    imperative arbiter (ArbiterObject) and the interleaved system (ArbiterSystem)
    are both stated in these terms. */
module ArbiterPolicy {
  import opened Common

  datatype LeaseType = Session | OneShot | Transport | Barrier
  datatype Scope = Exclusive | QMIChannel
  datatype APDUClass =
    | EUICCWrite | EUICCRead | USIMAKA | SMSC | SwitchBarrier | Recovery
    | Custom(name: string)

  // Times are milliseconds.
  const PRIORITY_AGING: nat := 500

  datatype Options = Options(maxLeaseHold: nat, maxSessions: nat, maxQMITransports: nat)

  // `blocked` is empty unless the ticket is a barrier.
  datatype Ticket = Ticket(
    id: nat, cls: APDUClass, channel: int, scope: Scope,
    leaseType: LeaseType, blocked: set<APDUClass>, enqueued: nat)

  datatype Held = Held(ticket: Ticket, acquiredAt: nat, expiresAt: nat)
  datatype BarrierHold = BarrierHold(ticket: Ticket, acquiredAt: nat)

  /** The lock-protected fields.  `gen` counts how often the notification channel
      has been closed and replaced. */
  datatype Core = Core(
    opts: Options,
    queue: seq<Ticket>,
    sessions: seq<Held>,
    oneshot: Option<Held>,
    transports: seq<Held>,
    barriers: seq<BarrierHold>,
    gen: nat,
    waitRequests: nat, acquires: nat, waitTimeouts: nat, forcedReleases: nat)

  predicate ValidOptions(o: Options) {
    o.maxLeaseHold > 0 && o.maxSessions > 0 && o.maxQMITransports > 0
  }

  ghost predicate NothingHeld(c: Core) {
    c.sessions == [] && c.oneshot.None? && c.transports == [] && c.barriers == []
  }

  predicate Idle(c: Core) {
    c.oneshot.None? && c.transports == [] && c.sessions == [] && c.barriers == [] && c.queue == []
  }

  // ---- what a transport needs ------------------------------------------------

  ghost predicate BlockedByActive(bs: seq<BarrierHold>, cls: APDUClass) {
    exists k :: 0 <= k < |bs| && cls in bs[k].ticket.blocked
  }

  ghost predicate HasExclusive(ts: seq<Held>) {
    exists k :: 0 <= k < |ts| && ts[k].ticket.scope != QMIChannel
  }

  function QmiCount(ts: seq<Held>): nat {
    if ts == [] then 0
    else QmiCount(ts[..|ts| - 1]) + if ts[|ts| - 1].ticket.scope == QMIChannel then 1 else 0
  }

  ghost predicate ChannelTaken(ts: seq<Held>, channel: int) {
    exists k :: 0 <= k < |ts| && ts[k].ticket.scope == QMIChannel && ts[k].ticket.channel == channel
  }

  ghost predicate Fits(c: Core, t: Ticket) {
    && t.leaseType == Transport
    && (t.scope != QMIChannel ==> c.transports == [])
    && (t.scope == QMIChannel ==>
          && !HasExclusive(c.transports)
          && QmiCount(c.transports) < c.opts.maxQMITransports
          && !ChannelTaken(c.transports, t.channel))
  }

  ghost predicate Gates(c: Core, t: Ticket) {
    || t.leaseType != Transport
    || t.scope != QMIChannel
    || HasExclusive(c.transports)
    || QmiCount(c.transports) >= c.opts.maxQMITransports
  }

  // ---- selection among queued transports -------------------------------------

  /** The scan for a transport ends at such a ticket. */
  ghost predicate Stops(c: Core, t: Ticket) {
    || t.leaseType != Transport
    || (!BlockedByActive(c.barriers, t.cls) && !Fits(c, t) && Gates(c, t))
  }

  ghost predicate Reached(c: Core, i: int)
    requires i <= |c.queue|
  {
    forall j :: 0 <= j < i ==> !Stops(c, c.queue[j])
  }

  ghost predicate Candidate(c: Core, i: int) {
    && 0 <= i < |c.queue|
    && Reached(c, i)
    && c.queue[i].leaseType == Transport
    && !BlockedByActive(c.barriers, c.queue[i].cls)
    && Fits(c, c.queue[i])
  }

  predicate Aged(t: Ticket, now: nat) {
    t.cls != USIMAKA && now - t.enqueued >= PRIORITY_AGING
  }

  /** Aged traffic outranks AKA, AKA outranks the rest. */
  function Rank(t: Ticket, now: nat): nat {
    if Aged(t, now) then 2 else if t.cls == USIMAKA then 1 else 0
  }

  predicate Precedes(c: Core, now: nat, i: int, j: int)
    requires 0 <= i < |c.queue| && 0 <= j < |c.queue|
  {
    || Rank(c.queue[j], now) < Rank(c.queue[i], now)
    || (Rank(c.queue[j], now) == Rank(c.queue[i], now) && i <= j)
  }

  /** Position i holds the transport the policy picks: the highest rank, and the
      earliest in the queue within a rank. */
  ghost predicate SelectedAt(c: Core, now: nat, i: int) {
    && Candidate(c, i)
    && forall j :: Candidate(c, j) ==> Precedes(c, now, i, j)
  }

  // ---- admission -------------------------------------------------------------

  ghost predicate PendingBarrierAhead(q: seq<Ticket>, i: int)
    requires 0 <= i < |q|
  {
    exists j :: 0 <= j < i && q[j].leaseType == Barrier && q[i].cls in q[j].blocked
  }

  ghost predicate FirstBarrier(q: seq<Ticket>, i: int)
    requires 0 <= i < |q|
  {
    q[i].leaseType == Barrier && forall j :: 0 <= j < i ==> q[j].leaseType != Barrier
  }

  /** May the ticket at position i be granted at time `now`? */
  ghost predicate CanAcquireAt(c: Core, now: nat, i: int)
    requires 0 <= i < |c.queue|
  {
    var t := c.queue[i];
    if t.leaseType == Barrier then
      c.transports == [] && c.sessions == [] && c.oneshot.None? && FirstBarrier(c.queue, i)
    else
      && !BlockedByActive(c.barriers, t.cls)
      && !PendingBarrierAhead(c.queue, i)
      && match t.leaseType {
           case Session => i == 0 && c.oneshot.None? && c.transports == [] && |c.sessions| < c.opts.maxSessions
           case OneShot => i == 0 && c.sessions == [] && c.oneshot.None? && c.transports == []
           case _ => c.sessions == [] && c.oneshot.None? && SelectedAt(c, now, i)
         }
  }

  // ---- the lock sections, as functions on the core ---------------------------

  function RemoveAt<T>(s: seq<T>, i: nat): seq<T>
    requires i < |s|
  {
    s[..i] + s[i + 1..]
  }

  /** Position of the ticket with this id, or |q|. */
  function TicketIndex(q: seq<Ticket>, id: nat): (i: nat)
    ensures i <= |q|
    ensures i < |q| ==> q[i].id == id
    ensures forall j :: 0 <= j < i ==> q[j].id != id
  {
    if q == [] then 0 else if q[0].id == id then 0 else
      var k := TicketIndex(q[1..], id);
      assert forall j :: 1 <= j < 1 + k ==> q[j] == q[1..][j - 1];
      1 + k
  }

  function HeldIndex(hs: seq<Held>, id: nat): (i: nat)
    ensures i <= |hs|
    ensures i < |hs| ==> hs[i].ticket.id == id
    ensures forall j :: 0 <= j < i ==> hs[j].ticket.id != id
  {
    if hs == [] then 0 else if hs[0].ticket.id == id then 0 else
      var k := HeldIndex(hs[1..], id);
      assert forall j :: 1 <= j < 1 + k ==> hs[j] == hs[1..][j - 1];
      1 + k
  }

  function BarrierIndex(bs: seq<BarrierHold>, id: nat): (i: nat)
    ensures i <= |bs|
    ensures i < |bs| ==> bs[i].ticket.id == id
    ensures forall j :: 0 <= j < i ==> bs[j].ticket.id != id
  {
    if bs == [] then 0 else if bs[0].ticket.id == id then 0 else
      var k := BarrierIndex(bs[1..], id);
      assert forall j :: 1 <= j < 1 + k ==> bs[j] == bs[1..][j - 1];
      1 + k
  }

  function Enqueue(c: Core, t: Ticket): Core {
    c.(queue := c.queue + [t], waitRequests := c.waitRequests + 1, gen := c.gen + 1)
  }

  function AddActive(c: Core, h: Held): Core {
    match h.ticket.leaseType
    case Session => c.(sessions := c.sessions + [h])
    case OneShot => c.(oneshot := Some(h))
    case Transport => c.(transports := c.transports + [h])
    case Barrier => c.(barriers := c.barriers + [BarrierHold(h.ticket, h.acquiredAt)])
  }

  function Admit(c: Core, now: nat, i: nat): Core
    requires i < |c.queue|
  {
    var c1 := c.(queue := RemoveAt(c.queue, i), acquires := c.acquires + 1, gen := c.gen + 1);
    AddActive(c1, Held(c.queue[i], now, now + c.opts.maxLeaseHold))
  }

  function Withdraw(c: Core, i: nat): Core
    requires i < |c.queue|
  {
    c.(queue := RemoveAt(c.queue, i), waitTimeouts := c.waitTimeouts + 1, gen := c.gen + 1)
  }

  /** The active lease with this id and type, if there is one. */
  function FindActive(c: Core, id: nat, lt: LeaseType): Option<Held> {
    match lt
    case Session =>
      var i := HeldIndex(c.sessions, id);
      if i < |c.sessions| then Some(c.sessions[i]) else None
    case OneShot =>
      if c.oneshot.Some? && c.oneshot.value.ticket.id == id then c.oneshot else None
    case Transport =>
      var i := HeldIndex(c.transports, id);
      if i < |c.transports| then Some(c.transports[i]) else None
    case Barrier => None
  }

  function RemoveActive(c: Core, id: nat, lt: LeaseType): Core
    requires FindActive(c, id, lt).Some?
  {
    match lt
    case Session => c.(sessions := RemoveAt(c.sessions, HeldIndex(c.sessions, id)))
    case OneShot => c.(oneshot := None)
    case Transport => c.(transports := RemoveAt(c.transports, HeldIndex(c.transports, id)))
  }

  function ReleaseLease(c: Core, id: nat, lt: LeaseType): Core {
    if FindActive(c, id, lt).None? then c
    else RemoveActive(c, id, lt).(gen := c.gen + 1)
  }

  function ExpireLease(c: Core, now: nat, id: nat, lt: LeaseType): Core {
    var h := FindActive(c, id, lt);
    if h.None? || now < h.value.expiresAt then c
    else RemoveActive(c, id, lt).(gen := c.gen + 1, forcedReleases := c.forcedReleases + 1)
  }

  function TouchLease(c: Core, now: nat, id: nat, lt: LeaseType): Core {
    var h := FindActive(c, id, lt);
    if h.None? then c
    else
      var h' := h.value.(expiresAt := now + c.opts.maxLeaseHold);
      match lt
      case Session => c.(sessions := c.sessions[HeldIndex(c.sessions, id) := h'])
      case OneShot => c.(oneshot := Some(h'))
      case Transport => c.(transports := c.transports[HeldIndex(c.transports, id) := h'])
  }

  function ReleaseBarrierHold(c: Core, id: nat): Core {
    var i := BarrierIndex(c.barriers, id);
    if i == |c.barriers| then c
    else c.(barriers := RemoveAt(c.barriers, i), gen := c.gen + 1)
  }

  // ---- facts about the policy ------------------------------------------------

  /** A selection exists as soon as there is a candidate. */
  lemma SelectionExists(c: Core, now: nat, first: int) returns (best: int)
    requires Candidate(c, first)
    ensures SelectedAt(c, now, best)
  {
    best := first;
    var k := 0;
    while k < |c.queue|
      invariant 0 <= k <= |c.queue|
      invariant Candidate(c, best)
      invariant Precedes(c, now, best, first)
      invariant forall j :: 0 <= j < k && Candidate(c, j) ==> Precedes(c, now, best, j)
    {
      if Candidate(c, k) && !Precedes(c, now, best, k) {
        best := k;
      }
      k := k + 1;
    }
  }

  /** No policy deadlock: with nothing held, a non-empty queue always has a ticket
      that may be granted. */
  lemma NothingHeldSomeAdmissible(c: Core, now: nat) returns (i: nat)
    requires ValidOptions(c.opts)
    requires NothingHeld(c) && c.queue != []
    ensures i < |c.queue| && CanAcquireAt(c, now, i)
  {
    i := 0;
    if c.queue[0].leaseType == Transport {
      assert Candidate(c, 0);
      i := SelectionExists(c, now, 0);
      forall j | 0 <= j < i ensures c.queue[j].leaseType != Barrier {
        assert !Stops(c, c.queue[j]);
      }
    }
  }

  /** Bounded overtaking.  An aged transport outside AKA that no active barrier
      blocks is passed by a later lease in one situation only: it waits for its own
      QMI channel, and the later lease is a QMI transport on another, free channel. */
  lemma AgedIsNotOvertaken(c: Core, now: nat, k: nat, j: nat)
    requires k < j < |c.queue|
    requires c.queue[k].leaseType == Transport && Aged(c.queue[k], now)
    requires !BlockedByActive(c.barriers, c.queue[k].cls)
    requires c.queue[j].leaseType != Barrier
    requires CanAcquireAt(c, now, j)
    ensures c.queue[k].scope == QMIChannel && ChannelTaken(c.transports, c.queue[k].channel)
    ensures c.queue[j].leaseType == Transport && c.queue[j].scope == QMIChannel
    ensures c.queue[j].channel != c.queue[k].channel
  {
    assert !Stops(c, c.queue[k]);
    assert Fits(c, c.queue[k]) ==> Candidate(c, k);
  }

  /** Nothing queued behind a waiting barrier may be granted. */
  lemma WaitingBarrierFences(c: Core, now: nat, b: nat, j: nat)
    requires b < j < |c.queue|
    requires c.queue[b].leaseType == Barrier
    ensures !CanAcquireAt(c, now, j)
  {
    if c.queue[j].leaseType == Transport {
      assert Stops(c, c.queue[b]);
    }
  }
}
