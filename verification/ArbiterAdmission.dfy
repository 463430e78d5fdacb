/** When a caller is granted, in terms of what may be held together: nobody is refused
    without a reason. */
module ArbiterAdmission {
  import opened Common
  import opened ArbiterPolicy
  import opened ArbiterSystem
  import opened ArbiterInvariant

  ghost predicate NothingLeased(c: Core) { c.sessions == [] && c.oneshot.None? && c.transports == [] }

  /** What would be held if the ticket were granted besides everything held now. */
  function With(c: Core, now: nat, t: Ticket): Core { AddActive(c, Held(t, now, now + c.opts.maxLeaseHold)) }

  // ---- room for one transport ------------------------------------------------

  lemma ExclusiveAdded(ts: seq<Held>, h: Held)
    ensures HasExclusive(ts + [h]) <==> HasExclusive(ts) || h.ticket.scope != QMIChannel
  {
    assert (ts + [h])[|ts|] == h;
    if HasExclusive(ts) {
      var k :| 0 <= k < |ts| && ts[k].ticket.scope != QMIChannel;
      assert (ts + [h])[k] == ts[k];
    }
  }

  lemma UnblockedAdded(hs: seq<Held>, h: Held, bs: seq<BarrierHold>)
    requires Unblocked(hs, bs)
    ensures Unblocked(hs + [h], bs) <==> !BlockedByActive(bs, h.ticket.cls)
  {
    hide BlockedByActive;
    assert (hs + [h])[|hs|] == h;
  }

  lemma ChannelsAdded(ts: seq<Held>, h: Held)
    requires DistinctChannels(ts) && !HasExclusive(ts)
    ensures DistinctChannels(ts + [h]) <==> !ChannelTaken(ts, h.ticket.channel)
  {
    var ts' := ts + [h];
    assert ts'[|ts|] == h && forall k :: 0 <= k < |ts| ==> ts'[k] == ts[k];
    if ChannelTaken(ts, h.ticket.channel) {
      var k :| 0 <= k < |ts| && ts[k].ticket.scope == QMIChannel && ts[k].ticket.channel == h.ticket.channel;
      assert ts'[k].ticket.channel == ts'[|ts|].ticket.channel;
    } else {
      assert forall k :: 0 <= k < |ts| ==> ts[k].ticket.scope == QMIChannel;
    }
  }

  /** A transport fits beside the transports held exactly when the longer list still has its
      proper shape. */
  lemma FitsExactly(c: Core, h: Held)
    requires h.ticket.leaseType == Transport && TransportShape(c.transports, c.opts.maxQMITransports)
    ensures Fits(c, h.ticket) <==> TransportShape(c.transports + [h], c.opts.maxQMITransports)
  {
    var ts := c.transports;
    ExclusiveAdded(ts, h);
    if !HasExclusive(ts) {
      QmiCountAll(ts);
      ChannelsAdded(ts, h);
    }
    hide HasExclusive, ChannelTaken, DistinctChannels, QmiCount;
  }

  lemma FitsBeside(c: Core, h: Held)
    ensures TransportShape(c.transports, c.opts.maxQMITransports) ==>
      (Fits(c, h.ticket) <==>
       h.ticket.leaseType == Transport && TransportShape(c.transports + [h], c.opts.maxQMITransports))
  {
    hide TransportShape;
    if h.ticket.leaseType == Transport && TransportShape(c.transports, c.opts.maxQMITransports) {
      FitsExactly(c, h);
    }
  }

  lemma EnqueueKeepsExclusion(c: Core, t: Ticket)
    ensures Exclusion(Enqueue(c, t)) <==> Exclusion(c)
  {
    hide TransportShape, Unblocked, BlockedByActive;
  }

  lemma RoomExactly(c: Core, now: nat, t: Ticket)
    requires Exclusion(c) && t.leaseType == Transport
    ensures Exclusion(With(c, now, t)) <==>
            c.sessions == [] && c.oneshot.None? && !BlockedByActive(c.barriers, t.cls) && Fits(c, t)
  {
    var h := Held(t, now, now + c.opts.maxLeaseHold);
    FitsExactly(c, h);
    UnblockedAdded(c.transports, h, c.barriers);
    hide Fits, BlockedByActive, TransportShape, Unblocked;
    assert With(c, now, t) == c.(transports := c.transports + [h]);
  }

  lemma SessionRoomExactly(c: Core, now: nat, t: Ticket)
    requires Exclusion(c) && t.leaseType == Session
    ensures Exclusion(With(c, now, t)) <==>
      && c.oneshot.None? && c.transports == [] && |c.sessions| < c.opts.maxSessions
      && !BlockedByActive(c.barriers, t.cls)
  {
    var h := Held(t, now, now + c.opts.maxLeaseHold);
    UnblockedAdded(c.sessions, h, c.barriers);
    hide BlockedByActive, TransportShape, Unblocked;
    assert With(c, now, t) == c.(sessions := c.sessions + [h]);
  }

  // ---- who deserves a grant ----------------------------------------------------

  /** A transport that does not hold up those behind it: its class is blocked for now, or it
      would find room at least on some other channel. */
  ghost predicate Passable(c: Core, now: nat, t: Ticket) {
    t.leaseType == Transport &&
      (BlockedByActive(c.barriers, t.cls) || exists ch: int :: Exclusion(With(c, now, OnChannel(t, ch))))
  }

  function OnChannel(t: Ticket, ch: int): Ticket { t.(channel := ch) }

  ghost predicate Eligible(c: Core, now: nat, i: int) {
    && 0 <= i < |c.queue|
    && c.queue[i].leaseType == Transport
    && Exclusion(With(c, now, c.queue[i]))
    && forall j :: 0 <= j < i ==> Passable(c, now, c.queue[j])
  }

  /** The order among eligible transports: those that have waited for half a second, unless
      they are AKA; then AKA; then the rest; and the order of the queue within each kind. */
  predicate GoesFirst(t: Ticket, i: int, u: Ticket, j: int, now: nat) {
    if u.cls != USIMAKA && now - u.enqueued >= 500 then t.cls != USIMAKA && now - t.enqueued >= 500 && i <= j
    else if t.cls != USIMAKA && now - t.enqueued >= 500 then true
    else if u.cls == USIMAKA then t.cls == USIMAKA && i <= j
    else t.cls == USIMAKA || i <= j
  }

  /** Admission, said in terms of what may be held together. */
  ghost predicate Deserves(c: Core, now: nat, i: nat)
    requires i < |c.queue|
  {
    var t := c.queue[i];
    match t.leaseType
    case Session => i == 0 && Exclusion(With(c, now, t))
    case OneShot => i == 0 && NothingLeased(c) && !BlockedByActive(c.barriers, t.cls)
    case Barrier => NothingLeased(c) && forall j :: 0 <= j < i ==> c.queue[j].leaseType != Barrier
    case Transport =>
      Eligible(c, now, i) && forall j :: Eligible(c, now, j) ==> GoesFirst(t, i, c.queue[j], j, now)
  }

  lemma {:induction false} FreshChannel(ts: seq<Held>) returns (ch: int)
    ensures forall k :: 0 <= k < |ts| ==> ts[k].ticket.channel < ch
  {
    ch := 0;
    if ts != [] {
      var ch' := FreshChannel(ts[..|ts| - 1]);
      ch := if ts[|ts| - 1].ticket.channel < ch' then ch' else ts[|ts| - 1].ticket.channel + 1;
      assert forall k :: 0 <= k < |ts| - 1 ==> ts[k] == ts[..|ts| - 1][k];
    }
  }

  lemma PassableExactly(c: Core, now: nat, t: Ticket)
    requires Exclusion(c) && c.sessions == [] && c.oneshot.None?
    ensures Passable(c, now, t) <==> !Stops(c, t)
  {
    hide Exclusion, BlockedByActive, With;
    if t.leaseType == Transport && !BlockedByActive(c.barriers, t.cls) {
      forall ch ensures Exclusion(With(c, now, OnChannel(t, ch))) <==> Fits(c, OnChannel(t, ch)) {
        RoomExactly(c, now, OnChannel(t, ch));
      }
      if Fits(c, t) {
        assert OnChannel(t, t.channel) == t;
      } else if !Gates(c, t) {
        var ch := FreshChannel(c.transports);
        assert Fits(c, OnChannel(t, ch));
      }
    }
  }

  lemma EligibleExactly(c: Core, now: nat, i: int)
    requires Exclusion(c) && c.sessions == [] && c.oneshot.None?
    ensures Eligible(c, now, i) <==> Candidate(c, i)
  {
    hide Exclusion, BlockedByActive, With, Passable, Stops, Fits;
    if 0 <= i < |c.queue| {
      forall j | 0 <= j < i ensures Passable(c, now, c.queue[j]) <==> !Stops(c, c.queue[j]) {
        PassableExactly(c, now, c.queue[j]);
      }
      if c.queue[i].leaseType == Transport { RoomExactly(c, now, c.queue[i]); }
    }
  }

  lemma FirstIsPreceding(c: Core, now: nat, i: int, j: int)
    requires 0 <= i < |c.queue| && 0 <= j < |c.queue|
    ensures GoesFirst(c.queue[i], i, c.queue[j], j, now) <==> Precedes(c, now, i, j)
  {}

  lemma TransportAdmittedExactly(c: Core, now: nat, i: nat)
    requires Exclusion(c) && i < |c.queue| && c.queue[i].leaseType == Transport
    ensures CanAcquireAt(c, now, i) <==> Deserves(c, now, i)
  {
    hide Exclusion, With, Passable, Stops, Fits, GoesFirst, Precedes, Eligible, Candidate;
    if c.sessions == [] && c.oneshot.None? {
      forall j ensures Eligible(c, now, j) <==> Candidate(c, j) {
        EligibleExactly(c, now, j);
      }
      forall j | 0 <= j < |c.queue| ensures GoesFirst(c.queue[i], i, c.queue[j], j, now) <==> Precedes(c, now, i, j) {
        FirstIsPreceding(c, now, i, j);
      }
      CandidatesAreUnblocked(c, i);
    } else {
      NoRoom(c, now, i);
    }
  }

  lemma CandidatesAreUnblocked(c: Core, i: nat)
    requires i < |c.queue|
    ensures Candidate(c, i) ==> !BlockedByActive(c.barriers, c.queue[i].cls) && !PendingBarrierAhead(c.queue, i)
    ensures forall j :: Candidate(c, j) ==> 0 <= j < |c.queue|
  {
    if Candidate(c, i) {
      forall j | 0 <= j < i ensures c.queue[j].leaseType != Barrier {
        assert !Stops(c, c.queue[j]);
      }
    }
  }

  lemma NoRoom(c: Core, now: nat, i: nat)
    requires Exclusion(c) && i < |c.queue| && !(c.sessions == [] && c.oneshot.None?)
    requires c.queue[i].leaseType == Transport
    ensures !Eligible(c, now, i)
  {
    RoomExactly(c, now, c.queue[i]);
    hide Exclusion;
  }

  /** The policy grants exactly what is deserved. */
  lemma AdmittedExactly(c: Core, now: nat, i: nat)
    requires Exclusion(c) && i < |c.queue|
    ensures CanAcquireAt(c, now, i) <==> Deserves(c, now, i)
  {
    if c.queue[i].leaseType == Transport {
      TransportAdmittedExactly(c, now, i);
    } else {
      hide Exclusion, BlockedByActive, With;
      if c.queue[i].leaseType == Session { SessionRoomExactly(c, now, c.queue[i]); }
    }
  }

  // ---- who is granted ------------------------------------------------------------

  /** In every reachable state whoever looks is granted exactly if deserving. */
  lemma GrantedExactly(run: seq<System>, evs: seq<Event>, k: nat)
    requires IsRun(run, evs) && k < |evs|
    ensures var s, q := run[k], run[k].core.queue;
      match evs[k]
      case Arrive(t) =>
        Granted(s, evs[k]) == if Deserves(s.core.(queue := q + [t]), s.clock, |q|) then Some(t) else None
      case Retry(id) =>
        var i := TicketIndex(q, id);
        Granted(s, evs[k]) == if Deserves(s.core, s.clock, i) then Some(q[i]) else None
      case _ => Granted(s, evs[k]) == None
  {
    RunInv(run, evs, k);
    var s := run[k];
    match evs[k]
    case Arrive(t) =>
      AdmittedExactly(Enqueue(s.core, t), s.clock, |s.core.queue|);
      SameQueueSameDeserts(Enqueue(s.core, t), s.core.(queue := s.core.queue + [t]), s.clock, |s.core.queue|);
    case Retry(id) => AdmittedExactly(s.core, s.clock, TicketIndex(s.core.queue, id));
    case _ =>
  }

  lemma SameQueueSameDeserts(c: Core, d: Core, now: nat, i: nat)
    requires Exclusion(c) && c == d.(waitRequests := c.waitRequests, gen := c.gen) && i < |c.queue|
    ensures Deserves(c, now, i) <==> Deserves(d, now, i)
  {
    assert Exclusion(d);
    AdmittedExactly(c, now, i);
    AdmittedExactly(d, now, i);
    assert SameView(c, d);
    SameViewSameAdmission(c, d, now, i);
  }

  /** With nobody waiting, a session or a transport is granted at once if and only if holding
      it besides the rest keeps exclusion; a one-shot if and only if nothing is leased and no
      active barrier blocks it; a barrier if and only if nothing is leased, whatever barriers
      are active. */
  lemma ArrivalExactly(s: System, t: Ticket)
    requires Enabled(s, Arrive(t)) && Exclusion(s.core) && s.core.queue == []
    ensures var c := s.core;
      Granted(s, Arrive(t)).Some? <==>
      match t.leaseType
      case Barrier => c.sessions == [] && c.oneshot.None? && c.transports == []
      case OneShot =>
        && c.sessions == [] && c.oneshot.None? && c.transports == []
        && forall b :: 0 <= b < |c.barriers| ==> t.cls !in c.barriers[b].ticket.blocked
      case _ => Exclusion(AddActive(c, Held(t, s.clock, s.clock + c.opts.maxLeaseHold)))
  {
    var c := s.core;
    var c1 := Enqueue(c, t);
    assert c1.queue == [t];
    AdmittedExactly(c1, s.clock, 0);
    SameRoom(c1, c, s.clock, t);
    hide Exclusion, AddActive, BlockedByActive;
    if t.leaseType == Transport { OnlyOneToChoose(c1, s.clock); }
    NotBlockedByAny(c.barriers, t.cls);
  }

  lemma SameRoom(c: Core, d: Core, now: nat, t: Ticket)
    requires c == d.(queue := c.queue, waitRequests := c.waitRequests, gen := c.gen)
    ensures Exclusion(With(c, now, t)) <==> Exclusion(With(d, now, t))
  {
    hide TransportShape, Unblocked;
  }

  lemma NotBlockedByAny(bs: seq<BarrierHold>, cls: APDUClass)
    ensures !BlockedByActive(bs, cls) <==> forall b :: 0 <= b < |bs| ==> cls !in bs[b].ticket.blocked
  {}

  lemma OnlyOneToChoose(c: Core, now: nat)
    requires |c.queue| == 1 && c.queue[0].leaseType == Transport
    ensures Deserves(c, now, 0) <==> Exclusion(With(c, now, c.queue[0]))
  {
    hide Exclusion, With;
  }

  /** A transport at the head of the queue that nobody outranks is granted, when its caller
      looks, if and only if holding it besides the rest keeps exclusion. */
  lemma HeadExactly(s: System, id: nat)
    requires Inv(s) && Enabled(s, Retry(id))
    requires s.core.queue[0].id == id && s.core.queue[0].leaseType == Transport
    requires forall j :: 0 < j < |s.core.queue| ==> GoesFirst(s.core.queue[0], 0, s.core.queue[j], j, s.clock)
    ensures Granted(s, Retry(id)).Some? <==> Exclusion(With(s.core, s.clock, s.core.queue[0]))
  {
    AdmittedExactly(s.core, s.clock, 0);
    hide Inv, Exclusion, With;
    assert TicketIndex(s.core.queue, id) == 0;
  }

  /** Room for the head of a queue of transports is never left unused: some transport may be
      granted now, the head itself or one that outranks it. */
  lemma RoomIsUsed(s: System) returns (i: nat)
    requires Exclusion(s.core) && s.core.queue != [] && s.core.queue[0].leaseType == Transport
    requires Exclusion(With(s.core, s.clock, s.core.queue[0]))
    ensures i < |s.core.queue| && CanAcquireAt(s.core, s.clock, i)
    ensures i > 0 ==> !GoesFirst(s.core.queue[0], 0, s.core.queue[i], i, s.clock)
  {
    var c := s.core;
    RoomExactly(c, s.clock, c.queue[0]);
    EligibleExactly(c, s.clock, 0);
    i := SelectionExists(c, s.clock, 0);
    CandidatesAreUnblocked(c, i);
    FirstIsPreceding(c, s.clock, 0, i);
    hide Exclusion, With, Fits, Stops;
  }
}
