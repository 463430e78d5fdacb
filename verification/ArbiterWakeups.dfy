/** Wakeups.  Every change of the arbiter closes the notification channel, but a ticket
    ageing past the priority threshold changes the policy without any signal. */
module ArbiterWakeups {
  import opened Common
  import opened ArbiterPolicy
  import opened ArbiterSystem
  import opened ArbiterInvariant

  /** The caller sleeps on the channel that is still open although its ticket may be
      granted now. */
  ghost predicate LostWakeup(s: System, i: nat) {
    && i < |s.core.queue|
    && Asleep(s, s.core.queue[i].id)
    && CanAcquireAt(s.core, s.clock, i)
  }

  /** The ticket crossed the ageing threshold after its caller last looked. */
  predicate AgedInItsSleep(s: System, i: nat)
    requires i < |s.core.queue| && s.core.queue[i].id in s.waiters
  {
    !Aged(s.core.queue[i], s.waiters[s.core.queue[i].id].evalAt) && Aged(s.core.queue[i], s.clock)
  }

  /** What exactly loses a wakeup: the ticket aged in its sleep, nothing else in front of
      it is aged, and when its caller looked another transport was preferred. */
  ghost predicate StrandedByAgeing(s: System, i: nat)
    requires i < |s.core.queue| && s.core.queue[i].id in s.waiters
  {
    && Asleep(s, s.core.queue[i].id)
    && s.core.sessions == [] && s.core.oneshot.None?
    && Candidate(s.core, i)
    && AgedInItsSleep(s, i)
    && (forall j :: 0 <= j < i && Candidate(s.core, j) ==> !Aged(s.core.queue[j], s.clock))
    && (exists j :: j != i && Candidate(s.core, j)
          && (j < i || s.core.queue[j].cls == USIMAKA || Aged(s.core.queue[j], s.waiters[s.core.queue[i].id].evalAt)))
  }

  lemma QueuedIsParked(s: System, i: nat)
    requires Inv(s) && i < |s.core.queue|
    ensures s.core.queue[i].id in s.waiters
  {
    QueuedIsCounted(s.core.queue, i);
  }

  lemma CandidateHasNoBarrierAhead(c: Core, i: nat)
    requires Candidate(c, i)
    ensures !PendingBarrierAhead(c.queue, i)
  {
    forall j | 0 <= j < i ensures c.queue[j].leaseType != Barrier {
      assert !Stops(c, c.queue[j]);
    }
  }

  lemma SelectionChange(c: Core, t0: nat, t1: nat, i: nat) returns (j: int)
    requires t0 <= t1 && SelectedAt(c, t1, i) && !SelectedAt(c, t0, i)
    ensures Candidate(c, j) && j != i && !Precedes(c, t0, i, j) && Precedes(c, t1, i, j)
    ensures !Aged(c.queue[i], t0) && Aged(c.queue[i], t1)
  {
    j :| Candidate(c, j) && !Precedes(c, t0, i, j);
    assert Precedes(c, t1, i, j);
  }

  /** The exact condition for a lost wakeup, in every reachable state. */
  lemma LostWakeupExactly(s: System, i: nat)
    requires Inv(s) && i < |s.core.queue|
    ensures s.core.queue[i].id in s.waiters
    ensures LostWakeup(s, i) <==> StrandedByAgeing(s, i)
  {
    QueuedIsParked(s, i);
    var c, t := s.core, s.core.queue[i];
    var t0 := s.waiters[t.id].evalAt;
    if LostWakeup(s, i) {
      assert !CanAcquireAt(c, t0, i);
      assert t.leaseType == Transport;
      var j := SelectionChange(c, t0, s.clock, i);
      forall j' | 0 <= j' < i && Candidate(c, j') ensures !Aged(c.queue[j'], s.clock) {
        assert Precedes(c, s.clock, i, j');
      }
    }
    if StrandedByAgeing(s, i) {
      CandidateHasNoBarrierAhead(c, i);
      assert SelectedAt(c, s.clock, i);
    }
  }

  /** No queued ticket has aged since its sleeping caller last looked. */
  ghost predicate NothingAgedInItsSleep(s: System) {
    forall i :: 0 <= i < |s.core.queue| && s.core.queue[i].id in s.waiters && Asleep(s, s.core.queue[i].id)
      ==> !AgedInItsSleep(s, i)
  }

  /** No lost wakeup in any run, as long as no ticket ages in its caller's sleep. */
  lemma NoLostWakeup(run: seq<System>, evs: seq<Event>, k: nat, i: nat)
    requires IsRun(run, evs) && k < |run|
    requires NothingAgedInItsSleep(run[k])
    ensures !LostWakeup(run[k], i)
  {
    RunInv(run, evs, k);
    if i < |run[k].core.queue| {
      LostWakeupExactly(run[k], i);
    }
  }

  /** Barriers, sessions, one-shots and AKA transports never lose a wakeup, whatever the
      clock does; nor does a caller waiting for idleness. */
  lemma OnlyAgeingTrafficLosesWakeups(run: seq<System>, evs: seq<Event>, k: nat, i: nat)
    requires IsRun(run, evs) && k < |run|
    ensures LostWakeup(run[k], i) ==>
              run[k].core.queue[i].leaseType == Transport && run[k].core.queue[i].cls != USIMAKA
    ensures forall w :: w in run[k].idlers && run[k].idlers[w] == run[k].core.gen ==> !Idle(run[k].core)
  {
    RunInv(run, evs, k);
    if LostWakeup(run[k], i) {
      LostWakeupExactly(run[k], i);
    }
  }

  /** Progress: when nothing is held and somebody waits, some waiting caller is awake
      and will be granted at once. */
  lemma SomebodyCanProceed(run: seq<System>, evs: seq<Event>, k: nat) returns (id: nat)
    requires IsRun(run, evs) && k < |run|
    requires NothingHeld(run[k].core) && run[k].core.queue != []
    requires NothingAgedInItsSleep(run[k])
    ensures Enabled(run[k], Retry(id)) && Granted(run[k], Retry(id)).Some?
  {
    var s := run[k];
    RunInv(run, evs, k);
    var i := NothingHeldSomeAdmissible(s.core, s.clock);
    id := s.core.queue[i].id;
    NoLostWakeup(run, evs, k, i);
    QueuedIsParked(s, i);
    IndexIsUnique(s.core, s.used, i);
  }

  // ---- without the clock hypothesis ------------------------------------------

  lemma RunGrows(run: seq<System>, evs: seq<Event>, e: Event)
    requires IsRun(run, evs) && Enabled(run[|evs|], e)
    ensures IsRun(run + [Step(run[|evs|], e)], evs + [e])
    ensures |run| == |evs| + 1
  {
    var run', evs' := run + [Step(run[|evs|], e)], evs + [e];
    forall k | 0 <= k < |evs'| ensures Enabled(run'[k], evs'[k]) && run'[k + 1] == Step(run'[k], evs'[k]) {
      if k < |evs| { assert run'[k] == run[k] && run'[k + 1] == run[k + 1] && evs'[k] == evs[k]; }
    }
  }

  const OPTIONS := Options(120000, 1, 1)
  const HOLDER := Ticket(1, EUICCWrite, 0, Exclusive, Transport, {}, 0)
  const WRITER := Ticket(2, EUICCWrite, 0, Exclusive, Transport, {}, 0)
  const CALLER := Ticket(3, USIMAKA, 0, Exclusive, Transport, {}, 0)

  function Free(gen: nat): Core { Core(OPTIONS, [WRITER, CALLER], [], None, [], [], gen, 3, 1, 0, 0) }
  function Busy(q: seq<Ticket>, gen: nat, requests: nat): Core {
    Core(OPTIONS, q, [], None, [Held(HOLDER, 0, 120000)], [], gen, requests, 1, 0, 0)
  }

  lemma BothAreCandidates(gen: nat)
    ensures Candidate(Free(gen), 0) && Candidate(Free(gen), 1)
  {
    assert !Stops(Free(gen), WRITER);
  }

  /** At 499 ms the AKA ticket is preferred, at 500 ms the other one has aged: whoever
      looks at the wrong moment goes to sleep. */
  lemma EachLooksAtTheWrongTime(gen: nat)
    ensures !CanAcquireAt(Free(gen), 499, 0) && CanAcquireAt(Free(gen), 500, 0)
    ensures !CanAcquireAt(Free(gen), 500, 1)
  {
    BothAreCandidates(gen);
    assert !Precedes(Free(gen), 499, 0, 1);
    assert !Precedes(Free(gen), 500, 1, 0);
    assert forall j :: Candidate(Free(gen), j) ==> Precedes(Free(gen), 500, 0, j);
    CandidateHasNoBarrierAhead(Free(gen), 0);
  }

  lemma BusyAdmitsNobody(q: seq<Ticket>, gen: nat, requests: nat, i: nat)
    requires i < |q| && q[i].leaseType == Transport && q[i].scope == Exclusive
    ensures !CanAcquireAt(Busy(q, gen, requests), 0, i)
  {}

  ghost predicate Stranded(s: System) {
    && NothingHeld(s.core) && s.core.queue != []
    && (forall id :: !Enabled(s, Retry(id)))
    && LostWakeup(s, 0)
  }

  lemma FirstArrival(s0: System, s1: System)
    requires s0 == System(Core(OPTIONS, [], [], None, [], [], 0, 0, 0, 0, 0), 0, map[], map[], {})
    requires s1 == System(Busy([], 2, 1), 0, map[], map[], {1})
    ensures Enabled(s0, Arrive(HOLDER)) && Step(s0, Arrive(HOLDER)) == s1
  {
    assert Candidate(Enqueue(s0.core, HOLDER), 0);
    assert SelectedAt(Enqueue(s0.core, HOLDER), 0, 0);
  }

  lemma LaterArrivals(s1: System, s2: System, s3: System)
    requires s1 == System(Busy([], 2, 1), 0, map[], map[], {1})
    requires s2 == System(Busy([WRITER], 3, 2), 0, map[2 := Waiter(3, 0)], map[], {1, 2})
    requires s3 == System(Busy([WRITER, CALLER], 4, 3), 0, map[2 := Waiter(3, 0), 3 := Waiter(4, 0)], map[], {1, 2, 3})
    ensures Enabled(s1, Arrive(WRITER)) && Step(s1, Arrive(WRITER)) == s2
    ensures Enabled(s2, Arrive(CALLER)) && Step(s2, Arrive(CALLER)) == s3
  {
    BusyAdmitsNobody([WRITER], 3, 2, 0);
    BusyAdmitsNobody([WRITER, CALLER], 4, 3, 1);
    hide CanAcquireAt;
  }

  /** Without the clock hypothesis the claim is false: there is a run that ends with
      nothing held, two tickets queued, one of them admissible, and both callers asleep
      on a channel that nobody is about to close. */
  lemma AgeingCanStrandTheQueue() returns (run: seq<System>, evs: seq<Event>)
    ensures IsRun(run, evs) && Stranded(run[|evs|])
  {
    var s0 := System(Core(OPTIONS, [], [], None, [], [], 0, 0, 0, 0, 0), 0, map[], map[], {});
    var s1 := System(Busy([], 2, 1), 0, map[], map[], {1});
    var s2 := System(Busy([WRITER], 3, 2), 0, map[2 := Waiter(3, 0)], map[], {1, 2});
    var s3 := System(Busy([WRITER, CALLER], 4, 3), 0, map[2 := Waiter(3, 0), 3 := Waiter(4, 0)], map[], {1, 2, 3});
    FirstArrival(s0, s1);
    LaterArrivals(s1, s2, s3);
    run, evs := [s0], [];
    assert IsRun(run, evs);
    hide Step, Enabled, Stranded, Busy, IsRun;
    RunGrows(run, evs, Arrive(HOLDER));
    run, evs := run + [s1], evs + [Arrive(HOLDER)];
    RunGrows(run, evs, Arrive(WRITER));
    run, evs := run + [s2], evs + [Arrive(WRITER)];
    RunGrows(run, evs, Arrive(CALLER));
    run, evs := run + [s3], evs + [Arrive(CALLER)];
    run, evs := StrandedTail(run, evs, s3);
  }

  lemma StrandedTail(run0: seq<System>, evs0: seq<Event>, s3: System) returns (run: seq<System>, evs: seq<Event>)
    requires IsRun(run0, evs0) && run0[|evs0|] == s3
    requires s3 == System(Busy([WRITER, CALLER], 4, 3), 0, map[2 := Waiter(3, 0), 3 := Waiter(4, 0)], map[], {1, 2, 3})
    ensures IsRun(run, evs) && Stranded(run[|evs|])
  {
    var s4 := s3.(clock := 499);
    RunGrows(run0, evs0, Tick(499));
    run, evs := run0 + [s4], evs0 + [Tick(499)];

    var s5 := s4.(core := Free(5));
    assert Step(s4, Release(1, Transport)) == s5;
    RunGrows(run, evs, Release(1, Transport));
    run, evs := run + [s5], evs + [Release(1, Transport)];

    run, evs := TwoWrongLooks(run, evs, s5);
  }

  lemma TwoWrongLooks(run0: seq<System>, evs0: seq<Event>, s5: System) returns (run: seq<System>, evs: seq<Event>)
    requires IsRun(run0, evs0) && run0[|evs0|] == s5
    requires s5 == System(Free(5), 499, map[2 := Waiter(3, 0), 3 := Waiter(4, 0)], map[], {1, 2, 3})
    ensures IsRun(run, evs) && Stranded(run[|evs|])
  {
    var s6 := s5.(waiters := map[2 := Waiter(5, 499), 3 := Waiter(4, 0)]);
    var s7 := s6.(clock := 500);
    var s8 := s7.(waiters := map[2 := Waiter(5, 499), 3 := Waiter(5, 500)]);
    BothLookWrong(s5, s6, s7, s8);
    hide Step, Enabled, Stranded, Free, IsRun;
    RunGrows(run0, evs0, Retry(2));
    run, evs := run0 + [s6], evs0 + [Retry(2)];
    RunGrows(run, evs, Tick(500));
    run, evs := run + [s7], evs + [Tick(500)];
    RunGrows(run, evs, Retry(3));
    run, evs := run + [s8], evs + [Retry(3)];
  }

  lemma BothLookWrong(s5: System, s6: System, s7: System, s8: System)
    requires s5 == System(Free(5), 499, map[2 := Waiter(3, 0), 3 := Waiter(4, 0)], map[], {1, 2, 3})
    requires s6 == s5.(waiters := map[2 := Waiter(5, 499), 3 := Waiter(4, 0)])
    requires s7 == s6.(clock := 500)
    requires s8 == s7.(waiters := map[2 := Waiter(5, 499), 3 := Waiter(5, 500)])
    ensures Enabled(s5, Retry(2)) && Step(s5, Retry(2)) == s6
    ensures Enabled(s6, Tick(500)) && Step(s6, Tick(500)) == s7
    ensures Enabled(s7, Retry(3)) && Step(s7, Retry(3)) == s8 && Stranded(s8)
  {
    EachLooksAtTheWrongTime(5);
    assert TicketIndex([WRITER, CALLER], 2) == 0 && TicketIndex([WRITER, CALLER], 3) == 1;
    hide CanAcquireAt, TicketIndex;
  }
}
