/** One USSD request at a time over a modem that answers through callbacks.  Deliveries
    carry the time they were made; the three channels hold one entry each and a delivery to
    a full channel is dropped. */
module UssdSession {
  import opened Common

  type Channel = Option<nat>

  /** Where the goroutine that holds the USSD lock is. */
  datatype Pc =
    | Idle
    | DrainResults(again: bool)
    | DrainErrors(again: bool)
    | DrainReleases(drained: bool)
    | Ready
    | NoWait
    | Sync
    | Waiting

  /** A session that ended without an answer: when its call began, and whether it ended by a
      cancellation while the request was being sent. */
  datatype Owed = Owed(start: nat, cancelled: bool)

  datatype State = State(
    now: nat,
    result: Channel, error: Channel, release: Channel,
    awaitRelease: bool,
    pc: Pc,
    started: nat,        // when the current call took the lock
    fence: nat,          // when the current call began, or ended the session before it
    owed: Option<Owed>)  // the last session without an answer, until a release is consumed

  /** How sending the request ends. */
  datatype Outcome = Sent | Answered | Unsupported | DeadlineExceeded | Cancelled | Rejected

  datatype Event =
    | DeliverResult | DeliverError | DeliverRelease
    | Enter
    | Drain
    | Decide(noWait: bool)
    | Originate(outcome: Outcome)
    | TakeResult | TakeError | TakeRelease
    | GiveUp

  predicate Enabled(s: State, e: Event) {
    match e
    case DeliverResult => true
    case DeliverError => true
    case DeliverRelease => true
    case Enter => s.pc.Idle?
    case Drain => s.pc.DrainResults? || s.pc.DrainErrors? || s.pc.DrainReleases?
    case Decide(_) => s.pc.Ready?
    case Originate(o) => (s.pc.NoWait? && !o.Answered?) || (s.pc.Sync? && !o.Unsupported?)
    case TakeResult => s.pc.Waiting? && s.result.Some?
    case TakeError => s.pc.Waiting? && s.error.Some?
    case TakeRelease => s.pc.Waiting? && s.release.Some?
    case GiveUp => s.pc.Waiting?
  }

  /** A drain takes one entry, or finds the channel empty and goes on. */
  function DrainStep(s: State): State {
    match s.pc
    case DrainResults(again) => if s.result.Some? then s.(result := None) else s.(pc := DrainErrors(again))
    case DrainErrors(again) =>
      if s.error.Some? then s.(error := None) else s.(pc := if again then Ready else DrainReleases(false))
    case DrainReleases(drained) =>
      if s.release.Some? then s.(release := None, pc := DrainReleases(true), owed := None)
      else if drained then s.(awaitRelease := false, pc := DrainResults(true), fence := s.now)
      else s.(pc := Ready)
    case _ => s
  }

  function Unanswered(s: State, cancelled: bool): State {
    s.(awaitRelease := s.awaitRelease || !cancelled, pc := Idle, owed := Some(Owed(s.started, cancelled)))
  }

  /** Waiting ends the wait for a release on both of its ways out of a dead context. */
  function Act(s: State, e: Event): State {
    match e
    case DeliverResult => if s.result.None? then s.(result := Some(s.now)) else s
    case DeliverError => if s.error.None? then s.(error := Some(s.now)) else s
    case DeliverRelease => if s.release.None? then s.(release := Some(s.now)) else s
    case Enter => s.(pc := DrainResults(false), started := s.now, fence := s.now)
    case Drain => DrainStep(s)
    case Decide(noWait) => s.(pc := if s.awaitRelease then Idle else if noWait then NoWait else Sync)
    case Originate(o) =>
      (match o
       case Sent => s.(pc := Waiting)
       case Answered => s.(pc := Idle)
       case Unsupported => s.(pc := Sync)
       case DeadlineExceeded => Unanswered(s, false)
       case Cancelled => Unanswered(s, true)
       case Rejected => s.(pc := Idle))
    case TakeResult => s.(result := None, pc := Idle)
    case TakeError => s.(error := None, pc := Idle)
    case TakeRelease => s.(release := None, awaitRelease := false, pc := Idle, owed := None)
    case GiveUp => Unanswered(s, false)
  }

  function Step(s: State, e: Event): State { Act(s, e).(now := s.now + 1) }

  ghost predicate IsRun(run: seq<State>, events: seq<Event>) {
    && |run| == |events| + 1
    && forall i :: 0 <= i < |events| ==> Enabled(run[i], events[i]) && run[i + 1] == Step(run[i], events[i])
  }

  const START := State(0, None, None, None, false, Idle, 0, 0, None)

  // ---- what every step keeps ------------------------------------------------------

  predicate After(c: Channel, t: nat) { c.Some? ==> c.value >= t }

  /** Results and errors found once the drains are over are fresh. */
  predicate Fresh(s: State) {
    match s.pc
    case DrainErrors(again) => After(s.result, s.fence)
    case DrainReleases(_) => After(s.result, s.started) && After(s.error, s.started)
    case Ready => After(s.result, s.fence) && After(s.error, s.fence)
    case NoWait => After(s.result, s.fence) && After(s.error, s.fence)
    case Sync => After(s.result, s.fence) && After(s.error, s.fence)
    case Waiting => After(s.result, s.fence) && After(s.error, s.fence)
    case _ => true
  }

  /** From here on the call has emptied the release channel once. */
  predicate PastReleases(pc: Pc) {
    pc.Ready? || pc.NoWait? || pc.Sync? || pc.Waiting? || ((pc.DrainResults? || pc.DrainErrors?) && pc.again)
  }

  predicate Inv(s: State) {
    && After(s.result, 0) && s.started <= s.fence <= s.now
    && (s.result.Some? ==> s.result.value < s.now) && (s.error.Some? ==> s.error.value < s.now)
    && (s.release.Some? ==> s.release.value < s.now)
    && (s.pc.DrainResults? && !s.pc.again ==> s.fence == s.started)
    && (s.pc.DrainErrors? && !s.pc.again ==> s.fence == s.started)
    && (s.pc.DrainReleases? ==> s.fence == s.started)
    && Fresh(s)
    && (PastReleases(s.pc) ==> After(s.release, s.started))
    && (s.owed.Some? ==> s.owed.value.start <= s.started && After(s.release, s.owed.value.start))
    && (s.owed.Some? ==> (s.awaitRelease <==> !s.owed.value.cancelled))
    && (s.owed.None? && s.awaitRelease ==> s.pc == DrainReleases(true))
    && (s.pc == DrainReleases(true) ==> s.owed.None?)
    && ((s.pc.NoWait? || s.pc.Sync? || s.pc.Waiting?) ==> !s.awaitRelease)
  }

  lemma DeliveryKeepsInv(s: State, e: Event)
    requires Inv(s) && (e.DeliverResult? || e.DeliverError? || e.DeliverRelease?)
    ensures Inv(Step(s, e))
  {}

  lemma DrainKeepsInv(s: State)
    requires Inv(s) && Enabled(s, Drain)
    ensures Inv(Step(s, Drain))
  {}

  lemma SendingKeepsInv(s: State, o: Outcome)
    requires Inv(s) && Enabled(s, Originate(o))
    ensures Inv(Step(s, Originate(o)))
  {}

  lemma StepKeepsInv(s: State, e: Event)
    requires Inv(s) && Enabled(s, e)
    ensures Inv(Step(s, e))
  {
    match e
    case DeliverResult => DeliveryKeepsInv(s, e);
    case DeliverError => DeliveryKeepsInv(s, e);
    case DeliverRelease => DeliveryKeepsInv(s, e);
    case Drain => DrainKeepsInv(s);
    case Originate(o) => SendingKeepsInv(s, o);
    case _ =>
  }

  lemma {:induction false} RunInv(run: seq<State>, events: seq<Event>)
    requires IsRun(run, events) && Inv(run[0])
    ensures forall i :: 0 <= i < |run| ==> Inv(run[i])
  {
    hide Inv, Step, Enabled;
    if events != [] {
      var n := |events|;
      RunInv(run[..n], events[..n - 1]);
      assert run[..n][n - 1] == run[n - 1];
      StepKeepsInv(run[n - 1], events[n - 1]);
    }
  }

  lemma StartInv()
    ensures Inv(START)
  {}

  // ---- nothing leaks from one session to the next ----------------------------------------

  /** Along every run, a result or an error that is taken was delivered after the current
      call began, and after it had ended the session before it, if it had to. */
  lemma TakenIsFresh(run: seq<State>, events: seq<Event>, i: nat)
    requires IsRun(run, events) && run[0] == START && i < |events|
    ensures events[i].TakeResult? ==> run[i].started <= run[i].fence <= run[i].result.value
    ensures events[i].TakeError? ==> run[i].started <= run[i].fence <= run[i].error.value
    ensures events[i].TakeRelease? ==> run[i].started <= run[i].release.value
  {
    StartInv();
    RunInv(run, events);
    assert Enabled(run[i], events[i]);
    hide Step;
  }

  /** The event may take a result out of its channel. */
  predicate TakesResults(s: State, e: Event) { e.TakeResult? || (e.Drain? && s.pc.DrainResults?) }

  /** The first result to arrive stays until it is taken; later ones are dropped. */
  lemma {:induction false} FirstResultStays(run: seq<State>, events: seq<Event>, j: nat, i: nat)
    requires IsRun(run, events) && j < i < |run|
    requires events[j].DeliverResult? && run[j].result.None?
    requires forall m :: j < m < i ==> !TakesResults(run[m], events[m])
    ensures run[i].result == Some(run[j].now)
    decreases i
  {
    if j + 1 < i {
      FirstResultStays(run, events, j, i - 1);
      KeepsResult(run[i - 1], events[i - 1]);
      hide Step;
    }
  }

  lemma KeepsResult(s: State, e: Event)
    requires Enabled(s, e) && s.result.Some? && !TakesResults(s, e)
    ensures Step(s, e).result == s.result
  {}

  predicate Sends(s: State, e: Event) { e.Originate? && (s.pc.NoWait? || s.pc.Sync?) }

  /** The event takes a release out of the channel. */
  predicate ConsumesRelease(s: State, e: Event) {
    s.release.Some? && (e.TakeRelease? || (e.Drain? && s.pc.DrainReleases?))
  }

  /** A session is owed until a release is consumed or a later session ends unanswered. */
  lemma OwedUntilReleased(s: State, e: Event)
    requires Inv(s) && Enabled(s, e) && s.owed.Some? && !s.owed.value.cancelled && !ConsumesRelease(s, e)
    ensures Step(s, e).owed == s.owed && !Sends(s, e)
  {}

  /** After a timeout, or after the caller gave up waiting, nothing is sent before a release
      has been consumed that was delivered since that session began. */
  lemma {:induction false} NothingSentBeforeRelease(run: seq<State>, events: seq<Event>, start: nat)
    requires IsRun(run, events) && Inv(run[0]) && run[0].owed == Some(Owed(start, false))
    requires events != [] && Sends(run[|events| - 1], events[|events| - 1])
    ensures exists k :: 0 <= k < |events| - 1 && ConsumesRelease(run[k], events[k]) && run[k].release.value >= start
  {
    hide Sends, ConsumesRelease;
    if forall k :: 0 <= k < |events| - 1 ==> !ConsumesRelease(run[k], events[k]) {
      StillOwed(run, events, start, |events| - 1);
      SendsMeansSettled(run, events, start);
    } else {
      var k :| 0 <= k < |events| - 1 && ConsumesRelease(run[k], events[k]);
      FirstConsumed(run, events, start, k);
    }
  }

  lemma {:induction false} StillOwed(run: seq<State>, events: seq<Event>, start: nat, n: nat)
    requires IsRun(run, events) && Inv(run[0]) && run[0].owed == Some(Owed(start, false))
    requires n <= |events| && forall k :: 0 <= k < n ==> !ConsumesRelease(run[k], events[k])
    ensures run[n].owed == Some(Owed(start, false)) && Inv(run[n])
  {
    hide Inv, Step, Enabled, Sends, ConsumesRelease;
    if n > 0 {
      StillOwed(run, events, start, n - 1);
      OwedUntilReleased(run[n - 1], events[n - 1]);
      StepKeepsInv(run[n - 1], events[n - 1]);
    }
  }

  lemma SendsMeansSettled(run: seq<State>, events: seq<Event>, start: nat)
    requires IsRun(run, events) && events != []
    requires Inv(run[|events| - 1]) && run[|events| - 1].owed == Some(Owed(start, false))
    ensures !Sends(run[|events| - 1], events[|events| - 1])
  {}

  lemma {:induction false} FirstConsumed(run: seq<State>, events: seq<Event>, start: nat, k: nat)
    requires IsRun(run, events) && Inv(run[0]) && run[0].owed == Some(Owed(start, false))
    requires k < |events| && ConsumesRelease(run[k], events[k])
    ensures exists j :: 0 <= j <= k && ConsumesRelease(run[j], events[j]) && run[j].release.value >= start
  {
    hide Sends, Step, Enabled;
    if j :| 0 <= j < k && ConsumesRelease(run[j], events[j]) {
      FirstConsumed(run, events, start, j);
    } else {
      StillOwed(run, events, start, k);
      assert run[k].release.value >= start;
    }
  }

  /** Whether the next call refuses is decided by how the last unanswered session ended. */
  lemma RefusedExactly(s: State)
    requires Inv(s) && s.pc.Ready? && s.owed.Some?
    ensures forall noWait :: Step(s, Decide(noWait)).pc.Idle? <==> !s.owed.value.cancelled
  {}

  /** Along every run, exactly when a request goes out while a session is still owed a
      release: that session was cancelled while its request was being sent.  Whenever one is
      being sent this was so, and whenever it is so the next decision is to send. */
  lemma SendingWhileOwed(run: seq<State>, events: seq<Event>, i: nat)
    requires IsRun(run, events) && run[0] == START && i < |events| && run[i].owed.Some?
    ensures Sends(run[i], events[i]) ==> run[i].owed.value.cancelled
    ensures events[i].Decide? ==> (!run[i + 1].pc.Idle? <==> run[i].owed.value.cancelled)
  {
    StartInv();
    RunInv(run, events);
    if events[i].Decide? { RefusedExactly(run[i]); }
  }

  const CALL: seq<Event> := [Enter, Drain, Drain, Drain, Decide(true)]

  /** A call on quiet channels up to sending, from the given idle state at time t. */
  function Calling(idle: State, t: nat): seq<State> {
    var s := idle.(started := t, fence := t);
    [idle.(now := t), s.(now := t + 1, pc := DrainResults(false)), s.(now := t + 2, pc := DrainErrors(false)),
     s.(now := t + 3, pc := DrainReleases(false)), s.(now := t + 4, pc := Ready), s.(now := t + 5, pc := NoWait)]
  }

  lemma CallingIsRun(idle: State, t: nat)
    requires idle.pc.Idle? && idle.result.None? && idle.error.None? && idle.release.None? && !idle.awaitRelease
    ensures IsRun(Calling(idle, t), CALL)
    ensures forall k :: 0 <= k < 5 ==> !ConsumesRelease(Calling(idle, t)[k], CALL[k])
  {
    var run := Calling(idle, t);
    assert Step(run[0], Enter) == run[1];
    assert Step(run[1], Drain) == run[2];
    assert Step(run[2], Drain) == run[3];
    assert Step(run[3], Drain) == run[4];
    assert Step(run[4], Decide(true)) == run[5];
    hide Step, Calling;
  }

  /** The cancelled case is real: one call is cancelled while sending, and the next one, in
      the state it leaves, sends again although no release was ever delivered. */
  lemma CancelledSendLeaks()
    ensures var left := Step(Calling(START, 0)[5], Originate(Cancelled));
      && IsRun(Calling(START, 0), CALL) && Sends(Calling(START, 0)[5], Originate(Cancelled))
      && IsRun(Calling(left, left.now), CALL) && Calling(left, left.now)[0] == left
      && Calling(left, left.now)[5].owed == Some(Owed(0, true)) && Sends(Calling(left, left.now)[5], Originate(Sent))
  {
    CallingIsRun(START, 0);
    CallingIsRun(Step(Calling(START, 0)[5], Originate(Cancelled)), 6);
  }

  // ---- draining without deliveries -------------------------------------------------------------

  function Stage(pc: Pc): nat {
    match pc
    case DrainResults(again) => if again then 2 else 6
    case DrainErrors(again) => if again then 1 else 5
    case DrainReleases(drained) => if drained then 3 else 4
    case _ => 0
  }

  function Entries(s: State): nat {
    (if s.result.Some? then 1 else 0) + (if s.error.Some? then 1 else 0) + (if s.release.Some? then 1 else 0)
  }

  /** The drains, run to their end while nothing is delivered. */
  function Settle(s: State): State
    decreases Stage(s.pc), Entries(s)
  {
    if Stage(s.pc) == 0 then s else Settle(Step(s, Drain))
  }

  /** They empty the channels, and a release found lifts the block. */
  lemma {:induction false} Settled(s: State)
    requires Stage(s.pc) > 0
    requires Stage(s.pc) in {1, 4, 5} ==> s.result.None?
    requires Stage(s.pc) == 4 ==> s.error.None?
    requires Stage(s.pc) < 4 ==> s.release.None?
    requires Stage(s.pc) < 3 ==> !s.awaitRelease
    ensures var r := Settle(s);
      && r.pc.Ready? && r.result.None? && r.error.None? && r.release.None?
      && r.awaitRelease == (s.awaitRelease && s.release.None? && Stage(s.pc) != 3)
    decreases Stage(s.pc), Entries(s)
  {
    if Stage(Step(s, Drain).pc) > 0 { Settled(Step(s, Drain)); }
  }
}
