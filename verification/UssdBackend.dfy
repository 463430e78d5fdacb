/** The backend that sends USSD requests, step by step, while callbacks fill its channels.
    Whatever it does is a run of the session machine. */
module UssdBackend {
  import opened Common
  import opened UssdSession

  datatype Reply = Result(at: nat) | Failed | Released | StillOpen | TimedOut | CancelledByCaller | Direct

  /** What a call answers, by the step that ended it. */
  function ReplyTo(s: State, e: Event, deadline: bool): Reply {
    match e
    case Decide(_) => StillOpen
    case Originate(Answered) => Direct
    case Originate(DeadlineExceeded) => TimedOut
    case TakeResult => if s.result.Some? then Result(s.result.value) else Failed
    case TakeRelease => Released
    case GiveUp => if deadline then TimedOut else CancelledByCaller
    case _ => Failed
  }

  predicate IsDelivery(e: Event) { e.DeliverResult? || e.DeliverError? || e.DeliverRelease? }

  predicate AllDeliveries(batches: seq<seq<Event>>) {
    forall i, j :: 0 <= i < |batches| && 0 <= j < |batches[i]| ==> IsDelivery(batches[i][j])
  }

  lemma OneMoreStep(run: seq<State>, events: seq<Event>, e: Event)
    requires IsRun(run, events) && Enabled(run[|events|], e)
    ensures IsRun(run + [Step(run[|events|], e)], events + [e])
  {
    hide Enabled, Step;
    var run', events' := run + [Step(run[|events|], e)], events + [e];
    forall k | 0 <= k < |events'| ensures Enabled(run'[k], events'[k]) && run'[k + 1] == Step(run'[k], events'[k]) {
      if k < |events| { assert run'[k] == run[k] && run'[k + 1] == run[k + 1]; }
    }
  }

  class QMIBackend {
    var ussdResult: Channel
    var ussdErr: Channel
    var ussdRelease: Channel
    var ussdAwaitRelease: bool
    var clock: nat
    var pending: seq<seq<Event>>  // callbacks to come: one batch before each channel operation

    ghost var pc: Pc
    ghost var started: nat
    ghost var fence: nat
    ghost var owed: Option<Owed>
    ghost var run: seq<State>
    ghost var events: seq<Event>

    ghost function View(): State
      reads this
    {
      State(clock, ussdResult, ussdErr, ussdRelease, ussdAwaitRelease, pc, started, fence, owed)
    }

    /** Everything so far is a run of the machine and has led to the present state. */
    ghost predicate Valid()
      reads this
    {
      && |run| == |events| + 1 && IsRun(run, events)
      && run[0] == START && run[|events|] == View() && AllDeliveries(pending)
    }

    constructor (pending: seq<seq<Event>>)
      requires AllDeliveries(pending)
      ensures Valid() && events == [] && this.pending == pending
    {
      ussdResult, ussdErr, ussdRelease, ussdAwaitRelease, clock := None, None, None, false, 0;
      this.pending := pending;
      pc, started, fence, owed, run, events := Idle, 0, 0, None, [START], [];
    }

    /** The fields have just made step e. */
    ghost method Record(e: Event)
      requires IsRun(run, events) && run[0] == START && AllDeliveries(pending)
      requires Enabled(run[|events|], e) && View() == Step(run[|events|], e)
      modifies this`run, this`events
      ensures Valid() && events == old(events) + [e] && run == old(run) + [View()]
    {
      OneMoreStep(run, events, e);
      run := run + [View()];
      events := events + [e];
    }

    method DeliverUSSDResult()
      requires Valid()
      modifies this`ussdResult, this`clock, this`run, this`events
      ensures Valid() && old(run) <= run && events == old(events) + [DeliverResult]
    {
      if ussdResult.None? {
        ussdResult := Some(clock);
      }
      clock := clock + 1;
      Record(DeliverResult);
    }

    method DeliverUSSDError()
      requires Valid()
      modifies this`ussdErr, this`clock, this`run, this`events
      ensures Valid() && old(run) <= run && events == old(events) + [DeliverError]
    {
      if ussdErr.None? {
        ussdErr := Some(clock);
      }
      clock := clock + 1;
      Record(DeliverError);
    }

    method DeliverUSSDRelease()
      requires Valid()
      modifies this`ussdRelease, this`clock, this`run, this`events
      ensures Valid() && old(run) <= run && events == old(events) + [DeliverRelease]
      ensures old(ussdRelease).Some? ==> ussdRelease.Some?
    {
      if ussdRelease.None? {
        ussdRelease := Some(clock);
      }
      clock := clock + 1;
      Record(DeliverRelease);
    }

    /** The callbacks that run before the next channel operation. */
    method Callbacks()
      requires Valid()
      modifies this`ussdResult, this`ussdErr, this`ussdRelease, this`clock, this`pending, this`run, this`events
      ensures Valid() && old(run) <= run && old(events) <= events && clock >= old(clock)
      ensures old(ussdRelease).Some? ==> ussdRelease.Some?
      ensures if old(pending) == [] then View() == old(View()) && pending == [] else pending == old(pending)[1..]
    {
      if pending == [] {
        return;
      }
      var batch := pending[0];
      pending := pending[1..];
      var i := 0;
      while i < |batch|
        invariant i <= |batch| && Valid() && clock >= old(clock)
        invariant old(ussdRelease).Some? ==> ussdRelease.Some?
        invariant old(run) <= run && old(events) <= events && pending == old(pending)[1..]
      {
        assert IsDelivery(batch[i]);
        match batch[i] {
          case DeliverResult => DeliverUSSDResult();
          case DeliverError => DeliverUSSDError();
          case DeliverRelease => DeliverUSSDRelease();
        }
        i := i + 1;
      }
    }

    /** One look at the result channel: take what is there, or go on. */
    method LookAtResult(ghost again: bool) returns (empty: bool)
      requires Valid() && pc == DrainResults(again)
      modifies this`ussdResult, this`clock, this`pc, this`run, this`events
      ensures Valid() && pc == (if empty then DrainErrors(again) else DrainResults(again)) && ussdResult.None?
      ensures empty == old(ussdResult).None? && old(run) <= run && old(events) <= events && clock == old(clock) + 1
    {
      empty := ussdResult.None?;
      ussdResult, clock := None, clock + 1;
      if empty {
        pc := DrainErrors(again);
      }
      Record(Drain);
    }

    method LookAtError(ghost again: bool) returns (empty: bool)
      requires Valid() && pc == DrainErrors(again)
      modifies this`ussdErr, this`clock, this`pc, this`run, this`events
      ensures Valid() && pc == (if !empty then DrainErrors(again) else if again then Ready else DrainReleases(false))
      ensures empty == old(ussdErr).None? && ussdErr.None?
      ensures old(run) <= run && old(events) <= events && clock == old(clock) + 1
    {
      empty := ussdErr.None?;
      ussdErr, clock := None, clock + 1;
      if empty {
        pc := if again then Ready else DrainReleases(false);
      }
      Record(Drain);
    }

    /** The last look, when releases were found, also lifts the block. */
    method LookAtRelease(drained: bool) returns (empty: bool)
      requires Valid() && pc == DrainReleases(drained)
      modifies this`ussdRelease, this`ussdAwaitRelease, this`clock,
               this`pc, this`fence, this`owed, this`run, this`events
      ensures Valid() && empty == old(ussdRelease).None? && ussdRelease.None?
      ensures pc == if !empty then DrainReleases(true) else if drained then DrainResults(true) else Ready
      ensures ussdAwaitRelease == (old(ussdAwaitRelease) && !(empty && drained))
      ensures old(run) <= run && old(events) <= events && clock == old(clock) + 1
    {
      empty := ussdRelease.None?;
      if !empty {
        ussdRelease := None;
        pc, owed := DrainReleases(true), None;
      } else if drained {
        ussdAwaitRelease := false;
        pc, fence := DrainResults(true), clock;
      } else {
        pc := Ready;
      }
      clock := clock + 1;
      Record(Drain);
    }

    method DrainUSSDResults(ghost again: bool)
      requires Valid() && pc == DrainResults(again)
      modifies this`ussdResult, this`ussdErr, this`ussdRelease, this`clock, this`pending, this`pc, this`run, this`events
      ensures Valid() && pc == DrainErrors(again) && old(run) <= run && old(events) <= events && clock >= old(clock)
      ensures old(ussdRelease).Some? ==> ussdRelease.Some?
    {
      hide IsRun, AllDeliveries;
      var empty := false;
      while !empty
        invariant Valid() && pc == (if empty then DrainErrors(again) else DrainResults(again)) && clock >= old(clock)
        invariant old(run) <= run && old(events) <= events
        invariant old(ussdRelease).Some? ==> ussdRelease.Some?
        decreases |pending|, ussdResult.Some?, !empty
      {
        Callbacks();
        empty := LookAtResult(again);
      }
    }

    method DrainUSSDErrors(ghost again: bool)
      requires Valid() && pc == DrainErrors(again)
      modifies this`ussdResult, this`ussdErr, this`ussdRelease, this`clock, this`pending, this`pc, this`run, this`events
      ensures Valid() && pc == (if again then Ready else DrainReleases(false))
      ensures old(run) <= run && old(events) <= events && clock >= old(clock)
      ensures old(ussdRelease).Some? ==> ussdRelease.Some?
    {
      hide IsRun, AllDeliveries;
      var empty := false;
      while !empty
        invariant Valid() && clock >= old(clock)
        invariant pc == if !empty then DrainErrors(again) else if again then Ready else DrainReleases(false)
        invariant old(run) <= run && old(events) <= events
        invariant old(ussdRelease).Some? ==> ussdRelease.Some?
        decreases |pending|, ussdErr.Some?, !empty
      {
        Callbacks();
        empty := LookAtError(again);
      }
    }

    method DrainUSSDReleases() returns (drained: bool)
      requires Valid() && pc == DrainReleases(false)
      modifies this`ussdResult, this`ussdErr, this`ussdRelease, this`ussdAwaitRelease, this`clock, this`pending,
               this`pc, this`fence, this`owed, this`run, this`events
      ensures Valid() && pc == (if drained then DrainResults(true) else Ready)
      ensures ussdAwaitRelease == (old(ussdAwaitRelease) && !drained)
      ensures old(ussdRelease).Some? ==> drained
      ensures old(run) <= run && old(events) <= events && clock >= old(clock)
    {
      hide IsRun, AllDeliveries;
      drained := false;
      var empty := false;
      while !empty
        invariant Valid() && clock >= old(clock)
        invariant pc == if !empty then DrainReleases(drained) else if drained then DrainResults(true) else Ready
        invariant ussdAwaitRelease == (old(ussdAwaitRelease) && !(empty && drained))
        invariant old(ussdRelease).Some? ==> drained || (ussdRelease.Some? && !empty)
        invariant old(run) <= run && old(events) <= events
        decreases |pending|, ussdRelease.Some?, !empty
      {
        Callbacks();
        empty := LookAtRelease(drained);
        drained := drained || !empty;
      }
    }

    /** Empties the channels.  The block stays exactly when no release was drained. */
    method ResetUSSDChannels() returns (drained: bool)
      requires Valid() && pc == DrainResults(false)
      modifies this`ussdResult, this`ussdErr, this`ussdRelease, this`ussdAwaitRelease, this`clock, this`pending,
               this`pc, this`fence, this`owed, this`run, this`events
      ensures Valid() && pc.Ready?
      ensures ussdAwaitRelease == (old(ussdAwaitRelease) && !drained)
      ensures old(ussdRelease).Some? ==> drained
      ensures old(run) <= run && old(events) <= events && clock >= old(clock)
    {
      hide IsRun, AllDeliveries, Step, Enabled;
      DrainUSSDResults(false);
      DrainUSSDErrors(false);
      drained := DrainUSSDReleases();
      if drained {
        DrainUSSDResults(true);
        DrainUSSDErrors(true);
      }
    }

    /** The select takes a case that is ready, or finds the context done. */
    method Select(e: Event, deadline: bool) returns (reply: Reply)
      requires Valid() && pc.Waiting? && e in [TakeResult, TakeError, TakeRelease, GiveUp] && Enabled(View(), e)
      modifies this`ussdResult, this`ussdErr, this`ussdRelease, this`ussdAwaitRelease, this`clock,
               this`pc, this`owed, this`run, this`events
      ensures Valid() && pc.Idle? && old(run) <= run && events == old(events) + [e] && clock == old(clock) + 1
      ensures ussdAwaitRelease == (e.GiveUp? || (old(ussdAwaitRelease) && !e.TakeRelease?))
      ensures reply == ReplyTo(old(View()), e, deadline)
    {
      match e {
        case TakeResult =>
          reply := Result(ussdResult.value);
          ussdResult := None;
        case TakeError =>
          reply := Failed;
          ussdErr := None;
        case TakeRelease =>
          reply := Released;
          ussdRelease, ussdAwaitRelease := None, false;
          owed := None;
        case GiveUp =>
          reply := if deadline then TimedOut else CancelledByCaller;
          ussdAwaitRelease := true;
          owed := Some(Owed(started, false));
      }
      clock := clock + 1;
      pc := Idle;
      Record(e);
    }

    /** Waits until something is ready; if several cases are, the environment has its
        preference, and the context may be done at any time. */
    method WaitUSSDResult(prefer: Event, deadline: bool) returns (reply: Reply)
      requires Valid() && pc.Waiting? && !ussdAwaitRelease
      modifies this`ussdResult, this`ussdErr, this`ussdRelease, this`ussdAwaitRelease, this`clock, this`pending,
               this`pc, this`owed, this`run, this`events
      ensures Valid() && pc.Idle? && old(run) <= run && old(events) < events && clock > old(clock)
      ensures events[|events| - 1] in [TakeResult, TakeError, TakeRelease, GiveUp]
      ensures reply == ReplyTo(run[|events| - 1], events[|events| - 1], deadline)
      ensures ussdAwaitRelease == events[|events| - 1].GiveUp? && (reply.Result? ==> started <= reply.at)
    {
      hide IsRun, AllDeliveries, Step;
      while true
        invariant Valid() && pc.Waiting? && clock >= old(clock) && !ussdAwaitRelease
        invariant old(run) <= run && old(events) <= events
        decreases |pending|
      {
        Callbacks();
        var e := PickReady(prefer);
        if e.Some? || pending == [] {
          label Waiting:
          reply := Select(if e.Some? then e.value else GiveUp, deadline);
          assert run[|events| - 1] == old@Waiting(View());
          TakenIsFresh(run, events, |events| - 1);
          return;
        }
      }
    }

    /** A case of the select that is ready, the preferred one if it is. */
    method PickReady(prefer: Event) returns (e: Option<Event>)
      requires pc.Waiting?
      ensures e.Some? ==> e.value in [TakeResult, TakeError, TakeRelease, GiveUp] && Enabled(View(), e.value)
      ensures prefer in [TakeResult, TakeError, TakeRelease, GiveUp] && Enabled(View(), prefer) ==> e == Some(prefer)
      ensures e.None? <==> ussdResult.None? && ussdErr.None? && ussdRelease.None? && !prefer.GiveUp?
    {
      if prefer.GiveUp?
         || (prefer.TakeResult? && ussdResult.Some?)
         || (prefer.TakeError? && ussdErr.Some?)
         || (prefer.TakeRelease? && ussdRelease.Some?)
      {
        return Some(prefer);
      }
      return if ussdResult.Some? then Some(TakeResult)
             else if ussdErr.Some? then Some(TakeError)
             else if ussdRelease.Some? then Some(TakeRelease) else None;
    }

    /** Sends the request; how that ends is up to the modem. */
    method Originate(o: Outcome)
      requires Valid() && Enabled(View(), Event.Originate(o)) && !ussdAwaitRelease
      modifies this`ussdAwaitRelease, this`clock, this`pc, this`owed, this`run, this`events
      ensures Valid() && events == old(events) + [Event.Originate(o)] && old(run) <= run && clock == old(clock) + 1
      ensures pc == match o case Sent => Waiting case Unsupported => Sync case _ => Idle
      ensures ussdAwaitRelease == o.DeadlineExceeded?
    {
      match o {
        case Sent => pc := Waiting;
        case Unsupported => pc := Sync;
        case DeadlineExceeded =>
          ussdAwaitRelease := true;
          pc, owed := Idle, Some(Owed(started, false));
        case Cancelled => pc, owed := Idle, Some(Owed(started, true));
        case _ => pc := Idle;
      }
      clock := clock + 1;
      Record(Event.Originate(o));
    }

    method Begin()
      requires Valid() && pc.Idle?
      modifies this`clock, this`pc, this`started, this`fence, this`run, this`events
      ensures Valid() && pc == DrainResults(false) && started == old(clock) < clock
      ensures old(run) <= run && events == old(events) + [Enter]
    {
      pc, started, fence := DrainResults(false), clock, clock;
      clock := clock + 1;
      Record(Enter);
    }

    method Resolve(noWait: bool) returns (refused: bool)
      requires Valid() && pc.Ready?
      modifies this`clock, this`pc, this`run, this`events
      ensures Valid() && refused == ussdAwaitRelease && events == old(events) + [Decide(noWait)] && old(run) <= run
      ensures pc == (if refused then Idle else if noWait then NoWait else Sync) && clock == old(clock) + 1
    {
      refused := ussdAwaitRelease;
      pc := if refused then Idle else if noWait then NoWait else Sync;
      clock := clock + 1;
      Record(Decide(noWait));
    }

    /** What follows the sending: the answer, or the wait for one. */
    method Finish(o: Outcome, prefer: Event, deadline: bool) returns (reply: Reply)
      requires Valid() && !o.Unsupported? && pc == (if o.Sent? then Waiting else Idle)
      requires events != [] && events[|events| - 1] == Event.Originate(o) && ussdAwaitRelease == o.DeadlineExceeded?
      modifies this`ussdResult, this`ussdErr, this`ussdRelease, this`ussdAwaitRelease, this`clock, this`pending,
               this`pc, this`owed, this`run, this`events
      ensures Valid() && pc.Idle? && old(run) <= run && old(events) <= events && clock >= old(clock)
      ensures reply == ReplyTo(run[|events| - 1], events[|events| - 1], deadline) && reply != StillOpen
      ensures reply.Result? ==> started <= reply.at
      ensures ussdAwaitRelease <==> o.DeadlineExceeded? || (o.Sent? && events[|events| - 1].GiveUp?)
      ensures ussdAwaitRelease <==> reply in [TimedOut, CancelledByCaller]
    {
      hide IsRun, AllDeliveries, Step, Enabled;
      if o.Sent? {
        reply := WaitUSSDResult(prefer, deadline);
      } else {
        reply := if o.Answered? then Direct else if o.DeadlineExceeded? then TimedOut else Failed;
      }
    }

    /** Sending once, and what follows; nothing follows if the modem does not know how. */
    method SendOnce(o: Outcome, prefer: Event, deadline: bool) returns (reply: Reply)
      requires Valid() && Enabled(View(), Event.Originate(o)) && !ussdAwaitRelease
      modifies this`ussdResult, this`ussdErr, this`ussdRelease, this`ussdAwaitRelease, this`clock, this`pending,
               this`pc, this`owed, this`run, this`events
      ensures Valid() && old(run) <= run && old(events) <= events && clock >= old(clock) && events != []
      ensures pc == if o.Unsupported? then Sync else Idle
      ensures !o.Unsupported? ==> reply == ReplyTo(run[|events| - 1], events[|events| - 1], deadline)
      ensures reply != StillOpen && (reply.Result? ==> started <= reply.at)
      ensures ussdAwaitRelease <==> o.DeadlineExceeded? || (o.Sent? && events[|events| - 1].GiveUp?)
      ensures ussdAwaitRelease <==> reply in [TimedOut, CancelledByCaller]
    {
      hide IsRun, AllDeliveries, Step, ReplyTo;
      Callbacks();
      Originate(o);
      reply := Failed;
      if !o.Unsupported? {
        reply := Finish(o, prefer, deadline);
      }
    }

    /** Sending, with a fallback when the modem knows no asynchronous request. */
    method Send(noWait: bool, first: Outcome, second: Outcome, prefer: Event, deadline: bool)
      returns (reply: Reply, sent: nat)
      requires Valid() && pc == (if noWait then NoWait else Sync) && !ussdAwaitRelease
      requires !first.Answered? && !second.Unsupported?
      modifies this`ussdResult, this`ussdErr, this`ussdRelease, this`ussdAwaitRelease, this`clock, this`pending,
               this`pc, this`owed, this`run, this`events
      ensures Valid() && pc.Idle? && old(run) <= run && old(events) <= events && clock >= old(clock) && events != []
      ensures reply == ReplyTo(run[|events| - 1], events[|events| - 1], deadline) && reply != StillOpen
      ensures reply.Result? ==> started <= reply.at
      ensures sent == if noWait && first.Unsupported? then 2 else 1
      ensures var last := if noWait && !first.Unsupported? then first else second;
        ussdAwaitRelease <==> last.DeadlineExceeded? || (last.Sent? && events[|events| - 1].GiveUp?)
      ensures ussdAwaitRelease <==> reply in [TimedOut, CancelledByCaller]
    {
      hide IsRun, AllDeliveries, Step, ReplyTo;
      if noWait {
        reply := SendOnce(first, prefer, deadline);
        if !first.Unsupported? {
          return reply, 1;
        }
      }
      reply := SendOnce(second, prefer, deadline);
      sent := if noWait then 2 else 1;
    }

    /** The part of a call that comes before sending. */
    method Prepare(noWait: bool) returns (drained: bool, refused: bool)
      requires Valid() && pc.Idle?
      modifies this
      ensures Valid() && old(run) <= run && old(events) <= events && old(clock) <= started < clock
      ensures events != [] && events[|events| - 1] == Decide(noWait)
      ensures pc == if refused then Idle else if noWait then NoWait else Sync
      ensures old(ussdRelease).Some? ==> drained
      ensures refused == ussdAwaitRelease == (old(ussdAwaitRelease) && !drained)
    {
      hide IsRun, AllDeliveries, Step, Enabled;
      Begin();
      drained := ResetUSSDChannels();
      Callbacks();
      refused := Resolve(noWait);
    }

    /** One call.  The modem decides how sending ends and which callbacks come when; sent
        counts the requests handed to it.  What is answered tells the step that ended the
        call, and a result was delivered after it began; it is refused exactly when the
        block is set and no release turns up while the channels are drained; and the block
        it leaves comes from a refusal, a deadline or a context that ends in the wait, and
        from nothing else, which the caller can tell from the answer. */
    method ExecuteUSSD(noWait: bool, first: Outcome, second: Outcome, prefer: Event, deadline: bool)
      returns (reply: Reply, sent: nat, drained: bool)
      requires Valid() && pc.Idle? && !first.Answered? && !second.Unsupported?
      modifies this
      ensures Valid() && pc.Idle? && old(run) <= run && old(events) <= events && old(clock) <= started < clock
      ensures events != [] && reply == ReplyTo(run[|events| - 1], events[|events| - 1], deadline)
      ensures reply.Result? ==> started <= reply.at
      ensures old(ussdRelease).Some? ==> drained
      ensures var blocked := old(ussdAwaitRelease) && !drained;
        && (reply == StillOpen <==> blocked)
        && sent == (if blocked then 0 else if noWait && first.Unsupported? then 2 else 1)
      ensures var blocked := old(ussdAwaitRelease) && !drained;
        var last := if noWait && !first.Unsupported? then first else second;
        ussdAwaitRelease <==> blocked || last.DeadlineExceeded? || (last.Sent? && events[|events| - 1].GiveUp?)
      ensures ussdAwaitRelease <==> reply in [StillOpen, TimedOut, CancelledByCaller]
    {
      hide IsRun, AllDeliveries, Step, Enabled;
      var refused;
      drained, refused := Prepare(noWait);
      if refused {
        return StillOpen, 0, drained;
      }
      reply, sent := Send(noWait, first, second, prefer, deadline);
    }
  }
}
