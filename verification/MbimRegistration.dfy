/** Getting an MBIM modem registered and attached, against any behaviour of the modem: the
    controller answers each command as an arbitrary function of everything that happened
    before, and logs command and answer. */
module MbimRegistration {
  import opened Common

  datatype Mode = Online | RFOff | LowPower | OtherMode

  datatype Selection = Automatic | Manual(plmn: string, rat: string)

  datatype Poll = PollFailed | PollEmpty | Serving(regStatus: int, psAttached: bool)

  datatype Entry =
    | GotMode(mode: Option<Mode>)
    | SetMode(mode': Mode, ok: bool)
    | SimChecked(inserted: Option<bool>)
    | Polled(poll: Poll)
    | Submitted(selection: Selection, ok: bool)
    | AttachIssued(ok: bool)
    | ScanChecked(active: bool)
    | Slept(ok: bool)

  type Log = seq<Entry>

  datatype World = World(
    mode: Log -> Option<Mode>, setMode: (Log, Mode) -> bool, sim: Log -> Option<bool>, poll: Log -> Poll,
    select: (Log, Selection) -> bool, attach: Log -> bool, scanning: Log -> bool, sleep: Log -> bool)

  datatype Config = Config(operatorMode: string, plmn: string, rat: string)
  datatype Options = Options(maxAttempts: int, radioCycleAfter: int)

  /** What the modem is to be brought to, and with which patience. */
  datatype Job = Job(config: Config, options: Options)

  datatype Outcome = Registered | Denied | SimNotReady | TimedOut | Failed

  function Normalize(o: Options): (r: Options)
    ensures r.maxAttempts > 0 && r.radioCycleAfter > 0
  {
    Options(if o.maxAttempts <= 0 then 45 else o.maxAttempts, if o.radioCycleAfter <= 0 then 30 else o.radioCycleAfter)
  }

  function Wanted(cfg: Config): Selection {
    if cfg.operatorMode == "manual" && cfg.plmn != "" then Manual(cfg.plmn, cfg.rat) else Automatic
  }

  // ---- what a log says --------------------------------------------------------------

  /** What matters of everything that happened so far.  A radio cycle begins by switching
      the radio off; `submitted` and `attached` are since the last cycle, `cycled` is since
      the last poll. */
  datatype Facts = Facts(
    polls: nat, simChecks: nat, cycles: nat, submissions: nat, attaches: nat,
    submitted: bool, attached: bool, cycled: bool,
    poll: Option<Poll>, simReady: bool, radioOff: bool, last: Option<Entry>)

  const NOTHING := Facts(0, 0, 0, 0, 0, false, false, false, None, false, false, None)

  predicate IsCycle(e: Entry) { e.SetMode? && e.mode' == RFOff }

  function Note(f: Facts, e: Entry): Facts {
    var f := f.(last := Some(e));
    match e
    case Polled(p) => f.(polls := f.polls + 1, poll := Some(p), cycled := false)
    case SimChecked(inserted) => f.(simChecks := f.simChecks + 1, simReady := inserted == Some(true))
    case Submitted(_, _) => f.(submissions := f.submissions + 1, submitted := true)
    case AttachIssued(_) => f.(attaches := f.attaches + 1, attached := true)
    case GotMode(mode) => f.(radioOff := mode in [Some(RFOff), Some(LowPower)])
    case SetMode(mode, ok) =>
      var off := if ok then mode == RFOff else f.radioOff;
      if mode == RFOff then f.(cycles := f.cycles + 1, submitted := false, attached := false, cycled := true,
          radioOff := off)
      else f.(radioOff := off)
    case _ => f
  }

  function Read(log: Log): Facts {
    if log == [] then NOTHING else Note(Read(log[..|log| - 1]), log[|log| - 1])
  }

  predicate Good(p: Poll) { p.Serving? && (p.regStatus == 1 || p.regStatus == 5) && p.psAttached }

  /** The registration state the last poll showed. */
  function Reg(f: Facts): Option<int> {
    if f.poll.Some? && f.poll.value.Serving? then Some(f.poll.value.regStatus) else None
  }

  // ---- the protocol -----------------------------------------------------------------

  /** What the last poll calls for has been done. */
  predicate Served(f: Facts, job: Job) {
    match Reg(f)
    case None => true
    case Some(r) =>
      if r == 1 || r == 5 then f.attached
      else if r == 2 then
        f.cycled || (f.submitted && (f.cycles > 0 || f.polls < job.options.radioCycleAfter
            || f.last == Some(ScanChecked(true))))
      else f.submitted
  }

  /** An answer that ends the call with an error. */
  predicate IsFailure(e: Entry) {
    || e == GotMode(None) || e == SimChecked(None) || e == Slept(false) || e == AttachIssued(false)
    || (e.Polled? && !e.poll.Serving?) || (e.Submitted? && !e.ok) || e == SetMode(Online, false)
  }

  /** When a command may be sent, given everything before it; and nobody sleeps before
      having done what the last poll calls for. */
  predicate Permitted(f: Facts, e: Entry, job: Job) {
    match e
    case Polled(_) =>
      && f.simReady && f.polls < job.options.maxAttempts
      && (f.poll.Some? ==> Reg(f).Some? && Reg(f) != Some(3) && !Good(f.poll.value) && f.last == Some(Slept(true)))
    case SimChecked(_) => !f.simReady && f.simChecks < job.options.maxAttempts
    case Submitted(selection, _) =>
      selection == Wanted(job.config) && !f.submitted && Reg(f).Some? && Reg(f).value !in [1, 3, 5]
    case AttachIssued(_) => !f.attached && Reg(f) in [Some(1), Some(5)] && !Good(f.poll.value)
    case SetMode(mode, _) =>
      if mode == RFOff then
        && f.cycles == 0 && f.polls >= job.options.radioCycleAfter && Reg(f) == Some(2)
        && f.submitted && f.last == Some(ScanChecked(false))
      else mode == Online && f.radioOff
    case Slept(_) => Served(f, job)
    case _ => true
  }

  ghost predicate Obeys(log: Log, job: Job) {
    log == [] || (Obeys(log[..|log| - 1], job) && Permitted(Read(log[..|log| - 1]), log[|log| - 1], job))
  }

  lemma OneMore(log: Log, e: Entry, job: Job)
    ensures Read(log + [e]) == Note(Read(log), e)
    ensures Obeys(log + [e], job) <==> Obeys(log, job) && Permitted(Read(log), e, job)
  {
    assert (log + [e])[..|log|] == log;
  }

  predicate Bounded(f: Facts, job: Job) {
    && f.polls <= job.options.maxAttempts && f.simChecks <= job.options.maxAttempts && f.cycles <= 1
    && f.submissions <= f.cycles + (if f.submitted then 1 else 0)
    && f.attaches <= f.cycles + (if f.attached then 1 else 0)
  }

  lemma PermittedStaysBounded(f: Facts, e: Entry, job: Job)
    requires Bounded(f, job) && Permitted(f, e, job)
    ensures Bounded(Note(f, e), job)
  {}

  /** Whoever obeys stays within all bounds, whatever the modem answers. */
  lemma {:induction false} ObeyingIsBounded(log: Log, job: Job)
    requires Obeys(log, job) && job.options.maxAttempts > 0
    ensures Bounded(Read(log), job)
  {
    hide Bounded, Permitted, Note;
    if log == [] {
      NothingIsBounded(job);
    } else {
      ObeyingIsBounded(log[..|log| - 1], job);
      PermittedStaysBounded(Read(log[..|log| - 1]), log[|log| - 1], job);
    }
  }

  lemma NothingIsBounded(job: Job)
    requires job.options.maxAttempts > 0
    ensures Bounded(NOTHING, job)
  {}

  /** At most two submissions and two attaches, and only with a radio cycle in between. */
  lemma AtMostTwo(log: Log, job: Job)
    requires Obeys(log, job) && job.options.maxAttempts > 0
    ensures Read(log).submissions <= 2 && Read(log).attaches <= 2
    ensures Read(log).submissions == 2 || Read(log).attaches == 2 ==> Read(log).cycles == 1
  {
    hide Read;
    ObeyingIsBounded(log, job);
  }

  lemma NoteCycles(f: Facts, e: Entry)
    ensures Note(f, e).cycles == f.cycles + if IsCycle(e) then 1 else 0
    ensures !IsCycle(e) ==> Note(f, e).submitted == (f.submitted || e.Submitted?)
    ensures !IsCycle(e) ==> Note(f, e).attached == (f.attached || e.AttachIssued?)
  {}

  predicate SameCommand(a: Entry, b: Entry) { (a.Submitted? && b.Submitted?) || (a.AttachIssued? && b.AttachIssued?) }

  lemma {:induction false} RepeatsNeedACycle(log: Log, job: Job, i: nat, j: nat)
    requires Obeys(log, job) && i < j < |log| && SameCommand(log[i], log[j])
    ensures exists k :: i < k < j && IsCycle(log[k])
  {
    var init := log[..|log| - 1];
    if j < |log| - 1 {
      RepeatsNeedACycle(init, job, i, j);
      var k :| i < k < j && IsCycle(init[k]);
      assert IsCycle(log[k]);
    } else {
      SinceCycle(init, i);
      var k :| i < k < |init| && IsCycle(init[k]);
      assert IsCycle(log[k]);
    }
  }

  lemma {:induction false} SinceCycle(log: Log, i: nat)
    requires i < |log|
    requires (log[i].Submitted? && !Read(log).submitted) || (log[i].AttachIssued? && !Read(log).attached)
    ensures exists k :: i < k < |log| && IsCycle(log[k])
  {
    var init := log[..|log| - 1];
    NoteCycles(Read(init), log[|log| - 1]);
    hide Note;
    if IsCycle(log[|log| - 1]) {
      assert i < |log| - 1;
    } else {
      assert i < |init|;
      SinceCycle(init, i);
      var k :| i < k < |init| && IsCycle(init[k]);
      assert IsCycle(log[k]);
    }
  }

  /** The positions of the polls in a log. */
  function PollsAt(log: Log): set<nat> { set i: nat | i < |log| && log[i].Polled? }

  lemma {:induction false} PollsAreCounted(log: Log)
    ensures Read(log).polls == |PollsAt(log)|
  {
    if log == [] {
      assert PollsAt(log) == {};
    } else {
      var init, last := log[..|log| - 1], log[|log| - 1];
      PollsAreCounted(init);
      NotePolls(Read(init), last);
      OnePollMore(init, last);
      assert log == init + [last];
      hide PollsAt, Note;
    }
  }

  lemma NotePolls(f: Facts, e: Entry)
    ensures Note(f, e).polls == f.polls + if e.Polled? then 1 else 0
  {}

  lemma OnePollMore(init: Log, last: Entry)
    ensures PollsAt(init + [last]) == PollsAt(init) + if last.Polled? then {|init|} else {}
    ensures |init| !in PollsAt(init)
  {}

  lemma {:induction false} ObeyedAt(log: Log, job: Job, i: nat)
    requires Obeys(log, job) && i < |log|
    ensures Obeys(log[..i], job) && Permitted(Read(log[..i]), log[i], job)
  {
    if i < |log| - 1 {
      ObeyedAt(log[..|log| - 1], job, i);
      assert log[..|log| - 1][..i] == log[..i];
    }
  }

  /** What the configuration and the options mean for a log that obeys: the network submitted
      is the configured one, if the selection is manual and names one, and automatic selection
      otherwise; there are at most 45 polls, and no radio cycle before 30 of them, unless the
      options say otherwise. */
  lemma LogAsConfigured(log: Log, cfg: Config, opts: Options)
    requires Obeys(log, Job(cfg, Normalize(opts)))
    ensures forall i :: 0 <= i < |log| && log[i].Submitted? ==>
      log[i].selection == if cfg.operatorMode == "manual" && cfg.plmn != "" then Manual(cfg.plmn, cfg.rat)
                          else Automatic
    ensures |PollsAt(log)| <= if opts.maxAttempts > 0 then opts.maxAttempts else 45
    ensures forall i :: 0 <= i < |log| && log[i].SetMode? && log[i].mode' == RFOff ==>
      |PollsAt(log[..i])| >= if opts.radioCycleAfter > 0 then opts.radioCycleAfter else 30
  {
    var job := Job(cfg, Normalize(opts));
    ObeyingIsBounded(log, job);
    PollsAreCounted(log);
    hide Read, Obeys, PollsAt, Permitted;
    forall i | 0 <= i < |log|
      ensures Permitted(Read(log[..i]), log[i], job)
      ensures Read(log[..i]).polls == |PollsAt(log[..i])|
    {
      ObeyedAt(log, job, i);
      PollsAreCounted(log[..i]);
    }
    forall i | 0 <= i < |log| && log[i].Submitted? ensures log[i].selection == Wanted(cfg) {
      PermittedAsConfigured(Read(log[..i]), log[i], job);
    }
    forall i | 0 <= i < |log| && IsCycle(log[i]) ensures |PollsAt(log[..i])| >= job.options.radioCycleAfter {
      PermittedAsConfigured(Read(log[..i]), log[i], job);
    }
  }

  lemma PermittedAsConfigured(f: Facts, e: Entry, job: Job)
    requires Permitted(f, e, job)
    ensures e.Submitted? ==> e.selection == Wanted(job.config)
    ensures IsCycle(e) ==> f.polls >= job.options.radioCycleAfter
  {}

  lemma {:induction false} LastPoll(log: Log, i: nat)
    requires i < |log| && log[i].Polled? && forall m :: i < m < |log| ==> !log[m].Polled?
    ensures Read(log).poll == Some(log[i].poll)
  {
    var init, last := log[..|log| - 1], log[|log| - 1];
    if i < |log| - 1 {
      LastPoll(init, i);
      OnlyPollsChangePoll(Read(init), last);
    }
  }

  lemma OnlyPollsChangePoll(f: Facts, e: Entry)
    ensures !e.Polled? ==> Note(f, e).poll == f.poll
  {}

  /** The first poll that decides ends the polling: whatever a log shows that is polled again
      was neither an error, nor a denial, nor registered and attached. */
  lemma {:induction false} PollingGoesOn(log: Log, job: Job, i: nat, j: nat)
    requires Obeys(log, job) && i < j < |log| && log[i].Polled? && log[j].Polled?
    ensures log[i].poll.Serving? && log[i].poll.regStatus != 3
    ensures log[i].poll.regStatus in [1, 5] ==> !log[i].poll.psAttached
    decreases j
  {
    hide Read, Obeys;
    if m: nat :| i < m < j && log[m].Polled? {
      PollingGoesOn(log, job, i, m);
    } else {
      ObeyedAt(log, job, j);
      LastPoll(log[..j], i);
    }
  }

  // ---- the controller ------------------------------------------------------------------

  class Controller {
    const world: World
    var log: Log

    constructor (world: World)
      ensures this.world == world && log == []
    {
      this.world := world;
      log := [];
    }

    ghost function Now(): Facts
      reads this
    {
      Read(log)
    }

    ghost predicate Follows(before: Log, e: Entry, job: Job)
      reads this
    {
      && log == before + [e] && Now() == Note(Read(before), e)
      && (Obeys(log, job) <==> Obeys(before, job) && Permitted(Read(before), e, job))
    }

    method GetOperatingMode(ghost job: Job) returns (mode: Option<Mode>)
      modifies this
      ensures Follows(old(log), GotMode(mode), job)
    {
      mode := world.mode(log);
      OneMore(log, GotMode(mode), job);
      log := log + [GotMode(mode)];
    }

    method SetOperatingMode(mode: Mode, ghost job: Job) returns (ok: bool)
      modifies this
      ensures Follows(old(log), SetMode(mode, ok), job)
    {
      ok := world.setMode(log, mode);
      OneMore(log, SetMode(mode, ok), job);
      log := log + [SetMode(mode, ok)];
    }

    method IsSimInserted(ghost job: Job) returns (inserted: Option<bool>)
      modifies this
      ensures Follows(old(log), SimChecked(inserted), job)
    {
      inserted := world.sim(log);
      OneMore(log, SimChecked(inserted), job);
      log := log + [SimChecked(inserted)];
    }

    method GetServingSystem(ghost job: Job) returns (poll: Poll)
      modifies this
      ensures Follows(old(log), Polled(poll), job)
    {
      poll := world.poll(log);
      OneMore(log, Polled(poll), job);
      log := log + [Polled(poll)];
    }

    method SetOperatorSelection(selection: Selection, ghost job: Job) returns (ok: bool)
      modifies this
      ensures Follows(old(log), Submitted(selection, ok), job)
    {
      ok := world.select(log, selection);
      OneMore(log, Submitted(selection, ok), job);
      log := log + [Submitted(selection, ok)];
    }

    method AttachPacketService(ghost job: Job) returns (ok: bool)
      modifies this
      ensures Follows(old(log), AttachIssued(ok), job)
    {
      ok := world.attach(log);
      OneMore(log, AttachIssued(ok), job);
      log := log + [AttachIssued(ok)];
    }

    method ScanActive(ghost job: Job) returns (active: bool)
      modifies this
      ensures Follows(old(log), ScanChecked(active), job)
    {
      active := world.scanning(log);
      OneMore(log, ScanChecked(active), job);
      log := log + [ScanChecked(active)];
    }

    /** Sleeping fails when the context is done. */
    method Sleep(ghost job: Job) returns (ok: bool)
      modifies this
      ensures Follows(old(log), Slept(ok), job)
    {
      ok := world.sleep(log);
      OneMore(log, Slept(ok), job);
      log := log + [Slept(ok)];
    }
  }

  // ---- the algorithm -------------------------------------------------------------------

  method WaitMBIMSIMReady(ctrl: Controller, ghost job: Job, maxAttempts: int) returns (ready: Outcome)
    requires Obeys(ctrl.log, job) && maxAttempts == job.options.maxAttempts > 0
    requires var f := ctrl.Now(); f.simChecks == 0 && !f.simReady && f.poll.None?
    modifies ctrl
    ensures Obeys(ctrl.log, job) && old(ctrl.log) <= ctrl.log
    ensures var f, f0 := ctrl.Now(), old(ctrl.Now());
      f == f0.(simChecks := f.simChecks, simReady := f.simReady, last := f.last)
    ensures ready == Registered <==> ctrl.Now().simReady
    ensures ready in [Registered, SimNotReady, Failed]
    ensures ready == SimNotReady ==> ctrl.Now().simChecks == maxAttempts
    ensures ready == Failed ==> ctrl.Now().last.Some? && IsFailure(ctrl.Now().last.value)
  {
    hide Read, Obeys;
    var attempt := 1;
    while attempt <= maxAttempts
      invariant 1 <= attempt <= maxAttempts + 1 && Obeys(ctrl.log, job) && old(ctrl.log) <= ctrl.log
      invariant var f, f0 := ctrl.Now(), old(ctrl.Now());
        f == f0.(simChecks := attempt - 1, last := f.last)
    {
      var inserted := ctrl.IsSimInserted(job);
      if inserted.None? {
        return Failed;
      }
      if inserted.value {
        return Registered;
      }
      var ok := ctrl.Sleep(job);
      if !ok {
        return Failed;
      }
      attempt := attempt + 1;
    }
    return SimNotReady;
  }

  method InitiateMBIMRegistration(ctrl: Controller, cfg: Config, ghost job: Job) returns (ok: bool)
    modifies ctrl
    ensures ctrl.Follows(old(ctrl.log), Submitted(Wanted(cfg), ok), job)
  {
    var req := Automatic;
    if cfg.operatorMode == "manual" && cfg.plmn != "" {
      req := Manual(cfg.plmn, cfg.rat);
    }
    ok := ctrl.SetOperatorSelection(req, job);
  }

  /** The radio was switched off at position k and the log goes on far enough to tell how
      the cycle ended. */
  predicate CycleAt(log: Log, k: nat) {
    && k < |log| && IsCycle(log[k])
    && (log[k].ok ==>
          && k + 1 < |log|
          && (log[k + 1] == Slept(false) || (k + 2 < |log| && log[k + 1] == Slept(true) && log[k + 2].SetMode?)))
  }

  /** The cycle was cut short: the pause was interrupted, or the radio did not come back. */
  predicate CutShort(log: Log, k: nat) {
    && k + 1 < |log| && log[k] == SetMode(RFOff, true)
    && (log[k + 1] == Slept(false) || (k + 2 < |log| && log[k + 2] == SetMode(Online, false)))
  }

  method RadioCycleMBIMForRegistration(ctrl: Controller, ghost job: Job) returns (ok: bool)
    requires Obeys(ctrl.log, job) && Permitted(ctrl.Now(), SetMode(RFOff, true), job) && !ctrl.Now().radioOff
    modifies ctrl
    ensures Obeys(ctrl.log, job) && old(ctrl.log) <= ctrl.log && CycleAt(ctrl.log, |old(ctrl.log)|)
    ensures var f, f0 := ctrl.Now(), old(ctrl.Now());
      f == f0.(cycles := f0.cycles + 1, submitted := false, attached := false, cycled := true,
               radioOff := f.radioOff, last := f.last)
    ensures ctrl.Now().radioOff <==> CutShort(ctrl.log, |old(ctrl.log)|)
  {
    hide Read, Obeys;
    ok := ctrl.SetOperatingMode(RFOff, job);
    if !ok {
      return false;
    }
    ok := ctrl.Sleep(job);
    if !ok {
      return false;
    }
    ok := ctrl.SetOperatingMode(Online, job);
    if !ok {
      return false;
    }
    ok := ctrl.Sleep(job);
  }

  lemma {:induction false} CountsCycle(log: Log, i: nat)
    requires i < |log| && IsCycle(log[i])
    ensures Read(log).cycles >= 1
  {
    NoteCycles(Read(log[..|log| - 1]), log[|log| - 1]);
    hide Note;
    if i < |log| - 1 { CountsCycle(log[..|log| - 1], i); }
  }

  lemma {:induction false} CountsTwoCycles(log: Log, i: nat, j: nat)
    requires i < j < |log| && IsCycle(log[i]) && IsCycle(log[j])
    ensures Read(log).cycles >= 2
  {
    NoteCycles(Read(log[..|log| - 1]), log[|log| - 1]);
    hide Note;
    if j < |log| - 1 {
      CountsTwoCycles(log[..|log| - 1], i, j);
    } else {
      CountsCycle(log[..|log| - 1], i);
    }
  }

  /** Whether the radio is off after registration was tried, told from the log alone: it is
      exactly when some radio cycle was cut short. */
  lemma OffMeansCutShort(log: Log, job: Job, cycle: bool, at: nat)
    requires Obeys(log, job) && job.options.maxAttempts > 0 && cycle == (Read(log).cycles > 0)
    requires (cycle ==> CycleAt(log, at)) && (Read(log).radioOff <==> cycle && CutShort(log, at))
    ensures Read(log).radioOff <==> exists k :: CutShort(log, k)
  {
    hide Read, Obeys;
    ObeyingIsBounded(log, job);
    if k: nat :| CutShort(log, k) {
      CountsCycle(log, k);
      if k < at { CountsTwoCycles(log, k, at); }
      if at < k { CountsTwoCycles(log, at, k); }
    }
  }

  /** A poll has been answered that neither ends the call nor forbids to go on. */
  ghost predicate Underway(log: Log, job: Job, polled: nat, register: bool, attach: bool, cycle: bool, at: nat) {
    var f := Read(log);
    && Obeys(log, job) && f.simReady && f.polls == polled
    && Reg(f).Some? && Reg(f) != Some(3) && !Good(f.poll.value)
    && f.submitted == register && f.attached == attach && cycle == (f.cycles > 0)
    && (cycle ==> CycleAt(log, at)) && (f.radioOff <==> cycle && CutShort(log, at))
  }

  /** The state of the loop between two attempts. */
  ghost predicate Between(log: Log, job: Job, polled: nat, register: bool, attach: bool, cycle: bool, at: nat) {
    if polled == 0 then
      Obeys(log, job) && Read(log).poll.None? && Read(log).polls == Read(log).cycles == 0 && Read(log).simReady
      && !Read(log).submitted && !Read(log).attached && !Read(log).radioOff && !register && !attach && !cycle
    else Underway(log, job, polled, register, attach, cycle, at) && Read(log).last == Some(Slept(true))
  }

  /** How a call that has begun to poll may end. */
  ghost predicate Ended(log: Log, job: Job, polled: nat, outcome: Outcome, cycle: bool, at: nat) {
    var f := Read(log);
    && Obeys(log, job) && f.polls == polled
    && (outcome == Registered <==> f.poll.Some? && Good(f.poll.value))
    && (outcome == Registered ==> f.last == Some(Polled(f.poll.value)))
    && (outcome == Denied <==> Reg(f) == Some(3))
    && (outcome == TimedOut ==> polled == job.options.maxAttempts && f.last == Some(Slept(true)))
    && (outcome == Failed ==> f.last.Some? && IsFailure(f.last.value))
    && outcome != SimNotReady
    && cycle == (f.cycles > 0)
    && (cycle ==> CycleAt(log, at)) && (f.radioOff <==> cycle && CutShort(log, at))
  }

  /** Searching: submit once, and cycle the radio once if it goes on for too long. */
  method Search(ctrl: Controller, cfg: Config, o: Options, attempt: int, ghost job: Job,
                register: bool, attach: bool, cycle: bool, ghost at: nat)
    returns (ok: bool, register': bool, attach': bool, cycle': bool, ghost at': nat)
    requires job == Job(cfg, o) && o.maxAttempts > 0 && attempt > 0
    requires Underway(ctrl.log, job, attempt, register, attach, cycle, at) && Reg(ctrl.Now()) == Some(2)
    modifies ctrl
    ensures Underway(ctrl.log, job, attempt, register', attach', cycle', at')
    ensures ok ==> Served(ctrl.Now(), job)
    ensures !ok ==> ctrl.Now().last.Some? && IsFailure(ctrl.Now().last.value)
  {
    hide Read, Obeys;
    ok, register', attach', cycle', at' := true, register, attach, cycle, at;
    if !register' {
      ok := InitiateMBIMRegistration(ctrl, cfg, job);
      register' := true;
      if !ok {
        return;
      }
    }
    if register' && !cycle' && attempt >= o.radioCycleAfter {
      var active := ctrl.ScanActive(job);
      if !active {
        at' := |ctrl.log|;
        cycle' := true;
        var cycled := RadioCycleMBIMForRegistration(ctrl, job);
        register', attach' := false, false;
      }
    }
  }

  /** What the answer to a poll calls for. */
  method Act(ctrl: Controller, cfg: Config, o: Options, attempt: int, regStatus: int, ghost job: Job,
             register: bool, attach: bool, cycle: bool, ghost at: nat)
    returns (ok: bool, register': bool, attach': bool, cycle': bool, ghost at': nat)
    requires job == Job(cfg, o) && o.maxAttempts > 0 && attempt > 0
    requires Underway(ctrl.log, job, attempt, register, attach, cycle, at) && Reg(ctrl.Now()) == Some(regStatus)
    modifies ctrl
    ensures Underway(ctrl.log, job, attempt, register', attach', cycle', at')
    ensures ok ==> Served(ctrl.Now(), job)
    ensures !ok ==> ctrl.Now().last.Some? && IsFailure(ctrl.Now().last.value)
  {
    hide Read, Obeys;
    ok, register', attach', cycle', at' := true, register, attach, cycle, at;
    if regStatus == 1 || regStatus == 5 {
      if !attach' {
        ok := ctrl.AttachPacketService(job);
        attach' := true;
      }
    } else if regStatus == 2 {
      hide Underway;
      ok, register', attach', cycle', at' := Search(ctrl, cfg, o, attempt, job, register', attach', cycle', at');
    } else if !register' {
      ok := InitiateMBIMRegistration(ctrl, cfg, job);
      register' := true;
    }
  }

  lemma Answered(log: Log, job: Job, polled: nat, register: bool, attach: bool, cycle: bool, at: nat, p: Poll,
      log': Log)
    requires 0 < polled <= job.options.maxAttempts && Between(log, job, polled - 1, register, attach, cycle, at)
    requires log' == log + [Polled(p)]
    ensures Obeys(log', job) && Read(log') == Note(Read(log), Polled(p))
    ensures p.Serving? && p.regStatus != 3 && !Good(p) ==> Underway(log', job, polled, register, attach, cycle, at)
    ensures Good(p) ==> Ended(log', job, polled, Registered, cycle, at)
    ensures p.Serving? && p.regStatus == 3 ==> Ended(log', job, polled, Denied, cycle, at)
    ensures !p.Serving? ==> Ended(log', job, polled, Failed, cycle, at)
  {
    OneMore(log, Polled(p), job);
    hide Read, Obeys;
  }

  lemma GivenUp(log: Log, job: Job, polled: nat, register: bool, attach: bool, cycle: bool, at: nat)
    requires Underway(log, job, polled, register, attach, cycle, at)
    requires Read(log).last.Some? && IsFailure(Read(log).last.value)
    ensures Ended(log, job, polled, Failed, cycle, at)
  {
    hide Read, Obeys;
  }

  lemma Paused(log: Log, job: Job, polled: nat, register: bool, attach: bool, cycle: bool, at: nat, ok: bool)
    requires polled > 0 && Underway(log, job, polled, register, attach, cycle, at) && Served(Read(log), job)
    ensures ok ==> Between(log + [Slept(ok)], job, polled, register, attach, cycle, at)
    ensures !ok ==> Ended(log + [Slept(ok)], job, polled, Failed, cycle, at)
  {
    OneMore(log, Slept(ok), job);
    hide Read, Obeys;
  }

  method Attempt(ctrl: Controller, cfg: Config, o: Options, attempt: int, ghost job: Job,
                 register: bool, attach: bool, cycle: bool, ghost at: nat)
    returns (done: Option<Outcome>, register': bool, attach': bool, cycle': bool, ghost at': nat)
    requires job == Job(cfg, o) && 0 < attempt <= o.maxAttempts
    requires Between(ctrl.log, job, attempt - 1, register, attach, cycle, at)
    modifies ctrl
    ensures done.None? ==> Between(ctrl.log, job, attempt, register', attach', cycle', at')
    ensures done.Some? ==> Ended(ctrl.log, job, attempt, done.value, cycle', at')
  {
    hide Read, Obeys, Between, Underway, Ended;
    done, register', attach', cycle', at' := None, register, attach, cycle, at;
    var ss := ctrl.GetServingSystem(job);
    Answered(old(ctrl.log), job, attempt, register, attach, cycle, at, ss, ctrl.log);
    if !ss.Serving? {
      done := Some(Failed);
    } else if (ss.regStatus == 1 || ss.regStatus == 5) && ss.psAttached {
      done := Some(Registered);
    } else if ss.regStatus == 3 {
      done := Some(Denied);
    } else {
      var ok;
      ok, register', attach', cycle', at' := Act(ctrl, cfg, o, attempt, ss.regStatus, job, register', attach',
          cycle', at');
      if !ok {
        GivenUp(ctrl.log, job, attempt, register', attach', cycle', at');
        done := Some(Failed);
        return;
      }
      ghost var before := ctrl.log;
      ok := ctrl.Sleep(job);
      Paused(before, job, attempt, register', attach', cycle', at', ok);
      if !ok {
        done := Some(Failed);
      }
    }
  }

  lemma NothingYet(job: Job)
    ensures Read([]) == NOTHING && Obeys([], job)
  {}

  /** Bring the radio online if it is off, then wait for the SIM. */
  method Prepare(ctrl: Controller, o: Options, ghost job: Job) returns (ready: Outcome)
    requires job.options == o && o.maxAttempts > 0 && Obeys(ctrl.log, job) && ctrl.Now() == NOTHING
    modifies ctrl
    ensures var f := ctrl.Now();
      Obeys(ctrl.log, job) && f == NOTHING.(simChecks := f.simChecks, simReady := f.simReady, radioOff := f.radioOff,
          last := f.last)
    ensures ready in [Registered, SimNotReady, Failed]
    ensures ready == Registered <==> ctrl.Now().simReady
    ensures ready == Registered ==> !ctrl.Now().radioOff
    ensures ready == SimNotReady ==> ctrl.Now().simChecks == o.maxAttempts
    ensures ready == Failed ==> ctrl.Now().last.Some? && IsFailure(ctrl.Now().last.value)
  {
    hide Read, Obeys;
    var mode := ctrl.GetOperatingMode(job);
    if mode.None? {
      return Failed;
    }
    if mode.value == RFOff || mode.value == LowPower {
      var ok := ctrl.SetOperatingMode(Online, job);
      if !ok {
        return Failed;
      }
      ok := ctrl.Sleep(job);
      if !ok {
        return Failed;
      }
    }
    ready := WaitMBIMSIMReady(ctrl, job, o.maxAttempts);
  }

  method PollUntilRegistered(ctrl: Controller, cfg: Config, o: Options, ghost job: Job) returns (outcome: Outcome)
    requires job == Job(cfg, o) && o.maxAttempts > 0
    requires Between(ctrl.log, job, 0, false, false, false, 0)
    modifies ctrl
    ensures exists polled: nat, cycle, at: nat :: polled > 0 && Ended(ctrl.log, job, polled, outcome, cycle, at)
  {
    hide Between, Ended;
    var registerIssued, attachIssued, radioCycleIssued := false, false, false;
    ghost var at: nat := 0;
    var attempt := 1;
    while attempt <= o.maxAttempts
      invariant 1 <= attempt <= o.maxAttempts + 1
      invariant Between(ctrl.log, job, attempt - 1, registerIssued, attachIssued, radioCycleIssued, at)
    {
      var done;
      done, registerIssued, attachIssued, radioCycleIssued, at :=
        Attempt(ctrl, cfg, o, attempt, job, registerIssued, attachIssued, radioCycleIssued, at);
      if done.Some? {
        return done.value;
      }
      attempt := attempt + 1;
    }
    OutOfAttempts(ctrl.log, job, registerIssued, attachIssued, radioCycleIssued, at);
    return TimedOut;
  }

  lemma OutOfAttempts(log: Log, job: Job, register: bool, attach: bool, cycle: bool, at: nat)
    requires job.options.maxAttempts > 0 && Between(log, job, job.options.maxAttempts, register, attach, cycle, at)
    ensures Ended(log, job, job.options.maxAttempts, TimedOut, cycle, at)
  {
    hide Read, Obeys;
  }

  /** The whole call.  The log tells everything that was sent and answered. */
  method EnsureMBIMRegistration(ctrl: Controller, cfg: Config, opts: Options) returns (outcome: Outcome)
    requires ctrl.log == []
    modifies ctrl
    ensures var job, f := Job(cfg, Normalize(opts)), ctrl.Now();
      && Obeys(ctrl.log, job)
      && (outcome == Registered <==> f.poll.Some? && Good(f.poll.value))
      && (outcome == Registered ==> f.last == Some(Polled(f.poll.value)))
      && (outcome == Denied <==> Reg(f) == Some(3))
      && (outcome == TimedOut ==> f.polls == job.options.maxAttempts && f.last == Some(Slept(true)))
      && (outcome == Failed ==> f.last.Some? && IsFailure(f.last.value))
      && (outcome == SimNotReady ==> f.polls == 0 && f.simChecks == job.options.maxAttempts)
      && (f.polls > 0 ==> (f.radioOff <==> exists k :: CutShort(ctrl.log, k)))
  {
    hide Read, Obeys;
    var o := Normalize(opts);
    ghost var job := Job(cfg, o);
    NothingYet(job);
    outcome := Prepare(ctrl, o, job);
    if outcome != Registered {
      return;
    }
    outcome := PollUntilRegistered(ctrl, cfg, o, job);
    ghost var polled: nat, cycle, at: nat :| polled > 0 && Ended(ctrl.log, job, polled, outcome, cycle, at);
    OffMeansCutShort(ctrl.log, job, cycle, at);
  }

  // ---- a radio that stays off ---------------------------------------------------------------

  /** The entry is what the modem answers after the log. */
  predicate Answers(w: World, log: Log, e: Entry) {
    match e
    case GotMode(m) => m == w.mode(log)
    case SetMode(m, ok) => ok == w.setMode(log, m)
    case SimChecked(i) => i == w.sim(log)
    case Polled(p) => p == w.poll(log)
    case Submitted(x, ok) => ok == w.select(log, x)
    case AttachIssued(ok) => ok == w.attach(log)
    case ScanChecked(a) => a == w.scanning(log)
    case Slept(ok) => ok == w.sleep(log)
  }

  ghost predicate AnsweredBy(log: Log, w: World) {
    forall i :: 0 <= i < |log| ==> Answers(w, log[..i], log[i])
  }

  /** A modem that keeps searching and does not come back online. */
  const STUBBORN := World(
    (l: Log) => Some(Online), (l: Log, m: Mode) => m != Online, (l: Log) => Some(true), (l: Log) => Serving(2, false),
    (l: Log, x: Selection) => true, (l: Log) => true, (l: Log) => false, (l: Log) => true)

  const IMPATIENT := Job(Config("", "", ""), Options(5, 1))

  function UpToTheCycle(): Log {
    [GotMode(Some(Online)), SimChecked(Some(true)), Polled(Serving(2, false)), Submitted(Automatic, true),
     ScanChecked(false)]
  }

  function AfterTheCycle(): Log {
    [SetMode(RFOff, true), Slept(true), SetMode(Online, false), Slept(true), Polled(Serving(2, false))]
  }

  predicate Allows(f: Facts, more: Log, job: Job)
    decreases more
  {
    more == [] || (Permitted(f, more[0], job) && Allows(Note(f, more[0]), more[1..], job))
  }

  function NoteAll(f: Facts, more: Log): Facts
    decreases more
  {
    if more == [] then f else NoteAll(Note(f, more[0]), more[1..])
  }

  lemma {:induction false} Continued(log: Log, more: Log, job: Job)
    requires Obeys(log, job) && Allows(Read(log), more, job)
    ensures Obeys(log + more, job) && Read(log + more) == NoteAll(Read(log), more)
    decreases more
  {
    hide Permitted, Note;
    if more == [] {
      assert log + more == log;
    } else {
      OneMore(log, more[0], job);
      Continued(log + [more[0]], more[1..], job);
      assert log + [more[0]] + more[1..] == log + more;
    }
  }

  const SEARCHING := Facts(
    1, 1, 0, 1, 0, true, false, false, Some(Serving(2, false)), true, false, Some(ScanChecked(false)))

  lemma SearchingModem()
    ensures Allows(NOTHING, UpToTheCycle(), IMPATIENT) && NoteAll(NOTHING, UpToTheCycle()) == SEARCHING
  {
    var l := UpToTheCycle();
    assert l[1..][1..] == l[2..] && l[2..][1..] == l[3..] && l[3..][1..] == l[4..] && l[4..][1..] == [];
  }

  lemma BrokenCycle()
    ensures Allows(SEARCHING, AfterTheCycle(), IMPATIENT) && NoteAll(SEARCHING, AfterTheCycle()).radioOff
  {
    var l := AfterTheCycle();
    assert l[1..][1..] == l[2..] && l[2..][1..] == l[3..] && l[3..][1..] == l[4..] && l[4..][1..] == [];
  }

  /** The call goes on polling with the radio off: such a log is possible. */
  lemma RadioStaysOff()
    ensures var log := UpToTheCycle() + AfterTheCycle();
      && AnsweredBy(log, STUBBORN) && Obeys(log, IMPATIENT)
      && CutShort(log, 5) && Read(log).radioOff && log[|log| - 1].Polled?
  {
    var first, second := UpToTheCycle(), AfterTheCycle();
    SearchingModem();
    BrokenCycle();
    hide Allows, NoteAll, Read, Obeys;
    NothingYet(IMPATIENT);
    Continued([], first, IMPATIENT);
    assert [] + first == first;
    Continued(first, second, IMPATIENT);
  }
}
