/** Profile switches in flight: every switch has a token, and whoever works for a switch
    presents it.  Each method below is one section under the pool's switch lock. */
module EsimSwitch {
  import opened Common
  import opened Text

  /** What was running before the switch; opaque to the bookkeeping. */
  datatype Snapshot = Snapshot(
    capturedAt: int, targetICCID: string, flightMode: bool, connected: bool, networkEnabled: bool)

  datatype Context = Context(before: Snapshot, token: nat, phase: string, phaseUpdatedAt: int, identityGeneration: nat)

  datatype Switches = Switches(
    lastToken: nat, switching: set<string>, contexts: map<string, Context>, tokens: map<string, nat>)

  /** Token 0 means that the caller does not know its switch. */
  datatype Event =
    | Begin(device: string, before: Snapshot, now: int)
    | Mark(device: string, token: nat, phase: string, now: int)
    | SetGeneration(device: string, token: nat, generation: nat)
    | ClearIfToken(device: string, token: nat)
    | FailIfToken(device: string, token: nat)
    | Cleanup(device: string, capturedAt: int)
    | Clear(device: string)

  /** The token of the device, 0 when it has none. */
  function TokenOf(s: Switches, device: string): nat {
    if device in s.tokens then s.tokens[device] else 0
  }

  function Forget(s: Switches, device: string): Switches {
    s.(switching := s.switching - {device}, contexts := s.contexts - {device}, tokens := s.tokens - {device})
  }

  function Put(s: Switches, device: string, c: Context): Switches {
    s.(contexts := s.contexts[device := c])
  }

  function Step(s: Switches, e: Event): Switches {
    match e
    case Begin(d, before, now) =>
      var t := s.lastToken + 1;
      Switches(t, s.switching + {d}, s.contexts[d := Context(before, t, "prepare", now, 0)], s.tokens[d := t])
    case Mark(device, token, phase, now) =>
      var d := Trim(device);
      if d == "" || phase == "" || (token != 0 && TokenOf(s, d) != token) || d !in s.contexts then s
      else Put(s, d, s.contexts[d].(phase := phase, phaseUpdatedAt := now))
    case SetGeneration(device, token, generation) =>
      var d := Trim(device);
      if d == "" || generation == 0 || (token != 0 && TokenOf(s, d) != token) || d !in s.contexts then s
      else Put(s, d, s.contexts[d].(identityGeneration := generation))
    case ClearIfToken(d, token) => if token == 0 || TokenOf(s, d) != token then s else Forget(s, d)
    case FailIfToken(d, token) => if token == 0 || TokenOf(s, d) != token || d !in s.contexts then s else Forget(s, d)
    case Cleanup(d, capturedAt) =>
      if d in s.contexts && s.contexts[d].before.capturedAt == capturedAt then Forget(s, d) else s
    case Clear(d) => Forget(s, d)
  }

  /** The device whose entries an event may touch. */
  function Target(e: Event): string {
    if e.Mark? || e.SetGeneration? then Trim(e.device) else e.device
  }

  predicate Carries(e: Event, token: nat) {
    (e.Mark? || e.SetGeneration? || e.ClearIfToken? || e.FailIfToken?) && e.token == token
  }

  ghost predicate IsRun(run: seq<Switches>, events: seq<Event>) {
    |run| == |events| + 1 && forall i :: 0 <= i < |events| ==> run[i + 1] == Step(run[i], events[i])
  }

  // ---- what every step keeps --------------------------------------------------------

  /** The three maps have the same devices and agree on the token; tokens were issued in
      order, and no two devices share one. */
  ghost predicate Inv(s: Switches) {
    && s.contexts.Keys == s.tokens.Keys == s.switching
    && (forall d :: d in s.tokens ==> s.contexts[d].token == s.tokens[d] && 1 <= s.tokens[d] <= s.lastToken)
    && (forall d, e :: d in s.tokens && e in s.tokens && d != e ==> s.tokens[d] != s.tokens[e])
  }

  lemma StepKeepsInv(s: Switches, e: Event)
    requires Inv(s)
    ensures Inv(Step(s, e))
    ensures s.lastToken <= Step(s, e).lastToken
  {
    hide Trim, Inv, Put, Forget;
    match e
    case Begin(d, before, now) => BeginKeepsInv(s, d, before, now);
    case Mark(device, token, phase, now) =>
      var d := Trim(device);
      if d in s.contexts { PutKeepsInv(s, d, s.contexts[d].(phase := phase, phaseUpdatedAt := now)); }
    case SetGeneration(device, token, generation) =>
      var d := Trim(device);
      if d in s.contexts { PutKeepsInv(s, d, s.contexts[d].(identityGeneration := generation)); }
    case _ => ForgetKeepsInv(s, e.device);
  }

  lemma BeginKeepsInv(s: Switches, d: string, before: Snapshot, now: int)
    requires Inv(s)
    ensures Inv(Step(s, Begin(d, before, now))) && s.lastToken < Step(s, Begin(d, before, now)).lastToken
  {}

  lemma PutKeepsInv(s: Switches, d: string, c: Context)
    requires Inv(s) && d in s.contexts && c.token == s.contexts[d].token
    ensures Inv(Put(s, d, c)) && Put(s, d, c).lastToken == s.lastToken
  {}

  lemma ForgetKeepsInv(s: Switches, d: string)
    requires Inv(s)
    ensures Inv(Forget(s, d)) && Forget(s, d).lastToken == s.lastToken
  {}

  lemma {:induction false} RunInv(run: seq<Switches>, events: seq<Event>)
    requires IsRun(run, events) && Inv(run[0])
    ensures forall i :: 0 <= i < |run| ==> Inv(run[i])
    ensures forall i, j :: 0 <= i <= j < |run| ==> run[i].lastToken <= run[j].lastToken
  {
    hide Step, Inv;
    if events != [] {
      var n := |events|;
      RunInv(run[..n], events[..n - 1]);
      assert forall i :: 0 <= i < n ==> run[..n][i] == run[i];
      StepKeepsInv(run[n - 1], events[n - 1]);
    }
  }

  /** A switch gets a token that is greater than every token issued before. */
  lemma TokensIncrease(s: Switches, device: string, before: Snapshot, now: int)
    requires Inv(s)
    ensures forall d :: d in s.tokens ==> s.tokens[d] < TokenOf(Step(s, Begin(device, before, now)), device)
  {}

  /** Entries of other devices stay as they are. */
  lemma OtherDevicesUntouched(s: Switches, e: Event, device: string)
    requires device != Target(e)
    ensures TokenOf(Step(s, e), device) == TokenOf(s, device)
    ensures device in Step(s, e).contexts <==> device in s.contexts
    ensures device in s.contexts ==> Step(s, e).contexts[device] == s.contexts[device]
    ensures device in Step(s, e).switching <==> device in s.switching
  {
    hide Trim;
  }

  /** Nothing of the device is left: it is not switching, and has neither context nor token. */
  ghost predicate Forgotten(s: Switches, device: string) {
    device !in s.switching && device !in s.contexts && device !in s.tokens
  }

  /** Clearing or failing the switch in flight, with its token, forgets the device. */
  lemma CurrentTokenEnds(s: Switches, device: string, token: nat)
    requires Inv(s) && device in s.contexts && s.tokens[device] == token
    ensures Forgotten(Step(s, ClearIfToken(device, token)), device)
    ensures Forgotten(Step(s, FailIfToken(device, token)), device)
  {}

  // ---- stale work is harmless -----------------------------------------------------------

  /** A token that is not the device's current one is no key to anything. */
  lemma StaleTokenDoesNothing(s: Switches, e: Event, token: nat)
    requires token != 0 && Carries(e, token) && TokenOf(s, Target(e)) != token
    ensures Step(s, e) == s
  {
    hide Trim;
  }

  /** A token once issued and not held by the device now will never be held by it again. */
  lemma {:induction false} StaleForever(run: seq<Switches>, events: seq<Event>, device: string, token: nat)
    requires IsRun(run, events) && Inv(run[0])
    requires 0 < token <= run[0].lastToken && TokenOf(run[0], device) != token
    ensures TokenOf(run[|run| - 1], device) != token
  {
    hide Step, Inv;
    if events != [] {
      var n := |events|;
      StaleForever(run[..n], events[..n - 1], device, token);
      RunInv(run, events);
      TokenComesFromBegin(run[n - 1], events[n - 1], device);
    }
  }

  lemma TokenComesFromBegin(s: Switches, e: Event, device: string)
    ensures TokenOf(Step(s, e), device) in {0, TokenOf(s, device), s.lastToken + 1}
  {
    hide Trim;
  }

  /** So whatever happens in between, work done for an old switch, with its token, leaves
      the whole state as it is: a newer switch of the device included. */
  lemma OldSwitchCannotInterfere(run: seq<Switches>, events: seq<Event>, e: Event, token: nat)
    requires IsRun(run, events) && Inv(run[0])
    requires 0 < token <= run[0].lastToken && TokenOf(run[0], Target(e)) != token && Carries(e, token)
    ensures Step(run[|run| - 1], e) == run[|run| - 1]
  {
    hide Step, Target, Carries;
    StaleForever(run, events, Target(e), token);
    StaleTokenDoesNothing(run[|run| - 1], e, token);
  }

  /** The two-minute cleanup of a switch forgets the device exactly when the switch in
      flight was captured at the same time; it does nothing otherwise. */
  lemma CleanupExactly(s: Switches, device: string, capturedAt: int)
    requires Inv(s)
    ensures Step(s, Cleanup(device, capturedAt)) != s <==>
            device in s.contexts && s.contexts[device].before.capturedAt == capturedAt
    ensures Step(s, Cleanup(device, capturedAt)) != s ==> TokenOf(Step(s, Cleanup(device, capturedAt)), device) == 0
  {}

  const EMPTY := Switches(0, {}, map[], map[])

  predicate BegunBy(c: Context, e: Event, device: string) {
    e.Begin? && e.device == device && e.before == c.before
  }

  /** The snapshot of a switch is never replaced: it is the one its Begin took, and the token
      tells which Begin that was. */
  lemma ContextKept(s: Switches, e: Event, device: string)
    requires Inv(s) && device in Step(s, e).contexts
    ensures var c := Step(s, e).contexts[device];
      || (BegunBy(c, e, device) && c.token == s.lastToken + 1)
      || (device in s.contexts && s.contexts[device].before == c.before && s.contexts[device].token == c.token)
  {
    hide Trim;
  }

  lemma {:induction false} CurrentSwitchWasBegun(run: seq<Switches>, events: seq<Event>,
      device: string) returns (j: nat)
    requires IsRun(run, events) && run[0] == EMPTY && device in run[|events|].contexts
    ensures j < |events| && BegunBy(run[|events|].contexts[device], events[j], device)
    ensures run[|events|].contexts[device].token == run[j].lastToken + 1
  {
    hide Step, BegunBy, Inv;
    EmptyInv();
    RunInv(run, events);
    var n := |events|;
    ContextKept(run[n - 1], events[n - 1], device);
    if BegunBy(run[n].contexts[device], events[n - 1], device)
        && run[n].contexts[device].token == run[n - 1].lastToken + 1 {
      j := n - 1;
    } else {
      j := CurrentSwitchWasBegun(run[..n], events[..n - 1], device);
      BegunByEqual(run[n - 1].contexts[device], run[n].contexts[device], events[j], device);
    }
  }

  lemma BegunByEqual(a: Context, b: Context, e: Event, device: string)
    requires a.before == b.before
    ensures BegunBy(a, e, device) == BegunBy(b, e, device)
  {}

  lemma EmptyInv()
    ensures Inv(EMPTY)
  {}

  /** The event sets the phase of the device's switch: by beginning it, or by marking it with
      its token or with none. */
  predicate SetsPhase(s: Switches, e: Event, device: string) {
    match e
    case Begin(d, _, _) => d == device
    case Mark(d, token, phase, _) =>
      Trim(d) == device != "" && phase != "" && device in s.contexts && (token == 0 || TokenOf(s, device) == token)
    case _ => false
  }

  lemma PhaseStep(s: Switches, e: Event, device: string)
    requires device in Step(s, e).contexts
    ensures var c := Step(s, e).contexts[device];
      if SetsPhase(s, e, device) then
        c.phase == (if e.Begin? then "prepare" else e.phase) && c.phaseUpdatedAt == e.now
      else device in s.contexts && c.phase == s.contexts[device].phase
           && c.phaseUpdatedAt == s.contexts[device].phaseUpdatedAt
  {
    hide Trim;
  }

  /** The phase of the switch in flight is the one that was set last. */
  lemma {:induction false} PhaseIsLastMarked(run: seq<Switches>, events: seq<Event>, device: string) returns (j: nat)
    requires IsRun(run, events) && run[0] == EMPTY && device in run[|events|].contexts
    ensures j < |events| && SetsPhase(run[j], events[j], device)
    ensures forall m :: j < m < |events| ==> !SetsPhase(run[m], events[m], device)
    ensures var c := run[|events|].contexts[device];
      c.phase == (if events[j].Begin? then "prepare" else events[j].phase) && c.phaseUpdatedAt == events[j].now
  {
    hide Step, Trim;
    var n := |events|;
    PhaseStep(run[n - 1], events[n - 1], device);
    if SetsPhase(run[n - 1], events[n - 1], device) {
      j := n - 1;
    } else {
      j := PhaseIsLastMarked(run[..n], events[..n - 1], device);
    }
  }

  predicate SetsGeneration(s: Switches, e: Event, device: string) {
    match e
    case Begin(d, _, _) => d == device
    case SetGeneration(d, token, generation) =>
      Trim(d) == device != "" && generation != 0 && device in s.contexts && (token == 0 || TokenOf(s, device) == token)
    case _ => false
  }

  lemma GenerationStep(s: Switches, e: Event, device: string)
    requires device in Step(s, e).contexts
    ensures var c := Step(s, e).contexts[device];
      if SetsGeneration(s, e, device) then c.identityGeneration == if e.Begin? then 0 else e.generation
      else device in s.contexts && c.identityGeneration == s.contexts[device].identityGeneration
  {
    hide Trim;
  }

  /** And so is its generation, which is 0 at the beginning. */
  lemma {:induction false} GenerationIsLastSet(run: seq<Switches>, events: seq<Event>, device: string)
    returns (j: nat)
    requires IsRun(run, events) && run[0] == EMPTY && device in run[|events|].contexts
    ensures j < |events| && SetsGeneration(run[j], events[j], device)
    ensures forall m :: j < m < |events| ==> !SetsGeneration(run[m], events[m], device)
    ensures run[|events|].contexts[device].identityGeneration ==
            if events[j].Begin? then 0 else events[j].generation
  {
    hide Step, Trim;
    var n := |events|;
    GenerationStep(run[n - 1], events[n - 1], device);
    if SetsGeneration(run[n - 1], events[n - 1], device) {
      j := n - 1;
    } else {
      j := GenerationIsLastSet(run[..n], events[..n - 1], device);
    }
  }

  /** Whenever the cleanup of an older switch comes, after whatever run: it leaves the switch
      in flight alone exactly when the two were captured at different times. */
  lemma OldCleanupExactly(run: seq<Switches>, events: seq<Event>, device: string, i: nat) returns (j: nat)
    requires IsRun(run, events) && run[0] == EMPTY && device in run[|events|].contexts
    requires i < |events| && events[i].Begin? && events[i].device == device
    ensures j < |events| && events[j].Begin? && events[j].device == device
    ensures TokenOf(run[|events|], device) == run[j].lastToken + 1
    ensures Step(run[|events|], Cleanup(device, events[i].before.capturedAt)) == run[|events|] <==>
            events[i].before.capturedAt != events[j].before.capturedAt
  {
    hide Step;
    EmptyInv();
    RunInv(run, events);
    j := CurrentSwitchWasBegun(run, events, device);
    CleanupExactly(run[|events|], device, events[i].before.capturedAt);
  }

  /** Concretely: two switches of one device captured at the same time, and the cleanup of
      the first erases the second. */
  lemma OldCleanupErasesNewSwitch()
    ensures var first, second := Snapshot(7, "A", false, false, false), Snapshot(7, "B", false, false, false);
      var events := [Begin("dev", first, 7), Begin("dev", second, 7)];
      var s1 := Step(EMPTY, events[0]);
      var s2 := Step(s1, events[1]);
      && IsRun([EMPTY, s1, s2], events)
      && s2.contexts["dev"].before == second && TokenOf(s2, "dev") == 2
      && Step(s2, Cleanup("dev", first.capturedAt)) == EMPTY.(lastToken := 2)
  {
    var first, second := Snapshot(7, "A", false, false, false), Snapshot(7, "B", false, false, false);
    var s1 := Step(EMPTY, Begin("dev", first, 7));
    var s2 := Step(s1, Begin("dev", second, 7));
    assert s2 == Switches(2, {"dev"}, map["dev" := Context(second, 2, "prepare", 7, 0)], map["dev" := 2]);
  }

  // ---- finishing without a token -----------------------------------------------------------

  /** A failure without a token reads the context in one section and clears in another. */
  function FinishBlind(seen: Option<Context>, s: Switches, device: string): Switches {
    if seen.Some? && seen.value.token != 0 then Step(s, ClearIfToken(device, seen.value.token))
    else Step(s, Clear(device))
  }

  /** Whatever happened between the two sections, a switch in flight survives exactly when a
      different one was seen; seeing none erases even a switch begun meanwhile. */
  lemma BlindFinishExactly(s: Switches, s': Switches, device: string)
    requires Inv(s) && Inv(s') && device in s'.contexts
    ensures var seen := if device in s.contexts then Some(s.contexts[device]) else None;
      FinishBlind(seen, s', device) == s' <==>
      device in s.contexts && s.contexts[device].token != s'.contexts[device].token
  {
    assert TokenOf(s', device) == s'.contexts[device].token;
  }

  /** Concretely: a switch begins between the two sections of a blind failure. */
  lemma BlindFinishErasesNewSwitch(before: Snapshot, now: int)
    ensures var s := EMPTY;
      var s' := Step(s, Begin("dev", before, now));
      Inv(s) && Inv(s') && "dev" in s'.switching && "dev" !in FinishBlind(None, s', "dev").switching
  {}

  // ---- the pool ----------------------------------------------------------------------------

  class Pool {
    var switchSeq: nat
    var switchingDevices: set<string>
    var switchContexts: map<string, Context>
    var switchTokens: map<string, nat>

    ghost function View(): Switches
      reads this
    {
      Switches(switchSeq, switchingDevices, switchContexts, switchTokens)
    }

    constructor ()
      ensures View() == EMPTY && Inv(View())
    {
      switchSeq, switchingDevices, switchContexts, switchTokens := 0, {}, map[], map[];
    }

    method BeginESIMSwitch(deviceID: string, before: Snapshot, now: int) returns (snapshot: Context)
      modifies this
      ensures View() == Step(old(View()), Begin(deviceID, before, now))
      ensures snapshot.token == old(switchSeq) + 1 && deviceID in switchContexts && switchContexts[deviceID] == snapshot
    {
      switchSeq := switchSeq + 1;
      snapshot := Context(before, switchSeq, "prepare", now, 0);
      switchingDevices := switchingDevices + {deviceID};
      switchContexts := switchContexts[deviceID := snapshot];
      switchTokens := switchTokens[deviceID := snapshot.token];
    }

    method CurrentToken(deviceID: string) returns (token: nat)
      ensures token == TokenOf(View(), deviceID)
    {
      token := if deviceID in switchTokens then switchTokens[deviceID] else 0;
    }

    method MarkESIMSwitchPhaseIfToken(deviceID: string, token: nat, phase: string, now: int) returns (ok: bool)
      modifies this`switchContexts
      ensures View() == Step(old(View()), Mark(deviceID, token, phase, now))
      ensures ok <==> (var d := Trim(deviceID);
        d != "" && phase != "" && d in old(switchContexts) && (token == 0 || TokenOf(old(View()), d) == token))
    {
      hide Trim;
      var d := Trim(deviceID);
      if d == "" || phase == "" {
        return false;
      }
      ok := d in switchContexts;
      var current := CurrentToken(d);
      if token != 0 && current != token {
        return false;
      }
      if ok {
        switchContexts := switchContexts[d := switchContexts[d].(phase := phase, phaseUpdatedAt := now)];
      }
    }

    method UpdateESIMSwitchIdentityGeneration(deviceID: string, token: nat, generation: nat)
      modifies this`switchContexts
      ensures View() == Step(old(View()), SetGeneration(deviceID, token, generation))
    {
      hide Trim;
      var d := Trim(deviceID);
      if d == "" || generation == 0 {
        return;
      }
      var current := CurrentToken(d);
      if token != 0 && current != token {
        return;
      }
      if d in switchContexts {
        switchContexts := switchContexts[d := switchContexts[d].(identityGeneration := generation)];
      }
    }

    method IsLatestSwitchToken(deviceID: string, token: nat) returns (latest: bool)
      ensures latest <==> token != 0 && TokenOf(View(), deviceID) == token
    {
      var current := CurrentToken(deviceID);
      latest := token != 0 && current == token;
    }

    method FinishESIMSwitch(deviceID: string) returns (snapshot: Option<Context>)
      ensures snapshot == if deviceID in switchContexts then Some(switchContexts[deviceID]) else None
    {
      snapshot := if deviceID in switchContexts then Some(switchContexts[deviceID]) else None;
    }

    method ClearESIMSwitch(deviceID: string)
      modifies this
      ensures View() == Step(old(View()), Clear(deviceID))
    {
      switchContexts := switchContexts - {deviceID};
      switchingDevices := switchingDevices - {deviceID};
      switchTokens := switchTokens - {deviceID};
    }

    method ClearESIMSwitchIfToken(deviceID: string, token: nat)
      modifies this
      ensures View() == Step(old(View()), ClearIfToken(deviceID, token))
    {
      if token == 0 {
        return;
      }
      var current := CurrentToken(deviceID);
      if current != token {
        return;
      }
      ClearESIMSwitch(deviceID);
    }

    /** The delayed cleanup that was armed for a switch captured at the given time. */
    method CleanupAfterTimeout(deviceID: string, capturedAt: int)
      modifies this
      ensures View() == Step(old(View()), Cleanup(deviceID, capturedAt))
    {
      if deviceID !in switchContexts || switchContexts[deviceID].before.capturedAt != capturedAt {
        return;
      }
      ClearESIMSwitch(deviceID);
    }

    /** With a token, one section; without, the two sections follow each other here. */
    method FinishESIMSwitchForFailure(deviceID: string, token: nat, captured: Snapshot)
      returns (snapshot: Option<Context>)
      modifies this
      ensures token != 0 ==> View() == Step(old(View()), FailIfToken(deviceID, token))
      ensures token != 0 ==>
        snapshot == if TokenOf(old(View()), deviceID) == token && deviceID in old(switchContexts)
                    then Some(old(switchContexts)[deviceID]) else None
      ensures token == 0 ==>
        && View() == FinishBlind(if deviceID in old(switchContexts) then Some(old(switchContexts)[deviceID]) else None,
                                 old(View()), deviceID)
        && snapshot == Some(if deviceID in old(switchContexts) then old(switchContexts)[deviceID]
                            else Context(captured, 0, "", 0, 0))
    {
      if token == 0 {
        var seen := FinishESIMSwitch(deviceID);
        if seen.Some? && seen.value.token != 0 {
          ClearESIMSwitchIfToken(deviceID, seen.value.token);
          return seen;
        }
        ClearESIMSwitch(deviceID);
        return if seen.Some? then seen else Some(Context(captured, 0, "", 0, 0));
      }
      var current := CurrentToken(deviceID);
      if current != token || deviceID !in switchContexts {
        return None;
      }
      snapshot := Some(switchContexts[deviceID]);
      ClearESIMSwitch(deviceID);
    }
  }
}
