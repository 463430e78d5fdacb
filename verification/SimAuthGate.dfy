/** The SIM-auth readiness gate: callers share one probe, and an invalidation makes the
    outcome of a probe that is under way worthless. */
module SimAuthGate {
  import opened Common

  // Channels are numbered in the order they are made.
  datatype Gate = Gate(generation: nat, ready: bool, probing: bool, waitC: Option<nat>)

  /** What a caller does after looking at the gate. */
  datatype Look = Ready | Park(channel: nat) | Probe(began: nat, channel: nat)

  /** The first lock section of a waiting caller, when `made` channels exist already. */
  function LookAt(g: Gate, made: nat): (Gate, nat, Look) {
    if g.ready then (g, made, Ready)
    else if g.probing then
      if g.waitC.Some? then (g, made, Park(g.waitC.value))
      else (g.(waitC := Some(made)), made + 1, Park(made))
    else
      (g.(probing := true, waitC := Some(made)), made + 1, Probe(g.generation, made))
  }

  /** The second lock section, of the caller whose probe has come back. */
  function FinishProbe(g: Gate, began: nat, channel: nat, ok: bool): Gate {
    Gate(g.generation,
         if g.generation == began then ok else g.ready,
         false,
         if g.waitC == Some(channel) then None else g.waitC)
  }

  /** The gate object; `made` counts channels, `closed` are those closed so far. */
  class SimAuthReady {
    var generation: nat
    var ready: bool
    var probing: bool
    var waitC: Option<nat>
    var made: nat
    var closed: set<nat>

    ghost function View(): Gate
      reads this
    {
      Gate(generation, ready, probing, waitC)
    }

    constructor ()
      ensures View() == Gate(0, false, false, None) && closed == {} && made == 0
    {
      generation, ready, probing, waitC, made, closed := 0, false, false, None, 0, {};
    }

    method Invalidate()
      modifies this
      ensures View() == old(View()).(generation := old(generation) + 1, ready := false)
      ensures made == old(made) && closed == old(closed)
    {
      generation := generation + 1;
      ready := false;
    }

    method LookIn() returns (o: Look)
      modifies this
      ensures (View(), made, o) == LookAt(old(View()), old(made))
      ensures closed == old(closed)
    {
      if ready { return Ready; }
      if probing {
        if waitC.None? {
          waitC := Some(made);
          made := made + 1;
        }
        return Park(waitC.value);
      }
      o := Probe(generation, made);
      probing := true;
      waitC := Some(made);
      made := made + 1;
    }

    method Finish(began: nat, channel: nat, ok: bool) returns (stale: bool)
      modifies this
      ensures View() == FinishProbe(old(View()), began, channel, ok)
      ensures stale <==> old(generation) != began
      ensures closed == old(closed) + (if old(waitC) == Some(channel) then {channel} else {})
      ensures made == old(made)
    {
      stale := generation != began;
      if !stale { ready := ok; }
      if waitC == Some(channel) {
        closed := closed + {channel};
        waitC := None;
      }
      probing := false;
    }
  }

  // ---- all callers together ----------------------------------------------------

  datatype Caller = Outside | Parked(channel: nat) | Probing(began: nat, channel: nat)

  datatype System = System(gate: Gate, made: nat, closed: set<nat>, callers: map<nat, Caller>)

  datatype Event =
    | Invalidate
    | Enter(p: nat)             // a look by a caller from outside, or after a stale probe
    | Wake(p: nat)              // a look by a parked caller whose channel is closed
    | GiveUp(p: nat)            // a parked caller's context ends
    | ProbeDone(p: nat, ok: bool)

  function At(s: System, p: nat): Caller { if p in s.callers then s.callers[p] else Outside }

  predicate Enabled(s: System, e: Event) {
    match e
    case Invalidate => true
    case Enter(p) => At(s, p) == Outside
    case Wake(p) => At(s, p).Parked? && At(s, p).channel in s.closed
    case GiveUp(p) => At(s, p).Parked?
    case ProbeDone(p, _) => At(s, p).Probing?
  }

  function LookStep(s: System, p: nat): System {
    var (g, made, o) := LookAt(s.gate, s.made);
    var next := match o
      case Ready => Outside
      case Park(ch) => Parked(ch)
      case Probe(began, ch) => Probing(began, ch);
    System(g, made, s.closed, s.callers[p := next])
  }

  function Step(s: System, e: Event): System
    requires Enabled(s, e)
  {
    match e
    case Invalidate => s.(gate := s.gate.(generation := s.gate.generation + 1, ready := false))
    case Enter(p) => LookStep(s, p)
    case Wake(p) => LookStep(s, p)
    case GiveUp(p) => s.(callers := s.callers[p := Outside])
    case ProbeDone(p, ok) =>
      var c := s.callers[p];
      System(FinishProbe(s.gate, c.began, c.channel, ok), s.made,
             s.closed + (if s.gate.waitC == Some(c.channel) then {c.channel} else {}),
             s.callers[p := Outside])
  }

  /** The event ends with a nil return: somebody looks and finds the gate ready, or a probe
      succeeds and is not stale. */
  predicate ReturnsNil(s: System, e: Event)
    requires Enabled(s, e)
  {
    match e
    case Enter(_) => s.gate.ready
    case Wake(_) => s.gate.ready
    case ProbeDone(p, ok) => ok && s.gate.generation == s.callers[p].began
    case _ => false
  }

  predicate StartsProbe(s: System, e: Event, p: nat)
    requires Enabled(s, e)
  {
    (e == Enter(p) || e == Wake(p)) && !s.gate.ready && !s.gate.probing
  }

  predicate Init(s: System) {
    s.gate == Gate(0, false, false, None) && s.made == 0 && s.closed == {} && s.callers == map[]
  }

  ghost predicate IsRun(run: seq<System>, evs: seq<Event>) {
    && |run| == |evs| + 1 && Init(run[0])
    && forall k :: 0 <= k < |evs| ==> Enabled(run[k], evs[k]) && run[k + 1] == Step(run[k], evs[k])
  }

  // ---- single flight -----------------------------------------------------------

  /** At most one caller probes, the probing flag says whether one does, the open channel
      is the prober's, and everybody parked sleeps on it or on a closed channel. */
  ghost predicate Inv(s: System) {
    && (forall p, q :: At(s, p).Probing? && At(s, q).Probing? ==> p == q)
    && (forall p :: At(s, p).Probing? ==>
          s.gate.probing && s.gate.waitC == Some(At(s, p).channel) && At(s, p).began <= s.gate.generation)
    && (s.gate.probing ==> exists p :: At(s, p).Probing?)
    && (s.gate.waitC.Some? <==> s.gate.probing)
    && (s.gate.waitC.Some? ==> s.gate.waitC.value < s.made && s.gate.waitC.value !in s.closed)
    && (forall ch :: ch in s.closed ==> ch < s.made)
    && (forall p :: At(s, p).Parked? ==> At(s, p).channel in s.closed || s.gate.waitC == Some(At(s, p).channel))
    && !(s.gate.ready && s.gate.probing)
  }

  lemma LookKeepsInv(s: System, p: nat)
    requires Inv(s) && !At(s, p).Probing?
    ensures Inv(LookStep(s, p))
  {
    var s' := LookStep(s, p);
    forall q | q != p ensures At(s', q) == At(s, q) {}
    if s.gate.probing {
      var q :| At(s, q).Probing?;
      assert At(s', q).Probing?;
    } else if !s.gate.ready {
      assert At(s', p).Probing?;
    }
  }

  lemma StepKeepsInv(s: System, e: Event)
    requires Inv(s) && Enabled(s, e)
    ensures Inv(Step(s, e))
  {
    var s' := Step(s, e);
    match e
    case Invalidate =>
      forall q ensures At(s', q) == At(s, q) {}
    case Enter(p) => LookKeepsInv(s, p);
    case Wake(p) => LookKeepsInv(s, p);
    case GiveUp(p) =>
      forall q | q != p ensures At(s', q) == At(s, q) {}
      if s.gate.probing {
        var q :| At(s, q).Probing?;
        assert At(s', q).Probing?;
      }
    case ProbeDone(p, _) =>
      forall q | q != p ensures At(s', q) == At(s, q) {}
  }

  lemma {:induction false} RunInv(run: seq<System>, evs: seq<Event>, k: nat)
    requires IsRun(run, evs) && k < |run|
    ensures Inv(run[k])
  {
    if k > 0 {
      RunInv(run, evs, k - 1);
      StepKeepsInv(run[k - 1], evs[k - 1]);
    }
  }

  /** Single flight: a probe is started only when none is running. */
  lemma OneProbeAtATime(run: seq<System>, evs: seq<Event>, k: nat, p: nat, q: nat)
    requires IsRun(run, evs) && k < |run|
    requires At(run[k], p).Probing? && At(run[k], q).Probing?
    ensures p == q
    ensures k < |evs| ==> forall r :: !StartsProbe(run[k], evs[k], r)
  {
    RunInv(run, evs, k);
  }

  /** Whoever is parked when a probe ends can run again. */
  lemma ProbeEndWakesEverybody(run: seq<System>, evs: seq<Event>, k: nat, w: nat)
    requires IsRun(run, evs) && k < |evs|
    requires evs[k].ProbeDone? && At(run[k], w).Parked?
    ensures At(run[k + 1], w).Parked? && Enabled(run[k + 1], Wake(w))
  {
    RunInv(run, evs, k);
  }

  /** Nobody sleeps forever: a parked caller can run, or a probe is under way. */
  lemma ParkedForAReason(run: seq<System>, evs: seq<Event>, k: nat, w: nat)
    requires IsRun(run, evs) && k < |run| && At(run[k], w).Parked?
    ensures Enabled(run[k], Wake(w)) ||
            exists p :: At(run[k], p).Probing? && At(run[k], p).channel == At(run[k], w).channel
  {
    RunInv(run, evs, k);
    if !Enabled(run[k], Wake(w)) {
      var p :| At(run[k], p).Probing?;
    }
  }

  // ---- what a nil return means ---------------------------------------------------

  /** A probe by p began at step i, came back successful at step j < n, and nothing was
      invalidated in between or up to n. */
  ghost predicate FreshProbe(run: seq<System>, evs: seq<Event>, i: nat, j: nat, n: nat, p: nat) {
    && i < j < n <= |evs| && |run| == |evs| + 1
    && Enabled(run[i], evs[i]) && StartsProbe(run[i], evs[i], p)
    && evs[j] == ProbeDone(p, true)
    && forall m :: i <= m < n ==> evs[m] != Invalidate
  }

  /** The caller's probe began at step i with the generation it remembers. */
  ghost predicate BeganAt(run: seq<System>, evs: seq<Event>, p: nat, k: nat, i: nat) {
    && i < k <= |evs| && |run| == |evs| + 1 && At(run[k], p).Probing?
    && Enabled(run[i], evs[i]) && StartsProbe(run[i], evs[i], p)
    && (run[k].gate.generation == At(run[k], p).began ==> forall m :: i <= m < k ==> evs[m] != Invalidate)
  }

  lemma {:induction false} ProbeHasBegun(run: seq<System>, evs: seq<Event>, p: nat, k: nat) returns (i: nat)
    requires IsRun(run, evs) && k < |run| && At(run[k], p).Probing?
    ensures BeganAt(run, evs, p, k, i)
  {
    RunInv(run, evs, k);
    assert k > 0;
    RunInv(run, evs, k - 1);
    var s, e := run[k - 1], evs[k - 1];
    if At(s, p).Probing? {
      i := ProbeHasBegun(run, evs, p, k - 1);
    } else {
      i := k - 1;
    }
  }

  lemma {:induction false} ReadyIsFresh(run: seq<System>, evs: seq<Event>, k: nat) returns (i: nat, j: nat, p: nat)
    requires IsRun(run, evs) && k < |run| && run[k].gate.ready
    ensures FreshProbe(run, evs, i, j, k, p)
  {
    assert k > 0;
    RunInv(run, evs, k - 1);
    var s, e := run[k - 1], evs[k - 1];
    if s.gate.ready {
      i, j, p := ReadyIsFresh(run, evs, k - 1);
    } else {
      p, j := e.p, k - 1;
      i := ProbeHasBegun(run, evs, p, k - 1);
    }
  }

  /** A nil return implies a successful probe that began after the latest invalidation. */
  lemma NilMeansFreshProbe(run: seq<System>, evs: seq<Event>, k: nat) returns (i: nat, j: nat, p: nat)
    requires IsRun(run, evs) && k < |evs| && ReturnsNil(run[k], evs[k])
    ensures FreshProbe(run, evs, i, j, k + 1, p)
  {
    if evs[k].ProbeDone? {
      p, j := evs[k].p, k;
      i := ProbeHasBegun(run, evs, p, k);
    } else {
      i, j, p := ReadyIsFresh(run, evs, k);
    }
  }

  // ---- and a fresh success opens the gate ------------------------------------------

  /** A probe begun since step i, with nothing invalidated since, remembers the present
      generation. */
  lemma {:induction false} ProbeIsCurrent(run: seq<System>, evs: seq<Event>, p: nat, i: nat, m: nat)
    requires IsRun(run, evs) && i < m < |run| && StartsProbe(run[i], evs[i], p)
    requires forall l :: i <= l < m ==> evs[l] != Invalidate
    ensures At(run[m], p).Probing? ==> At(run[m], p).began == run[m].gate.generation
  {
    if i + 1 < m {
      ProbeIsCurrent(run, evs, p, i, m - 1);
    }
  }

  lemma StaysReady(s: System, e: Event)
    requires Inv(s) && Enabled(s, e) && s.gate.ready && e != Invalidate
    ensures Step(s, e).gate.ready
  {}

  lemma {:induction false} FreshMeansReady(run: seq<System>, evs: seq<Event>, i: nat, j: nat, n: nat, p: nat)
    requires IsRun(run, evs) && FreshProbe(run, evs, i, j, n, p)
    ensures run[n].gate.ready
    decreases n
  {
    hide Inv;
    if n == j + 1 {
      ProbeIsCurrent(run, evs, p, i, j);
    } else {
      FreshMeansReady(run, evs, i, j, n - 1, p);
      RunInv(run, evs, n - 1);
      StaysReady(run[n - 1], evs[n - 1]);
    }
  }

  /** Exactly when the gate is open: a probe succeeded that began after the latest
      invalidation. */
  lemma ReadyExactly(run: seq<System>, evs: seq<Event>, k: nat)
    requires IsRun(run, evs) && k < |run|
    ensures run[k].gate.ready <==> exists i, j, p :: FreshProbe(run, evs, i, j, k, p)
  {
    hide IsRun, FreshProbe;
    if run[k].gate.ready {
      var i, j, p := ReadyIsFresh(run, evs, k);
    }
    if i: nat, j: nat, p: nat :| FreshProbe(run, evs, i, j, k, p) {
      FreshMeansReady(run, evs, i, j, k, p);
    }
  }
}
