/** The orphan sweep over whole runs: what has happened by the time a Project's
    resources are removed. */
module OrphanRuns {
  import opened Orphans

  /** Time passes, the server cannot be asked, or a sweep is made. */
  datatype Step = Tick(passed: nat) | ServerUnknown | Sweeps(sweep: Sweep)

  datatype World = World(now: int, states: States)

  ghost predicate Does(a: World, step: Step, b: World) {
    match step
    case Tick(passed) => b == a.(now := a.now + passed)
    case ServerUnknown => b == a.(states := Reset(a.states))
    case Sweeps(sweep) => b.now == a.now && SweepsTo(a.states, a.now, sweep, b.states)
  }

  ghost predicate IsRun(trace: seq<World>, steps: seq<Step>) {
    && |trace| == |steps| + 1 && trace[0].states == map[]
    && forall i, j :: 0 <= i && j == i + 1 <= |steps| ==> Does(trace[i], steps[i], trace[j])
  }

  /** The sweep saw both snapshots. */
  predicate Saw(step: Step) {
    step.Sweeps? && step.sweep.local.Some?
  }

  function VerdictAt(w: World, step: Step, p: Project): Verdict
    requires Saw(step)
  {
    VerdictIn(w.states, w.now, step.sweep, p)
  }

  predicate IsStopped(w: World, p: Project) {
    p in w.states && w.states[p].stopped
  }

  /** Step `j` stopped `p`, and it has been tracked as stopped ever since. */
  ghost predicate StoppedSince(trace: seq<World>, steps: seq<Step>, p: Project, j: nat, n: nat)
    requires |trace| == |steps| + 1 && n <= |steps|
  {
    j < n && Saw(steps[j]) && p in steps[j].sweep.stopped && forall m :: j < m <= n ==> IsStopped(trace[m], p)
  }

  /** Step `k` was a sweep that did not find `p` assigned, and `p`'s clock has stood
      at it ever since. */
  ghost predicate LostSince(trace: seq<World>, steps: seq<Step>, p: Project, k: nat, n: nat)
    requires |trace| == |steps| + 1 && n <= |steps|
  {
    && k < n && Saw(steps[k]) && p !in steps[k].sweep.phases
    && forall m :: k < m <= n ==> IsStopped(trace[m], p) && trace[m].states[p].lostSince == Some(trace[k].now)
  }

  /** How one step can leave `p` stopped, or its clock running. */
  lemma StepsStop(a: World, step: Step, b: World, p: Project)
    requires Does(a, step, b) && IsStopped(b, p)
    ensures (Saw(step) && p in step.sweep.stopped) || IsStopped(a, p)
    ensures b.states[p].lostSince.Some? ==>
              || (Saw(step) && p !in step.sweep.phases && b.states[p].lostSince == Some(a.now))
              || (IsStopped(a, p) && a.states[p].lostSince == b.states[p].lostSince)
  {
    assert Get(b.states, p) == Some(b.states[p]);
    if step.Sweeps? && step.sweep.local.Some? {
      assert p !in step.sweep.forgotten && p !in step.sweep.removed;
      if p !in step.sweep.stopped {
        assert Get(Observed(a.states, step.sweep.local.value, step.sweep.phases.Keys, a.now), p) == Some(b.states[p]);
      }
    }
  }

  lemma {:induction false} StoppedForAReason(trace: seq<World>, steps: seq<Step>, p: Project, n: nat) returns (j: nat)
    requires IsRun(trace, steps) && n <= |steps| && IsStopped(trace[n], p)
    ensures StoppedSince(trace, steps, p, j, n)
  {
    assert n > 0;
    StepsStop(trace[n - 1], steps[n - 1], trace[n], p);
    if Saw(steps[n - 1]) && p in steps[n - 1].sweep.stopped {
      j := n - 1;
    } else {
      j := StoppedForAReason(trace, steps, p, n - 1);
    }
  }

  lemma {:induction false} ClockSetForAReason(trace: seq<World>, steps: seq<Step>, p: Project, n: nat) returns (k: nat)
    requires IsRun(trace, steps) && n <= |steps| && IsStopped(trace[n], p) && trace[n].states[p].lostSince.Some?
    ensures LostSince(trace, steps, p, k, n)
  {
    assert n > 0;
    var step := steps[n - 1];
    StepsStop(trace[n - 1], step, trace[n], p);
    if Saw(step) && p !in step.sweep.phases && trace[n].states[p].lostSince == Some(trace[n - 1].now) {
      k := n - 1;
    } else {
      k := ClockSetForAReason(trace, steps, p, n - 1);
    }
  }

  /** Whenever a sweep hands a Project over for removal, it does not find the Project
      assigned, an earlier sweep stopped it, and the whole grace period has passed
      on a clock that some sweep set and nothing reset. */
  lemma RemovalIsConfirmed(trace: seq<World>, steps: seq<Step>, n: nat, p: Project) returns (j: nat, k: nat)
    requires IsRun(trace, steps) && n < |steps| && Saw(steps[n]) && VerdictAt(trace[n], steps[n], p).ToRemove?
    ensures p !in steps[n].sweep.phases && StoppedSince(trace, steps, p, j, n)
    ensures LostSince(trace, steps, p, k, n) && trace[n].now - trace[k].now >= GRACE
  {
    j := StoppedForAReason(trace, steps, p, n);
    k := ClockSetForAReason(trace, steps, p, n);
  }

  lemma {:induction false} TimeGoesOn(trace: seq<World>, steps: seq<Step>, i: nat, j: nat)
    requires IsRun(trace, steps) && i <= j <= |steps|
    ensures trace[i].now <= trace[j].now
    decreases j
  {
    if i < j {
      TimeGoesOn(trace, steps, i, j - 1);
      assert Does(trace[j - 1], steps[j - 1], trace[j]);
    }
  }

  /** Step `m` is a sweep of the grace period that ends at `n`. */
  predicate InPeriod(trace: seq<World>, steps: seq<Step>, m: nat, n: nat)
    requires |trace| == |steps| + 1 && n <= |steps|
  {
    m < n && Saw(steps[m]) && trace[n].now - trace[m].now < GRACE
  }

  /** Some sweep of the period found `p` assigned to this Node. */
  ghost predicate WasOurs(trace: seq<World>, steps: seq<Step>, p: Project, n: nat)
    requires |trace| == |steps| + 1 && n <= |steps|
  {
    exists m: nat :: InPeriod(trace, steps, m, n) && p in steps[m].sweep.phases
  }

  /** Some sweep of the period handed `p` back and did not forget it, its claim or
      its reconcile having failed. */
  ghost predicate KeptThoughBack(trace: seq<World>, steps: seq<Step>, p: Project, n: nat)
    requires |trace| == |steps| + 1 && n <= |steps|
  {
    exists m: nat :: InPeriod(trace, steps, m, n) && VerdictAt(trace[m], steps[m], p).Reappeared? && p !in steps[m].sweep.forgotten
  }

  /** A removal's loss is in every snapshot of the grace period before it if and only
      if no sweep of the period handed the Project back without forgetting it. One
      that was handed back and forgotten could not have come up for removal yet. */
  lemma LossIsContinuousExactlyWhen(trace: seq<World>, steps: seq<Step>, n: nat, p: Project)
    requires IsRun(trace, steps) && n < |steps| && Saw(steps[n]) && VerdictAt(trace[n], steps[n], p).ToRemove?
    ensures !WasOurs(trace, steps, p, n) <==> !KeptThoughBack(trace, steps, p, n)
  {
    var k := ClockSetForAReason(trace, steps, p, n);
    forall m: nat | InPeriod(trace, steps, m, n) && p in steps[m].sweep.phases
      ensures VerdictAt(trace[m], steps[m], p).Reappeared? && p !in steps[m].sweep.forgotten
    {
      if m <= k {
        TimeGoesOn(trace, steps, m, k);
      }
      assert k < m;
      assert IsStopped(trace[m], p) && IsStopped(trace[m + 1], p);
      assert Does(trace[m], steps[m], trace[m + 1]) && Get(trace[m + 1].states, p).Some?;
    }
  }

  /** The sweep that hands `p` back and fails to bring it up. */
  function Returned(p: Project): Sweep {
    Sweep(Some({p}), map[p := Running], {}, {}, {})
  }

  function Absent(p: Project, stopped: set<Project>): Sweep {
    Sweep(Some({p}), map[], {}, stopped, {})
  }

  /** A Project that came back, and whose reconcile failed, can come up for removal at
      the first snapshot that shows it gone again. */
  lemma AFailedReturnKeepsTheClock(p: Project)
    ensures exists trace, steps ::
              && IsRun(trace, steps) && |steps| == 4
              && steps[0] == Sweeps(Absent(p, {p})) && steps[1] == Tick(GRACE) && steps[2] == Sweeps(Returned(p))
              && steps[3] == Sweeps(Absent(p, {})) && VerdictAt(trace[3], steps[3], p).ToRemove?
  {
    var steps := [Sweeps(Absent(p, {p})), Tick(GRACE), Sweeps(Returned(p)), Sweeps(Absent(p, {}))];
    var stopped: States := map[p := State(true, Some(0))];
    var w0, w1, w2 := World(0, map[]), World(0, stopped), World(GRACE, stopped);
    var trace := [w0, w1, w2, w2, w2];
    assert Does(w0, steps[0], w1);
    assert Does(w2, steps[2], w2);
    assert Does(w2, steps[3], w2);
    assert IsRun(trace, steps);
    assert VerdictAt(trace[3], steps[3], p).ToRemove?;
  }
}
