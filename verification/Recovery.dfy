/** Tier-1 recovery: how often the agent restarts a Project's containers before it
    gives up. */
module Recovery {

  datatype Option<T> = None | Some(value: T)

  /** One assignment of one Project. */
  datatype Key = Key(namespace: string, name: string, uid: string, generation: int)

  datatype Entry = Entry(attempts: nat, lastAttemptAt: int)

  datatype Decision = Wait | Attempt | Exhausted

  const MAX_ATTEMPTS := 3
  const VERIFY_TIMEOUT := 30
  const TRANSIENT_TIMEOUT := 30

  /** The least delay after each attempt but the last. */
  const BACKOFF: seq<int> := [5, 10]

  /** What to do about an unhealthy Project, and its entry afterwards. */
  function Decide(e: Entry, now: int): (Decision, Entry) {
    if e.attempts == 0 then (Attempt, Entry(1, now))
    else if e.attempts >= MAX_ATTEMPTS then
      (if now - e.lastAttemptAt >= VERIFY_TIMEOUT then Exhausted else Wait, e)
    else if now - e.lastAttemptAt < BACKOFF[e.attempts - 1] then (Wait, e)
    else (Attempt, Entry(e.attempts + 1, now))
  }

  function EntryOf(entries: map<Key, Entry>, k: Key): Entry {
    if k in entries then entries[k] else Entry(0, 0)
  }

  const UPDATE_RETRY := 60

  /** The failed attempts at updating to one revision of the spec. */
  datatype Failure = Failure(revision: int, stopped: nat, lastAttemptAt: int)

  /** Attempts at `revision` that failed after stopping something; none of another
      revision counts. */
  function StoppedAt(failures: map<Key, Failure>, k: Key, revision: int): nat {
    if k in failures && failures[k].revision == revision then failures[k].stopped else 0
  }

  /** An attempt at `revision` waits for a minute after the last that failed at it. */
  predicate DueAt(failures: map<Key, Failure>, k: Key, revision: int, now: int) {
    k in failures && failures[k].revision == revision ==> now >= failures[k].lastAttemptAt + UPDATE_RETRY
  }

  function AfterFailure(failures: map<Key, Failure>, k: Key, revision: int, stopped: bool, now: int): map<Key, Failure> {
    failures[k := Failure(revision, StoppedAt(failures, k, revision) + if stopped then 1 else 0, now)]
  }

  class RecoveryTracker {
    var now: int
    var entries: map<Key, Entry>
    var transientSince: map<Key, int>
    var specUpdates: map<Key, Failure>

    constructor (now: int)
      ensures this.now == now && entries == map[] && transientSince == map[] && specUpdates == map[]
    {
      this.now, entries, transientSince, specUpdates := now, map[], map[], map[];
    }

    method SpecUpdateDue(k: Key, revision: int) returns (due: bool)
      ensures due == DueAt(specUpdates, k, revision, now)
    {
      if k !in specUpdates || specUpdates[k].revision != revision {
        return true;
      }
      return now - specUpdates[k].lastAttemptAt >= UPDATE_RETRY;
    }

    method SpecUpdateFailed(k: Key, revision: int, stoppedSomething: bool) returns (failures: nat)
      modifies this`specUpdates
      ensures specUpdates == AfterFailure(old(specUpdates), k, revision, stoppedSomething, now)
      ensures failures == StoppedAt(specUpdates, k, revision)
    {
      var f := Failure(revision, 0, now);
      if k in specUpdates && specUpdates[k].revision == revision {
        f := specUpdates[k].(lastAttemptAt := now);
      }
      if stoppedSomething {
        f := f.(stopped := f.stopped + 1);
      }
      specUpdates := specUpdates[k := f];
      return f.stopped;
    }

    method SpecUpdateSucceeded(k: Key)
      modifies this`specUpdates
      ensures specUpdates == old(specUpdates) - {k}
    {
      specUpdates := specUpdates - {k};
    }

    method Next(k: Key) returns (d: Decision)
      modifies this`entries
      ensures d == Decide(EntryOf(old(entries), k), now).0
      ensures entries == old(entries)[k := Decide(EntryOf(old(entries), k), now).1]
    {
      var e := if k in entries then entries[k] else Entry(0, 0);
      entries := entries[k := e];
      if e.attempts == 0 {
        entries := entries[k := Entry(1, now)];
        return Attempt;
      }
      var elapsed := now - e.lastAttemptAt;
      if e.attempts >= MAX_ATTEMPTS {
        if elapsed >= VERIFY_TIMEOUT {
          return Exhausted;
        }
        return Wait;
      }
      if elapsed < BACKOFF[e.attempts - 1] {
        return Wait;
      }
      entries := entries[k := Entry(e.attempts + 1, now)];
      return Attempt;
    }

    method ObserveHealthy(k: Key)
      modifies this`entries
      ensures entries == old(entries) - {k}
    {
      entries := entries - {k};
    }

    /** Whether `k` has been restarting for longer than it may. */
    method ObserveTransient(k: Key) returns (stuck: bool)
      modifies this`transientSince
      ensures transientSince == old(transientSince)[k := if k in old(transientSince) then old(transientSince)[k] else now]
      ensures stuck <==> k in old(transientSince) && now - old(transientSince)[k] >= TRANSIENT_TIMEOUT
    {
      if k !in transientSince {
        transientSince := transientSince[k := now];
        return false;
      }
      return now - transientSince[k] >= TRANSIENT_TIMEOUT;
    }

    method ClearTransient(k: Key)
      modifies this`transientSince
      ensures transientSince == old(transientSince) - {k}
    {
      transientSince := transientSince - {k};
    }

    /** Drops everything of assignments that are no longer this agent's. */
    method Retain(keys: set<Key>)
      modifies this`entries, this`transientSince, this`specUpdates
      ensures entries == (map k | k in old(entries) && k in keys :: old(entries)[k])
      ensures transientSince == (map k | k in old(transientSince) && k in keys :: old(transientSince)[k])
      ensures specUpdates == (map k | k in old(specUpdates) && k in keys :: old(specUpdates)[k])
    {
      entries := Only(entries, keys);
      transientSince := Only(transientSince, keys);
      specUpdates := Only(specUpdates, keys);
    }
  }

  method Only<V>(m: map<Key, V>, keys: set<Key>) returns (r: map<Key, V>)
    ensures r == map k | k in m && k in keys :: m[k]
  {
    r := m;
    var rest := m.Keys;
    while rest != {}
      invariant rest <= m.Keys && r.Keys == rest + (m.Keys * keys)
      invariant forall k :: k in r ==> r[k] == m[k]
      decreases rest
    {
      var k :| k in rest;
      if k !in keys {
        r := r - {k};
      }
      rest := rest - {k};
    }
  }

  // ------------------------------------------------ whole runs

  datatype Step = Tick(passed: nat) | Unhealthy(key: Key) | Healthy(key: Key) | Keep(keys: set<Key>)

  datatype World = World(now: int, entries: map<Key, Entry>)

  function Apply(w: World, step: Step): World {
    match step
    case Tick(passed) => w.(now := w.now + passed)
    case Unhealthy(k) => w.(entries := w.entries[k := Decide(EntryOf(w.entries, k), w.now).1])
    case Healthy(k) => w.(entries := w.entries - {k})
    case Keep(keys) => w.(entries := map k | k in w.entries && k in keys :: w.entries[k])
  }

  predicate IsRun(trace: seq<World>, steps: seq<Step>) {
    && |trace| == |steps| + 1 && trace[0].entries == map[]
    && forall i :: 0 <= i < |steps| ==> trace[i + 1] == Apply(trace[i], steps[i])
  }

  /** The incident of `k` ends: it was seen healthy, or is no longer the agent's. */
  predicate Closes(step: Step, k: Key) {
    step == Healthy(k) || (step.Keep? && k !in step.keys)
  }

  /** `step` is a recovery attempt on `k`. */
  predicate Attempts(w: World, step: Step, k: Key) {
    step == Unhealthy(k) && Decide(EntryOf(w.entries, k), w.now).0.Attempt?
  }

  /** When the attempts of `k`'s incident open at `n` were made. */
  function Incident(trace: seq<World>, steps: seq<Step>, k: Key, n: nat): seq<int>
    requires |trace| == |steps| + 1 && n <= |steps|
  {
    if n == 0 then []
    else if Closes(steps[n - 1], k) then []
    else
      Incident(trace, steps, k, n - 1) + if Attempts(trace[n - 1], steps[n - 1], k) then [trace[n - 1].now] else []
  }

  /** Attempts in order, each at least its backoff after the one before. */
  predicate Spaced(times: seq<int>, now: int) {
    && |times| <= MAX_ATTEMPTS
    && (forall i :: 0 <= i < |times| - 1 ==> times[i + 1] - times[i] >= BACKOFF[i])
    && (|times| > 0 ==> times[|times| - 1] <= now)
  }

  /** `e` counts exactly these attempts. */
  predicate Counts(e: Entry, times: seq<int>) {
    e.attempts == |times| && (|times| > 0 ==> e.lastAttemptAt == times[|times| - 1])
  }

  lemma StepCounts(w: World, step: Step, k: Key, times: seq<int>)
    requires Spaced(times, w.now) && Counts(EntryOf(w.entries, k), times)
    ensures var after := if Closes(step, k) then [] else times + if Attempts(w, step, k) then [w.now] else [];
            Spaced(after, Apply(w, step).now) && Counts(EntryOf(Apply(w, step).entries, k), after)
  {
  }

  /** An incident has at most three attempts, spaced by at least their backoffs,
      and the tracker counts exactly those. */
  lemma {:induction false} AttemptsAreBounded(trace: seq<World>, steps: seq<Step>, k: Key, n: nat)
    requires IsRun(trace, steps) && n <= |steps|
    ensures Spaced(Incident(trace, steps, k, n), trace[n].now)
    ensures Counts(EntryOf(trace[n].entries, k), Incident(trace, steps, k, n))
  {
    if n > 0 {
      AttemptsAreBounded(trace, steps, k, n - 1);
      StepCounts(trace[n - 1], steps[n - 1], k, Incident(trace, steps, k, n - 1));
    }
  }

  /** Giving up means all three attempts were made in this incident, the last at
      least thirty seconds ago. */
  lemma ExhaustionFollowsThreeAttempts(trace: seq<World>, steps: seq<Step>, k: Key, n: nat)
    requires IsRun(trace, steps) && n <= |steps|
    ensures var times := Incident(trace, steps, k, n);
            Decide(EntryOf(trace[n].entries, k), trace[n].now).0.Exhausted? <==>
            |times| == MAX_ATTEMPTS && trace[n].now - times[MAX_ATTEMPTS - 1] >= VERIFY_TIMEOUT
  {
    AttemptsAreBounded(trace, steps, k, n);
  }

  /** Once given up, always given up, until the incident is closed. */
  lemma {:induction false} ExhaustionPersists(trace: seq<World>, steps: seq<Step>, k: Key, n: nat, m: nat)
    requires IsRun(trace, steps) && n <= m <= |steps|
    requires Decide(EntryOf(trace[n].entries, k), trace[n].now).0.Exhausted?
    requires forall i :: n <= i < m ==> !Closes(steps[i], k)
    ensures Decide(EntryOf(trace[m].entries, k), trace[m].now).0.Exhausted?
    ensures Incident(trace, steps, k, m) == Incident(trace, steps, k, n)
    decreases m
  {
    if n < m {
      ExhaustionPersists(trace, steps, k, n, m - 1);
      assert trace[m] == Apply(trace[m - 1], steps[m - 1]);
    }
  }

  /** The steps of a run that say something about `k`, or pass time. */
  predicate Concerns(step: Step, k: Key) {
    step.Tick? || step.Keep? || step.key == k
  }

  /** Two runs that agree on the steps that concern `k`, whatever else is in them,
      decide alike about `k`: no Project's budget depends on another's. */
  lemma {:induction false} BudgetsAreIndependent(a: seq<World>, aSteps: seq<Step>, b: seq<World>, bSteps: seq<Step>, k: Key)
    requires IsRun(a, aSteps) && IsRun(b, bSteps) && a[0].now == b[0].now
    requires OnlyOf(aSteps, k) == OnlyOf(bSteps, k)
    ensures EntryOf(a[|aSteps|].entries, k) == EntryOf(b[|bSteps|].entries, k) && a[|aSteps|].now == b[|bSteps|].now
  {
    FollowsItsOwn(a, aSteps, k, |aSteps|);
    FollowsItsOwn(b, bSteps, k, |bSteps|);
    assert aSteps[..|aSteps|] == aSteps && bSteps[..|bSteps|] == bSteps;
  }

  function OnlyOf(steps: seq<Step>, k: Key): seq<Step> {
    if steps == [] then []
    else
      var last := steps[|steps| - 1];
      OnlyOf(steps[..|steps| - 1], k) + if Concerns(last, k) then [last] else []
  }

  /** `k`'s entry and the time after one step. */
  function Advance(e: Entry, now: int, step: Step, k: Key): (Entry, int) {
    match step
    case Tick(passed) => (e, now + passed)
    case Unhealthy(key) => (if key == k then Decide(e, now).1 else e, now)
    case Healthy(key) => (if key == k then Entry(0, 0) else e, now)
    case Keep(keys) => (if k in keys then e else Entry(0, 0), now)
  }

  /** ... and after the steps that concern it alone. */
  function Alone(now: int, steps: seq<Step>, k: Key): (Entry, int) {
    if steps == [] then (Entry(0, 0), now)
    else
      var before := Alone(now, steps[..|steps| - 1], k);
      Advance(before.0, before.1, steps[|steps| - 1], k)
  }

  lemma StepsAreAdvances(w: World, step: Step, k: Key)
    ensures (EntryOf(Apply(w, step).entries, k), Apply(w, step).now) == Advance(EntryOf(w.entries, k), w.now, step, k)
    ensures !Concerns(step, k) ==> Advance(EntryOf(w.entries, k), w.now, step, k) == (EntryOf(w.entries, k), w.now)
  {
  }

  lemma {:induction false} FollowsItsOwn(trace: seq<World>, steps: seq<Step>, k: Key, n: nat)
    requires IsRun(trace, steps) && n <= |steps|
    ensures (EntryOf(trace[n].entries, k), trace[n].now) == Alone(trace[0].now, OnlyOf(steps[..n], k), k)
  {
    if n == 0 {
      assert steps[..n] == [];
    } else {
      FollowsItsOwn(trace, steps, k, n - 1);
      assert steps[..n][..n - 1] == steps[..n - 1];
      assert trace[n] == Apply(trace[n - 1], steps[n - 1]);
      StepsAreAdvances(trace[n - 1], steps[n - 1], k);
      var before := OnlyOf(steps[..n - 1], k);
      assert before + [] == before;
      assert OnlyOf(steps[..n], k) == before + if Concerns(steps[n - 1], k) then [steps[n - 1]] else [];
    }
  }
}
