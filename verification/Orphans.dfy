/** Projects whose ownership moved away from this Node: stopped at once, removed
    after a grace period. */
module Orphans {

  datatype Option<T> = None | Some(value: T)

  datatype Project = Project(namespace: string, name: string, uid: string)

  const GRACE: int := 180

  /** `lostSince` is when the loss was confirmed, if the clock is running. */
  datatype State = State(stopped: bool, lostSince: Option<int>)

  type States = map<Project, State>

  datatype Verdict = Nothing | ToStop | ToRemove | Reappeared

  /** What one snapshot of this Node and of the server says of one Project. */
  function Judge(s: Option<State>, isLocal: bool, ours: bool, now: int): (Option<State>, Verdict) {
    if ours then
      if s.Some? && s.value.stopped then (s, Reappeared) else (None, Nothing)
    else if s.None? then
      if isLocal then (Some(State(false, None)), ToStop) else (None, Nothing)
    else if !s.value.stopped then
      if isLocal then (s, ToStop) else (None, Nothing)
    else if s.value.lostSince.None? then
      (Some(State(true, Some(now))), Nothing)
    else
      (s, if now - s.value.lostSince.value >= GRACE then ToRemove else Nothing)
  }

  function Get(states: States, p: Project): Option<State> {
    if p in states then Some(states[p]) else None
  }

  function Put(states: States, p: Project, s: Option<State>): States {
    if s.Some? then states[p := s.value] else states - {p}
  }

  function VerdictOn(states: States, local: set<Project>, ours: set<Project>, now: int, p: Project): Verdict {
    Judge(Get(states, p), p in local, p in ours, now).1
  }

  /** Every Project judged at once. */
  function Observed(states: States, local: set<Project>, ours: set<Project>, now: int): States {
    map p | p in states.Keys + local && Judge(Get(states, p), p in local, p in ours, now).0.Some? ::
      Judge(Get(states, p), p in local, p in ours, now).0.value
  }

  function Reset(states: States): States {
    map p | p in states :: states[p].(lostSince := None)
  }

  datatype Observation = Observation(toStop: seq<Project>, toRemove: seq<Project>, reappeared: seq<Project>)

  predicate NoDuplicates(xs: seq<Project>) {
    forall i, j :: 0 <= i < j < |xs| ==> xs[i] != xs[j]
  }

  /** The three lists say for each Project what its verdict is, once. */
  ghost predicate Reports(o: Observation, seen: set<Project>, states: States, local: set<Project>, ours: set<Project>, now: int) {
    && NoDuplicates(o.toStop) && NoDuplicates(o.toRemove) && NoDuplicates(o.reappeared)
    && (forall p :: p in o.toStop <==> p in seen && VerdictOn(states, local, ours, now, p).ToStop?)
    && (forall p :: p in o.toRemove <==> p in seen && VerdictOn(states, local, ours, now, p).ToRemove?)
    && (forall p :: p in o.reappeared <==> p in seen && VerdictOn(states, local, ours, now, p).Reappeared?)
  }

  function Added(o: Observation, p: Project, v: Verdict): Observation {
    match v
    case Nothing => o
    case ToStop => o.(toStop := o.toStop + [p])
    case ToRemove => o.(toRemove := o.toRemove + [p])
    case Reappeared => o.(reappeared := o.reappeared + [p])
  }

  class OrphanTracker {
    var now: int
    var states: States

    constructor (now: int)
      ensures this.now == now && states == map[]
    {
      this.now, states := now, map[];
    }

    /** Folds one snapshot of this Node and one of the server into the tracker;
        local Projects first, then those tracked that are no longer local. */
    method Observe(local: set<Project>, ours: set<Project>) returns (o: Observation)
      modifies this`states
      ensures states == Observed(old(states), local, ours, now)
      ensures Reports(o, old(states).Keys + local, old(states), local, ours, now)
      ensures forall p :: !(p in o.toStop && p in o.toRemove) && !(p in o.toStop && p in o.reappeared)
                          && !(p in o.toRemove && p in o.reappeared)
    {
      o := Observation([], [], []);
      o := JudgeEach(o, local, {}, local, ours, states);
      o := JudgeEach(o, states.Keys - local, local, local, ours, old(states));
      assert states == Observed(old(states), local, ours, now);
      assert local + (old(states).Keys - local) == old(states).Keys + local;
    }

    /** Judges the projects of `some`, each once; those of `done` have been. */
    method JudgeEach(
      before: Observation, some: set<Project>, ghost done: set<Project>,
      local: set<Project>, ours: set<Project>, ghost start: States)
      returns (o: Observation)
      requires some !! done && Reports(before, done, start, local, ours, now)
      requires forall p :: p !in done ==> Get(states, p) == Get(start, p)
      modifies this`states
      ensures Reports(o, done + some, start, local, ours, now)
      ensures forall p :: p in some ==> Get(states, p) == Judge(Get(start, p), p in local, p in ours, now).0
      ensures forall p :: p !in some ==> Get(states, p) == Get(old(states), p)
    {
      o := before;
      var rest := some;
      while rest != {}
        invariant rest <= some && Reports(o, done + (some - rest), start, local, ours, now)
        invariant forall p :: p in some - rest ==> Get(states, p) == Judge(Get(start, p), p in local, p in ours, now).0
        invariant forall p :: p !in some - rest ==> Get(states, p) == Get(old(states), p)
        decreases rest
      {
        var p :| p in rest;
        o := JudgeOne(o, p, done + (some - rest), local, ours, start);
        assert some - (rest - {p}) == (some - rest) + {p};
        assert done + (some - (rest - {p})) == done + (some - rest) + {p};
        rest := rest - {p};
      }
      assert some - rest == some;
    }

    method JudgeOne(
      before: Observation, p: Project, ghost done: set<Project>,
      local: set<Project>, ours: set<Project>, ghost start: States)
      returns (o: Observation)
      requires p !in done && Reports(before, done, start, local, ours, now) && Get(states, p) == Get(start, p)
      modifies this`states
      ensures Reports(o, done + {p}, start, local, ours, now)
      ensures Get(states, p) == Judge(Get(start, p), p in local, p in ours, now).0
      ensures forall q :: q != p ==> Get(states, q) == Get(old(states), q)
    {
      var judged := Judge(Get(states, p), p in local, p in ours, now);
      ListedOnce(before, p, judged.1, done, start, local, ours, now);
      states := Put(states, p, judged.0);
      o := Added(before, p, judged.1);
    }

    method MarkStopped(p: Project)
      modifies this`states
      ensures states == old(states)[p := State(true, Some(now))]
    {
      states := states[p := State(true, Some(now))];
    }

    method ResetGrace()
      modifies this`states
      ensures states == Reset(old(states))
    {
      var rest := states.Keys;
      while rest != {}
        invariant rest <= old(states).Keys && states.Keys == old(states).Keys
        invariant forall p :: p in old(states) ==>
          states[p] == if p in rest then old(states)[p] else old(states)[p].(lostSince := None)
        decreases rest
      {
        var p :| p in rest;
        states := states[p := states[p].(lostSince := None)];
        rest := rest - {p};
      }
    }

    method Forget(p: Project)
      modifies this`states
      ensures states == old(states) - {p}
    {
      states := states - {p};
    }
  }

  lemma ListedOnce(
    o: Observation, p: Project, v: Verdict, seen: set<Project>,
    states: States, local: set<Project>, ours: set<Project>, now: int)
    requires Reports(o, seen, states, local, ours, now) && p !in seen
    requires v == VerdictOn(states, local, ours, now, p)
    ensures Reports(Added(o, p, v), seen + {p}, states, local, ours, now)
  {
  }

  datatype Phase = Scheduled | Running | OtherPhase

  /** What one sweep was told and did: the local Projects, unless they could not be
      listed, the phases of those assigned to this Node, and the Projects forgotten,
      stopped and removed. */
  datatype Sweep = Sweep(
    local: Option<set<Project>>, phases: map<Project, Phase>,
    forgotten: set<Project>, stopped: set<Project>, removed: set<Project>)

  function VerdictIn(before: States, now: int, w: Sweep, p: Project): Verdict
    requires w.local.Some?
  {
    VerdictOn(before, w.local.value, w.phases.Keys, now, p)
  }

  /** What the sweep may have done, and the tracker after it. A Project handed back
      in a phase that is not started is forgotten; one that would be started is
      forgotten only if it was. */
  ghost predicate SweepsTo(before: States, now: int, w: Sweep, after: States) {
    if w.local.None? then after == Reset(before) && w.forgotten + w.stopped + w.removed == {}
    else
      && (forall p :: p in w.forgotten ==> VerdictIn(before, now, w, p).Reappeared?)
      && (forall p :: p in w.stopped ==> VerdictIn(before, now, w, p).ToStop?)
      && (forall p :: p in w.removed ==> VerdictIn(before, now, w, p).ToRemove?)
      && (forall p :: p in before.Keys + w.local.value && p in w.phases && w.phases[p].OtherPhase? ==>
            VerdictIn(before, now, w, p).Reappeared? ==> p in w.forgotten)
      && forall p :: Get(after, p) ==
                     if p in w.forgotten || p in w.removed then None
                     else if p in w.stopped then Some(State(true, Some(now)))
                     else Get(Observed(before, w.local.value, w.phases.Keys, now), p)
  }

  /** One sweep. Every claim and every call may fail. */
  method SweepOrphans(tracker: OrphanTracker, local: Option<set<Project>>, phases: map<Project, Phase>)
    returns (forgotten: set<Project>, stopped: set<Project>, removed: set<Project>)
    modifies tracker`states
    ensures SweepsTo(old(tracker.states), tracker.now, Sweep(local, phases, forgotten, stopped, removed), tracker.states)
  {
    forgotten, stopped, removed := {}, {}, {};
    if local.None? {
      tracker.ResetGrace();
      return;
    }
    var o := tracker.Observe(local.value, phases.Keys);
    ghost var observed := tracker.states;
    for i := 0 to |o.reappeared|
      invariant forgotten <= set p | p in o.reappeared
      invariant forall p :: p in o.reappeared[..i] && p in phases && phases[p].OtherPhase? ==> p in forgotten
      invariant forall p :: Get(tracker.states, p) == if p in forgotten then None else Get(observed, p)
    {
      var p := o.reappeared[i];
      var started: bool := *;
      if p in phases && (phases[p].OtherPhase? || started) {
        tracker.Forget(p);
        forgotten := forgotten + {p};
      }
    }
    for i := 0 to |o.toStop|
      invariant stopped <= set p | p in o.toStop
      invariant forall p :: Get(tracker.states, p) ==
                            if p in forgotten then None
                            else if p in stopped then Some(State(true, Some(tracker.now))) else Get(observed, p)
    {
      var done: bool := *;
      if done {
        tracker.MarkStopped(o.toStop[i]);
        stopped := stopped + {o.toStop[i]};
      }
    }
    for i := 0 to |o.toRemove|
      invariant removed <= set p | p in o.toRemove
      invariant forall p :: Get(tracker.states, p) ==
                            if p in forgotten || p in removed then None
                            else if p in stopped then Some(State(true, Some(tracker.now))) else Get(observed, p)
    {
      var done: bool := *;
      if done {
        tracker.Forget(o.toRemove[i]);
        removed := removed + {o.toRemove[i]};
      }
    }
  }
}
