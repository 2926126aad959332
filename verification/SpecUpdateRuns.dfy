/** Every run of attempts at updating Projects to new revisions of their specs, as
    far as the recovery tracker sees them. */
module SpecUpdateRuns {
  import opened Recovery

  /** How an attempt ended: a failure is recorded, or it is not. */
  datatype Ending = Failed(stopped: bool) | Succeeded | NotRecorded

  /** An update is judged due at the revision polled, and recorded at the one read
      again before it is made, `took` seconds later. */
  datatype Step =
    | Tick(passed: nat) | Keep(keys: set<Key>)
    | Update(key: Key, polled: int, reread: int, took: nat, ending: Ending)

  datatype State = State(now: int, failures: map<Key, Failure>)

  function Apply(w: State, step: Step): State {
    match step
    case Tick(passed) => w.(now := w.now + passed)
    case Keep(keys) => w.(failures := map k | k in w.failures && k in keys :: w.failures[k])
    case Update(k, polled, reread, took, ending) =>
      if !DueAt(w.failures, k, polled, w.now) then w
      else
        State(w.now + took,
              match ending
              case Failed(stopped) => AfterFailure(w.failures, k, reread, stopped, w.now + took)
              case Succeeded => w.failures - {k}
              case NotRecorded => w.failures)
  }

  predicate IsRun(trace: seq<State>, steps: seq<Step>) {
    && |trace| == |steps| + 1 && trace[0].failures == map[]
    && forall i :: 0 <= i < |steps| ==> trace[i + 1] == Apply(trace[i], steps[i])
  }

  datatype Try = Try(revision: int, start: int, end: int, stopped: bool)

  /** `step` makes an attempt at updating `k`. */
  predicate Tries(w: State, step: Step, k: Key) {
    step.Update? && step.key == k && DueAt(w.failures, k, step.polled, w.now)
  }

  function TriesAfter(before: seq<Try>, w: State, step: Step, k: Key): seq<Try> {
    if step.Keep? && k !in step.keys then []
    else if !Tries(w, step, k) || step.ending.NotRecorded? then before
    else if step.ending.Succeeded? then []
    else before + [Try(step.reread, w.now, w.now + step.took, step.ending.stopped)]
  }

  /** The failed attempts at updating `k` since the last that succeeded. */
  function FailedTries(trace: seq<State>, steps: seq<Step>, k: Key, n: nat): seq<Try>
    requires |trace| == |steps| + 1 && n <= |steps|
  {
    if n == 0 then [] else TriesAfter(FailedTries(trace, steps, k, n - 1), trace[n - 1], steps[n - 1], k)
  }

  /** The revisions read of `k` never go back: not from the poll to the second
      read, nor from one attempt to the next. */
  predicate RevisionsGrow(steps: seq<Step>, k: Key) {
    && (forall i :: 0 <= i < |steps| && steps[i].Update? && steps[i].key == k ==> steps[i].polled <= steps[i].reread)
    && forall i, j :: 0 <= i < j < |steps| && steps[i].Update? && steps[j].Update? && steps[i].key == steps[j].key == k ==>
         steps[i].reread <= steps[j].polled
  }

  predicate Follows(a: Try, b: Try) {
    && a.revision <= b.revision && a.end <= b.start <= b.end
    && (a.revision == b.revision ==> b.start >= a.end + UPDATE_RETRY)
  }

  predicate InOrder(tries: seq<Try>) {
    forall i :: 0 < i < |tries| ==> Follows(tries[i - 1], tries[i])
  }

  /** How many of `tries` at `revision` stopped something. */
  function Stopped(tries: seq<Try>, revision: int): nat {
    if tries == [] then 0
    else
      var last := tries[|tries| - 1];
      Stopped(tries[..|tries| - 1], revision) + if last.revision == revision && last.stopped then 1 else 0
  }

  /** The record of `k` counts exactly these attempts. */
  predicate Records(failures: map<Key, Failure>, k: Key, tries: seq<Try>) {
    && (k in failures <==> tries != [])
    && (tries != [] ==>
          var last := tries[|tries| - 1];
          failures[k] == Failure(last.revision, Stopped(tries, last.revision), last.end))
  }

  lemma {:induction false} NoneAtANewRevision(tries: seq<Try>, revision: int)
    requires InOrder(tries) && (tries != [] ==> tries[|tries| - 1].revision < revision)
    ensures Stopped(tries, revision) == 0
  {
    if tries != [] {
      NoneAtANewRevision(tries[..|tries| - 1], revision);
    }
  }

  lemma OneMoreTry(w: State, step: Step, k: Key, tries: seq<Try>)
    requires InOrder(tries) && Records(w.failures, k, tries) && (tries != [] ==> tries[|tries| - 1].end <= w.now)
    requires Tries(w, step, k) && step.ending.Failed?
    requires step.polled <= step.reread && (tries != [] ==> tries[|tries| - 1].revision <= step.polled)
    ensures var longer := tries + [Try(step.reread, w.now, w.now + step.took, step.ending.stopped)];
            InOrder(longer) && Records(Apply(w, step).failures, k, longer)
  {
    var longer := tries + [Try(step.reread, w.now, w.now + step.took, step.ending.stopped)];
    assert longer[..|longer| - 1] == tries;
    if tries != [] && tries[|tries| - 1].revision < step.reread {
      NoneAtANewRevision(tries, step.reread);
    }
  }

  /** The last failed attempt was at a revision that was read. */
  predicate WasRead(steps: seq<Step>, k: Key, n: nat, revision: int)
    requires n <= |steps|
  {
    exists i :: 0 <= i < n && steps[i].Update? && steps[i].key == k && steps[i].reread == revision
  }

  /** The record of `k`, and what its attempts so far are. */
  predicate Kept(w: State, steps: seq<Step>, k: Key, n: nat, tries: seq<Try>)
    requires n <= |steps|
  {
    && InOrder(tries) && Records(w.failures, k, tries)
    && (tries != [] ==> tries[|tries| - 1].end <= w.now && WasRead(steps, k, n, tries[|tries| - 1].revision))
  }

  lemma OnlyTriesAndDropsCount(w: State, step: Step, k: Key)
    requires !Tries(w, step, k) && !(step.Keep? && k !in step.keys)
    ensures var next := Apply(w, step);
            && w.now <= next.now && (k in next.failures <==> k in w.failures)
            && (k in w.failures ==> next.failures[k] == w.failures[k])
  {
  }

  lemma ReadBefore(steps: seq<Step>, k: Key, n: nat, revision: int)
    requires n < |steps| && RevisionsGrow(steps, k) && WasRead(steps, k, n, revision)
    requires steps[n].Update? && steps[n].key == k
    ensures revision <= steps[n].polled
  {
  }

  lemma TryKeeps(w: State, steps: seq<Step>, k: Key, n: nat, tries: seq<Try>)
    requires n < |steps| && RevisionsGrow(steps, k) && Kept(w, steps, k, n, tries)
    requires Tries(w, steps[n], k) && steps[n].ending.Failed?
    ensures Kept(Apply(w, steps[n]), steps, k, n + 1, TriesAfter(tries, w, steps[n], k))
  {
    if tries != [] {
      ReadBefore(steps, k, n, tries[|tries| - 1].revision);
    }
    OneMoreTry(w, steps[n], k, tries);
    var after := TriesAfter(tries, w, steps[n], k);
    assert after[|after| - 1] == Try(steps[n].reread, w.now, w.now + steps[n].took, steps[n].ending.stopped);
    assert WasRead(steps, k, n + 1, steps[n].reread);
  }

  lemma StepKeeps(w: State, steps: seq<Step>, k: Key, n: nat, tries: seq<Try>)
    requires n < |steps| && RevisionsGrow(steps, k) && Kept(w, steps, k, n, tries)
    ensures Kept(Apply(w, steps[n]), steps, k, n + 1, TriesAfter(tries, w, steps[n], k))
  {
    var step := steps[n];
    if Tries(w, step, k) && step.ending.Failed? {
      TryKeeps(w, steps, k, n, tries);
    } else if TriesAfter(tries, w, step, k) == tries {
      assert tries != [] ==> WasRead(steps, k, n + 1, tries[|tries| - 1].revision);
      if !Tries(w, step, k) && !(step.Keep? && k !in step.keys) {
        OnlyTriesAndDropsCount(w, step, k);
      }
    }
  }

  lemma {:induction false} RecordsAreKept(trace: seq<State>, steps: seq<Step>, k: Key, n: nat)
    requires IsRun(trace, steps) && n <= |steps| && RevisionsGrow(steps, k)
    ensures Kept(trace[n], steps, k, n, FailedTries(trace, steps, k, n))
  {
    if n == 0 {
      assert FailedTries(trace, steps, k, 0) == [];
      assert Kept(trace[0], steps, k, 0, []);
    } else {
      var m := n - 1;
      var before := FailedTries(trace, steps, k, m);
      RecordsAreKept(trace, steps, k, m);
      StepKeeps(trace[m], steps, k, m, before);
      assert trace[m + 1] == Apply(trace[m], steps[m]);
      assert FailedTries(trace, steps, k, n) == TriesAfter(before, trace[m], steps[m], k);
    }
  }

  lemma {:induction false} InOrderIsSpaced(tries: seq<Try>, i: nat, j: nat)
    requires InOrder(tries) && i < j < |tries|
    ensures tries[i].revision <= tries[j].revision && tries[j].start <= tries[j].end
    ensures tries[i].revision == tries[j].revision ==> tries[j].start - tries[i].end >= UPDATE_RETRY * (j - i)
    decreases j
  {
    assert Follows(tries[j - 1], tries[j]);
    if i < j - 1 {
      InOrderIsSpaced(tries, i, j - 1);
    }
  }

  /** Failed attempts at one revision are at least a minute apart, from the end of
      one to the start of the next; none is made at an earlier revision afterwards;
      and those that stopped something are counted exactly. */
  lemma UpdateAttemptsAreSpaced(trace: seq<State>, steps: seq<Step>, k: Key, n: nat)
    requires IsRun(trace, steps) && n <= |steps| && RevisionsGrow(steps, k)
    ensures var tries := FailedTries(trace, steps, k, n);
            && (forall i, j :: 0 <= i < j < |tries| ==>
                  && tries[i].revision <= tries[j].revision
                  && (tries[i].revision == tries[j].revision ==> tries[j].start - tries[i].end >= UPDATE_RETRY * (j - i)))
            && (tries != [] ==>
                  var revision := tries[|tries| - 1].revision;
                  StoppedAt(trace[n].failures, k, revision) == Stopped(tries, revision))
  {
    RecordsAreKept(trace, steps, k, n);
    var tries := FailedTries(trace, steps, k, n);
    forall i, j | 0 <= i < j < |tries|
      ensures tries[i].revision <= tries[j].revision
      ensures tries[i].revision == tries[j].revision ==> tries[j].start - tries[i].end >= UPDATE_RETRY * (j - i)
    {
      InOrderIsSpaced(tries, i, j);
    }
  }
}
