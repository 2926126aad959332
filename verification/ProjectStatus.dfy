/** A Project's assignment state: who holds it, which assignments were given up
    and still owe cleanup, and the gates that read this. */
module ProjectStatus {

  datatype Option<T> = None | Some(value: T)

  datatype Phase = Unborn | Pending | Scheduled | Running | Failed | Terminating | Terminated

  datatype History = NeverAssigned | Known | Unknown

  /** One assignment of one lifetime: UID, Node and generation. */
  datatype Identity = Identity(uid: string, node: string, generation: int)

  datatype Authorization =
    | WorkloadStopped | Deletion | ProviderFencing | OperatorOverride | GraceExpired | LeaseExpired

  datatype Obligation = Obligation(
    assignment: Identity, releasedAt: int, authorization: Authorization,
    removed: Option<int>, dataOwed: bool, quarantined: Option<int>)
  {
    predicate Resolved() { removed.Some? }

    predicate DataOutstanding() { dataOwed && quarantined.None? }

    /** A resolved obligation lets the Project be assigned again; an unresolved
        one only if what released it says the old Node may be overtaken. */
    predicate PermitsAssignment() {
      Resolved() || authorization.ProviderFencing? || authorization.OperatorOverride? || authorization.GraceExpired?
    }

    predicate Owing() { !Resolved() || DataOutstanding() }
  }

  type Obligations = seq<Obligation>

  /** `node` is "" while no assignment is held. */
  datatype Status = Status(
    phase: Phase, node: string, generation: int, history: History,
    stopped: Option<Identity>, obligations: Obligations, takeoverRequired: bool)

  // ------------------------------------------------ the obligation list

  /** The first entry for `id`; `FindObligation`. */
  function Find(obs: Obligations, id: Identity): (r: Option<nat>)
    ensures r.Some? ==> r.value < |obs| && obs[r.value].assignment == id
                        && forall i :: 0 <= i < r.value ==> obs[i].assignment != id
    ensures r.None? ==> forall i :: 0 <= i < |obs| ==> obs[i].assignment != id
  {
    if obs == [] then None
    else if obs[0].assignment == id then Some(0)
    else match Find(obs[1..], id)
      case None => None
      case Some(i) => Some(i + 1)
  }

  function Added(obs: Obligations, id: Identity, at: int, auth: Authorization): Obligations {
    if Find(obs, id).Some? then obs else obs + [Obligation(id, at, auth, None, false, None)]
  }

  function Overridden(obs: Obligations, id: Identity, at: int): Obligations {
    match Find(obs, id)
    case Some(i) => obs[i := obs[i].(authorization := OperatorOverride)]
    case None => Added(obs, id, at, OperatorOverride)
  }

  function Owed(obs: Obligations, id: Identity): Obligations {
    match Find(obs, id)
    case Some(i) => obs[i := obs[i].(dataOwed := true)]
    case None => obs
  }

  predicate OwesCleanup(obs: Obligations, node: string) {
    exists i :: 0 <= i < |obs| && obs[i].assignment.node == node && obs[i].Owing()
  }

  predicate Blocked(obs: Obligations) {
    exists i :: 0 <= i < |obs| && !obs[i].PermitsAssignment()
  }

  /** The first obligation of that Node and generation is resolved. */
  predicate RemovedFor(obs: Obligations, node: string, generation: int) {
    exists i :: 0 <= i < |obs| && Held(obs[i], node, generation) && obs[i].Resolved()
                && forall j :: 0 <= j < i ==> !Held(obs[j], node, generation)
  }

  predicate Held(o: Obligation, node: string, generation: int) {
    o.assignment.node == node && o.assignment.generation == generation
  }

  predicate AllResolved(obs: Obligations) {
    forall i :: 0 <= i < |obs| ==> obs[i].Resolved()
  }

  /** The recovery state of a Project, changed in place. */
  class ProjectRecoveryStatus {
    var obligations: Obligations
    var stopped: Option<Identity>
    var healthySince: Option<int>
    var healthySinceGeneration: int

    constructor ()
      ensures obligations == [] && stopped.None? && healthySince.None? && healthySinceGeneration == 0
    {
      obligations, stopped, healthySince, healthySinceGeneration := [], None, None, 0;
    }

    method FindObligation(id: Identity) returns (r: Option<nat>)
      ensures r == Find(obligations, id)
    {
      var i := 0;
      while i < |obligations|
        invariant 0 <= i <= |obligations|
        invariant forall k :: 0 <= k < i ==> obligations[k].assignment != id
      {
        if obligations[i].assignment == id {
          return Some(i);
        }
        i := i + 1;
      }
      return None;
    }

    /** An assignment already listed keeps its entry, evidence and all. */
    method AddObligation(id: Identity, at: int, auth: Authorization)
      modifies this`obligations
      ensures obligations == Added(old(obligations), id, at, auth)
    {
      var found := FindObligation(id);
      if found.Some? {
        return;
      }
      obligations := obligations + [Obligation(id, at, auth, None, false, None)];
    }

    /** An obligation already standing changes authorization; it gains no second
        entry and stays unresolved. */
    method OverrideRelease(id: Identity, at: int)
      modifies this`obligations
      ensures obligations == Overridden(old(obligations), id, at)
    {
      var found := FindObligation(id);
      if found.Some? {
        obligations := obligations[found.value := obligations[found.value].(authorization := OperatorOverride)];
        return;
      }
      AddObligation(id, at, OperatorOverride);
    }

    method OweManagedData(id: Identity)
      modifies this`obligations
      ensures obligations == Owed(old(obligations), id)
    {
      var found := FindObligation(id);
      if found.Some? {
        obligations := obligations[found.value := obligations[found.value].(dataOwed := true)];
      }
    }

    method NodesOwingCleanup() returns (nodes: seq<string>)
      ensures forall n :: n in nodes <==> OwesCleanup(obligations, n)
    {
      nodes := [];
      for i := 0 to |obligations|
        invariant forall n :: n in nodes <==> OwesCleanup(obligations[..i], n)
      {
        ghost var before := nodes;
        if obligations[i].Owing() {
          nodes := nodes + [obligations[i].assignment.node];
        }
        forall n ensures n in nodes <==> OwesCleanup(obligations[..i + 1], n) {
          OwingGrows(obligations, i, n);
        }
      }
      assert obligations[..|obligations|] == obligations;
    }

    method BlockingObligation() returns (r: Option<Obligation>)
      ensures r.None? <==> !Blocked(obligations)
      ensures r.Some? ==> r.value in obligations && !r.value.PermitsAssignment()
    {
      for i := 0 to |obligations|
        invariant forall k :: 0 <= k < i ==> obligations[k].PermitsAssignment()
      {
        if !obligations[i].PermitsAssignment() {
          return Some(obligations[i]);
        }
      }
      return None;
    }

    method ResourcesRemovedFor(node: string, generation: int) returns (r: bool)
      ensures r <==> RemovedFor(obligations, node, generation)
    {
      for i := 0 to |obligations|
        invariant forall k :: 0 <= k < i ==> !Held(obligations[k], node, generation)
      {
        if Held(obligations[i], node, generation) {
          return obligations[i].Resolved();
        }
      }
      return false;
    }

    /** The only operation that clears the no-start latch. */
    method ClearForNewAssignment()
      modifies this
      ensures obligations == old(obligations)
      ensures stopped.None? && healthySince.None? && healthySinceGeneration == 0
    {
      stopped, healthySince, healthySinceGeneration := None, None, 0;
    }
  }

  lemma OwingGrows(obs: Obligations, i: nat, node: string)
    requires i < |obs|
    ensures OwesCleanup(obs[..i + 1], node) <==>
            OwesCleanup(obs[..i], node) || (obs[i].assignment.node == node && obs[i].Owing())
  {
  }

  // ------------------------------------------------------- the two gates

  datatype Blocker =
    | NoBlocker
    | NotAwaiting
    | NoOwnEvidence
    | GenerationDespiteNeverAssigned
    | NoObligationRecorded
    | HistoryUnknown
    | Waiting
    | WrongPhase
    | HasHistory
    | IsAssigned
    | HasGeneration
    | HasObligations

  predicate AwaitsFinalization(s: Status) {
    s.phase.Terminated? || (s.phase.Terminating? && s.node == "")
  }

  /** Why the record may not be deleted yet. */
  function FinalizationBlocker(s: Status): Blocker {
    var own :=
      if !AwaitsFinalization(s) then NotAwaiting
      else if s.phase.Terminated? then
        if RemovedFor(s.obligations, s.node, s.generation) then NoBlocker else NoOwnEvidence
      else match s.history
        case NeverAssigned => if s.generation != 0 then GenerationDespiteNeverAssigned else NoBlocker
        case Known => if s.obligations == [] then NoObligationRecorded else NoBlocker
        case Unknown => HistoryUnknown;
    if !own.NoBlocker? then own
    else if AllResolved(s.obligations) then NoBlocker else Waiting
  }

  /** Why the record may not be deleted without going through Terminating. */
  function ImmediateDeletionBlocker(s: Status): Blocker {
    if !s.phase.Pending? && !s.phase.Failed? then WrongPhase
    else if !s.history.NeverAssigned? then HasHistory
    else if s.node != "" then IsAssigned
    else if s.generation != 0 then HasGeneration
    else if s.obligations != [] then HasObligations
    else NoBlocker
  }

  /** The assignments not confirmed cleaned up; the gate waits while there are any. */
  method UnresolvedObligations(obs: Obligations) returns (pending: seq<Identity>)
    ensures forall id :: id in pending <==> exists i :: 0 <= i < |obs| && obs[i].assignment == id && !obs[i].Resolved()
    ensures pending == [] <==> AllResolved(obs)
  {
    pending := [];
    for i := 0 to |obs|
      invariant forall id :: id in pending <==> exists k :: 0 <= k < i && obs[k].assignment == id && !obs[k].Resolved()
      invariant pending == [] <==> forall k :: 0 <= k < i ==> obs[k].Resolved()
    {
      if !obs[i].Resolved() {
        pending := pending + [obs[i].assignment];
        assert obs[i].assignment in pending;
      }
    }
  }

  // --------------------------------------------------------- cleanup tasks

  /** The tasks `node` is handed: what it still owes for this lifetime, and
      nothing while it holds the current assignment itself. */
  function TasksFor(s: Status, uid: string, node: string): seq<Identity> {
    if s.node == node then [] else OwedBy(s.obligations, uid, node)
  }

  predicate IsTask(o: Obligation, uid: string, node: string) {
    o.Owing() && o.assignment.node == node && o.assignment.uid == uid
  }

  function OwedBy(obs: Obligations, uid: string, node: string): (tasks: seq<Identity>)
    ensures forall id :: id in tasks <==> exists i :: 0 <= i < |obs| && obs[i].assignment == id && IsTask(obs[i], uid, node)
  {
    if obs == [] then []
    else
      var rest := OwedBy(obs[..|obs| - 1], uid, node);
      var last := obs[|obs| - 1];
      if IsTask(last, uid, node) then rest + [last.assignment] else rest
  }

  method CleanupTasksFor(s: Status, uid: string, node: string) returns (tasks: seq<Identity>)
    ensures tasks == TasksFor(s, uid, node)
  {
    tasks := [];
    if s.node == node {
      return;
    }
    for i := 0 to |s.obligations|
      invariant tasks == OwedBy(s.obligations[..i], uid, node)
    {
      var o := s.obligations[i];
      assert s.obligations[..i + 1][..i] == s.obligations[..i];
      if (o.Resolved() && !o.DataOutstanding()) || o.assignment.node != node || o.assignment.uid != uid {
        continue;
      }
      tasks := tasks + [o.assignment];
    }
    assert s.obligations[..|s.obligations|] == s.obligations;
  }

  // -------------------------------------------------------------- lifecycle

  datatype Writer =
    | Admission | DeleteAPI | Scheduler | Rescheduler | FailedRescheduler | TakeoverOperator | Agent

  /** Every phase change and the writer it belongs to. */
  const PHASE_TRANSITIONS: set<(Writer, Phase, Phase)> := {
    (Admission, Unborn, Pending),
    (DeleteAPI, Pending, Terminating), (DeleteAPI, Scheduled, Terminating),
    (DeleteAPI, Running, Terminating), (DeleteAPI, Failed, Terminating),
    (Scheduler, Pending, Scheduled),
    (Rescheduler, Scheduled, Pending), (Rescheduler, Running, Pending),
    (FailedRescheduler, Failed, Pending),
    (TakeoverOperator, Scheduled, Pending), (TakeoverOperator, Running, Pending),
    (Agent, Scheduled, Running), (Agent, Scheduled, Failed), (Agent, Running, Failed),
    (Agent, Terminating, Terminated) }

  predicate PhaseTransitionAllowed(w: Writer, from: Phase, to: Phase) {
    if from == to then w.Agent? && (to.Running? || to.Failed? || to.Terminated?)
    else (w, from, to) in PHASE_TRANSITIONS
  }
}
