/** Every history of one Project lifetime: the server's guarded writes, and the
    Nodes' agents starting, removing and confirming, in any order.

    Two main results. The record outlives the resources: whenever a gate lets the
    record be deleted, no Node holds anything for any assignment ever granted
    (RecordOutlivesResources). And assignments do not run beside each other
    without an authorization that says so (OnlyAuthorizedOverlap). */
module AssignmentRuns {
  import opened ProjectStatus

  // ------------------------------------------------ the server's guarded writes

  /** A write that is refused leaves the record as it is. */
  datatype Write = Refused | Written(status: Status)

  function SetScheduled(s: Status, node: string): Write {
    if s.phase.Scheduled? && s.node == node then Written(s)
    else if !PhaseTransitionAllowed(Scheduler, s.phase, Scheduled) then Refused
    else if Blocked(s.obligations) then Refused
    else if OwesCleanup(s.obligations, node) then Refused
    else Written(s.(generation := s.generation + 1, history := Known, stopped := None,
                    phase := Scheduled, node := node))
  }

  /** The assignment is given up and, in the same write, owed. */
  function GivenUp(s: Status, id: Identity, obs: Obligations, managed: bool): Status {
    s.(phase := Pending, node := "", obligations := if managed then Owed(obs, id) else obs, takeoverRequired := false)
  }

  function ReleaseAssignment(s: Status, id: Identity, graceExpired: bool, managed: bool, hasBackup: bool, at: int): Write {
    if s.node != id.node || s.generation != id.generation then Refused
    else if !PhaseTransitionAllowed(Rescheduler, s.phase, Pending) then Refused
    else if s.stopped == Some(id) then Written(GivenUp(s, id, Added(s.obligations, id, at, WorkloadStopped), managed))
    else if graceExpired && (!managed || hasBackup) then Written(GivenUp(s, id, Added(s.obligations, id, at, GraceExpired), managed))
    else Written(s.(takeoverRequired := true))
  }

  function MoveFailedProject(s: Status, id: Identity, managed: bool, at: int): Write {
    if !PhaseTransitionAllowed(FailedRescheduler, s.phase, Pending) || s.node != id.node || s.generation != id.generation
    then Refused
    else if s.stopped != Some(id) then Written(s.(takeoverRequired := true))
    else Written(GivenUp(s, id, Added(s.obligations, id, at, WorkloadStopped), managed))
  }

  function Takeover(s: Status, id: Identity, managed: bool, at: int): Write {
    if s.generation != id.generation then Refused
    else if s.node == "" then
      match Find(s.obligations, id)
      case None => Refused
      case Some(i) =>
        if !s.phase.Pending? || s.obligations[i].PermitsAssignment() then Refused
        else
          var obs := Overridden(s.obligations, id, at);
          Written(s.(obligations := if managed then Owed(obs, id) else obs))
    else if s.node != id.node then Refused
    else if !PhaseTransitionAllowed(TakeoverOperator, s.phase, Pending) || !s.takeoverRequired then Refused
    else Written(GivenUp(s, id, Overridden(s.obligations, id, at), managed))
  }

  function EnterTerminating(s: Status, uid: string, at: int): Write {
    if s.phase.Terminating? || s.phase.Terminated? then Written(s)
    else if !PhaseTransitionAllowed(DeleteAPI, s.phase, Terminating) then Refused
    else Written(s.(phase := Terminating,
                    obligations := if s.node == "" then s.obligations
                                   else Added(s.obligations, Identity(uid, s.node, s.generation), at, Deletion)))
  }

  function ReportPhase(s: Status, node: string, generation: int, phase: Phase): Write {
    if node == "" || s.node != node || s.generation != generation then Refused
    else if !PhaseTransitionAllowed(Agent, s.phase, phase) then Refused
    else if phase.Terminated? && !s.phase.Terminated? && !RemovedFor(s.obligations, s.node, s.generation) then Refused
    else Written(s.(phase := phase))
  }

  function RecordWorkloadStopped(s: Status, id: Identity): Write {
    if id.node == "" || s.node != id.node || s.generation != id.generation then Refused
    else if !s.phase.Scheduled? && !s.phase.Running? && !s.phase.Failed? && !s.phase.Terminating? then Refused
    else Written(s.(stopped := Some(id)))
  }

  function RecordResourcesRemoved(s: Status, id: Identity, at: int): Write {
    match Find(s.obligations, id)
    case None => Refused
    case Some(i) =>
      if s.obligations[i].Resolved() then Written(s)
      else Written(s.(obligations := s.obligations[i := s.obligations[i].(removed := Some(at))]))
  }

  function RecordManagedDataQuarantined(s: Status, id: Identity, at: int): Write {
    match Find(s.obligations, id)
    case None => Refused
    case Some(i) =>
      if s.obligations[i].quarantined.Some? then Written(s)
      else Written(s.(obligations := s.obligations[i := s.obligations[i].(quarantined := Some(at))]))
  }

  // ------------------------------------------------------------ the world

  /** `granted` are the assignments ever committed, `runtime` those some Node
      holds resources for, `closed` those whose agent confirmed, by a read that
      found nothing, that nothing is left. A deleted record is None. */
  datatype World = World(uid: string, record: Option<Status>,
                         granted: set<Identity>, runtime: set<Identity>, closed: set<Identity>)

  datatype Step =
    | Schedule(node: string)
    | Release(id: Identity, graceExpired: bool, managed: bool, hasBackup: bool, at: int)
    | MoveFailed(id: Identity, managed: bool, at: int)
    | TakeOver(id: Identity, managed: bool, at: int)
    | Delete(at: int)
    | Report(node: string, generation: int, phase: Phase)
    | Stopped(id: Identity)
    | Removed(id: Identity, at: int)
    | Quarantined(id: Identity, at: int)
    | Finalize
    | DeleteNow
    | AgentStarts(id: Identity)
    | AgentRemoves(id: Identity)
    | AgentConfirms(id: Identity)

  /** A Node runs only what it was granted and starts nothing for an assignment
      it confirmed removed; it reports removed only what it so confirmed. The
      server's own writes may be attempted at any time with any argument. */
  predicate Enabled(w: World, step: Step) {
    match step
    case Schedule(node) => node != ""
    case Removed(id, _) => id in w.closed
    case AgentStarts(id) => id in w.granted && id !in w.closed
    case AgentConfirms(id) => id in w.granted && id !in w.runtime
    case _ => true
  }

  /** The server's write of this step, on the record as it is. */
  function ServerWrite(uid: string, s: Status, step: Step): Write {
    match step
    case Schedule(node) => SetScheduled(s, node)
    case Release(id, grace, managed, backup, at) => if id.uid == uid then ReleaseAssignment(s, id, grace, managed, backup, at) else Refused
    case MoveFailed(id, managed, at) => if id.uid == uid then MoveFailedProject(s, id, managed, at) else Refused
    case TakeOver(id, managed, at) => if id.uid == uid then Takeover(s, id, managed, at) else Refused
    case Delete(at) => EnterTerminating(s, uid, at)
    case Report(node, generation, phase) => ReportPhase(s, node, generation, phase)
    case Stopped(id) => if id.uid == uid then RecordWorkloadStopped(s, id) else Refused
    case Removed(id, at) => if id.uid == uid then RecordResourcesRemoved(s, id, at) else Refused
    case Quarantined(id, at) => if id.uid == uid then RecordManagedDataQuarantined(s, id, at) else Refused
    case _ => Refused
  }

  function Current(uid: string, s: Status): set<Identity> {
    if s.node == "" then {} else {Identity(uid, s.node, s.generation)}
  }

  function Next(w: World, step: Step): World
    requires Enabled(w, step)
  {
    match step
    case AgentStarts(id) => w.(runtime := w.runtime + {id})
    case AgentRemoves(id) => w.(runtime := w.runtime - {id})
    case AgentConfirms(id) => w.(closed := w.closed + {id})
    case Finalize => if w.record.Some? && FinalizationBlocker(w.record.value).NoBlocker? then w.(record := None) else w
    case DeleteNow => if w.record.Some? && ImmediateDeletionBlocker(w.record.value).NoBlocker? then w.(record := None) else w
    case _ =>
      if w.record.None? then w
      else match ServerWrite(w.uid, w.record.value, step)
        case Refused => w
        case Written(s) => w.(record := Some(s), granted := w.granted + Current(w.uid, s))
  }

  const INITIAL := Status(Pending, "", 0, NeverAssigned, None, [], false)

  predicate Initial(w: World) {
    w == World(w.uid, Some(INITIAL), {}, {}, {})
  }

  predicate IsRun(trace: seq<World>, steps: seq<Step>) {
    && |trace| == |steps| + 1
    && Initial(trace[0])
    && forall i :: 0 <= i < |steps| ==> Enabled(trace[i], steps[i]) && trace[i + 1] == Next(trace[i], steps[i])
  }

  // -------------------------------------------------------- the invariant

  function Listed(obs: Obligations): set<Identity> {
    set o | o in obs :: o.assignment
  }

  /** The list: one entry an assignment, each of this lifetime and of a
      generation already reached; resolved only when confirmed; every
      unresolved one of an earlier generation released by an authorization that
      permits overtaking it; one unresolved entry a Node. */
  ghost predicate ListOk(uid: string, obs: Obligations, generation: int, closed: set<Identity>) {
    && (forall i, j :: 0 <= i < j < |obs| ==> obs[i].assignment.generation != obs[j].assignment.generation)
    && (forall i :: 0 <= i < |obs| ==> EntryOk(uid, obs[i], generation, closed))
    && (forall i, j :: 0 <= i < j < |obs| && !obs[i].Resolved() && !obs[j].Resolved() ==>
          obs[i].assignment.node != obs[j].assignment.node)
  }

  predicate EntryOk(uid: string, o: Obligation, generation: int, closed: set<Identity>) {
    && o.assignment.uid == uid && o.assignment.node != "" && 1 <= o.assignment.generation <= generation
    && (o.Resolved() ==> o.assignment in closed)
    && (o.assignment.generation < generation ==> o.PermitsAssignment())
  }

  /** Where the assignment held now stands to the list. */
  ghost predicate HolderOk(uid: string, s: Status) {
    && (s.node != "" ==> s.generation >= 1)
    && (s.node != "" ==> forall i :: 0 <= i < |s.obligations| ==>
          && (s.obligations[i].assignment.generation == s.generation ==> s.obligations[i].assignment.node == s.node)
          && (s.obligations[i].assignment.node == s.node && !s.obligations[i].Resolved() ==>
                s.obligations[i].assignment.generation == s.generation))
    && (s.phase.Pending? ==> s.node == "")
    && (s.node == "" ==> s.phase.Pending? || s.phase.Terminating?)
    && (s.node == "" && s.generation > 0 ==> s.obligations != [])
    && ((s.phase.Terminating? || s.phase.Terminated?) && s.node != "" ==>
          Identity(uid, s.node, s.generation) in Listed(s.obligations))
    && (s.history.NeverAssigned? <==> s.generation == 0)
    && s.generation >= 0 && !s.history.Unknown?
  }

  ghost predicate Inv(w: World) {
    && w.runtime <= w.granted && w.runtime !! w.closed
    && (w.record.None? ==> w.granted <= w.closed)
    && (w.record.Some? ==>
          var s := w.record.value;
          && w.granted == Listed(s.obligations) + Current(w.uid, s)
          && ListOk(w.uid, s.obligations, s.generation, w.closed)
          && HolderOk(w.uid, s))
  }

  // ------------------------------------------------- what the writes keep

  /** Entries that changed in nothing but the data they owe and, towards more
      permissive, their authorization. */
  ghost predicate SameEntries(a: Obligations, b: Obligations) {
    |a| == |b| && forall i :: 0 <= i < |a| ==>
      && a[i].assignment == b[i].assignment && a[i].removed == b[i].removed
      && (a[i].PermitsAssignment() ==> b[i].PermitsAssignment())
  }

  lemma SameEntriesOk(uid: string, a: Obligations, b: Obligations, generation: int, closed: set<Identity>)
    requires SameEntries(a, b) && ListOk(uid, a, generation, closed)
    ensures ListOk(uid, b, generation, closed) && Listed(b) == Listed(a)
  {
  }

  lemma OwedKeepsEntries(obs: Obligations, id: Identity)
    ensures SameEntries(obs, Owed(obs, id))
  {
  }

  lemma OverridingKeepsEntries(obs: Obligations, id: Identity, at: int)
    requires Find(obs, id).Some?
    ensures SameEntries(obs, Overridden(obs, id, at))
  {
  }

  /** Adding the assignment held now, whatever releases it. */
  lemma AddedOk(uid: string, s: Status, at: int, auth: Authorization, closed: set<Identity>)
    requires s.node != "" && HolderOk(uid, s) && ListOk(uid, s.obligations, s.generation, closed)
    ensures var id := Identity(uid, s.node, s.generation);
            var obs := Added(s.obligations, id, at, auth);
            && ListOk(uid, obs, s.generation, closed)
            && Listed(obs) == Listed(s.obligations) + {id}
            && Find(obs, id).Some?
  {
    var id := Identity(uid, s.node, s.generation);
    var obs := Added(s.obligations, id, at, auth);
    if Find(s.obligations, id).Some? {
      assert s.obligations[Find(s.obligations, id).value] in s.obligations;
    } else {
      assert obs[|s.obligations|].assignment == id;
      forall i | 0 <= i < |obs| ensures EntryOk(uid, obs[i], s.generation, closed) {
        if i < |s.obligations| { assert EntryOk(uid, s.obligations[i], s.generation, closed); }
      }
      forall i | 0 <= i < |s.obligations| ensures s.obligations[i].assignment.generation != s.generation {
        assert EntryOk(uid, s.obligations[i], s.generation, closed);
        assert s.obligations[i].assignment != id;
      }
    }
  }

  /** Giving the held assignment up, with its obligation on the list. */
  lemma GivenUpKeeps(w: World, obs: Obligations, managed: bool)
    requires Inv(w) && w.record.Some? && w.record.value.node != ""
    requires var s := w.record.value;
             var id := Identity(w.uid, s.node, s.generation);
             ListOk(w.uid, obs, s.generation, w.closed) && Listed(obs) == Listed(s.obligations) + {id}
    ensures var s := w.record.value;
            Inv(w.(record := Some(GivenUp(s, Identity(w.uid, s.node, s.generation), obs, managed))))
  {
    var s := w.record.value;
    var id := Identity(w.uid, s.node, s.generation);
    OwedKeepsEntries(obs, id);
    SameEntriesOk(w.uid, obs, Owed(obs, id), s.generation, w.closed);
  }

  lemma ScheduleKeeps(w: World, step: Step)
    requires Inv(w) && step.Schedule? && Enabled(w, step) && w.record.Some?
    ensures Inv(Next(w, step))
  {
  }

  lemma {:induction false} ReleasedKeeps(w: World, at: int, auth: Authorization, managed: bool)
    requires Inv(w) && w.record.Some? && w.record.value.node != ""
    ensures var s := w.record.value;
            var id := Identity(w.uid, s.node, s.generation);
            Inv(w.(record := Some(GivenUp(s, id, Added(s.obligations, id, at, auth), managed))))
  {
    var s := w.record.value;
    AddedOk(w.uid, s, at, auth, w.closed);
    GivenUpKeeps(w, Added(s.obligations, Identity(w.uid, s.node, s.generation), at, auth), managed);
  }

  lemma MarkedKeeps(w: World)
    requires Inv(w) && w.record.Some?
    ensures Inv(w.(record := Some(w.record.value.(takeoverRequired := true))))
  {
  }

  /** What a release or a move does, if anything: mark the Project, or give the
      held assignment up by one of two authorizations. */
  lemma ReleaseShape(w: World, step: Step)
    requires w.record.Some? && HolderOk(w.uid, w.record.value) && (step.Release? || step.MoveFailed?)
    ensures var s := w.record.value;
            var id := Identity(w.uid, s.node, s.generation);
            var write := ServerWrite(w.uid, s, step);
            || write.Refused?
            || write.status == s.(takeoverRequired := true)
            || (s.node != "" && write.status == GivenUp(s, id, Added(s.obligations, id, step.at, WorkloadStopped), step.managed))
            || (s.node != "" && write.status == GivenUp(s, id, Added(s.obligations, id, step.at, GraceExpired), step.managed))
  {
  }

  lemma ReleaseKeeps(w: World, step: Step)
    requires Inv(w) && w.record.Some? && (step.Release? || step.MoveFailed?)
    ensures Inv(Next(w, step))
  {
    var s := w.record.value;
    ReleaseShape(w, step);
    var write := ServerWrite(w.uid, s, step);
    if write.Refused? {
    } else if write.status == s.(takeoverRequired := true) {
      MarkedKeeps(w);
      assert Next(w, step) == w.(record := Some(write.status)) by { assert w.granted + Current(w.uid, s) == w.granted; }
    } else {
      ReleasedKeeps(w, step.at, WorkloadStopped, step.managed);
      ReleasedKeeps(w, step.at, GraceExpired, step.managed);
      assert w.granted + {} == w.granted;
      assert Next(w, step) == w.(record := Some(write.status));
    }
  }

  lemma TakeOverKeeps(w: World, step: Step)
    requires Inv(w) && w.record.Some? && step.TakeOver?
    ensures Inv(Next(w, step))
  {
    var s := w.record.value;
    if step.id.uid == w.uid && Takeover(s, step.id, step.managed, step.at).Written? {
      var obs := Overridden(s.obligations, step.id, step.at);
      if Find(s.obligations, step.id).Some? {
        OverridingKeepsEntries(s.obligations, step.id, step.at);
        SameEntriesOk(w.uid, s.obligations, obs, s.generation, w.closed);
        assert s.obligations[Find(s.obligations, step.id).value] in s.obligations;
      } else {
        AddedOk(w.uid, s, step.at, OperatorOverride, w.closed);
      }
      if s.node == "" {
        OwedKeepsEntries(obs, step.id);
        SameEntriesOk(w.uid, obs, Owed(obs, step.id), s.generation, w.closed);
      } else {
        GivenUpKeeps(w, obs, step.managed);
      }
    }
  }

  lemma DeleteKeeps(w: World, step: Step)
    requires Inv(w) && w.record.Some? && step.Delete?
    ensures Inv(Next(w, step))
  {
    var s := w.record.value;
    if s.node != "" && EnterTerminating(s, w.uid, step.at).Written? && !s.phase.Terminating? && !s.phase.Terminated? {
      AddedOk(w.uid, s, step.at, Deletion, w.closed);
      var id := Identity(w.uid, s.node, s.generation);
      AddedHolder(w.uid, s, step.at, w.closed);
    }
  }

  lemma AddedHolder(uid: string, s: Status, at: int, closed: set<Identity>)
    requires s.node != "" && HolderOk(uid, s) && ListOk(uid, s.obligations, s.generation, closed)
    ensures HolderOk(uid, s.(phase := Terminating,
                             obligations := Added(s.obligations, Identity(uid, s.node, s.generation), at, Deletion)))
  {
  }

  lemma ReportKeeps(w: World, step: Step)
    requires Inv(w) && w.record.Some? && (step.Report? || step.Stopped?)
    ensures Inv(Next(w, step))
  {
  }

  lemma RemovedKeeps(w: World, step: Step)
    requires Inv(w) && w.record.Some? && step.Removed? && Enabled(w, step)
    ensures Inv(Next(w, step))
  {
    var s := w.record.value;
    if step.id.uid == w.uid && RecordResourcesRemoved(s, step.id, step.at).Written? {
      var obs := RecordResourcesRemoved(s, step.id, step.at).status.obligations;
      assert |obs| == |s.obligations|;
      forall i | 0 <= i < |obs| ensures EntryOk(w.uid, obs[i], s.generation, w.closed) {
        assert EntryOk(w.uid, s.obligations[i], s.generation, w.closed);
      }
      SameListed(s.obligations, obs);
    }
  }

  lemma SameListed(a: Obligations, b: Obligations)
    requires |a| == |b| && forall i :: 0 <= i < |a| ==> a[i].assignment == b[i].assignment
    ensures Listed(a) == Listed(b)
  {
  }

  lemma QuarantinedKeeps(w: World, step: Step)
    requires Inv(w) && w.record.Some? && step.Quarantined?
    ensures Inv(Next(w, step))
  {
    var s := w.record.value;
    if step.id.uid == w.uid && RecordManagedDataQuarantined(s, step.id, step.at).Written? {
      var obs := RecordManagedDataQuarantined(s, step.id, step.at).status.obligations;
      assert SameEntries(s.obligations, obs);
      SameEntriesOk(w.uid, s.obligations, obs, s.generation, w.closed);
    }
  }

  // ------------------------------------------------------- main results

  /** Whenever either gate lets the record be deleted, every assignment ever
      granted is confirmed removed. */
  lemma GatesMeanAllClosed(w: World)
    requires Inv(w) && w.record.Some?
    requires FinalizationBlocker(w.record.value).NoBlocker? || ImmediateDeletionBlocker(w.record.value).NoBlocker?
    ensures w.granted <= w.closed
  {
  }

  lemma AgentKeeps(w: World, step: Step)
    requires Inv(w) && Enabled(w, step) && (step.AgentStarts? || step.AgentRemoves? || step.AgentConfirms?)
    ensures Inv(Next(w, step))
  {
  }

  lemma StepKeeps(w: World, step: Step)
    requires Inv(w) && Enabled(w, step)
    ensures Inv(Next(w, step))
  {
    if step.AgentStarts? || step.AgentRemoves? || step.AgentConfirms? {
      AgentKeeps(w, step);
    } else if w.record.Some? {
      if step.Schedule? { ScheduleKeeps(w, step); }
      else if step.Release? || step.MoveFailed? { ReleaseKeeps(w, step); }
      else if step.TakeOver? { TakeOverKeeps(w, step); }
      else if step.Delete? { DeleteKeeps(w, step); }
      else if step.Report? || step.Stopped? { ReportKeeps(w, step); }
      else if step.Removed? { RemovedKeeps(w, step); }
      else if step.Quarantined? { QuarantinedKeeps(w, step); }
      else { DeletingKeeps(w, step); }
    }
  }

  lemma DeletingKeeps(w: World, step: Step)
    requires Inv(w) && w.record.Some? && (step.Finalize? || step.DeleteNow?)
    ensures Inv(Next(w, step))
  {
  }

  lemma {:induction false} RunKeeps(trace: seq<World>, steps: seq<Step>, i: nat)
    requires IsRun(trace, steps) && i < |trace|
    ensures Inv(trace[i])
  {
    if i > 0 {
      RunKeeps(trace, steps, i - 1);
      StepKeeps(trace[i - 1], steps[i - 1]);
    }
  }

  /** Over every run: when FinalizationBlocker or ImmediateDeletionBlocker lets
      the record go, and from then on, no Node holds anything of the lifetime. */
  lemma RecordOutlivesResources(trace: seq<World>, steps: seq<Step>, i: nat)
    requires IsRun(trace, steps) && i < |trace|
    ensures trace[i].record.None? ==> trace[i].runtime == {}
    ensures trace[i].record.Some? ==>
              (FinalizationBlocker(trace[i].record.value).NoBlocker? || ImmediateDeletionBlocker(trace[i].record.value).NoBlocker?
               ==> trace[i].runtime == {})
  {
    RunKeeps(trace, steps, i);
    var w := trace[i];
    if w.record.Some?
       && (FinalizationBlocker(w.record.value).NoBlocker? || ImmediateDeletionBlocker(w.record.value).NoBlocker?) {
      GatesMeanAllClosed(w);
    }
  }

  /** The gate keeps no record longer than it must: in every run, a Project that
      awaits finalization may be finalized exactly when every obligation is
      resolved. The other reasons to refuse never apply to it. */
  lemma TheGateWaitsForObligationsOnly(trace: seq<World>, steps: seq<Step>, i: nat)
    requires IsRun(trace, steps) && i < |trace| && trace[i].record.Some?
    ensures var s := trace[i].record.value;
            FinalizationBlocker(s).NoBlocker? <==> AwaitsFinalization(s) && AllResolved(s.obligations)
  {
    RunKeeps(trace, steps, i);
    var s := trace[i].record.value;
    if s.phase.Terminated? && AllResolved(s.obligations) {
      var id := Identity(trace[i].uid, s.node, s.generation);
      var k :| 0 <= k < |s.obligations| && s.obligations[k].assignment == id;
      assert Held(s.obligations[k], s.node, s.generation);
      forall j | 0 <= j < k ensures !Held(s.obligations[j], s.node, s.generation) {
      }
    }
  }

  /** An assignment the server still has to account for: held now, or given up
      and not confirmed removed. */
  predicate Live(uid: string, s: Status, id: Identity) {
    id in Current(uid, s) || exists i :: 0 <= i < |s.obligations| && s.obligations[i].assignment == id && !s.obligations[i].Resolved()
  }

  /** Someone accepted that the Node of `id` may be overtaken. */
  predicate Overtaken(s: Status, id: Identity) {
    exists i :: 0 <= i < |s.obligations| && s.obligations[i].assignment == id
                && (s.obligations[i].authorization.ProviderFencing? || s.obligations[i].authorization.OperatorOverride?
                    || s.obligations[i].authorization.GraceExpired?)
  }

  lemma LiveOverlap(w: World, a: Identity, b: Identity)
    requires Inv(w) && w.record.Some?
    requires Live(w.uid, w.record.value, a) && Live(w.uid, w.record.value, b) && a != b
    ensures a.node != b.node
    ensures Overtaken(w.record.value, a) || Overtaken(w.record.value, b)
  {
  }

  lemma WhatRunsIsLive(w: World, id: Identity)
    requires Inv(w) && w.record.Some? && id in w.runtime
    ensures Live(w.uid, w.record.value, id)
  {
  }

  /** Over every run: a Node never has two assignments of the lifetime to answer
      for, and two Nodes have one each only where an override, fencing or grace
      release said so. */
  lemma OnlyAuthorizedOverlap(trace: seq<World>, steps: seq<Step>, i: nat, a: Identity, b: Identity)
    requires IsRun(trace, steps) && i < |trace| && trace[i].record.Some? && a != b
    ensures var s := trace[i].record.value;
            Live(trace[i].uid, s, a) && Live(trace[i].uid, s, b) ==>
              a.node != b.node && (Overtaken(s, a) || Overtaken(s, b))
    ensures a in trace[i].runtime && b in trace[i].runtime ==>
              a.node != b.node && (Overtaken(trace[i].record.value, a) || Overtaken(trace[i].record.value, b))
  {
    RunKeeps(trace, steps, i);
    var w := trace[i];
    if a in w.runtime && b in w.runtime {
      WhatRunsIsLive(w, a);
      WhatRunsIsLive(w, b);
    }
    if Live(w.uid, w.record.value, a) && Live(w.uid, w.record.value, b) {
      LiveOverlap(w, a, b);
    }
  }

  // ------------------------------------------------------------- the fence

  predicate Holds(w: World, id: Identity) {
    w.record.Some? && id.uid == w.uid && id.node != "" && w.record.value.node == id.node && w.record.value.generation == id.generation
  }

  /** `id` was the held assignment at some time and is not any more. */
  predicate Passed(w: World, id: Identity) {
    w.record.None? || w.record.value.generation > id.generation
    || (w.record.value.generation == id.generation && w.record.value.node != id.node)
  }

  lemma StepMovesOn(w: World, step: Step, id: Identity)
    requires Inv(w) && Enabled(w, step) && id.node != ""
    ensures Next(w, step).uid == w.uid
    ensures Passed(w, id) ==> Passed(Next(w, step), id)
    ensures Holds(w, id) ==> Holds(Next(w, step), id) || Passed(Next(w, step), id)
  {
  }

  /** Over every run, a fence that stopped being current never is again: the
      generation tells A, then B, then A again apart. */
  lemma {:induction false} FenceNeverReturns(trace: seq<World>, steps: seq<Step>, id: Identity, i: nat, j: nat, k: nat)
    requires IsRun(trace, steps) && i <= j <= k < |trace|
    requires Holds(trace[i], id) && Holds(trace[k], id)
    ensures Holds(trace[j], id)
    decreases k - i
  {
    if i < j {
      RunKeeps(trace, steps, i);
      StepMovesOn(trace[i], steps[i], id);
      if Passed(trace[i + 1], id) {
        PassedStays(trace, steps, id, i + 1, k);
      } else {
        FenceNeverReturns(trace, steps, id, i + 1, j, k);
      }
    }
  }

  lemma {:induction false} PassedStays(trace: seq<World>, steps: seq<Step>, id: Identity, i: nat, k: nat)
    requires IsRun(trace, steps) && i <= k < |trace| && Passed(trace[i], id) && id.node != ""
    ensures Passed(trace[k], id)
    decreases k - i
  {
    if i < k {
      RunKeeps(trace, steps, i);
      StepMovesOn(trace[i], steps[i], id);
      PassedStays(trace, steps, id, i + 1, k);
    }
  }

  /** Nothing owed is forgotten: an unresolved assignment is handed to its own
      Node's agent as a task, unless that Node holds the current assignment, and
      then it is the current one. */
  lemma EveryDebtHasAnOwner(trace: seq<World>, steps: seq<Step>, i: nat, id: Identity)
    requires IsRun(trace, steps) && i < |trace| && trace[i].record.Some?
    requires Live(trace[i].uid, trace[i].record.value, id)
    ensures id in TasksFor(trace[i].record.value, trace[i].uid, id.node) || Holds(trace[i], id)
  {
    RunKeeps(trace, steps, i);
    var w := trace[i];
    var s := w.record.value;
    if !Holds(w, id) {
      var k :| 0 <= k < |s.obligations| && s.obligations[k].assignment == id && !s.obligations[k].Resolved();
      assert EntryOk(w.uid, s.obligations[k], s.generation, w.closed);
      assert IsTask(s.obligations[k], w.uid, id.node);
    }
  }

  /** A phase changes only along an edge of the writer that changes it. */
  function WriterOf(step: Step): Writer {
    match step
    case Schedule(_) => Scheduler
    case Release(_, _, _, _, _) => Rescheduler
    case MoveFailed(_, _, _) => FailedRescheduler
    case TakeOver(_, _, _) => TakeoverOperator
    case Delete(_) => DeleteAPI
    case _ => Agent
  }

  lemma PhasesBelongToWriters(uid: string, s: Status, step: Step)
    ensures var write := ServerWrite(uid, s, step);
            write.Written? && write.status.phase != s.phase ==>
              PhaseTransitionAllowed(WriterOf(step), s.phase, write.status.phase)
  {
  }
}
