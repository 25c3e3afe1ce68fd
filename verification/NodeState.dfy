/** The reboot and update annotations of a Node, the merge patches the controller writes
    and the guards they are written under (internal/nodestate/state.go, update.go, and the
    guards of internal/features/reboot and internal/api). */
module NodeState {
  import opened Wrappers

  /** An annotation as `Parse` sees it. A corrupt one is present and has no readable field. */
  datatype Annotation<+T> = Absent | Corrupt | Parsed(value: T)

  /** `reboot-state` accepts any name; only the first five are ever written. */
  datatype Lifecycle = Requested | Draining | Rebooting | Completed | Failed | Unknown(name: string)

  datatype StateRecord = StateRecord(phase: Lifecycle, since: int)

  datatype RequestRecord = RequestRecord(id: string, requester: string, force: bool)

  type BootId = nat

  datatype ExecRecord = ExecRecord(issuedAt: int, bootId: BootId, attempt: int, confirmedAt: Option<int>)

  datatype StatusRecord = StatusRecord(blockedBy: Option<seq<string>>, error: string, cordonedPrev: Option<bool>)

  datatype Node = Node(
    state: Annotation<StateRecord>,
    request: Annotation<RequestRecord>,
    exec: Annotation<ExecRecord>,
    status: Annotation<StatusRecord>,
    nextKernel: Option<string>,
    lastCheck: Annotation<int>,
    unschedulable: bool,
    ready: bool,
    controlPlane: bool)

  /* ---- Merge patches ------------------------------------------------------------------ */

  /** One member of a merge patch (section 2 of RFC 7386): left out, null, or a value. */
  datatype Field<+T> = Keep | Remove | Put(value: T)

  datatype Patch = Patch(
    state: Field<StateRecord>,
    request: Field<RequestRecord>,
    exec: Field<ExecRecord>,
    status: Field<StatusRecord>,
    nextKernel: Field<string>,
    lastCheck: Field<int>,
    unschedulable: Option<bool>)

  const NO_CHANGE := Patch(Keep, Keep, Keep, Keep, Keep, Keep, None)

  function Merge<T>(current: Annotation<T>, field: Field<T>): Annotation<T> {
    match field
    case Keep => current
    case Remove => Absent
    case Put(v) => Parsed(v)
  }

  function Apply(n: Node, p: Patch): Node {
    Node(
      Merge(n.state, p.state),
      Merge(n.request, p.request),
      Merge(n.exec, p.exec),
      Merge(n.status, p.status),
      match p.nextKernel { case Keep => n.nextKernel case Remove => None case Put(v) => Some(v) },
      Merge(n.lastCheck, p.lastCheck),
      if p.unschedulable.Some? then p.unschedulable.value else n.unschedulable,
      n.ready,
      n.controlPlane)
  }

  /** `None`: the transition's precondition does not hold on this node. */
  type Build = Node -> Option<Patch>

  /** What a transition leaves that nobody disturbs. */
  function Written(n: Node, build: Build): Node {
    if build(n).Some? then Apply(n, build(n).value) else n
  }

  /* ---- Reading ------------------------------------------------------------------------ */

  predicate InPhase(n: Node, phase: Lifecycle) {
    n.state.Parsed? && n.state.value.phase == phase
  }

  predicate InFlight(n: Node) {
    n.state.Corrupt? || InPhase(n, Draining) || InPhase(n, Rebooting)
  }

  predicate ReRequestable(n: Node) {
    n.state.Absent? || InPhase(n, Completed) || InPhase(n, Failed)
  }

  predicate Forced(n: Node) {
    n.request.Parsed? && n.request.value.force
  }

  predicate CordonedPrevKnownAbsent(n: Node) {
    match n.status
    case Absent => true
    case Corrupt => false
    case Parsed(s) => s.cordonedPrev.None?
  }

  /** The status says that the node was cordoned before the reboot. */
  predicate KeepsCordon(n: Node) {
    n.status.Parsed? && n.status.value.cordonedPrev == Some(true)
  }

  /** The leader's rule also uncordons when the field is present and false. */
  predicate UncordonAllowed(n: Node) {
    match n.status
    case Absent => true
    case Corrupt => false
    case Parsed(s) => s.cordonedPrev != Some(true)
  }

  /** A `next-kernel` value: six to twenty digits. */
  predicate WellFormedVersion(v: string) {
    6 <= |v| <= 20 && forall i :: 0 <= i < |v| ==> '0' <= v[i] <= '9'
  }

  /* ---- The shared status value --------------------------------------------------------- */

  /** `StatusValue`: empty lists are left out; nothing left to say removes the key. */
  function StatusField(s: StatusRecord): Field<StatusRecord> {
    if s.blockedBy.None? && s.error == "" && s.cordonedPrev.None? then Remove
    else Put(s.(blockedBy := if s.blockedBy == Some([]) then None else s.blockedBy))
  }

  function ReadStatus(status: Annotation<StatusRecord>): StatusRecord {
    if status.Parsed? then status.value else StatusRecord(None, "", None)
  }

  /** `MergeStatus`: parse the fresh value, change some fields, write the whole value back. */
  function MergeStatus(current: Annotation<StatusRecord>, mutate: StatusRecord -> StatusRecord): Field<StatusRecord> {
    StatusField(mutate(ReadStatus(current)))
  }

  /* ---- Patches ------------------------------------------------------------------------- */

  function AdmissionPatch(since: int, id: string, requester: string, force: bool): Patch {
    NO_CHANGE.(state := Put(StateRecord(Requested, since)), request := Put(RequestRecord(id, requester, force)),
    exec := Remove, status := Remove)
  }

  function ClearPatch(uncordon: bool): Patch {
    NO_CHANGE.(state := Remove, request := Remove, exec := Remove, status := Remove,
    unschedulable := if uncordon then Some(false) else None)
  }

  function ToDrainingPatch(now: int, status: Annotation<StatusRecord>, wasCordoned: bool): Patch {
    NO_CHANGE.(
    state := Put(StateRecord(Draining, now)),
    status := MergeStatus(status, (s: StatusRecord) =>
      s.(blockedBy := None, cordonedPrev := if wasCordoned then Some(true) else s.cordonedPrev)),
    unschedulable := Some(true))
  }

  function ToFailedPatch(now: int, status: Annotation<StatusRecord>, error: string): Patch {
    NO_CHANGE.(
    state := Put(StateRecord(Failed, now)),
    status := MergeStatus(status, (s: StatusRecord) => s.(error := error)))
  }

  function PhasePatch(phase: Lifecycle, now: int): Patch {
    NO_CHANGE.(state := Put(StateRecord(phase, now)))
  }

  const UNCORDON := NO_CHANGE.(unschedulable := Some(false))

  /* ---- Guarded transitions: the BuildFuncs of every writer ------------------------------ */

  /** POST /reboots. */
  function AdmitBuild(now: int, id: string, requester: string, force: bool): Build {
    (n: Node) => if ReRequestable(n) then Some(AdmissionPatch(now, id, requester, force)) else None
  }

  /** The update pod's own request. */
  function EnqueueBuild(now: int, id: string, goal: string, running: string): Build {
    (n: Node) =>
      if n.state.Absent? && n.nextKernel == Some(goal) && WellFormedVersion(goal) && goal != running
      then Some(AdmissionPatch(now, id, "controller", false))
      else None
  }

  /** Re-arm: forget a completed reboot. */
  function RearmBuild(): Build {
    (n: Node) => if InPhase(n, Completed) then Some(ClearPatch(false)) else None
  }

  /** DELETE /reboots/{node}. */
  function DeleteBuild(): Build {
    (n: Node) =>
      if n.state.Absent? || InPhase(n, Draining) then None
      else if InPhase(n, Rebooting) || InPhase(n, Completed) || InPhase(n, Failed)
      then Some(ClearPatch(CordonedPrevKnownAbsent(n)))
      else Some(ClearPatch(false))
  }

  /** Leader: requested to draining, with the cordon. */
  function DrainBuild(now: int): Build {
    (n: Node) => if InPhase(n, Requested) then Some(ToDrainingPatch(now, n.status, n.unschedulable)) else None
  }

  /** Leader: `transition` from one phase to the next. */
  function AdvanceBuild(from: Lifecycle, to: Lifecycle, now: int): Build {
    (n: Node) => if InPhase(n, from) then Some(PhasePatch(to, now)) else None
  }

  /** Leader (from draining) or local pod (from rebooting): state and error in one patch. */
  function FailBuild(from: Lifecycle, now: int, error: string): Build {
    (n: Node) => if InPhase(n, from) then Some(ToFailedPatch(now, n.status, error)) else None
  }

  /** Leader: report the budgets that block a requested node. */
  function BlockedByBuild(blocked: seq<string>): Build {
    (n: Node) =>
      if InPhase(n, Requested)
      then Some(NO_CHANGE.(status := MergeStatus(n.status, (s: StatusRecord) => s.(blockedBy := Some(blocked)))))
      else None
  }

  /** Leader: the idempotent uncordon re-reads nothing but the cordon. */
  function UncordonBuild(): Build {
    (n: Node) => if n.unschedulable then Some(UNCORDON) else None
  }

  /** Local pod: `guardedExecPatch`. */
  function ExecBuild(guard: Annotation<ExecRecord> -> bool, e: ExecRecord): Build {
    (n: Node) => if InPhase(n, Rebooting) && guard(n.exec) then Some(NO_CHANGE.(exec := Put(e))) else None
  }

  /** Update pod: the conditional writes of `next-kernel`. */
  function NextKernelBuild(version: string, precond: Option<string> -> bool): Build {
    (n: Node) => if precond(n.nextKernel) then Some(NO_CHANGE.(nextKernel := Put(version))) else None
  }

  function CorrectGoalBuild(bad: string, target: Option<string>): Build {
    (n: Node) =>
      if n.nextKernel == Some(bad)
      then Some(NO_CHANGE.(nextKernel := if target.Some? then Put(target.value) else Remove))
      else None
  }

  /** Update pod: claim a check occurrence unless it or a newer one is already claimed. */
  function ClaimBuild(occurrence: int): Build {
    (n: Node) =>
      if n.lastCheck.Parsed? && occurrence <= n.lastCheck.value then None
      else Some(NO_CHANGE.(lastCheck := Put(occurrence)))
  }

  /* ---- What the writes leave --------------------------------------------------------------- */

  /** The phase, when there is a readable state. */
  function PhaseOf(n: Node): Option<Lifecycle> {
    if n.state.Parsed? then Some(n.state.value.phase) else None
  }

  /** Nothing of a reboot is left on the node. */
  predicate NoReboot(n: Node) {
    n.state.Absent? && n.request.Absent? && n.exec.Absent? && n.status.Absent?
  }

  /** `n` with another reboot on it, or none, and nothing else changed. */
  predicate OnlyRebootDiffers(n: Node, after: Node) {
    after == n.(state := after.state, request := after.request, exec := after.exec, status := after.status)
  }

  /** A request is admitted where there is no reboot, or a finished one, and starts afresh. */
  lemma AdmissionMeans(n: Node, now: int, id: string, requester: string, force: bool)
    ensures var after := Written(n, AdmitBuild(now, id, requester, force));
            if n.state.Absent? || PhaseOf(n) in {Some(Completed), Some(Failed)} then
              && OnlyRebootDiffers(n, after) && after.state == Parsed(StateRecord(Requested, now))
              && after.request == Parsed(RequestRecord(id, requester, force)) && after.exec.Absent? && after.status.Absent?
            else after == n
  {
  }

  /** A deletion clears everything, but for a draining node and one without a state. It uncordons
      only a node that got past draining, and only when the status does not say that it may have
      been cordoned before. */
  lemma DeletionMeans(n: Node)
    ensures var after := Written(n, DeleteBuild());
            if n.state.Absent? || PhaseOf(n) == Some(Draining) then after == n
            else
              && NoReboot(after) && OnlyRebootDiffers(n, after.(unschedulable := n.unschedulable))
              && after.unschedulable == (n.unschedulable
                 && !(PhaseOf(n) in {Some(Rebooting), Some(Completed), Some(Failed)}
                      && (n.status.Absent? || (n.status.Parsed? && n.status.value.cordonedPrev.None?))))
  {
  }

  /** The drain begins with the cordon, and remembers whether there was one before. */
  lemma DrainingMeans(n: Node, now: int)
    requires PhaseOf(n) == Some(Requested)
    ensures var after := Written(n, DrainBuild(now));
            && after.state == Parsed(StateRecord(Draining, now)) && after.unschedulable
            && after == n.(state := after.state, status := after.status, unschedulable := true)
            && (n.unschedulable ==> after.status.Parsed? && after.status.value.cordonedPrev == Some(true))
            && (!n.unschedulable && n.status.Absent? ==> after.status.Absent?)
            && (after.status.Parsed? ==> after.status.value.blockedBy.None?)
  {
  }

  /** A failure is recorded with its reason and forgets nothing of the status. */
  lemma FailingMeans(n: Node, from: Lifecycle, now: int, error: string)
    requires PhaseOf(n) == Some(from) && error != ""
    ensures var after := Written(n, FailBuild(from, now, error));
            && after.state == Parsed(StateRecord(Failed, now)) && after == n.(state := after.state, status := after.status)
            && after.status.Parsed? && after.status.value.error == error
            && (n.status.Parsed? ==> after.status.value.cordonedPrev == n.status.value.cordonedPrev)
  {
  }

  /** The update pod's writes: a request of its own for a goal the node does not run, on a node
      without one; a completed reboot forgotten, the cordon left as it is. */
  lemma UpdatePodMeans(n: Node, now: int, id: string, goal: string, running: string)
    ensures var after := Written(n, EnqueueBuild(now, id, goal, running));
            if n.state.Absent? && n.nextKernel == Some(goal) && WellFormedVersion(goal) && goal != running then
              && OnlyRebootDiffers(n, after) && after.state == Parsed(StateRecord(Requested, now))
              && after.request == Parsed(RequestRecord(id, "controller", false)) && after.exec.Absent? && after.status.Absent?
            else after == n
    ensures var after := Written(n, RearmBuild());
            if PhaseOf(n) == Some(Completed) then NoReboot(after) && OnlyRebootDiffers(n, after) else after == n
  {
  }

  /** Blockers are noted on a requested node only, and nothing else is touched. */
  lemma BlockingMeans(n: Node, blocked: seq<string>)
    ensures var after := Written(n, BlockedByBuild(blocked));
            if PhaseOf(n) != Some(Requested) then after == n
            else
              && after == n.(status := after.status) && !after.status.Corrupt?
              && (blocked != [] ==> after.status.Parsed? && after.status.value.blockedBy == Some(blocked))
              && (blocked == [] && after.status.Parsed? ==> after.status.value.blockedBy.None?)
              && (n.status.Parsed? && after.status.Parsed? ==>
                    && after.status.value.error == n.status.value.error
                    && after.status.value.cordonedPrev == n.status.value.cordonedPrev)
  {
  }

  /** A goal is six to twenty digits. */
  lemma WellFormedMeans(v: string)
    ensures |v| < 6 || |v| > 20 ==> !WellFormedVersion(v)
    ensures WellFormedVersion("202501010000") && !WellFormedVersion("2025-01-01")
  {
    assert "2025-01-01"[4] == '-';
  }

  /* ---- Lifecycle edges ------------------------------------------------------------------ */

  /** Who moves the state, for the edges of the lifecycle diagram. */
  datatype Actor = Api | Leader | Executor | UpdatePod

  predicate Documented(actor: Actor, from: Annotation<StateRecord>, to: Annotation<StateRecord>) {
    || from == to
    || (match actor
        case Api =>
          || (to.Absent? && !(from.Parsed? && from.value.phase == Draining))
          || (&& to.Parsed? && to.value.phase == Requested
              && (from.Absent? || (from.Parsed? && from.value.phase in {Completed, Failed})))
        case UpdatePod =>
          || (from.Absent? && to.Parsed? && to.value.phase == Requested)
          || (from.Parsed? && from.value.phase == Completed && to.Absent?)
        case Leader =>
          && from.Parsed? && to.Parsed?
          && (from.value.phase, to.value.phase) in
             {(Requested, Draining), (Draining, Rebooting), (Draining, Failed), (Rebooting, Completed)}
        case Executor =>
          from.Parsed? && to.Parsed? && from.value.phase == Rebooting && to.value.phase == Failed)
  }

  /** Every build an actor passes to `PatchTransition` (or patches in its own loop). */
  ghost predicate Issues(actor: Actor, build: Build) {
    match actor
    case Api =>
      || build == DeleteBuild()
      || (exists now, id, requester, force :: build == AdmitBuild(now, id, requester, force))
    case UpdatePod =>
      || build == RearmBuild()
      || (exists now, id, goal, running :: build == EnqueueBuild(now, id, goal, running))
      || (exists version, precond :: build == NextKernelBuild(version, precond))
      || (exists bad, target :: build == CorrectGoalBuild(bad, target))
      || (exists occurrence :: build == ClaimBuild(occurrence))
    case Leader =>
      || build == UncordonBuild()
      || (exists now :: build == DrainBuild(now))
      || (exists now :: build == AdvanceBuild(Draining, Rebooting, now))
      || (exists now :: build == AdvanceBuild(Rebooting, Completed, now))
      || (exists now, error :: build == FailBuild(Draining, now, error))
      || (exists blocked :: build == BlockedByBuild(blocked))
    case Executor =>
      || (exists guard, e :: build == ExecBuild(guard, e))
      || (exists now, error :: build == FailBuild(Rebooting, now, error))
  }

  /** One guarded write moves the state along a documented edge or leaves it alone. */
  lemma WritesFollowTheDiagram(actor: Actor, build: Build, n: Node)
    requires Issues(actor, build) && build(n).Some?
    ensures Documented(actor, n.state, Apply(n, build(n).value).state)
  {
  }

  /** A value written by `MergeStatus` and merged again keeps every field the second writer
      did not touch: the read-modify-write discipline loses nothing. */
  lemma StatusSurvivesRewrite(status: Annotation<StatusRecord>, error: string, blocked: seq<string>)
    ensures var failed := Merge(status, MergeStatus(status, (s: StatusRecord) => s.(error := error)));
            && ReadStatus(failed).cordonedPrev == ReadStatus(status).cordonedPrev
            && ReadStatus(failed).error == error
    ensures var noted := Merge(status, MergeStatus(status, (s: StatusRecord) => s.(blockedBy := Some(blocked))));
            && ReadStatus(noted).cordonedPrev == ReadStatus(status).cordonedPrev
            && ReadStatus(noted).error == ReadStatus(status).error
            && ReadStatus(noted).blockedBy == (if blocked == [] then None else Some(blocked))
    ensures var drained := Apply(Node(Absent, Absent, Absent, status, None, Absent, true, true, true),
                                 ToDrainingPatch(0, status, true));
            ReadStatus(drained.status) == StatusRecord(None, ReadStatus(status).error, Some(true))
  {
  }
}
