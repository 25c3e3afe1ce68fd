/** The reboot protocol as a state machine: one leader, one executor pod per node, the HTTP
    API, the update pods, the operator and the hosts all act on the same node objects
    (internal/features/reboot, internal/api, internal/nodestate).

    A write is one atomic guarded step, which is what `Store.NodeStore.PatchTransition` was
    shown to be; the read a decision was based on is an earlier step, so views go stale.
    Request numbers, boot numbers, journals and sightings are history: no decision reads them. */
module RebootWorld {
  import opened Wrappers
  import opened NodeState

  type Name = string

  /** The executor pod between its read of the node and its last action; it samples the clock
      after the read. */
  datatype LocalPhase =
    | LocalIdle
    | Looking(view: Node, request: nat)
    | Deciding(view: Node, now: int, request: nat)
    | Issuing(request: nat, attempt: nat)
    | Reporting(error: string)

  /** A node of the cluster: its object, its host and the pod on it. `request` numbers the
      request the annotations belong to (0: none); `cordoned` says whether the node was
      already cordoned when that request was admitted to draining. */
  datatype Member = Member(node: Node, bootId: BootId, local: LocalPhase, request: nat, cordoned: bool)

  datatype View = View(node: Node, request: nat)

  /** The leader's cycle: list, sample the clock, manage each node, list again, admit. */
  datatype LeaderPhase =
    | LeaderIdle
    | Listed(views: map<Name, View>)
    | Managing(views: map<Name, View>, now: int)
    | Admitting(queue: map<Name, Node>, now: int)

  /** A reboot command that was started: for which announcement, on which boot. */
  datatype Command = Command(attempt: nat, bootId: BootId)

  /** What happened for one request: the exec records announcing a command, as first
      written, and the commands that were started. */
  datatype Journal = Journal(name: Name, records: seq<ExecRecord>, commands: seq<Command>)

  /** The leader's clock read `at` after it had listed the node as NotReady, with the exec
      record of `request` for `attempt`, issued at `issuedAt`. */
  datatype Sighting = Sighting(name: Name, request: nat, attempt: int, issuedAt: int, at: int)

  datatype World = World(
    clock: int,
    members: map<Name, Member>,
    leader: LeaderPhase,
    notReadyAfter: map<Name, Sighting>,
    journals: map<nat, Journal>,
    sightings: set<Sighting>,
    nextRequest: nat,
    nextBoot: BootId,
    grace: int,
    limit: int)

  datatype DrainOutcome = DrainPending | DrainDone | DrainFailed(error: string)

  datatype Step =
    // surroundings
    | Tick(to: int)
    | Join(name: Name, node: Node)
    | Leave(name: Name)
    | Kubelet(name: Name, ready: bool)
    | OperatorEdit(name: Name, unschedulable: bool, nextKernel: Option<string>)
    | HostReboot(name: Name)
    | PodRestart(name: Name)
    // API
    | ApiAdmit(name: Name, since: int, id: string, requester: string, force: bool)
    | ApiDelete(name: Name)
    // update pod
    | PodEnqueue(name: Name, since: int, id: string, goal: string, running: string)
    | PodRearm(name: Name)
    // executor pod
    | LocalRead(name: Name)
    | LocalClock(name: Name)
    | LocalWrite(name: Name, delivered: bool, answered: bool)
    | LocalStart(name: Name, starts: bool)
    | LocalReport(name: Name, delivered: bool)
    // leader
    | LeaderList
    | LeaderClock
    | LeaderManage(name: Name, drain: DrainOutcome, delivered: bool)
    | LeaderRelist
    | LeaderBlocked(name: Name, blocked: seq<string>)
    | LeaderAdmit(name: Name, delivered: bool)
    | LeaderRest
    | LeaderSuccession(memory: map<Name, Sighting>)

  /* ---- Pieces -------------------------------------------------------------------------- */

  function SetMember(w: World, name: Name, m: Member): World {
    w.(members := w.members[name := m])
  }

  function SetNode(w: World, name: Name, node: Node): World
    requires name in w.members
  {
    SetMember(w, name, w.members[name].(node := node))
  }

  /** A node as it enters the cluster carries no reboot annotation. */
  predicate Untouched(n: Node) {
    n.state.Absent? && n.request.Absent? && n.exec.Absent? && n.status.Absent?
  }

  predicate PastRequested(n: Node) {
    InPhase(n, Draining) || InPhase(n, Rebooting) || InPhase(n, Completed) || InPhase(n, Failed)
  }

  /** What `runLocal` decides from its view of a rebooting node. */
  datatype LocalPlan = Wait | Announce(exec: ExecRecord) | AnnounceAgain(exec: ExecRecord) | Confirm(exec: ExecRecord) | GiveUp

  function Plan(exec: Annotation<ExecRecord>, bootId: BootId, now: int, grace: int): LocalPlan {
    match exec
    case Absent => Announce(ExecRecord(now, bootId, 1, None))
    case Corrupt => Wait
    case Parsed(e) =>
      if e.bootId == bootId then
        if e.attempt == 1 && now <= e.issuedAt + grace then AnnounceAgain(ExecRecord(now, bootId, 2, None))
        else if e.issuedAt + grace < now then GiveUp
        else Wait
      else if e.confirmedAt.None? then Confirm(e.(confirmedAt := Some(now)))
      else Wait
  }

  /** The guard is evaluated on the fresh node at a later clock. A missing record makes the
      last two guards panic in the pod: nothing is written. */
  function LocalGuard(plan: LocalPlan, bootId: BootId, clock: int, grace: int): Annotation<ExecRecord> -> bool {
    match plan
    case Announce(_) => (e: Annotation<ExecRecord>) => e.Absent?
    case AnnounceAgain(_) =>
      (e: Annotation<ExecRecord>) =>
        e.Parsed? && e.value.attempt == 1 && e.value.bootId == bootId && clock <= e.value.issuedAt + grace
    case Confirm(_) => (e: Annotation<ExecRecord>) => e.Parsed? && e.value.confirmedAt.None?
    case _ => (e: Annotation<ExecRecord>) => false
  }

  function LocalBuild(plan: LocalPlan, bootId: BootId, clock: int, grace: int): Build {
    match plan
    case Wait => (n: Node) => None
    case GiveUp => FailBuild(Rebooting, clock, "reboot did not take effect")
    case _ => ExecBuild(LocalGuard(plan, bootId, clock, grace), plan.exec)
  }

  /** The pod's guarded write: the node and phase it leaves, and the record it announced. A
      command may follow only an announcement whose success the pod has seen. */
  function LocalOutcome(m: Member, clock: int, grace: int, delivered: bool, answered: bool): (Member, Option<ExecRecord>)
    requires m.local.Deciding?
  {
    var plan := Plan(m.local.view.exec, m.bootId, m.local.now, grace);
    var build := LocalBuild(plan, m.bootId, clock, grace);
    if delivered && build(m.node).Some? then
      if plan.Announce? || plan.AnnounceAgain? then
        (m.(node := Written(m.node, build),
            local := if answered then Issuing(m.request, plan.exec.attempt) else LocalIdle), Some(plan.exec))
      else
        (m.(node := Written(m.node, build), local := LocalIdle), None)
    else
      (m.(local := LocalIdle), None)
  }

  predicate Evidence(view: Node, memory: Option<Sighting>) {
    && view.exec.Parsed?
    && (|| view.exec.value.confirmedAt.Some?
        || (memory.Some? && view.exec.value.issuedAt < memory.value.at))
  }

  /** What `manageNode` patches, from the listed view and the leader's memory. */
  function LeaderBuild(view: Node, memory: Option<Sighting>, now: int, clock: int, drain: DrainOutcome): Build {
    if InPhase(view, Draining) then
      match drain
      case DrainPending => (n: Node) => None
      case DrainDone => AdvanceBuild(Draining, Rebooting, now)
      case DrainFailed(error) => FailBuild(Draining, clock, error)
    else if InPhase(view, Rebooting) then
      if view.ready && Evidence(view, memory) then AdvanceBuild(Rebooting, Completed, now) else (n: Node) => None
    else if (InPhase(view, Completed) || InPhase(view, Failed)) && view.unschedulable && UncordonAllowed(view) then
      UncordonBuild()
    else
      (n: Node) => None
  }

  function Remembered(w: World, name: Name): Option<Sighting> {
    if name in w.notReadyAfter then Some(w.notReadyAfter[name]) else None
  }

  predicate SeesNotReady(view: Node, now: int) {
    InPhase(view, Rebooting) && view.exec.Parsed? && !view.ready && view.exec.value.issuedAt < now
  }

  function SightingOf(x: Name, view: View, now: int): Sighting
    requires view.node.exec.Parsed?
  {
    Sighting(x, view.request, view.node.exec.value.attempt, view.node.exec.value.issuedAt, now)
  }

  function WithSighting(w: World, s: Sighting): World {
    w.(notReadyAfter := w.notReadyAfter[s.name := s], sightings := w.sightings + {s})
  }

  function JournalOf(journals: map<nat, Journal>, x: Name, request: nat): Journal {
    if request in journals then journals[request] else Journal(x, [], [])
  }

  function Announcing(journals: map<nat, Journal>, x: Name, request: nat, e: ExecRecord): map<nat, Journal> {
    var j := JournalOf(journals, x, request);
    journals[request := j.(records := j.records + [e])]
  }

  function Starting(journals: map<nat, Journal>, x: Name, request: nat, c: Command): map<nat, Journal> {
    var j := JournalOf(journals, x, request);
    journals[request := j.(commands := j.commands + [c])]
  }

  function InFlightNames(nodes: map<Name, Node>): set<Name> {
    set x | x in nodes && InFlight(nodes[x])
  }

  function ControlPlanesInFlight(nodes: map<Name, Node>): set<Name> {
    set x | x in nodes && InFlight(nodes[x]) && nodes[x].controlPlane
  }

  function Nodes(w: World): map<Name, Node> {
    map x | x in w.members :: w.members[x].node
  }

  /* ---- Steps --------------------------------------------------------------------------- */

  predicate Init(w: World) {
    && w.leader == LeaderIdle && w.notReadyAfter == map[]
    && w.journals == map[] && w.sightings == {} && 0 < w.nextRequest
    && forall x :: x in w.members ==>
         && Untouched(w.members[x].node) && w.members[x].bootId < w.nextBoot
         && w.members[x].local == LocalIdle && w.members[x].request == 0 && !w.members[x].cordoned
  }

  /** The leader's step on a node whose view is still what is stored, when its write arrives. */
  ghost predicate Manages(w: World, x: Name, drain: DrainOutcome, w': World) {
    && w.leader.Managing? && x in w.leader.views && x in w.members && w.leader.views[x].node == w.members[x].node
    && Next(w, LeaderManage(x, drain, true), w')
  }

  /** A draining node moves with its drain. */
  lemma DrainingManaged(w: World, x: Name, drain: DrainOutcome, w': World)
    requires Manages(w, x, drain, w') && PhaseOf(w.members[x].node) == Some(Draining)
    ensures x in w'.members
    ensures var n, n' := w.members[x].node, w'.members[x].node;
            match drain
            case DrainPending => w'.members == w.members
            case DrainDone => n' == n.(state := Parsed(StateRecord(Rebooting, w.leader.now)))
            case DrainFailed(error) => n' == Written(n, FailBuild(Draining, w.clock, error)) && PhaseOf(n') == Some(Failed)
  {
  }

  /** A reboot is over when the node is ready and either the pod confirmed another boot or the
      leader saw the node NotReady after the record was issued; while it is not ready that
      sighting is made. */
  lemma RebootingManaged(w: World, x: Name, drain: DrainOutcome, w': World)
    requires Manages(w, x, drain, w') && PhaseOf(w.members[x].node) == Some(Rebooting)
    ensures x in w'.members
    ensures var n, exec := w.members[x].node, w.members[x].node.exec;
            var seen := x in w.notReadyAfter && exec.Parsed? && exec.value.issuedAt < w.notReadyAfter[x].at;
            w'.members[x].node == if n.ready && exec.Parsed? && (exec.value.confirmedAt.Some? || seen)
                                  then n.(state := Parsed(StateRecord(Completed, w.leader.now))) else n
    ensures var n, exec := w.members[x].node, w.members[x].node.exec;
            if !n.ready && exec.Parsed? && exec.value.issuedAt < w.leader.now
            then x in w'.notReadyAfter && w'.notReadyAfter[x].at == w.leader.now
            else w'.notReadyAfter == w.notReadyAfter
  {
  }

  /** A finished node is uncordoned, unless it was cordoned before or the status cannot tell. */
  lemma FinishedManaged(w: World, x: Name, drain: DrainOutcome, w': World)
    requires Manages(w, x, drain, w') && PhaseOf(w.members[x].node) in {Some(Completed), Some(Failed)}
    ensures x in w'.members
    ensures var n := w.members[x].node;
            var before := n.status.Corrupt? || (n.status.Parsed? && n.status.value.cordonedPrev == Some(true));
            w'.members[x].node == n.(unschedulable := n.unschedulable && before)
  {
  }

  lemma OtherwiseUnmanaged(w: World, x: Name, drain: DrainOutcome, w': World)
    requires Manages(w, x, drain, w')
    requires PhaseOf(w.members[x].node) !in {Some(Draining), Some(Rebooting), Some(Completed), Some(Failed)}
    ensures w'.members == w.members && w'.notReadyAfter == w.notReadyAfter
  {
  }

  predicate BySurroundings(step: Step) {
    step.Tick? || step.Join? || step.Leave? || step.Kubelet? || step.OperatorEdit? || step.HostReboot? || step.PodRestart?
  }

  /** The API and the update pod start and clear requests. */
  predicate ByRequests(step: Step) {
    step.ApiAdmit? || step.ApiDelete? || step.PodEnqueue? || step.PodRearm?
  }

  predicate ByExecutor(step: Step) {
    step.LocalRead? || step.LocalClock? || step.LocalWrite? || step.LocalStart? || step.LocalReport?
  }

  predicate ByLeader(step: Step) {
    !BySurroundings(step) && !ByRequests(step) && !ByExecutor(step)
  }

  ghost predicate SurroundingsNext(w: World, step: Step, w': World)
    requires BySurroundings(step)
  {
    match step
    case Tick(to) => w.clock <= to && w' == w.(clock := to)
    case Join(x, node) =>
      && x !in w.members && Untouched(node)
      && w' == SetMember(w, x, Member(node, w.nextBoot, LocalIdle, 0, false)).(nextBoot := w.nextBoot + 1)
    case Leave(x) => w' == w.(members := w.members - {x})
    case Kubelet(x, ready) =>
      x in w.members && w' == SetNode(w, x, w.members[x].node.(ready := ready))
    case OperatorEdit(x, unschedulable, nextKernel) =>
      && x in w.members
      && w' == SetNode(w, x, w.members[x].node.(unschedulable := unschedulable, nextKernel := nextKernel))
    case HostReboot(x) =>
      && x in w.members
      && w' == SetMember(w, x, w.members[x].(bootId := w.nextBoot, local := LocalIdle)).(nextBoot := w.nextBoot + 1)
    case PodRestart(x) =>
      x in w.members && w' == SetMember(w, x, w.members[x].(local := LocalIdle))
  }

  /** A new request starts: the annotations belong to it from now on. */
  function Requesting(w: World, x: Name, build: Build): World
    requires x in w.members
  {
    var m := w.members[x];
    SetMember(w, x, m.(node := Written(m.node, build), request := w.nextRequest, cordoned := false))
    .(nextRequest := w.nextRequest + 1, journals := w.journals[w.nextRequest := Journal(x, [], [])])
  }

  function Clearing(w: World, x: Name, build: Build): World
    requires x in w.members
  {
    var m := w.members[x];
    SetMember(w, x, m.(node := Written(m.node, build), request := 0, cordoned := false))
  }

  /** A step whose guard refuses does not happen: the call aborts without writing. */
  ghost predicate RequestNext(w: World, step: Step, w': World)
    requires ByRequests(step)
  {
    && step.name in w.members
    && var n := w.members[step.name].node;
       match step
       case ApiAdmit(x, since, id, requester, force) =>
         && AdmitBuild(since, id, requester, force)(n).Some?
         && w' == Requesting(w, x, AdmitBuild(since, id, requester, force))
       case PodEnqueue(x, since, id, goal, running) =>
         && EnqueueBuild(since, id, goal, running)(n).Some?
         && w' == Requesting(w, x, EnqueueBuild(since, id, goal, running))
       case ApiDelete(x) => DeleteBuild()(n).Some? && w' == Clearing(w, x, DeleteBuild())
       case PodRearm(x) => RearmBuild()(n).Some? && w' == Clearing(w, x, RearmBuild())
  }

  ghost predicate LocalNext(w: World, step: Step, w': World)
    requires ByExecutor(step)
  {
    && step.name in w.members
    && var x := step.name;
       var m := w.members[x];
       match step
       case LocalRead(_) =>
         && m.local.LocalIdle? && InPhase(m.node, Rebooting)
         && w' == SetMember(w, x, m.(local := Looking(m.node, m.request)))
       case LocalClock(_) =>
         && m.local.Looking?
         && w' == SetMember(w, x, m.(local := Deciding(m.local.view, w.clock, m.local.request)))
       case LocalWrite(_, delivered, answered) =>
         && m.local.Deciding?
         && var (m', announced) := LocalOutcome(m, w.clock, w.grace, delivered, answered);
            w' == SetMember(w, x, m').(journals :=
              if announced.Some? then Announcing(w.journals, x, m.request, announced.value) else w.journals)
       case LocalStart(_, starts) =>
         && m.local.Issuing?
         && w' == if starts
                  then SetMember(w, x, m.(local := LocalIdle))
                       .(journals := Starting(w.journals, x, m.local.request, Command(m.local.attempt, m.bootId)))
                  else SetMember(w, x, m.(local := Reporting("reboot command failed to start")))
       case LocalReport(_, delivered) =>
         && m.local.Reporting?
         && var build := FailBuild(Rebooting, w.clock, m.local.error);
            w' == SetMember(w, x, m.(local := LocalIdle,
                                     node := if delivered then Written(m.node, build) else m.node))
  }

  ghost predicate LeaderNext(w: World, step: Step, w': World)
    requires ByLeader(step)
  {
    match step
    case LeaderList =>
      && w.leader.LeaderIdle?
      && w' == w.(leader := Listed(map x | x in w.members :: View(w.members[x].node, w.members[x].request)))
    case LeaderClock => w.leader.Listed? && w' == w.(leader := Managing(w.leader.views, w.clock))
    case LeaderManage(x, drain, delivered) =>
      && w.leader.Managing? && x in w.leader.views
      && var view := w.leader.views[x];
         if SeesNotReady(view.node, w.leader.now) then
           w' == WithSighting(w, SightingOf(x, view, w.leader.now))
         else if x in w.members && delivered then
           w' == SetNode(w, x, Written(w.members[x].node,
                                       LeaderBuild(view.node, Remembered(w, x), w.leader.now, w.clock, drain)))
         else
           w' == w
    case LeaderRelist => w.leader.Managing? && w' == w.(leader := Admitting(Nodes(w), w.leader.now))
    case LeaderBlocked(x, blocked) =>
      && w.leader.Admitting? && x in w.members
      && w' == SetNode(w, x, Written(w.members[x].node, BlockedByBuild(blocked)))
    case LeaderAdmit(x, delivered) =>
      && w.leader.Admitting? && x in w.leader.queue && InPhase(w.leader.queue[x], Requested)
      && |InFlightNames(w.leader.queue)| < w.limit && |ControlPlanesInFlight(w.leader.queue)| < 1
      && (if !delivered || x !in w.members then w' == w.(leader := LeaderIdle)
          else if InPhase(w.members[x].node, Requested) then
            var m := w.members[x];
            w' == SetMember(w, x, m.(node := Written(m.node, DrainBuild(w.leader.now)), cordoned := m.node.unschedulable))
                  .(leader := LeaderIdle)
          else w' == w)
    case LeaderRest => w' == w.(leader := LeaderIdle)
    case LeaderSuccession(memory) =>
      // the next leader starts a cycle of its own, with whatever it once saw itself
      && (forall x :: x in memory ==> memory[x].name == x && memory[x] in w.sightings)
      && w' == w.(leader := LeaderIdle, notReadyAfter := memory)
  }

  ghost predicate Next(w: World, step: Step, w': World) {
    if BySurroundings(step) then SurroundingsNext(w, step, w')
    else if ByRequests(step) then RequestNext(w, step, w')
    else if ByExecutor(step) then LocalNext(w, step, w')
    else LeaderNext(w, step, w')
  }

  ghost predicate StepAt(worlds: seq<World>, steps: seq<Step>, i: nat)
    requires |worlds| == |steps| + 1 && i < |steps|
  {
    Next(worlds[i], steps[i], worlds[i + 1])
  }

  ghost predicate Run(worlds: seq<World>, steps: seq<Step>) {
    && |worlds| == |steps| + 1
    && Init(worlds[0])
    && forall i :: 0 <= i < |steps| ==> StepAt(worlds, steps, i)
  }
}
