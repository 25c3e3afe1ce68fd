/** What every step of the reboot protocol keeps about exec records and reboot commands. */
module RebootExecution {
  import opened Wrappers
  import opened NodeState
  import opened RebootWorld

  /* ---- Invariants ---------------------------------------------------------------------- */

  function Last<T>(s: seq<T>): T
    requires s != []
  {
    s[|s| - 1]
  }

  /** The exec annotation of the current request is the last record announced for it, with
      or without its confirmation. */
  predicate NodeOk(w: World, x: Name, m: Member) {
    && m.bootId < w.nextBoot && m.request < w.nextRequest
    && (m.node.state.Absent? <==> m.request == 0)
    && (m.node.state.Absent? || InPhase(m.node, Requested) || PastRequested(m.node))
    && !m.node.exec.Corrupt? && !m.node.status.Corrupt?
    && (m.node.exec.Parsed? ==> InPhase(m.node, Rebooting) || InPhase(m.node, Completed) || InPhase(m.node, Failed))
    && (m.request > 0 ==>
          && m.request in w.journals
          && var j := w.journals[m.request];
             && j.name == x
             && (m.node.exec.Parsed? <==> j.records != [])
             && (m.node.exec.Parsed? ==>
                   && m.node.exec.value.(confirmedAt := None) == Last(j.records)
                   && (m.node.exec.value.confirmedAt.Some? ==> m.bootId != m.node.exec.value.bootId)))
  }

  /** At most two announcements, numbered in order; every command has its announcement. */
  predicate JournalOk(w: World, request: nat, j: Journal) {
    && request < w.nextRequest
    && |j.commands| <= |j.records| <= 2
    && (forall i :: 0 <= i < |j.records| ==>
          && j.records[i].attempt == i + 1 && j.records[i].confirmedAt.None?
          && j.records[i].bootId < w.nextBoot && j.records[i].issuedAt <= w.clock)
    && (forall i :: 0 <= i < |j.commands| ==>
          && 1 <= j.commands[i].attempt <= |j.records|
          && j.records[j.commands[i].attempt - 1].bootId == j.commands[i].bootId)
  }

  /** Only this pod writes the record, so what it saw is what is there, or the request is gone. */
  predicate ViewOk(m: Member, view: Node, request: nat, now: int) {
    && InPhase(view, Rebooting) && !view.exec.Corrupt?
    && (view.exec.Absent? ==> m.node.exec.Absent?)
    && (view.exec.Parsed? ==>
          && view.exec.value.issuedAt <= now
          && (m.node.exec.Parsed? ==> m.node.exec == view.exec && m.request == request))
  }

  predicate LocalOk(w: World, x: Name, m: Member) {
    match m.local
    case LocalIdle => true
    case Reporting(_) => true
    case Looking(view, request) => ViewOk(m, view, request, w.clock)
    case Deciding(view, now, request) => now <= w.clock && ViewOk(m, view, request, now)
    case Issuing(request, attempt) =>
      && request in w.journals
      && var j := w.journals[request];
         && j.name == x && |j.commands| < |j.records|
         && attempt == |j.records| && Last(j.records).bootId == m.bootId
  }

  ghost predicate NodesOk(w: World) {
    forall x :: x in w.members ==> NodeOk(w, x, w.members[x])
  }

  ghost predicate LocalsOk(w: World) {
    forall x :: x in w.members ==> LocalOk(w, x, w.members[x])
  }

  ghost predicate JournalsOk(w: World) {
    forall r :: r in w.journals ==> JournalOk(w, r, w.journals[r])
  }

  ghost predicate ExecutionInv(w: World) {
    0 < w.nextRequest && NodesOk(w) && LocalsOk(w) && JournalsOk(w)
  }

  /* ---- Preservation -------------------------------------------------------------------- */

  /** Only node `x` and the journals of requests made on it changed. */
  predicate OnlyTouches(w: World, w': World, x: Name) {
    && w.clock <= w'.clock && w.nextBoot <= w'.nextBoot && w.nextRequest <= w'.nextRequest
    && (forall y :: y in w'.members && y != x ==> y in w.members && w'.members[y] == w.members[y])
    && (forall r :: r in w.journals ==>
          r in w'.journals && (w'.journals[r] == w.journals[r] || (w.journals[r].name == x && w'.journals[r].name == x)))
  }

  lemma OthersKept(w: World, w': World, x: Name)
    requires NodesOk(w) && LocalsOk(w) && OnlyTouches(w, w', x)
    requires x in w'.members ==> NodeOk(w', x, w'.members[x]) && LocalOk(w', x, w'.members[x])
    ensures NodesOk(w') && LocalsOk(w')
  {
    forall y | y in w'.members && y != x
      ensures NodeOk(w', y, w'.members[y]) && LocalOk(w', y, w'.members[y])
    {
      assert NodeOk(w, y, w.members[y]) && LocalOk(w, y, w.members[y]);
    }
  }

  lemma JournalFrame(w: World, w': World)
    requires JournalsOk(w) && w'.journals == w.journals
    requires w.clock <= w'.clock && w.nextBoot <= w'.nextBoot && w.nextRequest <= w'.nextRequest
    ensures JournalsOk(w')
  {
    forall r | r in w'.journals
      ensures JournalOk(w', r, w'.journals[r])
    {
      assert JournalOk(w, r, w.journals[r]);
    }
  }

  /** All journals but one are as they were. */
  lemma JournalsFrame(w: World, w': World, request: nat)
    requires JournalsOk(w) && request in w'.journals && JournalOk(w', request, w'.journals[request])
    requires forall r :: r in w'.journals && r != request ==> r in w.journals && w'.journals[r] == w.journals[r]
    requires w.clock <= w'.clock && w.nextBoot <= w'.nextBoot && w.nextRequest <= w'.nextRequest
    ensures JournalsOk(w')
  {
    forall r | r in w'.journals && r != request
      ensures JournalOk(w', r, w'.journals[r])
    {
      assert JournalOk(w, r, w.journals[r]);
    }
  }

  /** No node and no journal changed. */
  lemma LogsAndClocksKeepExecution(w: World, w': World)
    requires ExecutionInv(w) && w'.members == w.members && w'.journals == w.journals
    requires w.clock <= w'.clock && w'.nextBoot == w.nextBoot && w'.nextRequest == w.nextRequest
    ensures ExecutionInv(w')
  {
    JournalFrame(w, w');
    OthersKept(w, w', "");
  }

  /** The host came back under a boot id nobody has had: a confirmation stays right. */
  lemma HostRebootKeepsExecution(w: World, x: Name, w': World)
    requires ExecutionInv(w) && SurroundingsNext(w, HostReboot(x), w')
    ensures ExecutionInv(w')
  {
    var m := w.members[x];
    assert NodeOk(w, x, m);
    if m.request > 0 {
      assert JournalOk(w, m.request, w.journals[m.request]);
    }
    JournalFrame(w, w');
    OthersKept(w, w', x);
  }

  /** How everybody but the API, the update pod and the executor can change a node: its exec
      record stays. */
  predicate QuietChange(n: Node, n': Node) {
    && n'.exec == n.exec && (!n.status.Corrupt? ==> !n'.status.Corrupt?)
    && (|| n'.state == n.state
        || (InPhase(n, Requested) && InPhase(n', Draining))
        || (InPhase(n, Draining) && (InPhase(n', Rebooting) || InPhase(n', Failed)))
        || (InPhase(n, Rebooting) && InPhase(n', Completed)))
  }

  lemma LeaderBuildChange(n: Node, view: Node, memory: Option<Sighting>, now: int, clock: int, drain: DrainOutcome)
    ensures QuietChange(n, Written(n, LeaderBuild(view, memory, now, clock, drain)))
  {
  }

  lemma QuietChangeKeepsNode(w: World, w': World, x: Name, m: Member, m': Member)
    requires NodeOk(w, x, m) && LocalOk(w, x, m) && QuietChange(m.node, m'.node)
    requires m' == m.(node := m'.node, cordoned := m'.cordoned)
    requires w'.clock == w.clock && w'.nextBoot == w.nextBoot && w'.nextRequest == w.nextRequest && w'.journals == w.journals
    ensures NodeOk(w', x, m') && LocalOk(w', x, m')
  {
  }

  lemma QuietChangeKeepsExecution(w: World, x: Name, node: Node)
    requires ExecutionInv(w) && x in w.members && QuietChange(w.members[x].node, node)
    ensures ExecutionInv(SetNode(w, x, node))
  {
    var w' := SetNode(w, x, node);
    JournalFrame(w, w');
    QuietChangeKeepsNode(w, w', x, w.members[x], w'.members[x]);
    OthersKept(w, w', x);
  }

  /** Joining, leaving, or losing the pod. */
  lemma MembershipKeepsExecution(w: World, w': World, x: Name)
    requires ExecutionInv(w) && w'.journals == w.journals
    requires w.clock == w'.clock && w.nextBoot <= w'.nextBoot && w'.nextRequest == w.nextRequest
    requires w'.members - {x} == w.members - {x}
    requires x in w'.members ==>
               var m := w'.members[x];
               && m.local.LocalIdle? && m.bootId < w'.nextBoot
               && if x in w.members then m == w.members[x].(local := LocalIdle) else m.request == 0 && Untouched(m.node)
    ensures ExecutionInv(w')
  {
    JournalFrame(w, w');
    if x in w.members {
      assert NodeOk(w, x, w.members[x]);
    }
    forall y | y in w'.members && y != x
      ensures y in w.members && w'.members[y] == w.members[y]
    {
      assert y in w'.members - {x};
      assert w'.members[y] == (w'.members - {x})[y] == (w.members - {x})[y];
    }
    OthersKept(w, w', x);
  }

  lemma SurroundingsKeepExecution(w: World, step: Step, w': World)
    requires ExecutionInv(w) && BySurroundings(step) && SurroundingsNext(w, step, w')
    ensures ExecutionInv(w')
  {
    if step.Tick? {
      LogsAndClocksKeepExecution(w, w');
    } else if step.HostReboot? {
      HostRebootKeepsExecution(w, step.name, w');
    } else if step.Kubelet? || step.OperatorEdit? {
      QuietChangeKeepsExecution(w, step.name, w'.members[step.name].node);
    } else {
      assert step.PodRestart? ==> NodeOk(w, step.name, w.members[step.name]);
      MembershipKeepsExecution(w, w', step.name);
    }
  }

  /** The annotations now belong to a request nobody has acted on. */
  lemma NextRequestIsNew(w: World)
    requires JournalsOk(w)
    ensures w.nextRequest !in w.journals
  {
    assert w.nextRequest in w.journals ==> JournalOk(w, w.nextRequest, w.journals[w.nextRequest]);
  }

  lemma RequestedNodeIsOk(w: World, x: Name, build: Build)
    requires x in w.members && build(w.members[x].node).Some?
    requires var p := build(w.members[x].node).value;
             p.state.Put? && p.state.value.phase.Requested? && p.exec.Remove? && p.status.Remove?
    requires NodeOk(w, x, w.members[x]) && LocalOk(w, x, w.members[x]) && w.nextRequest > 0 && w.nextRequest !in w.journals
    ensures var w' := Requesting(w, x, build);
            && NodeOk(w', x, w'.members[x]) && LocalOk(w', x, w'.members[x])
            && JournalOk(w', w.nextRequest, w'.journals[w.nextRequest])
  {
  }

  lemma RequestingKeepsExecution(w: World, x: Name, build: Build)
    requires ExecutionInv(w) && x in w.members && build(w.members[x].node).Some?
    requires var p := build(w.members[x].node).value;
             p.state.Put? && p.state.value.phase.Requested? && p.exec.Remove? && p.status.Remove?
    ensures ExecutionInv(Requesting(w, x, build))
  {
    var w' := Requesting(w, x, build);
    assert NodeOk(w, x, w.members[x]) && LocalOk(w, x, w.members[x]);
    NextRequestIsNew(w);
    RequestedNodeIsOk(w, x, build);
    JournalsFrame(w, w', w.nextRequest);
    OthersKept(w, w', x);
  }

  lemma ClearingKeepsExecution(w: World, x: Name, build: Build)
    requires ExecutionInv(w) && x in w.members && build(w.members[x].node).Some?
    requires var p := build(w.members[x].node).value; p.state.Remove? && p.exec.Remove? && p.status.Remove?
    ensures ExecutionInv(Clearing(w, x, build))
  {
    var w' := Clearing(w, x, build);
    assert NodeOk(w, x, w.members[x]) && LocalOk(w, x, w.members[x]);
    JournalFrame(w, w');
    OthersKept(w, w', x);
  }

  lemma RequestsKeepExecution(w: World, step: Step, w': World)
    requires ExecutionInv(w) && ByRequests(step) && RequestNext(w, step, w')
    ensures ExecutionInv(w')
  {
    match step
    case ApiAdmit(x, since, id, requester, force) =>
      RequestingKeepsExecution(w, x, AdmitBuild(since, id, requester, force));
    case PodEnqueue(x, since, id, goal, running) =>
      RequestingKeepsExecution(w, x, EnqueueBuild(since, id, goal, running));
    case ApiDelete(x) => ClearingKeepsExecution(w, x, DeleteBuild());
    case PodRearm(x) => ClearingKeepsExecution(w, x, RearmBuild());
  }

  /** What the executor's guarded write can do to its node. */
  predicate LocalChange(m: Member, m': Member, announced: Option<ExecRecord>) {
    && m' == m.(node := m'.node, local := m'.local)
    && match announced
       case None =>
         && m'.local == LocalIdle
         && (|| m'.node == m.node
             || (InPhase(m.node, Rebooting) && InPhase(m'.node, Failed) && m'.node.exec == m.node.exec
                 && m'.node.request == m.node.request && !m'.node.status.Corrupt?)
             || (InPhase(m.node, Rebooting) && m.node.exec.Parsed? && m.node.exec.value.bootId != m.bootId
                 && m'.node.exec.Parsed? && m'.node.exec.value.(confirmedAt := None) == m.node.exec.value.(confirmedAt := None)
                 && m'.node == m.node.(exec := m'.node.exec)))
       case Some(e) =>
         && InPhase(m.node, Rebooting) && m.local.Deciding?
         && e.bootId == m.bootId && e.issuedAt == m.local.now && e.confirmedAt.None?
         && e.attempt == (if m.node.exec.Absent? then 1 else 2)
         && (m.node.exec.Absent? ==> m.local.view.exec.Absent?)
         && (m.node.exec.Parsed? ==> m.node.exec.value.attempt == 1)
         && m'.node == m.node.(exec := Parsed(e))
         && (m'.local == LocalIdle || m'.local == Issuing(m.request, e.attempt))
  }

  lemma LocalOutcomeChanges(w: World, x: Name, m: Member, delivered: bool, answered: bool)
    requires NodeOk(w, x, m) && LocalOk(w, x, m) && m.local.Deciding?
    ensures var (m', announced) := LocalOutcome(m, w.clock, w.grace, delivered, answered);
            LocalChange(m, m', announced)
  {
    var plan := Plan(m.local.view.exec, m.bootId, m.local.now, w.grace);
    match plan
    case Wait =>
    case GiveUp =>
    case Confirm(_) =>
    case Announce(_) =>
    case AnnounceAgain(_) =>
  }

  lemma SilentWriteKeepsNode(w: World, w': World, x: Name, m: Member, m': Member)
    requires NodeOk(w, x, m) && LocalChange(m, m', None)
    requires w'.clock == w.clock && w'.nextBoot == w.nextBoot && w'.nextRequest == w.nextRequest && w'.journals == w.journals
    ensures NodeOk(w', x, m') && LocalOk(w', x, m')
  {
  }

  lemma AnnouncementKeepsNode(w: World, w': World, x: Name, m: Member, m': Member, e: ExecRecord)
    requires NodeOk(w, x, m) && LocalOk(w, x, m) && LocalChange(m, m', Some(e))
    requires m.request in w.journals && JournalOk(w, m.request, w.journals[m.request])
    requires w'.clock == w.clock && w'.nextBoot == w.nextBoot && w'.nextRequest == w.nextRequest
    requires w'.journals == Announcing(w.journals, x, m.request, e)
    ensures NodeOk(w', x, m') && LocalOk(w', x, m') && JournalOk(w', m.request, w'.journals[m.request])
  {
  }

  lemma LocalWriteKeepsExecution(w: World, x: Name, delivered: bool, answered: bool, w': World)
    requires ExecutionInv(w) && LocalNext(w, LocalWrite(x, delivered, answered), w')
    ensures ExecutionInv(w')
  {
    if LocalOutcome(w.members[x], w.clock, w.grace, delivered, answered).1.None? {
      SilentKeepsExecution(w, x, delivered, answered, w');
    } else {
      AnnouncingKeepsExecution(w, x, delivered, answered, w');
    }
  }

  lemma SilentKeepsExecution(w: World, x: Name, delivered: bool, answered: bool, w': World)
    requires ExecutionInv(w) && LocalNext(w, LocalWrite(x, delivered, answered), w')
    requires LocalOutcome(w.members[x], w.clock, w.grace, delivered, answered).1.None?
    ensures ExecutionInv(w')
  {
    var m := w.members[x];
    assert NodeOk(w, x, m) && LocalOk(w, x, m);
    LocalOutcomeChanges(w, x, m, delivered, answered);
    SilentWriteKeepsNode(w, w', x, m, w'.members[x]);
    JournalFrame(w, w');
    OthersKept(w, w', x);
  }

  lemma AnnouncingKeepsExecution(w: World, x: Name, delivered: bool, answered: bool, w': World)
    requires ExecutionInv(w) && LocalNext(w, LocalWrite(x, delivered, answered), w')
    requires LocalOutcome(w.members[x], w.clock, w.grace, delivered, answered).1.Some?
    ensures ExecutionInv(w')
  {
    var m := w.members[x];
    assert NodeOk(w, x, m) && LocalOk(w, x, m);
    LocalOutcomeChanges(w, x, m, delivered, answered);
    assert JournalOk(w, m.request, w.journals[m.request]);
    AnnouncementKeepsNode(w, w', x, m, w'.members[x], LocalOutcome(m, w.clock, w.grace, delivered, answered).1.value);
    JournalsFrame(w, w', m.request);
    OthersKept(w, w', x);
  }

  lemma StartKeepsNode(w: World, w': World, x: Name, m: Member)
    requires NodeOk(w, x, m) && LocalOk(w, x, m) && m.local.Issuing?
    requires JournalOk(w, m.local.request, w.journals[m.local.request])
    requires w'.clock == w.clock && w'.nextBoot == w.nextBoot && w'.nextRequest == w.nextRequest
    requires w'.journals == Starting(w.journals, x, m.local.request, Command(m.local.attempt, m.bootId))
    ensures NodeOk(w', x, m) && JournalOk(w', m.local.request, w'.journals[m.local.request])
  {
    var j := w'.journals[m.local.request];
    assert forall i :: 0 <= i < |j.commands| - 1 ==> j.commands[i] == w.journals[m.local.request].commands[i];
  }

  lemma LocalStartKeepsExecution(w: World, x: Name, starts: bool, w': World)
    requires ExecutionInv(w) && LocalNext(w, LocalStart(x, starts), w')
    ensures ExecutionInv(w')
  {
    if starts {
      StartedKeepsExecution(w, x, w');
    } else {
      assert NodeOk(w, x, w.members[x]) && LocalOk(w, x, w.members[x]);
      JournalFrame(w, w');
      OthersKept(w, w', x);
    }
  }

  lemma StartedKeepsExecution(w: World, x: Name, w': World)
    requires ExecutionInv(w) && LocalNext(w, LocalStart(x, true), w')
    ensures ExecutionInv(w')
  {
    var m := w.members[x];
    assert NodeOk(w, x, m) && LocalOk(w, x, m);
    StartKeepsNode(w, w', x, m);
    JournalsFrame(w, w', m.local.request);
    OthersKept(w, w', x);
  }

  lemma LocalReadKeepsExecution(w: World, x: Name, w': World)
    requires ExecutionInv(w) && LocalNext(w, LocalRead(x), w')
    ensures ExecutionInv(w')
  {
    var m := w.members[x];
    assert NodeOk(w, x, m);
    if m.request > 0 { assert JournalOk(w, m.request, w.journals[m.request]); }
    JournalFrame(w, w');
    OthersKept(w, w', x);
  }

  lemma LocalClockKeepsExecution(w: World, x: Name, w': World)
    requires ExecutionInv(w) && LocalNext(w, LocalClock(x), w')
    ensures ExecutionInv(w')
  {
    assert LocalOk(w, x, w.members[x]);
    JournalFrame(w, w');
    OthersKept(w, w', x);
  }

  lemma LocalReportKeepsExecution(w: World, x: Name, delivered: bool, w': World)
    requires ExecutionInv(w) && LocalNext(w, LocalReport(x, delivered), w')
    ensures ExecutionInv(w')
  {
    JournalFrame(w, w');
    SilentWriteKeepsNode(w, w', x, w.members[x], w'.members[x]);
    OthersKept(w, w', x);
  }

  lemma ManageKeepsExecution(w: World, x: Name, drain: DrainOutcome, delivered: bool, w': World)
    requires ExecutionInv(w) && LeaderNext(w, LeaderManage(x, drain, delivered), w')
    ensures ExecutionInv(w')
  {
    JournalFrame(w, w');
    if x in w.members {
      LeaderBuildChange(w.members[x].node, w.leader.views[x].node, Remembered(w, x), w.leader.now, w.clock, drain);
      QuietChangeKeepsNode(w, w', x, w.members[x], w'.members[x]);
    }
    OthersKept(w, w', x);
  }

  lemma AdmitKeepsExecution(w: World, x: Name, delivered: bool, w': World)
    requires ExecutionInv(w) && LeaderNext(w, LeaderAdmit(x, delivered), w')
    ensures ExecutionInv(w')
  {
    JournalFrame(w, w');
    if x in w.members {
      QuietChangeKeepsNode(w, w', x, w.members[x], w'.members[x]);
    }
    OthersKept(w, w', x);
  }

  lemma LeaderKeepsExecution(w: World, step: Step, w': World)
    requires ExecutionInv(w) && ByLeader(step) && LeaderNext(w, step, w')
    ensures ExecutionInv(w')
  {
    if step.LeaderManage? {
      ManageKeepsExecution(w, step.name, step.drain, step.delivered, w');
    } else if step.LeaderAdmit? {
      AdmitKeepsExecution(w, step.name, step.delivered, w');
    } else if step.LeaderBlocked? {
      QuietChangeKeepsExecution(w, step.name, w'.members[step.name].node);
    } else {
      LogsAndClocksKeepExecution(w, w');
    }
  }

  lemma NextKeepsExecution(w: World, step: Step, w': World)
    requires ExecutionInv(w) && Next(w, step, w')
    ensures ExecutionInv(w')
  {
    if BySurroundings(step) {
      SurroundingsKeepExecution(w, step, w');
    } else if ByRequests(step) {
      RequestsKeepExecution(w, step, w');
    } else if ByLeader(step) {
      LeaderKeepsExecution(w, step, w');
    } else if step.LocalWrite? {
      LocalWriteKeepsExecution(w, step.name, step.delivered, step.answered, w');
    } else if step.LocalStart? {
      LocalStartKeepsExecution(w, step.name, step.starts, w');
    } else if step.LocalRead? {
      LocalReadKeepsExecution(w, step.name, w');
    } else if step.LocalClock? {
      LocalClockKeepsExecution(w, step.name, w');
    } else {
      LocalReportKeepsExecution(w, step.name, step.delivered, w');
    }
  }

  lemma {:induction false} RunKeepsExecution(worlds: seq<World>, steps: seq<Step>, i: nat)
    requires Run(worlds, steps) && i < |worlds|
    ensures ExecutionInv(worlds[i])
  {
    if i == 0 {
    } else {
      RunKeepsExecution(worlds, steps, i - 1);
      assert StepAt(worlds, steps, i - 1);
      NextKeepsExecution(worlds[i - 1], steps[i - 1], worlds[i]);
    }
  }

  /* ---- Results ------------------------------------------------------------------------- */

  /** Over every run, at most two reboot commands are started for a request, and each rests
      on an exec record of that very request, written for the boot the command ran on. */
  lemma AtMostTwoCommands(worlds: seq<World>, steps: seq<Step>, i: nat, request: nat)
    requires Run(worlds, steps) && i < |worlds| && request in worlds[i].journals
    ensures var j := worlds[i].journals[request];
            && |j.commands| <= |j.records| <= 2
            && forall k :: 0 <= k < |j.commands| ==>
                 && 1 <= j.commands[k].attempt <= |j.records|
                 && j.records[j.commands[k].attempt - 1].attempt == j.commands[k].attempt
                 && j.records[j.commands[k].attempt - 1].bootId == j.commands[k].bootId
  {
    RunKeepsExecution(worlds, steps, i);
    assert JournalOk(worlds[i], request, worlds[i].journals[request]);
  }

  /** At the moment a command starts, its record is already in the journal of the request it
      was announced for, and carries the boot id of the host it runs on. */
  lemma CommandsAreAnnounced(worlds: seq<World>, steps: seq<Step>, i: nat, x: Name)
    requires Run(worlds, steps) && i < |steps| && steps[i] == LocalStart(x, true)
    ensures var w, w' := worlds[i], worlds[i + 1];
            && x in w.members && w.members[x].local.Issuing?
            && var request := w.members[x].local.request;
               && request in w.journals && w.journals[request].name == x && w.journals[request].records != []
               && Last(w.journals[request].records).bootId == w.members[x].bootId
               && request in w'.journals
               && w'.journals[request].commands
                  == w.journals[request].commands + [Command(|w.journals[request].records|, w.members[x].bootId)]
               && w'.journals - {request} == w.journals - {request}
  {
    RunKeepsExecution(worlds, steps, i);
    assert StepAt(worlds, steps, i);
    assert LocalOk(worlds[i], x, worlds[i].members[x]);
  }
}
