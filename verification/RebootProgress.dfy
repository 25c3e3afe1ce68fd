/** A reboot can be carried through: from the request to the completed, uncordoned node, step by
    step, with nothing failing. What the other modules forbid is not so much that nothing would
    ever happen. */
module RebootProgress {
  import opened Wrappers
  import opened NodeState
  import opened RebootWorld
  import opened RebootExecution

  /** The steps lead from `w` to `w'`. */
  ghost predicate LeadsTo(w: World, steps: seq<Step>, w': World)
    decreases |steps|
  {
    if steps == [] then w' == w else exists m :: Next(w, steps[0], m) && LeadsTo(m, steps[1..], w')
  }

  lemma OneStep(w: World, step: Step, m: World, rest: seq<Step>, w': World)
    requires Next(w, step, m) && LeadsTo(m, rest, w')
    ensures LeadsTo(w, [step] + rest, w')
  {
    assert ([step] + rest)[1..] == rest;
  }

  lemma {:induction false} Further(a: World, s: seq<Step>, b: World, t: seq<Step>, c: World)
    requires LeadsTo(a, s, b) && LeadsTo(b, t, c)
    ensures LeadsTo(a, s + t, c)
    decreases |s|
  {
    if s == [] {
      assert s + t == t;
    } else {
      var m :| Next(a, s[0], m) && LeadsTo(m, s[1..], b);
      Further(m, s[1..], b, t, c);
      assert s + t == [s[0]] + (s[1..] + t);
      OneStep(a, s[0], m, s[1..] + t, c);
    }
  }

  lemma TwoSteps(a: World, s: Step, b: World, t: Step, c: World)
    requires Next(a, s, b) && Next(b, t, c)
    ensures LeadsTo(a, [s, t], c)
  {
    assert [t] + [] == [t] && [s] + [t] == [s, t];
    OneStep(b, t, c, [], c);
    OneStep(a, s, b, [t], c);
  }

  lemma LastStep(a: World, steps: seq<Step>, b: World, s: Step, c: World)
    requires LeadsTo(a, steps, b) && Next(b, s, c)
    ensures LeadsTo(a, steps + [s], c)
  {
    assert [s] + [] == [s];
    OneStep(b, s, c, [], c);
    Further(a, steps, b, [s], c);
  }

  /** Nothing is under way, and `x` is there with a reboot in that phase. */
  predicate At(w: World, x: Name, phase: Lifecycle) {
    && x in w.members && PhaseOf(w.members[x].node) == Some(phase)
    && w.leader.LeaderIdle? && w.members[x].local.LocalIdle?
  }

  function ViewsNow(w: World): map<Name, View> {
    map y | y in w.members :: View(w.members[y].node, w.members[y].request)
  }

  /** The leader lists and takes the time. */
  lemma LeaderLooks(w: World) returns (steps: seq<Step>, w': World)
    requires w.leader.LeaderIdle?
    ensures LeadsTo(w, steps, w') && w' == w.(leader := Managing(ViewsNow(w), w.clock))
  {
    var w1 := w.(leader := Listed(ViewsNow(w)));
    w' := w.(leader := Managing(ViewsNow(w), w.clock));
    assert LeaderNext(w, LeaderList, w1) && LeaderNext(w1, LeaderClock, w');
    TwoSteps(w, LeaderList, w1, LeaderClock, w');
    steps := [LeaderList, LeaderClock];
  }

  lemma ManageStep(w: World, x: Name, drain: DrainOutcome, n: Node)
    requires w.leader.Managing? && w.leader.views == ViewsNow(w) && x in w.members
    requires !w.members[x].node.ready ==> PhaseOf(w.members[x].node) != Some(Rebooting)
    requires n == Written(w.members[x].node, LeaderBuild(w.members[x].node, Remembered(w, x), w.leader.now, w.clock, drain))
    ensures Next(w, LeaderManage(x, drain, true), SetNode(w, x, n))
  {
    assert LeaderNext(w, LeaderManage(x, drain, true), SetNode(w, x, n));
  }

  /** The leader lists, takes the time and manages `x`, and ends its cycle. */
  lemma ManageCycle(w: World, x: Name, drain: DrainOutcome, n: Node) returns (steps: seq<Step>, w': World)
    requires w.leader.LeaderIdle? && x in w.members && (!w.members[x].node.ready ==> PhaseOf(w.members[x].node) != Some(Rebooting))
    requires n == Written(w.members[x].node, LeaderBuild(w.members[x].node, Remembered(w, x), w.clock, w.clock, drain))
    ensures LeadsTo(w, steps, w') && w' == SetNode(w, x, n)
  {
    var s, w2 := LeaderLooks(w);
    ManageStep(w2, x, drain, n);
    var w3 := SetNode(w2, x, n);
    LastStep(w, s, w2, LeaderManage(x, drain, true), w3);
    w' := SetNode(w, x, n);
    assert w' == w3.(leader := LeaderIdle);
    assert Next(w3, LeaderRest, w');
    LastStep(w, s + [LeaderManage(x, drain, true)], w3, LeaderRest, w');
    steps := s + [LeaderManage(x, drain, true)] + [LeaderRest];
  }

  /** The member after an admission. */
  function AdmittedMember(m: Member, now: int): Member {
    m.(node := Written(m.node, DrainBuild(now)), cordoned := m.node.unschedulable)
  }

  lemma AdmitStep(w: World, x: Name)
    requires w.leader.Admitting? && w.leader.queue == Nodes(w) && x in w.members && PhaseOf(w.members[x].node) == Some(Requested)
    requires InFlightNames(Nodes(w)) == {} && 0 < w.limit
    ensures Next(w, LeaderAdmit(x, true), SetMember(w, x, AdmittedMember(w.members[x], w.leader.now)).(leader := LeaderIdle))
  {
    assert ControlPlanesInFlight(Nodes(w)) <= InFlightNames(Nodes(w));
    assert LeaderNext(w, LeaderAdmit(x, true), SetMember(w, x, AdmittedMember(w.members[x], w.leader.now)).(leader := LeaderIdle));
  }

  /** The leader lists twice, the second time to admit. */
  lemma LeaderQueues(w: World) returns (steps: seq<Step>, w': World)
    requires w.leader.LeaderIdle?
    ensures LeadsTo(w, steps, w') && w' == w.(leader := Admitting(Nodes(w), w.clock))
  {
    var s, w2 := LeaderLooks(w);
    w' := w.(leader := Admitting(Nodes(w), w.clock));
    assert Nodes(w2) == Nodes(w);
    assert LeaderNext(w2, LeaderRelist, w');
    LastStep(w, s, w2, LeaderRelist, w');
    steps := s + [LeaderRelist];
  }

  /** The leader admits `x` when no node is in flight. */
  lemma AdmitCycle(w: World, x: Name) returns (steps: seq<Step>, w': World)
    requires At(w, x, Requested) && InFlightNames(Nodes(w)) == {} && 0 < w.limit
    ensures LeadsTo(w, steps, w') && At(w', x, Draining)
    ensures w' == SetMember(w, x, AdmittedMember(w.members[x], w.clock))
  {
    var s, w1 := LeaderQueues(w);
    assert Nodes(w1) == Nodes(w);
    AdmitStep(w1, x);
    w' := SetMember(w, x, AdmittedMember(w.members[x], w.clock));
    LastStep(w, s, w1, LeaderAdmit(x, true), w');
    steps := s + [LeaderAdmit(x, true)];
  }

  /** The world after the pod's write. */
  function AfterLocal(w: World, x: Name): World
    requires x in w.members
  {
    var m := w.members[x].(local := Deciding(w.members[x].node, w.clock, w.members[x].request));
    var (m', announced) := LocalOutcome(m, w.clock, w.grace, true, true);
    SetMember(w, x, m').(journals := if announced.Some? then Announcing(w.journals, x, m.request, announced.value) else w.journals)
  }

  /** The pod on the node reads, takes the time and writes, and its write is answered. */
  lemma LocalCycle(w: World, x: Name) returns (steps: seq<Step>, w': World)
    requires At(w, x, Rebooting)
    ensures LeadsTo(w, steps, w') && w' == AfterLocal(w, x)
  {
    var m := w.members[x];
    var w1 := SetMember(w, x, m.(local := Looking(m.node, m.request)));
    var w2 := SetMember(w, x, m.(local := Deciding(m.node, w.clock, m.request)));
    w' := AfterLocal(w, x);
    assert w2 == SetMember(w1, x, m.(local := Deciding(m.node, w.clock, m.request)));
    assert LocalNext(w, LocalRead(x), w1) && LocalNext(w1, LocalClock(x), w2);
    TwoSteps(w, LocalRead(x), w1, LocalClock(x), w2);
    WriteStep(w, w2, x);
    LastStep(w, [LocalRead(x), LocalClock(x)], w2, LocalWrite(x, true, true), w');
    steps := [LocalRead(x), LocalClock(x)] + [LocalWrite(x, true, true)];
  }

  lemma WriteStep(w: World, w2: World, x: Name)
    requires x in w.members && w2 == SetMember(w, x, w.members[x].(local := Deciding(w.members[x].node, w.clock, w.members[x].request)))
    ensures Next(w2, LocalWrite(x, true, true), AfterLocal(w, x))
  {
    var (m', announced) := LocalOutcome(w2.members[x], w.clock, w.grace, true, true);
    assert w2.members[x := m'] == w.members[x := m'];
    assert LocalNext(w2, LocalWrite(x, true, true), AfterLocal(w, x));
  }

  lemma ExecWritten(n: Node, guard: Annotation<ExecRecord> -> bool, e: ExecRecord)
    requires PhaseOf(n) == Some(Rebooting) && guard(n.exec)
    ensures ExecBuild(guard, e)(n).Some? && Written(n, ExecBuild(guard, e)) == n.(exec := Parsed(e))
  {
  }

  /** The outcome for a fresh view without a record: the first attempt is announced. */
  lemma AnnouncesFirst(m: Member, clock: int, grace: int)
    requires m.local.Deciding? && m.local.view == m.node && m.local.now == clock
    requires PhaseOf(m.node) == Some(Rebooting) && m.node.exec.Absent?
    ensures var r := ExecRecord(clock, m.bootId, 1, None);
            LocalOutcome(m, clock, grace, true, true) == (m.(node := m.node.(exec := Parsed(r)), local := Issuing(m.request, 1)), Some(r))
  {
    var plan := Plan(m.node.exec, m.bootId, clock, grace);
    ExecWritten(m.node, LocalGuard(plan, m.bootId, clock, grace), plan.exec);
  }

  /** And with the record of another boot: it is confirmed. */
  lemma ConfirmsOnce(m: Member, clock: int, grace: int)
    requires m.local.Deciding? && m.local.view == m.node && m.local.now == clock && PhaseOf(m.node) == Some(Rebooting)
    requires m.node.exec.Parsed? && m.node.exec.value.confirmedAt.None? && m.node.exec.value.bootId != m.bootId
    ensures LocalOutcome(m, clock, grace, true, true)
         == (m.(node := m.node.(exec := Parsed(m.node.exec.value.(confirmedAt := Some(clock)))), local := LocalIdle), None)
  {
    var plan := Plan(m.node.exec, m.bootId, clock, grace);
    ExecWritten(m.node, LocalGuard(plan, m.bootId, clock, grace), plan.exec);
  }

  function FirstRecord(w: World, x: Name): ExecRecord
    requires x in w.members
  {
    ExecRecord(w.clock, w.members[x].bootId, 1, None)
  }

  function Announced(w: World, x: Name): Member
    requires x in w.members
  {
    w.members[x].(node := w.members[x].node.(exec := Parsed(FirstRecord(w, x))))
  }

  /** The pod announces the reboot. */
  lemma PodAnnounces(w: World, x: Name) returns (steps: seq<Step>, w': World)
    requires At(w, x, Rebooting) && w.members[x].node.exec.Absent?
    ensures LeadsTo(w, steps, w')
    ensures w' == SetMember(w, x, Announced(w, x).(local := Issuing(w.members[x].request, 1)))
                  .(journals := Announcing(w.journals, x, w.members[x].request, FirstRecord(w, x)))
  {
    var m := w.members[x];
    steps, w' := LocalCycle(w, x);
    AnnouncesFirst(m.(local := Deciding(m.node, w.clock, m.request)), w.clock, w.grace);
  }

  /** The reboot is announced, its command starts, and the host comes back on another boot. */
  lemma HostReboots(w: World, x: Name) returns (steps: seq<Step>, w': World)
    requires At(w, x, Rebooting) && w.members[x].node.exec.Absent?
    ensures LeadsTo(w, steps, w') && At(w', x, Rebooting)
    ensures w'.members == w.members[x := Announced(w, x).(bootId := w.nextBoot)]
    ensures w'.journals == Starting(Announcing(w.journals, x, w.members[x].request, FirstRecord(w, x)),
                                    x, w.members[x].request, Command(1, w.members[x].bootId))
    ensures w' == w.(members := w'.members, journals := w'.journals, nextBoot := w.nextBoot + 1)
  {
    var m, announced := w.members[x], Announced(w, x);
    var s, w1 := PodAnnounces(w, x);
    var w2 := SetMember(w, x, announced).(journals := Starting(w1.journals, x, m.request, Command(1, m.bootId)));
    assert w1.members[x := announced] == w2.members;
    assert LocalNext(w1, LocalStart(x, true), w2);
    LastStep(w, s, w1, LocalStart(x, true), w2);
    w' := SetMember(w2, x, announced.(bootId := w.nextBoot)).(nextBoot := w.nextBoot + 1);
    assert SurroundingsNext(w2, HostReboot(x), w');
    LastStep(w, s + [LocalStart(x, true)], w2, HostReboot(x), w');
    steps := s + [LocalStart(x, true)] + [HostReboot(x)];
    assert w'.members == w.members[x := announced.(bootId := w.nextBoot)];
  }

  /** The pod confirms the boot. */
  lemma PodConfirms(w: World, x: Name) returns (steps: seq<Step>, w': World)
    requires At(w, x, Rebooting) && w.members[x].node.exec.Parsed?
    requires w.members[x].node.exec.value.confirmedAt.None? && w.members[x].node.exec.value.bootId != w.members[x].bootId
    ensures LeadsTo(w, steps, w') && At(w', x, Rebooting)
    ensures w' == SetNode(w, x, w.members[x].node.(exec := Parsed(w.members[x].node.exec.value.(confirmedAt := Some(w.clock)))))
  {
    steps, w' := LocalCycle(w, x);
    var m := w.members[x];
    ConfirmsOnce(m.(local := Deciding(m.node, w.clock, m.request)), w.clock, w.grace);
    assert w'.members == SetNode(w, x, w.members[x].node.(exec := Parsed(w.members[x].node.exec.value.(confirmedAt := Some(w.clock))))).members;
  }

  /** A confirmed reboot is completed, and the cordon lifted, unless it was there before. */
  lemma Finish(w: World, x: Name) returns (steps: seq<Step>, w': World)
    requires At(w, x, Rebooting) && w.members[x].node.ready && w.members[x].node.unschedulable
    requires w.members[x].node.exec.Parsed? && w.members[x].node.exec.value.confirmedAt.Some? && !w.members[x].node.status.Corrupt?
    ensures LeadsTo(w, steps, w') && At(w', x, Completed)
    ensures w' == SetNode(w, x, w.members[x].node.(state := Parsed(StateRecord(Completed, w.clock)),
                                                   unschedulable := KeepsCordon(w.members[x].node)))
  {
    var n := w.members[x].node;
    var n1 := n.(state := Parsed(StateRecord(Completed, w.clock)));
    var s1, w1 := ManageCycle(w, x, DrainPending, n1);
    var s2, w2 := ManageCycle(w1, x, DrainPending, n1.(unschedulable := KeepsCordon(n)));
    Further(w, s1, w1, s2, w2);
    steps, w' := s1 + s2, w2;
    assert w'.members == SetNode(w, x, n1.(unschedulable := KeepsCordon(n))).members;
  }

  /** In a run, what is requested has no record, no command, and a boot that is not the next. */
  lemma RequestedIsUnstarted(worlds: seq<World>, steps: seq<Step>, i: nat, x: Name)
    requires Run(worlds, steps) && i < |worlds| && x in worlds[i].members && PhaseOf(worlds[i].members[x].node) == Some(Requested)
    ensures Unstarted(worlds[i], x)
  {
    var w := worlds[i];
    RunKeepsExecution(worlds, steps, i);
    assert NodeOk(w, x, w.members[x]);
    assert JournalOk(w, w.members[x].request, w.journals[w.members[x].request]);
  }

  predicate Unstarted(w: World, x: Name)
    requires x in w.members
  {
    var m := w.members[x];
    m.node.exec.Absent? && m.bootId < w.nextBoot && JournalOf(w.journals, x, m.request) == Journal(x, [], [])
  }

  lemma DrainRemembers(n: Node, now: int)
    requires PhaseOf(n) == Some(Requested)
    ensures var after := Written(n, DrainBuild(now));
            !after.status.Corrupt? && (KeepsCordon(after) <==> n.unschedulable || KeepsCordon(n))
  {
  }

  /** From the request to the drained node. */
  lemma PodsLeave(w: World, x: Name) returns (steps: seq<Step>, w': World)
    requires At(w, x, Requested) && InFlightNames(Nodes(w)) == {} && 0 < w.limit
    ensures LeadsTo(w, steps, w') && At(w', x, Rebooting) && w' == SetMember(w, x, w'.members[x])
    ensures var m, m' := w.members[x], w'.members[x];
            && m' == m.(node := m'.node, cordoned := m'.cordoned)
            && m'.node.ready == m.node.ready && m'.node.exec == m.node.exec && m'.node.unschedulable
            && !m'.node.status.Corrupt? && (KeepsCordon(m'.node) <==> m.node.unschedulable || KeepsCordon(m.node))
  {
    var s1, w1 := AdmitCycle(w, x);
    DrainingMeans(w.members[x].node, w.clock);
    DrainRemembers(w.members[x].node, w.clock);
    var n := w1.members[x].node.(state := Parsed(StateRecord(Rebooting, w.clock)));
    var s2, w2 := ManageCycle(w1, x, DrainDone, n);
    Further(w, s1, w1, s2, w2);
    steps, w' := s1 + s2, w2;
    assert w'.members == w.members[x := w'.members[x]];
  }

  /** From the drained node to the completed one. */
  lemma HostReturns(w: World, x: Name) returns (steps: seq<Step>, w': World)
    requires At(w, x, Rebooting) && Unstarted(w, x)
    requires w.members[x].node.ready && w.members[x].node.unschedulable && !w.members[x].node.status.Corrupt?
    ensures LeadsTo(w, steps, w') && At(w', x, Completed) && w'.members - {x} == w.members - {x}
    ensures w'.members[x].request == w.members[x].request && w'.members[x].bootId == w.nextBoot
    ensures w'.members[x].node.unschedulable == KeepsCordon(w.members[x].node)
    ensures w.members[x].request in w'.journals
    ensures w'.journals[w.members[x].request].commands == [Command(1, w.members[x].bootId)]
  {
    var s3, w3 := HostReboots(w, x);
    var s4, w4 := PodConfirms(w3, x);
    Further(w, s3, w3, s4, w4);
    var s5, w5 := Finish(w4, x);
    Further(w, s3 + s4, w4, s5, w5);
    steps, w' := s3 + s4 + s5, w5;
  }

  /** The request is completed by one command, on the boot it was made on, and the host is on
      the next; the cordon is the one there was; no other node is touched. */
  predicate CompletedOnce(w: World, w': World, x: Name)
    requires x in w.members
  {
    var m := w.members[x];
    && At(w', x, Completed) && w'.members - {x} == w.members - {x}
    && w'.members[x].request == m.request && w'.members[x].bootId == w.nextBoot
    && w'.members[x].node.unschedulable == (m.node.unschedulable || KeepsCordon(m.node))
    && m.request in w'.journals && w'.journals[m.request].commands == [Command(1, m.bootId)]
  }

  /** At any point of any run where a ready node is requested, nothing is in flight and neither
      leader nor pod is amid a cycle, the reboot can be carried through. */
  lemma RebootCompletes(worlds: seq<World>, steps: seq<Step>, i: nat, x: Name) returns (more: seq<Step>, w': World)
    requires Run(worlds, steps) && i < |worlds| && At(worlds[i], x, Requested)
    requires worlds[i].members[x].node.ready && InFlightNames(Nodes(worlds[i])) == {} && 0 < worlds[i].limit
    ensures LeadsTo(worlds[i], more, w') && CompletedOnce(worlds[i], w', x)
  {
    RequestedIsUnstarted(worlds, steps, i, x);
    var s1, w1 := PodsLeave(worlds[i], x);
    var s2, w2 := HostReturns(w1, x);
    Further(worlds[i], s1, w1, s2, w2);
    more, w' := s1 + s2, w2;
  }
}
