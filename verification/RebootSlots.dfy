/** Concurrency: the leader counts the nodes in flight on a list that is stale by the time it
    admits, yet the bounds hold at every instant, because nothing else takes a slot. */
module RebootSlots {
  import opened Wrappers
  import opened NodeState
  import opened RebootWorld

  /** Nodes holding a slot in `w` held it, in the same role, in `nodes`. */
  predicate HeldSlot(nodes: map<Name, Node>, x: Name, n: Node) {
    InFlight(n) ==> x in nodes && InFlight(nodes[x]) && nodes[x].controlPlane == n.controlPlane
  }

  ghost predicate NoNewSlots(nodes: map<Name, Node>, w: World) {
    forall x :: x in w.members ==> HeldSlot(nodes, x, w.members[x].node)
  }

  ghost predicate SlotsOk(w: World) {
    && (InFlightNames(Nodes(w)) != {} ==> |InFlightNames(Nodes(w))| <= w.limit)
    && |ControlPlanesInFlight(Nodes(w))| <= 1
    && (w.leader.Admitting? ==> NoNewSlots(w.leader.queue, w))
  }

  lemma SubsetCardinality<T>(a: set<T>, b: set<T>)
    requires a <= b
    ensures |a| <= |b|
  {
    if a != b {
      assert |b| == |a| + |b - a| by { assert b == a + (b - a); }
    }
  }

  /** Fewer slots than on some list: the counts of the list bound the counts now. */
  lemma CountsShrink(nodes: map<Name, Node>, w: World)
    requires NoNewSlots(nodes, w)
    ensures InFlightNames(Nodes(w)) <= InFlightNames(nodes)
    ensures ControlPlanesInFlight(Nodes(w)) <= ControlPlanesInFlight(nodes)
    ensures |InFlightNames(Nodes(w))| <= |InFlightNames(nodes)|
    ensures |ControlPlanesInFlight(Nodes(w))| <= |ControlPlanesInFlight(nodes)|
  {
    assert forall x :: x in Nodes(w) ==> HeldSlot(nodes, x, w.members[x].node);
    SubsetCardinality(InFlightNames(Nodes(w)), InFlightNames(nodes));
    SubsetCardinality(ControlPlanesInFlight(Nodes(w)), ControlPlanesInFlight(nodes));
  }

  lemma ShrinkingKeepsSlots(w: World, w': World)
    requires SlotsOk(w) && NoNewSlots(Nodes(w), w') && w'.limit == w.limit
    requires w'.leader.Admitting? ==> w.leader.Admitting? && w'.leader.queue == w.leader.queue
    ensures SlotsOk(w')
  {
    CountsShrink(Nodes(w), w');
    if w'.leader.Admitting? {
      forall x | x in w'.members
        ensures HeldSlot(w'.leader.queue, x, w'.members[x].node)
      {
        assert HeldSlot(Nodes(w), x, w'.members[x].node);
        if x in w.members { assert HeldSlot(w.leader.queue, x, w.members[x].node); }
      }
    }
  }

  /* ---- No step but the leader's admission takes a slot ------------------------------------ */

  lemma SurroundingsTakeNoSlot(w: World, step: Step, w': World)
    requires BySurroundings(step) && SurroundingsNext(w, step, w')
    ensures NoNewSlots(Nodes(w), w') && w'.limit == w.limit && w'.leader == w.leader
  {
  }

  lemma RequestsTakeNoSlot(w: World, step: Step, w': World)
    requires ByRequests(step) && RequestNext(w, step, w')
    ensures NoNewSlots(Nodes(w), w') && w'.limit == w.limit && w'.leader == w.leader
  {
    match step
    case ApiAdmit(_, _, _, _, _) =>
    case PodEnqueue(_, _, _, _, _) =>
    case ApiDelete(_) =>
    case PodRearm(_) =>
  }

  lemma LocalWriteTakesNoSlot(m: Member, clock: int, grace: int, delivered: bool, answered: bool)
    requires m.local.Deciding?
    ensures var n' := LocalOutcome(m, clock, grace, delivered, answered).0.node;
            n'.controlPlane == m.node.controlPlane && (InFlight(n') ==> InFlight(m.node))
  {
  }

  lemma ExecutorTakesNoSlot(w: World, step: Step, w': World)
    requires ByExecutor(step) && LocalNext(w, step, w')
    ensures NoNewSlots(Nodes(w), w') && w'.limit == w.limit && w'.leader == w.leader
  {
    if step.LocalWrite? {
      LocalWriteTakesNoSlot(w.members[step.name], w.clock, w.grace, step.delivered, step.answered);
    }
  }

  lemma ManageBuildTakesNoSlot(n: Node, view: Node, memory: Option<Sighting>, now: int, clock: int, drain: DrainOutcome)
    ensures var n' := Written(n, LeaderBuild(view, memory, now, clock, drain));
            n'.controlPlane == n.controlPlane && (InFlight(n') ==> InFlight(n))
  {
  }

  lemma ManageTakesNoSlot(w: World, x: Name, drain: DrainOutcome, delivered: bool, w': World)
    requires LeaderNext(w, LeaderManage(x, drain, delivered), w')
    ensures NoNewSlots(Nodes(w), w') && w'.limit == w.limit && w'.leader == w.leader
  {
    if x in w.members {
      ManageBuildTakesNoSlot(w.members[x].node, w.leader.views[x].node, Remembered(w, x), w.leader.now, w.clock, drain);
    }
  }

  lemma BlockedTakesNoSlot(w: World, x: Name, blocked: seq<string>, w': World)
    requires LeaderNext(w, LeaderBlocked(x, blocked), w')
    ensures NoNewSlots(Nodes(w), w') && w'.limit == w.limit && w'.leader == w.leader
  {
  }

  /** The admission itself: one more than the list showed, and the list showed room. */
  lemma OneMoreSlot(w: World, x: Name, w': World)
    requires x in w.members && w'.members.Keys == w.members.Keys
    requires forall y :: y in w.members && y != x ==> w'.members[y] == w.members[y]
    ensures |InFlightNames(Nodes(w'))| <= |InFlightNames(Nodes(w))| + 1
    ensures |ControlPlanesInFlight(Nodes(w'))| <= |ControlPlanesInFlight(Nodes(w))| + 1
  {
    var before, after := InFlightNames(Nodes(w)), InFlightNames(Nodes(w'));
    SubsetCardinality(after, before + {x});
    var cpBefore, cpAfter := ControlPlanesInFlight(Nodes(w)), ControlPlanesInFlight(Nodes(w'));
    SubsetCardinality(cpAfter, cpBefore + {x});
  }

  lemma AdmissionKeepsSlots(w: World, x: Name, delivered: bool, w': World)
    requires SlotsOk(w) && LeaderNext(w, LeaderAdmit(x, delivered), w')
    ensures SlotsOk(w') && w'.limit == w.limit
  {
    if delivered && x in w.members && InPhase(w.members[x].node, Requested) {
      CountsShrink(w.leader.queue, w);
      OneMoreSlot(w, x, w');
    } else {
      assert Nodes(w') == Nodes(w);
    }
  }

  lemma LeaderKeepsSlots(w: World, step: Step, w': World)
    requires SlotsOk(w) && ByLeader(step) && LeaderNext(w, step, w')
    ensures SlotsOk(w') && w'.limit == w.limit
  {
    if step.LeaderAdmit? {
      AdmissionKeepsSlots(w, step.name, step.delivered, w');
    } else if step.LeaderManage? {
      ManageTakesNoSlot(w, step.name, step.drain, step.delivered, w');
      ShrinkingKeepsSlots(w, w');
    } else if step.LeaderBlocked? {
      BlockedTakesNoSlot(w, step.name, step.blocked, w');
      ShrinkingKeepsSlots(w, w');
    } else {
      assert Nodes(w') == Nodes(w);
    }
  }

  lemma NextKeepsSlots(w: World, step: Step, w': World)
    requires SlotsOk(w) && Next(w, step, w')
    ensures SlotsOk(w') && w'.limit == w.limit
  {
    if ByLeader(step) {
      LeaderKeepsSlots(w, step, w');
    } else {
      if BySurroundings(step) { SurroundingsTakeNoSlot(w, step, w'); }
      else if ByRequests(step) { RequestsTakeNoSlot(w, step, w'); }
      else { ExecutorTakesNoSlot(w, step, w'); }
      ShrinkingKeepsSlots(w, w');
    }
  }

  /** At every instant of every run at most `limit` nodes are in flight (none, if `limit` is
      not positive) and at most one of them is a control plane. */
  lemma {:induction false} SlotsAreBounded(worlds: seq<World>, steps: seq<Step>, i: nat)
    requires Run(worlds, steps) && i < |worlds|
    ensures SlotsOk(worlds[i]) && worlds[i].limit == worlds[0].limit
    ensures |InFlightNames(Nodes(worlds[i]))| <= if worlds[0].limit < 0 then 0 else worlds[0].limit
    ensures |ControlPlanesInFlight(Nodes(worlds[i]))| <= 1
  {
    if i == 0 {
      var none: map<Name, Node> := map[];
      CountsShrink(none, worlds[0]);
    } else {
      SlotsAreBounded(worlds, steps, i - 1);
      assert StepAt(worlds, steps, i - 1);
      NextKeepsSlots(worlds[i - 1], steps[i - 1], worlds[i]);
    }
  }

  /** The same of the phases themselves: the nodes draining or rebooting. */
  lemma PhasesAreBounded(worlds: seq<World>, steps: seq<Step>, i: nat, busy: set<Name>)
    requires Run(worlds, steps) && i < |worlds|
    requires forall x :: x in busy ==> x in worlds[i].members && PhaseOf(worlds[i].members[x].node) in {Some(Draining), Some(Rebooting)}
    ensures |busy| <= if worlds[0].limit < 0 then 0 else worlds[0].limit
    ensures (forall x :: x in busy ==> worlds[i].members[x].node.controlPlane) ==> |busy| <= 1
  {
    SlotsAreBounded(worlds, steps, i);
    SubsetCardinality(busy, InFlightNames(Nodes(worlds[i])));
    if forall x :: x in busy ==> worlds[i].members[x].node.controlPlane {
      SubsetCardinality(busy, ControlPlanesInFlight(Nodes(worlds[i])));
    }
  }
}
