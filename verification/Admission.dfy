/** The admission phase of the leader's cycle (`runOrchestrator`, `admissionCounts`,
    `sortQueue`, internal/features/reboot/orchestrator.go), run without interference: which
    node is admitted, and what happens to every other one. */
module Admission {
  import opened Wrappers
  import opened NodeState
  import opened RebootWorld

  datatype Candidate = Candidate(name: Name, since: int, controlPlane: bool)

  /** Byte order of names. */
  predicate NameLess(a: string, b: string) {
    b != "" && (a == "" || a[0] < b[0] || (a[0] == b[0] && NameLess(a[1..], b[1..])))
  }

  /** Oldest request first, workers before control planes, then the name. */
  predicate Before(a: Candidate, b: Candidate) {
    if a.since != b.since then a.since < b.since
    else if a.controlPlane != b.controlPlane then !a.controlPlane
    else NameLess(a.name, b.name)
  }

  lemma {:induction false} NameOrder(a: string, b: string, c: string)
    ensures a != b ==> NameLess(a, b) || NameLess(b, a)
    ensures !(NameLess(a, b) && NameLess(b, a))
    ensures NameLess(a, b) && NameLess(b, c) ==> NameLess(a, c)
  {
    if a != "" && b != "" {
      NameOrder(a[1..], b[1..], if c == "" then "" else c[1..]);
      if a[0] == b[0] && a != b {
        assert a == [a[0]] + a[1..] && b == [b[0]] + b[1..];
      }
    }
  }

  lemma BeforeIsStrictOrder(a: Candidate, b: Candidate, c: Candidate)
    ensures a.name != b.name ==> Before(a, b) || Before(b, a)
    ensures !(Before(a, b) && Before(b, a))
    ensures Before(a, b) && Before(b, c) ==> Before(a, c)
  {
    NameOrder(a.name, b.name, c.name);
  }

  /** The older request goes first; of two as old a worker before a control plane; of two of a
      kind the one whose name comes first, by the first byte that differs. */
  lemma BeforeMeans(a: Candidate, b: Candidate, same: string, c: char, d: char, s: string, t: string)
    ensures a.since < b.since ==> Before(a, b)
    ensures a.since == b.since && !a.controlPlane && b.controlPlane ==> Before(a, b)
    ensures a.since == b.since && a.controlPlane == b.controlPlane && b.name == same + [d] + t ==>
              ((c < d && a.name == same + [c] + s) || a.name == same ==> Before(a, b))
  {
    NameLessAt(same, c, d, s, t);
  }

  lemma {:induction false} NameLessAt(same: string, c: char, d: char, s: string, t: string)
    ensures c < d ==> NameLess(same + [c] + s, same + [d] + t)
    ensures NameLess(same, same + [d] + t)
  {
    if same != "" {
      assert (same + [c] + s)[1..] == same[1..] + [c] + s && (same + [d] + t)[1..] == same[1..] + [d] + t;
      NameLessAt(same[1..], c, d, s, t);
    }
  }

  predicate Ordered(q: seq<Candidate>) {
    forall i, j :: 0 <= i < j < |q| ==> Before(q[i], q[j])
  }

  predicate Distinct(q: seq<Candidate>) {
    forall i, j :: 0 <= i < j < |q| ==> q[i].name != q[j].name
  }

  /** The library's stable sort, as insertion into a sorted queue. */
  function Insert(c: Candidate, q: seq<Candidate>): seq<Candidate> {
    if q == [] then [c]
    else if Before(q[0], c) then [q[0]] + Insert(c, q[1..])
    else [c] + q
  }

  function SortQueue(q: seq<Candidate>): seq<Candidate> {
    if q == [] then [] else Insert(q[0], SortQueue(q[1..]))
  }

  predicate Leads(a: Candidate, q: seq<Candidate>) {
    forall j :: 0 <= j < |q| ==> Before(a, q[j])
  }

  lemma OrderedBehind(a: Candidate, q: seq<Candidate>)
    requires Leads(a, q) && Ordered(q)
    ensures Ordered([a] + q)
  {
  }

  lemma {:induction false} LeadsInserted(a: Candidate, c: Candidate, q: seq<Candidate>)
    requires Before(a, c) && Leads(a, q)
    ensures Leads(a, Insert(c, q))
  {
    if q != [] && Before(q[0], c) {
      LeadsInserted(a, c, q[1..]);
    }
  }

  lemma {:induction false} InsertHolds(c: Candidate, q: seq<Candidate>)
    ensures multiset(Insert(c, q)) == multiset{c} + multiset(q)
  {
    if q != [] && Before(q[0], c) {
      InsertHolds(c, q[1..]);
      assert q == [q[0]] + q[1..];
    }
  }

  lemma {:induction false} InsertSorts(c: Candidate, q: seq<Candidate>)
    requires Ordered(q) && forall i :: 0 <= i < |q| ==> q[i].name != c.name
    ensures Ordered(Insert(c, q)) && multiset(Insert(c, q)) == multiset{c} + multiset(q)
  {
    InsertHolds(c, q);
    if q == [] {
    } else if Before(q[0], c) {
      InsertSorts(c, q[1..]);
      LeadsInserted(q[0], c, q[1..]);
      OrderedBehind(q[0], Insert(c, q[1..]));
    } else {
      BeforeIsStrictOrder(q[0], c, c);
      forall j | 0 <= j < |q|
        ensures Before(c, q[j])
      {
        if j > 0 { BeforeIsStrictOrder(c, q[0], q[j]); }
      }
      OrderedBehind(c, q);
    }
  }

  /** The queue comes out in order, with exactly the candidates that went in. */
  lemma {:induction false} SortQueueSorts(q: seq<Candidate>)
    requires Distinct(q)
    ensures Ordered(SortQueue(q)) && multiset(SortQueue(q)) == multiset(q)
  {
    if q == [] {
    } else {
      SortQueueSorts(q[1..]);
      var r := SortQueue(q[1..]);
      forall i | 0 <= i < |r|
        ensures r[i].name != q[0].name
      {
        assert r[i] in multiset(r);
        assert r[i] in q[1..];
      }
      InsertSorts(q[0], r);
      assert q == [q[0]] + q[1..];
    }
  }

  /* ---- What the cycle must do ------------------------------------------------------------ */

  datatype Config = Config(pauseOnFailure: bool, limit: int, windowOpen: bool)

  predicate AnyFailed(nodes: map<Name, Node>) {
    exists x :: x in nodes && InPhase(nodes[x], Failed)
  }

  predicate AnyQueuedNotReady(nodes: map<Name, Node>) {
    exists x :: x in nodes && InPhase(nodes[x], Requested) && !nodes[x].ready
  }

  /** The nodes of a part of the list. */
  function Among(nodes: map<Name, Node>, names: seq<Name>): map<Name, Node> {
    map x | x in names && x in nodes :: nodes[x]
  }

  lemma OneMore(nodes: map<Name, Node>, names: seq<Name>, x: Name)
    requires x in nodes && x !in names
    ensures var before, after := Among(nodes, names), Among(nodes, names + [x]);
            && |InFlightNames(after)| == |InFlightNames(before)| + (if InFlight(nodes[x]) then 1 else 0)
            && |ControlPlanesInFlight(after)| == |ControlPlanesInFlight(before)| + (if InFlight(nodes[x]) && nodes[x].controlPlane then 1 else 0)
            && AnyFailed(after) == (AnyFailed(before) || InPhase(nodes[x], Failed))
            && AnyQueuedNotReady(after) == (AnyQueuedNotReady(before) || (InPhase(nodes[x], Requested) && !nodes[x].ready))
  {
    var before := Among(nodes, names);
    assert Among(nodes, names + [x]) == before[x := nodes[x]];
    OneMoreInFlight(before, x, nodes[x]);
    OneMoreHolds(before, x, nodes[x]);
  }

  lemma OneMoreInFlight(before: map<Name, Node>, x: Name, n: Node)
    requires x !in before
    ensures var after := before[x := n];
            && |InFlightNames(after)| == |InFlightNames(before)| + (if InFlight(n) then 1 else 0)
            && |ControlPlanesInFlight(after)| == |ControlPlanesInFlight(before)| + (if InFlight(n) && n.controlPlane then 1 else 0)
  {
    InFlightWith(before, x, n);
    ControlPlanesWith(before, x, n);
    assert x !in InFlightNames(before) && x !in ControlPlanesInFlight(before);
  }

  lemma InFlightWith(before: map<Name, Node>, x: Name, n: Node)
    requires x !in before
    ensures InFlightNames(before[x := n]) == if InFlight(n) then InFlightNames(before) + {x} else InFlightNames(before)
  {
  }

  lemma ControlPlanesWith(before: map<Name, Node>, x: Name, n: Node)
    requires x !in before
    ensures ControlPlanesInFlight(before[x := n])
         == if InFlight(n) && n.controlPlane then ControlPlanesInFlight(before) + {x} else ControlPlanesInFlight(before)
  {
  }

  lemma OneMoreHolds(before: map<Name, Node>, x: Name, n: Node)
    requires x !in before
    ensures var after := before[x := n];
            && AnyFailed(after) == (AnyFailed(before) || InPhase(n, Failed))
            && AnyQueuedNotReady(after) == (AnyQueuedNotReady(before) || (InPhase(n, Requested) && !n.ready))
  {
    var after := before[x := n];
    assert x in after && forall y :: y in before ==> y in after && after[y] == before[y];
  }

  /** What the pass over the list has counted. */
  datatype Tally = Tally(inFlight: nat, controlPlanes: nat, failed: bool, notReady: bool)

  function Counted(t: Tally, n: Node): Tally {
    Tally(t.inFlight + (if InFlight(n) then 1 else 0), t.controlPlanes + (if InFlight(n) && n.controlPlane then 1 else 0),
          t.failed || InPhase(n, Failed), t.notReady || (InPhase(n, Requested) && !n.ready))
  }

  function TallyOf(nodes: map<Name, Node>, names: seq<Name>, i: nat): Tally
    requires i <= |names| && forall x :: x in names ==> x in nodes
  {
    if i == 0 then Tally(0, 0, false, false) else Counted(TallyOf(nodes, names, i - 1), nodes[names[i - 1]])
  }

  ghost predicate Tells(t: Tally, part: map<Name, Node>) {
    && t.inFlight == |InFlightNames(part)| && t.controlPlanes == |ControlPlanesInFlight(part)|
    && t.failed == AnyFailed(part) && t.notReady == AnyQueuedNotReady(part)
  }

  lemma NothingToTell()
    ensures Tells(Tally(0, 0, false, false), map[])
  {
    assert InFlightNames(map[]) == {} && ControlPlanesInFlight(map[]) == {};
  }

  lemma OneMoreTold(t: Tally, nodes: map<Name, Node>, names: seq<Name>, x: Name)
    requires x in nodes && x !in names && Tells(t, Among(nodes, names))
    ensures Tells(Counted(t, nodes[x]), Among(nodes, names + [x]))
  {
    OneMore(nodes, names, x);
  }

  lemma {:induction false} TallyCounts(nodes: map<Name, Node>, names: seq<Name>, i: nat)
    requires i <= |names| && forall x :: x in names ==> x in nodes
    requires forall j, k :: 0 <= j < k < |names| ==> names[j] != names[k]
    ensures Tells(TallyOf(nodes, names, i), Among(nodes, names[..i]))
  {
    if i == 0 {
      NothingToTell();
      assert Among(nodes, names[..0]) == map[];
    } else {
      TallyCounts(nodes, names, i - 1);
      assert names[..i] == names[..i - 1] + [names[i - 1]];
      OneMoreTold(TallyOf(nodes, names, i - 1), nodes, names[..i - 1], names[i - 1]);
    }
  }

  predicate GateOpen(nodes: map<Name, Node>, config: Config) {
    && !(config.pauseOnFailure && AnyFailed(nodes)) && !AnyQueuedNotReady(nodes)
    && |InFlightNames(nodes)| < config.limit && |ControlPlanesInFlight(nodes)| < 1
  }

  /** Blocked by disruption budgets, which a forced request ignores, as it ignores windows. */
  predicate HeldByBudget(nodes: map<Name, Node>, config: Config, blocked: map<Name, seq<string>>, x: Name)
    requires x in nodes
  {
    InPhase(nodes[x], Requested) && !Forced(nodes[x]) && config.windowOpen && x in blocked
  }

  predicate Eligible(nodes: map<Name, Node>, config: Config, blocked: map<Name, seq<string>>, x: Name) {
    x in nodes && InPhase(nodes[x], Requested) && (Forced(nodes[x]) || (config.windowOpen && x !in blocked))
  }

  function CandidateOf(nodes: map<Name, Node>, x: Name): Candidate
    requires x in nodes && nodes[x].state.Parsed?
  {
    Candidate(x, nodes[x].state.value.since, nodes[x].controlPlane)
  }

  /** The one node the cycle stops at. */
  ghost predicate First(nodes: map<Name, Node>, config: Config, blocked: map<Name, seq<string>>, x: Name) {
    && Eligible(nodes, config, blocked, x)
    && forall y :: Eligible(nodes, config, blocked, y) && y != x ==> Before(CandidateOf(nodes, x), CandidateOf(nodes, y))
  }

  ghost predicate AheadOfAllEligible(nodes: map<Name, Node>, config: Config, blocked: map<Name, seq<string>>, x: Name)
    requires x in nodes && nodes[x].state.Parsed?
  {
    forall y :: Eligible(nodes, config, blocked, y) ==> Before(CandidateOf(nodes, x), CandidateOf(nodes, y))
  }

  /** The blockers of the budget-held nodes among `passed` are written down, nothing else. */
  ghost predicate Noted(start: map<Name, Node>, nodes: map<Name, Node>, config: Config,
                        blocked: map<Name, seq<string>>, passed: seq<Candidate>) {
    && nodes.Keys == start.Keys
    && forall x :: x in start ==>
         nodes[x] == if HeldByBudget(start, config, blocked, x) && CandidateOf(start, x) in passed
                     then Written(start[x], BlockedByBuild(blocked[x])) else start[x]
  }

  /** The nodes after the first `i` candidates have been passed. */
  function NotedUpTo(start: map<Name, Node>, config: Config, blocked: map<Name, seq<string>>, queue: seq<Candidate>, i: nat): (nodes: map<Name, Node>)
    requires i <= |queue| && forall c :: c in queue ==> c.name in start
    ensures nodes.Keys == start.Keys
  {
    if i == 0 then start
    else
      var x := queue[i - 1].name;
      assert queue[i - 1] in queue;
      var before := NotedUpTo(start, config, blocked, queue, i - 1);
      if HeldByBudget(start, config, blocked, x) then before[x := Written(start[x], BlockedByBuild(blocked[x]))] else before
  }

  lemma {:induction false} NotedAt(start: map<Name, Node>, config: Config, blocked: map<Name, seq<string>>,
                                   queue: seq<Candidate>, i: nat, x: Name)
    requires i <= |queue| && x in start
    requires forall c :: c in queue ==> c.name in start && InPhase(start[c.name], Requested) && c == CandidateOf(start, c.name)
    ensures var nodes := NotedUpTo(start, config, blocked, queue, i);
            && nodes.Keys == start.Keys
            && nodes[x] == if HeldByBudget(start, config, blocked, x) && CandidateOf(start, x) in queue[..i]
                           then Written(start[x], BlockedByBuild(blocked[x])) else start[x]
  {
    if i > 0 {
      NotedAt(start, config, blocked, queue, i - 1, x);
      assert queue[i - 1] in queue;
      assert queue[..i] == queue[..i - 1] + [queue[i - 1]];
      if queue[i - 1].name != x {
        assert HeldByBudget(start, config, blocked, x) ==> queue[i - 1] != CandidateOf(start, x);
      }
    }
  }

  lemma NotedUpToIsNoted(start: map<Name, Node>, config: Config, blocked: map<Name, seq<string>>, queue: seq<Candidate>, i: nat)
    requires i <= |queue|
    requires forall c :: c in queue ==> c.name in start && InPhase(start[c.name], Requested) && c == CandidateOf(start, c.name)
    ensures Noted(start, NotedUpTo(start, config, blocked, queue, i), config, blocked, queue[..i])
  {
    forall x | x in start
      ensures NotedUpTo(start, config, blocked, queue, i)[x]
           == if HeldByBudget(start, config, blocked, x) && CandidateOf(start, x) in queue[..i]
              then Written(start[x], BlockedByBuild(blocked[x])) else start[x]
    {
      NotedAt(start, config, blocked, queue, i, x);
    }
  }

  lemma NotNotedYet(start: map<Name, Node>, config: Config, blocked: map<Name, seq<string>>, queue: seq<Candidate>, i: nat)
    requires i < |queue| && Ordered(queue)
    requires forall c :: c in queue ==> c.name in start && InPhase(start[c.name], Requested) && c == CandidateOf(start, c.name)
    ensures var nodes := NotedUpTo(start, config, blocked, queue, i);
            nodes.Keys == start.Keys && queue[i].name in start && nodes[queue[i].name] == start[queue[i].name]
  {
    assert queue[i] in queue;
    NotAmongEarlier(queue, i);
    NotedUpToIsNoted(start, config, blocked, queue, i);
  }

  /** What passing the next candidate adds, when it is not eligible. */
  lemma PassStep(start: map<Name, Node>, config: Config, blocked: map<Name, seq<string>>, queue: seq<Candidate>, i: nat)
    requires i < |queue| && Ordered(queue)
    requires forall c :: c in queue ==> c.name in start && InPhase(start[c.name], Requested) && c == CandidateOf(start, c.name)
    ensures var x, nodes := queue[i].name, NotedUpTo(start, config, blocked, queue, i);
            && x in nodes && nodes[x] == start[x]
            && (Eligible(start, config, blocked, x) <==> Forced(start[x]) || (config.windowOpen && x !in blocked))
            && (!Eligible(start, config, blocked, x) ==>
                  (config.windowOpen ==> x in blocked)
                  && NotedUpTo(start, config, blocked, queue, i + 1)
                     == if config.windowOpen then nodes[x := Written(start[x], BlockedByBuild(blocked[x]))] else nodes)
  {
    NotNotedYet(start, config, blocked, queue, i);
    assert queue[i] in queue;
  }

  /** A requested node that windows and budgets let through, or a forced one. */
  predicate MayGo(nodes: map<Name, Node>, config: Config, blocked: map<Name, seq<string>>, x: Name) {
    && x in nodes && PhaseOf(nodes[x]) == Some(Requested)
    && ((nodes[x].request.Parsed? && nodes[x].request.value.force) || (config.windowOpen && x !in blocked))
  }

  /** No failure that pauses, no requested node NotReady, a free slot, and no control plane under way. */
  ghost predicate MayAdmit(nodes: map<Name, Node>, config: Config) {
    var busy := set x | x in nodes && (nodes[x].state.Corrupt? || PhaseOf(nodes[x]) in {Some(Draining), Some(Rebooting)});
    && (forall x :: x in nodes ==>
          && !(config.pauseOnFailure && PhaseOf(nodes[x]) == Some(Failed))
          && !(PhaseOf(nodes[x]) == Some(Requested) && !nodes[x].ready)
          && !(x in busy && nodes[x].controlPlane))
    && |busy| < config.limit
  }

  /** Whom the cycle admits, and how: nobody waits longer, nor as long as a worker behind a control
      plane; and the node is draining and cordoned. */
  ghost predicate AdmitsRightly(before: map<Name, Node>, after: map<Name, Node>, config: Config, blocked: map<Name, seq<string>>,
                                x: Name, now: int) {
    && MayAdmit(before, config) && MayGo(before, config, blocked, x) && x in after
    && (forall y :: MayGo(before, config, blocked, y) ==>
          var mine, other := before[x].state.value.since, before[y].state.value.since;
          mine < other || (mine == other && (before[x].controlPlane ==> before[y].controlPlane)))
    && after[x].state == Parsed(StateRecord(Draining, now)) && after[x].unschedulable
    && (before[x].unschedulable ==> after[x].status.Parsed? && after[x].status.value.cordonedPrev == Some(true))
  }

  lemma GateIsOpen(nodes: map<Name, Node>, config: Config)
    ensures GateOpen(nodes, config) <==> MayAdmit(nodes, config)
  {
    var busy := set x | x in nodes && (nodes[x].state.Corrupt? || PhaseOf(nodes[x]) in {Some(Draining), Some(Rebooting)});
    assert busy == InFlightNames(nodes);
    if forall x :: x in nodes ==> !(x in busy && nodes[x].controlPlane) {
      assert ControlPlanesInFlight(nodes) == {};
    } else {
      var x :| x in nodes && x in busy && nodes[x].controlPlane;
      assert x in ControlPlanesInFlight(nodes);
    }
  }

  lemma NobodyMayGo(nodes: map<Name, Node>, config: Config, blocked: map<Name, seq<string>>)
    requires forall x :: !Eligible(nodes, config, blocked, x)
    ensures forall x :: !MayGo(nodes, config, blocked, x)
  {
    forall x
      ensures !MayGo(nodes, config, blocked, x)
    {
      assert !Eligible(nodes, config, blocked, x);
    }
  }

  lemma FirstIsRight(before: map<Name, Node>, after: map<Name, Node>, config: Config, blocked: map<Name, seq<string>>, x: Name, now: int)
    requires GateOpen(before, config) && First(before, config, blocked, x) && x in after
    requires after[x] == Apply(before[x], ToDrainingPatch(now, before[x].status, before[x].unschedulable))
    ensures AdmitsRightly(before, after, config, blocked, x, now)
  {
    GateIsOpen(before, config);
    DrainingMeans(before[x], now);
    forall y | MayGo(before, config, blocked, y)
      ensures var mine, other := before[x].state.value.since, before[y].state.value.since;
              mine < other || (mine == other && (before[x].controlPlane ==> before[y].controlPlane))
    {
      assert Eligible(before, config, blocked, y);
    }
  }

  class Cluster {
    /** The order of `ListNodes`. */
    var names: seq<Name>
    var nodes: map<Name, Node>

    ghost predicate Valid()
      reads this
    {
      && (forall x :: x in names <==> x in nodes)
      && (forall i, j :: 0 <= i < j < |names| ==> names[i] != names[j])
    }

    constructor (names: seq<Name>, nodes: map<Name, Node>)
      requires forall x :: x in names <==> x in nodes
      requires forall i, j :: 0 <= i < j < |names| ==> names[i] != names[j]
      ensures Valid() && this.names == names && this.nodes == nodes
    {
      this.names, this.nodes := names, nodes;
    }

    /** The four admission gates, counted in one pass. */
    method AdmissionCounts() returns (inFlight: nat, controlPlanes: nat, anyFailed: bool, queuedNotReady: bool)
      requires Valid()
      ensures inFlight == |InFlightNames(nodes)| && controlPlanes == |ControlPlanesInFlight(nodes)|
      ensures anyFailed == AnyFailed(nodes)
      ensures queuedNotReady == AnyQueuedNotReady(nodes)
    {
      inFlight, controlPlanes, anyFailed, queuedNotReady := 0, 0, false, false;
      var i := 0;
      while i < |names|
        invariant 0 <= i <= |names| && Tally(inFlight, controlPlanes, anyFailed, queuedNotReady) == TallyOf(nodes, names, i)
      {
        var n := nodes[names[i]];
        if InFlight(n) {
          inFlight := inFlight + 1;
          if n.controlPlane {
            controlPlanes := controlPlanes + 1;
          }
        }
        if InPhase(n, Failed) {
          anyFailed := true;
        } else if InPhase(n, Requested) && !n.ready {
          queuedNotReady := true;
        }
        i := i + 1;
      }
      TallyCounts(nodes, names, |names|);
      assert Among(nodes, names[..|names|]) == nodes;
    }

    /** The requested nodes in queue order. */
    method Queue() returns (queue: seq<Candidate>)
      requires Valid()
      ensures Ordered(queue)
      ensures forall x :: x in nodes && InPhase(nodes[x], Requested) ==> CandidateOf(nodes, x) in queue
      ensures forall c :: c in queue ==> c.name in nodes && InPhase(nodes[c.name], Requested) && c == CandidateOf(nodes, c.name)
    {
      var q: seq<Candidate> := [];
      var i := 0;
      while i < |names|
        invariant 0 <= i <= |names| && Distinct(q)
        invariant forall x :: x in names[..i] && InPhase(nodes[x], Requested) ==> CandidateOf(nodes, x) in q
        invariant forall c :: c in q ==> c.name in names[..i] && InPhase(nodes[c.name], Requested) && c == CandidateOf(nodes, c.name)
      {
        var x := names[i];
        assert x !in names[..i] && names[..i + 1] == names[..i] + [x];
        if InPhase(nodes[x], Requested) {
          q := q + [CandidateOf(nodes, x)];
        }
        i := i + 1;
      }
      assert names[..|names|] == names;
      SortQueueSorts(q);
      queue := SortQueue(q);
      assert forall c :: c in queue <==> c in multiset(queue);
      assert forall c :: c in q <==> c in multiset(q);
    }

    /** Walk the queue to its first eligible candidate, recording the blockers of the nodes
        passed over; a node held by a closed window is passed over silently. */
    method PassHeld(queue: seq<Candidate>, config: Config, blocked: map<Name, seq<string>>) returns (i: nat)
      requires Valid() && Ordered(queue)
      requires forall c :: c in queue ==> c.name in nodes && InPhase(nodes[c.name], Requested) && c == CandidateOf(nodes, c.name)
      modifies this`nodes
      ensures Valid() && i <= |queue|
      ensures forall j :: 0 <= j < i ==> !Eligible(old(nodes), config, blocked, queue[j].name)
      ensures i < |queue| ==> Eligible(old(nodes), config, blocked, queue[i].name)
      ensures Noted(old(nodes), nodes, config, blocked, queue[..i])
    {
      ghost var start := nodes;
      i := 0;
      while i < |queue|
        invariant i <= |queue| && nodes == NotedUpTo(start, config, blocked, queue, i)
        invariant forall j :: 0 <= j < i ==> !Eligible(start, config, blocked, queue[j].name)
      {
        var x := queue[i].name;
        PassStep(start, config, blocked, queue, i);
        if Forced(nodes[x]) || (config.windowOpen && x !in blocked) {
          break;
        }
        if config.windowOpen {
          nodes := nodes[x := Written(nodes[x], BlockedByBuild(blocked[x]))];
        }
        i := i + 1;
      }
      NotedUpToIsNoted(start, config, blocked, queue, i);
    }

    /** One admission phase. `blocked` gives the disruption budgets in the way of a node;
        `owns` is the lease re-check before the patch. At most one node is admitted, and it is
        the least eligible one; budget-blocked nodes ahead of it get their blockers recorded;
        nothing else changes. */
    method Admit(config: Config, blocked: map<Name, seq<string>>, owns: bool, now: int) returns (admitted: Option<Name>)
      requires Valid()
      modifies this`nodes
      ensures Valid()
      ensures admitted.Some? ==>
                GateOpen(old(nodes), config) && owns && First(old(nodes), config, blocked, admitted.value)
      ensures admitted.None? && GateOpen(old(nodes), config) && owns ==>
                forall x :: !Eligible(old(nodes), config, blocked, x)
      ensures !GateOpen(old(nodes), config) ==> nodes == old(nodes)
      ensures admitted.Some? ==> AdmitsRightly(old(nodes), nodes, config, blocked, admitted.value, now)
      ensures admitted.None? && owns && MayAdmit(old(nodes), config) ==> forall x :: !MayGo(old(nodes), config, blocked, x)
      ensures nodes.Keys == old(nodes).Keys
      ensures GateOpen(old(nodes), config) ==>
                forall x :: x in old(nodes) ==>
                  nodes[x] ==
                  if admitted == Some(x) then
                    Apply(old(nodes)[x], ToDrainingPatch(now, old(nodes)[x].status, old(nodes)[x].unschedulable))
                  else if HeldByBudget(old(nodes), config, blocked, x) && AheadOfAllEligible(old(nodes), config, blocked, x) then
                    Written(old(nodes)[x], BlockedByBuild(blocked[x]))
                  else old(nodes)[x]
    {
      GateIsOpen(nodes, config);
      var inFlight, controlPlanes, anyFailed, queuedNotReady := AdmissionCounts();
      if (config.pauseOnFailure && anyFailed) || queuedNotReady || config.limit <= inFlight || 1 <= controlPlanes {
        return None;
      }
      admitted := AdmitFirst(config, blocked, owns, now);
      if admitted.Some? {
        FirstIsRight(old(nodes), nodes, config, blocked, admitted.value, now);
      } else if owns {
        NobodyMayGo(old(nodes), config, blocked);
      }
    }

    /** Behind open gates: the queue, and the first node in it that may go. */
    method AdmitFirst(config: Config, blocked: map<Name, seq<string>>, owns: bool, now: int) returns (admitted: Option<Name>)
      requires Valid() && GateOpen(nodes, config)
      modifies this`nodes
      ensures Valid() && nodes.Keys == old(nodes).Keys
      ensures admitted.Some? ==> owns && First(old(nodes), config, blocked, admitted.value)
      ensures admitted.None? && owns ==> forall x :: !Eligible(old(nodes), config, blocked, x)
      ensures forall x :: x in old(nodes) ==>
                nodes[x] ==
                if admitted == Some(x) then
                  Apply(old(nodes)[x], ToDrainingPatch(now, old(nodes)[x].status, old(nodes)[x].unschedulable))
                else if HeldByBudget(old(nodes), config, blocked, x) && AheadOfAllEligible(old(nodes), config, blocked, x) then
                  Written(old(nodes)[x], BlockedByBuild(blocked[x]))
                else old(nodes)[x]
    {
      var queue := Queue();
      ghost var start := nodes;
      var i := PassHeld(queue, config, blocked);
      if i == |queue| {
        assert queue[..i] == queue;
        NobodyEligible(start, config, blocked, queue);
        return None;
      }
      PassedAreEarlier(start, config, blocked, queue, i);
      if !owns {
        return None;
      }
      var x := queue[i].name;
      NotAmongEarlier(queue, i);
      assert queue[i] in queue;
      assert nodes[x] == start[x];
      nodes := nodes[x := Written(nodes[x], DrainBuild(now))];
      return Some(x);
    }
  }

  lemma NobodyEligible(nodes: map<Name, Node>, config: Config, blocked: map<Name, seq<string>>, queue: seq<Candidate>)
    requires forall x :: x in nodes && InPhase(nodes[x], Requested) ==> CandidateOf(nodes, x) in queue
    requires forall j :: 0 <= j < |queue| ==> !Eligible(nodes, config, blocked, queue[j].name)
    ensures forall x :: !Eligible(nodes, config, blocked, x)
    ensures forall x :: x in nodes && InPhase(nodes[x], Requested) ==> AheadOfAllEligible(nodes, config, blocked, x)
  {
    forall x
      ensures !Eligible(nodes, config, blocked, x)
    {
      if x in nodes && InPhase(nodes[x], Requested) {
        var j :| 0 <= j < |queue| && queue[j] == CandidateOf(nodes, x);
      }
    }
  }

  lemma NotAmongEarlier(queue: seq<Candidate>, i: nat)
    requires Ordered(queue) && i < |queue|
    ensures queue[i] !in queue[..i]
  {
    BeforeIsStrictOrder(queue[i], queue[i], queue[i]);
  }

  /** At the first eligible position, the candidates already passed are exactly those before
      every eligible one. */
  lemma PassedAreEarlier(nodes: map<Name, Node>, config: Config, blocked: map<Name, seq<string>>, queue: seq<Candidate>, i: nat)
    requires Ordered(queue) && i < |queue|
    requires forall x :: x in nodes && InPhase(nodes[x], Requested) ==> CandidateOf(nodes, x) in queue
    requires forall c :: c in queue ==> c.name in nodes && InPhase(nodes[c.name], Requested) && c == CandidateOf(nodes, c.name)
    requires Eligible(nodes, config, blocked, queue[i].name)
    requires forall j :: 0 <= j < i ==> !Eligible(nodes, config, blocked, queue[j].name)
    ensures First(nodes, config, blocked, queue[i].name)
    ensures forall x :: x in nodes && HeldByBudget(nodes, config, blocked, x) ==>
              (CandidateOf(nodes, x) in queue[..i] <==> AheadOfAllEligible(nodes, config, blocked, x))
  {
    var e := queue[i].name;
    assert queue[i] in queue;
    forall y | Eligible(nodes, config, blocked, y)
      ensures exists k :: i <= k < |queue| && queue[k] == CandidateOf(nodes, y)
    {
      assert CandidateOf(nodes, y) in queue;
      var k :| 0 <= k < |queue| && queue[k] == CandidateOf(nodes, y);
      assert i <= k;
    }
    forall x | x in nodes && HeldByBudget(nodes, config, blocked, x)
      ensures CandidateOf(nodes, x) in queue[..i] <==> AheadOfAllEligible(nodes, config, blocked, x)
    {
      assert CandidateOf(nodes, x) in queue;
      var k :| 0 <= k < |queue| && queue[k] == CandidateOf(nodes, x);
      if k < i {
        assert queue[k] == queue[..i][k];
      } else {
        assert k != i;
        BeforeIsStrictOrder(queue[i], queue[k], queue[k]);
        assert forall l :: 0 <= l < i ==> queue[l] != queue[k] by {
          forall l | 0 <= l < i
            ensures queue[l] != queue[k]
          {
            BeforeIsStrictOrder(queue[l], queue[k], queue[k]);
          }
        }
      }
    }
  }
}
