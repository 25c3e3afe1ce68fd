/** The boot goal: the update pod's cycle over `next-kernel`, the staged kernels and the
    bootloader default (internal/features/update/update.go, reconcile.go, enqueue.go). */
module BootGoal {
  import opened Wrappers
  import opened Names
  import opened NodeState
  import opened Store
  import opened Boot

  /** A successful check: the newest release, whether it is newer than the running one, and
      what the verified index lists; only compressed kernels of one kind can be staged. */
  datatype Check = Check(latest: string, available: bool, listed: set<string>, stageable: set<string>)

  /** What one cycle meets: an update window's newest occurrence, the check's outcome, whether
      a reboot window is open, the time, and the id a request would get. */
  datatype Inputs = Inputs(window: Option<int>, check: Option<Check>, rebootsOpen: bool, now: int, requestId: string)

  /* ---- What the pod may write ---------------------------------------------------------------- */

  /** The facts a cycle's decisions rest on: the running version and flavor, the kernels at its
      start, and the verified index, when there is one. */
  datatype Facts = Facts(running: string, arch: string, files: set<Image>, check: Option<Check>)

  /** A goal the pod may give up: malformed, or, with an index at hand, neither running nor on
      the partition nor listed. */
  predicate Bad(goal: string, facts: Facts) {
    || !WellFormedVersion(goal)
    || (&& facts.check.Some? && goal !in facts.check.value.listed
        && goal != facts.running && Image(goal, facts.arch) !in facts.files)
  }

  /** A completed attempt forgotten; anything else, a failed one too, stays. */
  function Rearmed(n: Node): Node {
    if InPhase(n, Completed) then n.(state := Absent, request := Absent, exec := Absent, status := Absent) else n
  }

  /** What the pod means to do to the goal while it writes: nothing; give a node without a goal
      one of the kernels there; make the newest release the goal of a quiescent node; or replace
      the one value judged bad. */
  datatype Decision = LeaveGoal | Install(target: string) | Advance(target: string) | Replace(bad: string, safe: Option<string>)

  /** The values a decision may find where it writes. */
  function Assumed(d: Decision, running: string): set<Option<string>> {
    match d
    case LeaveGoal => {}
    case Install(_) => {None}
    case Advance(_) => {None, Some(running)}
    case Replace(bad, _) => {Some(bad)}
  }

  function Target(d: Decision): Option<string>
    requires !d.LeaveGoal?
  {
    match d
    case Install(t) => Some(t)
    case Advance(t) => Some(t)
    case Replace(_, t) => t
  }

  /** The goals read in this cycle, each with the first version it was read at; the goals whose
      file and default were verified, each with how many versions the node had by then; and the
      decision in force at each version. */
  datatype Notes = Notes(seen: map<Option<string>, nat>, verified: map<string, nat>, decisions: seq<Decision>)

  predicate SeenBefore(value: Option<string>, notes: Notes, k: nat) {
    value in notes.seen && notes.seen[value] < k
  }

  /** Verified before version `k` was written. */
  predicate VerifiedBefore(goal: string, notes: Notes, k: nat) {
    goal in notes.verified && notes.verified[goal] <= k
  }

  /** A decision in force at version `k` rests on a goal read before it, and its target on the
      kernels found or on the check. */
  predicate Justified(d: Decision, k: nat, notes: Notes, facts: Facts) {
    match d
    case LeaveGoal => true
    case Install(t) => SeenBefore(None, notes, k) && SafeGoal(Some(t), facts.running, true, AllVersions(facts.files))
    case Advance(t) =>
      && (SeenBefore(None, notes, k) || SeenBefore(Some(facts.running), notes, k))
      && facts.check.Some? && facts.check.value.available && t == facts.check.value.latest
    case Replace(bad, t) =>
      && SeenBefore(Some(bad), notes, k) && Bad(bad, facts)
      && SafeGoal(t, facts.running, facts.running != "", OwnVersions(facts.files, facts.arch))
  }

  /** A step of the pod's own: it changes the goal only from a value its decision assumed to the
      decision's target; it forgets only a completed reboot; and it requests one only where there
      is no state and the goal was verified before. */
  predicate OwnStep(a: Node, b: Node, d: Decision, k: nat, notes: Notes, facts: Facts) {
    && (b.nextKernel == a.nextKernel || (a.nextKernel in Assumed(d, facts.running) && b.nextKernel == Target(d)))
    && (|| b.state == a.state
        || (InPhase(a, Completed) && b.state.Absent? && b.nextKernel == a.nextKernel)
        || (&& a.state.Absent? && InPhase(b, Requested) && b.nextKernel == a.nextKernel
            && a.nextKernel.Some? && WellFormedVersion(a.nextKernel.value) && a.nextKernel.value != facts.running
            && VerifiedBefore(a.nextKernel.value, notes, k)))
  }

  ghost predicate OwnStepAt(history: seq<Version>, k: nat, notes: Notes, facts: Facts)
    requires 0 < k < |history| && k < |notes.decisions|
  {
    history[k].author.Ours? ==> OwnStep(history[k - 1].node, history[k].node, notes.decisions[k], k, notes, facts)
  }

  ghost predicate OwnSteps(history: seq<Version>, from: nat, notes: Notes, facts: Facts)
    requires |notes.decisions| == |history|
  {
    forall k: nat :: from <= k < |history| && 0 < k ==> OwnStepAt(history, k, notes, facts)
  }

  ghost predicate JustifiedAt(notes: Notes, k: nat, facts: Facts)
    requires k < |notes.decisions|
  {
    Justified(notes.decisions[k], k, notes, facts)
  }

  /** The notes are true of the history, and each decision is justified. */
  ghost predicate NotesHold(history: seq<Version>, from: nat, notes: Notes, facts: Facts) {
    && |notes.decisions| == |history|
    && (forall v :: v in notes.verified ==> from <= notes.verified[v] <= |history|)
    && (forall v :: v in notes.seen ==> from <= notes.seen[v] + 1 && notes.seen[v] < |history| && history[notes.seen[v]].node.nextKernel == v)
    && (forall k: nat :: from <= k < |history| ==> JustifiedAt(notes, k, facts))
  }

  /** The account of a cycle. */
  ghost predicate BooksHold(history: seq<Version>, from: nat, notes: Notes, facts: Facts) {
    NotesHold(history, from, notes, facts) && OwnSteps(history, from, notes, facts)
  }

  ghost predicate AllowedBuild(build: Build, d: Decision, k: nat, notes: Notes, facts: Facts) {
    forall n: Node :: build(n).Some? ==> OwnStep(n, Apply(n, build(n).value), d, k, notes, facts)
  }

  function FreshNotes(length: nat): Notes {
    Notes(map[], map[], seq(length, _ => LeaveGoal))
  }

  lemma FreshBooks(history: seq<Version>, facts: Facts)
    ensures BooksHold(history, |history|, FreshNotes(|history|), facts)
  {
  }

  /** The decision `d` was in force from the end of the notes on. */
  function Noted(notes: Notes, length: nat, d: Decision): Notes
    requires |notes.decisions| <= length
  {
    notes.(decisions := notes.decisions + seq(length - |notes.decisions|, _ => d))
  }

  ghost predicate KeepsGoal(build: Build) {
    forall n: Node :: build(n).Some? ==> Apply(n, build(n).value).nextKernel == n.nextKernel
  }

  ghost predicate KeepsState(build: Build) {
    forall n: Node :: build(n).Some? ==> Apply(n, build(n).value).state == n.state
  }

  /** The others leave the goal, or the state, alone. */
  ghost predicate OthersKeepGoal(discipline: Discipline) {
    forall a: Node, b: Node :: discipline(a, b) ==> b.nextKernel == a.nextKernel
  }

  ghost predicate OthersKeepState(discipline: Discipline) {
    forall a: Node, b: Node :: discipline(a, b) ==> b.state == a.state
  }

  ghost predicate GoalStays(history: seq<Version>, from: nat, goal: string) {
    forall k :: from <= k < |history| ==> history[k].node.nextKernel == Some(goal)
  }

  ghost predicate StaysCompleted(history: seq<Version>, from: nat) {
    forall k :: from <= k < |history| ==> InPhase(history[k].node, Completed)
  }

  ghost predicate PointsOnlyAt(points: seq<Image>, before: seq<Image>, image: Image) {
    before <= points && forall k :: |before| <= k < |points| ==> points[k] == image
  }

  lemma {:induction false} BooksGrow(before: seq<Version>, after: seq<Version>, build: Build, d: Decision,
                                     from: nat, notes: Notes, facts: Facts)
    requires before != [] && Extends(before, after) && BooksHold(before, from, notes, facts)
    requires OnlyOthers(after, |before|) || WroteOnce(after, |before|, build)
    requires AllowedBuild(build, d, |before|, notes, facts) && Justified(d, |before|, notes, facts)
    ensures BooksHold(after, from, Noted(notes, |after|, d), facts)
  {
    var later := Noted(notes, |after|, d);
    forall k: nat | from <= k < |after| && 0 < k
      ensures OwnStepAt(after, k, later, facts)
    {
      if k < |before| {
        assert OwnStepAt(before, k, notes, facts);
        assert after[..|before|][k] == before[k] && after[..|before|][k - 1] == before[k - 1];
      }
    }
    NotesGrow(before, after, d, from, notes, facts);
  }

  lemma NotesGrow(before: seq<Version>, after: seq<Version>, d: Decision, from: nat, notes: Notes, facts: Facts)
    requires Extends(before, after) && NotesHold(before, from, notes, facts)
    requires Justified(d, |before|, notes, facts)
    ensures NotesHold(after, from, Noted(notes, |after|, d), facts)
  {
    var later := Noted(notes, |after|, d);
    forall k: nat | from <= k < |after|
      ensures JustifiedAt(later, k, facts)
    {
      assert k < |before| ==> JustifiedAt(notes, k, facts);
    }
    forall v | v in notes.seen
      ensures notes.seen[v] < |after| && after[notes.seen[v]].node.nextKernel == v
    {
      assert after[..|before|][notes.seen[v]] == before[notes.seen[v]];
    }
  }

  /** A goal read for the first time is noted. */
  function WithSeen(notes: Notes, value: Option<string>, k: nat): Notes {
    if value in notes.seen then notes else notes.(seen := notes.seen[value := k])
  }

  lemma SeeingKeepsBooks(history: seq<Version>, from: nat, notes: Notes, facts: Facts)
    requires history != [] && from <= |history| && BooksHold(history, from, notes, facts)
    ensures BooksHold(history, from, WithSeen(notes, history[|history| - 1].node.nextKernel, |history| - 1), facts)
  {
    MoreNotes(history, from, notes, WithSeen(notes, history[|history| - 1].node.nextKernel, |history| - 1), facts);
  }

  /** A goal verified for the first time is noted. */
  function WithVerified(notes: Notes, goal: string, length: nat): Notes {
    if goal in notes.verified then notes else notes.(verified := notes.verified[goal := length])
  }

  lemma VerifyingKeepsBooks(history: seq<Version>, from: nat, notes: Notes, facts: Facts, goal: string)
    requires from <= |history| && BooksHold(history, from, notes, facts)
    ensures BooksHold(history, from, WithVerified(notes, goal, |history|), facts)
  {
    MoreNotes(history, from, notes, WithVerified(notes, goal, |history|), facts);
  }

  /** More notes of the same decisions justify what fewer did. */
  lemma MoreNotes(history: seq<Version>, from: nat, notes: Notes, later: Notes, facts: Facts)
    requires |notes.decisions| == |history| && later.decisions == notes.decisions && OwnSteps(history, from, notes, facts)
    requires forall k: nat :: from <= k < |history| ==> JustifiedAt(notes, k, facts)
    requires forall v :: v in notes.seen ==> v in later.seen && later.seen[v] == notes.seen[v]
    requires forall v :: v in notes.verified ==> v in later.verified && later.verified[v] == notes.verified[v]
    ensures OwnSteps(history, from, later, facts) && forall k: nat :: from <= k < |history| ==> JustifiedAt(later, k, facts)
  {
    forall k: nat | from <= k < |history|
      ensures JustifiedAt(later, k, facts) && (0 < k ==> OwnStepAt(history, k, later, facts))
    {
      assert JustifiedAt(notes, k, facts) && (0 < k ==> OwnStepAt(history, k, notes, facts));
    }
  }

  lemma ExtendsThrough(a: seq<Version>, b: seq<Version>, c: seq<Version>)
    requires Extends(a, b) && Extends(b, c)
    ensures Extends(a, c)
  {
    assert c[..|a|] == c[..|b|][..|a|];
  }

  /** What both sides leave alone stays. */
  lemma {:induction false} GoalStaysThrough(s: NodeStore, before: seq<Version>, build: Build, from: nat, goal: string, upTo: nat)
    requires s.Valid() && OthersKeepGoal(s.discipline) && KeepsGoal(build)
    requires before != [] && Extends(before, s.history) && from < |before| && GoalStays(before, from, goal)
    requires OnlyOthers(s.history, |before|) || WroteOnce(s.history, |before|, build)
    requires |before| <= upTo <= |s.history|
    ensures GoalStays(s.history[..upTo], from, goal)
  {
    if upTo == |before| {
      assert s.history[..upTo] == before;
    } else {
      GoalStaysThrough(s, before, build, from, goal, upTo - 1);
      assert s.history[..upTo - 1][upTo - 2] == s.history[upTo - 2];
      assert forall k :: 0 <= k < upTo - 1 ==> s.history[..upTo][k] == s.history[..upTo - 1][k];
    }
  }

  lemma {:induction false} CompletedStaysThrough(s: NodeStore, before: seq<Version>, build: Build, from: nat, upTo: nat)
    requires s.Valid() && OthersKeepState(s.discipline) && KeepsState(build)
    requires before != [] && Extends(before, s.history) && from < |before| && StaysCompleted(before, from)
    requires OnlyOthers(s.history, |before|) || WroteOnce(s.history, |before|, build)
    requires |before| <= upTo <= |s.history|
    ensures StaysCompleted(s.history[..upTo], from)
  {
    if upTo == |before| {
      assert s.history[..upTo] == before;
    } else {
      CompletedStaysThrough(s, before, build, from, upTo - 1);
      assert s.history[..upTo - 1][upTo - 2] == s.history[upTo - 2];
      assert forall k :: 0 <= k < upTo - 1 ==> s.history[..upTo][k] == s.history[..upTo - 1][k];
    }
  }

  /* ---- The pod -------------------------------------------------------------------------------- */

  predicate Held(view: Node, running: string) {
    view.nextKernel.Some? && (!WellFormedVersion(view.nextKernel.value) || view.nextKernel.value != running)
  }

  /** The goal for a node without a usable one: the running version when its kernel is there,
      else a newest one of those there, else none. */
  predicate SafeGoal(target: Option<string>, running: string, runningKnown: bool, local: set<string>) {
    match target
    case None => local == {}
    case Some(v) => v in local && (if runningKnown && running in local then v == running else forall u :: u in local ==> !Newer(u, v))
  }

  function OwnVersions(files: set<Image>, arch: string): set<string> {
    set k | k in files && k.flavor == arch :: k.ts
  }

  function AllVersions(files: set<Image>): set<string> {
    set k | k in files :: k.ts
  }

  /** A goal still judged bad gives way to a safe one, and with a new goal a completed attempt
      is forgotten. */
  predicate Corrected(before: Node, after: Node, bad: string, running: string, local: set<string>) {
    if before.nextKernel != Some(bad) then after == before
    else
      && SafeGoal(after.nextKernel, running, running != "", local)
      && after == if after.nextKernel.None? then before.(nextKernel := None) else Rearmed(before.(nextKernel := after.nextKernel))
  }

  /* ---- What a quiet cycle comes to --------------------------------------------------------------- */

  /** Node and partition between two calls. */
  datatype Snap = Snap(node: Node, files: set<Image>, default: Option<Image>)

  predicate Local(v: string, s: Snap, arch: string) {
    Image(v, arch) in s.files
  }

  /** A well-formed goal whose kernel is there is the default. */
  predicate AtGoal(s: Snap, arch: string) {
    s.node.nextKernel.Some? && WellFormedVersion(s.node.nextKernel.value) && Local(s.node.nextKernel.value, s, arch) ==>
      s.default == Some(Image(s.node.nextKernel.value, arch))
  }

  predicate SameAttempt(a: Node, b: Node) {
    b.state == a.state && b.request == a.request && b.exec == a.exec && b.status == a.status
  }

  predicate NoAttempt(n: Node) {
    n.state.Absent? && n.request.Absent? && n.exec.Absent? && n.status.Absent?
  }

  /** What all steps before the request keep: of the node only the goal changes, and of the
      reboot's annotations only a completed attempt's go, all together; no kernel goes; and a
      default that is at the goal stays with it. */
  predicate Lawful(a: Snap, b: Snap, arch: string) {
    && (SameAttempt(a.node, b.node) || (InPhase(a.node, Completed) && NoAttempt(b.node)))
    && b.node.lastCheck == a.node.lastCheck && b.node.unschedulable == a.node.unschedulable
    && b.node.ready == a.node.ready && b.node.controlPlane == a.node.controlPlane
    && a.files <= b.files && (AtGoal(a, arch) ==> AtGoal(b, arch))
  }

  function Moved(n: Node, bad: string, target: Option<string>): Node {
    if n.nextKernel != Some(bad) then n
    else if target.None? then n.(nextKernel := None)
    else Rearmed(n.(nextKernel := target))
  }

  lemma MovedIsLawful(a: Snap, b: Snap, bad: string, target: Option<string>, arch: string)
    requires b.node == Moved(a.node, bad, target) && b.files == a.files
    requires if a.node.nextKernel == Some(bad) && target.Some? then b.default == Some(Image(target.value, arch)) else b.default == a.default
    ensures Lawful(a, b, arch) && (a.node.nextKernel == Some(bad) ==> AtGoal(b, arch))
  {
  }

  /** The default brought to the goal, and a completed attempt kept or forgotten. */
  lemma ConvergedIsLawful(a: Snap, b: Snap, goal: string, rearmed: bool, arch: string)
    requires a.node.nextKernel == Some(goal) && b.files == a.files
    requires b.node == if rearmed then Rearmed(a.node) else a.node
    requires b.default == if Local(goal, a, arch) then Some(Image(goal, arch)) else a.default
    ensures Lawful(a, b, arch) && AtGoal(b, arch)
  {
  }

  /** A new goal whose kernel is there and is the default. */
  lemma TakenIsLawful(a: Snap, b: Snap, latest: string, arch: string)
    requires b.node == Rearmed(a.node.(nextKernel := Some(latest)))
    requires a.files <= b.files && b.default == Some(Image(latest, arch))
    ensures Lawful(a, b, arch)
  {
  }

  /** The goal's kernel, staged, is the default. */
  lemma StagedIsLawful(a: Snap, b: Snap, goal: string, arch: string)
    requires a.node.nextKernel == Some(goal) && b.node == Rearmed(a.node)
    requires a.files <= b.files && b.default == Some(Image(goal, arch))
    ensures Lawful(a, b, arch)
  {
  }

  /** What a proof follows through a cycle: nothing in particular, a held goal, or a completed
      attempt at one. */
  datatype Mode = Free | Hold(goal: string) | Rest(goal: string)

  /** Ghost: the notes of the present cycle. */
  class Ledger {
    ghost var notes: Notes

    constructor ()
    {
      notes := Notes(map[], map[], []);
    }
  }

  class Updater {
    const store: NodeStore
    const boot: BootPartition
    const ledger: Ledger
    const running: string
    const resolve: set<Image> -> Option<string> // the flavor a listing resolves to

    var lastGoal: string
    var goalKnown: bool
    var flavor: Option<string>

    /** The present cycle: the history it found, what it rests on, and what
        the proof follows. */
    ghost var start: seq<Version>
    ghost var startPoints: seq<Image>
    ghost var facts: Facts
    ghost var mode: Mode

    constructor (store: NodeStore, boot: BootPartition, running: string, resolve: set<Image> -> Option<string>)
      ensures this.store == store && this.boot == boot && this.running == running && this.resolve == resolve
      ensures !goalKnown && flavor.None?
    {
      this.store, this.boot, this.running, this.resolve := store, boot, running, resolve;
      this.lastGoal, this.goalKnown, this.flavor := "", false, None;
      this.start, this.startPoints, this.mode := [], [], Free;
      this.facts := Facts(running, "", {}, None);
      ledger := new Ledger();
    }

    ghost predicate FlavorIs(arch: string)
      reads this, boot
    {
      if flavor.Some? then flavor.value == arch else (resolve(boot.files).Some? ==> resolve(boot.files).value == arch)
    }

    /** The goal is the one followed at every version of the node since the cycle began, and
        nothing else was made the default. */
    ghost predicate Holding()
      reads this, store, boot
      requires !mode.Free? && start != []
    {
      && OthersKeepGoal(store.discipline)
      && WellFormedVersion(mode.goal) && mode.goal != running
      && GoalStays(store.history, |start| - 1, mode.goal)
      && PointsOnlyAt(boot.points, startPoints, Image(mode.goal, facts.arch))
    }

    /** The attempt at the goal is over and the node still does not run it; it is the default
        and its kernel is there, and the pod knows of no other goal. */
    ghost predicate Resting()
      reads this, store, boot
      requires !mode.Free? && start != []
    {
      && OthersKeepState(store.discipline)
      && StaysCompleted(store.history, |start| - 1)
      && Image(mode.goal, facts.arch) in boot.files && boot.default == Some(Image(mode.goal, facts.arch))
      && boot.points == startPoints && boot.files == facts.files
      && (goalKnown ==> lastGoal == mode.goal)
      && (flavor.None? ==> resolve(boot.files) == Some(facts.arch))
    }

    ghost predicate Valid()
      reads this, store, boot, ledger
    {
      && store.Valid() && start != [] && Extends(start, store.history) && startPoints <= boot.points
      && facts.running == running && FlavorIs(facts.arch)
      && BooksHold(store.history, |start|, ledger.notes, facts)
      && (!mode.Free? ==> Holding())
      && (mode.Rest? ==> Resting())
    }

    ghost function Now(): Snap
      reads store, boot
    {
      Snap(store.node, boot.files, boot.default)
    }

    /** Nobody interferes and nothing fails. */
    predicate Quiet()
      reads store, boot
    {
      store.script == [] && boot.script == []
    }

    twostate predicate SameCycle()
      reads this, ledger
    {
      && start == old(start) && startPoints == old(startPoints) && facts == old(facts)
      && mode == old(mode)
      && ledger.notes.verified == old(ledger.notes.verified) && old(ledger.notes.seen).Keys <= ledger.notes.seen.Keys
    }

    /** A view of the node taken in this cycle. */
    ghost predicate View(n: Node)
      reads this, ledger
    {
      && n.nextKernel in ledger.notes.seen
      && (!mode.Free? ==> n.nextKernel == Some(mode.goal))
      && (mode.Rest? ==> InPhase(n, Completed))
    }

    method Read() returns (r: Option<Node>)
      requires Valid()
      modifies ledger, store
      ensures Valid() && SameCycle() && (r.Some? ==> View(r.value))
      ensures old(store.script) == [] ==> store.script == [] && store.node == old(store.node) && r == Some(store.node)
    {
      r := Get();
      if r.Some? {
        See();
      }
    }

    method Get() returns (r: Option<Node>)
      requires Valid()
      modifies ledger, store
      ensures Valid() && SameCycle() && (r.Some? ==> r.value == store.node)
      ensures !mode.Free? ==> store.node.nextKernel == Some(mode.goal)
      ensures mode.Rest? ==> InPhase(store.node, Completed)
      ensures old(store.script) == [] ==> store.script == [] && store.node == old(store.node) && r == Some(store.node)
    {
      ghost var before := store.history;
      var got := store.GetNode();
      ghost var keep: Build := (n: Node) => None;
      Recorded(before, keep, LeaveGoal);
      ledger.notes := Noted(ledger.notes, |store.history|, LeaveGoal);
      assert store.history[|store.history| - 1].node == store.node;
      r := if got.NodeRead? then Some(got.node) else None;
    }

    ghost method See()
      requires Valid()
      modifies ledger
      ensures Valid() && SameCycle() && store.node.nextKernel in ledger.notes.seen
    {
      ghost var seen := WithSeen(ledger.notes, store.node.nextKernel, |store.history| - 1);
      assert BooksHold(store.history, |start|, seen, facts) by {
        SeeingKeepsBooks(store.history, |start|, ledger.notes, facts);
      }
      ledger.notes := seen;
    }

    /** What is followed stays followed through a call that leaves it alone. */
    lemma Followed(before: seq<Version>, build: Build)
      requires store.Valid() && 0 < |start| <= |before| && Extends(before, store.history)
      requires OnlyOthers(store.history, |before|) || WroteOnce(store.history, |before|, build)
      requires mode.Free? || (OthersKeepGoal(store.discipline) && KeepsGoal(build) && GoalStays(before, |start| - 1, mode.goal))
      requires mode.Rest? ==> OthersKeepState(store.discipline) && KeepsState(build) && StaysCompleted(before, |start| - 1)
      ensures !mode.Free? ==> GoalStays(store.history, |start| - 1, mode.goal)
      ensures mode.Rest? ==> StaysCompleted(store.history, |start| - 1)
    {
      assert store.history[..|store.history|] == store.history;
      if !mode.Free? { GoalStaysThrough(store, before, build, |start| - 1, mode.goal, |store.history|); }
      if mode.Rest? { CompletedStaysThrough(store, before, build, |start| - 1, |store.history|); }
    }

    lemma Recorded(before: seq<Version>, build: Build, d: Decision)
      requires store.Valid() && 0 < |start| && Extends(start, before) && Extends(before, store.history)
      requires OnlyOthers(store.history, |before|) || WroteOnce(store.history, |before|, build)
      requires BooksHold(before, |start|, ledger.notes, facts)
      requires AllowedBuild(build, d, |before|, ledger.notes, facts) && Justified(d, |before|, ledger.notes, facts)
      requires mode.Free? || (OthersKeepGoal(store.discipline) && KeepsGoal(build) && GoalStays(before, |start| - 1, mode.goal))
      requires mode.Rest? ==> OthersKeepState(store.discipline) && KeepsState(build) && StaysCompleted(before, |start| - 1)
      ensures BooksHold(store.history, |start|, Noted(ledger.notes, |store.history|, d), facts)
      ensures Extends(start, store.history)
      ensures !mode.Free? ==> GoalStays(store.history, |start| - 1, mode.goal)
      ensures mode.Rest? ==> StaysCompleted(store.history, |start| - 1)
    {
      BooksGrow(before, store.history, build, d, |start|, ledger.notes, facts);
      ExtendsThrough(start, before, store.history);
      Followed(before, build);
    }

    /** Every write of the pod goes through here. */
    method Transition(build: Build, ghost d: Decision) returns (r: TransitionResult)
      requires Valid() && AllowedBuild(build, d, |store.history|, ledger.notes, facts) && Justified(d, |store.history|, ledger.notes, facts)
      requires mode.Free? || KeepsGoal(build)
      requires mode.Rest? ==> KeepsState(build)
      modifies ledger, store
      ensures Valid() && SameCycle()
      ensures old(store.script) == [] ==>
                && store.script == [] && r.Applied? == build(old(store.node)).Some?
                && store.node == Written(old(store.node), build)
    {
      ghost var before := store.history;
      r := store.PatchTransition(3, build);
      Recorded(before, build, d);
      ledger.notes := Noted(ledger.notes, |store.history|, d);
    }

    /** `flavorOf`: resolved once, and kept. */
    method FlavorOf() returns (r: Option<string>)
      requires Valid()
      modifies this`flavor, boot`script
      ensures Valid() && SameCycle() && flavor == r && (r.Some? ==> r.value == facts.arch)
      ensures old(flavor.Some?) ==> flavor == old(flavor)
      ensures old(boot.script) == [] ==> boot.script == [] && r == if old(flavor).Some? then old(flavor) else resolve(boot.files)
    {
      if flavor.Some? {
        return flavor;
      }
      var listing := boot.Kernels();
      if listing.None? {
        return None;
      }
      var files := set k | k in listing.value;
      assert files == boot.files;
      r := resolve(files);
      flavor := r;
    }

    method SetGoalKnown(v: string)
      requires Valid() && (mode.Rest? ==> v == mode.goal)
      modifies this`lastGoal, this`goalKnown
      ensures Valid() && SameCycle() && lastGoal == v && goalKnown
    {
      lastGoal, goalKnown := v, true;
    }

    /** `EnsureBootGoal`, for the goal that is followed, if one is. */
    method Ensure(version: string, arch: string) returns (r: Ensured)
      requires Valid() && arch == facts.arch && (mode.Free? || version == mode.goal)
      modifies boot
      ensures Valid() && SameCycle() && boot.files == old(boot.files)
      ensures r.Ensured? ==> Image(version, arch) in boot.files && boot.default == Some(Image(version, arch))
      ensures mode.Rest? && r.Ensured? ==> !r.repointed
      ensures r.Ensured? ==> r.repointed == (old(boot.default) != Some(Image(version, arch)))
      ensures r.GoalAbsent? ==> boot.default == old(boot.default)
      ensures old(boot.script) == [] ==> boot.script == [] && r.Ensured? == (Image(version, arch) in boot.files) && !r.NotEnsured?
    {
      r := boot.EnsureBootGoal(version, arch);
    }

    /** `rearmIfCompleted` */
    method Rearm() returns (landed: bool)
      requires Valid() && !mode.Rest?
      modifies ledger, store
      ensures Valid() && SameCycle()
      ensures old(store.script) == [] ==>
                store.script == [] && store.node == Rearmed(old(store.node)) && landed == InPhase(old(store.node), Completed)
    {
      var r := Transition(RearmBuild(), LeaveGoal);
      landed := r.Applied?;
    }

    /** The newest by number; any one of several that do not compare. */
    static method Newest(vs: seq<string>) returns (v: string)
      requires vs != []
      ensures v in vs && forall k :: 0 <= k < |vs| ==> !Newer(vs[k], v)
    {
      v := "";
      var i := 0;
      while i < |vs|
        invariant 0 <= i <= |vs| && (if i == 0 then v == "" else v in vs) && (v == "" ==> forall k :: 0 <= k < i ==> vs[k] == "")
        invariant forall k :: 0 <= k < i ==> !Newer(vs[k], v)
      {
        NewestStep(vs, i, v);
        if v == "" || Newer(vs[i], v) {
          v := vs[i];
        }
        i := i + 1;
      }
    }

    method Choose(local: seq<string>, runningKnown: bool) returns (target: Option<string>)
      ensures SafeGoal(target, running, runningKnown, set v | v in local)
      ensures target.None? <==> local == []
    {
      if runningKnown && running in local {
        return Some(running);
      }
      if local == [] {
        return None;
      }
      assert local[0] in local;
      var v := Newest(local);
      target := Some(v);
    }

    /** `bootstrap`: anchor a goal where there is none. */
    method Bootstrap(view: Node) returns (dirty: bool)
      requires Valid() && View(view) && facts.files == boot.files
      modifies ledger, store, boot`script
      ensures Valid() && SameCycle()
      ensures old(Quiet()) && view == old(store.node) ==>
                && Quiet() && store.node == old(store.node).(nextKernel := store.node.nextKernel)
                && (if view.nextKernel.Some? then store.node == view
                    else SafeGoal(store.node.nextKernel, running, true, AllVersions(boot.files)))
                && dirty == (view.nextKernel.None? && store.node.nextKernel.Some?)
    {
      if view.nextKernel.Some? {
        return false;
      }
      var listing := boot.Kernels();
      if listing.None? || listing.value == [] {
        assert old(Quiet()) ==> boot.files == {} && AllVersions(boot.files) == {};
        return false;
      }
      var target := Choose(Versions(listing.value), true);
      assert (set v | v in Versions(listing.value)) == AllVersions(boot.files) by { VersionsHold(listing.value); }
      dirty := GiveGoal(target.value);
    }

    /** The write lands only where there still is no goal. */
    method GiveGoal(target: string) returns (landed: bool)
      requires Valid() && mode.Free? && None in ledger.notes.seen
      requires SafeGoal(Some(target), running, true, AllVersions(facts.files))
      modifies ledger, store
      ensures Valid() && SameCycle()
      ensures old(store.script) == [] ==>
                && store.script == [] && landed == old(store.node.nextKernel).None?
                && store.node == if landed then old(store.node).(nextKernel := Some(target)) else old(store.node)
    {
      var r := Transition(NextKernelBuild(target, (v: Option<string>) => v.None?), Install(target));
      landed := r.Applied?;
    }

    /** `safeState` */
    method PickSafe(arch: string) returns (ok: bool, target: Option<string>)
      requires Valid()
      modifies boot`script
      ensures Valid() && SameCycle()
      ensures ok ==> SafeGoal(target, running, running != "", OwnVersions(boot.files, arch))
      ensures ok && target.Some? ==> Image(target.value, arch) in boot.files
      ensures old(boot.script) == [] ==> boot.script == [] && ok
    {
      var listing := boot.Kernels();
      if listing.None? {
        return false, None;
      }
      OwnVersionsHold(listing.value, boot.files, arch);
      target := Choose(Versions(OfFlavor(listing.value, arch)), running != "");
      ok := true;
    }

    /** The write lands only on the very value judged bad. */
    method Correct(bad: string, target: Option<string>) returns (landed: bool)
      requires Valid() && mode.Free? && Bad(bad, facts) && Some(bad) in ledger.notes.seen
      requires SafeGoal(target, running, running != "", OwnVersions(facts.files, facts.arch))
      modifies ledger, store
      ensures Valid() && SameCycle()
      ensures old(store.script) == [] ==>
                && store.script == [] && landed == (old(store.node.nextKernel) == Some(bad))
                && store.node == if landed then old(store.node).(nextKernel := target) else old(store.node)
    {
      var r := Transition(CorrectGoalBuild(bad, target), Replace(bad, target));
      landed := r.Applied?;
    }

    /** `applySafeState` */
    method ApplySafeState(bad: string, arch: string) returns (dirty: bool)
      requires Valid() && mode.Free? && arch == facts.arch && facts.files == boot.files
      requires Bad(bad, facts) && Some(bad) in ledger.notes.seen
      modifies this`lastGoal, this`goalKnown, ledger, store, boot
      ensures Valid() && SameCycle() && boot.files == old(boot.files)
      ensures old(Quiet()) ==>
                && Quiet() && Corrected(old(store.node), store.node, bad, running, OwnVersions(boot.files, arch))
                && Lawful(old(Now()), Now(), arch) && dirty == (old(store.node.nextKernel) == Some(bad))
      ensures old(Quiet()) && old(store.node.nextKernel) == Some(bad) ==>
                && goalKnown && lastGoal == (if store.node.nextKernel.Some? then store.node.nextKernel.value else "")
                && (store.node.nextKernel.Some? ==> boot.default == Some(Image(store.node.nextKernel.value, arch)))
    {
      var ok, target := PickSafe(arch);
      if !ok {
        return false;
      }
      dirty := MoveTo(bad, target, arch);
    }

    /** Write, and where the write landed follow it. */
    method MoveTo(bad: string, target: Option<string>, arch: string) returns (dirty: bool)
      requires Valid() && mode.Free? && arch == facts.arch
      requires Bad(bad, facts) && Some(bad) in ledger.notes.seen
      requires SafeGoal(target, running, running != "", OwnVersions(facts.files, arch))
      requires target.Some? ==> Image(target.value, arch) in boot.files
      modifies this`lastGoal, this`goalKnown, ledger, store, boot
      ensures Valid() && SameCycle() && boot.files == old(boot.files)
      ensures old(Quiet()) ==>
                && Quiet() && store.node == Moved(old(store.node), bad, target) && Lawful(old(Now()), Now(), arch)
                && dirty == (old(store.node.nextKernel) == Some(bad))
      ensures old(Quiet()) && old(store.node.nextKernel) == Some(bad) ==>
                && goalKnown && lastGoal == (if target.Some? then target.value else "")
                && (target.Some? ==> boot.default == Some(Image(target.value, arch)))
    {
      dirty := Correct(bad, target);
      if dirty {
        FollowMove(target, arch);
      }
      if old(Quiet()) { MovedIsLawful(old(Now()), Now(), bad, target, arch); }
    }

    method FollowMove(target: Option<string>, arch: string)
      requires Valid() && mode.Free? && arch == facts.arch && (target.Some? ==> Image(target.value, arch) in boot.files)
      modifies this`lastGoal, this`goalKnown, ledger, store, boot
      ensures Valid() && SameCycle() && boot.files == old(boot.files)
      ensures old(Quiet()) ==>
                && Quiet() && goalKnown && lastGoal == (if target.Some? then target.value else "")
                && store.node == (if target.Some? then Rearmed(old(store.node)) else old(store.node))
                && boot.default == if target.Some? then Some(Image(target.value, arch)) else old(boot.default)
    {
      if target.None? {
        SetGoalKnown("");
      } else {
        Follow(target.value, arch);
      }
    }

    /** A corrected goal is made the default, and a completed attempt is forgotten. */
    method Follow(goal: string, arch: string)
      requires Valid() && mode.Free? && arch == facts.arch
      modifies this`lastGoal, this`goalKnown, ledger, store, boot
      ensures Valid() && SameCycle() && boot.files == old(boot.files)
      ensures old(Quiet()) && Image(goal, arch) in boot.files ==>
                && Quiet() && goalKnown && lastGoal == goal && boot.default == Some(Image(goal, arch))
                && store.node == Rearmed(old(store.node))
    {
      var e := Ensure(goal, arch);
      if e.Ensured? {
        SetGoalKnown(goal);
        var _ := Rearm();
      }
    }

    /** Nothing changed since the goal was last applied: no call is made. */
    predicate Steady(known: bool, last: string, view: Node, bootstrapped: bool) {
      var seen := if view.nextKernel.Some? then view.nextKernel.value else "";
      known && !bootstrapped && seen == last && (view.nextKernel.Some? || last == "")
    }

    function GoalOf(n: Node): string {
      if n.nextKernel.Some? then n.nextKernel.value else ""
    }

    /** Reconciling replaces a malformed goal by a safe one and leaves any other as it is. */
    ghost predicate GoalMoved(before: Node, files: set<Image>, arch: string)
      reads this, store
    {
      if GoalOf(before) == "" || WellFormedVersion(GoalOf(before)) then store.node.nextKernel == before.nextKernel
      else SafeGoal(store.node.nextKernel, running, running != "", OwnVersions(files, arch))
    }

    /** `reconcileBootloader` */
    method Reconcile(view: Node, bootstrapped: bool) returns (dirty: bool)
      requires Valid() && View(view) && facts.files == boot.files
      modifies this`lastGoal, this`goalKnown, this`flavor, ledger, store, boot
      ensures Valid() && SameCycle() && boot.files == old(boot.files)
      ensures old(flavor.Some?) ==> flavor == old(flavor)
      ensures Steady(old(goalKnown), old(lastGoal), view, bootstrapped) ==>
                && store.history == old(store.history) && boot.script == old(boot.script) && boot.points == old(boot.points)
                && Now() == old(Now()) && store.script == old(store.script) && !dirty
      ensures old(Quiet()) && !Steady(old(goalKnown), old(lastGoal), view, bootstrapped) && flavor.Some?
              && old(store.node.nextKernel).Some? && WellFormedVersion(old(store.node).nextKernel.value) ==>
                var goal := old(store.node).nextKernel.value;
                Quiet() && Converged(goal, flavor.value, old(goalKnown && lastGoal != goal), old(boot.default), old(store.node))
      ensures old(Quiet()) && flavor.Some? ==>
                && Quiet() && Lawful(old(Now()), Now(), flavor.value) && (!dirty ==> store.node == old(store.node))
                && (!Steady(old(goalKnown), old(lastGoal), view, bootstrapped) ==> AtGoal(Now(), flavor.value))
                && (Steady(old(goalKnown), old(lastGoal), view, bootstrapped) || GoalMoved(old(store.node), boot.files, flavor.value))
    {
      var known, last := goalKnown, lastGoal;
      if Steady(known, last, view, bootstrapped) {
        return false;
      }
      var again := Read();
      if again.None? {
        return false;
      }
      dirty := ReconcileTo(if again.value.nextKernel.Some? then again.value.nextKernel.value else "", known, last);
    }

    /** `goal` "" stands for none: an empty value counts as absent. */
    method ReconcileTo(goal: string, known: bool, last: string) returns (dirty: bool)
      requires Valid() && (mode.Free? || goal == mode.goal) && (mode.Rest? && known ==> last == goal)
      requires facts.files == boot.files && (goal != "" ==> Some(goal) in ledger.notes.seen)
      modifies this`lastGoal, this`goalKnown, this`flavor, ledger, store, boot
      ensures Valid() && SameCycle() && boot.files == old(boot.files)
      ensures old(flavor.Some?) ==> flavor == old(flavor)
      ensures old(Quiet()) && WellFormedVersion(goal) && flavor.Some? ==>
                Quiet() && Converged(goal, flavor.value, known && goal != last, old(boot.default), old(store.node))
      ensures old(Quiet()) && flavor.Some? && GoalOf(old(store.node)) == goal ==>
                && Quiet() && Lawful(old(Now()), Now(), flavor.value) && (!dirty ==> store.node == old(store.node))
                && AtGoal(Now(), flavor.value) && GoalMoved(old(store.node), boot.files, flavor.value)
    {
      var arch := FlavorOf();
      if goal == "" {
        SetGoalKnown("");
        return false;
      }
      if !WellFormedVersion(goal) && arch.Some? {
        dirty := ApplySafeState(goal, arch.value);
        return;
      }
      if arch.None? {
        SetGoalKnown(goal);
        return false;
      }
      dirty := Converge(goal, arch.value, known && goal != last);
    }

    /** The goal is known; when its kernel is there it is the default, and a completed attempt is
        forgotten exactly when the goal or the default moved. */
    ghost predicate Converged(goal: string, arch: string, changed: bool, default: Option<Image>, before: Node)
      reads this, store, boot
    {
      && goalKnown && lastGoal == goal
      && if Image(goal, arch) in boot.files then
           && boot.default == Some(Image(goal, arch))
           && store.node == if changed || default != Some(Image(goal, arch)) then Rearmed(before) else before
         else boot.default == default && store.node == before
    }

    /** The default follows the goal; a real change re-arms, a rediscovery does not. */
    method Converge(goal: string, arch: string, changed: bool) returns (dirty: bool)
      requires Valid() && arch == facts.arch && (mode.Free? || goal == mode.goal) && (mode.Rest? ==> !changed)
      modifies this`lastGoal, this`goalKnown, ledger, store, boot
      ensures Valid() && SameCycle() && boot.files == old(boot.files)
      ensures old(Quiet()) ==>
                && Quiet() && Converged(goal, arch, changed, old(boot.default), old(store.node))
                && (!dirty ==> store.node == old(store.node)) && store.node.nextKernel == old(store.node.nextKernel)
                && (old(store.node.nextKernel) == Some(goal) ==> Lawful(old(Now()), Now(), arch) && AtGoal(Now(), arch))
    {
      var e := Ensure(goal, arch);
      if e.NotEnsured? {
        return false;
      }
      SetGoalKnown(goal);
      if e.Ensured? && (changed || e.repointed) {
        dirty := Rearm();
      } else {
        dirty := false;
      }
      if old(Quiet()) && old(store.node.nextKernel) == Some(goal) {
        ConvergedIsLawful(old(Now()), Now(), goal, store.node != old(store.node), arch);
      }
    }

    /** `stageOne` */
    method StageOne(version: string, check: Check, arch: string) returns (ok: bool)
      requires Valid() && flavor == Some(arch) && !mode.Rest? && (mode.Free? || version == mode.goal)
      modifies boot
      ensures Valid() && SameCycle()
      ensures ok ==> Image(version, arch) in boot.files
      ensures old(boot.script) == [] ==>
                && boot.script == [] && ok == (version in check.stageable)
                && boot.files == (if ok then old(boot.files) + {Image(version, arch)} else old(boot.files))
                && boot.default == if ok && Image(version, arch) !in old(boot.files) then Some(Image(version, arch)) else old(boot.default)
    {
      if version !in check.stageable {
        return false;
      }
      ok := boot.Stage(version, arch, running);
    }

    /** A quiescent node was seen, and the check found this release. */
    ghost predicate Offering(version: string)
      reads this, ledger
    {
      && (None in ledger.notes.seen || Some(running) in ledger.notes.seen)
      && facts.check.Some? && facts.check.value.available && version == facts.check.value.latest
    }

    /** `anchor` */
    method Anchor(version: string) returns (landed: bool)
      requires Valid() && mode.Free? && Offering(version)
      modifies ledger, store
      ensures Valid() && SameCycle()
      ensures old(store.script) == [] ==>
                && store.script == [] && landed == (old(store.node.nextKernel) in {None, Some(running)})
                && store.node == if landed then old(store.node).(nextKernel := Some(version)) else old(store.node)
    {
      var r := Transition(NextKernelBuild(version, (v: Option<string>) => v.None? || v == Some(running)), Advance(version));
      landed := r.Applied?;
    }

    /** The kernel is there and is the default. */
    ghost predicate NowLeads(version: string, arch: string)
      reads boot
    {
      Image(version, arch) in boot.files && boot.default == Some(Image(version, arch))
    }

    predicate Quiescent(n: Node) {
      n.nextKernel in {None, Some(running)}
    }

    /** `maybeStage`, on the goal: missing and listed it is staged; missing and unlisted it is
        corrected, and that ends the step. */
    method StageGoal(goal: string, local: set<string>, check: Check, arch: string) returns (over: bool, dirty: bool)
      requires Valid() && flavor == Some(arch) && (mode.Free? || goal == mode.goal)
      requires facts.files == boot.files && facts.check == Some(check)
      requires goal != "" ==> Some(goal) in ledger.notes.seen
      requires forall v :: v in local <==> Image(v, arch) in boot.files
      requires !mode.Free? ==> mode.goal in local || mode.goal in check.listed
      modifies this`lastGoal, this`goalKnown, ledger, store, boot
      ensures Valid() && SameCycle()
      ensures var missing := WellFormedVersion(goal) && goal != running && goal !in local;
              && over == (missing && goal !in check.listed)
              && (old(Quiet()) ==>
                    && Quiet()
                    && (over ==> Corrected(old(store.node), store.node, goal, running, local))
                    && (missing && !over && goal in check.stageable ==> NowLeads(goal, arch) && boot.files == old(boot.files) + {Image(goal, arch)})
                    && (missing && !over && goal !in check.stageable ==> store.node == old(store.node) && boot.files == old(boot.files)))
              && (!missing ==> unchanged(store) && unchanged(boot))
      ensures store.node.nextKernel == old(store.node.nextKernel) || over || !old(Quiet())
      ensures dirty ==> goal !in local
      ensures old(Quiet()) && GoalOf(old(store.node)) == goal ==>
                Lawful(old(Now()), Now(), arch) && (!dirty ==> store.node == old(store.node))
    {
      assert local == OwnVersions(boot.files, arch);
      over, dirty := false, false;
      if !WellFormedVersion(goal) || goal == running || goal in local {
        return;
      }
      if goal !in check.listed {
        over := true;
        dirty := ApplySafeState(goal, arch);
        return;
      }
      var staged := StageOne(goal, check, arch);
      if staged {
        dirty := Rearm();
        if old(Quiet()) && GoalOf(old(store.node)) == goal { StagedIsLawful(old(Now()), Now(), goal, arch); }
      }
    }

    /** A verified newest kernel that is already there becomes the goal of a quiescent node. */
    method Adopt(latest: string, arch: string) returns (landed: bool)
      requires Valid() && mode.Free? && arch == facts.arch && Offering(latest)
      modifies ledger, store, boot
      ensures Valid() && SameCycle()
      ensures old(Quiet()) && Image(latest, arch) in old(boot.files) && Quiescent(old(store.node)) ==>
                && Quiet() && landed && NowLeads(latest, arch) && store.node == Rearmed(old(store.node).(nextKernel := Some(latest)))
                && boot.files == old(boot.files)
    {
      landed := Anchor(latest);
      if landed {
        var _ := Ensure(latest, arch);
        var _ := Rearm();
      }
    }

    /** A newest kernel that is not there yet is staged, and becomes the goal if it may. */
    method StageNewest(latest: string, check: Check, arch: string) returns (landed: bool)
      requires Valid() && mode.Free? && flavor == Some(arch) && Offering(latest)
      modifies ledger, store, boot
      ensures Valid() && SameCycle()
      ensures old(Quiet()) && latest in check.stageable && Image(latest, arch) !in old(boot.files) && Quiescent(old(store.node)) ==>
                && Quiet() && landed && NowLeads(latest, arch) && store.node == Rearmed(old(store.node).(nextKernel := Some(latest)))
                && boot.files == old(boot.files) + {Image(latest, arch)}
      ensures old(Quiet()) && latest !in check.stageable ==> Quiet() && !landed && Now() == old(Now())
    {
      landed := false;
      var staged := StageOne(latest, check, arch);
      if staged {
        landed := Anchor(latest);
        if landed {
          var _ := Rearm();
        }
      }
    }

    /** The check found a release the node neither runs nor has as its goal. */
    predicate Offered(view: Node, check: Check) {
      check.available && check.latest != "" && check.latest != running && view.nextKernel != Some(check.latest)
    }

    /** What `maybeStage` does undisturbed: a node that need not hold its goal takes an offered
        release as goal and default; a missing goal is staged when listed, or else corrected. */
    predicate StagedFor(view: Node, a: Snap, z: Snap, check: Check, arch: string) {
      var local := OwnVersions(a.files, arch);
      && (!Held(view, running) && Offered(view, check) && Takes(view, local, check) ==>
            && Local(check.latest, z, arch) && z.default == Some(Image(check.latest, arch))
            && z.node == Rearmed(a.node.(nextKernel := Some(check.latest))))
      && (view.nextKernel.Some? && WellFormedVersion(view.nextKernel.value) && view.nextKernel.value != running
          && !Local(view.nextKernel.value, a, arch) ==>
            var g := view.nextKernel.value;
            if g !in check.listed then Corrected(a.node, z.node, g, running, local)
            else g in check.stageable ==> Local(g, z, arch) && z.default == Some(Image(g, arch)) && z.node.nextKernel == view.nextKernel)
    }

    /** `maybeStage` */
    method MaybeStage(view: Node, check: Check, arch: string) returns (dirty: bool)
      requires Valid() && View(view) && flavor == Some(arch)
      requires facts.files == boot.files && facts.check == Some(check)
      requires !mode.Free? ==> Image(mode.goal, arch) in boot.files || mode.goal in check.listed
      modifies this`lastGoal, this`goalKnown, ledger, store, boot
      ensures Valid() && SameCycle()
      ensures old(Quiet()) && view.nextKernel == old(store.node.nextKernel) ==>
                && Quiet() && StagedFor(view, old(Now()), Now(), check, arch)
                && Lawful(old(Now()), Now(), arch) && (!dirty ==> store.node == old(store.node))
    {
      var listing := boot.Kernels();
      if listing.None? {
        return false;
      }
      var local := LocalSet(listing.value, arch);
      LocalSetHolds(listing.value, arch);
      dirty := StageOn(view, local, check, arch);
    }

    /** `maybeStage`, on the kernels of the flavor. */
    method StageOn(view: Node, local: set<string>, check: Check, arch: string) returns (dirty: bool)
      requires Valid() && View(view) && flavor == Some(arch)
      requires facts.files == boot.files && facts.check == Some(check)
      requires forall v :: v in local <==> Image(v, arch) in boot.files
      requires !mode.Free? ==> mode.goal in local || mode.goal in check.listed
      modifies this`lastGoal, this`goalKnown, ledger, store, boot
      ensures Valid() && SameCycle()
      ensures old(Quiet()) && view.nextKernel == old(store.node.nextKernel) && !Held(view, running) && Offered(view, check)
              && Takes(view, local, check) ==>
                NowLeads(check.latest, arch) && store.node == Rearmed(old(store.node).(nextKernel := Some(check.latest)))
      ensures old(Quiet()) && view.nextKernel == old(store.node.nextKernel) ==>
                Quiet() && Lawful(old(Now()), Now(), arch) && (!dirty ==> store.node == old(store.node))
      ensures old(Quiet()) && view.nextKernel == old(store.node.nextKernel) && view.nextKernel.Some? && WellFormedVersion(view.nextKernel.value)
              && view.nextKernel.value != running && view.nextKernel.value !in local ==>
                if view.nextKernel.value !in check.listed
                then Corrected(old(store.node), store.node, view.nextKernel.value, running, local)
                else view.nextKernel.value in check.stageable ==> NowLeads(view.nextKernel.value, arch) && store.node.nextKernel == view.nextKernel
    {
      var goal := if view.nextKernel.Some? then view.nextKernel.value else "";
      var over;
      over, dirty := StageGoal(goal, local, check, arch);
      if over || !check.available || check.latest == "" || check.latest == running || goal == check.latest {
        return;
      }
      dirty := StageRelease(view, goal, local, check, arch, dirty);
    }

    /** `maybeStage`, on the release offered: beside a held goal the default is brought back to
        the goal, a quiescent node takes the release. */
    method StageRelease(view: Node, goal: string, local: set<string>, check: Check, arch: string, dirty: bool)
      returns (r: bool)
      requires Valid() && View(view) && flavor == Some(arch) && facts.check == Some(check) && Offered(view, check)
      requires goal == if view.nextKernel.Some? then view.nextKernel.value else ""
      requires Held(view, running) || (check.latest in local <==> Image(check.latest, arch) in boot.files)
      modifies ledger, store, boot
      ensures Valid() && SameCycle()
      ensures old(Quiet()) && view.nextKernel == old(store.node.nextKernel) && !Held(view, running) && Takes(view, local, check) ==>
                NowLeads(check.latest, arch) && store.node == Rearmed(old(store.node).(nextKernel := Some(check.latest)))
      ensures old(Quiet()) && view.nextKernel == old(store.node.nextKernel) ==>
                Quiet() && Lawful(old(Now()), Now(), arch) && (!r ==> store.node == old(store.node))
      ensures dirty && goal !in local ==> r
      ensures old(Quiet()) && Held(view, running) && goal !in local ==>
                Quiet() && store.node == old(store.node) && boot.files == old(boot.files) && boot.default == old(boot.default)
    {
      if Held(view, running) {
        r := Reconverge(goal, local, arch, dirty);
      } else {
        var landed := TakeNewest(view, local, check, arch);
        r := dirty || landed;
      }
    }

    /** A quiescent node takes the newest release for its goal. */
    method TakeNewest(view: Node, local: set<string>, check: Check, arch: string) returns (landed: bool)
      requires Valid() && mode.Free? && flavor == Some(arch) && !Held(view, running) && Offering(check.latest)
      requires check.latest in local <==> Image(check.latest, arch) in boot.files
      modifies ledger, store, boot
      ensures Valid() && SameCycle()
      ensures old(Quiet()) && view.nextKernel == old(store.node.nextKernel) ==>
                if Takes(view, local, check) then
                  && Quiet() && landed && NowLeads(check.latest, arch) && Lawful(old(Now()), Now(), arch)
                  && store.node == Rearmed(old(store.node).(nextKernel := Some(check.latest)))
                else Quiet() && !landed && Now() == old(Now())
    {
      landed := false;
      if view.nextKernel.Some? && check.latest in local && check.latest in check.listed {
        landed := Adopt(check.latest, arch);
      } else if check.latest !in local {
        landed := StageNewest(check.latest, check, arch);
      }
      if old(Quiet()) && landed && view.nextKernel == old(store.node.nextKernel) {
        TakenIsLawful(old(Now()), Now(), check.latest, arch);
      }
    }

    /** The newest release is there and verified, or can be staged. */
    predicate Takes(view: Node, local: set<string>, check: Check) {
      if check.latest in local then check.latest in check.listed && view.nextKernel.Some? else check.latest in check.stageable
    }

    /** With a newer kernel beside it, a held local goal is made the default again. */
    method Reconverge(goal: string, local: set<string>, arch: string, dirty: bool) returns (r: bool)
      requires Valid() && arch == facts.arch && (mode.Free? || goal == mode.goal)
      modifies ledger, store, boot
      ensures Valid() && SameCycle()
      ensures old(Quiet()) ==>
                if WellFormedVersion(goal) && goal in local && (exists v :: v in local && v != goal && Newer(v, goal))
                then Quiet() && (Image(goal, arch) in boot.files ==> NowLeads(goal, arch)) && store.node.nextKernel == old(store.node.nextKernel)
                else Quiet() && store.node == old(store.node) && boot.files == old(boot.files) && boot.default == old(boot.default)
      ensures goal !in local ==> r == dirty
      ensures old(Quiet()) && old(store.node.nextKernel) == Some(goal) ==> Lawful(old(Now()), Now(), arch) && (!r ==> store.node == old(store.node))
    {
      r := dirty;
      if WellFormedVersion(goal) && goal in local && exists v :: v in local && v != goal && Newer(v, goal) {
        var e := Ensure(goal, arch);
        if e.Ensured? && e.repointed {
          r := Rearm();
        }
        if old(Quiet()) && old(store.node.nextKernel) == Some(goal) {
          ConvergedIsLawful(old(Now()), Now(), goal, store.node != old(store.node), arch);
        }
      }
    }

    /** `claimCheck` */
    method ClaimCheck(view: Node, occurrence: int) returns (won: bool)
      requires Valid() && View(view)
      modifies ledger, store
      ensures Valid() && SameCycle()
      ensures old(store.script) == [] && view == old(store.node) ==>
                && store.script == [] && won == (!view.lastCheck.Parsed? || view.lastCheck.value < occurrence)
                && store.node == if won then view.(lastCheck := Parsed(occurrence)) else view
    {
      if view.lastCheck.Parsed? && occurrence <= view.lastCheck.value {
        return false;
      }
      var r := Transition(ClaimBuild(occurrence), LeaveGoal);
      won := r.Applied?;
    }

    /** `maybeEnqueue`: the goal is verified first, the request comes last. */
    method MaybeEnqueue(view: Node, inputs: Inputs)
      requires Valid() && View(view) && ledger.notes.verified == map[]
      modifies this`flavor, ledger, store, boot
      ensures Valid() && start == old(start) && startPoints == old(startPoints) && facts == old(facts) && mode == old(mode)
      ensures AllVerified() && BooksHold(store.history, |start|, ledger.notes, facts)
      ensures old(Quiet()) && view.nextKernel == old(store.node.nextKernel) && view.state == old(store.node.state) ==>
                && Quiet()
                && if old(Flavor()).Some? then AskedFor(old(Now()), Now(), old(Flavor()).value, inputs) else Now() == old(Now())
    {
      var goal := if view.nextKernel.Some? then view.nextKernel.value else "";
      if !WellFormedVersion(goal) || running == "" || goal == running || !view.state.Absent? {
        return;
      }
      var arch := FlavorOf();
      if arch.None? || !inputs.rebootsOpen {
        return;
      }
      Enqueue(goal, arch.value, inputs);
    }

    /** What was verified in this cycle still holds: the file is there and is the default. */
    ghost predicate AllVerified()
      reads this, boot, ledger
    {
      forall v :: v in ledger.notes.verified ==> Image(v, facts.arch) in boot.files && boot.default == Some(Image(v, facts.arch))
    }

    /** Only a goal whose file is there and is the default counts as verified, from now on. */
    ghost method Verify(goal: string)
      requires Valid() && Image(goal, facts.arch) in boot.files && boot.default == Some(Image(goal, facts.arch))
      modifies ledger
      ensures Valid() && start == old(start) && startPoints == old(startPoints) && facts == old(facts) && mode == old(mode)
      ensures ledger.notes == WithVerified(old(ledger.notes), goal, |store.history|)
    {
      VerifyingKeepsBooks(store.history, |start|, ledger.notes, facts, goal);
      ledger.notes := WithVerified(ledger.notes, goal, |store.history|);
    }

    /** First the kernel and the default, then the request. */
    method Enqueue(goal: string, arch: string, inputs: Inputs)
      requires Valid() && ledger.notes.verified == map[] && arch == facts.arch && WellFormedVersion(goal) && goal != running
      requires (mode.Free? || goal == mode.goal) && !mode.Rest?
      modifies ledger, store, boot
      ensures Valid() && start == old(start) && startPoints == old(startPoints) && facts == old(facts) && mode == old(mode)
      ensures AllVerified()
      ensures old(Quiet()) ==>
                Quiet() && store.node == if Image(goal, arch) in old(boot.files)
                                         then Written(old(store.node), EnqueueBuild(inputs.now, inputs.requestId, goal, running))
                                         else old(store.node)
      ensures old(Quiet()) ==>
                boot.files == old(boot.files) && boot.default == if Image(goal, arch) in old(boot.files) then Some(Image(goal, arch)) else old(boot.default)
    {
      var e := Ensure(goal, arch);
      if e.Ensured? {
        Verify(goal);
        var _ := Transition(EnqueueBuild(inputs.now, inputs.requestId, goal, running), LeaveGoal);
      }
    }

    ghost function Home(): string
      reads this, boot
    {
      if flavor.Some? then flavor.value else if resolve(boot.files).Some? then resolve(boot.files).value else ""
    }

    /** What must hold at the start for the mode to be followed through the cycle. */
    ghost predicate Ready(m: Mode, check: Option<Check>)
      reads this, store, boot
    {
      && (!m.Free? ==>
            && OthersKeepGoal(store.discipline) && WellFormedVersion(m.goal) && m.goal != running
            && store.node.nextKernel == Some(m.goal)
            && (check.Some? ==> Image(m.goal, Home()) in boot.files || m.goal in check.value.listed))
      && (m.Rest? ==>
            && OthersKeepState(store.discipline) && InPhase(store.node, Completed)
            && Image(m.goal, Home()) in boot.files && boot.default == Some(Image(m.goal, Home()))
            && (goalKnown ==> lastGoal == m.goal)
            && (flavor.None? ==> resolve(boot.files) == Some(Home())))
    }

    ghost method Begin(check: Option<Check>, m: Mode)
      requires store.Valid() && Ready(m, check)
      modifies this`start, this`startPoints, this`facts, this`mode, ledger
      ensures Valid() && start == store.history && startPoints == boot.points && ledger.notes.verified == map[] && mode == m
      ensures facts == Facts(running, Home(), boot.files, check)
    {
      facts := Facts(running, Home(), boot.files, check);
      start, startPoints, mode := store.history, boot.points, m;
      ledger.notes := FreshNotes(|store.history|);
      FreshBooks(store.history, facts);
      assert Extends(start, store.history);
      assert !m.Free? ==> Holding();
      assert m.Rest? ==> Resting();
    }

    /* ---- The cycle as a whole, undisturbed ------------------------------------------------- */

    /** With the flavor unknown only a missing goal is given. */
    predicate BootstrappedTo(a: Snap, z: Snap) {
      && z == a.(node := a.node.(nextKernel := z.node.nextKernel))
      && if a.node.nextKernel.Some? then z.node.nextKernel == a.node.nextKernel
         else SafeGoal(z.node.nextKernel, running, true, AllVersions(a.files))
    }

    predicate SteadyAt(n: Node, known: bool, last: string) {
      known && n.nextKernel == Some(last)
    }

    /** The goal and what is done about it before any check: a node without one gets the running
        version or a newest kernel there; a malformed one gives way to a safe one; a well-formed
        one stays, and with it the attempt, unless goal or default moved. Unless the pod applied
        this very goal before, the default is brought to it. */
    predicate PreparedTo(a: Snap, p: Snap, known: bool, last: string, arch: string) {
      var steady := SteadyAt(a.node, known, last);
      && Lawful(a, p, arch) && p.files == a.files
      && (steady ==> p == a) && (!steady ==> AtGoal(p, arch))
      && match a.node.nextKernel
         case None =>
           (forall k :: k in a.files ==> WellFormedVersion(k.ts)) ==> SafeGoal(p.node.nextKernel, running, true, AllVersions(a.files))
         case Some(g) =>
           if g == "" then p.node.nextKernel == Some(g)
           else if WellFormedVersion(g) then
             p.node == if Local(g, a, arch) && !steady && (known || a.default != Some(Image(g, arch))) then Rearmed(a.node) else a.node
           else steady || SafeGoal(p.node.nextKernel, running, running != "", OwnVersions(a.files, arch))
    }

    /** The occurrence is claimed when there is one and neither it nor a newer one is. */
    predicate Wins(n: Node, window: Option<int>) {
      window.Some? && (n.lastCheck.Parsed? ==> n.lastCheck.value < window.value)
    }

    function WithClaim(n: Node, window: Option<int>): Node {
      if Wins(n, window) then n.(lastCheck := Parsed(window.value)) else n
    }

    /** What the check does: nothing but the claim without one; with one, a missing goal is
        staged or corrected, and a quiescent node takes an offered release. */
    predicate CheckedTo(p: Snap, q: Snap, arch: string, inputs: Inputs) {
      var claimed := p.(node := WithClaim(p.node, inputs.window));
      && Lawful(claimed, q, arch)
      && if !Wins(p.node, inputs.window) || inputs.check.None? then q == claimed
         else
           var check := inputs.check.value;
           && (!Held(p.node, running) && Offered(p.node, check) && Takes(p.node, OwnVersions(p.files, arch), check) ==>
                 && q.node.nextKernel == Some(check.latest) && Local(check.latest, q, arch)
                 && q.default == Some(Image(check.latest, arch)))
           && (p.node.nextKernel.Some? && MissingGoal(p, arch) ==>
                 var g := p.node.nextKernel.value;
                 if g !in check.listed then SafeGoal(q.node.nextKernel, running, running != "", OwnVersions(p.files, arch))
                 else g in check.stageable ==> q.node.nextKernel == Some(g) && Local(g, q, arch))
    }

    predicate MissingGoal(s: Snap, arch: string)
      requires s.node.nextKernel.Some?
    {
      var g := s.node.nextKernel.value;
      WellFormedVersion(g) && g != running && !Local(g, s, arch)
    }

    /** The goal waits for nothing but a reboot. */
    predicate GoalDue(s: Snap, arch: string) {
      && s.node.nextKernel.Some? && WellFormedVersion(s.node.nextKernel.value) && running != ""
      && s.node.nextKernel.value != running && Local(s.node.nextKernel.value, s, arch)
    }

    /** A reboot is asked for exactly when the goal is due, there is no state and the window is
        open; then the default is the goal. Else nothing changes. */
    predicate AskedFor(q: Snap, z: Snap, arch: string, inputs: Inputs) {
      if inputs.rebootsOpen && q.node.state.Absent? && GoalDue(q, arch) then
        z == Snap(q.node.(state := Parsed(StateRecord(Requested, inputs.now)),
                          request := Parsed(RequestRecord(inputs.requestId, "controller", false)), exec := Absent, status := Absent),
                  q.files, Some(Image(q.node.nextKernel.value, arch)))
      else z == q
    }

    predicate Checks(a: Snap, inputs: Inputs) {
      Wins(a.node, inputs.window) && inputs.check.Some?
    }

    /** Without a check a node that has no goal gets a safe one, and a well-formed goal stays. */
    predicate GoalEnds(a: Snap, z: Snap, inputs: Inputs) {
      !Checks(a, inputs) ==>
        match a.node.nextKernel
        case None => (forall k :: k in a.files ==> WellFormedVersion(k.ts)) ==> SafeGoal(z.node.nextKernel, running, true, AllVersions(a.files))
        case Some(g) => WellFormedVersion(g) ==> z.node.nextKernel == Some(g)
    }

    /** The default is at the goal, unless the pod had applied that goal before and somebody has
        moved the default away since. */
    predicate DefaultEnds(a: Snap, z: Snap, known: bool, last: string, arch: string) {
      !SteadyAt(a.node, known, last) || AtGoal(a, arch) ==> AtGoal(z, arch)
    }

    /** The claim is stored; a release the node can take is its goal and default; a missing goal
        that can be staged is there, and one that is not even listed has given way. */
    predicate CheckEnds(a: Snap, z: Snap, arch: string, inputs: Inputs) {
      && z.node.lastCheck == WithClaim(a.node, inputs.window).lastCheck
      && (Checks(a, inputs) ==>
            var check := inputs.check.value;
            && (TakesFrom(a, arch, check) ==> Leads(z, check.latest, arch))
            && (a.node.nextKernel.Some? && MissingGoal(a, arch) ==>
                  var g := a.node.nextKernel.value;
                  if g !in check.listed then SafeGoal(z.node.nextKernel, running, running != "", OwnVersions(a.files, arch))
                  else g in check.stageable ==> Leads(z, g, arch)))
    }

    predicate Leads(z: Snap, v: string, arch: string) {
      z.node.nextKernel == Some(v) && Local(v, z, arch) && z.default == Some(Image(v, arch))
    }

    /** A reboot is asked for exactly when the goal that stands in the end is due, the reboot
        window is open, and there is no attempt, or only a completed one that is forgotten; any
        other attempt stays. Without a check a completed one stays exactly when its goal is not
        there, or neither it nor the default moved. */
    predicate AttemptEnds(a: Snap, z: Snap, known: bool, last: string, arch: string, inputs: Inputs) {
      var free := if inputs.rebootsOpen && GoalDue(z, arch) then Parsed(StateRecord(Requested, inputs.now)) else Absent;
      && (if a.node.state.Absent? then z.node.state == free
          else SameAttempt(a.node, z.node) || (InPhase(a.node, Completed) && z.node.state == free))
      && (a.node.nextKernel.Some? && WellFormedVersion(a.node.nextKernel.value) && InPhase(a.node, Completed) && !Checks(a, inputs) ==>
            var g := a.node.nextKernel.value;
            SameAttempt(a.node, z.node) <==>
              !Local(g, a, arch) || SteadyAt(a.node, known, last) || (!known && a.default == Some(Image(g, arch))))
    }

    /** An undisturbed cycle, from the node and the partition before to those after. */
    predicate CycleEnds(a: Snap, z: Snap, known: bool, last: string, arch: string, inputs: Inputs) {
      && GoalEnds(a, z, inputs) && DefaultEnds(a, z, known, last, arch)
      && CheckEnds(a, z, arch, inputs) && AttemptEnds(a, z, known, last, arch, inputs)
    }

    /** A node on the running version, or that will be given it, or that has no kernel to start
        from, and a release it can take. */
    predicate TakesFrom(a: Snap, arch: string, check: Check) {
      && check.available && check.latest != "" && check.latest != running && WellFormedVersion(running)
      && if a.node.nextKernel.None? && a.files == {} then check.latest in check.stageable
         else
           && (a.node.nextKernel == Some(running)
               || (a.node.nextKernel.None? && running in AllVersions(a.files) && forall k :: k in a.files ==> WellFormedVersion(k.ts)))
           && if Local(check.latest, a, arch) then check.latest in check.listed else check.latest in check.stageable
    }

    lemma AttemptComposes(a: Snap, p: Snap, q: Snap, z: Snap, known: bool, last: string, arch: string, inputs: Inputs)
      requires PreparedTo(a, p, known, last, arch) && CheckedTo(p, q, arch, inputs) && AskedFor(q, z, arch, inputs)
      ensures AttemptEnds(a, z, known, last, arch, inputs)
    {
    }

    lemma CheckComposes(a: Snap, p: Snap, q: Snap, z: Snap, known: bool, last: string, arch: string, inputs: Inputs)
      requires PreparedTo(a, p, known, last, arch) && CheckedTo(p, q, arch, inputs) && AskedFor(q, z, arch, inputs)
      ensures CheckEnds(a, z, arch, inputs)
    {
      assert Wins(a.node, inputs.window) <==> Wins(p.node, inputs.window);
      if Checks(a, inputs) && TakesFrom(a, arch, inputs.check.value) {
        assert p.node.nextKernel.None? || p.node.nextKernel == Some(running);
      }
    }

    lemma CycleComposes(a: Snap, p: Snap, q: Snap, z: Snap, known: bool, last: string, arch: string, inputs: Inputs)
      requires PreparedTo(a, p, known, last, arch) && CheckedTo(p, q, arch, inputs) && AskedFor(q, z, arch, inputs)
      ensures CycleEnds(a, z, known, last, arch, inputs)
    {
      AttemptComposes(a, p, q, z, known, last, arch, inputs);
      CheckComposes(a, p, q, z, known, last, arch, inputs);
      assert DefaultEnds(a, z, known, last, arch);
    }

    predicate CycleOutcome(a: Snap, z: Snap, known: bool, last: string, arch: Option<string>, inputs: Inputs) {
      if arch.Some? then CycleEnds(a, z, known, last, arch.value, inputs) else BootstrappedTo(a, z)
    }

    /** The flavor: the one resolved before, or the one the kernels there resolve to. */
    ghost function Flavor(): Option<string>
      reads this, boot
    {
      if flavor.Some? then flavor else resolve(boot.files)
    }

    /** A claimed check, with what it staged. */
    lemma StagedIsChecked(p: Snap, q: Snap, arch: string, inputs: Inputs)
      requires Wins(p.node, inputs.window) && inputs.check.Some?
      requires var claimed := p.(node := WithClaim(p.node, inputs.window));
               StagedFor(p.node, claimed, q, inputs.check.value, arch) && Lawful(claimed, q, arch)
      ensures CheckedTo(p, q, arch, inputs)
    {
    }

    /** The part that only an open update window allows: one claimed check, then staging. */
    method CheckAndStage(view: Node, inputs: Inputs, arch: string) returns (dirty: bool)
      requires Valid() && View(view) && flavor == Some(arch)
      requires facts.files == boot.files && Fitting(inputs)
      modifies this`lastGoal, this`goalKnown, ledger, store, boot
      ensures Valid() && SameCycle() && flavor == old(flavor)
      ensures old(Quiet()) && view == old(store.node) ==>
                && Quiet() && CheckedTo(old(Now()), Now(), arch, inputs)
                && (!dirty ==> store.node == WithClaim(view, inputs.window))
    {
      if inputs.window.None? {
        return false;
      }
      var claimed := ClaimCheck(view, inputs.window.value);
      if !claimed || inputs.check.None? {
        return false;
      }
      dirty := MaybeStage(view, inputs.check.value, arch);
      if old(Quiet()) && view == old(store.node) {
        StagedIsChecked(old(Now()), Now(), arch, inputs);
      }
    }

    /** One cycle (`RunLocal`). Whatever the others write in between and whatever fails, each of
        the pod's writes replaces a goal its recorded decision assumed, by that decision's target,
        and the decision rests on a goal read earlier in the cycle; no request is written
        before its goal was verified in this cycle; a held goal stays, and is the only one the default is pointed at;
        a completed attempt rests. */
    method RunLocal(inputs: Inputs, ghost m: Mode)
      requires store.Valid() && Ready(m, inputs.check)
      modifies this, ledger, store, boot
      ensures Valid() && mode == m && start == old(store.history) && startPoints == old(boot.points)
      ensures facts == Facts(running, old(Home()), old(boot.files), inputs.check)
      ensures Extends(start, store.history) && BooksHold(store.history, |start|, ledger.notes, facts)
      ensures AllVerified()
      ensures old(Quiet()) ==> Quiet() && CycleOutcome(old(Now()), Now(), old(goalKnown), old(lastGoal), old(Flavor()), inputs)
    {
      Begin(inputs.check, m);
      Cycle(inputs);
    }

    ghost predicate Fitting(inputs: Inputs)
      reads this
    {
      && facts.check == inputs.check
      && (!mode.Free? && inputs.check.Some? ==> Image(mode.goal, facts.arch) in facts.files || mode.goal in inputs.check.value.listed)
    }

    method Cycle(inputs: Inputs)
      requires Valid() && Fitting(inputs) && facts.files == boot.files && ledger.notes.verified == map[]
      modifies this`lastGoal, this`goalKnown, this`flavor, ledger, store, boot
      ensures Valid() && start == old(start) && startPoints == old(startPoints) && facts == old(facts) && mode == old(mode)
      ensures AllVerified()
      ensures old(Quiet()) ==> Quiet() && CycleOutcome(old(Now()), Now(), old(goalKnown), old(lastGoal), old(Flavor()), inputs)
    {
      var view, arch, dirty := Prepare();
      if view.None? || arch.None? {
        return;
      }
      ghost var prepared := Now();
      ghost var checked := CheckAndAsk(view.value, arch.value, dirty, inputs);
      if old(Quiet()) {
        CycleComposes(old(Now()), prepared, checked, Now(), old(goalKnown), old(lastGoal), arch.value, inputs);
      }
    }

    /** The check, and then the request, on a fresh view when something moved. */
    method CheckAndAsk(view: Node, arch: string, dirty: bool, inputs: Inputs) returns (ghost checked: Snap)
      requires Valid() && View(view) && flavor == Some(arch) && arch == facts.arch
      requires Fitting(inputs) && facts.files == boot.files && ledger.notes.verified == map[]
      modifies this`lastGoal, this`goalKnown, this`flavor, ledger, store, boot
      ensures Valid() && start == old(start) && startPoints == old(startPoints) && facts == old(facts) && mode == old(mode)
      ensures AllVerified()
      ensures old(Quiet()) && view == old(store.node) ==>
                Quiet() && CheckedTo(old(Now()), checked, arch, inputs) && AskedFor(checked, Now(), arch, inputs)
    {
      var staged := CheckAndStage(view, inputs, arch);
      checked := Now();
      var latest := view;
      if dirty || staged {
        var again := Read();
        if again.None? {
          return;
        }
        latest := again.value;
      }
      MaybeEnqueue(latest, inputs);
    }

    /** The ungated part: a goal where there is none, and the default brought to the goal. */
    method Prepare() returns (view: Option<Node>, arch: Option<string>, dirty: bool)
      requires Valid() && facts.files == boot.files
      modifies this`lastGoal, this`goalKnown, this`flavor, ledger, store, boot
      ensures Valid() && SameCycle() && facts.files == boot.files
      ensures view.Some? ==> View(view.value)
      ensures view.Some? && arch.Some? ==> flavor == arch && arch.value == facts.arch
      ensures old(Quiet()) ==>
                && Quiet() && view.Some? && arch == old(Flavor())
                && if arch.Some? then view.value == store.node && PreparedTo(old(Now()), Now(), old(goalKnown), old(lastGoal), arch.value)
                   else BootstrappedTo(old(Now()), Now())
    {
      arch := None;
      view, dirty := Start();
      if view.None? {
        return;
      }
      arch := FlavorOf();
      if arch.None? {
        return;
      }
      ghost var begun, given := Now(), dirty;
      var latest;
      latest, dirty := FollowGoal(view.value, dirty);
      view := Some(latest);
      if old(Quiet()) { PrepareComposes(old(Now()), begun, Now(), old(goalKnown), old(lastGoal), given, arch.value); }
    }

    method Start() returns (view: Option<Node>, dirty: bool)
      requires Valid() && facts.files == boot.files
      modifies ledger, store, boot`script
      ensures Valid() && SameCycle()
      ensures view.Some? ==> View(view.value)
      ensures old(Quiet()) ==>
                && Quiet() && view == Some(old(store.node)) && BootstrappedTo(old(Now()), Now())
                && dirty == (old(store.node.nextKernel).None? && store.node.nextKernel.Some?)
    {
      dirty := false;
      view := Read();
      if view.Some? {
        dirty := Bootstrap(view.value);
      }
    }

    /** Steady, nothing happens. Else the default comes to the goal; a malformed goal gives way to
        a safe one; and a completed attempt at a well-formed one is forgotten exactly when the goal
        is there and it or the default moved. */
    predicate FollowedTo(b: Snap, p: Snap, steady: bool, changed: bool, arch: string) {
      && Lawful(b, p, arch) && p.files == b.files && (steady ==> p == b)
      && (!steady ==>
            && AtGoal(p, arch)
            && var g := GoalOf(b.node);
               if g == "" then p.node.nextKernel == b.node.nextKernel
               else if WellFormedVersion(g) then
                 p.node == if Local(g, b, arch) && (changed || b.default != Some(Image(g, arch))) then Rearmed(b.node) else b.node
               else SafeGoal(p.node.nextKernel, running, running != "", OwnVersions(b.files, arch)))
    }

    lemma PrepareComposes(a: Snap, b: Snap, p: Snap, known: bool, last: string, bootstrapped: bool, arch: string)
      requires BootstrappedTo(a, b) && bootstrapped == (a.node.nextKernel.None? && b.node.nextKernel.Some?)
      requires FollowedTo(b, p, Steady(known, last, a.node, bootstrapped), known && Some(last) != b.node.nextKernel, arch)
      ensures PreparedTo(a, p, known, last, arch)
    {
    }

    /** The default brought to the goal, and the node read again when something moved. */
    method FollowGoal(view: Node, bootstrapped: bool) returns (latest: Node, dirty: bool)
      requires Valid() && View(view) && facts.files == boot.files && flavor.Some?
      modifies this`lastGoal, this`goalKnown, this`flavor, ledger, store, boot
      ensures Valid() && SameCycle() && facts.files == boot.files && View(latest) && flavor == old(flavor)
      ensures old(Quiet()) && (bootstrapped || view == old(store.node)) ==>
                && Quiet() && latest == store.node
                && FollowedTo(old(Now()), Now(), Steady(old(goalKnown), old(lastGoal), view, bootstrapped),
                              old(goalKnown && Some(lastGoal) != store.node.nextKernel), flavor.value)
    {
      var moved := Reconcile(view, bootstrapped);
      latest, dirty := view, bootstrapped || moved;
      if dirty {
        var again := Read();
        if again.Some? {
          latest := again.value;
        }
      }
    }

    /** A new pod on the same host. */
    method Restart()
      requires store.Valid()
      modifies this`lastGoal, this`goalKnown, this`flavor
      ensures lastGoal == "" && !goalKnown && flavor.None?
    {
      lastGoal, goalKnown, flavor := "", false, None;
    }

    /** Any number of cycles and restarts: a completed attempt at a local goal that is the
        default stays completed, the goal stays, and the default is never touched. */
    method RunOn(plan: seq<Option<Inputs>>, ghost goal: string)
      requires store.Valid() && Ready(Rest(goal), None)
      requires resolve(boot.files) == Some(Home())
      modifies this, ledger, store, boot
      ensures store.Valid() && Extends(old(store.history), store.history)
      ensures GoalStays(store.history, |old(store.history)| - 1, goal) && StaysCompleted(store.history, |old(store.history)| - 1)
      ensures boot.points == old(boot.points) && boot.default == old(boot.default)
    {
      ghost var home := Home();
      var i := 0;
      while i < |plan|
        invariant 0 <= i <= |plan| && store.Valid() && Extends(old(store.history), store.history)
        invariant Ready(Rest(goal), None) && Home() == home && resolve(boot.files) == Some(home)
        invariant GoalStays(store.history, |old(store.history)| - 1, goal)
        invariant StaysCompleted(store.history, |old(store.history)| - 1)
        invariant boot.points == old(boot.points) && boot.default == old(boot.default)
      {
        if plan[i].None? {
          Restart();
        } else {
          ghost var before := store.history;
          RunLocal(plan[i].value, Rest(goal));
          StaysJoin(store.history, before, |old(store.history)| - 1, goal);
          ExtendsThrough(old(store.history), before, store.history);
        }
        i := i + 1;
      }
    }
  }

  lemma StaysJoin(after: seq<Version>, before: seq<Version>, from: nat, goal: string)
    requires before != [] && Extends(before, after)
    requires GoalStays(before, from, goal) && StaysCompleted(before, from)
    requires GoalStays(after, |before| - 1, goal) && StaysCompleted(after, |before| - 1)
    ensures GoalStays(after, from, goal) && StaysCompleted(after, from)
  {
    assert forall k :: 0 <= k < |before| ==> after[..|before|][k] == after[k];
  }

  lemma NewestStep(vs: seq<string>, i: nat, v: string)
    requires i < |vs| && (v == "" ==> forall k :: 0 <= k < i ==> vs[k] == "")
    requires forall k :: 0 <= k < i ==> !Newer(vs[k], v)
    ensures var w := if v == "" || Newer(vs[i], v) then vs[i] else v; forall k :: 0 <= k < i + 1 ==> !Newer(vs[k], w)
  {
    forall k | 0 <= k < i
      ensures v == "" || Newer(vs[i], v) ==> !Newer(vs[k], vs[i])
    {
      NewerThrough(vs[k], vs[i], v);
    }
  }

  lemma NewerThrough(u: string, w: string, v: string)
    ensures Newer(u, w) && Newer(w, v) ==> Newer(u, v)
    ensures !Newer("", w)
  {
  }

  function LocalSet(listing: seq<Image>, arch: string): set<string> {
    set k | k in listing && k.flavor == arch :: k.ts
  }

  lemma LocalSetHolds(listing: seq<Image>, arch: string)
    ensures forall v :: v in LocalSet(listing, arch) <==> Image(v, arch) in listing
  {
  }

  function Versions(listing: seq<Image>): seq<string> {
    seq(|listing|, i requires 0 <= i < |listing| => listing[i].ts)
  }

  lemma VersionsHold(listing: seq<Image>)
    ensures forall v :: v in Versions(listing) <==> exists k :: k in listing && k.ts == v
  {
    forall k | k in listing
      ensures k.ts in Versions(listing)
    {
      var i :| 0 <= i < |listing| && listing[i] == k;
      assert Versions(listing)[i] == k.ts;
    }
  }

  lemma OwnVersionsHold(listing: seq<Image>, files: set<Image>, arch: string)
    requires forall k :: k in listing <==> k in files
    ensures (set v | v in Versions(OfFlavor(listing, arch))) == set k | k in files && k.flavor == arch :: k.ts
  {
    OfFlavorHolds(listing, arch);
    VersionsHold(OfFlavor(listing, arch));
  }

  lemma {:induction false} OfFlavorHolds(listing: seq<Image>, arch: string)
    ensures forall k :: k in OfFlavor(listing, arch) <==> k in listing && k.flavor == arch
  {
    if listing != [] { OfFlavorHolds(listing[1..], arch); }
  }

  function OfFlavor(listing: seq<Image>, arch: string): seq<Image> {
    if listing == [] then []
    else if listing[0].flavor == arch then [listing[0]] + OfFlavor(listing[1..], arch)
    else OfFlavor(listing[1..], arch)
  }
}
