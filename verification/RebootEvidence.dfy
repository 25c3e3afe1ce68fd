/** What a completed reboot rests on, and which cordons survive: the leader acts on listed
    views that have gone stale, yet never carries evidence from one request to the next. */
module RebootEvidence {
  import opened Wrappers
  import opened NodeState
  import opened RebootWorld
  import opened RebootExecution

  function ViewsOf(leader: LeaderPhase): map<Name, View> {
    match leader
    case Listed(views) => views
    case Managing(views, _) => views
    case _ => map[]
  }

  /* ---- Views ---------------------------------------------------------------------------- */

  /** The record a view shows is in the journal of its request. */
  predicate ViewRecorded(w: World, x: Name, v: View) {
    v.node.exec.Parsed? ==>
      && InPhaseAfterIssue(v.node) && v.request in w.journals
      && var j, e := w.journals[v.request], v.node.exec.value;
         && j.name == x && 1 <= e.attempt <= |j.records| && j.records[e.attempt - 1] == e.(confirmedAt := None)
         && e.bootId < w.nextBoot
         && (e.confirmedAt.Some? && x in w.members ==> w.members[x].bootId != e.bootId)
  }

  predicate InPhaseAfterIssue(n: Node) {
    InPhase(n, Rebooting) || InPhase(n, Completed) || InPhase(n, Failed)
  }

  /** Only the leader admits to draining, so while it works on a view past that point the
      node is still on the same request, or back before it. */
  predicate ViewCurrent(w: World, x: Name, v: View) {
    PastRequested(v.node) && x in w.members && PastRequested(w.members[x].node) ==>
      && w.members[x].request == v.request
      && (w.members[x].cordoned ==> KeepsCordon(v.node))
  }

  predicate CordonOk(m: Member) {
    m.cordoned && PastRequested(m.node) ==> KeepsCordon(m.node)
  }

  ghost predicate ViewsOk(w: World) {
    && (forall x :: x in ViewsOf(w.leader) ==>
          ViewRecorded(w, x, ViewsOf(w.leader)[x]) && ViewCurrent(w, x, ViewsOf(w.leader)[x]))
    && (forall x :: x in w.members ==> CordonOk(w.members[x]))
    && (w.leader.Managing? || w.leader.Admitting? ==> w.leader.now <= w.clock)
  }

  predicate JournalsGrow(w: World, w': World) {
    forall r :: r in w.journals ==>
      && r in w'.journals && w'.journals[r].name == w.journals[r].name
      && w.journals[r].records <= w'.journals[r].records
  }

  /** What every step but the leader's admission does to a member: it goes past "requested"
      with nobody's help, keeps its request there, and boots under fresh ids only. */
  predicate MemberSettles(w: World, x: Name, m': Member) {
    if x in w.members then
      && (PastRequested(m'.node) ==>
            && PastRequested(w.members[x].node) && m'.request == w.members[x].request
            && m'.cordoned == w.members[x].cordoned
            && (KeepsCordon(w.members[x].node) ==> KeepsCordon(m'.node)))
      && (m'.bootId == w.members[x].bootId || w.nextBoot <= m'.bootId)
    else
      !PastRequested(m'.node) && w.nextBoot <= m'.bootId
  }

  ghost predicate Settles(w: World, w': World) {
    && w.clock <= w'.clock && w.nextBoot <= w'.nextBoot && JournalsGrow(w, w')
    && forall x :: x in w'.members ==> MemberSettles(w, x, w'.members[x])
  }

  predicate SameSightings(w: World, w': World) {
    w'.leader == w.leader && w'.sightings == w.sightings && w'.notReadyAfter == w.notReadyAfter
  }

  lemma SettlingKeepsViews(w: World, w': World)
    requires ViewsOk(w) && Settles(w, w')
    requires ViewsOf(w'.leader) == map[] || ViewsOf(w'.leader) == ViewsOf(w.leader)
    requires w'.leader.Managing? || w'.leader.Admitting? ==> w'.leader.now <= w'.clock
    ensures ViewsOk(w')
  {
    forall x | x in ViewsOf(w'.leader)
      ensures ViewRecorded(w', x, ViewsOf(w'.leader)[x]) && ViewCurrent(w', x, ViewsOf(w'.leader)[x])
    {
      assert ViewRecorded(w, x, ViewsOf(w.leader)[x]) && ViewCurrent(w, x, ViewsOf(w.leader)[x]);
      if x in w'.members { assert MemberSettles(w, x, w'.members[x]); }
    }
    forall x | x in w'.members
      ensures CordonOk(w'.members[x])
    {
      assert MemberSettles(w, x, w'.members[x]);
      if x in w.members { assert CordonOk(w.members[x]); }
    }
  }

  /* ---- Every step but admission settles -------------------------------------------------- */

  /** A leader's write: status fields other than the touched one survive. */
  lemma LeaderWriteSettles(n: Node, view: Node, memory: Option<Sighting>, now: int, clock: int, drain: DrainOutcome)
    ensures var n' := Written(n, LeaderBuild(view, memory, now, clock, drain));
            && (PastRequested(n') ==> PastRequested(n))
            && (KeepsCordon(n) ==> KeepsCordon(n'))
  {
  }

  lemma LocalWriteSettles(m: Member, clock: int, grace: int, delivered: bool, answered: bool)
    requires m.local.Deciding?
    ensures var m' := LocalOutcome(m, clock, grace, delivered, answered).0;
            && (PastRequested(m'.node) ==> PastRequested(m.node))
            && (KeepsCordon(m.node) ==> KeepsCordon(m'.node))
            && m'.request == m.request && m'.cordoned == m.cordoned && m'.bootId == m.bootId
  {
  }

  lemma SurroundingsSettle(w: World, step: Step, w': World)
    requires BySurroundings(step) && SurroundingsNext(w, step, w')
    ensures Settles(w, w') && w'.leader == w.leader
  {
  }

  lemma RequestingSettles(w: World, x: Name, build: Build)
    requires ExecutionInv(w) && x in w.members && build(w.members[x].node).Some?
    requires var p := build(w.members[x].node).value; p.state.Put? && p.state.value.phase.Requested?
    ensures Settles(w, Requesting(w, x, build))
  {
    assert w.nextRequest !in w.journals by {
      assert forall r :: r in w.journals ==> JournalOk(w, r, w.journals[r]);
    }
  }

  lemma ClearingSettles(w: World, x: Name, build: Build)
    requires x in w.members && build(w.members[x].node).Some? && build(w.members[x].node).value.state.Remove?
    ensures Settles(w, Clearing(w, x, build))
  {
  }

  lemma RequestsSettle(w: World, step: Step, w': World)
    requires ExecutionInv(w) && ByRequests(step) && RequestNext(w, step, w')
    ensures Settles(w, w') && SameSightings(w, w')
  {
    match step
    case ApiAdmit(x, since, id, requester, force) =>
      RequestingSettles(w, x, AdmitBuild(since, id, requester, force));
    case PodEnqueue(x, since, id, goal, running) =>
      RequestingSettles(w, x, EnqueueBuild(since, id, goal, running));
    case ApiDelete(x) => ClearingSettles(w, x, DeleteBuild());
    case PodRearm(x) => ClearingSettles(w, x, RearmBuild());
  }

  lemma ExecutorSettles(w: World, step: Step, w': World)
    requires ByExecutor(step) && LocalNext(w, step, w')
    ensures Settles(w, w') && w'.leader == w.leader
  {
    if step.LocalWrite? {
      LocalWriteSettles(w.members[step.name], w.clock, w.grace, step.delivered, step.answered);
    }
  }

  lemma ManageSettles(w: World, x: Name, drain: DrainOutcome, delivered: bool, w': World)
    requires LeaderNext(w, LeaderManage(x, drain, delivered), w')
    ensures Settles(w, w') && w'.leader == w.leader
  {
    if x in w.members {
      LeaderWriteSettles(w.members[x].node, w.leader.views[x].node, Remembered(w, x), w.leader.now, w.clock, drain);
    }
  }

  lemma BlockedSettles(w: World, x: Name, blocked: seq<string>, w': World)
    requires LeaderNext(w, LeaderBlocked(x, blocked), w')
    ensures Settles(w, w') && w'.leader == w.leader
  {
  }

  /** A fresh list is current by definition. */
  lemma ListKeepsViews(w: World, w': World)
    requires ExecutionInv(w) && ViewsOk(w) && LeaderNext(w, LeaderList, w')
    ensures ViewsOk(w')
  {
    forall x | x in w'.leader.views
      ensures ViewRecorded(w', x, w'.leader.views[x]) && ViewCurrent(w', x, w'.leader.views[x])
    {
      var m := w.members[x];
      assert NodeOk(w, x, m) && CordonOk(m);
      if m.request > 0 {
        assert JournalOk(w, m.request, w.journals[m.request]);
      }
      ViewOfStored(w, x, m);
    }
  }

  /** The stored node makes a good view of itself. */
  lemma ViewOfStored(w: World, x: Name, m: Member)
    requires x in w.members && w.members[x] == m && NodeOk(w, x, m) && CordonOk(m)
    requires m.request > 0 ==> JournalOk(w, m.request, w.journals[m.request])
    ensures ViewRecorded(w, x, View(m.node, m.request)) && ViewCurrent(w, x, View(m.node, m.request))
  {
  }

  /** Admission records the cordon it finds before it sets its own. */
  lemma AdmitKeepsViews(w: World, x: Name, delivered: bool, w': World)
    requires ViewsOk(w) && LeaderNext(w, LeaderAdmit(x, delivered), w')
    ensures ViewsOk(w')
  {
    forall y | y in w'.members
      ensures CordonOk(w'.members[y])
    {
      assert CordonOk(w.members[y]);
    }
  }

  /** Only the leader's own place in its cycle changed. */
  lemma CycleKeepsViews(w: World, w': World)
    requires ViewsOk(w) && w'.members == w.members && w'.journals == w.journals
    requires w'.clock == w.clock && w'.nextBoot == w.nextBoot
    requires ViewsOf(w'.leader) == map[] || ViewsOf(w'.leader) == ViewsOf(w.leader)
    requires w'.leader.Managing? || w'.leader.Admitting? ==> w'.leader.now <= w'.clock
    ensures ViewsOk(w')
  {
    SettlingKeepsViews(w, w');
  }

  lemma LeaderKeepsViews(w: World, step: Step, w': World)
    requires ExecutionInv(w) && ViewsOk(w) && ByLeader(step) && LeaderNext(w, step, w')
    ensures ViewsOk(w')
  {
    if step.LeaderList? {
      ListKeepsViews(w, w');
    } else if step.LeaderAdmit? {
      AdmitKeepsViews(w, step.name, step.delivered, w');
    } else if step.LeaderManage? {
      ManageSettles(w, step.name, step.drain, step.delivered, w');
      SettlingKeepsViews(w, w');
    } else if step.LeaderBlocked? {
      BlockedSettles(w, step.name, step.blocked, w');
      SettlingKeepsViews(w, w');
    } else {
      CycleKeepsViews(w, w');
    }
  }

  lemma NextKeepsViews(w: World, step: Step, w': World)
    requires ExecutionInv(w) && ViewsOk(w) && Next(w, step, w')
    ensures ViewsOk(w')
  {
    if ByLeader(step) {
      LeaderKeepsViews(w, step, w');
    } else {
      if BySurroundings(step) { SurroundingsSettle(w, step, w'); }
      else if ByRequests(step) { RequestsSettle(w, step, w'); }
      else { ExecutorSettles(w, step, w'); }
      SettlingKeepsViews(w, w');
    }
  }

  /* ---- Sightings ------------------------------------------------------------------------- */

  /** A sighting tells of a record of its request that was issued before the leader's clock. */
  predicate SightingRecorded(w: World, s: Sighting) {
    && s.issuedAt < s.at <= w.clock && s.request in w.journals
    && var j := w.journals[s.request];
       j.name == s.name && 1 <= s.attempt <= |j.records| && j.records[s.attempt - 1].issuedAt == s.issuedAt
  }

  /** A sighting made for another request is too old to count for this one. */
  predicate TooOld(s: Sighting, x: Name, request: nat, exec: Annotation<ExecRecord>) {
    s.name == x && s.request != request && exec.Parsed? ==> s.at <= exec.value.issuedAt
  }

  /** A pod about to announce its first record will date it after every sighting. */
  predicate PredatesAnnouncement(s: Sighting, x: Name, m: Member) {
    s.name == x && m.local.Deciding? && m.local.view.exec.Absent? ==> s.at <= m.local.now
  }

  predicate HasLooked(local: LocalPhase) {
    local.Looking? || local.Deciding?
  }

  predicate NoRecordInView(w: World, x: Name)
    requires x in w.members
  {
    HasLooked(w.members[x].local) && w.members[x].local.view.exec.Absent? && x in ViewsOf(w.leader) ==>
         !ViewsOf(w.leader)[x].node.exec.Parsed?
  }

  ghost predicate SightingsOk(w: World) {
    && (forall x :: x in w.notReadyAfter ==> w.notReadyAfter[x].name == x && w.notReadyAfter[x] in w.sightings)
    && (forall s :: s in w.sightings ==> SightingRecorded(w, s))
    && (forall s, x :: s in w.sightings && x in w.members ==>
          && TooOld(s, x, w.members[x].request, w.members[x].node.exec)
          && PredatesAnnouncement(s, x, w.members[x]))
    && (forall s, x :: s in w.sightings && x in ViewsOf(w.leader) ==>
          TooOld(s, x, ViewsOf(w.leader)[x].request, ViewsOf(w.leader)[x].node.exec))
    && (forall x :: x in w.members ==> NoRecordInView(w, x))
  }

  /** Nothing that a sighting is compared with got younger. */
  predicate MemberAges(w: World, x: Name, m': Member) {
    && (m'.node.exec.Parsed? ==>
          && x in w.members && w.members[x].node.exec.Parsed? && m'.request == w.members[x].request
          && m'.node.exec.value.issuedAt == w.members[x].node.exec.value.issuedAt)
    && (HasLooked(m'.local) ==> x in w.members && m'.local == w.members[x].local)
  }

  lemma AgingKeepsSightings(w: World, w': World)
    requires SightingsOk(w) && w'.sightings == w.sightings && w.clock <= w'.clock && JournalsGrow(w, w')
    requires forall x :: x in w'.notReadyAfter ==> w'.notReadyAfter[x].name == x && w'.notReadyAfter[x] in w'.sightings
    requires forall x :: x in w'.members ==> MemberAges(w, x, w'.members[x])
    requires ViewsOf(w'.leader) == map[] || ViewsOf(w'.leader) == ViewsOf(w.leader)
    ensures SightingsOk(w')
  {
    forall s | s in w'.sightings
      ensures SightingRecorded(w', s)
    {
      assert SightingRecorded(w, s);
    }
    forall s, x | s in w'.sightings && x in w'.members
      ensures TooOld(s, x, w'.members[x].request, w'.members[x].node.exec) && PredatesAnnouncement(s, x, w'.members[x])
    {
      assert MemberAges(w, x, w'.members[x]);
      if x in w.members {
        assert TooOld(s, x, w.members[x].request, w.members[x].node.exec) && PredatesAnnouncement(s, x, w.members[x]);
      }
    }
    forall x | x in w'.members
      ensures NoRecordInView(w', x)
    {
      assert MemberAges(w, x, w'.members[x]);
      if x in w.members { assert NoRecordInView(w, x); }
    }
  }

  lemma SurroundingsKeepSightings(w: World, step: Step, w': World)
    requires SightingsOk(w) && BySurroundings(step) && SurroundingsNext(w, step, w')
    ensures SightingsOk(w')
  {
    AgingKeepsSightings(w, w');
  }

  lemma RequestsAge(w: World, step: Step, w': World, x: Name)
    requires ByRequests(step) && RequestNext(w, step, w') && x in w'.members
    ensures MemberAges(w, x, w'.members[x])
  {
    if x != step.name { assert w'.members[x] == w.members[x]; }
  }

  lemma RequestsKeepSightings(w: World, step: Step, w': World)
    requires ExecutionInv(w) && SightingsOk(w) && ByRequests(step) && RequestNext(w, step, w')
    ensures SightingsOk(w')
  {
    RequestsSettle(w, step, w');
    forall x | x in w'.members
      ensures MemberAges(w, x, w'.members[x])
    {
      RequestsAge(w, step, w', x);
    }
    AgingKeepsSightings(w, w');
  }

  /** The pod looks at a rebooting node: if there is no record yet the leader's view cannot show
      one either. */
  lemma ReadKeepsSightings(w: World, x: Name, w': World)
    requires ExecutionInv(w) && ViewsOk(w) && SightingsOk(w) && LocalNext(w, LocalRead(x), w')
    ensures SightingsOk(w')
  {
    var m := w.members[x];
    assert NodeOk(w, x, m);
    if m.node.exec.Absent? && x in ViewsOf(w.leader) {
      assert ViewRecorded(w, x, ViewsOf(w.leader)[x]) && ViewCurrent(w, x, ViewsOf(w.leader)[x]);
    }
    forall s | s in w'.sightings
      ensures SightingRecorded(w', s)
    {
      assert SightingRecorded(w, s);
    }
    forall s, y | s in w'.sightings && y in w'.members
      ensures TooOld(s, y, w'.members[y].request, w'.members[y].node.exec) && PredatesAnnouncement(s, y, w'.members[y])
    {
      assert TooOld(s, y, w.members[y].request, w.members[y].node.exec) && PredatesAnnouncement(s, y, w.members[y]);
      assert SightingRecorded(w, s);
    }
    forall y | y in w'.members
      ensures NoRecordInView(w', y)
    {
      assert NoRecordInView(w, y);
    }
  }

  /** It samples the clock: every sighting so far is in its past. */
  lemma ClockKeepsSightings(w: World, x: Name, w': World)
    requires SightingsOk(w) && LocalNext(w, LocalClock(x), w')
    ensures SightingsOk(w')
  {
    forall s | s in w'.sightings
      ensures SightingRecorded(w', s)
    {
      assert SightingRecorded(w, s);
    }
    forall s, y | s in w'.sightings && y in w'.members
      ensures TooOld(s, y, w'.members[y].request, w'.members[y].node.exec) && PredatesAnnouncement(s, y, w'.members[y])
    {
      assert TooOld(s, y, w.members[y].request, w.members[y].node.exec) && PredatesAnnouncement(s, y, w.members[y]);
      assert SightingRecorded(w, s);
    }
    forall y | y in w'.members
      ensures NoRecordInView(w', y)
    {
      assert NoRecordInView(w, y);
    }
  }

  lemma RecordingKeepsSightings(w: World, w': World)
    requires SightingsOk(w) && w'.sightings == w.sightings && w.clock <= w'.clock && JournalsGrow(w, w')
    ensures forall s :: s in w'.sightings ==> SightingRecorded(w', s)
  {
    forall s | s in w'.sightings
      ensures SightingRecorded(w', s)
    {
      assert SightingRecorded(w, s);
    }
  }

  lemma AnnouncementKeepsSightings(w: World, x: Name, m': Member, e: ExecRecord, w': World)
    requires ExecutionInv(w) && SightingsOk(w) && x in w.members && LocalChange(w.members[x], m', Some(e))
    requires w' == SetMember(w, x, m').(journals := Announcing(w.journals, x, w.members[x].request, e))
    ensures SightingsOk(w')
  {
    var m := w.members[x];
    assert NodeOk(w, x, m) && LocalOk(w, x, m);
    assert m.node.exec.Parsed? ==> m.node.exec.value.issuedAt <= e.issuedAt;
    RecordingKeepsSightings(w, w');
    forall s, y | s in w'.sightings && y in w'.members
      ensures TooOld(s, y, w'.members[y].request, w'.members[y].node.exec) && PredatesAnnouncement(s, y, w'.members[y])
    {
      assert TooOld(s, y, w.members[y].request, w.members[y].node.exec) && PredatesAnnouncement(s, y, w.members[y]);
    }
    forall y | y in w'.members
      ensures NoRecordInView(w', y)
    {
      assert NoRecordInView(w, y);
    }
  }

  lemma WriteKeepsSightings(w: World, x: Name, delivered: bool, answered: bool, w': World)
    requires ExecutionInv(w) && SightingsOk(w) && LocalNext(w, LocalWrite(x, delivered, answered), w')
    ensures SightingsOk(w')
  {
    var m := w.members[x];
    assert NodeOk(w, x, m) && LocalOk(w, x, m);
    LocalOutcomeChanges(w, x, m, delivered, answered);
    var (m', announced) := LocalOutcome(m, w.clock, w.grace, delivered, answered);
    if announced.Some? {
      AnnouncementKeepsSightings(w, x, m', announced.value, w');
    } else {
      AgingKeepsSightings(w, w');
    }
  }

  lemma StartKeepsSightings(w: World, x: Name, starts: bool, w': World)
    requires SightingsOk(w) && LocalNext(w, LocalStart(x, starts), w')
    ensures SightingsOk(w')
  {
    AgingKeepsSightings(w, w');
  }

  lemma ReportKeepsSightings(w: World, x: Name, delivered: bool, w': World)
    requires SightingsOk(w) && LocalNext(w, LocalReport(x, delivered), w')
    ensures SightingsOk(w')
  {
    AgingKeepsSightings(w, w');
  }

  lemma ExecutorKeepsSightings(w: World, step: Step, w': World)
    requires ExecutionInv(w) && ViewsOk(w) && SightingsOk(w) && ByExecutor(step) && LocalNext(w, step, w')
    ensures SightingsOk(w')
  {
    match step
    case LocalRead(x) => ReadKeepsSightings(w, x, w');
    case LocalClock(x) => ClockKeepsSightings(w, x, w');
    case LocalWrite(x, delivered, answered) => WriteKeepsSightings(w, x, delivered, answered, w');
    case LocalStart(x, starts) => StartKeepsSightings(w, x, starts, w');
    case LocalReport(x, delivered) => ReportKeepsSightings(w, x, delivered, w');
  }

  /** A sighting made from a view is one of the request the node is on, or of one that is over. */
  lemma NewSightingFits(w: World, x: Name, s: Sighting)
    requires ExecutionInv(w) && ViewsOk(w) && SightingsOk(w) && w.leader.Managing? && x in w.leader.views
    requires SeesNotReady(w.leader.views[x].node, w.leader.now) && s == SightingOf(x, w.leader.views[x], w.leader.now)
    ensures SightingRecorded(w, s)
    ensures x in w.members ==>
              && TooOld(s, x, w.members[x].request, w.members[x].node.exec)
              && PredatesAnnouncement(s, x, w.members[x])
  {
    var v := w.leader.views[x];
    assert ViewsOf(w.leader)[x] == v;
    assert ViewRecorded(w, x, v) && ViewCurrent(w, x, v);
    if x in w.members {
      assert NodeOk(w, x, w.members[x]) && NoRecordInView(w, x);
    }
  }

  lemma SightingKeepsSightings(w: World, x: Name)
    requires ExecutionInv(w) && ViewsOk(w) && SightingsOk(w) && w.leader.Managing? && x in w.leader.views
    requires SeesNotReady(w.leader.views[x].node, w.leader.now)
    ensures SightingsOk(WithSighting(w, SightingOf(x, w.leader.views[x], w.leader.now)))
  {
    var s0 := SightingOf(x, w.leader.views[x], w.leader.now);
    var w' := WithSighting(w, s0);
    NewSightingFits(w, x, s0);
    assert ViewsOf(w'.leader) == ViewsOf(w.leader);
    forall s | s in w'.sightings
      ensures SightingRecorded(w', s)
    {
      assert s != s0 ==> SightingRecorded(w, s);
    }
    forall s, y | s in w'.sightings && y in w'.members
      ensures TooOld(s, y, w'.members[y].request, w'.members[y].node.exec) && PredatesAnnouncement(s, y, w'.members[y])
    {
      assert s != s0 ==> TooOld(s, y, w.members[y].request, w.members[y].node.exec);
      assert s != s0 ==> PredatesAnnouncement(s, y, w.members[y]);
    }
    ViewsIgnoreSighting(w, x, s0);
  }

  lemma ViewsIgnoreSighting(w: World, x: Name, s0: Sighting)
    requires SightingsOk(w) && w.leader.Managing? && x in w.leader.views
    requires s0.name == x && s0.request == w.leader.views[x].request
    ensures var w' := WithSighting(w, s0);
            && (forall s, y :: s in w'.sightings && y in ViewsOf(w'.leader) ==>
                  TooOld(s, y, ViewsOf(w'.leader)[y].request, ViewsOf(w'.leader)[y].node.exec))
            && (forall y :: y in w'.members ==> NoRecordInView(w', y))
  {
    var w' := WithSighting(w, s0);
    forall y | y in w'.members
      ensures NoRecordInView(w', y)
    {
      assert NoRecordInView(w, y);
    }
  }

  lemma ManageKeepsSightings(w: World, x: Name, drain: DrainOutcome, delivered: bool, w': World)
    requires ExecutionInv(w) && ViewsOk(w) && SightingsOk(w) && LeaderNext(w, LeaderManage(x, drain, delivered), w')
    ensures SightingsOk(w')
  {
    if SeesNotReady(w.leader.views[x].node, w.leader.now) {
      SightingKeepsSightings(w, x);
    } else {
      if x in w.members {
        LeaderBuildChange(w.members[x].node, w.leader.views[x].node, Remembered(w, x), w.leader.now, w.clock, drain);
      }
      AgingKeepsSightings(w, w');
    }
  }

  lemma ListKeepsSightings(w: World, w': World)
    requires ExecutionInv(w) && SightingsOk(w) && LeaderNext(w, LeaderList, w')
    ensures SightingsOk(w')
  {
    forall x | x in w'.members
      ensures NoRecordInView(w', x)
    {
      assert LocalOk(w, x, w.members[x]);
    }
    forall s | s in w'.sightings
      ensures SightingRecorded(w', s)
    {
      assert SightingRecorded(w, s);
    }
    forall s, x | s in w'.sightings && x in w'.members
      ensures TooOld(s, x, w'.members[x].request, w'.members[x].node.exec) && PredatesAnnouncement(s, x, w'.members[x])
    {
      assert TooOld(s, x, w.members[x].request, w.members[x].node.exec) && PredatesAnnouncement(s, x, w.members[x]);
    }
  }

  lemma AdmissionKeepsSightings(w: World, step: Step, w': World)
    requires SightingsOk(w) && (step.LeaderAdmit? || step.LeaderBlocked?) && LeaderNext(w, step, w')
    ensures SightingsOk(w')
  {
    AgingKeepsSightings(w, w');
  }

  lemma CycleKeepsSightings(w: World, w': World)
    requires SightingsOk(w) && w'.members == w.members && w'.journals == w.journals
    requires w'.sightings == w.sightings && w'.clock == w.clock
    requires ViewsOf(w'.leader) == map[] || ViewsOf(w'.leader) == ViewsOf(w.leader)
    requires forall x :: x in w'.notReadyAfter ==> w'.notReadyAfter[x].name == x && w'.notReadyAfter[x] in w'.sightings
    ensures SightingsOk(w')
  {
    AgingKeepsSightings(w, w');
  }

  lemma LeaderKeepsSightings(w: World, step: Step, w': World)
    requires ExecutionInv(w) && ViewsOk(w) && SightingsOk(w) && ByLeader(step) && LeaderNext(w, step, w')
    ensures SightingsOk(w')
  {
    if step.LeaderList? {
      ListKeepsSightings(w, w');
    } else if step.LeaderManage? {
      ManageKeepsSightings(w, step.name, step.drain, step.delivered, w');
    } else if step.LeaderAdmit? || step.LeaderBlocked? {
      AdmissionKeepsSightings(w, step, w');
    } else {
      CycleKeepsSightings(w, w');
    }
  }

  ghost predicate EvidenceInv(w: World) {
    ExecutionInv(w) && ViewsOk(w) && SightingsOk(w)
  }

  lemma NextKeepsEvidence(w: World, step: Step, w': World)
    requires EvidenceInv(w) && Next(w, step, w')
    ensures EvidenceInv(w')
  {
    NextKeepsExecution(w, step, w');
    NextKeepsViews(w, step, w');
    if BySurroundings(step) {
      SurroundingsKeepSightings(w, step, w');
    } else if ByRequests(step) {
      RequestsKeepSightings(w, step, w');
    } else if ByExecutor(step) {
      ExecutorKeepsSightings(w, step, w');
    } else {
      LeaderKeepsSightings(w, step, w');
    }
  }

  lemma {:induction false} RunKeepsEvidence(worlds: seq<World>, steps: seq<Step>, i: nat)
    requires Run(worlds, steps) && i < |worlds|
    ensures EvidenceInv(worlds[i])
  {
    if i == 0 {
      RunKeepsExecution(worlds, steps, 0);
    } else {
      RunKeepsEvidence(worlds, steps, i - 1);
      assert StepAt(worlds, steps, i - 1);
      NextKeepsEvidence(worlds[i - 1], steps[i - 1], worlds[i]);
    }
  }

  /* ---- Where sightings come from ----------------------------------------------------------- */

  /** In step `l` the leader listed the node, and `view` is what was stored then. */
  ghost predicate ListedAt(worlds: seq<World>, steps: seq<Step>, l: nat, x: Name, view: View) {
    && |worlds| == |steps| + 1 && l < |steps| && steps[l].LeaderList?
    && x in worlds[l].members && view == View(worlds[l].members[x].node, worlds[l].members[x].request)
  }

  /** In step `j` the leader, managing the node, took `s` from a view of it rebooting, with a
      record, and NotReady, by a clock past that record's. */
  ghost predicate TakenAt(worlds: seq<World>, steps: seq<Step>, j: nat, s: Sighting) {
    && |worlds| == |steps| + 1 && j < |steps| && steps[j].LeaderManage? && steps[j].name == s.name
    && worlds[j].leader.Managing? && s.name in worlds[j].leader.views
    && var view := worlds[j].leader.views[s.name];
       SeesNotReady(view.node, worlds[j].leader.now) && s == SightingOf(s.name, view, worlds[j].leader.now)
  }

  /** Taken in step `j` from a view that was listed in step `l`, which was no sooner than the
      record in the view was issued. */
  ghost predicate SeenNotReady(worlds: seq<World>, steps: seq<Step>, j: nat, l: nat, s: Sighting) {
    && l < j && TakenAt(worlds, steps, j, s) && ListedAt(worlds, steps, l, s.name, worlds[j].leader.views[s.name])
    && worlds[j].leader.views[s.name].node.exec.value.issuedAt <= worlds[l].clock
  }

  /** A record in a listed view was issued by the time of the list. */
  lemma ListedRecordIsIssued(worlds: seq<World>, steps: seq<Step>, l: nat, x: Name, view: View)
    requires Run(worlds, steps) && ListedAt(worlds, steps, l, x, view) && view.node.exec.Parsed?
    ensures view.node.exec.value.issuedAt <= worlds[l].clock
  {
    RunKeepsExecution(worlds, steps, l);
    var w := worlds[l];
    var m := w.members[x];
    assert NodeOk(w, x, m);
    assert JournalOk(w, m.request, w.journals[m.request]);
  }

  lemma OthersLeaveTheLeader(w: World, step: Step, w': World)
    requires Next(w, step, w') && !ByLeader(step)
    ensures w'.leader == w.leader && w'.sightings == w.sightings
  {
    if BySurroundings(step) {
      assert SurroundingsNext(w, step, w');
    } else if ByRequests(step) {
      assert RequestNext(w, step, w');
    } else {
      assert LocalNext(w, step, w');
    }
  }

  lemma OnlyAListMakesViews(w: World, step: Step, w': World)
    requires Next(w, step, w') && !step.LeaderList?
    ensures ViewsOf(w'.leader) == map[] || ViewsOf(w'.leader) == ViewsOf(w.leader)
  {
    if ByLeader(step) {
      assert LeaderNext(w, step, w');
    } else {
      OthersLeaveTheLeader(w, step, w');
    }
  }

  lemma OnlyManagingMakesSightings(w: World, step: Step, w': World, s: Sighting)
    requires Next(w, step, w') && s in w'.sightings && s !in w.sightings
    ensures step.LeaderManage? && step.name == s.name && w.leader.Managing? && s.name in w.leader.views
    ensures SeesNotReady(w.leader.views[s.name].node, w.leader.now) && s == SightingOf(s.name, w.leader.views[s.name], w.leader.now)
  {
    if !ByLeader(step) {
      OthersLeaveTheLeader(w, step, w');
    } else if step.LeaderManage? {
      assert SeesNotReady(w.leader.views[step.name].node, w.leader.now);
    }
  }

  lemma {:induction false} ViewWasListed(worlds: seq<World>, steps: seq<Step>, i: nat, x: Name) returns (l: nat)
    requires Run(worlds, steps) && i < |worlds| && x in ViewsOf(worlds[i].leader)
    ensures l < i && ListedAt(worlds, steps, l, x, ViewsOf(worlds[i].leader)[x])
  {
    assert i > 0;
    assert StepAt(worlds, steps, i - 1);
    if steps[i - 1].LeaderList? {
      l := i - 1;
    } else {
      OnlyAListMakesViews(worlds[i - 1], steps[i - 1], worlds[i]);
      l := ViewWasListed(worlds, steps, i - 1, x);
    }
  }

  /** Over every run: each sighting was taken in some step, from a view of the node NotReady that
      some earlier step had listed. */
  lemma {:induction false} SightingsAreGenuine(worlds: seq<World>, steps: seq<Step>, i: nat, s: Sighting) returns (j: nat, l: nat)
    requires Run(worlds, steps) && i < |worlds| && s in worlds[i].sightings
    ensures j < i && SeenNotReady(worlds, steps, j, l, s)
  {
    assert i > 0;
    if s in worlds[i - 1].sightings {
      j, l := SightingsAreGenuine(worlds, steps, i - 1, s);
    } else {
      assert StepAt(worlds, steps, i - 1);
      OnlyManagingMakesSightings(worlds[i - 1], steps[i - 1], worlds[i], s);
      j := i - 1;
      l := ViewWasListed(worlds, steps, j, s.name);
      ListedRecordIsIssued(worlds, steps, l, s.name, worlds[j].leader.views[s.name]);
    }
  }

  /* ---- Results --------------------------------------------------------------------------- */

  /** The record, number `k` of the node's current request, that completion in step `i` rests
      on: it is the one in the leader's view, and either confirmed there on a boot the host has
      left, or older than a sighting of the node NotReady, taken for the same request. */
  ghost predicate RestsOn(worlds: seq<World>, steps: seq<Step>, i: nat, x: Name, k: nat, s: Option<Sighting>)
    requires i < |worlds|
  {
    var w := worlds[i];
    && x in w.members && w.leader.Managing? && x in w.leader.views && w.members[x].request in w.journals
    && var m, view, records := w.members[x], w.leader.views[x], w.journals[w.members[x].request].records;
       && w.journals[m.request].name == x && view.request == m.request
       && k < |records| && view.node.exec.Parsed? && view.node.exec.value.attempt == k + 1
       && match s
          case None => view.node.exec.value.confirmedAt.Some? && m.bootId != records[k].bootId
          case Some(seen) =>
            && seen.name == x && seen.request == m.request && records[k].issuedAt < seen.at
            && exists j: nat, l: nat :: j < i && SeenNotReady(worlds, steps, j, l, seen)
  }

  /** What the leader had in view and in memory. */
  lemma CompletionEvidence(w: World, x: Name) returns (k: nat)
    requires EvidenceInv(w) && w.leader.Managing? && x in w.leader.views && x in w.members
    requires InPhase(w.members[x].node, Rebooting) && InPhase(w.leader.views[x].node, Rebooting)
    requires Evidence(w.leader.views[x].node, Remembered(w, x))
    ensures w.members[x].request in w.journals && w.journals[w.members[x].request].name == x
    ensures w.leader.views[x].request == w.members[x].request
    ensures w.leader.views[x].node.exec.value.attempt == k + 1
    ensures var records := w.journals[w.members[x].request].records;
            && k < |records| && records[k].issuedAt == w.leader.views[x].node.exec.value.issuedAt
            && (w.leader.views[x].node.exec.value.confirmedAt.Some? ==> w.members[x].bootId != records[k].bootId)
  {
    var v := w.leader.views[x];
    assert ViewsOf(w.leader)[x] == v;
    assert NodeOk(w, x, w.members[x]) && ViewRecorded(w, x, v) && ViewCurrent(w, x, v);
    k := v.node.exec.value.attempt - 1;
  }

  lemma SightingFits(w: World, x: Name)
    requires EvidenceInv(w) && w.leader.Managing? && x in w.leader.views && x in w.notReadyAfter
    requires w.leader.views[x].node.exec.Parsed? && w.leader.views[x].node.exec.value.issuedAt < w.notReadyAfter[x].at
    ensures w.notReadyAfter[x] in w.sightings && w.notReadyAfter[x].name == x
    ensures w.notReadyAfter[x].request == w.leader.views[x].request
  {
    assert TooOld(w.notReadyAfter[x], x, ViewsOf(w.leader)[x].request, ViewsOf(w.leader)[x].node.exec);
  }

  /** Over every run: whatever step takes a node from rebooting to completed, it is the
      leader's, and it rests on an exec record written for that same request, which is either
      confirmed on a later boot or older than a sighting of the node NotReady made for the
      same request. A stale view never carries evidence over from another request. */
  lemma CompletionRestsOnItsOwnRecord(worlds: seq<World>, steps: seq<Step>, i: nat, x: Name) returns (k: nat, s: Option<Sighting>)
    requires Run(worlds, steps) && i < |steps| && x in worlds[i].members && x in worlds[i + 1].members
    requires InPhase(worlds[i].members[x].node, Rebooting) && InPhase(worlds[i + 1].members[x].node, Completed)
    ensures steps[i].LeaderManage? && steps[i].name == x && RestsOn(worlds, steps, i, x, k, s)
  {
    var w := worlds[i];
    CompletionIsTheLeaders(worlds, steps, i, x);
    RunKeepsEvidence(worlds, steps, i);
    k := CompletionEvidence(w, x);
    if w.leader.views[x].node.exec.value.confirmedAt.Some? {
      s := None;
    } else {
      s := Some(w.notReadyAfter[x]);
      SightingFits(w, x);
      var j, l := SightingsAreGenuine(worlds, steps, i, s.value);
    }
  }

  lemma CompletionIsTheLeaders(worlds: seq<World>, steps: seq<Step>, i: nat, x: Name)
    requires Run(worlds, steps) && i < |steps| && x in worlds[i].members && x in worlds[i + 1].members
    requires InPhase(worlds[i].members[x].node, Rebooting) && InPhase(worlds[i + 1].members[x].node, Completed)
    ensures steps[i].LeaderManage? && steps[i].name == x && worlds[i].leader.Managing? && x in worlds[i].leader.views
    ensures InPhase(worlds[i].leader.views[x].node, Rebooting)
    ensures Evidence(worlds[i].leader.views[x].node, Remembered(worlds[i], x))
  {
    RunMoves(worlds, steps, i, x);
    assert StepAt(worlds, steps, i);
    OnlyTheLeaderCompletes(worlds[i], steps[i], worlds[i + 1], x);
  }

  lemma OnlyTheLeaderCompletes(w: World, step: Step, w': World, x: Name)
    requires Next(w, step, w') && ByLeader(step) && x in w.members && x in w'.members
    requires InPhase(w.members[x].node, Rebooting) && InPhase(w'.members[x].node, Completed)
    ensures step.LeaderManage? && step.name == x && w.leader.Managing? && x in w.leader.views
    ensures InPhase(w.leader.views[x].node, Rebooting) && Evidence(w.leader.views[x].node, Remembered(w, x))
  {
  }

  /* ---- Lifecycle edges ------------------------------------------------------------------- */

  function ActorOf(step: Step): Actor
    requires !BySurroundings(step)
  {
    if step.ApiAdmit? || step.ApiDelete? then Api
    else if ByRequests(step) then UpdatePod
    else if ByExecutor(step) then Executor
    else Leader
  }

  /** The state, the request number and the cordon of one member across one step. */
  predicate Moves(step: Step, x: Name, m: Member, m': Member) {
    if BySurroundings(step) then
      && m'.node.state == m.node.state && m'.request == m.request && m'.cordoned == m.cordoned
      && (m'.node.unschedulable == m.node.unschedulable || (step.OperatorEdit? && step.name == x))
    else
      && Documented(ActorOf(step), m.node.state, m'.node.state)
      && (if ByRequests(step) then
            m' == m || (step.name == x && m'.request != m.request)
          else
            && m'.request == m.request
            && (m.node.state.Absent? <==> m'.node.state.Absent?)
            && (m'.cordoned == m.cordoned || (step.LeaderAdmit? && step.name == x && InPhase(m.node, Requested))))
  }

  lemma RequestsMove(w: World, step: Step, w': World, x: Name)
    requires ByRequests(step) && RequestNext(w, step, w') && x in w.members && x in w'.members
    requires NodeOk(w, x, w.members[x])
    ensures Moves(step, x, w.members[x], w'.members[x])
  {
    match step
    case ApiAdmit(_, _, _, _, _) =>
    case PodEnqueue(_, _, _, _, _) =>
    case ApiDelete(_) =>
    case PodRearm(_) =>
  }

  lemma ExecutorMoves(w: World, step: Step, w': World, x: Name)
    requires ByExecutor(step) && LocalNext(w, step, w') && x in w.members && x in w'.members
    ensures Moves(step, x, w.members[x], w'.members[x])
  {
    if step.name != x {
      assert w'.members[x] == w.members[x];
    } else if step.LocalWrite? {
      LocalWriteFails(w.members[x], w.clock, w.grace, step.delivered, step.answered);
    } else if step.LocalReport? {
      LocalReportFails(w, x, step.delivered, w');
    } else {
      assert w'.members[x].node == w.members[x].node;
    }
  }

  lemma LocalReportFails(w: World, x: Name, delivered: bool, w': World)
    requires LocalNext(w, LocalReport(x, delivered), w')
    ensures var m, m' := w.members[x], w'.members[x];
            && m'.request == m.request && m'.cordoned == m.cordoned
            && (m'.node.state == m.node.state || (InPhase(m.node, Rebooting) && InPhase(m'.node, Failed)))
  {
  }

  lemma LocalWriteFails(m: Member, clock: int, grace: int, delivered: bool, answered: bool)
    requires m.local.Deciding?
    ensures var m' := LocalOutcome(m, clock, grace, delivered, answered).0;
            && m'.request == m.request && m'.cordoned == m.cordoned
            && (m'.node.state == m.node.state || (InPhase(m.node, Rebooting) && InPhase(m'.node, Failed)))
  {
  }

  lemma LeaderMoves(w: World, step: Step, w': World, x: Name)
    requires ByLeader(step) && LeaderNext(w, step, w') && x in w.members && x in w'.members
    ensures Moves(step, x, w.members[x], w'.members[x])
  {
    if step.LeaderManage? && step.name == x {
      LeaderBuildMoves(w.members[x].node, w.leader.views[x].node, Remembered(w, x), w.leader.now, w.clock, step.drain);
    }
  }

  lemma LeaderBuildMoves(n: Node, view: Node, memory: Option<Sighting>, now: int, clock: int, drain: DrainOutcome)
    ensures Documented(Leader, n.state, Written(n, LeaderBuild(view, memory, now, clock, drain)).state)
  {
  }

  lemma SurroundingsMove(w: World, step: Step, w': World, x: Name)
    requires BySurroundings(step) && SurroundingsNext(w, step, w') && x in w.members && x in w'.members
    ensures Moves(step, x, w.members[x], w'.members[x])
  {
  }

  lemma StepMoves(w: World, step: Step, w': World, x: Name)
    requires ExecutionInv(w) && Next(w, step, w') && x in w.members && x in w'.members
    ensures Moves(step, x, w.members[x], w'.members[x])
  {
    if BySurroundings(step) {
      SurroundingsMove(w, step, w', x);
    } else if ByRequests(step) {
      assert NodeOk(w, x, w.members[x]);
      RequestsMove(w, step, w', x);
    } else if ByExecutor(step) {
      ExecutorMoves(w, step, w', x);
    } else {
      LeaderMoves(w, step, w', x);
    }
  }

  /** Over every run the state moves along the edges of the lifecycle diagram only, each edge
      taken by its actor. */
  lemma RunMoves(worlds: seq<World>, steps: seq<Step>, i: nat, x: Name)
    requires Run(worlds, steps) && i < |steps| && x in worlds[i].members && x in worlds[i + 1].members
    ensures Moves(steps[i], x, worlds[i].members[x], worlds[i + 1].members[x])
  {
    RunKeepsExecution(worlds, steps, i);
    assert StepAt(worlds, steps, i);
    StepMoves(worlds[i], steps[i], worlds[i + 1], x);
  }

  /** Draining is left only by the leader, forward: DELETE does not interrupt it. */
  lemma DrainingIsNotInterrupted(worlds: seq<World>, steps: seq<Step>, i: nat, x: Name)
    requires Run(worlds, steps) && i < |steps| && x in worlds[i].members && x in worlds[i + 1].members
    requires InPhase(worlds[i].members[x].node, Draining)
    ensures var n' := worlds[i + 1].members[x].node;
            || n'.state == worlds[i].members[x].node.state
            || (ByLeader(steps[i]) && (InPhase(n', Rebooting) || InPhase(n', Failed)))
  {
    RunMoves(worlds, steps, i, x);
  }

  /** An operator alarm stays: between a failed node and the same node no longer failed, the
      run holds a DELETE or a new request for it. */
  lemma {:induction false} FailedStays(worlds: seq<World>, steps: seq<Step>, x: Name, i: nat, j: nat) returns (k: nat)
    requires Run(worlds, steps) && i <= j < |worlds|
    requires forall k :: i <= k <= j ==> x in worlds[k].members
    requires InPhase(worlds[i].members[x].node, Failed) && !InPhase(worlds[j].members[x].node, Failed)
    ensures i <= k < j && (steps[k].ApiDelete? || steps[k].ApiAdmit?) && steps[k].name == x
  {
    if InPhase(worlds[j - 1].members[x].node, Failed) {
      k := j - 1;
      RunMoves(worlds, steps, k, x);
    } else {
      k := FailedStays(worlds, steps, x, i, j - 1);
    }
  }

  /* ---- Cordons --------------------------------------------------------------------------- */

  lemma LeaderKeepsCordon(w: World, step: Step, w': World, x: Name)
    requires ViewsOk(w) && ByLeader(step) && LeaderNext(w, step, w') && x in w.members && x in w'.members
    requires w.members[x].cordoned && PastRequested(w.members[x].node) && w.members[x].node.unschedulable
    ensures w'.members[x].node.unschedulable
  {
    if step.LeaderManage? && step.name == x {
      assert ViewsOf(w.leader)[x] == w.leader.views[x];
      assert ViewCurrent(w, x, w.leader.views[x]);
    }
  }

  lemma RequestsKeepCordon(w: World, step: Step, w': World, x: Name)
    requires ByRequests(step) && RequestNext(w, step, w') && x in w.members && x in w'.members
    requires KeepsCordon(w.members[x].node) && w.members[x].node.unschedulable
    ensures w'.members[x].node.unschedulable
  {
  }

  lemma ExecutorKeepsCordon(w: World, step: Step, w': World, x: Name)
    requires ByExecutor(step) && LocalNext(w, step, w') && x in w.members && x in w'.members
    ensures w'.members[x].node.unschedulable == w.members[x].node.unschedulable
  {
  }

  /** No controller step lifts a cordon that was there when the node was admitted to draining. */
  lemma StepKeepsCordon(w: World, step: Step, w': World, x: Name)
    requires EvidenceInv(w) && Next(w, step, w') && x in w.members && x in w'.members
    requires !(step.OperatorEdit? && step.name == x)
    requires w.members[x].cordoned && PastRequested(w.members[x].node) && w.members[x].node.unschedulable
    ensures w'.members[x].node.unschedulable
  {
    assert CordonOk(w.members[x]);
    if BySurroundings(step) {
      SurroundingsMove(w, step, w', x);
    } else if ByRequests(step) {
      RequestsKeepCordon(w, step, w', x);
    } else if ByExecutor(step) {
      ExecutorKeepsCordon(w, step, w', x);
    } else {
      LeaderKeepsCordon(w, step, w', x);
    }
  }

  predicate CordonHolds(w: World, x: Name) {
    && x in w.members && w.members[x].cordoned && PastRequested(w.members[x].node)
    && w.members[x].node.unschedulable
  }

  /** The same, read off a run: also through the step that ends the request. */
  lemma RunKeepsCordon(worlds: seq<World>, steps: seq<Step>, i: nat, x: Name)
    requires Run(worlds, steps) && i < |steps| && CordonHolds(worlds[i], x) && x in worlds[i + 1].members
    requires !(steps[i].OperatorEdit? && steps[i].name == x)
    ensures worlds[i + 1].members[x].node.unschedulable
  {
    RunKeepsEvidence(worlds, steps, i);
    assert StepAt(worlds, steps, i);
    StepKeepsCordon(worlds[i], steps[i], worlds[i + 1], x);
  }

  /** Over every run: as long as the request that found the cordon is neither cleared nor
      replaced and no operator touches the node, the cordon stays. */
  lemma {:induction false} CordonSurvives(worlds: seq<World>, steps: seq<Step>, x: Name, i: nat, j: nat)
    requires Run(worlds, steps) && i <= j < |worlds| && CordonHolds(worlds[i], x)
    requires forall k :: i <= k <= j ==> x in worlds[k].members && worlds[k].members[x].request == worlds[i].members[x].request
    requires forall k :: i <= k < j ==> !(steps[k].OperatorEdit? && steps[k].name == x)
    ensures CordonHolds(worlds[j], x)
  {
    if i < j {
      CordonSurvives(worlds, steps, x, i, j - 1);
      RunKeepsCordon(worlds, steps, j - 1, x);
      RunMoves(worlds, steps, j - 1, x);
    }
  }
}
