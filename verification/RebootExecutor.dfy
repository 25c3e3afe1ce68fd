/** The executor pod's cycle (`runLocal`, internal/features/reboot/local.go) against a node
    object that others write between its calls. Its decisions and guards are the ones the
    protocol of `RebootWorld` steps through. */
module RebootExecutor {
  import opened Wrappers
  import opened NodeState
  import opened Store
  import opened RebootWorld

  /** The write-ahead rule: an own version of the node carries the record of the command. */
  ghost predicate AnnouncedIn(history: seq<Version>, from: nat, c: Command) {
    exists k: nat ::
      && from <= k < |history| && history[k].author.Ours?
      && InPhase(history[k].node, Rebooting) && history[k].node.exec.Parsed?
      && history[k].node.exec.value.attempt == c.attempt && history[k].node.exec.value.bootId == c.bootId
      && history[k].node.exec.value.confirmedAt.None?
  }

  /** Everything this pod writes is a guarded write of a rebooting node: a failure, or an
      exec record and nothing else. */
  predicate GuardedOwn(history: seq<Version>, k: nat)
    requires k < |history|
  {
    && 0 < k && InPhase(history[k - 1].node, Rebooting)
    && (|| InPhase(history[k].node, Failed)
        || (history[k].node.exec.Parsed? && history[k].node == history[k - 1].node.(exec := history[k].node.exec)))
  }

  ghost predicate OwnWritesAreGuarded(history: seq<Version>, from: nat) {
    forall k: nat :: from <= k < |history| && history[k].author.Ours? ==> GuardedOwn(history, k)
  }

  const NO_START := "reboot command failed to start"

  /** The plan is to reboot, and the guard lets its record be written. */
  predicate Announces(plan: LocalPlan, n: Node, bootId: BootId, later: int, grace: int) {
    (plan.Announce? || plan.AnnounceAgain?) && LocalBuild(plan, bootId, later, grace)(n).Some?
  }

  /** The node after an undisturbed cycle: the plan's write, and then, when the command that was
      announced does not start, the attempt failed. */
  function Carried(n: Node, plan: LocalPlan, bootId: BootId, later: int, grace: int, starts: bool): Node {
    var written := Written(n, LocalBuild(plan, bootId, later, grace));
    if Announces(plan, n, bootId, later, grace) && !starts then Written(written, FailBuild(Rebooting, later, NO_START)) else written
  }

  /** And that is a failed node with the record in it, whatever else was there. */
  lemma NoStartFails(n: Node, plan: LocalPlan, bootId: BootId, later: int, grace: int)
    requires Announces(plan, n, bootId, later, grace)
    ensures var after := Carried(n, plan, bootId, later, grace, false);
            InPhase(after, Failed) && after.exec == Parsed(plan.exec) && after.nextKernel == n.nextKernel && after.unschedulable == n.unschedulable
    ensures Carried(n, plan, bootId, later, grace, true) == n.(exec := Parsed(plan.exec)) && InPhase(n, Rebooting)
  {
  }

  /** Some text is in the error, and the attempt has failed at that moment; the rest is as before. */
  predicate FailedFrom(before: Node, after: Node, at: int) {
    && after.state == Parsed(StateRecord(Failed, at)) && after.status.Parsed? && after.status.value.error != ""
    && after == before.(state := after.state, status := after.status)
  }

  /** The attempt is recorded, with this boot; then its command starts, or the node fails. */
  predicate Attempted(before: Node, after: Node, given: seq<Command>, commands: seq<Command>,
                      attempt: nat, bootId: BootId, now: int, later: int, starts: bool) {
    var recorded := before.(exec := Parsed(ExecRecord(now, bootId, attempt, None)));
    if starts then after == recorded && commands == given + [Command(attempt, bootId)]
    else FailedFrom(recorded, after, later) && commands == given
  }

  /** What an undisturbed cycle does to a rebooting node, from its record and the times alone.
      No record: the first attempt is recorded and commanded. A record of this boot: the first
      attempt is made a second time while it is within the grace; past the grace the reboot has
      failed; the second attempt is waited for. A record of another boot is confirmed once. A
      command that does not start fails the attempt. */
  predicate Decided(before: Node, after: Node, given: seq<Command>, commands: seq<Command>,
                    bootId: BootId, grace: int, now: int, later: int, starts: bool) {
    match before.exec
    case Absent => Attempted(before, after, given, commands, 1, bootId, now, later, starts)
    case Corrupt => after == before && commands == given
    case Parsed(e) =>
      if e.bootId == bootId then
        if e.issuedAt + grace < now then FailedFrom(before, after, later) && commands == given
        else if e.attempt == 1 && later <= e.issuedAt + grace then
          Attempted(before, after, given, commands, 2, bootId, now, later, starts)
        else after == before && commands == given
      else
        && commands == given
        && after == if e.confirmedAt.None? then before.(exec := Parsed(e.(confirmedAt := Some(now)))) else before
  }

  lemma CarriedIsDecided(before: Node, given: seq<Command>, bootId: BootId, grace: int, now: int, later: int, starts: bool)
    ensures var plan := Plan(before.exec, bootId, now, grace);
            InPhase(before, Rebooting) ==>
            Decided(before, Carried(before, plan, bootId, later, grace, starts), given,
                    if starts && Announces(plan, before, bootId, later, grace)
                    then given + [Command(plan.exec.attempt, bootId)] else given,
                    bootId, grace, now, later, starts)
  {
  }

  class Executor {
    const store: NodeStore
    const bootId: BootId
    const grace: int
    var commands: seq<Command>

    constructor (store: NodeStore, bootId: BootId, grace: int)
      ensures this.store == store && this.bootId == bootId && this.grace == grace && commands == []
    {
      this.store, this.bootId, this.grace := store, bootId, grace;
      commands := [];
    }

    /** `guardedExecPatch`, or the give-up path of `localFailed`. */
    method WriteAhead(plan: LocalPlan, later: int) returns (applied: bool)
      requires store.Valid() && !plan.Wait?
      requires plan.Announce? || plan.AnnounceAgain? ==>
                 plan.exec.bootId == bootId && plan.exec.confirmedAt.None? && plan.exec.attempt >= 0
      modifies store
      ensures store.Valid() && Extends(old(store.history), store.history)
      ensures OwnWritesAreGuarded(store.history, |old(store.history)|)
      ensures applied && (plan.Announce? || plan.AnnounceAgain?) ==>
                AnnouncedIn(store.history, |old(store.history)|, Command(plan.exec.attempt, bootId))
      ensures old(store.script) == [] ==>
                var build := LocalBuild(plan, bootId, later, grace);
                && store.script == [] && applied == build(old(store.node)).Some?
                && store.node == Written(old(store.node), build)
    {
      var build := LocalBuild(plan, bootId, later, grace);
      var result := store.PatchTransition(3, build);
      applied := result.Applied?;
      LocalWritesAreGuarded(old(store.history), store.history, plan, bootId, later, grace);
      if applied && (plan.Announce? || plan.AnnounceAgain?) {
        AnnouncementIsThere(old(store.history), store.history, plan, bootId, later, grace);
      }
    }

    /** `localFailed` after the command did not start. */
    method ReportFailure(later: int)
      requires store.Valid()
      modifies store
      ensures store.Valid() && Extends(old(store.history), store.history)
      ensures OwnWritesAreGuarded(store.history, |old(store.history)|)
      ensures old(store.script) == [] ==> store.script == [] && store.node == Written(old(store.node), FailBuild(Rebooting, later, NO_START))
    {
      var _ := store.PatchTransition(3, FailBuild(Rebooting, later, NO_START));
      FailureIsGuarded(old(store.history), store.history, later, NO_START);
    }

    /** The write, and the command only after the write is known to have succeeded. */
    method Carry(plan: LocalPlan, later: int, starts: bool)
      requires store.Valid() && !plan.Wait?
      requires plan.Announce? || plan.AnnounceAgain? ==>
                 plan.exec.bootId == bootId && plan.exec.confirmedAt.None? && plan.exec.attempt in {1, 2}
      modifies this, store
      ensures store.Valid() && Extends(old(store.history), store.history)
      ensures OwnWritesAreGuarded(store.history, |old(store.history)|)
      ensures || commands == old(commands)
              || (&& starts && (plan.Announce? || plan.AnnounceAgain?)
                  && commands == old(commands) + [Command(plan.exec.attempt, bootId)]
                  && AnnouncedIn(store.history, |old(store.history)|, Command(plan.exec.attempt, bootId)))
      ensures old(store.script) == [] ==>
                store.node == Carried(old(store.node), plan, bootId, later, grace, starts)
                && commands == old(commands) + if starts && Announces(plan, old(store.node), bootId, later, grace)
                                               then [Command(plan.exec.attempt, bootId)] else []
    {
      var applied := WriteAhead(plan, later);
      ghost var written := |store.history|;
      if applied && (plan.Announce? || plan.AnnounceAgain?) {
        if starts {
          commands := commands + [Command(plan.exec.attempt, bootId)];
        } else {
          ReportFailure(later);
          OwnWritesJoin(store.history, |old(store.history)|, written);
        }
      }
    }

    /** One cycle. `now` is sampled after the read, `later` when a guard is evaluated;
        `starts` says whether the command can be started. */
    method RunLocal(now: int, later: int, starts: bool)
      requires store.Valid()
      modifies this, store
      ensures store.Valid() && Extends(old(store.history), store.history)
      ensures OwnWritesAreGuarded(store.history, |old(store.history)|)
      ensures || commands == old(commands)
              || (&& starts && |commands| == |old(commands)| + 1 && old(commands) <= commands
                  && commands[|old(commands)|].bootId == bootId && commands[|old(commands)|].attempt in {1, 2}
                  && AnnouncedIn(store.history, |old(store.history)|, commands[|old(commands)|]))
      ensures old(store.script) == [] && InPhase(old(store.node), Rebooting) ==>
                var plan := Plan(old(store.node).exec, bootId, now, grace);
                store.node == Carried(old(store.node), plan, bootId, later, grace, starts)
                && commands == old(commands) + if starts && Announces(plan, old(store.node), bootId, later, grace)
                                               then [Command(plan.exec.attempt, bootId)] else []
      ensures old(store.script) == [] && !InPhase(old(store.node), Rebooting) ==>
                store.node == old(store.node) && commands == old(commands)
      ensures old(store.script) == [] && InPhase(old(store.node), Rebooting) ==>
                Decided(old(store.node), store.node, old(commands), commands, bootId, grace, now, later, starts)
    {
      CarriedIsDecided(store.node, commands, bootId, grace, now, later, starts);
      var read := store.GetNode();
      if read.ReadError? || !InPhase(read.node, Rebooting) {
        return;
      }
      var plan := Plan(read.node.exec, bootId, now, grace);
      if !plan.Wait? {
        PlanShape(read.node.exec, bootId, now, grace);
        ghost var seen := |store.history|;
        Carry(plan, later, starts);
        OwnWritesJoin(store.history, |old(store.history)|, seen);
      }
    }
  }

  lemma PlanShape(exec: Annotation<ExecRecord>, bootId: BootId, now: int, grace: int)
    ensures var plan := Plan(exec, bootId, now, grace);
            plan.Announce? || plan.AnnounceAgain? ==>
              plan.exec.bootId == bootId && plan.exec.confirmedAt.None? && plan.exec.attempt in {1, 2}
  {
  }

  lemma LocalWritesAreGuarded(before: seq<Version>, after: seq<Version>, plan: LocalPlan, bootId: BootId, later: int, grace: int)
    requires before != [] && Extends(before, after)
    requires OnlyOthers(after, |before|) || WroteOnce(after, |before|, LocalBuild(plan, bootId, later, grace))
    ensures OwnWritesAreGuarded(after, |before|)
  {
  }

  lemma FailureIsGuarded(before: seq<Version>, after: seq<Version>, later: int, error: string)
    requires before != [] && Extends(before, after)
    requires OnlyOthers(after, |before|) || WroteOnce(after, |before|, FailBuild(Rebooting, later, error))
    ensures OwnWritesAreGuarded(after, |before|)
  {
  }

  lemma OwnWritesJoin(history: seq<Version>, from: nat, later: nat)
    requires from <= later <= |history| && OwnWritesAreGuarded(history[..later], from) && OwnWritesAreGuarded(history, later)
    ensures OwnWritesAreGuarded(history, from)
  {
    forall k: nat | from <= k < |history| && history[k].author.Ours?
      ensures GuardedOwn(history, k)
    {
      if k < later {
        assert history[..later][k] == history[k];
        assert GuardedOwn(history[..later], k);
      }
    }
  }

  lemma AnnouncementIsThere(before: seq<Version>, after: seq<Version>, plan: LocalPlan, bootId: BootId, later: int, grace: int)
    requires before != [] && Extends(before, after) && (plan.Announce? || plan.AnnounceAgain?)
    requires plan.exec.bootId == bootId && plan.exec.confirmedAt.None? && plan.exec.attempt >= 0
    requires WroteOnce(after, |before|, LocalBuild(plan, bootId, later, grace))
    ensures AnnouncedIn(after, |before|, Command(plan.exec.attempt, bootId))
  {
  }
}
