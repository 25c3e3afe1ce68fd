/** The two writing calls of the HTTP API (`admit` and `deleteReboot`, internal/api/api.go)
    against a node object that others write between their calls. */
module RequestApi {
  import opened Wrappers
  import opened NodeState
  import opened Store

  datatype Admission = Admitted | NoWindows | NotReady | NoPod | NotReRequestable | Changed | Unreachable

  datatype Deletion = Deleted | NoState | DrainRuns | StillChanging | ServerUnreachable

  /** At some moment since `from` the stored node was in `phase`; None: it had no state. */
  ghost predicate WasSeen(history: seq<Version>, from: nat, phase: Option<Lifecycle>) {
    exists k: nat ::
      && from <= k + 1 && k < |history|
      && if phase.None? then history[k].node.state.Absent? else InPhase(history[k].node, phase.value)
  }

  lemma SeenEarlier(history: seq<Version>, from: nat, later: nat, phase: Option<Lifecycle>)
    requires from <= later && WasSeen(history, later, phase)
    ensures WasSeen(history, from, phase)
  {
  }

  class Server {
    const store: NodeStore

    constructor (store: NodeStore)
      ensures this.store == store
    {
      this.store := store;
    }

    /** One admission: checks on a first view, then the guarded write. Success is one write on
        a node that was re-requestable at that moment; every refusal wrote nothing. */
    method Admit(force: bool, windowsConfigured: bool, podRunning: bool, now: int, id: string, requester: string) returns (r: Admission)
      requires store.Valid()
      modifies store
      ensures store.Continues()
      ensures r.Admitted? ==> WroteOnce(store.history, |old(store.history)|, AdmitBuild(now, id, requester, force))
      ensures !r.Admitted? && !r.Unreachable? ==> OnlyOthers(store.history, |old(store.history)|)
      ensures r.NoWindows? <==> !force && !windowsConfigured
      ensures old(store.script) == [] && (force || windowsConfigured) ==>
                var n := old(store.node);
                && r == (if !n.ready then NotReady else if !podRunning then NoPod
                         else if ReRequestable(n) then Admitted else NotReRequestable)
                && (r.Admitted? ==> store.node == Apply(n, AdmissionPatch(now, id, requester, force)))
                && (!r.Admitted? ==> store.history == old(store.history))
    {
      if !force && !windowsConfigured {
        return NoWindows;
      }
      var read := store.GetNode();
      if read.ReadError? {
        return Unreachable;
      }
      if !read.node.ready {
        return NotReady;
      }
      if !podRunning {
        return NoPod;
      }
      if !ReRequestable(read.node) {
        return NotReRequestable;
      }
      ghost var seen := store.history;
      var result := store.PatchTransition(3, AdmitBuild(now, id, requester, force));
      assert store.history[..|seen|] == seen;
      Widen(store.history, |old(store.history)|, |seen|, AdmitBuild(now, id, requester, force));
      r := match result
        case Applied => Admitted
        case Aborted => Changed
        case StillConflicting => Changed
        case CallFailed => Unreachable;
    }

    /** One round of the delete loop; None: a conflict, go round again. */
    method DeleteOnce() returns (r: Option<Deletion>)
      requires store.Valid()
      modifies store
      ensures store.Continues()
      ensures r == Some(Deleted) ==> WroteOnce(store.history, |old(store.history)|, DeleteBuild())
      ensures r in {None, Some(NoState), Some(DrainRuns)} ==> OnlyOthers(store.history, |old(store.history)|)
      ensures r == Some(NoState) ==> WasSeen(store.history, |old(store.history)|, None)
      ensures r == Some(DrainRuns) ==> WasSeen(store.history, |old(store.history)|, Some(Draining))
      ensures r == Some(ServerUnreachable) ==>
                OnlyOthers(store.history, |old(store.history)|) || WroteOnce(store.history, |old(store.history)|, DeleteBuild())
      ensures r != Some(StillChanging)
      ensures old(store.script) == [] ==>
                var n := old(store.node);
                && r == Some(if n.state.Absent? then NoState else if InPhase(n, Draining) then DrainRuns else Deleted)
                && (r == Some(Deleted) ==> store.node == Apply(n, DeleteBuild()(n).value))
                && (r != Some(Deleted) ==> store.history == old(store.history))
    {
      var read := store.GetNode();
      if read.ReadError? {
        return Some(ServerUnreachable);
      }
      ghost var seen := store.history;
      assert seen[|seen| - 1].node == read.node && OnlyOthers(seen, |old(store.history)|);
      if read.node.state.Absent? {
        return Some(NoState);
      }
      if InPhase(read.node, Draining) {
        return Some(DrainRuns);
      }
      r := ClearIfSame(read.node, read.resourceVersion);
    }

    /** The write of a round, built from the node just read. */
    method ClearIfSame(node: Node, version: nat) returns (r: Option<Deletion>)
      requires store.Valid() && node == store.node && version == store.resourceVersion && DeleteBuild()(node).Some?
      modifies store
      ensures store.Continues() && r in {None, Some(Deleted), Some(ServerUnreachable)}
      ensures r == Some(Deleted) ==> WroteOnce(store.history, |old(store.history)|, DeleteBuild())
      ensures r.None? ==> OnlyOthers(store.history, |old(store.history)|)
      ensures r == Some(ServerUnreachable) ==>
                OnlyOthers(store.history, |old(store.history)|) || WroteOnce(store.history, |old(store.history)|, DeleteBuild())
      ensures old(store.script) == [] ==> r == Some(Deleted) && store.node == Apply(node, DeleteBuild()(node).value)
    {
      ghost var seen := store.history;
      var patch := DeleteBuild()(node);
      var reply; ghost var arrived;
      reply, arrived := store.PatchNode(version, patch.value);
      if arrived {
        assert GuardedWrite(store.history, |store.history| - 1, DeleteBuild()) by {
          assert store.history[version] == seen[version];
        }
      }
      r := match reply case PatchOk => Some(Deleted) case PatchConflict => None case PatchError => Some(ServerUnreachable);
    }

    /** `deleteReboot`: the state is judged afresh in every round, so a drain that began in
        between is not interrupted and an uncordon is decided on the very node it is written to. */
    method DeleteReboot() returns (r: Deletion)
      requires store.Valid()
      modifies store
      ensures store.Continues()
      ensures r.Deleted? ==> WroteOnce(store.history, |old(store.history)|, DeleteBuild())
      ensures r.NoState? ==> OnlyOthers(store.history, |old(store.history)|) && WasSeen(store.history, |old(store.history)|, None)
      ensures r.DrainRuns? ==> OnlyOthers(store.history, |old(store.history)|) && WasSeen(store.history, |old(store.history)|, Some(Draining))
      ensures r.StillChanging? ==> OnlyOthers(store.history, |old(store.history)|)
      ensures r.ServerUnreachable? ==>
                OnlyOthers(store.history, |old(store.history)|) || WroteOnce(store.history, |old(store.history)|, DeleteBuild())
      ensures old(store.script) == [] ==>
                var n := old(store.node);
                && r == (if n.state.Absent? then NoState else if InPhase(n, Draining) then DrainRuns else Deleted)
                && (r.Deleted? ==> store.node == Apply(n, DeleteBuild()(n).value))
    {
      var attempt := 0;
      while attempt < 3
        invariant 0 <= attempt <= 3 && store.Continues() && OnlyOthers(store.history, |old(store.history)|)
        invariant old(store.script) == [] ==> attempt == 0 && store.history == old(store.history)
      {
        ghost var from := |store.history|;
        var once := DeleteOnce();
        if once.Some? {
          Widen(store.history, |old(store.history)|, from, DeleteBuild());
          if once.value.NoState? { SeenEarlier(store.history, |old(store.history)|, from, None); }
          if once.value.DrainRuns? { SeenEarlier(store.history, |old(store.history)|, from, Some(Draining)); }
          return once.value;
        }
        attempt := attempt + 1;
      }
      r := StillChanging;
    }
  }
}
