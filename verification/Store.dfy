/** The node object on the API server, written under optimistic concurrency, and the retry
    loop every transition goes through (`PatchTransition`, internal/nodestate/state.go). */
module Store {
  import opened NodeState

  datatype Author = Ours | Theirs

  datatype Version = Version(node: Node, author: Author)

  /** The relation other writers keep between the node they find and the node they leave. */
  type Discipline = (Node, Node) -> bool

  datatype Fault = Healthy | Dropped | AnswerLost

  /** What happens around one of our calls: first the others write, then the call may go wrong. */
  datatype Turn = Turn(others: seq<Node -> Node>, fault: Fault)

  datatype ReadResult = NodeRead(node: Node, resourceVersion: nat) | ReadError

  datatype PatchResult = PatchOk | PatchConflict | PatchError

  datatype TransitionResult = Applied | Aborted | StillConflicting | CallFailed

  ghost predicate Extends(before: seq<Version>, after: seq<Version>) {
    |before| <= |after| && after[..|before|] == before
  }

  /** Version `k` is one of ours and was made by `build` from exactly the version before it. */
  ghost predicate GuardedWrite(history: seq<Version>, k: nat, build: Build) {
    && 0 < k < |history| && history[k].author.Ours?
    && build(history[k - 1].node).Some?
    && history[k].node == Apply(history[k - 1].node, build(history[k - 1].node).value)
  }

  ghost predicate OnlyOthers(history: seq<Version>, from: nat) {
    forall j :: from <= j < |history| ==> history[j].author.Theirs?
  }

  /** Since `from` we wrote once, atomically and under the guard. */
  ghost predicate WroteOnce(history: seq<Version>, from: nat, build: Build) {
    exists k: nat ::
      && from <= k && GuardedWrite(history, k, build)
      && forall j :: from <= j < |history| && j != k ==> history[j].author.Theirs?
  }

  /** At some moment since `from` the guard refused the stored node. */
  ghost predicate Refused(history: seq<Version>, from: nat, build: Build) {
    exists k: nat :: from <= k + 1 && k < |history| && build(history[k].node).None?
  }

  class NodeStore {
    var node: Node
    var resourceVersion: nat
    var script: seq<Turn>
    ghost var history: seq<Version>
    ghost const discipline: Discipline

    ghost predicate Valid()
      reads this
    {
      && |history| == resourceVersion + 1
      && history[resourceVersion].node == node
      && (forall k :: 0 < k < |history| && history[k].author.Theirs? ==>
            discipline(history[k - 1].node, history[k].node))
      && (forall t, e, n :: 0 <= t < |script| && 0 <= e < |script[t].others| ==>
            discipline(n, script[t].others[e](n)))
    }

    /** What each call leaves behind, whatever its outcome. */
    twostate predicate Continues()
      reads this
    {
      && Valid() && Extends(old(history), history)
      && (old(script) == [] ==> script == [])
    }

    constructor (node: Node, script: seq<Turn>, ghost discipline: Discipline)
      requires forall t, e, n :: 0 <= t < |script| && 0 <= e < |script[t].others| ==>
                 discipline(n, script[t].others[e](n))
      ensures Valid() && this.node == node && this.script == script && this.discipline == discipline
      ensures history == [Version(node, Theirs)]
    {
      this.node, this.resourceVersion, this.script := node, 0, script;
      this.discipline := discipline;
      history := [Version(node, Theirs)];
    }

    method Write(after: Node, ghost author: Author)
      requires Valid() && (author.Theirs? ==> discipline(node, after))
      modifies this`node, this`resourceVersion, this`history
      ensures Valid() && node == after && history == old(history) + [Version(after, author)]
    {
      node, resourceVersion := after, resourceVersion + 1;
      history := history + [Version(after, author)];
    }

    /** The next turn of the script: the others write before the call reaches the server. */
    method Interfere() returns (fault: Fault)
      requires Valid()
      modifies this
      ensures Continues() && OnlyOthers(history, |old(history)|)
      ensures old(script) == [] ==> fault.Healthy? && history == old(history)
    {
      if script == [] {
        return Healthy;
      }
      var turn := script[0];
      var i := 0;
      while i < |turn.others|
        invariant 0 <= i <= |turn.others|
        invariant script == old(script) && turn == script[0]
        invariant Valid() && Extends(old(history), history) && OnlyOthers(history, |old(history)|)
      {
        Write(turn.others[i](node), Theirs);
        i := i + 1;
      }
      script := script[1..];
      fault := turn.fault;
    }

    method GetNode() returns (r: ReadResult)
      requires Valid()
      modifies this
      ensures Continues() && OnlyOthers(history, |old(history)|)
      ensures r.NodeRead? ==> r.node == node && r.resourceVersion == resourceVersion
      ensures old(script) == [] ==> r.NodeRead? && history == old(history)
    {
      var fault := Interfere();
      r := if fault.Healthy? then NodeRead(node, resourceVersion) else ReadError;
    }

    /** The server compares the version in the patch with the stored one. */
    method PatchNode(version: nat, patch: Patch) returns (r: PatchResult, ghost arrived: bool)
      requires Valid() && version < |history|
      modifies this
      ensures Continues()
      ensures arrived <==> history[|old(history)|..] != [] && history[|history| - 1].author.Ours?
      ensures OnlyOthers(if arrived then history[..|history| - 1] else history, |old(history)|)
      ensures arrived ==>
                && version == |history| - 2
                && history[version + 1].node == Apply(history[version].node, patch)
      ensures r.PatchOk? ==> arrived
      ensures r.PatchConflict? ==> !arrived
      ensures old(script) == [] && version == old(resourceVersion) ==> r.PatchOk? && |history| == |old(history)| + 1
    {
      var fault := Interfere();
      arrived := false;
      if fault.Dropped? {
        return PatchError, arrived;
      }
      if version == resourceVersion {
        Write(Apply(node, patch), Ours);
        arrived := true;
        r := PatchOk;
      } else {
        r := PatchConflict;
      }
      if fault.AnswerLost? {
        r := PatchError;
      }
    }

    /** One round of the loop: read, evaluate, write under the version that was read. A
        conflict is the only reason to go round again. */
    method Attempt(build: Build) returns (r: TransitionResult)
      requires Valid()
      modifies this
      ensures Continues()
      ensures r.Applied? ==> WroteOnce(history, |old(history)|, build)
      ensures r.Aborted? ==> OnlyOthers(history, |old(history)|) && Refused(history, |old(history)|, build)
      ensures r.StillConflicting? ==> OnlyOthers(history, |old(history)|)
      ensures r.CallFailed? ==>
                OnlyOthers(history, |old(history)|) || WroteOnce(history, |old(history)|, build)
      ensures old(script) == [] ==>
                && r == (if build(old(node)).Some? then Applied else Aborted)
                && (r.Applied? ==> node == Apply(old(node), build(old(node)).value))
                && (r.Aborted? ==> history == old(history))
    {
      var read := GetNode();
      if read.ReadError? {
        return CallFailed;
      }
      ghost var seen := history;
      var patch := build(read.node);
      if patch.None? {
        assert build(seen[|seen| - 1].node).None?;
        return Aborted;
      }
      var reply; ghost var arrived;
      reply, arrived := PatchNode(read.resourceVersion, patch.value);
      if arrived {
        assert GuardedWrite(history, |history| - 1, build) by {
          assert history[read.resourceVersion] == seen[read.resourceVersion];
        }
      }
      r := match reply case PatchOk => Applied case PatchConflict => StillConflicting case PatchError => CallFailed;
    }

    /** The retry loop refines one atomic guarded step: success is exactly one write, made by
        `build` from the version it replaced; an abort or an exhausted loop wrote nothing; a
        failed call wrote nothing or that one step. */
    method PatchTransition(maxAttempts: int, build: Build) returns (r: TransitionResult)
      requires Valid()
      modifies this
      ensures Continues()
      ensures r.Applied? ==> WroteOnce(history, |old(history)|, build)
      ensures r.Aborted? ==> OnlyOthers(history, |old(history)|) && Refused(history, |old(history)|, build)
      ensures r.StillConflicting? ==> OnlyOthers(history, |old(history)|)
      ensures r.CallFailed? ==>
                OnlyOthers(history, |old(history)|) || WroteOnce(history, |old(history)|, build)
      ensures old(script) == [] ==>
                && r == (if build(old(node)).Some? then Applied else Aborted)
                && (r.Applied? ==> node == Apply(old(node), build(old(node)).value))
                && (r.Aborted? ==> history == old(history))
    {
      var limit := if maxAttempts <= 0 then 3 else maxAttempts;
      var attempt := 0;
      r := StillConflicting;
      while attempt < limit
        invariant 0 <= attempt <= limit
        invariant Continues() && OnlyOthers(history, |old(history)|)
        invariant old(script) == [] ==> attempt == 0 && history == old(history)
        invariant r.StillConflicting?
      {
        ghost var from := |history|;
        r := Attempt(build);
        if !r.StillConflicting? {
          Widen(history, |old(history)|, from, build);
          return;
        }
        attempt := attempt + 1;
      }
    }
  }

  /** Facts about the last round are facts about the whole loop. */
  lemma Widen(history: seq<Version>, from: nat, later: nat, build: Build)
    requires from <= later <= |history| && OnlyOthers(history[..later], from)
    ensures OnlyOthers(history, later) ==> OnlyOthers(history, from)
    ensures WroteOnce(history, later, build) ==> WroteOnce(history, from, build)
    ensures Refused(history, later, build) ==> Refused(history, from, build)
  {
    assert forall j :: from <= j < later ==> history[j] == history[..later][j];
    if WroteOnce(history, later, build) {
      var k: nat :| later <= k && GuardedWrite(history, k, build)
                    && forall j :: later <= j < |history| && j != k ==> history[j].author.Theirs?;
      assert from <= k && GuardedWrite(history, k, build);
    }
    if Refused(history, later, build) {
      var k: nat :| later <= k + 1 && k < |history| && build(history[k].node).None?;
      assert from <= k + 1;
    }
  }
}
