/** Leader election over one coordination lease (internal/engine/lease.go).

    `Leaser` is the object each pod keeps. The second half of the module puts any
    number of pods around one lease and lets every request and every reply of a
    `Sync` be a step of its own, then proves that no two pods are leaders at once. */
module Lease {
  import opened Wrappers

  /** Clock readings and durations are whole microseconds, the precision of `renewTime`. */
  const RENEW_INTERVAL := 10_000_000
  const STALE_AFTER := 30_000_000

  /** "<pod-name>/<pod-uid>" */
  type Identity = string

  datatype LeaseObject = LeaseObject(holder: Identity, renewTime: Option<int>, version: nat)

  datatype LeaseState = LeaseLeader | LeaseNotLeader | LeaseNoValidLeader

  /** What a pod remembers between two calls. A `lastRenewed` of `None` is the zero time. */
  datatype Memory = Memory(lastRenewed: Option<int>, amLeader: bool)

  datatype ReadReply = Found(lease: LeaseObject) | NotFound | ReadFailed

  datatype WriteReply = Written | Conflict | WriteFailed

  /** `Create` needs the lease to be absent; the other two carry the version that was read. */
  datatype Request =
    | Create(holder: Identity, renewTime: int)
    | Renew(holder: Identity, renewTime: int, version: nat)
    | TakeOver(holder: Identity, renewTime: int, version: nat)

  /** How a step of `Sync` goes on: it returns, or it has a request to send. */
  datatype Progress = Return(memory: Memory, state: LeaseState) | Send(request: Request)

  predicate FreshHolder(lease: LeaseObject, now: int) {
    lease.renewTime.Some? && now - lease.renewTime.value <= STALE_AFTER
  }

  predicate WithinDeadline(memory: Memory, now: int) {
    memory.lastRenewed.Some? && now - memory.lastRenewed.value <= STALE_AFTER
  }

  predicate RenewedRecently(memory: Memory, now: int) {
    memory.lastRenewed.Some? && now - memory.lastRenewed.value < RENEW_INTERVAL
  }

  predicate BelievesLeader(memory: Memory, now: int) {
    memory.amLeader && WithinDeadline(memory, now)
  }

  function Belief(memory: Memory, now: int): LeaseState {
    if BelievesLeader(memory, now) then LeaseLeader else LeaseNoValidLeader
  }

  function AfterRead(me: Identity, memory: Memory, now: int, reply: ReadReply): Progress {
    match reply
    case ReadFailed => Return(memory, Belief(memory, now))
    case NotFound => Send(Create(me, now))
    case Found(lease) =>
      if lease.holder == me then
        if RenewedRecently(memory, now) then
          var m := memory.(amLeader := true);
          Return(m, Belief(m, now))
        else
          Send(Renew(me, now, lease.version))
      else if FreshHolder(lease, now) then
        Return(memory.(amLeader := false), LeaseNotLeader)
      else
        Send(TakeOver(me, now, lease.version))
  }

  /** `None` is a conflict: the lease is read once more. */
  function AfterWrite(memory: Memory, now: int, request: Request, reply: WriteReply): Option<(Memory, LeaseState)> {
    match reply
    case Written => Some((Memory(Some(now), true), LeaseLeader))
    case Conflict => None
    case WriteFailed =>
      match request
      case Renew(_, _, _) => Some((memory, Belief(memory, now)))
      case TakeOver(_, _, _) => Some((memory, LeaseNoValidLeader))
      case Create(_, _) => Some((memory.(amLeader := false), LeaseNoValidLeader))
  }

  function AfterReread(me: Identity, memory: Memory, now: int, reply: ReadReply): (Memory, LeaseState) {
    match reply
    case Found(lease) =>
      if lease.holder == me && FreshHolder(lease, now) then (Memory(Some(now), true), LeaseLeader)
      else if FreshHolder(lease, now) then (memory.(amLeader := false), LeaseNotLeader)
      else (memory.(amLeader := false), LeaseNoValidLeader)
    case NotFound => (memory.(amLeader := false), LeaseNoValidLeader)
    case ReadFailed => (memory.(amLeader := false), LeaseNoValidLeader)
  }

  /** A whole `Sync` for given replies: the three parts in sequence. */
  function SyncSpec(me: Identity, memory: Memory, now: int, read: ReadReply, write: WriteReply, reread: ReadReply)
    : (Memory, LeaseState)
  {
    match AfterRead(me, memory, now, read)
    case Return(m, s) => (m, s)
    case Send(request) =>
      match AfterWrite(memory, now, request, write)
      case Some(result) => result
      case None => AfterReread(me, memory, now, reread)
  }

  class Leaser {
    const identity: Identity
    var lastRenewed: Option<int>
    var amLeader: bool

    constructor (identity: Identity)
      ensures this.identity == identity && Remembered() == Memory(None, false)
    {
      this.identity := identity;
      lastRenewed, amLeader := None, false;
    }

    ghost function Remembered(): Memory
      reads this
    {
      Memory(lastRenewed, amLeader)
    }

    /** One sync against the API server, which answers `read`, then `write`, then `reread`
        as far as they are asked for. `sent` is the write that went out, if any. */
    method Sync(now: int, read: ReadReply, write: WriteReply, reread: ReadReply)
      returns (state: LeaseState, sent: Option<Request>)
      modifies this
      ensures (Remembered(), state) == SyncSpec(identity, old(Remembered()), now, read, write, reread)
      ensures AfterRead(identity, old(Remembered()), now, read)
           == (if sent.Some? then Send(sent.value) else Return(Remembered(), state))
      ensures read.ReadFailed? ==> sent.None? && Remembered() == old(Remembered())
      ensures sent.Some? && write.Written? ==> Remembered() == Memory(Some(now), true) && state == LeaseLeader
      ensures sent.Some? && write.WriteFailed? ==> Remembered() == Memory(old(lastRenewed), old(amLeader) && !sent.value.Create?)
      ensures read.ReadFailed? || (sent.Some? && sent.value.Renew? && write.WriteFailed?) ==>
                state == if old(amLeader) && old(lastRenewed).Some? && now - old(lastRenewed).value <= 30_000_000
                         then LeaseLeader else LeaseNoValidLeader
      ensures sent.Some? && !sent.value.Renew? && write.WriteFailed? ==> state == LeaseNoValidLeader
      ensures sent.Some? && write.Conflict? ==> Reclassified(now, reread, old(lastRenewed), state)
    {
      sent := None;
      if read.ReadFailed? {
        state := LocalBelief(now);
        return;
      }
      if read.Found? && read.lease.holder == identity {
        if lastRenewed.Some? && now - lastRenewed.value < RENEW_INTERVAL {
          amLeader := true;
          state := LocalBelief(now);
          return;
        }
        sent := Some(Renew(identity, now, read.lease.version));
        match write {
          case Written =>
            lastRenewed, amLeader, state := Some(now), true, LeaseLeader;
          case WriteFailed =>
            state := LocalBelief(now);
          case Conflict =>
            state := Classify(now, reread);
        }
        return;
      }
      if read.Found? {
        if FreshHolder(read.lease, now) {
          amLeader, state := false, LeaseNotLeader;
          return;
        }
        sent := Some(TakeOver(identity, now, read.lease.version));
        match write {
          case Written =>
            lastRenewed, amLeader, state := Some(now), true, LeaseLeader;
          case WriteFailed =>
            state := LeaseNoValidLeader;
          case Conflict =>
            state := Classify(now, reread);
        }
        return;
      }
      sent := Some(Create(identity, now));
      match write {
        case Written =>
          lastRenewed, amLeader, state := Some(now), true, LeaseLeader;
        case WriteFailed =>
          amLeader, state := false, LeaseNoValidLeader;
        case Conflict =>
          state := Classify(now, reread);
      }
    }

    /** After a conflict the lease as it is now decides: one's own and fresh is leadership,
        another's and fresh is not, and anything else is nobody's. */
    ghost predicate Reclassified(now: int, reread: ReadReply, before: Option<int>, state: LeaseState)
      reads this
    {
      var recent := reread.Found? && reread.lease.renewTime.Some? && now - reread.lease.renewTime.value <= 30_000_000;
      && (state == LeaseLeader <==> recent && reread.lease.holder == identity)
      && (state == LeaseNotLeader <==> recent && reread.lease.holder != identity)
      && amLeader == state.LeaseLeader? && lastRenewed == if state.LeaseLeader? then Some(now) else before
    }

    method Classify(now: int, reread: ReadReply) returns (state: LeaseState)
      modifies this
      ensures Reclassified(now, reread, old(lastRenewed), state)
      ensures (Remembered(), state) == AfterReread(identity, old(Remembered()), now, reread)
    {
      if !reread.Found? {
        amLeader, state := false, LeaseNoValidLeader;
      } else if reread.lease.holder == identity && FreshHolder(reread.lease, now) {
        amLeader, lastRenewed, state := true, Some(now), LeaseLeader;
      } else if reread.lease.holder != identity && FreshHolder(reread.lease, now) {
        amLeader, state := false, LeaseNotLeader;
      } else {
        amLeader, state := false, LeaseNoValidLeader;
      }
    }

    method LocalBelief(now: int) returns (state: LeaseState)
      ensures state == Belief(Remembered(), now)
    {
      if amLeader && lastRenewed.Some? && now - lastRenewed.value <= STALE_AFTER {
        state := LeaseLeader;
      } else {
        state := LeaseNoValidLeader;
      }
    }

    /** `Leader` and `CanDecide`. */
    method Leader(now: int) returns (leads: bool)
      ensures leads == BelievesLeader(Remembered(), now)
      ensures leads <==> amLeader && lastRenewed.Some? && now - lastRenewed.value <= 30_000_000
    {
      leads := amLeader && lastRenewed.Some? && now - lastRenewed.value <= STALE_AFTER;
    }
  }

  /* ---- Many pods, one lease ---------------------------------------------------------- */

  /** Where a pod is inside `Sync`. `now` is the clock it sampled on entry. Replies travel:
      the server acts in one step and the pod learns of it in a later one. */
  datatype Phase =
    | Idle
    | Reading(now: int)
    | HasRead(now: int, readReply: ReadReply)
    | Writing(now: int, request: Request)
    | HasWritten(now: int, request: Request, writeReply: WriteReply)
    | Rereading(now: int)
    | HasReread(now: int, readReply: ReadReply)

  datatype Pod = Pod(memory: Memory, phase: Phase)

  datatype World = World(clock: int, lease: Option<LeaseObject>, versions: nat, pods: map<Identity, Pod>)

  /** What happens to one attempt of a write. A 5xx answer is `Unknown`, with or without
      the server having applied the write, and the client may then try again. */
  datatype Fate = Answered | LostAnswer | NeverArrived

  datatype Step =
    | Tick(to: int)
    | Start(pod: Identity)
    | Stop(pod: Identity)
    | Begin(pod: Identity)
    | ServeRead(pod: Identity, fails: bool)
    | UseRead(pod: Identity)
    | ServeWrite(pod: Identity, fate: Fate, retry: bool)
    | UseWrite(pod: Identity)

  predicate Init(w: World) {
    && w.pods == map[]
    && (w.lease.Some? ==> w.lease.value.version <= w.versions)
  }

  predicate Accepts(lease: Option<LeaseObject>, request: Request) {
    match request
    case Create(_, _) => lease.None?
    case Renew(_, _, v) => lease.Some? && lease.value.version == v
    case TakeOver(_, _, v) => lease.Some? && lease.value.version == v
  }

  function ReadAnswer(w: World, fails: bool): ReadReply {
    if fails then ReadFailed else if w.lease.Some? then Found(w.lease.value) else NotFound
  }

  /** The server's side of a write that arrives. */
  function Store(w: World, request: Request): World {
    if Accepts(w.lease, request) then
      w.(lease := Some(LeaseObject(request.holder, Some(request.renewTime), w.versions + 1)),
      versions := w.versions + 1)
    else w
  }

  function WithPod(w: World, p: Identity, pod: Pod): World {
    w.(pods := w.pods[p := pod])
  }

  ghost predicate Next(w: World, step: Step, w': World) {
    match step
    case Tick(to) => w.clock <= to && w' == w.(clock := to)
    case Start(p) => w' == WithPod(w, p, Pod(Memory(None, false), Idle))
    case Stop(p) => w' == w.(pods := w.pods - {p})
    case Begin(p) =>
      && p in w.pods && w.pods[p].phase.Idle?
      && w' == WithPod(w, p, w.pods[p].(phase := Reading(w.clock)))
    case ServeRead(p, fails) =>
      && p in w.pods
      && var pod := w.pods[p];
         (match pod.phase
          case Reading(now) => w' == WithPod(w, p, pod.(phase := HasRead(now, ReadAnswer(w, fails))))
          case Rereading(now) => w' == WithPod(w, p, pod.(phase := HasReread(now, ReadAnswer(w, fails))))
          case _ => false)
    case UseRead(p) =>
      && p in w.pods
      && var pod := w.pods[p];
         (match pod.phase
          case HasRead(now, reply) =>
            (match AfterRead(p, pod.memory, now, reply)
             case Return(m, _) => w' == WithPod(w, p, Pod(m, Idle))
             case Send(request) => w' == WithPod(w, p, pod.(phase := Writing(now, request))))
          case HasReread(now, reply) =>
            w' == WithPod(w, p, Pod(AfterReread(p, pod.memory, now, reply).0, Idle))
          case _ => false)
    case ServeWrite(p, fate, retry) =>
      && p in w.pods && w.pods[p].phase.Writing?
      && var pod := w.pods[p];
         var stored := if fate.NeverArrived? then w else Store(w, pod.phase.request);
         var reply := if !fate.Answered? then WriteFailed
                      else if Accepts(w.lease, pod.phase.request) then Written else Conflict;
         w' == if reply.WriteFailed? && retry then stored
               else WithPod(stored, p, pod.(phase := HasWritten(pod.phase.now, pod.phase.request, reply)))
    case UseWrite(p) =>
      && p in w.pods && w.pods[p].phase.HasWritten?
      && var pod := w.pods[p];
         var now := pod.phase.now;
         (match AfterWrite(pod.memory, now, pod.phase.request, pod.phase.writeReply)
          case Some(result) => w' == WithPod(w, p, Pod(result.0, Idle))
          case None => w' == WithPod(w, p, pod.(phase := Rereading(now))))
  }

  ghost predicate Run(worlds: seq<World>, steps: seq<Step>) {
    && |worlds| == |steps| + 1
    && Init(worlds[0])
    && forall i :: 0 <= i < |steps| ==> Next(worlds[i], steps[i], worlds[i + 1])
  }

  predicate IsLeader(w: World, p: Identity) {
    p in w.pods && BelievesLeader(w.pods[p].memory, w.clock)
  }

  /** The key invariant: until 30 s after `t` the lease is `p`'s and was renewed at `t` or later. */
  predicate HeldSince(w: World, p: Identity, t: int) {
    && t <= w.clock
    && (w.clock <= t + STALE_AFTER ==>
          && w.lease.Some? && w.lease.value.holder == p
          && w.lease.value.renewTime.Some? && t <= w.lease.value.renewTime.value)
  }

  /** A lease held by `p` although `p` read something else can only be what this very
      `Sync` wrote: an earlier attempt whose answer was lost. */
  predicate MineOnlyFromNow(w: World, p: Identity, now: int) {
    w.lease.Some? && w.lease.value.holder == p ==> w.lease.value.renewTime == Some(now)
  }

  predicate ReadIsCurrentOrForeign(w: World, p: Identity, read: LeaseObject) {
    && read.version <= w.versions
    && w.lease.Some?
    && (w.lease.value.version == read.version ==> w.lease.value == read)
    && (w.lease.value.version != read.version ==> w.lease.value.holder != p)
  }

  predicate PhaseInv(w: World, p: Identity, phase: Phase) {
    match phase
    case Idle => true
    case Reading(now) => true
    case HasRead(now, reply) =>
      (match reply
       case Found(lease) => ReadIsCurrentOrForeign(w, p, lease)
       case NotFound => w.lease.Some? ==> w.lease.value.holder != p
       case ReadFailed => true)
    case Writing(now, request) =>
      && request.holder == p && request.renewTime == now
      && (match request
          case Create(_, _) => MineOnlyFromNow(w, p, now)
          case Renew(_, _, v) =>
            && v <= w.versions && w.lease.Some?
            && (if w.lease.value.version == v then w.lease.value.holder == p else MineOnlyFromNow(w, p, now))
          case TakeOver(_, _, v) =>
            && v <= w.versions && w.lease.Some?
            && (if w.lease.value.version == v
                then w.lease.value.holder != p && !FreshHolder(w.lease.value, now)
                else MineOnlyFromNow(w, p, now)))
    case HasWritten(now, _, reply) =>
      (match reply
       case Written => HeldSince(w, p, now)
       case Conflict => MineOnlyFromNow(w, p, now)
       case WriteFailed => true)
    case Rereading(now) => MineOnlyFromNow(w, p, now)
    case HasReread(now, reply) => reply.Found? && reply.lease.holder == p ==> HeldSince(w, p, now)
  }

  predicate PodInv(w: World, p: Identity, pod: Pod) {
    && (pod.memory.lastRenewed.Some? ==> HeldSince(w, p, pod.memory.lastRenewed.value))
    && (!pod.phase.Idle? ==>
          && pod.phase.now <= w.clock
          && (pod.memory.lastRenewed.Some? ==> pod.memory.lastRenewed.value <= pod.phase.now))
    && PhaseInv(w, p, pod.phase)
  }

  predicate Inv(w: World) {
    && (w.lease.Some? ==> w.lease.value.version <= w.versions)
    && forall p :: p in w.pods ==> PodInv(w, p, w.pods[p])
  }

  /** Another pod's accepted write cannot disturb what `p` counts on. */
  lemma StoreKeepsOthers(w: World, q: Identity, p: Identity)
    requires Inv(w) && q in w.pods && p in w.pods && p != q && w.pods[q].phase.Writing?
    ensures PodInv(Store(w, w.pods[q].phase.request), p, w.pods[p])
  {
    assert PodInv(w, q, w.pods[q]) && PodInv(w, p, w.pods[p]);
  }

  lemma StoreKeepsSelf(w: World, p: Identity)
    requires Inv(w) && p in w.pods && w.pods[p].phase.Writing?
    ensures PodInv(Store(w, w.pods[p].phase.request), p, w.pods[p])
    ensures Accepts(w.lease, w.pods[p].phase.request) ==>
              HeldSince(Store(w, w.pods[p].phase.request), p, w.pods[p].phase.now)
    ensures !Accepts(w.lease, w.pods[p].phase.request) ==> MineOnlyFromNow(w, p, w.pods[p].phase.now)
  {
    assert PodInv(w, p, w.pods[p]);
  }

  /** Only `q`'s own entry changed. */
  lemma OnePodChanged(w: World, q: Identity, pod: Pod)
    requires Inv(w) && PodInv(w, q, pod)
    ensures Inv(WithPod(w, q, pod))
  {
    var w' := WithPod(w, q, pod);
    forall p | p in w'.pods
      ensures PodInv(w', p, w'.pods[p])
    {
      assert PodInv(w, p, w'.pods[p]);
    }
  }

  lemma UseReadKeepsInv(w: World, q: Identity, w': World)
    requires Inv(w) && Next(w, UseRead(q), w')
    ensures Inv(w')
  {
    var pod := w.pods[q];
    assert PodInv(w, q, pod);
    match pod.phase
    case HasRead(now, reply) =>
      match AfterRead(q, pod.memory, now, reply) {
        case Return(m, _) => OnePodChanged(w, q, Pod(m, Idle));
        case Send(request) => OnePodChanged(w, q, pod.(phase := Writing(now, request)));
      }
    case HasReread(now, reply) =>
      OnePodChanged(w, q, Pod(AfterReread(q, pod.memory, now, reply).0, Idle));
  }

  lemma UseWriteKeepsInv(w: World, q: Identity, w': World)
    requires Inv(w) && Next(w, UseWrite(q), w')
    ensures Inv(w')
  {
    var pod := w.pods[q];
    assert PodInv(w, q, pod);
    match AfterWrite(pod.memory, pod.phase.now, pod.phase.request, pod.phase.writeReply)
    case Some(result) => OnePodChanged(w, q, Pod(result.0, Idle));
    case None => OnePodChanged(w, q, pod.(phase := Rereading(pod.phase.now)));
  }

  lemma ServeReadKeepsInv(w: World, q: Identity, fails: bool, w': World)
    requires Inv(w) && Next(w, ServeRead(q, fails), w')
    ensures Inv(w')
  {
    var pod := w.pods[q];
    assert PodInv(w, q, pod);
    OnePodChanged(w, q, w'.pods[q]);
  }

  lemma ServeWriteKeepsInv(w: World, q: Identity, fate: Fate, retry: bool, w': World)
    requires Inv(w) && Next(w, ServeWrite(q, fate, retry), w')
    ensures Inv(w')
  {
    var stored := if fate.NeverArrived? then w else Store(w, w.pods[q].phase.request);
    assert PodInv(w, q, w.pods[q]);
    StoreKeepsSelf(w, q);
    forall p | p in stored.pods
      ensures PodInv(stored, p, stored.pods[p])
    {
      assert PodInv(w, p, w.pods[p]);
      if p != q { StoreKeepsOthers(w, q, p); }
    }
    if w' != stored {
      OnePodChanged(stored, q, w'.pods[q]);
    }
  }

  lemma NextKeepsInv(w: World, step: Step, w': World)
    requires Inv(w) && Next(w, step, w')
    ensures Inv(w')
  {
    match step
    case ServeWrite(q, fate, retry) => ServeWriteKeepsInv(w, q, fate, retry, w');
    case ServeRead(q, fails) => ServeReadKeepsInv(w, q, fails, w');
    case UseRead(q) => UseReadKeepsInv(w, q, w');
    case UseWrite(q) => UseWriteKeepsInv(w, q, w');
    case Start(q) => OnePodChanged(w, q, Pod(Memory(None, false), Idle));
    case Begin(q) =>
      assert PodInv(w, q, w.pods[q]);
      OnePodChanged(w, q, w'.pods[q]);
    case Stop(_) =>
      forall p | p in w'.pods
        ensures PodInv(w', p, w'.pods[p])
      {
        assert PodInv(w, p, w.pods[p]);
      }
    case Tick(_) =>
      forall p | p in w'.pods
        ensures PodInv(w', p, w'.pods[p])
      {
        assert PodInv(w, p, w.pods[p]);
      }
  }

  lemma {:induction false} RunKeepsInv(worlds: seq<World>, steps: seq<Step>, i: nat)
    requires Run(worlds, steps) && i < |worlds|
    ensures Inv(worlds[i])
  {
    if i > 0 {
      RunKeepsInv(worlds, steps, i - 1);
      NextKeepsInv(worlds[i - 1], steps[i - 1], worlds[i]);
    }
  }

  /** At every instant of every run at most one pod is leader. */
  lemma AtMostOneLeader(worlds: seq<World>, steps: seq<Step>, i: nat, p: Identity, q: Identity)
    requires Run(worlds, steps) && i < |worlds|
    requires IsLeader(worlds[i], p) && IsLeader(worlds[i], q)
    ensures p == q
  {
    RunKeepsInv(worlds, steps, i);
    assert PodInv(worlds[i], p, worlds[i].pods[p]) && PodInv(worlds[i], q, worlds[i].pods[q]);
  }

  /** Leadership is not lost for good: when the lease is absent, or stale in another's name,
      one undisturbed `Sync` makes the pod leader and touches no other pod. */
  lemma UndisturbedSyncLeads(w: World, p: Identity) returns (worlds: seq<World>, steps: seq<Step>)
    requires p in w.pods && w.pods[p].phase.Idle?
    requires w.lease.Some? ==> w.lease.value.holder != p && !FreshHolder(w.lease.value, w.clock)
    ensures |worlds| == 6 && |steps| == 5 && worlds[0] == w
    ensures forall i :: 0 <= i < 5 ==> Next(worlds[i], steps[i], worlds[i + 1])
    ensures IsLeader(worlds[5], p) && worlds[5].clock == w.clock
    ensures worlds[5].pods - {p} == w.pods - {p}
  {
    var pod := w.pods[p];
    var now := w.clock;
    var read := ReadAnswer(w, false);
    var request := AfterRead(p, pod.memory, now, read).request;
    var w1 := WithPod(w, p, pod.(phase := Reading(now)));
    var w2 := WithPod(w1, p, pod.(phase := HasRead(now, read)));
    var w3 := WithPod(w2, p, pod.(phase := Writing(now, request)));
    var w4 := WithPod(Store(w3, request), p, pod.(phase := HasWritten(now, request, Written)));
    var w5 := WithPod(w4, p, Pod(Memory(Some(now), true), Idle));
    worlds := [w, w1, w2, w3, w4, w5];
    steps := [Begin(p), ServeRead(p, false), UseRead(p), ServeWrite(p, Answered, false), UseWrite(p)];
    assert Next(w, Begin(p), w1) && Next(w1, ServeRead(p, false), w2);
    assert Next(w2, UseRead(p), w3);
    assert Next(w3, ServeWrite(p, Answered, false), w4);
    assert Next(w4, UseWrite(p), w5);
  }

  /* ---- What one undisturbed sync does ---------------------------------------------------- */

  /** A step of `p` itself in which nothing fails. */
  predicate Smooth(step: Step, p: Identity) {
    step in {Begin(p), ServeRead(p, false), UseRead(p), ServeWrite(p, Answered, false), UseWrite(p)}
  }

  /** One whole `Sync` of `p`, with nobody else acting and nothing failing. */
  ghost predicate UndisturbedSync(worlds: seq<World>, steps: seq<Step>, p: Identity) {
    && |worlds| == |steps| + 1 && |steps| > 0
    && (forall i :: 0 <= i < |steps| ==> Smooth(steps[i], p) && Next(worlds[i], steps[i], worlds[i + 1]))
    && p in worlds[0].pods && worlds[0].pods[p].phase.Idle?
    && p in worlds[|steps|].pods && worlds[|steps|].pods[p].phase.Idle?
    && (forall i :: 0 < i < |steps| ==> p in worlds[i].pods && !worlds[i].pods[p].phase.Idle?)
  }

  predicate OwnLease(w: World, p: Identity) {
    w.lease.Some? && w.lease.value.holder == p
  }

  /** Renewed less than 30 s ago, in another's name. */
  predicate FreshInAnothersName(w: World, p: Identity) {
    && w.lease.Some? && w.lease.value.holder != p
    && w.lease.value.renewTime.Some? && w.clock - w.lease.value.renewTime.value <= 30_000_000
  }

  /** This pod's own last renewal is less than 10 s old. */
  predicate JustRenewed(w: World, p: Identity) {
    p in w.pods && w.pods[p].memory.lastRenewed.Some? && w.clock - w.pods[p].memory.lastRenewed.value < 10_000_000
  }

  /** What the sync leaves: the lease of another pod that is fresh stays that pod's; one's own,
      renewed just now, stays as it is, and the pod goes on leading; in every other case the
      lease becomes one's own, renewed at the moment the sync began. */
  predicate SyncOutcome(w: World, w': World, p: Identity)
    requires p in w.pods && p in w'.pods
  {
    && w'.clock == w.clock && w'.pods - {p} == w.pods - {p}
    && if FreshInAnothersName(w, p) then
         w'.lease == w.lease && w'.pods[p].memory == Memory(w.pods[p].memory.lastRenewed, false)
       else if OwnLease(w, p) && JustRenewed(w, p) then
         w'.lease == w.lease && w'.pods[p].memory == Memory(w.pods[p].memory.lastRenewed, true)
       else
         && w'.lease.Some? && w'.lease.value.holder == p && w'.lease.value.renewTime == Some(w.clock)
         && w'.pods[p].memory == Memory(Some(w.clock), true)
  }

  /** The two shapes of an undisturbed sync: without a write, or with one. */
  lemma SyncShape(worlds: seq<World>, steps: seq<Step>, p: Identity)
    requires UndisturbedSync(worlds, steps, p)
    ensures |steps| >= 3 && steps[0] == Begin(p) && steps[1] == ServeRead(p, false) && steps[2] == UseRead(p)
    ensures |steps| == 3 || (|steps| == 5 && steps[3] == ServeWrite(p, Answered, false) && steps[4] == UseWrite(p))
  {
    var w := worlds[0];
    assert Next(worlds[0], steps[0], worlds[1]);
    assert worlds[1].pods[p].phase == Reading(w.clock);
    assert Next(worlds[1], steps[1], worlds[2]);
    assert worlds[2].pods[p].phase == HasRead(w.clock, ReadAnswer(w, false));
    assert Next(worlds[2], steps[2], worlds[3]);
    if |steps| > 3 {
      assert Next(worlds[3], steps[3], worlds[4]);
      var request := worlds[3].pods[p].phase.request;
      assert worlds[3].lease == w.lease && Accepts(w.lease, request);
      assert worlds[4].pods[p].phase == HasWritten(w.clock, request, Written);
      assert Next(worlds[4], steps[4], worlds[5]);
      assert worlds[5].pods[p].phase.Idle?;
    }
  }

  lemma ReadPart(w: World, w1: World, w2: World, w3: World, p: Identity)
    requires p in w.pods && w.pods[p].phase.Idle?
    requires Next(w, Begin(p), w1) && Next(w1, ServeRead(p, false), w2) && Next(w2, UseRead(p), w3)
    ensures w3.clock == w.clock && w3.lease == w.lease && w3.versions == w.versions && w3.pods - {p} == w.pods - {p} && p in w3.pods
    ensures w3.pods[p] == match AfterRead(p, w.pods[p].memory, w.clock, ReadAnswer(w, false))
                          case Return(m, _) => Pod(m, Idle)
                          case Send(request) => w.pods[p].(phase := Writing(w.clock, request))
  {
    assert w1.pods[p] == w.pods[p].(phase := Reading(w.clock));
    assert w2.pods[p] == w.pods[p].(phase := HasRead(w.clock, ReadAnswer(w, false)));
  }

  /** Every undisturbed sync has that outcome, from any world whatever. */
  lemma UndisturbedSyncMeans(worlds: seq<World>, steps: seq<Step>, p: Identity)
    requires UndisturbedSync(worlds, steps, p)
    ensures SyncOutcome(worlds[0], worlds[|steps|], p)
  {
    SyncShape(worlds, steps, p);
    var w := worlds[0];
    assert Next(worlds[0], steps[0], worlds[1]) && Next(worlds[1], steps[1], worlds[2]) && Next(worlds[2], steps[2], worlds[3]);
    ReadPart(w, worlds[1], worlds[2], worlds[3], p);
    if |steps| == 5 {
      assert Next(worlds[3], steps[3], worlds[4]) && Next(worlds[4], steps[4], worlds[5]);
    }
  }

  /* ---- A pod that syncs often enough goes on leading ------------------------------------------ */

  /** When the newest sync of `p` that is over at instant `i` began; before the first one, the
      pod's last renewal. */
  function SyncedAt(worlds: seq<World>, p: Identity, a: nat, i: nat): int
    requires a <= i < |worlds| && (forall k :: a <= k <= i ==> p in worlds[k].pods)
    requires worlds[a].pods[p].memory.lastRenewed.Some?
  {
    if i == a then worlds[a].pods[p].memory.lastRenewed.value
    else if worlds[i].pods[p].phase.Idle? && !worlds[i - 1].pods[p].phase.Idle? then worlds[i - 1].pods[p].phase.now
    else SyncedAt(worlds, p, a, i - 1)
  }

  /** From instant `a` to `b` the pod is there and none of its calls fails, and at each instant
      its newest finished sync began at most 20 s before. */
  ghost predicate Prompt(worlds: seq<World>, steps: seq<Step>, p: Identity, a: nat, b: nat) {
    && |worlds| == |steps| + 1 && a <= b < |worlds|
    && (forall k :: a <= k <= b ==> p in worlds[k].pods)
    && worlds[a].pods[p].phase.Idle? && worlds[a].pods[p].memory.lastRenewed.Some?
    && (forall k :: a <= k < b ==> Quiet(steps[k], p))
    && (forall k :: a <= k <= b ==> worlds[k].clock - SyncedAt(worlds, p, a, k) <= 20_000_000)
  }

  /** No step of `p` that fails or restarts it; others may do anything. */
  predicate Quiet(step: Step, p: Identity) {
    && step != Start(p) && step != Stop(p) && step != ServeRead(p, true)
    && (step.ServeWrite? && step.pod == p ==> step.fate.Answered?)
  }

  /** What holds of a leading pod inside a sync: it has read its own lease, and what it sends
      still fits the lease. */
  predicate Leading(w: World, p: Identity, since: int) {
    && p in w.pods && w.lease.Some?
    && var pod := w.pods[p];
       && pod.memory.amLeader && pod.memory.lastRenewed.Some? && since - pod.memory.lastRenewed.value < 10_000_000
       && match pod.phase
          case Idle => true
          case Reading(_) => true
          case HasRead(now, reply) => reply.Found? && reply.lease.holder == p && reply.lease.version == w.lease.value.version
          case Writing(now, request) => request.Renew? && request.version == w.lease.value.version
          case HasWritten(now, _, reply) => reply.Written?
          case _ => false
  }

  /** Within 30 s of its last renewal the lease is the pod's. */
  lemma LeadingHolds(w: World, p: Identity, since: int)
    requires Inv(w) && Leading(w, p, since) && w.clock - since <= 20_000_000
    ensures IsLeader(w, p) && OwnLease(w, p) && FreshHolder(w.lease.value, w.clock)
  {
    assert PodInv(w, p, w.pods[p]);
  }

  /** Nobody else's write is accepted while a pod leads. */
  lemma OthersBounceOff(w: World, p: Identity, q: Identity)
    requires Inv(w) && OwnLease(w, p) && FreshHolder(w.lease.value, w.clock) && q != p
    requires q in w.pods && w.pods[q].phase.Writing?
    ensures !Accepts(w.lease, w.pods[q].phase.request)
  {
    assert PodInv(w, q, w.pods[q]);
  }

  lemma LeadingGoesOn(w: World, step: Step, w': World, p: Identity, since: int)
    requires Inv(w) && Next(w, step, w') && Quiet(step, p) && p in w'.pods
    requires Leading(w, p, since) && w.clock - since <= 20_000_000
    ensures Leading(w', p, if w'.pods[p].phase.Idle? && !w.pods[p].phase.Idle? then w.pods[p].phase.now else since)
  {
    LeadingHolds(w, p, since);
    if step.ServeWrite? && step.pod != p {
      OthersBounceOff(w, p, step.pod);
    }
    if step.UseRead? && step.pod == p {
      assert w.pods[p].phase.HasRead?;
    }
  }

  /** A pod that leads and whose syncs do not fail goes on leading as long as each of them is
      over within 20 s of the beginning of the one before, whatever the others do. */
  lemma {:induction false} PromptPodGoesOnLeading(worlds: seq<World>, steps: seq<Step>, p: Identity, a: nat, b: nat)
    requires Run(worlds, steps) && Prompt(worlds, steps, p, a, b) && IsLeader(worlds[a], p)
    ensures Leading(worlds[b], p, SyncedAt(worlds, p, a, b)) && IsLeader(worlds[b], p) && OwnLease(worlds[b], p)
    decreases b - a
  {
    RunKeepsInv(worlds, steps, b);
    if b == a {
      assert PodInv(worlds[a], p, worlds[a].pods[p]);
    } else {
      PromptPodGoesOnLeading(worlds, steps, p, a, b - 1);
      RunKeepsInv(worlds, steps, b - 1);
      assert Next(worlds[b - 1], steps[b - 1], worlds[b]) && Quiet(steps[b - 1], p);
      LeadingGoesOn(worlds[b - 1], steps[b - 1], worlds[b], p, SyncedAt(worlds, p, a, b - 1));
    }
    LeadingHolds(worlds[b], p, SyncedAt(worlds, p, a, b));
  }

  /** The protocol needs the lease object to stay: if somebody deletes it under a leader,
      another pod's next `Sync` makes two leaders. */
  lemma DeletedLeaseMakesTwoLeaders(w: World, p: Identity, q: Identity) returns (w': World)
    requires IsLeader(w, p) && p != q && q in w.pods && w.pods[q].phase.Idle?
    ensures IsLeader(w', p) && IsLeader(w', q)
  {
    var worlds, steps := UndisturbedSyncLeads(w.(lease := None), q);
    w' := worlds[5];
    assert p in w'.pods - {q};
    assert w'.pods[p] == (w'.pods - {q})[p];
  }
}
