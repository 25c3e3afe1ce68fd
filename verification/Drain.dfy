/** One drain cycle and the back-off after a refused eviction (internal/features/reboot/drain.go).
    Times are in seconds. */
module Drain {
  import opened Wrappers

  /** A pod as the drain sees it; `key` is namespace and name. */
  datatype Pod = Pod(key: string, here: bool, evictable: bool, terminating: bool, unmanaged: bool)

  /** Refusals in a row. */
  datatype Denial = Denial(count: nat, lastAttempt: int)

  /** What the API says to an eviction: done, no such pod, refused by a budget, or an error. */
  datatype Answer = Evicted | NotFound | TooManyRequests | Error

  datatype DrainResult = Pending | Done | TimedOut | DeleteFailed(key: string)

  function Double(n: nat): nat {
    if n == 0 then 1 else 2 * Double(n - 1)
  }

  /** Five seconds, doubled with every further refusal, sixty at most. */
  function Backoff(count: nat): int {
    if count == 0 then 0 else if 5 * Double(count - 1) >= 60 then 60 else 5 * Double(count - 1)
  }

  /** Five seconds, ten, twenty, forty, and then a minute each time. */
  lemma BackoffSpelled(count: nat)
    ensures Backoff(count) == if count == 0 then 0 else if count == 1 then 5 else if count == 2 then 10
                              else if count == 3 then 20 else if count == 4 then 40 else 60
  {
    if count > 5 { DoubleGrows(4, count - 1); }
  }

  lemma {:induction false} DoubleGrows(m: nat, n: nat)
    requires m <= n
    ensures Double(m) <= Double(n)
  {
    if m < n { DoubleGrows(m, n - 1); }
  }

  /** `denyBackoff` */
  method DenyBackoff(d: Option<Denial>) returns (b: int)
    ensures b == Backoff(if d.Some? then d.value.count else 0)
  {
    if d.None? || d.value.count == 0 {
      return 0;
    }
    b := 5;
    var i := 1;
    while i < d.value.count
      invariant 1 <= i <= d.value.count && b == 5 * Double(i - 1) && b < 60
    {
      b := b * 2;
      if b >= 60 {
        DoubleGrows(i, d.value.count - 1);
        return 60;
      }
      i := i + 1;
    }
  }

  /** The pods this node still has to lose. */
  function ToEvict(pods: seq<Pod>): (r: seq<Pod>)
    ensures forall p :: p in r <==> p in pods && p.here && p.evictable
    ensures DistinctKeys(pods) ==> DistinctKeys(r)
  {
    if pods == [] then []
    else
      var rest := ToEvict(pods[1..]);
      assert DistinctKeys(pods) ==> DistinctKeys(pods[1..]);
      if pods[0].here && pods[0].evictable then [pods[0]] + rest else rest
  }

  predicate DistinctKeys(pods: seq<Pod>) {
    forall i, j :: 0 <= i < j < |pods| ==> pods[i].key != pods[j].key
  }

  function Lookup(denied: map<string, Denial>, key: string): Option<Denial> {
    if key in denied then Some(denied[key]) else None
  }

  /** Whether an eviction is tried: managed or forced, and not refused too recently. */
  predicate Tries(p: Pod, d: Option<Denial>, force: bool, now: int) {
    !p.terminating && (!p.unmanaged || force) && (d.Some? ==> now - d.value.lastAttempt >= Backoff(d.value.count))
  }

  function AfterAnswer(d: Option<Denial>, answer: Answer, now: int): Option<Denial> {
    match answer
    case TooManyRequests => Some(Denial((if d.Some? then d.value.count else 0) + 1, now))
    case Error => d
    case _ => None
  }

  /** Refusals keep their distance: the next attempt comes no sooner than the back-off. */
  ghost predicate Records(d: Denial, times: seq<int>) {
    && |times| == d.count > 0 && times[d.count - 1] == d.lastAttempt
    && forall j :: 0 < j < |times| ==> times[j] - times[j - 1] >= Backoff(j)
  }

  lemma RecordsNext(d: Denial, times: seq<int>, now: int)
    requires Records(d, times) && now - d.lastAttempt >= Backoff(d.count)
    ensures Records(Denial(d.count + 1, now), times + [now])
  {
  }

  class Drainer {
    var denied: map<string, Denial>

    /** For each key refused, the times of its refusals in a row. */
    ghost var refusals: map<string, seq<int>>

    ghost predicate Valid()
      reads this
    {
      denied.Keys == refusals.Keys && forall k :: k in denied ==> Records(denied[k], refusals[k])
    }

    constructor ()
      ensures Valid() && denied == map[]
    {
      denied, refusals := map[], map[];
    }

    method Evict(p: Pod, force: bool, now: int, answer: Answer) returns (tried: bool)
      requires Valid()
      modifies this
      ensures p.terminating || (p.unmanaged && !force) ==> !tried
      ensures !p.terminating && (!p.unmanaged || force) ==>
                (tried <==> p.key !in old(denied) || now - old(denied)[p.key].lastAttempt >= Backoff(old(denied)[p.key].count))
      ensures tried && (answer.Evicted? || answer.NotFound?) ==> denied == old(denied) - {p.key}
      ensures tried && answer.TooManyRequests? ==>
                denied == old(denied)[p.key := Denial(if p.key in old(denied) then old(denied)[p.key].count + 1 else 1, now)]
      ensures !tried || answer.Error? ==> denied == old(denied)
      ensures Valid() && tried == Tries(p, old(Lookup(denied, p.key)), force, now)
      ensures Lookup(denied, p.key) == if tried then AfterAnswer(old(Lookup(denied, p.key)), answer, now) else old(Lookup(denied, p.key))
      ensures forall k :: k != p.key ==> Lookup(denied, k) == old(Lookup(denied, k))
    {
      if p.terminating || (p.unmanaged && !force) {
        return false;
      }
      var d := Lookup(denied, p.key);
      var backoff := DenyBackoff(d);
      if d.Some? && now - d.value.lastAttempt < backoff {
        return false;
      }
      tried := true;
      if answer.TooManyRequests? {
        Refuse(p.key, d, now);
      } else if !answer.Error? {
        denied, refusals := denied - {p.key}, refusals - {p.key};
      }
    }

    method Refuse(key: string, d: Option<Denial>, now: int)
      requires Valid() && d == Lookup(denied, key)
      requires d.Some? ==> now - d.value.lastAttempt >= Backoff(d.value.count)
      modifies this
      ensures Valid()
      ensures denied == old(denied)[key := Denial((if d.Some? then d.value.count else 0) + 1, now)]
    {
      if d.Some? {
        RecordsNext(d.value, refusals[key], now);
        denied, refusals := denied[key := Denial(d.value.count + 1, now)], refusals[key := refusals[key] + [now]];
      } else {
        denied, refusals := denied[key := Denial(1, now)], refusals[key := [now]];
      }
    }

    /** `runDrain`: the time limit first; then every pod's eviction, under its own back-off;
        a forced drain also deletes what is not yet going. */
    method RunDrain(pods: seq<Pod>, force: bool, since: int, now: int, timeout: int,
                    answers: string -> Answer, deleteFails: string -> bool)
      returns (r: DrainResult)
      requires Valid() && DistinctKeys(pods)
      modifies this
      ensures Valid()
      ensures r.TimedOut? <==> now - since >= timeout
      ensures r.Done? <==> now - since < timeout && forall p :: p in pods ==> !(p.here && p.evictable)
      ensures r.DeleteFailed? ==> force && exists p :: p in pods && p.here && p.evictable && !p.terminating && p.key == r.key && deleteFails(p.key)
      ensures r.Pending? && force ==> forall p :: p in pods && p.here && p.evictable && !p.terminating ==> !deleteFails(p.key)
      ensures forall p :: p in pods && p.here && p.evictable && !r.TimedOut? ==>
                Lookup(denied, p.key) == (var d := old(Lookup(denied, p.key));
                                          if Tries(p, d, force, now) then AfterAnswer(d, answers(p.key), now) else d)
    {
      if now - since >= timeout {
        return TimedOut;
      }
      var toEvict := ToEvict(pods);
      if |toEvict| == 0 {
        forall p | p in pods
          ensures !(p.here && p.evictable)
        {
          assert p !in toEvict;
        }
        return Done;
      }
      assert toEvict[0] in pods;
      EvictAll(toEvict, force, now, answers);
      if force {
        r := DeleteAll(toEvict, deleteFails);
        if r.DeleteFailed? {
          return;
        }
      }
      r := Pending;
    }

    /** One try for each pod, in order. */
    method EvictAll(toEvict: seq<Pod>, force: bool, now: int, answers: string -> Answer)
      requires Valid() && DistinctKeys(toEvict)
      modifies this
      ensures Valid()
      ensures forall k :: 0 <= k < |toEvict| ==>
                Lookup(denied, toEvict[k].key) ==
                  (var d := old(Lookup(denied, toEvict[k].key));
                   if Tries(toEvict[k], d, force, now) then AfterAnswer(d, answers(toEvict[k].key), now) else d)
    {
      var i := 0;
      while i < |toEvict|
        invariant 0 <= i <= |toEvict| && Valid()
        invariant forall k :: 0 <= k < i ==>
                    Lookup(denied, toEvict[k].key) ==
                      (var d := old(Lookup(denied, toEvict[k].key));
                       if Tries(toEvict[k], d, force, now) then AfterAnswer(d, answers(toEvict[k].key), now) else d)
        invariant forall k :: i <= k < |toEvict| ==> Lookup(denied, toEvict[k].key) == old(Lookup(denied, toEvict[k].key))
      {
        var _ := Evict(toEvict[i], force, now, answers(toEvict[i].key));
        i := i + 1;
      }
    }

    /** The forced part: delete what is not yet going, up to the first failure. */
    method DeleteAll(toEvict: seq<Pod>, deleteFails: string -> bool) returns (r: DrainResult)
      ensures r.Pending? || r.DeleteFailed?
      ensures r.Pending? ==> forall p :: p in toEvict && !p.terminating ==> !deleteFails(p.key)
      ensures r.DeleteFailed? ==> deleteFails(r.key) && exists p :: p in toEvict && !p.terminating && p.key == r.key
    {
      var i := 0;
      while i < |toEvict|
        invariant 0 <= i <= |toEvict|
        invariant forall k :: 0 <= k < i && !toEvict[k].terminating ==> !deleteFails(toEvict[k].key)
      {
        if !toEvict[i].terminating && deleteFails(toEvict[i].key) {
          return DeleteFailed(toEvict[i].key);
        }
        i := i + 1;
      }
      r := Pending;
    }
  }
}
