/** Retention on the boot partition (internal/updatecore/purge.go): which stored kernels to
    delete, oldest first, to reach a free-space target. */
module Purge {
  import opened Names

  datatype Kernel = Kernel(ts: string, name: string, size: nat)

  const WORD := 0x1_0000_0000_0000_0000

  /* ---- Order ----------------------------------------------------------------------------- */

  predicate Precedes(a: Kernel, b: Kernel, newestFirst: bool) {
    if newestFirst then Newer(a.ts, b.ts) else Newer(b.ts, a.ts)
  }

  predicate Ordered(s: seq<Kernel>, newestFirst: bool) {
    forall i, j :: 0 <= i < j < |s| ==> !Precedes(s[j], s[i], newestFirst)
  }

  predicate AllNumeric(s: seq<Kernel>) {
    forall i :: 0 <= i < |s| ==> VersionNumber(s[i].ts).Some?
  }

  /** What the library's sort promises: the same elements, in order when the order is one,
      that is when every version fits 64 bits. */
  predicate IsSort(s: seq<Kernel>, r: seq<Kernel>, newestFirst: bool) {
    multiset(r) == multiset(s) && (AllNumeric(s) ==> Ordered(r, newestFirst))
  }

  lemma SameElements(s: seq<Kernel>, r: seq<Kernel>)
    requires multiset(r) == multiset(s)
    ensures |r| == |s| && forall x :: x in r <==> x in s
  {
    assert |multiset(r)| == |multiset(s)|;
    forall x
      ensures x in r <==> x in s
    {
      assert x in r <==> x in multiset(r);
      assert x in s <==> x in multiset(s);
    }
  }

  method Sort(s: seq<Kernel>, newestFirst: bool) returns (r: seq<Kernel>)
    ensures IsSort(s, r, newestFirst)
  {
    r := [];
    var i := 0;
    while i < |s|
      invariant 0 <= i <= |s| && multiset(r) == multiset(s[..i])
      invariant AllNumeric(s) ==> AllNumeric(r) && Ordered(r, newestFirst)
    {
      var k := |r|;
      while k > 0 && Precedes(s[i], r[k - 1], newestFirst)
        invariant 0 <= k <= |r|
        invariant forall j :: k <= j < |r| ==> Precedes(s[i], r[j], newestFirst)
      {
        k := k - 1;
      }
      if AllNumeric(s) { InsertKeepsOrder(r, s[i], k, newestFirst); }
      InsertElements(r, s[i], k);
      assert s[..i + 1] == s[..i] + [s[i]];
      r := r[..k] + [s[i]] + r[k..];
      i := i + 1;
    }
    assert s[..i] == s;
  }

  lemma InsertElements(r: seq<Kernel>, x: Kernel, k: nat)
    requires k <= |r|
    ensures multiset(r[..k] + [x] + r[k..]) == multiset(r) + multiset{x}
  {
    assert r == r[..k] + r[k..];
  }

  lemma InsertKeepsOrder(r: seq<Kernel>, x: Kernel, k: nat, newestFirst: bool)
    requires k <= |r| && AllNumeric(r) && VersionNumber(x.ts).Some? && Ordered(r, newestFirst)
    requires forall j :: k <= j < |r| ==> Precedes(x, r[j], newestFirst)
    requires k > 0 ==> !Precedes(x, r[k - 1], newestFirst)
    ensures AllNumeric(r[..k] + [x] + r[k..]) && Ordered(r[..k] + [x] + r[k..], newestFirst)
  {
    var n := r[..k] + [x] + r[k..];
    assert forall i :: 0 <= i < k ==> n[i] == r[i];
    assert n[k] == x;
    assert forall i :: k < i < |n| ==> n[i] == r[i - 1];
    forall i | 0 <= i < k
      ensures !Precedes(x, r[i], newestFirst)
    {
      if i < k - 1 { assert !Precedes(r[k - 1], r[i], newestFirst); }
    }
  }

  /* ---- The plan -------------------------------------------------------------------------- */

  /** `targetFreeFromPercent`, in 64-bit arithmetic */
  function TargetFree(total: nat, maxPercent: int): nat {
    if maxPercent <= 0 || maxPercent >= 100 then 0 else total * (100 - maxPercent) % WORD / 100
  }

  /** The part of the partition to keep free, in whole units, for a cap between 1 and 99 percent. */
  lemma TargetFreeMeans(total: nat, maxPercent: int)
    requires total * 100 < WORD
    ensures maxPercent <= 0 || maxPercent >= 100 ==> TargetFree(total, maxPercent) == 0
    ensures 0 < maxPercent < 100 ==>
              TargetFree(total, maxPercent) * 100 <= total * (100 - maxPercent) < TargetFree(total, maxPercent) * 100 + 100
  {
    if 0 < maxPercent < 100 {
      var m := total * (100 - maxPercent);
      assert m == total * 100 - total * maxPercent && 0 <= total * maxPercent && 0 <= m;
      assert m % WORD == m;
    }
  }

  /** The versions kept for being among the first `keepNewest` of `desc`. */
  function KeepSet(desc: seq<Kernel>, protected: set<string>, keepNewest: int): set<string> {
    if desc == [] || keepNewest <= 0 then {}
    else (if desc[0].ts in protected then {} else {desc[0].ts}) + KeepSet(desc[1..], protected, keepNewest - 1)
  }

  /** What may be deleted, in the given order. */
  function Deletable(asc: seq<Kernel>, protected: set<string>, keep: set<string>): seq<Kernel> {
    if asc == [] then []
    else if asc[0].ts in protected || asc[0].ts in keep then Deletable(asc[1..], protected, keep)
    else [asc[0]] + Deletable(asc[1..], protected, keep)
  }

  function Sizes(s: seq<Kernel>): nat {
    if s == [] then 0 else s[0].size + Sizes(s[1..])
  }

  /** Free space, as counted, after the first `k` of `s` are gone. */
  function FreeAfter(free: nat, s: seq<Kernel>, k: nat): nat
    requires k <= |s|
  {
    if k == 0 then free else (FreeAfter(free, s, k - 1) + s[k - 1].size) % WORD
  }

  /** The shortest prefix of `s` that, as counted, reaches the target, or all of it. */
  predicate ShortestReaching(del: seq<Kernel>, s: seq<Kernel>, free: nat, targetFree: nat) {
    && del <= s
    && (forall k :: 0 <= k < |del| ==> FreeAfter(free, s, k) < targetFree)
    && (FreeAfter(free, s, |del|) >= targetFree || del == s)
  }

  lemma KeepSetNext(desc: seq<Kernel>, protected: set<string>, i: nat)
    requires i < |desc|
    ensures KeepSet(desc, protected, i + 1)
         == KeepSet(desc, protected, i) + if desc[i].ts in protected then {} else {desc[i].ts}
  {
    if i > 0 {
      KeepSetNext(desc[1..], protected, i - 1);
    }
  }

  lemma {:induction false} KeepSetAll(desc: seq<Kernel>, protected: set<string>, n: int)
    requires n >= |desc|
    ensures KeepSet(desc, protected, n) == KeepSet(desc, protected, |desc|)
  {
    if desc != [] { KeepSetAll(desc[1..], protected, n - 1); }
  }

  lemma {:induction false} DeletableConcat(a: seq<Kernel>, b: seq<Kernel>, protected: set<string>, keep: set<string>)
    ensures Deletable(a + b, protected, keep) == Deletable(a, protected, keep) + Deletable(b, protected, keep)
  {
    if a == [] {
      assert a + b == b;
    } else {
      assert (a + b)[1..] == a[1..] + b;
      DeletableConcat(a[1..], b, protected, keep);
    }
  }

  lemma DeletableNext(asc: seq<Kernel>, protected: set<string>, keep: set<string>, i: nat)
    requires i < |asc|
    ensures Deletable(asc[..i + 1], protected, keep)
         == Deletable(asc[..i], protected, keep)
          + if asc[i].ts in protected || asc[i].ts in keep then [] else [asc[i]]
    ensures Deletable(asc[..i + 1], protected, keep) <= Deletable(asc, protected, keep)
  {
    assert asc[..i + 1] == asc[..i] + [asc[i]];
    DeletableConcat(asc[..i], [asc[i]], protected, keep);
    assert asc == asc[..i + 1] + asc[i + 1..];
    DeletableConcat(asc[..i + 1], asc[i + 1..], protected, keep);
  }

  method Keep(desc: seq<Kernel>, protected: set<string>, keepNewest: int) returns (keep: set<string>)
    ensures keep == KeepSet(desc, protected, keepNewest)
  {
    keep := {};
    var i := 0;
    while i < |desc| && i < keepNewest
      invariant 0 <= i <= |desc| && (i <= keepNewest || i == 0)
      invariant keep == KeepSet(desc, protected, i)
    {
      KeepSetNext(desc, protected, i);
      if desc[i].ts !in protected {
        keep := keep + {desc[i].ts};
      }
      i := i + 1;
    }
    if |desc| <= keepNewest { KeepSetAll(desc, protected, keepNewest); }
  }

  lemma ExtendPrefix(del: seq<Kernel>, x: Kernel, next: seq<Kernel>, may: seq<Kernel>, free: nat)
    requires next == del + [x] && next <= may
    ensures FreeAfter(free, may, |del| + 1) == (FreeAfter(free, may, |del|) + x.size) % WORD
  {
    assert next[|del|] == may[|del|];
  }

  method TakeOldest(asc: seq<Kernel>, protected: set<string>, keep: set<string>, free: nat, targetFree: nat)
    returns (del: seq<Kernel>)
    ensures ShortestReaching(del, Deletable(asc, protected, keep), free, targetFree)
  {
    ghost var may := Deletable(asc, protected, keep);
    del := [];
    var cur := free;
    var i := 0;
    assert asc[..0] == [] && asc[..|asc|] == asc;
    while i < |asc| && cur < targetFree
      invariant 0 <= i <= |asc| && del == Deletable(asc[..i], protected, keep) && del <= may
      invariant cur == FreeAfter(free, may, |del|)
      invariant forall k :: 0 <= k < |del| ==> FreeAfter(free, may, k) < targetFree
    {
      DeletableNext(asc, protected, keep, i);
      if asc[i].ts !in protected && asc[i].ts !in keep {
        ExtendPrefix(del, asc[i], Deletable(asc[..i + 1], protected, keep), may, free);
        del := del + [asc[i]];
        cur := (cur + asc[i].size) % WORD;
      }
      i := i + 1;
    }
  }

  /** `planPurge`: nothing when there is space enough; else the shortest reaching prefix of
      what may go, oldest first. */
  method PlanPurge(entries: seq<Kernel>, protected: set<string>, keepNewest: int, free: nat, targetFree: nat)
    returns (del: seq<Kernel>, ghost desc: seq<Kernel>, ghost asc: seq<Kernel>)
    ensures free >= targetFree ==> del == []
    ensures free < targetFree ==>
              && IsSort(entries, desc, true) && IsSort(entries, asc, false)
              && ShortestReaching(del, Deletable(asc, protected, KeepSet(desc, protected, keepNewest)), free, targetFree)
  {
    if free >= targetFree {
      return [], [], [];
    }
    var newestFirst := Sort(entries, true);
    var keep := Keep(newestFirst, protected, keepNewest);
    var oldestFirst := Sort(entries, false);
    del := TakeOldest(oldestFirst, protected, keep, free, targetFree);
    desc, asc := newestFirst, oldestFirst;
  }

  /* ---- What the plan means --------------------------------------------------------------- */

  predicate DistinctVersions(s: seq<Kernel>) {
    forall i, j :: 0 <= i < j < |s| ==> VersionNumber(s[i].ts) != VersionNumber(s[j].ts)
  }

  /** The entries newer than `e`. */
  function NewerThan(entries: seq<Kernel>, e: Kernel): set<Kernel> {
    set x | x in entries && Newer(x.ts, e.ts)
  }

  /** Among the newest `n` of all entries, protected ones included. */
  predicate AmongNewest(entries: seq<Kernel>, e: Kernel, n: int) {
    e in entries && |NewerThan(entries, e)| < n
  }

  function ElementsOf(s: seq<Kernel>): set<Kernel> {
    set x | x in s
  }

  lemma {:induction false} DistinctCount(s: seq<Kernel>)
    requires DistinctVersions(s)
    ensures |ElementsOf(s)| == |s|
  {
    if s != [] {
      DistinctCount(s[1..]);
      assert forall i :: 0 <= i < |s[1..]| ==> s[1..][i] == s[i + 1];
      assert s[0] !in s[1..];
      assert ElementsOf(s) == {s[0]} + ElementsOf(s[1..]);
    }
  }

  /** Distinct versions, however arranged, are distinct. */
  lemma SortKeepsDistinct(s: seq<Kernel>, r: seq<Kernel>)
    requires DistinctVersions(s) && multiset(r) == multiset(s)
    ensures DistinctVersions(r)
  {
    SameElements(s, r);
    forall i, j | 0 <= i < j < |r|
      ensures VersionNumber(r[i].ts) != VersionNumber(r[j].ts)
    {
      assert r[i] in s && r[j] in s;
      if VersionNumber(r[i].ts) == VersionNumber(r[j].ts) {
        var k :| 0 <= k < |s| && s[k] == r[i];
        var l :| 0 <= l < |s| && s[l] == r[j];
        assert k == l;
        TwiceInSeq(r, i, j);
        OnceInSeq(s, k);
      }
    }
  }

  lemma TwiceInSeq(s: seq<Kernel>, i: nat, j: nat)
    requires i < j < |s| && s[i] == s[j]
    ensures multiset(s)[s[i]] >= 2
  {
    assert s == s[..i] + [s[i]] + s[i + 1..j] + [s[j]] + s[j + 1..];
  }

  lemma OnceInSeq(s: seq<Kernel>, k: nat)
    requires k < |s| && DistinctVersions(s)
    ensures multiset(s)[s[k]] == 1
  {
    assert s == s[..k] + [s[k]] + s[k + 1..];
    assert s[k] !in s[..k] && s[k] !in s[k + 1..];
  }

  /** The entry at place `i`, newest first, has exactly the `i` before it newer. */
  lemma RankIsPlace(entries: seq<Kernel>, desc: seq<Kernel>, i: nat)
    requires AllNumeric(entries) && DistinctVersions(entries) && IsSort(entries, desc, true) && i < |desc|
    ensures NewerThan(entries, desc[i]) == ElementsOf(desc[..i]) && |NewerThan(entries, desc[i])| == i
  {
    SameElements(entries, desc);
    SortKeepsDistinct(entries, desc);
    forall j | 0 <= j < |desc|
      ensures Newer(desc[j].ts, desc[i].ts) <==> j < i
    {
      assert desc[j] in entries && desc[i] in entries;
    }
    DistinctCount(desc[..i]);
  }

  lemma {:induction false} KeepSetHolds(desc: seq<Kernel>, protected: set<string>, n: int, ts: string)
    ensures ts in KeepSet(desc, protected, n) <==> ts !in protected && exists i :: 0 <= i < |desc| && i < n && desc[i].ts == ts
  {
    if desc != [] && n > 0 {
      KeepSetHolds(desc[1..], protected, n - 1, ts);
      assert forall i :: 0 < i < |desc| ==> desc[i] == desc[1..][i - 1];
    }
  }

  /** Whatever the order, the plan takes only unprotected entries. */
  lemma PlanTakesDeletable(entries: seq<Kernel>, desc: seq<Kernel>, asc: seq<Kernel>, protected: set<string>, keepNewest: int,
                           free: nat, targetFree: nat, del: seq<Kernel>, e: Kernel)
    requires free < targetFree ==>
               && IsSort(entries, asc, false)
               && ShortestReaching(del, Deletable(asc, protected, KeepSet(desc, protected, keepNewest)), free, targetFree)
    requires free >= targetFree ==> del == []
    requires e in del
    ensures e in entries && e.ts !in protected
  {
    var keep := KeepSet(desc, protected, keepNewest);
    var i :| 0 <= i < |del| && del[i] == e;
    assert Deletable(asc, protected, keep)[i] == e;
    DeletableElements(asc, protected, keep, e);
    SameElements(entries, asc);
  }

  /** With distinct versions, what is kept is what ranks among the newest. */
  lemma KeptIsAmongNewest(entries: seq<Kernel>, desc: seq<Kernel>, protected: set<string>, n: int, e: Kernel)
    requires AllNumeric(entries) && DistinctVersions(entries) && IsSort(entries, desc, true) && e in entries
    ensures e.ts in KeepSet(desc, protected, n) <==> e.ts !in protected && AmongNewest(entries, e, n)
  {
    SameElements(entries, desc);
    SortKeepsDistinct(entries, desc);
    KeepSetHolds(desc, protected, n, e.ts);
    var k :| 0 <= k < |desc| && desc[k] == e;
    RankIsPlace(entries, desc, k);
    assert forall i :: 0 <= i < |desc| && desc[i].ts == e.ts ==> i == k;
  }

  lemma {:induction false} DeletableElements(asc: seq<Kernel>, protected: set<string>, keep: set<string>, e: Kernel)
    ensures e in Deletable(asc, protected, keep) <==> e in asc && e.ts !in protected && e.ts !in keep
  {
    if asc != [] { DeletableElements(asc[1..], protected, keep, e); }
  }

  lemma {:induction false} DeletableOrdered(asc: seq<Kernel>, protected: set<string>, keep: set<string>)
    requires Ordered(asc, false)
    ensures Ordered(Deletable(asc, protected, keep), false)
  {
    if asc != [] {
      DeletableOrdered(asc[1..], protected, keep);
      var rest := Deletable(asc[1..], protected, keep);
      forall j | 0 <= j < |rest|
        ensures !Precedes(rest[j], asc[0], false)
      {
        DeletableElements(asc[1..], protected, keep, rest[j]);
        var i :| 0 <= i < |asc[1..]| && asc[1..][i] == rest[j];
        assert asc[i + 1] == rest[j];
      }
      var all := Deletable(asc, protected, keep);
      assert all == rest || all == [asc[0]] + rest;
    }
  }

  /** How many of `s` are not older than `e`. */
  function NotOlder(s: seq<Kernel>, e: Kernel): nat {
    if s == [] then 0 else (if Newer(e.ts, s[0].ts) then 0 else 1) + NotOlder(s[1..], e)
  }

  lemma {:induction false} NotOlderConcat(a: seq<Kernel>, b: seq<Kernel>, e: Kernel)
    ensures NotOlder(a + b, e) == NotOlder(a, e) + NotOlder(b, e)
  {
    if a == [] {
      assert a + b == b;
    } else {
      assert (a + b)[1..] == a[1..] + b;
      NotOlderConcat(a[1..], b, e);
    }
  }

  /** The count does not depend on the order. */
  function Without(s: seq<Kernel>, k: nat): seq<Kernel>
    requires k < |s|
  {
    s[..k] + s[k + 1..]
  }

  lemma NotOlderWithout(s: seq<Kernel>, k: nat, e: Kernel)
    requires k < |s|
    ensures NotOlder(s, e) == NotOlder([s[k]], e) + NotOlder(Without(s, k), e)
  {
    NotOlderConcat(s[..k], [s[k]] + s[k + 1..], e);
    NotOlderConcat([s[k]], s[k + 1..], e);
    NotOlderConcat(s[..k], s[k + 1..], e);
    assert s == s[..k] + ([s[k]] + s[k + 1..]);
  }

  lemma MultisetWithout(s: seq<Kernel>, k: nat)
    requires k < |s|
    ensures multiset(Without(s, k)) == multiset(s) - multiset{s[k]}
  {
    assert s == s[..k] + [s[k]] + s[k + 1..];
  }

  lemma {:induction false} NotOlderOfPermutation(s: seq<Kernel>, r: seq<Kernel>, e: Kernel)
    requires multiset(s) == multiset(r)
    ensures NotOlder(s, e) == NotOlder(r, e)
  {
    SameElements(s, r);
    if s != [] {
      assert s[0] in r;
      var k :| 0 <= k < |r| && r[k] == s[0];
      MultisetWithout(s, 0);
      MultisetWithout(r, k);
      NotOlderOfPermutation(Without(s, 0), Without(r, k), e);
      NotOlderWithout(s, 0, e);
      NotOlderWithout(r, k, e);
    }
  }

  lemma {:induction false} NotOlderAll(s: seq<Kernel>, e: Kernel)
    requires forall i :: 0 <= i < |s| ==> !Newer(e.ts, s[i].ts)
    ensures NotOlder(s, e) == |s|
  {
    if s != [] { NotOlderAll(s[1..], e); }
  }

  /** What is not kept has, with itself, more than `n` entries that are not older. */
  lemma NotKeptIsOutranked(entries: seq<Kernel>, desc: seq<Kernel>, protected: set<string>, n: int, e: Kernel)
    requires AllNumeric(entries) && IsSort(entries, desc, true) && e in entries && e.ts !in protected
    requires e.ts !in KeepSet(desc, protected, n)
    ensures NotOlder(entries, e) > n
  {
    SameElements(entries, desc);
    KeepSetHolds(desc, protected, n, e.ts);
    var k :| 0 <= k < |desc| && desc[k] == e;
    NotOlderUpTo(desc, k);
    NotOlderOfPermutation(entries, desc, e);
  }

  /** Newest first, everything up to an element is as new as it. */
  lemma NotOlderUpTo(desc: seq<Kernel>, k: nat)
    requires Ordered(desc, true) && k < |desc|
    ensures NotOlder(desc, desc[k]) > k
  {
    var front := desc[..k + 1];
    NotOlderAll(front, desc[k]);
    assert desc == front + desc[k + 1..];
    NotOlderConcat(front, desc[k + 1..], desc[k]);
  }

  /** What is older than something not kept is not kept either. */
  lemma OlderIsNotKept(entries: seq<Kernel>, desc: seq<Kernel>, protected: set<string>, n: int, e: Kernel, f: Kernel)
    requires AllNumeric(entries) && IsSort(entries, desc, true) && e in entries && f in entries && e.ts !in protected
    requires e.ts !in KeepSet(desc, protected, n) && Newer(e.ts, f.ts)
    ensures f.ts !in KeepSet(desc, protected, n)
  {
    SameElements(entries, desc);
    KeepSetHolds(desc, protected, n, e.ts);
    KeepSetHolds(desc, protected, n, f.ts);
    var k :| 0 <= k < |desc| && desc[k] == e;
    forall i | 0 <= i < |desc| && desc[i].ts == f.ts
      ensures k < i
    {
      assert i < k ==> !Precedes(desc[k], desc[i], true);
    }
  }

  lemma OlderIsDeleted(asc: seq<Kernel>, protected: set<string>, keep: set<string>, del: seq<Kernel>, e: Kernel, f: Kernel)
    requires Ordered(asc, false) && del <= Deletable(asc, protected, keep) && e in del
    requires f in asc && f.ts !in protected && f.ts !in keep && Newer(e.ts, f.ts)
    ensures f in del
  {
    var may := Deletable(asc, protected, keep);
    DeletableOrdered(asc, protected, keep);
    DeletableElements(asc, protected, keep, f);
    var i :| 0 <= i < |del| && del[i] == e;
    var j :| 0 <= j < |may| && may[j] == f;
    assert may[i] == e;
    assert j < i;
    assert del[j] == may[j];
  }

  /** What is deleted has no place among the first `keepNewest`, so there are more entries. */
  lemma NotKeptHasOthers(entries: seq<Kernel>, desc: seq<Kernel>, protected: set<string>, n: int, e: Kernel)
    requires multiset(desc) == multiset(entries) && e in entries && e.ts !in protected && e.ts !in KeepSet(desc, protected, n)
    ensures |entries| > n
  {
    SameElements(entries, desc);
    KeepSetHolds(desc, protected, n, e.ts);
    var k :| 0 <= k < |desc| && desc[k] == e;
  }

  /** What the plan says of an entry it deletes: it is unprotected and one of more than
      `keepNewest`. Whenever the versions are numbers of 64 bits, `keepNewest` others are not
      older than it, and every unprotected entry older than it is deleted with it. */
  lemma PlanIsSafe(entries: seq<Kernel>, desc: seq<Kernel>, asc: seq<Kernel>, protected: set<string>, keepNewest: int,
                   free: nat, targetFree: nat, del: seq<Kernel>, e: Kernel)
    requires IsSort(entries, desc, true) && IsSort(entries, asc, false)
    requires ShortestReaching(del, Deletable(asc, protected, KeepSet(desc, protected, keepNewest)), free, targetFree)
    requires e in del
    ensures e in entries && e.ts !in protected && |entries| > keepNewest
    ensures AllNumeric(entries) ==> NotOlder(entries, e) > keepNewest
    ensures AllNumeric(entries) ==> forall f :: f in entries && Newer(e.ts, f.ts) && f.ts !in protected ==> f in del
  {
    var keep := KeepSet(desc, protected, keepNewest);
    SameElements(entries, asc);
    var i :| 0 <= i < |del| && del[i] == e;
    assert Deletable(asc, protected, keep)[i] == e;
    DeletableElements(asc, protected, keep, e);
    NotKeptHasOthers(entries, desc, protected, keepNewest, e);
    if AllNumeric(entries) {
      NotKeptIsOutranked(entries, desc, protected, keepNewest, e);
      forall f | f in entries && Newer(e.ts, f.ts) && f.ts !in protected
        ensures f in del
      {
        OlderIsNotKept(entries, desc, protected, keepNewest, e, f);
        OlderIsDeleted(asc, protected, keep, del, e, f);
      }
    }
  }

  /** How many of `s` are newer than `e`. */
  function Outranking(s: seq<Kernel>, e: Kernel): nat {
    if s == [] then 0 else (if Newer(s[0].ts, e.ts) then 1 else 0) + Outranking(s[1..], e)
  }

  lemma {:induction false} OutrankingConcat(a: seq<Kernel>, b: seq<Kernel>, e: Kernel)
    ensures Outranking(a + b, e) == Outranking(a, e) + Outranking(b, e)
  {
    if a == [] {
      assert a + b == b;
    } else {
      assert (a + b)[1..] == a[1..] + b;
      OutrankingConcat(a[1..], b, e);
    }
  }

  lemma {:induction false} OutrankingFew(s: seq<Kernel>, e: Kernel)
    ensures Outranking(s, e) <= |s|
    ensures (forall i :: 0 <= i < |s| ==> !Newer(s[i].ts, e.ts)) ==> Outranking(s, e) == 0
  {
    if s != [] { OutrankingFew(s[1..], e); }
  }

  lemma {:induction false} OutrankingOfPermutation(s: seq<Kernel>, r: seq<Kernel>, e: Kernel)
    requires multiset(s) == multiset(r)
    ensures Outranking(s, e) == Outranking(r, e)
  {
    SameElements(s, r);
    if s != [] {
      assert s[0] in r;
      var k :| 0 <= k < |r| && r[k] == s[0];
      MultisetWithout(s, 0);
      MultisetWithout(r, k);
      OutrankingOfPermutation(Without(s, 0), Without(r, k), e);
      OutrankingWithout(s, 0, e);
      OutrankingWithout(r, k, e);
    }
  }

  lemma OutrankingWithout(s: seq<Kernel>, k: nat, e: Kernel)
    requires k < |s|
    ensures Outranking(s, e) == Outranking([s[k]], e) + Outranking(Without(s, k), e)
  {
    OutrankingConcat(s[..k], [s[k]] + s[k + 1..], e);
    OutrankingConcat([s[k]], s[k + 1..], e);
    OutrankingConcat(s[..k], s[k + 1..], e);
    assert s == s[..k] + ([s[k]] + s[k + 1..]);
  }

  /** Newest first, nothing from an element's place on outranks it. */
  lemma OutrankedUpTo(desc: seq<Kernel>, i: nat, e: Kernel)
    requires Ordered(desc, true) && i < |desc| && desc[i].ts == e.ts
    ensures Outranking(desc, e) <= i
  {
    var front, back := desc[..i], desc[i..];
    assert desc == front + back;
    OutrankingConcat(front, back, e);
    OutrankingFew(front, e);
    forall j | 0 <= j < |back|
      ensures !Newer(back[j].ts, e.ts)
    {
      assert j > 0 ==> !Precedes(desc[i + j], desc[i], true);
    }
    OutrankingFew(back, e);
  }

  /** A kept version is unprotected and outranked by fewer than `n`; an unprotected one with at
      most `n` that are not older, itself included, is kept. Only equal numbers lie between. */
  lemma KeptRanks(entries: seq<Kernel>, desc: seq<Kernel>, protected: set<string>, n: int, e: Kernel)
    requires AllNumeric(entries) && IsSort(entries, desc, true) && e in entries
    ensures e.ts in KeepSet(desc, protected, n) ==> e.ts !in protected && Outranking(entries, e) < n
    ensures e.ts !in protected && NotOlder(entries, e) <= n ==> e.ts in KeepSet(desc, protected, n)
  {
    KeepSetHolds(desc, protected, n, e.ts);
    if e.ts in KeepSet(desc, protected, n) {
      var i :| 0 <= i < |desc| && i < n && desc[i].ts == e.ts;
      OutrankedUpTo(desc, i, e);
      OutrankingOfPermutation(entries, desc, e);
    } else if e.ts !in protected {
      NotKeptIsOutranked(entries, desc, protected, n, e);
    }
  }

  lemma {:induction false} SizesNext(s: seq<Kernel>, k: nat)
    requires k < |s|
    ensures Sizes(s[..k + 1]) == Sizes(s[..k]) + s[k].size
  {
    if k == 0 {
      assert s[..1] == [s[0]] && s[..0] == [];
    } else {
      SizesNext(s[1..], k - 1);
      assert s[..k + 1][1..] == s[1..][..k] && s[..k][1..] == s[1..][..k - 1];
    }
  }

  /** The count of free space is exact while it fits. */
  lemma {:induction false} CountIsExact(free: nat, s: seq<Kernel>, k: nat)
    requires k <= |s| && free + Sizes(s[..k]) < WORD
    ensures FreeAfter(free, s, k) == free + Sizes(s[..k])
  {
    if k == 0 {
      assert s[..0] == [];
    } else {
      SizesNext(s, k - 1);
      CountIsExact(free, s, k - 1);
    }
  }

  /** Usage after the plan is at most the cap, rounded up, or nothing deletable remains. */
  lemma PurgeReachesCap(total: nat, maxPercent: int, free: nat, may: seq<Kernel>, del: seq<Kernel>)
    requires 0 < maxPercent < 100 && total * 100 < WORD
    requires free + Sizes(del) <= total
    requires ShortestReaching(del, may, free, TargetFree(total, maxPercent))
    ensures del == may || (total - (free + Sizes(del))) * 100 < total * maxPercent + 100
  {
    assert del == may[..|del|];
    assert total < WORD;
    CountIsExact(free, may, |del|);
    CapArithmetic(total, maxPercent);
  }

  /** Keeping the target free keeps usage at the cap, rounded up. */
  lemma CapArithmetic(total: nat, maxPercent: int)
    requires 0 < maxPercent < 100 && total * 100 < WORD
    ensures (total - TargetFree(total, maxPercent)) * 100 < total * maxPercent + 100
  {
    var m := total * (100 - maxPercent);
    assert total * 100 == total * maxPercent + m;
    assert 0 <= m;
    assert 0 <= total * maxPercent;
    assert m < WORD;
    assert m % WORD == m;
    assert m / 100 * 100 > m - 100;
  }
}
