/** What retention planning means for the files of one flavor in the kernel directory
    (internal/updatecore/purge.go): which names go, in which order, and which stay. */
module Retention {
  import opened Names
  import opened Purge

  /** The names in the kernel directory, with their sizes. */
  type Sizes = map<string, nat>

  predicate Own(name: string, flavor: string) {
    ParseStored(name).Some? && ParseStored(name).value.1 == flavor
  }

  function VersionOf(name: string): string {
    if ParseStored(name).Some? then ParseStored(name).value.0 else ""
  }

  /** Every version of the flavor is a number of 64 bits. */
  ghost predicate Numbers(files: set<string>, flavor: string) {
    forall n :: n in files && Own(n, flavor) ==> VersionNumber(VersionOf(n)).Some?
  }

  /** Those of the flavor that are not older than `name`, itself included, and those newer. */
  function AsNew(files: set<string>, flavor: string, name: string): set<string> {
    set n | n in files && Own(n, flavor) && !Newer(VersionOf(name), VersionOf(n))
  }

  function Above(files: set<string>, flavor: string, name: string): set<string> {
    set n | n in files && Own(n, flavor) && Newer(VersionOf(n), VersionOf(name))
  }

  /** May go at all. */
  predicate Unprotected(name: string, flavor: string, protected: set<string>) {
    Own(name, flavor) && VersionOf(name) !in protected
  }

  /** Free space, as counted in 64 bits, when the first `k` names are gone. */
  function FreeWithout(free: nat, sizes: Sizes, gone: seq<string>, k: nat): nat
    requires k <= |gone| && forall n :: n in gone ==> n in sizes
  {
    if k == 0 then free
    else
      assert gone[k - 1] in gone;
      (FreeWithout(free, sizes, gone, k - 1) + sizes[gone[k - 1]]) % 0x1_0000_0000_0000_0000
  }

  /** A plan for `flavor`: it takes unprotected kernels of that flavor, each once, and each only
      while the target is not reached; in the end the target is reached, or what is left is
      protected or among the newest. */
  ghost predicate Planned(sizes: Sizes, flavor: string, protected: set<string>, keepNewest: int,
                          free: nat, target: nat, gone: seq<string>) {
    && Takes(sizes, flavor, protected, gone)
    && (forall k :: 0 <= k < |gone| ==> FreeWithout(free, sizes, gone, k) < target)
    && (Numbers(sizes.Keys, flavor) ==> InOrder(sizes.Keys, flavor, protected, keepNewest, gone))
    && (FreeWithout(free, sizes, gone, |gone|) >= target || NothingLeft(sizes, flavor, protected, keepNewest, gone))
  }

  ghost predicate Takes(sizes: Sizes, flavor: string, protected: set<string>, gone: seq<string>) {
    && (forall n :: n in gone ==> n in sizes && Unprotected(n, flavor, protected))
    && forall i, j :: 0 <= i < j < |gone| ==> gone[i] != gone[j]
  }

  /** With versions that are numbers the older go before the newer; none goes that fewer than
      `keepNewest` others are as new as; and with a kernel every unprotected older one goes. */
  ghost predicate InOrder(files: set<string>, flavor: string, protected: set<string>, keepNewest: int, gone: seq<string>) {
    && (forall i, j :: 0 <= i < j < |gone| ==> !Newer(VersionOf(gone[i]), VersionOf(gone[j])))
    && (forall n :: n in gone ==> |AsNew(files, flavor, n)| > keepNewest)
    && (forall n, m :: n in gone && m in files && Unprotected(m, flavor, protected) && Newer(VersionOf(n), VersionOf(m)) ==> m in gone)
  }

  /** What could go and does not is among the newest. */
  ghost predicate NothingLeft(sizes: Sizes, flavor: string, protected: set<string>, keepNewest: int, gone: seq<string>) {
    forall n :: n in sizes && Unprotected(n, flavor, protected) && n !in gone ==>
      keepNewest > 0 && (Numbers(sizes.Keys, flavor) ==> |Above(sizes.Keys, flavor, n)| < keepNewest)
  }

  /* ---- From the plan on kernels ------------------------------------------------------------- */

  predicate Distinct(s: seq<Kernel>) {
    forall i, j :: 0 <= i < j < |s| ==> s[i].name != s[j].name
  }

  /** `own` lists the kernels of the flavor. */
  predicate Lists(own: seq<Kernel>, sizes: Sizes, flavor: string) {
    && Distinct(own)
    && (forall e :: e in own ==> e.name in sizes && Own(e.name, flavor) && e.ts == VersionOf(e.name) && e.size == sizes[e.name])
    && (forall n :: n in sizes && Own(n, flavor) ==> exists e :: e in own && e.name == n)
  }

  function NamesOf(s: seq<Kernel>): (names: seq<string>)
    ensures |names| == |s| && forall i :: 0 <= i < |s| ==> names[i] == s[i].name
  {
    seq(|s|, i requires 0 <= i < |s| => s[i].name)
  }

  /** The names of those that satisfy `p`. */
  function Picked(s: seq<Kernel>, p: Kernel -> bool): set<string> {
    if s == [] then {} else Picked(s[1..], p) + if p(s[0]) then {s[0].name} else {}
  }

  lemma {:induction false} PickedHolds(s: seq<Kernel>, p: Kernel -> bool, n: string)
    ensures n in Picked(s, p) <==> exists i :: 0 <= i < |s| && s[i].name == n && p(s[i])
  {
    if s != [] {
      PickedHolds(s[1..], p, n);
      if n in Picked(s[1..], p) {
        var i :| 0 <= i < |s[1..]| && s[1..][i].name == n && p(s[1..][i]);
        assert s[i + 1].name == n && p(s[i + 1]);
      }
      if exists i :: 0 < i < |s| && s[i].name == n && p(s[i]) {
        var i :| 0 < i < |s| && s[i].name == n && p(s[i]);
        assert s[1..][i - 1].name == n && p(s[1..][i - 1]);
      }
    }
  }

  lemma PickedOnce(s: seq<Kernel>, p: Kernel -> bool)
    requires s != [] && Distinct(s)
    ensures Distinct(s[1..]) && |Picked(s, p)| == |Picked(s[1..], p)| + if p(s[0]) then 1 else 0
  {
    PickedHolds(s[1..], p, s[0].name);
    assert forall i :: 0 <= i < |s| - 1 ==> s[1..][i] == s[i + 1];
  }

  lemma {:induction false} NotOlderIsCount(s: seq<Kernel>, e: Kernel, p: Kernel -> bool)
    requires Distinct(s) && forall x :: p(x) <==> !Newer(e.ts, x.ts)
    ensures NotOlder(s, e) == |Picked(s, p)|
  {
    if s != [] {
      PickedOnce(s, p);
      NotOlderIsCount(s[1..], e, p);
    }
  }

  lemma {:induction false} OutrankingIsCount(s: seq<Kernel>, e: Kernel, p: Kernel -> bool)
    requires Distinct(s) && forall x :: p(x) <==> Newer(x.ts, e.ts)
    ensures Outranking(s, e) == |Picked(s, p)|
  {
    if s != [] {
      PickedOnce(s, p);
      OutrankingIsCount(s[1..], e, p);
    }
  }

  /** The kernel of a name, from the list. */
  lemma ListedKernel(own: seq<Kernel>, sizes: Sizes, flavor: string, n: string) returns (i: nat)
    requires Lists(own, sizes, flavor) && n in sizes && Own(n, flavor)
    ensures i < |own| && own[i] == Kernel(VersionOf(n), n, sizes[n])
  {
    var e :| e in own && e.name == n;
    i :| 0 <= i < |own| && own[i] == e;
  }

  lemma AsNewIsNotOlder(own: seq<Kernel>, sizes: Sizes, flavor: string, e: Kernel)
    requires Lists(own, sizes, flavor) && e in own
    ensures |AsNew(sizes.Keys, flavor, e.name)| == NotOlder(own, e)
  {
    var p := (x: Kernel) => !Newer(e.ts, x.ts);
    NotOlderIsCount(own, e, p);
    forall n
      ensures n in AsNew(sizes.Keys, flavor, e.name) <==> n in Picked(own, p)
    {
      PickedHolds(own, p, n);
      if n in AsNew(sizes.Keys, flavor, e.name) { var i := ListedKernel(own, sizes, flavor, n); }
      if n in Picked(own, p) {
        var i :| 0 <= i < |own| && own[i].name == n && p(own[i]);
        assert own[i] in own;
      }
    }
    assert AsNew(sizes.Keys, flavor, e.name) == Picked(own, p);
  }

  lemma AboveIsOutranking(own: seq<Kernel>, sizes: Sizes, flavor: string, e: Kernel)
    requires Lists(own, sizes, flavor) && e in own
    ensures |Above(sizes.Keys, flavor, e.name)| == Outranking(own, e)
  {
    var p := (x: Kernel) => Newer(x.ts, e.ts);
    OutrankingIsCount(own, e, p);
    forall n
      ensures n in Above(sizes.Keys, flavor, e.name) <==> n in Picked(own, p)
    {
      PickedHolds(own, p, n);
      if n in Above(sizes.Keys, flavor, e.name) { var i := ListedKernel(own, sizes, flavor, n); }
      if n in Picked(own, p) {
        var i :| 0 <= i < |own| && own[i].name == n && p(own[i]);
        assert own[i] in own;
      }
    }
    assert Above(sizes.Keys, flavor, e.name) == Picked(own, p);
  }

  lemma {:induction false} FreeIsFreeAfter(free: nat, sizes: Sizes, may: seq<Kernel>, del: seq<Kernel>, k: nat)
    requires k <= |del| && del <= may
    requires forall e :: e in del ==> e.name in sizes && e.size == sizes[e.name]
    ensures forall n :: n in NamesOf(del) ==> n in sizes
    ensures FreeWithout(free, sizes, NamesOf(del), k) == FreeAfter(free, may, k)
  {
    forall n | n in NamesOf(del)
      ensures n in sizes
    {
      var i :| 0 <= i < |del| && NamesOf(del)[i] == n;
      assert del[i] in del;
    }
    if k > 0 {
      FreeIsFreeAfter(free, sizes, may, del, k - 1);
      assert del[k - 1] in del && may[k - 1] == del[k - 1];
    }
  }

  lemma NumbersOf(own: seq<Kernel>, sizes: Sizes, flavor: string)
    requires Lists(own, sizes, flavor) && Numbers(sizes.Keys, flavor)
    ensures AllNumeric(own)
  {
    assert forall i :: 0 <= i < |own| ==> own[i] in own;
  }

  /* ---- The plan in those terms -------------------------------------------------------------- */

  /** What the plan promises on kernels. */
  ghost predicate PlannedOn(own: seq<Kernel>, desc: seq<Kernel>, asc: seq<Kernel>, protected: set<string>, keepNewest: int,
                            free: nat, target: nat, del: seq<Kernel>) {
    && IsSort(own, desc, true) && IsSort(own, asc, false)
    && ShortestReaching(del, Deletable(asc, protected, KeepSet(desc, protected, keepNewest)), free, target)
  }

  lemma {:induction false} DeletableOnce(asc: seq<Kernel>, protected: set<string>, keep: set<string>)
    requires Distinct(asc)
    ensures Distinct(Deletable(asc, protected, keep))
  {
    if asc != [] {
      var rest := Deletable(asc[1..], protected, keep);
      assert forall i :: 0 <= i < |asc| - 1 ==> asc[1..][i] == asc[i + 1];
      DeletableOnce(asc[1..], protected, keep);
      forall j | 0 <= j < |rest|
        ensures rest[j].name != asc[0].name
      {
        DeletableElements(asc[1..], protected, keep, rest[j]);
        var i :| 0 <= i < |asc[1..]| && asc[1..][i] == rest[j];
        assert asc[i + 1] == rest[j];
      }
      assert Deletable(asc, protected, keep) == rest || Deletable(asc, protected, keep) == [asc[0]] + rest;
    }
  }

  lemma DistinctSort(s: seq<Kernel>, r: seq<Kernel>)
    requires Distinct(s) && multiset(r) == multiset(s)
    requires forall a, b :: a in s && b in s && a.name == b.name ==> a == b
    ensures Distinct(r)
  {
    SameElements(s, r);
    forall i, j | 0 <= i < j < |r|
      ensures r[i].name != r[j].name
    {
      Once(s, r[i]);
      Twice(r, i, j);
      assert r[i] in s && r[j] in s;
    }
  }

  lemma {:induction false} Once(s: seq<Kernel>, e: Kernel)
    requires Distinct(s)
    ensures multiset(s)[e] <= 1
  {
    if s != [] {
      assert s == [s[0]] + s[1..];
      assert forall i :: 0 <= i < |s| - 1 ==> s[1..][i] == s[i + 1];
      Once(s[1..], e);
      if s[0] == e { assert e !in s[1..]; }
    }
  }

  lemma Twice(r: seq<Kernel>, i: nat, j: nat)
    requires i < j < |r|
    ensures r[i] == r[j] ==> multiset(r)[r[i]] >= 2
  {
    assert r == r[..i] + [r[i]] + r[i + 1..j] + [r[j]] + r[j + 1..];
  }

  /** What a deleted kernel is. */
  lemma GoneIsDeletable(own: seq<Kernel>, sizes: Sizes, flavor: string, desc: seq<Kernel>, asc: seq<Kernel>, protected: set<string>,
                        keepNewest: int, free: nat, target: nat, del: seq<Kernel>, i: nat)
    requires Lists(own, sizes, flavor) && PlannedOn(own, desc, asc, protected, keepNewest, free, target, del) && i < |del|
    ensures del[i] in own && Unprotected(del[i].name, flavor, protected) && del[i].name in sizes
    ensures del[i].ts == VersionOf(del[i].name) && del[i].size == sizes[del[i].name]
  {
    var keep := KeepSet(desc, protected, keepNewest);
    assert Deletable(asc, protected, keep)[i] == del[i];
    DeletableElements(asc, protected, keep, del[i]);
    SameElements(own, asc);
  }

  lemma GoneOnce(own: seq<Kernel>, sizes: Sizes, flavor: string, desc: seq<Kernel>, asc: seq<Kernel>, protected: set<string>,
                 keepNewest: int, free: nat, target: nat, del: seq<Kernel>)
    requires Lists(own, sizes, flavor) && PlannedOn(own, desc, asc, protected, keepNewest, free, target, del)
    ensures Distinct(del)
  {
    assert forall a, b :: a in own && b in own && a.name == b.name ==> a == b;
    DistinctSort(own, asc);
    var may := Deletable(asc, protected, KeepSet(desc, protected, keepNewest));
    DeletableOnce(asc, protected, KeepSet(desc, protected, keepNewest));
    assert forall i :: 0 <= i < |del| ==> del[i] == may[i];
  }

  lemma GoneOldestFirst(own: seq<Kernel>, desc: seq<Kernel>, asc: seq<Kernel>, protected: set<string>,
                        keepNewest: int, free: nat, target: nat, del: seq<Kernel>, i: nat, j: nat)
    requires PlannedOn(own, desc, asc, protected, keepNewest, free, target, del) && AllNumeric(own) && i < j < |del|
    ensures !Newer(del[i].ts, del[j].ts)
  {
    var may := Deletable(asc, protected, KeepSet(desc, protected, keepNewest));
    DeletableOrdered(asc, protected, KeepSet(desc, protected, keepNewest));
    assert del[i] == may[i] && del[j] == may[j];
    assert !Precedes(may[j], may[i], false);
  }

  lemma LeftIsKept(own: seq<Kernel>, sizes: Sizes, flavor: string, desc: seq<Kernel>, asc: seq<Kernel>, protected: set<string>,
                   keepNewest: int, free: nat, target: nat, del: seq<Kernel>, n: string)
    requires Lists(own, sizes, flavor) && PlannedOn(own, desc, asc, protected, keepNewest, free, target, del)
    requires del == Deletable(asc, protected, KeepSet(desc, protected, keepNewest))
    requires n in sizes && Unprotected(n, flavor, protected) && n !in NamesOf(del)
    ensures keepNewest > 0 && (Numbers(sizes.Keys, flavor) ==> |Above(sizes.Keys, flavor, n)| < keepNewest)
  {
    var at := ListedKernel(own, sizes, flavor, n);
    var e, keep := own[at], KeepSet(desc, protected, keepNewest);
    assert e in own;
    SameElements(own, asc);
    DeletableElements(asc, protected, keep, e);
    NotAmongNames(del, e);
    KeepSetHolds(desc, protected, keepNewest, e.ts);
    if Numbers(sizes.Keys, flavor) {
      NumbersOf(own, sizes, flavor);
      KeptRanks(own, desc, protected, keepNewest, e);
      AboveIsOutranking(own, sizes, flavor, e);
    }
  }

  lemma NotAmongNames(del: seq<Kernel>, e: Kernel)
    ensures e in del ==> e.name in NamesOf(del)
  {
    if e in del {
      var i :| 0 <= i < |del| && del[i] == e;
      assert NamesOf(del)[i] == e.name;
    }
  }

  lemma GoneIsOutranked(own: seq<Kernel>, sizes: Sizes, flavor: string, desc: seq<Kernel>, asc: seq<Kernel>, protected: set<string>,
                        keepNewest: int, free: nat, target: nat, del: seq<Kernel>, i: nat)
    requires Lists(own, sizes, flavor) && PlannedOn(own, desc, asc, protected, keepNewest, free, target, del) && i < |del|
    requires AllNumeric(own)
    ensures |AsNew(sizes.Keys, flavor, del[i].name)| > keepNewest
    ensures forall m :: m in sizes && Unprotected(m, flavor, protected) && Newer(del[i].ts, VersionOf(m)) ==> m in NamesOf(del)
  {
    GoneIsDeletable(own, sizes, flavor, desc, asc, protected, keepNewest, free, target, del, i);
    PlanIsSafe(own, desc, asc, protected, keepNewest, free, target, del, del[i]);
    AsNewIsNotOlder(own, sizes, flavor, del[i]);
    forall m | m in sizes && Unprotected(m, flavor, protected) && Newer(del[i].ts, VersionOf(m))
      ensures m in NamesOf(del)
    {
      var at := ListedKernel(own, sizes, flavor, m);
      assert own[at] in own && own[at] in del;
      NotAmongNames(del, own[at]);
    }
  }

  lemma TakesPlanned(own: seq<Kernel>, sizes: Sizes, flavor: string, desc: seq<Kernel>, asc: seq<Kernel>, protected: set<string>,
                     keepNewest: int, free: nat, target: nat, del: seq<Kernel>)
    requires Lists(own, sizes, flavor) && PlannedOn(own, desc, asc, protected, keepNewest, free, target, del)
    ensures Takes(sizes, flavor, protected, NamesOf(del)) && forall e :: e in del ==> e.name in sizes && e.size == sizes[e.name]
  {
    forall i | 0 <= i < |del|
      ensures del[i].name in sizes && Unprotected(del[i].name, flavor, protected) && del[i].size == sizes[del[i].name]
    {
      GoneIsDeletable(own, sizes, flavor, desc, asc, protected, keepNewest, free, target, del, i);
    }
    GoneOnce(own, sizes, flavor, desc, asc, protected, keepNewest, free, target, del);
  }

  /** The plan on kernels is a plan on names. */
  lemma PlannedMeans(own: seq<Kernel>, sizes: Sizes, flavor: string, desc: seq<Kernel>, asc: seq<Kernel>, protected: set<string>,
                     keepNewest: int, free: nat, target: nat, del: seq<Kernel>)
    requires Lists(own, sizes, flavor)
    requires free >= target ==> del == []
    requires free < target ==> PlannedOn(own, desc, asc, protected, keepNewest, free, target, del)
    ensures Planned(sizes, flavor, protected, keepNewest, free, target, NamesOf(del))
  {
    var gone := NamesOf(del);
    if free < target {
      var may := Deletable(asc, protected, KeepSet(desc, protected, keepNewest));
      TakesPlanned(own, sizes, flavor, desc, asc, protected, keepNewest, free, target, del);
      forall k: nat | k <= |del|
        ensures FreeWithout(free, sizes, gone, k) == FreeAfter(free, may, k)
      {
        FreeIsFreeAfter(free, sizes, may, del, k);
      }
      if Numbers(sizes.Keys, flavor) {
        NumbersPlanned(own, sizes, flavor, desc, asc, protected, keepNewest, free, target, del);
      }
      if del == may {
        NothingLeftPlanned(own, sizes, flavor, desc, asc, protected, keepNewest, free, target, del);
      }
    }
  }

  lemma NothingLeftPlanned(own: seq<Kernel>, sizes: Sizes, flavor: string, desc: seq<Kernel>, asc: seq<Kernel>, protected: set<string>,
                           keepNewest: int, free: nat, target: nat, del: seq<Kernel>)
    requires Lists(own, sizes, flavor) && PlannedOn(own, desc, asc, protected, keepNewest, free, target, del)
    requires del == Deletable(asc, protected, KeepSet(desc, protected, keepNewest))
    ensures NothingLeft(sizes, flavor, protected, keepNewest, NamesOf(del))
  {
    forall n | n in sizes && Unprotected(n, flavor, protected) && n !in NamesOf(del)
      ensures keepNewest > 0 && (Numbers(sizes.Keys, flavor) ==> |Above(sizes.Keys, flavor, n)| < keepNewest)
    {
      LeftIsKept(own, sizes, flavor, desc, asc, protected, keepNewest, free, target, del, n);
    }
  }

  lemma NumbersPlanned(own: seq<Kernel>, sizes: Sizes, flavor: string, desc: seq<Kernel>, asc: seq<Kernel>, protected: set<string>,
                       keepNewest: int, free: nat, target: nat, del: seq<Kernel>)
    requires Lists(own, sizes, flavor) && PlannedOn(own, desc, asc, protected, keepNewest, free, target, del)
    requires Numbers(sizes.Keys, flavor)
    ensures InOrder(sizes.Keys, flavor, protected, keepNewest, NamesOf(del))
  {
    NumbersOf(own, sizes, flavor);
    var gone := NamesOf(del);
    forall i | 0 <= i < |del|
      ensures del[i].ts == VersionOf(gone[i]) && |AsNew(sizes.Keys, flavor, gone[i])| > keepNewest
      ensures forall m :: m in sizes && Unprotected(m, flavor, protected) && Newer(VersionOf(gone[i]), VersionOf(m)) ==> m in gone
    {
      GoneIsDeletable(own, sizes, flavor, desc, asc, protected, keepNewest, free, target, del, i);
      GoneIsOutranked(own, sizes, flavor, desc, asc, protected, keepNewest, free, target, del, i);
    }
    forall i, j | 0 <= i < j < |gone|
      ensures !Newer(VersionOf(gone[i]), VersionOf(gone[j]))
    {
      GoneOldestFirst(own, desc, asc, protected, keepNewest, free, target, del, i, j);
    }
  }
}
