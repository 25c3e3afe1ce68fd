/** Reading the five fields (internal/cron/cron.go, Parse and parseField): lists, ranges and
    steps to sorted values, and Sunday written as 7. */
module CronFields {
  import opened Wrappers
  import opened Cron

  const TWO63 := 0x8000_0000_0000_0000

  /** The program's `int`. */
  type Int64 = x: int | -TWO63 <= x < TWO63

  /** One part of a value or a bound, read as a number or a name; None when it is neither. */
  type Value = Option<Int64>

  datatype Base = Star | Range(lo: Value, hi: Value) | Single(value: Value)

  /** One element of a list. `step` counts when there is a slash. */
  datatype Item = Empty | Item(base: Base, slash: bool, step: Value)

  predicate Reads(v: Value, min: int, max: int) {
    v.Some? && min <= v.value <= max
  }

  /** What the grammar accepts: steps only behind a star or a range. */
  predicate Accepted(item: Item, min: int, max: int) {
    && item.Item?
    && (item.slash ==> item.step.Some? && item.step.value > 0)
    && match item.base
       case Star => true
       case Range(lo, hi) => Reads(lo, min, max) && Reads(hi, min, max) && lo.value <= hi.value
       case Single(v) => !item.slash && Reads(v, min, max)
  }

  /** First and last value of an accepted element, and its step. */
  function Low(item: Item, min: int, max: int): (v: int)
    requires min <= max && Accepted(item, min, max)
    ensures min <= v <= max
  {
    match item.base case Star => min case Range(lo, _) => lo.value case Single(v) => v.value
  }

  function High(item: Item, min: int, max: int): (v: int)
    requires min <= max && Accepted(item, min, max)
    ensures min <= v <= max
  {
    match item.base case Star => max case Range(_, hi) => hi.value case Single(v) => v.value
  }

  function StepOf(item: Item, min: int, max: int): (step: Int64)
    requires Accepted(item, min, max)
    ensures step > 0
  {
    if item.slash then item.step.value else 1
  }

  /** The values an accepted element stands for. */
  predicate Denotes(item: Item, min: int, max: int, v: int)
    requires min <= max && Accepted(item, min, max)
  {
    Low(item, min, max) <= v <= High(item, min, max) && OnGrid(Low(item, min, max), StepOf(item, min, max), v)
  }

  predicate AllAccepted(items: seq<Item>, min: int, max: int) {
    forall i :: 0 <= i < |items| ==> Accepted(items[i], min, max)
  }

  predicate Listed(items: seq<Item>, min: int, max: int, v: int)
    requires min <= max && AllAccepted(items, min, max)
  {
    exists i :: 0 <= i < |items| && Denotes(items[i], min, max, v)
  }

  /** `lo-hi/step` stands for `lo`, `lo + step` and so on, up to `hi`, and for nothing between. */
  lemma SteppedRange(lo: Int64, hi: Int64, step: Int64, min: int, max: int, k: nat, v: int)
    requires min <= lo <= hi <= max && 0 < step
    ensures var item := Item(Range(Some(lo), Some(hi)), true, Some(step));
            && Accepted(item, min, max)
            && (lo + k * step <= hi ==> Denotes(item, min, max, lo + k * step))
            && (lo + k * step < v < lo + (k + 1) * step ==> !Denotes(item, min, max, v))
            && (v < lo || hi < v ==> !Denotes(item, min, max, v))
  {
    assert 0 <= k * step;
    Calendar.DivisionIsUnique(k * step, step, k, 0);
    if lo + k * step < v < lo + (k + 1) * step {
      assert (k + 1) * step == k * step + step;
      Calendar.DivisionIsUnique(v - lo, step, k, v - lo - k * step);
    }
  }

  /** A star with a step counts from the lower bound; a range and a star without one list
      everything; a single value lists itself; and nothing else is accepted behind a slash. */
  lemma PlainElements(lo: Int64, hi: Int64, step: Int64, min: int, max: int, v: int)
    requires -TWO63 <= min <= lo <= hi <= max < TWO63 && 0 < step
    ensures Denotes(Item(Range(Some(lo), Some(hi)), false, None), min, max, v) <==> lo <= v <= hi
    ensures Denotes(Item(Star, false, None), min, max, v) <==> min <= v <= max
    ensures Denotes(Item(Star, true, Some(step)), min, max, v)
       <==> Denotes(Item(Range(Some(min), Some(max)), true, Some(step)), min, max, v)
    ensures Denotes(Item(Single(Some(lo)), false, None), min, max, v) <==> v == lo
    ensures !Accepted(Item(Single(Some(lo)), true, Some(step)), min, max)
    ensures !Accepted(Item(Star, true, Some(0)), min, max) && !Accepted(Empty, min, max)
    ensures lo < hi ==> !Accepted(Item(Range(Some(hi), Some(lo)), false, None), min, max)
  {
  }

  /* ---- Expanding one element ---------------------------------------------------------------- */

  predicate OnGrid(lo: int, step: int, x: int)
    requires step > 0
  {
    (x - lo) % step == 0
  }

  /** The grid from `v` on is `v` and the grid from `v + step` on. */
  lemma GridFromNext(v: int, step: int, x: int)
    requires step > 0 && v <= x
    ensures OnGrid(v, step, x) <==> x == v || (v + step <= x && OnGrid(v + step, step, x))
  {
    if x < v + step {
      Calendar.DivisionIsUnique(x - v, step, 0, x - v);
    } else {
      var q, r := (x - v - step) / step, (x - v - step) % step;
      assert x - v == (q + 1) * step + r;
      Calendar.DivisionIsUnique(x - v, step, q + 1, r);
    }
  }

  /** Field bounds are small; a step may be anything up to 2^63 - 1. */
  const SMALL := 0x1_0000_0000

  /** `v + step` in 64 bits. */
  function Advance(v: Int64, step: Int64): Int64
    requires step > 0
  {
    if v + step >= TWO63 then v + step - 2 * TWO63 else v + step
  }

  /** What is left to go before `v` passes `hi`. A step that wraps is so large that `v` falls
      with every other one. */
  function ToGo(v: Int64, hi: Int64, step: Int64): nat
    requires 0 < step && 0 <= hi < SMALL
  {
    var e := TWO63 - step;
    if v > hi then 0
    else if hi < e then 1 + hi - v
    else if v >= 0 then 2 + 2 * v
    else if v + TWO63 <= hi then 3 + 2 * (v + TWO63)
    else 1
  }

  /** The values the loop visits from `v` on. */
  function Walk(v: Int64, hi: Int64, step: Int64): set<int>
    requires 0 < step && 0 <= hi < SMALL
    requires Reachable(v, hi, step)
    decreases ToGo(v, hi, step)
  {
    if v > hi then {} else {v as int} + Walk(Advance(v, step), hi, step)
  }

  /** Where the loop can get to: between 0 and the bound, past it, or, once it has wrapped,
      just above the lowest value or just below 0. */
  predicate Reachable(v: Int64, hi: Int64, step: Int64)
    requires 0 < step && 0 <= hi < SMALL
  {
    var e := TWO63 - step;
    v >= 0 || (e <= hi && (v + TWO63 <= hi - e || -e <= v))
  }

  /** Without a wrap the loop visits the grid. */
  lemma {:induction false} WalkIsGrid(v: Int64, hi: Int64, step: Int64)
    requires 0 < step && 0 <= hi < SMALL && 0 <= v && (v <= hi ==> v + step < TWO63)
    ensures forall x :: x in Walk(v, hi, step) <==> v <= x <= hi && OnGrid(v, step, x)
    decreases ToGo(v, hi, step)
  {
    if v <= hi {
      WalkIsGrid(v + step, hi, step);
      forall x
        ensures x in Walk(v, hi, step) <==> v <= x <= hi && OnGrid(v, step, x)
      {
        if v <= x { GridFromNext(v, step, x); }
      }
    }
  }

  /** With one it also visits a negative number. */
  lemma WalkGoesBelow(v: Int64, hi: Int64, step: Int64)
    requires 0 < step && 0 <= v <= hi < SMALL && v + step >= TWO63
    ensures v + step - 2 * TWO63 in Walk(v, hi, step) && v + step - 2 * TWO63 < 0
  {
    assert Advance(v, step) == v + step - 2 * TWO63;
    assert Advance(v, step) in Walk(Advance(v, step), hi, step);
  }

  method Expand(lo: Int64, hi: Int64, step: Int64) returns (vs: set<int>)
    requires 0 < step && 0 <= lo && 0 <= hi < SMALL
    ensures vs == Walk(lo, hi, step)
  {
    vs := {};
    var v: Int64 := lo;
    while v <= hi
      invariant Reachable(v, hi, step) && vs + Walk(v, hi, step) == Walk(lo, hi, step)
      decreases ToGo(v, hi, step)
    {
      vs := vs + {v as int};
      v := Advance(v, step);
    }
  }

  /** The values the code collects for an element. */
  function Collected(item: Item, min: int, max: int): set<int>
    requires 0 <= min <= max < SMALL && Accepted(item, min, max)
  {
    Walk(Low(item, min, max), High(item, min, max), StepOf(item, min, max))
  }

  /** The step leaves room above the first value: what a caller can look up beforehand. */
  predicate StepFits(item: Item, min: int, max: int)
    requires min <= max && Accepted(item, min, max)
  {
    Low(item, min, max) + StepOf(item, min, max) < TWO63
  }

  /** The element's values are collected exactly when its step fits; else a negative number
      comes with them. */
  lemma ElementIsExact(item: Item, min: int, max: int)
    requires 0 <= min <= max < SMALL && Accepted(item, min, max)
    ensures StepFits(item, min, max) ==> forall v :: v in Collected(item, min, max) <==> Denotes(item, min, max, v)
    ensures !StepFits(item, min, max) ==> exists v :: v in Collected(item, min, max) && v < 0
    ensures Low(item, min, max) in Collected(item, min, max)
  {
    var lo, hi, step := Low(item, min, max), High(item, min, max), StepOf(item, min, max);
    if StepFits(item, min, max) {
      WalkIsGrid(lo, hi, step);
    } else {
      WalkGoesBelow(lo, hi, step);
      var below := lo + step - 2 * TWO63;
      assert below in Collected(item, min, max) && below < 0;
    }
  }

  /** One element: its values, or None when it is not accepted. */
  method ReadItem(item: Item, min: int, max: int) returns (r: Option<set<int>>)
    requires 0 <= min <= max < SMALL
    ensures r.Some? <==> Accepted(item, min, max)
    ensures r.Some? ==> r.value == Collected(item, min, max)
  {
    if item.Empty? {
      return None;
    }
    var step: Int64 := 1;
    if item.slash {
      if item.step.None? || item.step.value <= 0 {
        return None;
      }
      step := item.step.value;
    }
    var lo: Int64, hi: Int64 := min, max;
    if item.base.Range? {
      if !Reads(item.base.lo, min, max) || !Reads(item.base.hi, min, max) || item.base.lo.value > item.base.hi.value {
        return None;
      }
      lo, hi := item.base.lo.value, item.base.hi.value;
    } else if item.base.Single? {
      if item.slash || !Reads(item.base.value, min, max) {
        return None;
      }
      lo, hi := item.base.value.value, item.base.value.value;
    }
    assert Accepted(item, min, max);
    assert lo == Low(item, min, max) && hi == High(item, min, max) && step == StepOf(item, min, max);
    var vs := Expand(lo, hi, step);
    r := Some(vs);
  }

  /* ---- Sorting the values ------------------------------------------------------------------- */

  predicate Distinct(s: seq<int>) {
    forall i, j :: 0 <= i < j < |s| ==> s[i] != s[j]
  }

  ghost predicate Holds(s: seq<int>, vs: set<int>) {
    Distinct(s) && forall v :: v in s <==> v in vs
  }

  function Swapped(s: seq<int>, j: nat): seq<int>
    requires 0 < j < |s|
  {
    s[j - 1 := s[j]][j := s[j - 1]]
  }

  lemma SwapHolds(s: seq<int>, j: nat, vs: set<int>)
    requires 0 < j < |s| && Holds(s, vs)
    ensures Holds(Swapped(s, j), vs)
  {
    var t := Swapped(s, j);
    forall v
      ensures v in t <==> v in vs
    {
      if v in s {
        var k :| 0 <= k < |s| && s[k] == v;
        assert t[if k == j then j - 1 else if k == j - 1 then j else k] == v;
      }
      if v in t {
        var k :| 0 <= k < |t| && t[k] == v;
        assert s[if k == j then j - 1 else if k == j - 1 then j else k] == v;
      }
    }
  }

  /** The first `i` + 1 elements ascend, but for the one at `j`, which is below those after it. */
  ghost predicate AscendingBut(s: seq<int>, i: nat, j: nat) {
    && j <= i < |s|
    && (forall p, q :: 0 <= p < q <= i && p != j && q != j ==> s[p] < s[q])
    && (forall q :: j < q <= i ==> s[j] < s[q])
  }

  lemma SwapAscending(s: seq<int>, i: nat, j: nat)
    requires AscendingBut(s, i, j) && j > 0 && s[j] < s[j - 1]
    ensures AscendingBut(Swapped(s, j), i, j - 1)
  {
  }

  lemma SettledAscending(s: seq<int>, i: nat, j: nat)
    requires AscendingBut(s, i, j) && Distinct(s) && (j > 0 ==> s[j] >= s[j - 1])
    ensures forall p, q :: 0 <= p < q <= i ==> s[p] < s[q]
  {
    forall p | 0 <= p < j
      ensures s[p] < s[j]
    {
      assert s[j - 1] != s[j];
      assert p < j - 1 ==> s[p] < s[j - 1];
    }
  }

  /** Insertion sort, in place. */
  method SortInPlace(out: array<int>, ghost vs: set<int>)
    requires Holds(out[..], vs)
    modifies out
    ensures Holds(out[..], vs) && Ascending(out[..])
  {
    var i := 1;
    while i < out.Length
      invariant 1 <= i && Holds(out[..], vs)
      invariant forall p, q :: 0 <= p < q < i && q < out.Length ==> out[p] < out[q]
    {
      var j := i;
      while j > 0 && out[j] < out[j - 1]
        invariant 0 <= j <= i < out.Length && Holds(out[..], vs) && AscendingBut(out[..], i, j)
      {
        SwapHolds(out[..], j, vs);
        SwapAscending(out[..], i, j);
        ghost var next := Swapped(out[..], j);
        out[j], out[j - 1] := out[j - 1], out[j];
        assert out[..] == next;
        j := j - 1;
      }
      SettledAscending(out[..], i, j);
      i := i + 1;
    }
  }

  lemma NotEmpty(vs: set<int>)
    requires vs != {}
    ensures exists v :: v in vs
  {
    assert (forall v :: v !in vs) ==> vs == {};
  }

  /** The values of a set in an array, in whatever order the set gives them. */
  method Collect(vs: set<int>) returns (out: array<int>)
    ensures fresh(out) && Holds(out[..], vs)
  {
    var s: seq<int> := [];
    var left := vs;
    while left != {}
      invariant left <= vs && Distinct(s)
      invariant forall v :: v in s <==> v in vs && v !in left
      decreases |left|
    {
      NotEmpty(left);
      var v :| v in left;
      assert forall x :: x in s + [v] <==> x in s || x == v;
      s := s + [v];
      left := left - {v};
    }
    out := new int[|s|](i requires 0 <= i < |s| => s[i]);
    assert out[..] == s;
  }

  /** The values the code collects for a field. */
  function FieldValues(items: seq<Item>, min: int, max: int): set<int>
    requires 0 <= min <= max < SMALL && AllAccepted(items, min, max)
  {
    if items == [] then {}
    else
      assert Accepted(items[0], min, max);
      assert forall i :: 0 <= i < |items| - 1 ==> items[1..][i] == items[i + 1];
      Collected(items[0], min, max) + FieldValues(items[1..], min, max)
  }

  predicate StepsFit(items: seq<Item>, min: int, max: int)
    requires min <= max && AllAccepted(items, min, max)
  {
    forall i :: 0 <= i < |items| ==> StepFits(items[i], min, max)
  }

  lemma {:induction false} FieldValuesOf(items: seq<Item>, min: int, max: int, v: int)
    requires 0 <= min <= max < SMALL && AllAccepted(items, min, max)
    ensures v in FieldValues(items, min, max) <==> exists i :: 0 <= i < |items| && v in Collected(items[i], min, max)
  {
    if items != [] {
      var rest := items[1..];
      assert forall i :: 0 <= i < |rest| ==> rest[i] == items[i + 1];
      FieldValuesOf(rest, min, max, v);
      if v in FieldValues(rest, min, max) {
        var i :| 0 <= i < |rest| && v in Collected(rest[i], min, max);
        assert v in Collected(items[i + 1], min, max);
      }
      if exists i :: 0 < i < |items| && v in Collected(items[i], min, max) {
        var i :| 0 < i < |items| && v in Collected(items[i], min, max);
        assert v in Collected(rest[i - 1], min, max);
      }
    }
  }

  /** The field's values are what its elements stand for, and within its bounds, exactly when
      every step fits. */
  lemma FieldIsExact(items: seq<Item>, min: int, max: int)
    requires 0 <= min <= max < SMALL && AllAccepted(items, min, max)
    ensures StepsFit(items, min, max) <==> forall v :: v in FieldValues(items, min, max) <==> Listed(items, min, max, v)
    ensures StepsFit(items, min, max) <==> forall v :: v in FieldValues(items, min, max) ==> min <= v <= max
  {
    if StepsFit(items, min, max) {
      forall v
        ensures v in FieldValues(items, min, max) <==> Listed(items, min, max, v)
      {
        FieldValuesOf(items, min, max, v);
        forall i | 0 <= i < |items|
          ensures v in Collected(items[i], min, max) <==> Denotes(items[i], min, max, v)
        {
          ElementIsExact(items[i], min, max);
        }
      }
    } else {
      var i :| 0 <= i < |items| && !StepFits(items[i], min, max);
      ElementIsExact(items[i], min, max);
      var v :| v in Collected(items[i], min, max) && v < 0;
      FieldValuesOf(items, min, max, v);
      assert v in FieldValues(items, min, max) && !Listed(items, min, max, v);
    }
  }

  lemma {:induction false} FieldValuesStep(items: seq<Item>, min: int, max: int, i: nat)
    requires 0 <= min <= max < SMALL && i < |items| && AllAccepted(items[..i], min, max) && Accepted(items[i], min, max)
    ensures AllAccepted(items[..i + 1], min, max)
    ensures FieldValues(items[..i + 1], min, max) == FieldValues(items[..i], min, max) + Collected(items[i], min, max)
    decreases i
  {
    assert forall k :: 0 <= k < i ==> items[..i + 1][k] == items[..i][k];
    assert items[..i + 1][i] == items[i];
    forall v
      ensures v in FieldValues(items[..i + 1], min, max)
         <==> v in FieldValues(items[..i], min, max) || v in Collected(items[i], min, max)
    {
      FieldValuesOf(items[..i + 1], min, max, v);
      FieldValuesOf(items[..i], min, max, v);
      if v in Collected(items[i], min, max) { assert v in Collected(items[..i + 1][i], min, max); }
    }
  }

  /** `parseField`: accepted exactly as the grammar says; the values are those the elements
      stand for, and within the bounds, exactly when every step fits. */
  method ParseField(items: seq<Item>, min: int, max: int) returns (r: Option<seq<int>>)
    requires 0 <= min <= max < SMALL
    ensures r.Some? <==> items != [] && AllAccepted(items, min, max)
    ensures r.Some? ==> Ascending(r.value) && r.value != []
    ensures r.Some? ==> forall v :: v in r.value <==> v in FieldValues(items, min, max)
    ensures r.Some? ==> (StepsFit(items, min, max) <==> forall v :: v in r.value <==> Listed(items, min, max, v))
    ensures r.Some? ==> (StepsFit(items, min, max) <==> Within(r.value, min, max))
  {
    var present: set<int> := {};
    var i := 0;
    while i < |items|
      invariant 0 <= i <= |items| && AllAccepted(items[..i], min, max)
      invariant present == FieldValues(items[..i], min, max)
      invariant i > 0 ==> present != {}
    {
      var vs := ReadItem(items[i], min, max);
      if vs.None? {
        return None;
      }
      FieldValuesStep(items, min, max, i);
      ElementIsExact(items[i], min, max);
      present := present + vs.value;
      i := i + 1;
    }
    assert items[..i] == items;
    if present == {} {
      return None;
    }
    var out := Collect(present);
    SortInPlace(out, present);
    NotEmpty(present);
    ghost var v :| v in present;
    assert v in out[..];
    FieldIsExact(items, min, max);
    MembersWithin(out[..], min, max);
    r := Some(out[..]);
  }

  lemma MembersWithin(s: seq<int>, min: int, max: int)
    requires s != []
    ensures Within(s, min, max) <==> forall v :: v in s ==> min <= v <= max
  {
    assert forall i :: 0 <= i < |s| ==> s[i] in s;
  }

  /* ---- Sunday ------------------------------------------------------------------------------- */

  /** Seven is Sunday too. */
  function Weekday(w: int): int {
    if w == 7 then 0 else w
  }

  /** The compaction writes the result over the list it reads: 7 becomes one 0 at its place. */
  method NormalizeWeekdays(dow: array<int>) returns (n: nat)
    requires Ascending(dow[..])
    modifies dow
    ensures n <= dow.Length
    ensures forall w :: w in dow[..n] <==> exists i :: 0 <= i < dow.Length && w == Weekday(old(dow[i]))
  {
    n := 0;
    var seenSun := false;
    var i := 0;
    ghost var was := dow[..];
    while i < dow.Length
      invariant 0 <= n <= i <= dow.Length
      invariant forall k :: i <= k < dow.Length ==> dow[k] == was[k]
      invariant seenSun ==> 0 in dow[..n]
      invariant forall w :: w in dow[..n] <==> exists k :: 0 <= k < i && w == Weekday(was[k])
    {
      ghost var before := dow[..n];
      if dow[i] == 7 {
        if !seenSun {
          dow[n] := 0;
          n := n + 1;
          seenSun := true;
          assert dow[..n] == before + [0];
        }
      } else {
        dow[n] := dow[i];
        n := n + 1;
        assert dow[..n] == before + [was[i]];
      }
      WeekdaysStep(was, before, dow[..n], i);
      i := i + 1;
    }
  }

  lemma WeekdaysStep(was: seq<int>, before: seq<int>, after: seq<int>, i: nat)
    requires i < |was|
    requires forall w :: w in before <==> exists k :: 0 <= k < i && w == Weekday(was[k])
    requires after == before + [Weekday(was[i])] || (after == before && Weekday(was[i]) in before)
    ensures forall w :: w in after <==> exists k :: 0 <= k < i + 1 && w == Weekday(was[k])
  {
    forall w
      ensures w in after <==> w in before || w == Weekday(was[i])
    {
    }
  }

  /* ---- The five fields ----------------------------------------------------------------------- */

  datatype Spec = Spec(minutes: seq<Item>, hours: seq<Item>, dom: seq<Item>, months: seq<Item>, dow: seq<Item>)

  predicate Parses(spec: Spec) {
    && spec.minutes != [] && AllAccepted(spec.minutes, 0, 59)
    && spec.hours != [] && AllAccepted(spec.hours, 0, 23)
    && spec.dom != [] && AllAccepted(spec.dom, 1, 31)
    && spec.months != [] && AllAccepted(spec.months, 1, 12)
    && spec.dow != [] && AllAccepted(spec.dow, 0, 7)
  }

  /** A bare star, the only element that counts as unrestricted. */
  const STAR := [Item(Star, false, None)]

  lemma StarListsAll(min: int, max: int, v: int)
    requires min <= v <= max
    ensures AllAccepted(STAR, min, max) && Listed(STAR, min, max, v)
  {
    assert Denotes(STAR[0], min, max, v);
  }

  /** Every step of every field fits. */
  predicate AllStepsFit(spec: Spec)
    requires Parses(spec)
  {
    && StepsFit(spec.minutes, 0, 59) && StepsFit(spec.hours, 0, 23) && StepsFit(spec.dom, 1, 31)
    && StepsFit(spec.months, 1, 12) && StepsFit(spec.dow, 0, 7)
  }

  /** What a schedule's lists hold when it means what the fields say. */
  ghost predicate Means(s: Schedule, spec: Spec)
    requires Parses(spec) && s.Fields?
  {
    && (forall v :: v in s.minutes <==> Listed(spec.minutes, 0, 59, v))
    && (forall v :: v in s.hours <==> Listed(spec.hours, 0, 23, v))
    && (forall v :: v in s.dom <==> Listed(spec.dom, 1, 31, v))
    && (forall v :: v in s.months <==> Listed(spec.months, 1, 12, v))
    && (forall w :: w in s.dow <==> exists v :: Listed(spec.dow, 0, 7, v) && w == Weekday(v))
  }

  /** `Parse`, for five fields: the schedule is valid, and then means what the fields list,
      exactly when every step fits. */
  method Parse(spec: Spec) returns (r: Option<Schedule>)
    ensures r.Some? <==> Parses(spec)
    ensures r.Some? ==> r.value.Fields? && r.value.domStar == (spec.dom == STAR) && r.value.dowStar == (spec.dow == STAR)
    ensures r.Some? ==> (Valid(r.value) <==> AllStepsFit(spec))
    ensures r.Some? && AllStepsFit(spec) ==> Means(r.value, spec)
  {
    var minutes := ParseField(spec.minutes, 0, 59);
    if minutes.None? { return None; }
    var hours := ParseField(spec.hours, 0, 23);
    if hours.None? { return None; }
    var dom := ParseField(spec.dom, 1, 31);
    if dom.None? { return None; }
    var months := ParseField(spec.months, 1, 12);
    if months.None? { return None; }
    var dow := ParseField(spec.dow, 0, 7);
    if dow.None? { return None; }
    var norm := Weekdays(dow.value);
    DaysOfStar(spec.dom, dom.value);
    WeekdaysOfStar(spec.dow, dow.value, norm);
    r := Some(Fields(minutes.value, hours.value, dom.value, months.value, norm, spec.dom == STAR, spec.dow == STAR));
  }

  lemma DaysOfStar(items: seq<Item>, dom: seq<int>)
    requires AllAccepted(items, 1, 31) && forall v :: v in dom <==> v in FieldValues(items, 1, 31)
    ensures items == STAR ==> forall d :: 1 <= d <= 31 ==> d in dom
  {
    if items == STAR {
      FieldIsExact(items, 1, 31);
      forall d | 1 <= d <= 31 ensures d in dom { StarListsAll(1, 31, d); }
    }
  }

  lemma WeekdaysOfStar(items: seq<Item>, dow: seq<int>, norm: seq<int>)
    requires AllAccepted(items, 0, 7) && forall v :: v in dow <==> v in FieldValues(items, 0, 7)
    requires forall w :: w in norm <==> exists v :: v in dow && w == Weekday(v)
    ensures items == STAR ==> forall w :: 0 <= w <= 6 ==> w in norm
  {
    if items == STAR {
      FieldIsExact(items, 0, 7);
      forall w | 0 <= w <= 6
        ensures w in norm
      {
        StarListsAll(0, 7, w);
        assert w in dow && w == Weekday(w);
      }
    }
  }

  method Weekdays(dow: seq<int>) returns (norm: seq<int>)
    requires Ascending(dow) && dow != []
    ensures forall w :: w in norm <==> exists v :: v in dow && w == Weekday(v)
    ensures Within(norm, 0, 6) <==> Within(dow, 0, 7)
  {
    var a := new int[|dow|](i requires 0 <= i < |dow| => dow[i]);
    assert a[..] == dow;
    var n := NormalizeWeekdays(a);
    norm := a[..n];
    WeekdaysMeet(dow, norm);
  }

  lemma WeekdaysMeet(dow: seq<int>, norm: seq<int>)
    requires dow != [] && forall w :: w in norm <==> exists i :: 0 <= i < |dow| && w == Weekday(dow[i])
    ensures forall w :: w in norm <==> exists v :: v in dow && w == Weekday(v)
    ensures Within(norm, 0, 6) <==> Within(dow, 0, 7)
  {
    assert forall i :: 0 <= i < |dow| ==> dow[i] in dow && Weekday(dow[i]) in norm;
    forall w | w in norm
      ensures exists v :: v in dow && w == Weekday(v)
    {
      var i :| 0 <= i < |dow| && w == Weekday(dow[i]);
      assert dow[i] in dow;
    }
    assert Weekday(dow[0]) in norm;
    MembersWithin(norm, 0, 6);
    MembersWithin(dow, 0, 7);
  }

  /* ---- Where the step wraps ------------------------------------------------------------------- */

  /** The hours of `5-10/9223372036854775807`. */
  const HUGE_STEP := Item(Range(Some(5), Some(10)), true, Some(9223372036854775807))

  /** It stands for 5 alone, but 3 and 1 are collected as well. */
  lemma HugeStepWraps()
    ensures Accepted(HUGE_STEP, 0, 23) && !StepFits(HUGE_STEP, 0, 23)
    ensures forall v :: Denotes(HUGE_STEP, 0, 23, v) <==> v == 5
    ensures Collected(HUGE_STEP, 0, 23) == {5, 4 - TWO63, 3, 2 - TWO63, 1, -TWO63, -1}
  {
    var step := TWO63 - 1;
    forall v
      ensures Denotes(HUGE_STEP, 0, 23, v) <==> v == 5
    {
      if 5 <= v <= 10 { Calendar.DivisionIsUnique(v - 5, step, 0, v - 5); }
    }
    assert Walk(TWO63 - 2, 10, step) == {};
    assert Walk(-1, 10, step) == {-1};
    assert Walk(-TWO63, 10, step) == {-TWO63, -1};
    assert Walk(1, 10, step) == {1, -TWO63, -1};
    assert Walk(2 - TWO63, 10, step) == {2 - TWO63, 1, -TWO63, -1};
    assert Walk(3, 10, step) == {3, 2 - TWO63, 1, -TWO63, -1};
    assert Walk(4 - TWO63, 10, step) == {4 - TWO63, 3, 2 - TWO63, 1, -TWO63, -1};
  }
}
