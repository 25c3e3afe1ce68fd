/** The menu file edited in place: the line slice, the index loops and the drop mask of
    internal/updatecore/bootloader.go, against the specification in `Grub` and `GrubPrune`. */
module GrubConfig {
  import opened Names
  import opened Grub
  import opened GrubPrune

  datatype Entry = Entry(info: Info, start: nat, end: nat)

  predicate IsStart(lines: seq<Line>, s: nat) {
    s < |lines| && lines[s].kind.MenuEntry?
  }

  /** The entry that starts at line `s`; `end` is its last line. */
  function EntryAt(lines: seq<Line>, s: nat): Entry
    requires IsStart(lines, s)
  {
    Entry(InfoOf(HeadBlock(lines[s..])), s, s + |Body(lines[s + 1..])|)
  }

  /** The menuentry lines at or after `from`, in order. */
  function StartsFrom(lines: seq<Line>, from: nat): (starts: seq<nat>)
    requires from <= |lines|
    ensures forall j :: 0 <= j < |starts| ==> from <= starts[j] && IsStart(lines, starts[j])
    ensures forall j, k :: 0 <= j < k < |starts| ==> starts[j] < starts[k]
    decreases |lines| - from
  {
    if from == |lines| then []
    else if lines[from].kind.MenuEntry? then [from] + StartsFrom(lines, from + 1)
    else StartsFrom(lines, from + 1)
  }

  /** Their entries. */
  function EntriesFrom(lines: seq<Line>, from: nat): (entries: seq<Entry>)
    requires from <= |lines|
    ensures |entries| == |StartsFrom(lines, from)|
    ensures forall j :: 0 <= j < |entries| ==> entries[j] == EntryAt(lines, StartsFrom(lines, from)[j])
    decreases |lines| - from
  {
    if from == |lines| then []
    else if lines[from].kind.MenuEntry? then [EntryAt(lines, from)] + EntriesFrom(lines, from + 1)
    else EntriesFrom(lines, from + 1)
  }

  lemma {:induction false} StartIsListed(lines: seq<Line>, from: nat, s: nat) returns (j: nat)
    requires from <= s && IsStart(lines, s)
    ensures j < |StartsFrom(lines, from)| && StartsFrom(lines, from)[j] == s
    decreases s - from
  {
    if from == s {
      j := 0;
    } else {
      j := StartIsListed(lines, from + 1, s);
      if lines[from].kind.MenuEntry? { j := j + 1; }
    }
  }

  /** Two neighbours in the list have no menuentry between them. */
  lemma NoStartBetween(lines: seq<Line>, n: nat, i: nat)
    requires n < |StartsFrom(lines, 0)|
    requires StartsFrom(lines, 0)[n] < i
    requires i < if n + 1 < |StartsFrom(lines, 0)| then StartsFrom(lines, 0)[n + 1] else |lines|
    ensures !lines[i].kind.MenuEntry?
  {
    var starts := StartsFrom(lines, 0);
    assert forall j :: 0 <= j <= n ==> starts[j] <= starts[n];
    assert forall j :: n + 1 <= j < |starts| ==> starts[n + 1] <= starts[j];
    if IsStart(lines, i) {
      var j := StartIsListed(lines, 0, i);
    }
  }

  lemma BodyStep(lines: seq<Line>, i: nat)
    requires i < |lines|
    ensures Body(lines[i..])
         == if lines[i].kind.MenuEntry? then [] else if lines[i].kind.Close? then [lines[i]]
            else [lines[i]] + Body(lines[i + 1..])
  {
    assert lines[i..][1..] == lines[i + 1..];
  }

  lemma {:induction false} BodyLength(lines: seq<Line>, from: nat, to: nat)
    requires from <= to <= |lines|
    requires forall i :: from <= i < to ==> !lines[i].kind.MenuEntry? && !lines[i].kind.Close?
    ensures |Body(lines[from..])| + from == to + |Body(lines[to..])|
    decreases |lines| - from
  {
    if from < to {
      BodyStep(lines, from);
      BodyLength(lines, from + 1, to);
    }
  }

  /** A block runs through its first closing brace, or up to the next menuentry line. */
  lemma EndOfBlock(lines: seq<Line>, s: nat, i: nat)
    requires s < i <= |lines| && (i < |lines| ==> lines[i].kind.Close? || lines[i].kind.MenuEntry?)
    requires forall k :: s < k < i ==> !lines[k].kind.MenuEntry? && !lines[k].kind.Close?
    ensures |Body(lines[s + 1..])| == if i < |lines| && lines[i].kind.Close? then i - s else i - s - 1
  {
    BodyLength(lines, s + 1, i);
    if i < |lines| { BodyStep(lines, i); }
  }

  lemma {:induction false} KernelInBody(lines: seq<Line>, from: nat, e: nat, k: nat)
    requires from <= k < e < |lines| && lines[e].kind.Close? && lines[k].kind.Linux?
    requires forall i :: from <= i < e ==> !lines[i].kind.MenuEntry? && !lines[i].kind.Close?
    requires forall i :: from <= i < k ==> !lines[i].kind.Linux?
    ensures FirstLinux(Body(lines[from..])) == lines[k].kind.kernel
    decreases k - from
  {
    BodyStep(lines, from);
    if from < k {
      KernelInBody(lines, from + 1, e, k);
      assert ([lines[from]] + Body(lines[from + 1..]))[1..] == Body(lines[from + 1..]);
    }
  }

  /** An entry runs from its menuentry line to the first closing brace, and its kernel is the
      first one named in between. */
  lemma EntryMeans(lines: seq<Line>, s: nat, e: nat, k: nat)
    requires IsStart(lines, s) && s < k < e < |lines| && lines[e].kind.Close? && lines[k].kind.Linux?
    requires forall i :: s < i < e ==> !lines[i].kind.MenuEntry? && !lines[i].kind.Close?
    requires forall i :: s < i < k ==> !lines[i].kind.Linux?
    ensures EntryAt(lines, s) == Entry(Info(lines[s].kind.title, lines[s].kind.id, lines[k].kind.kernel), s, e)
  {
    EndOfBlock(lines, s, e);
    KernelInBody(lines, s + 1, e, k);
    assert lines[s..][1..] == lines[s + 1..];
    assert HeadBlock(lines[s..])[1..] == Body(lines[s + 1..]);
  }

  /** What a prune takes away with an entry: its lines, and one blank line behind them. */
  lemma ExtentMeans(lines: seq<Line>, s: nat, e: nat)
    requires IsStart(lines, s) && s < e < |lines| && lines[e].kind.Close?
    requires forall i :: s < i < e ==> !lines[i].kind.MenuEntry? && !lines[i].kind.Close?
    ensures Extent(lines[s..]) == e + 1 - s + if e + 1 < |lines| && lines[e + 1].kind.Blank? then 1 else 0
  {
    EndOfBlock(lines, s, e);
    assert lines[s..][1..] == lines[s + 1..];
    assert e + 1 < |lines| ==> lines[s..][e + 1 - s] == lines[e + 1];
  }

  function InfosIn(entries: seq<Entry>): (infos: seq<Info>)
    ensures |infos| == |entries| && forall j :: 0 <= j < |infos| ==> infos[j] == entries[j].info
  {
    if entries == [] then [] else [entries[0].info] + InfosIn(entries[1..])
  }

  lemma {:induction false} EntriesAreInfos(lines: seq<Line>, from: nat)
    requires from <= |lines|
    ensures Infos(lines[from..]) == InfosIn(EntriesFrom(lines, from))
    decreases |lines| - from
  {
    if from < |lines| {
      var rest := lines[from..];
      assert rest[1..] == lines[from + 1..];
      EntriesAreInfos(lines, from + 1);
      if lines[from].kind.MenuEntry? {
        assert Blocks(rest) == [HeadBlock(rest)] + Blocks(rest[1..]);
        assert Blocks(rest)[1..] == Blocks(rest[1..]);
        assert EntriesFrom(lines, from)[1..] == EntriesFrom(lines, from + 1);
      }
    }
  }

  lemma AllEntriesAreInfos(lines: seq<Line>)
    ensures Infos(lines) == InfosIn(EntriesFrom(lines, 0))
  {
    assert lines[0..] == lines;
    EntriesAreInfos(lines, 0);
  }

  lemma HeadInfo(lines: seq<Line>, s: nat, end: nat)
    requires IsStart(lines, s) && s <= end < |lines| && end == s + |Body(lines[s + 1..])|
    ensures EntryAt(lines, s) == Entry(Info(lines[s].kind.title, lines[s].kind.id, FirstLinux(lines[s + 1..end + 1])), s, end)
  {
    assert lines[s..][1..] == lines[s + 1..];
    assert Body(lines[s + 1..]) == lines[s + 1..end + 1];
    assert HeadBlock(lines[s..])[1..] == lines[s + 1..end + 1];
  }

  /** The first `i` lines are rewritten, the others as they were. */
  ghost predicate Rewriting(was: seq<Line>, now: seq<Line>, id: string, i: nat) {
    && |now| == |was|
    && (forall k :: 0 <= k < |now| ==>
          now[k] == if k < i && was[k].kind.SetDefault? then DefaultLine(id) else was[k])
  }

  lemma RewriteStep(was: seq<Line>, now: seq<Line>, id: string, i: nat)
    requires i < |was| && Rewriting(was, now, id, i)
    ensures now[i] == was[i]
    ensures Rewriting(was, if was[i].kind.SetDefault? then now[i := DefaultLine(id)] else now, id, i + 1)
  {
  }

  lemma RewriteDone(was: seq<Line>, now: seq<Line>, id: string)
    requires Rewriting(was, now, id, |was|)
    ensures now == ReplaceDefaults(was, id)
  {
  }

  lemma HasOptsStep(lines: seq<Line>, i: nat)
    requires i < |lines|
    ensures HasOpts(lines[..i + 1]) == (HasOpts(lines[..i]) || lines[i].kind.SetOpts?)
  {
    assert forall k :: 0 <= k < i ==> lines[..i + 1][k] == lines[..i][k];
    assert lines[..i + 1][i] == lines[i];
  }

  class MenuFile {
    var lines: seq<Line>

    constructor (lines: seq<Line>)
      ensures this.lines == lines
    {
      this.lines := lines;
    }

    method Starts() returns (starts: seq<nat>)
      ensures starts == StartsFrom(lines, 0)
    {
      starts := [];
      var i := 0;
      while i < |lines|
        invariant 0 <= i <= |lines| && starts + StartsFrom(lines, i) == StartsFrom(lines, 0)
      {
        if lines[i].kind.MenuEntry? {
          starts := starts + [i];
        }
        i := i + 1;
      }
    }

    /** The last line of the block at `s`: its closing brace, or the line before `e`. */
    method FindEnd(s: nat, e: nat) returns (end: nat)
      requires IsStart(lines, s) && s < e <= |lines| && (e < |lines| ==> IsStart(lines, e))
      requires forall i :: s < i < e ==> !lines[i].kind.MenuEntry?
      ensures s <= end < |lines| && end == s + |Body(lines[s + 1..])|
    {
      var i := s + 1;
      while i < e
        invariant s < i <= e
        invariant forall k :: s < k < i ==> !lines[k].kind.Close?
      {
        if lines[i].kind.Close? {
          EndOfBlock(lines, s, i);
          return i;
        }
        i := i + 1;
      }
      EndOfBlock(lines, s, e);
      end := e - 1;
    }

    /** The first kernel path in lines `s` + 1 to `end`. */
    method FirstKernel(s: nat, end: nat) returns (linux: string)
      requires s <= end < |lines|
      ensures linux == FirstLinux(lines[s + 1..end + 1])
    {
      var i := s + 1;
      while i <= end
        invariant s < i <= end + 1 && FirstLinux(lines[s + 1..end + 1]) == FirstLinux(lines[i..end + 1])
      {
        assert lines[i..end + 1][1..] == lines[i + 1..end + 1];
        if lines[i].kind.Linux? {
          return lines[i].kind.kernel;
        }
        i := i + 1;
      }
      linux := "";
    }

    /** `parseGrubEntries` */
    method ParseEntries() returns (entries: seq<Entry>)
      ensures entries == EntriesFrom(lines, 0)
    {
      var starts := Starts();
      entries := [];
      var n := 0;
      while n < |starts|
        invariant 0 <= n == |entries| <= |starts|
        invariant forall j :: 0 <= j < n ==> entries[j] == EntryAt(lines, starts[j])
      {
        var s := starts[n];
        var e := if n + 1 < |starts| then starts[n + 1] else |lines|;
        forall i | s < i < e
          ensures !lines[i].kind.MenuEntry?
        {
          NoStartBetween(lines, n, i);
        }
        var end := FindEnd(s, e);
        var linux := FirstKernel(s, end);
        HeadInfo(lines, s, end);
        entries := entries + [Entry(Info(lines[s].kind.title, lines[s].kind.id, linux), s, end)];
        n := n + 1;
      }
    }

    /** The first `set default` line's value. */
    method DefaultSetting() returns (val: string)
      ensures val == DefaultValue(lines)
    {
      var i := 0;
      assert lines[0..] == lines;
      while i < |lines|
        invariant 0 <= i <= |lines| && DefaultValue(lines) == DefaultValue(lines[i..])
      {
        assert lines[i..][1..] == lines[i + 1..];
        if lines[i].kind.SetDefault? {
          return lines[i].kind.value;
        }
        i := i + 1;
      }
      val := "";
    }

    /** `grubDefault` */
    method CurrentDefault() returns (path: string)
      ensures path == Default(lines)
    {
      var entries := ParseEntries();
      AllEntriesAreInfos(lines);
      var val := DefaultSetting();
      if val == "" {
        return "";
      }
      var n := Atoi(val);
      if n.Some? {
        return if 0 <= n.value < |entries| then entries[n.value].info.linux else "";
      }
      path := LookUp(entries, val);
    }

    /** By id first, then by title. */
    static method LookUp(entries: seq<Entry>, val: string) returns (path: string)
      ensures path == ResolveName(InfosIn(entries), val)
    {
      ghost var infos := InfosIn(entries);
      var k := 0;
      assert infos[0..] == infos;
      while k < |entries|
        invariant 0 <= k <= |entries| && FirstById(infos, val) == FirstById(infos[k..], val)
      {
        assert infos[k..][1..] == infos[k + 1..];
        if entries[k].info.id != "" && entries[k].info.id == val {
          return entries[k].info.linux;
        }
        k := k + 1;
      }
      k := 0;
      while k < |entries|
        invariant 0 <= k <= |entries| && FirstByTitle(infos, val) == FirstByTitle(infos[k..], val)
      {
        assert infos[k..][1..] == infos[k + 1..];
        if entries[k].info.title == val {
          return entries[k].info.linux;
        }
        k := k + 1;
      }
      path := "";
    }

    method FindEntry(id: string) returns (found: bool)
      ensures found == HasKey(Infos(lines), id)
    {
      var entries := ParseEntries();
      AllEntriesAreInfos(lines);
      ghost var infos := Infos(lines);
      var k := 0;
      assert infos[0..] == infos;
      while k < |entries|
        invariant 0 <= k <= |entries| && HasKey(infos, id) == HasKey(infos[k..], id)
      {
        assert infos[k..][1..] == infos[k + 1..];
        if Key(entries[k].info) == id {
          return true;
        }
        k := k + 1;
      }
      found := false;
    }

    method FirstEntryIndex() returns (at: nat)
      ensures at == FirstEntry(lines)
    {
      at := 0;
      while at < |lines| && !lines[at].kind.MenuEntry?
        invariant at <= |lines| && forall i :: 0 <= i < at ==> !lines[i].kind.MenuEntry?
      {
        at := at + 1;
      }
    }

    /** Insert an entry for `path` before the first one, unless one is found. */
    method EnsureEntry(path: string)
      modifies this
      ensures lines == WithEntry(old(lines), path)
    {
      var found := FindEntry(KernelBasename(path));
      if !found {
        var at := FirstEntryIndex();
        var block := EntryBlock(path) + [BLANK_LINE];
        if at > 0 && !lines[at - 1].kind.Blank? {
          block := [BLANK_LINE] + block;
        }
        assert block == Spacer(lines) + EntryBlock(path) + [BLANK_LINE];
        lines := lines[..at] + block + lines[at..];
      }
    }

    /** Rewrite every `set default` line, and look for the options line on the way. */
    method RewriteDefaults(id: string) returns (done: bool, optsPresent: bool)
      modifies this
      ensures lines == ReplaceDefaults(old(lines), id)
      ensures done == (FirstDefault(old(lines)) < |old(lines)|) && optsPresent == HasOpts(old(lines))
    {
      ghost var was := lines;
      done, optsPresent := false, false;
      var i := 0;
      while i < |lines|
        invariant i <= |was| && Rewriting(was, lines, id, i) && done == (FirstDefault(was) < i) && optsPresent == HasOpts(was[..i])
      {
        RewriteStep(was, lines, id, i);
        HasOptsStep(was, i);
        if lines[i].kind.SetOpts? {
          optsPresent := true;
        }
        if lines[i].kind.SetDefault? {
          lines := lines[i := DefaultLine(id)];
          done := true;
        }
        i := i + 1;
      }
      assert was[..i] == was;
      RewriteDone(was, lines, id);
    }

    /** The options line goes before the first `set default` line. */
    method InsertOpts()
      requires FirstDefault(lines) < |lines|
      modifies this
      ensures lines == Splice(old(lines), FirstDefault(old(lines)), [OPTS_LINE])
    {
      var i := 0;
      while !lines[i].kind.SetDefault?
        invariant 0 <= i <= FirstDefault(lines) && lines == old(lines)
        decreases |lines| - i
      {
        i := i + 1;
      }
      lines := lines[..i] + [OPTS_LINE] + lines[i..];
    }

    /** `setGrubDefault` */
    method SetDefault(path: string)
      modifies this
      ensures lines == PointAt(old(lines), path)
    {
      var id := KernelBasename(path);
      EnsureEntry(path);
      ghost var l1 := lines;
      var done, optsPresent := RewriteDefaults(id);
      if !done {
        assert lines == l1;
        var at := FirstEntryIndex();
        if at == |lines| {
          at := 0;
        }
        lines := lines[..at] + [DefaultLine(id)] + lines[at..];
      }
      assert lines == WithDefault(l1, id);
      WithDefaultDefaults(l1, id);
      if !optsPresent {
        InsertOpts();
      }
    }

    /** Mark one block, with the blank line after it. */
    method MarkExtent(drop: array<bool>, e: Entry)
      requires drop.Length == |lines| && IsStart(lines, e.start) && e == EntryAt(lines, e.start)
      modifies drop
      ensures forall i :: 0 <= i < |lines| ==> drop[i] == (old(drop[i]) || Covers(lines, e.start, i))
    {
      assert lines[e.start..][1..] == lines[e.start + 1..];
      var end := e.end;
      if end + 1 < |lines| && lines[end + 1].kind.Blank? {
        end := end + 1;
      }
      assert end + 1 == e.start + Extent(lines[e.start..]);
      var i := e.start;
      while i <= end
        invariant e.start <= i <= end + 1 <= |lines|
        invariant forall k :: 0 <= k < |lines| ==> drop[k] == (old(drop[k]) || e.start <= k < i)
      {
        drop[i] := true;
        i := i + 1;
      }
    }

    /** Mark entry `n` when it is stale. */
    method MarkEntry(drop: array<bool>, entries: seq<Entry>, n: nat, gone: bool, ghost stale: Verdict)
      requires drop.Length == |lines| && n < |entries| && entries == EntriesFrom(lines, 0)
      requires MaskUpTo(lines, entries, stale, drop[..], n) && gone == stale(entries[n].info)
      modifies drop
      ensures MaskUpTo(lines, entries, stale, drop[..], n + 1) && (!gone ==> drop[..] == old(drop[..]))
    {
      if gone {
        MarkExtent(drop, entries[n]);
      }
    }

    /** Mark every stale block, and count them. */
    method MarkStale(drop: array<bool>, flavor: string, present: set<string>) returns (pruned: nat)
      requires drop.Length == |lines| && NothingMarked(drop[..])
      modifies drop
      ensures IsMask(lines, FileVerdict(lines, flavor, present), drop[..])
      ensures pruned == 0 ==> NothingMarked(drop[..])
    {
      var def := CurrentDefault();
      var protectedId := if def == "" then "" else KernelBasename(def);
      pruned := MarkEntries(drop, VerdictOf(protectedId, flavor, present));
    }

    method MarkEntries(drop: array<bool>, stale: Verdict) returns (pruned: nat)
      requires drop.Length == |lines| && NothingMarked(drop[..])
      modifies drop
      ensures IsMask(lines, stale, drop[..])
      ensures pruned == 0 ==> NothingMarked(drop[..])
    {
      var entries := ParseEntries();
      pruned := 0;
      var n := 0;
      UnmarkedMask(lines, entries, stale, drop[..]);
      while n < |entries|
        invariant 0 <= n <= |entries|
        invariant MaskUpTo(lines, entries, stale, drop[..], n)
        invariant pruned == 0 ==> NothingMarked(drop[..])
      {
        var gone := stale(entries[n].info);
        MarkEntry(drop, entries, n, gone, stale);
        if gone {
          pruned := pruned + 1;
        }
        n := n + 1;
      }
    }

    /** Copy the lines that are not marked. */
    method CopyKept(drop: array<bool>) returns (out: seq<Line>)
      requires drop.Length == |lines|
      ensures out == Kept(lines, drop[..])
    {
      out := [];
      var i := 0;
      assert lines[0..] == lines && drop[0..] == drop[..];
      while i < |lines|
        invariant 0 <= i <= |lines| && out + Kept(lines[i..], drop[i..]) == Kept(lines, drop[..])
      {
        assert lines[i..][1..] == lines[i + 1..] && drop[i..][1..] == drop[i + 1..];
        if !drop[i] {
          out := out + [lines[i]];
        }
        i := i + 1;
      }
    }

    /** `pruneGrubFile`: nothing is written when nothing is stale. */
    method Prune(flavor: string, present: set<string>) returns (pruned: nat)
      modifies this
      ensures lines == GrubPrune.Prune(old(lines), FileVerdict(old(lines), flavor, present))
      ensures pruned == 0 ==> lines == old(lines)
    {
      var drop := new bool[|lines|](_ => false);
      pruned := MarkStale(drop, flavor, present);
      MaskIsPrune(lines, FileVerdict(lines, flavor, present), drop[..]);
      if pruned > 0 {
        lines := CopyKept(drop);
      } else {
        KeptAll(lines, drop[..]);
      }
    }
  }

  /* ---- The mask and the specification ----------------------------------------------------- */

  /** Line `i` belongs to what the block at `s` takes with it. */
  predicate Covers(lines: seq<Line>, s: nat, i: nat) {
    IsStart(lines, s) && s <= i < Reach(lines, s)
  }

  /** The line after what the block at `s` takes with it. */
  function Reach(lines: seq<Line>, s: nat): (e: nat)
    requires s < |lines|
    ensures s < e <= |lines|
  {
    s + Extent(lines[s..])
  }

  /** One of the first `n` entries is stale and takes line `i` with it. */
  predicate Marked(lines: seq<Line>, entries: seq<Entry>, stale: Verdict, n: nat, i: nat)
    requires n <= |entries|
  {
    n > 0 && ((stale(entries[n - 1].info) && Covers(lines, entries[n - 1].start, i)) || Marked(lines, entries, stale, n - 1, i))
  }

  lemma {:induction false} MarkedBy(lines: seq<Line>, entries: seq<Entry>, stale: Verdict, n: nat, k: nat, i: nat)
    requires k < n <= |entries| && stale(entries[k].info) && Covers(lines, entries[k].start, i)
    ensures Marked(lines, entries, stale, n, i)
  {
    if k < n - 1 { MarkedBy(lines, entries, stale, n - 1, k, i); }
  }

  lemma {:induction false} MarkedWitness(lines: seq<Line>, entries: seq<Entry>, stale: Verdict, n: nat, i: nat) returns (k: nat)
    requires n <= |entries| && Marked(lines, entries, stale, n, i)
    ensures k < n && stale(entries[k].info) && Covers(lines, entries[k].start, i)
  {
    k := n - 1;
    if !(stale(entries[k].info) && Covers(lines, entries[k].start, i)) {
      k := MarkedWitness(lines, entries, stale, n - 1, i);
    }
  }

  predicate NothingMarked(drop: seq<bool>) {
    forall i :: 0 <= i < |drop| ==> !drop[i]
  }

  function Kept(lines: seq<Line>, drop: seq<bool>): seq<Line>
    requires |lines| == |drop|
  {
    if lines == [] then []
    else if drop[0] then Kept(lines[1..], drop[1..])
    else [lines[0]] + Kept(lines[1..], drop[1..])
  }

  lemma {:induction false} KeptSkips(lines: seq<Line>, drop: seq<bool>, n: nat)
    requires |lines| == |drop| && n <= |lines| && forall i :: 0 <= i < n ==> drop[i]
    ensures Kept(lines, drop) == Kept(lines[n..], drop[n..])
  {
    if n > 0 {
      KeptSkips(lines[1..], drop[1..], n - 1);
      assert lines[1..][n - 1..] == lines[n..] && drop[1..][n - 1..] == drop[n..];
    }
  }

  lemma {:induction false} KeptAll(lines: seq<Line>, drop: seq<bool>)
    requires |lines| == |drop| && NothingMarked(drop)
    ensures Kept(lines, drop) == lines
  {
    if lines != [] {
      KeptAll(lines[1..], drop[1..]);
      assert lines == [lines[0]] + lines[1..];
    }
  }

  /** No block starts inside another one's extent. */
  lemma NoStartInside(lines: seq<Line>, s: nat, t: nat)
    requires Covers(lines, s, t) && s < t
    ensures !IsStart(lines, t)
  {
    assert lines[s..][1..] == lines[s + 1..];
    var body := Body(lines[s + 1..]);
    BodyHasNoEntry(lines[s + 1..]);
    if t - s - 1 < |body| {
      assert lines[t] == lines[s + 1..][t - s - 1] == body[t - s - 1];
    } else {
      assert lines[t] == lines[s..][1 + |body|];
    }
  }

  /** The mask says which lines a stale block among the first `n` covers. */
  ghost predicate MaskUpTo(lines: seq<Line>, entries: seq<Entry>, stale: Verdict, drop: seq<bool>, n: nat) {
    && |drop| == |lines| && n <= |entries|
    && forall i :: 0 <= i < |lines| ==> drop[i] == Marked(lines, entries, stale, n, i)
  }

  lemma UnmarkedMask(lines: seq<Line>, entries: seq<Entry>, stale: Verdict, drop: seq<bool>)
    requires |drop| == |lines| && NothingMarked(drop)
    ensures MaskUpTo(lines, entries, stale, drop, 0)
  {
  }

  ghost predicate IsMask(lines: seq<Line>, stale: Verdict, drop: seq<bool>) {
    MaskUpTo(lines, EntriesFrom(lines, 0), stale, drop, |EntriesFrom(lines, 0)|)
  }

  /** No stale block from before `from` reaches it. */
  ghost predicate Clear(lines: seq<Line>, stale: Verdict, from: nat) {
    forall s: nat :: s < from && IsStart(lines, s) && stale(EntryAt(lines, s).info) ==> Reach(lines, s) <= from
  }

  lemma StaleCovers(lines: seq<Line>, stale: Verdict, drop: seq<bool>, s: nat, i: nat)
    requires IsMask(lines, stale, drop)
    requires Covers(lines, s, i) && stale(EntryAt(lines, s).info)
    ensures i < |lines| && drop[i]
  {
    var entries := EntriesFrom(lines, 0);
    var k := StartIsListed(lines, 0, s);
    MarkedBy(lines, entries, stale, |entries|, k, i);
  }

  lemma UnmarkedAt(lines: seq<Line>, stale: Verdict, drop: seq<bool>, i: nat)
    requires IsMask(lines, stale, drop) && Clear(lines, stale, i) && i < |lines|
    requires IsStart(lines, i) ==> !stale(EntryAt(lines, i).info)
    ensures !drop[i] && Clear(lines, stale, i + 1)
  {
    UnmarkedBy(lines, stale, |EntriesFrom(lines, 0)|, i);
  }

  lemma {:induction false} UnmarkedBy(lines: seq<Line>, stale: Verdict, n: nat, i: nat)
    requires n <= |EntriesFrom(lines, 0)| && Clear(lines, stale, i)
    requires IsStart(lines, i) ==> !stale(EntryAt(lines, i).info)
    ensures !Marked(lines, EntriesFrom(lines, 0), stale, n, i)
  {
    if n > 0 {
      UnmarkedBy(lines, stale, n - 1, i);
      var s := StartsFrom(lines, 0)[n - 1];
      assert EntriesFrom(lines, 0)[n - 1] == EntryAt(lines, s);
      StaleStopsShort(lines, stale, s, i);
    }
  }

  lemma StaleStopsShort(lines: seq<Line>, stale: Verdict, s: nat, i: nat)
    requires Clear(lines, stale, i) && IsStart(lines, s)
    requires IsStart(lines, i) ==> !stale(EntryAt(lines, i).info)
    ensures !(stale(EntryAt(lines, s).info) && Covers(lines, s, i))
  {
    assert s < i && stale(EntryAt(lines, s).info) ==> Reach(lines, s) <= i;
  }

  lemma ClearAfter(lines: seq<Line>, stale: Verdict, s: nat)
    requires IsStart(lines, s) && Clear(lines, stale, s)
    ensures Clear(lines, stale, Reach(lines, s))
  {
    var to := Reach(lines, s);
    forall t: nat | t < to && IsStart(lines, t) && stale(EntryAt(lines, t).info)
      ensures Reach(lines, t) <= to
    {
      if s < t { NoStartInside(lines, s, t); }
    }
  }

  lemma KeptPassesStale(lines: seq<Line>, stale: Verdict, drop: seq<bool>, s: nat)
    requires IsMask(lines, stale, drop) && IsStart(lines, s) && stale(EntryAt(lines, s).info)
    ensures |drop| == |lines| && Kept(lines[s..], drop[s..]) == Kept(lines[Reach(lines, s)..], drop[Reach(lines, s)..])
  {
    var e := Reach(lines, s);
    forall i | s <= i < e
      ensures i < |drop| && drop[i]
    {
      StaleCovers(lines, stale, drop, s, i);
    }
    KeptSkips(lines[s..], drop[s..], e - s);
    assert lines[s..][e - s..] == lines[e..] && drop[s..][e - s..] == drop[e..];
  }

  lemma PrunePassesStale(lines: seq<Line>, stale: Verdict, s: nat)
    requires IsStart(lines, s) && stale(EntryAt(lines, s).info)
    ensures GrubPrune.Prune(lines[s..], stale) == GrubPrune.Prune(lines[Reach(lines, s)..], stale)
  {
    assert lines[s..][Extent(lines[s..])..] == lines[Reach(lines, s)..];
  }

  lemma KeptStep(lines: seq<Line>, stale: Verdict, drop: seq<bool>, i: nat)
    requires |drop| == |lines| && i < |lines| && !drop[i]
    requires IsStart(lines, i) ==> !stale(EntryAt(lines, i).info)
    ensures Kept(lines[i..], drop[i..]) == [lines[i]] + Kept(lines[i + 1..], drop[i + 1..])
    ensures GrubPrune.Prune(lines[i..], stale) == [lines[i]] + GrubPrune.Prune(lines[i + 1..], stale)
  {
    assert lines[i..][1..] == lines[i + 1..] && drop[i..][1..] == drop[i + 1..];
  }

  /** From any line that no earlier stale block reaches, filtering by the mask is pruning. */
  lemma {:induction false} MaskIsPruneFrom(lines: seq<Line>, stale: Verdict, drop: seq<bool>, from: nat)
    requires IsMask(lines, stale, drop) && from <= |lines| && Clear(lines, stale, from)
    ensures Kept(lines[from..], drop[from..]) == GrubPrune.Prune(lines[from..], stale)
    decreases |lines| - from
  {
    if from < |lines| {
      if IsStart(lines, from) && stale(EntryAt(lines, from).info) {
        KeptPassesStale(lines, stale, drop, from);
        PrunePassesStale(lines, stale, from);
        ClearAfter(lines, stale, from);
        MaskIsPruneFrom(lines, stale, drop, Reach(lines, from));
      } else {
        UnmarkedAt(lines, stale, drop, from);
        KeptStep(lines, stale, drop, from);
        MaskIsPruneFrom(lines, stale, drop, from + 1);
      }
    }
  }

  lemma MaskIsPrune(lines: seq<Line>, stale: Verdict, drop: seq<bool>)
    requires IsMask(lines, stale, drop)
    ensures Kept(lines, drop) == GrubPrune.Prune(lines, stale)
  {
    MaskIsPruneFrom(lines, stale, drop, 0);
    assert lines[0..] == lines && drop[0..] == drop;
  }

  /** A stale block takes line `i` with it. */
  ghost predicate Goes(lines: seq<Line>, stale: Verdict, i: nat) {
    exists s: nat :: Covers(lines, s, i) && stale(EntryAt(lines, s).info)
  }

  ghost function StaleExtents(lines: seq<Line>, stale: Verdict): (drop: seq<bool>)
    ensures |drop| == |lines|
  {
    seq(|lines|, i requires 0 <= i < |lines| => Goes(lines, stale, i))
  }

  lemma GoesIsMarked(lines: seq<Line>, stale: Verdict, i: nat)
    ensures Goes(lines, stale, i) <==> Marked(lines, EntriesFrom(lines, 0), stale, |EntriesFrom(lines, 0)|, i)
  {
    var entries := EntriesFrom(lines, 0);
    if Goes(lines, stale, i) {
      var s: nat :| Covers(lines, s, i) && stale(EntryAt(lines, s).info);
      var k := StartIsListed(lines, 0, s);
      MarkedBy(lines, entries, stale, |entries|, k, i);
    }
    if Marked(lines, entries, stale, |entries|, i) {
      var k := MarkedWitness(lines, entries, stale, |entries|, i);
      assert entries[k] == EntryAt(lines, StartsFrom(lines, 0)[k]);
    }
  }

  /** A prune takes away exactly the lines of the stale blocks, each from its menuentry line
      through its closing brace and one blank line after that. */
  lemma ExactlyStaleExtentsGo(lines: seq<Line>, stale: Verdict)
    ensures GrubPrune.Prune(lines, stale) == Kept(lines, StaleExtents(lines, stale))
  {
    forall i: nat | i < |lines|
      ensures StaleExtents(lines, stale)[i] == Marked(lines, EntriesFrom(lines, 0), stale, |EntriesFrom(lines, 0)|, i)
    {
      GoesIsMarked(lines, stale, i);
    }
    MaskIsPrune(lines, stale, StaleExtents(lines, stale));
  }
}
