/** Pruning the menu entries of kernels that are gone (`pruneGrubEntries`, `pruneGrubFile`,
    internal/updatecore/bootloader.go): what the machine boots stays what it was. */
module GrubPrune {
  import opened Wrappers
  import opened Names
  import opened Grub

  /** An entry goes when it names one of our kernels, of this flavor, whose file is gone, and
      is not the protected one. */
  predicate Stale(info: Info, protectedId: string, flavor: string, present: set<string>) {
    && Fold(Key(info)) != Fold(protectedId)
    && info.linux != ""
    && ParseStored(Base(info.linux)).Some? && ParseStored(Base(info.linux)).value.1 == flavor
    && Base(info.linux) !in present
  }

  type Verdict = Info -> bool

  function VerdictOf(protectedId: string, flavor: string, present: set<string>): Verdict {
    (info: Info) => Stale(info, protectedId, flavor, present)
  }

  function ProtectedId(def: string): string {
    if def == "" then "" else KernelBasename(def)
  }

  /** The verdict `pruneGrubFile` reaches: the current default's kernel is protected. */
  function FileVerdict(lines: seq<Line>, flavor: string, present: set<string>): Verdict {
    VerdictOf(ProtectedId(Default(lines)), flavor, present)
  }

  /** How many lines a block starting at the head of `lines` takes with it: through its
      closing brace, and one blank line after that. */
  function Extent(lines: seq<Line>): (n: nat)
    requires lines != []
    ensures 1 <= n <= |lines|
  {
    var end := 1 + |Body(lines[1..])|;
    if end < |lines| && lines[end].kind.Blank? then end + 1 else end
  }

  function HeadBlock(lines: seq<Line>): Block
    requires lines != [] && lines[0].kind.MenuEntry?
  {
    [lines[0]] + Body(lines[1..])
  }

  function Prune(lines: seq<Line>, stale: Verdict): seq<Line> {
    if lines == [] then []
    else if lines[0].kind.MenuEntry? && stale(InfoOf(HeadBlock(lines))) then Prune(lines[Extent(lines)..], stale)
    else [lines[0]] + Prune(lines[1..], stale)
  }

  function Surviving(bs: seq<Block>, stale: Verdict): seq<Block> {
    if bs == [] then []
    else if stale(InfoOf(bs[0])) then Surviving(bs[1..], stale)
    else [bs[0]] + Surviving(bs[1..], stale)
  }

  /** A closing brace comes before the next menuentry. */
  predicate Closes(lines: seq<Line>) {
    lines != [] && (lines[0].kind.Close? || (!lines[0].kind.MenuEntry? && Closes(lines[1..])))
  }

  predicate AllClosed(lines: seq<Line>) {
    lines != [] ==> (lines[0].kind.MenuEntry? ==> Closes(lines[1..])) && AllClosed(lines[1..])
  }

  /** The lines that belong to no block. */
  function Globals(lines: seq<Line>): seq<Line>
    decreases |lines|
  {
    if lines == [] then []
    else if lines[0].kind.MenuEntry? then Globals(lines[1 + |Body(lines[1..])|..])
    else [lines[0]] + Globals(lines[1..])
  }

  function NonBlank(lines: seq<Line>): seq<Line> {
    if lines == [] then []
    else if lines[0].kind.Blank? then NonBlank(lines[1..])
    else [lines[0]] + NonBlank(lines[1..])
  }

  /* ---- Skipping over a block ------------------------------------------------------------- */

  lemma {:induction false} BodyHasNoEntry(lines: seq<Line>)
    ensures forall i :: 0 <= i < |Body(lines)| ==> !Body(lines)[i].kind.MenuEntry?
    ensures Closes(lines) ==> Body(lines) != [] && Body(lines)[|Body(lines)| - 1].kind.Close?
    ensures Closes(lines) ==> forall i :: 0 <= i < |Body(lines)| - 1 ==> !Body(lines)[i].kind.Close?
  {
    if lines != [] && !lines[0].kind.MenuEntry? && !lines[0].kind.Close? {
      BodyHasNoEntry(lines[1..]);
    }
  }

  lemma {:induction false} DropNonEntries(lines: seq<Line>, n: nat)
    requires n <= |lines| && forall i :: 0 <= i < n ==> !lines[i].kind.MenuEntry?
    ensures Blocks(lines[n..]) == Blocks(lines)
    ensures AllClosed(lines) ==> AllClosed(lines[n..])
  {
    if n > 0 {
      DropNonEntries(lines[1..], n - 1);
      assert lines[1..][n - 1..] == lines[n..];
    }
  }

  lemma BodyIsPlain(lines: seq<Line>)
    ensures forall i :: 0 <= i < |Body(lines)| ==> !lines[i].kind.MenuEntry?
  {
    BodyHasNoEntry(lines);
    forall i | 0 <= i < |Body(lines)|
      ensures !lines[i].kind.MenuEntry?
    {
      assert lines[i] == Body(lines)[i];
    }
  }

  /** Dropping a block through its extent drops it alone. */
  lemma ExtentSkipsOneBlock(lines: seq<Line>)
    requires lines != [] && lines[0].kind.MenuEntry?
    ensures Blocks(lines[Extent(lines)..]) == Blocks(lines)[1..]
    ensures AllClosed(lines) ==> AllClosed(lines[Extent(lines)..])
  {
    var n, rest := Extent(lines), lines[1..];
    BodyIsPlain(rest);
    assert n - 1 == |Body(rest)| + 1 ==> rest[n - 2] == lines[n - 1];
    DropNonEntries(rest, n - 1);
    assert rest[n - 1..] == lines[n..];
    assert Blocks(lines)[1..] == Blocks(rest);
  }

  /* ---- What pruning keeps ---------------------------------------------------------------- */

  /** Up to its closing brace a block's body is out of pruning's reach. */
  lemma {:induction false} PruneKeepsBody(lines: seq<Line>, stale: Verdict)
    requires Closes(lines)
    ensures Body(Prune(lines, stale)) == Body(lines) && Closes(Prune(lines, stale))
  {
    if !lines[0].kind.Close? {
      PruneKeepsBody(lines[1..], stale);
      assert Prune(lines, stale)[1..] == Prune(lines[1..], stale);
    }
  }

  /** The blocks that stay are the ones not stale, verbatim and in order. */
  lemma {:induction false} PruneKeepsBlocks(lines: seq<Line>, stale: Verdict)
    requires AllClosed(lines)
    ensures Blocks(Prune(lines, stale)) == Surviving(Blocks(lines), stale)
    ensures AllClosed(Prune(lines, stale))
    decreases |lines|
  {
    if lines == [] {
    } else if lines[0].kind.MenuEntry? && stale(InfoOf(HeadBlock(lines))) {
      ExtentSkipsOneBlock(lines);
      PruneKeepsBlocks(lines[Extent(lines)..], stale);
    } else {
      PruneKeepsBlocks(lines[1..], stale);
      assert Prune(lines, stale)[1..] == Prune(lines[1..], stale);
      if lines[0].kind.MenuEntry? {
        PruneKeepsBody(lines[1..], stale);
        assert Blocks(lines) == [HeadBlock(lines)] + Blocks(lines[1..]);
        assert Blocks(lines)[1..] == Blocks(lines[1..]);
      }
    }
  }

  predicate NothingStale(lines: seq<Line>, stale: Verdict) {
    forall i :: 0 <= i < |Blocks(lines)| ==> !stale(InfoOf(Blocks(lines)[i]))
  }

  lemma NothingStaleBehind(lines: seq<Line>, stale: Verdict)
    requires lines != [] && NothingStale(lines, stale)
    ensures NothingStale(lines[1..], stale) && (lines[0].kind.MenuEntry? ==> !stale(InfoOf(HeadBlock(lines))))
  {
    if lines[0].kind.MenuEntry? {
      assert Blocks(lines) == [HeadBlock(lines)] + Blocks(lines[1..]);
      assert !stale(InfoOf(Blocks(lines)[0]));
      assert forall i :: 0 <= i < |Blocks(lines[1..])| ==> Blocks(lines[1..])[i] == Blocks(lines)[i + 1];
    }
  }

  /** With nothing stale there is nothing to do. */
  lemma {:induction false} NothingStaleNothingPruned(lines: seq<Line>, stale: Verdict)
    requires NothingStale(lines, stale)
    ensures Prune(lines, stale) == lines
  {
    if lines != [] {
      NothingStaleBehind(lines, stale);
      NothingStaleNothingPruned(lines[1..], stale);
      assert Prune(lines, stale) == [lines[0]] + Prune(lines[1..], stale);
    }
  }

  lemma {:induction false} SurvivorsAreNotStale(bs: seq<Block>, stale: Verdict)
    ensures forall i :: 0 <= i < |Surviving(bs, stale)| ==> !stale(InfoOf(Surviving(bs, stale)[i]))
  {
    if bs != [] {
      SurvivorsAreNotStale(bs[1..], stale);
    }
  }

  /** A second prune finds nothing. */
  lemma PruneIsIdempotent(lines: seq<Line>, stale: Verdict)
    requires AllClosed(lines)
    ensures Prune(Prune(lines, stale), stale) == Prune(lines, stale)
  {
    PruneKeepsBlocks(lines, stale);
    SurvivorsAreNotStale(Blocks(lines), stale);
    NothingStaleNothingPruned(Prune(lines, stale), stale);
  }

  lemma {:induction false} GlobalsSkip(lines: seq<Line>, n: nat)
    requires n <= |lines| && forall i :: 0 <= i < n ==> lines[i].kind.Blank?
    ensures NonBlank(Globals(lines[n..])) == NonBlank(Globals(lines))
  {
    if n > 0 {
      GlobalsSkip(lines[1..], n - 1);
      assert lines[1..][n - 1..] == lines[n..];
      assert Globals(lines)[1..] == Globals(lines[1..]);
    }
  }

  lemma GlobalsBehindExtent(lines: seq<Line>)
    requires lines != [] && lines[0].kind.MenuEntry?
    ensures NonBlank(Globals(lines[Extent(lines)..])) == NonBlank(Globals(lines))
  {
    var end, n := 1 + |Body(lines[1..])|, Extent(lines);
    GlobalsSkip(lines[end..], n - end);
    assert lines[end..][n - end..] == lines[n..];
  }

  /** A block that stays hides the same globals before and after. */
  lemma GlobalsBehindBlock(lines: seq<Line>, stale: Verdict)
    requires lines != [] && lines[0].kind.MenuEntry? && AllClosed(lines) && !stale(InfoOf(HeadBlock(lines)))
    ensures var end := 1 + |Body(lines[1..])|;
            && AllClosed(lines[end..]) && Globals(lines) == Globals(lines[end..])
            && Globals(Prune(lines, stale)) == Globals(Prune(lines[end..], stale))
  {
    var end := 1 + |Body(lines[1..])|;
    PruneKeepsBody(lines[1..], stale);
    PruneSkipsBody(lines[1..], stale);
    BodyIsPlain(lines[1..]);
    DropNonEntries(lines[1..], end - 1);
    assert lines[1..][end - 1..] == lines[end..];
    assert Prune(lines, stale)[1..] == Prune(lines[1..], stale);
    assert Prune(lines, stale)[end..] == Prune(lines[1..], stale)[end - 1..];
  }

  /** The blank lines that go with stale blocks. */
  function BlanksGone(lines: seq<Line>, stale: Verdict): seq<Line>
    decreases |lines|
  {
    if lines == [] then []
    else if lines[0].kind.MenuEntry? && stale(InfoOf(HeadBlock(lines))) then
      lines[1 + |Body(lines[1..])|..Extent(lines)] + BlanksGone(lines[Extent(lines)..], stale)
    else BlanksGone(lines[1..], stale)
  }

  lemma {:induction false} BlanksBehind(lines: seq<Line>, stale: Verdict, n: nat)
    requires n <= |lines| && forall i :: 0 <= i < n ==> !lines[i].kind.MenuEntry?
    ensures BlanksGone(lines, stale) == BlanksGone(lines[n..], stale)
  {
    if n > 0 {
      BlanksBehind(lines[1..], stale, n - 1);
      assert lines[1..][n - 1..] == lines[n..];
    }
  }

  lemma GlobalsAtPlain(lines: seq<Line>, i: nat)
    requires i < |lines| && !lines[i].kind.MenuEntry?
    ensures Globals(lines[i..]) == [lines[i]] + Globals(lines[i + 1..])
  {
    assert lines[i..][1..] == lines[i + 1..];
  }

  /** The block that goes takes no global with it but the blank line behind it. */
  lemma GlobalsBehindStale(lines: seq<Line>)
    requires lines != [] && lines[0].kind.MenuEntry?
    ensures Globals(lines) == lines[1 + |Body(lines[1..])|..Extent(lines)] + Globals(lines[Extent(lines)..])
  {
    var end, n := 1 + |Body(lines[1..])|, Extent(lines);
    assert Globals(lines) == Globals(lines[end..]);
    if n > end {
      GlobalsAtPlain(lines, end);
      assert lines[end..n] == [lines[end]];
    } else {
      assert lines[end..n] == [];
    }
  }

  /** What goes with the stale block at the head, and what is left to do. */
  lemma StaleHead(lines: seq<Line>, stale: Verdict)
    requires AllClosed(lines) && lines != [] && lines[0].kind.MenuEntry? && stale(InfoOf(HeadBlock(lines)))
    ensures var blank, rest := lines[1 + |Body(lines[1..])|..Extent(lines)], lines[Extent(lines)..];
            && |rest| < |lines| && AllClosed(rest)
            && Globals(lines) == blank + Globals(rest) && Prune(lines, stale) == Prune(rest, stale)
            && BlanksGone(lines, stale) == blank + BlanksGone(rest, stale)
  {
    ExtentSkipsOneBlock(lines);
    GlobalsBehindStale(lines);
  }

  lemma StayingHead(lines: seq<Line>, stale: Verdict)
    requires AllClosed(lines) && lines != [] && lines[0].kind.MenuEntry? && !stale(InfoOf(HeadBlock(lines)))
    ensures var rest := lines[1 + |Body(lines[1..])|..];
            && |rest| < |lines| && AllClosed(rest)
            && Globals(lines) == Globals(rest) && Globals(Prune(lines, stale)) == Globals(Prune(rest, stale))
            && BlanksGone(lines, stale) == BlanksGone(rest, stale)
  {
    var end := 1 + |Body(lines[1..])|;
    GlobalsBehindBlock(lines, stale);
    BodyHasNoEntry(lines[1..]);
    BlanksBehind(lines[1..], stale, end - 1);
    assert lines[1..][end - 1..] == lines[end..];
  }

  lemma GlobalsBefore(lines: seq<Line>, stale: Verdict)
    requires lines != [] && !lines[0].kind.MenuEntry?
    ensures Globals(lines) == [lines[0]] + Globals(lines[1..])
    ensures Globals(Prune(lines, stale)) == [lines[0]] + Globals(Prune(lines[1..], stale))
  {
    assert Prune(lines, stale)[1..] == Prune(lines[1..], stale);
  }

  lemma CountBehind(front: seq<Line>, a: seq<Line>, b: seq<Line>, c: seq<Line>)
    requires multiset(a) == multiset(b) + multiset(c)
    ensures multiset(front + a) == multiset(front + b) + multiset(c)
    ensures multiset(front + a) == multiset(b) + multiset(front + c)
  {
  }

  predicate Counted(lines: seq<Line>, stale: Verdict) {
    multiset(Globals(lines)) == multiset(Globals(Prune(lines, stale))) + multiset(BlanksGone(lines, stale))
  }

  lemma CountedBefore(lines: seq<Line>, stale: Verdict)
    requires lines != [] && !lines[0].kind.MenuEntry? && Counted(lines[1..], stale)
    ensures Counted(lines, stale)
  {
    var rest := lines[1..];
    GlobalsBefore(lines, stale);
    assert BlanksGone(lines, stale) == BlanksGone(rest, stale);
    CountBehind([lines[0]], Globals(rest), Globals(Prune(rest, stale)), BlanksGone(rest, stale));
  }

  lemma CountedBehindStale(lines: seq<Line>, stale: Verdict, rest: seq<Line>)
    requires AllClosed(lines) && lines != [] && lines[0].kind.MenuEntry? && stale(InfoOf(HeadBlock(lines)))
    requires Extent(lines) <= |lines| && rest == lines[Extent(lines)..] && Counted(rest, stale)
    ensures Counted(lines, stale)
  {
    StaleHead(lines, stale);
    var blank := lines[1 + |Body(lines[1..])|..Extent(lines)];
    CountBehind(blank, Globals(rest), Globals(Prune(rest, stale)), BlanksGone(rest, stale));
  }

  /** The globals that do not stay are the blank lines behind the blocks that go. */
  lemma {:induction false} GlobalsCounted(lines: seq<Line>, stale: Verdict)
    requires AllClosed(lines)
    ensures Counted(lines, stale)
    decreases |lines|
  {
    if lines == [] {
    } else if !lines[0].kind.MenuEntry? {
      GlobalsCounted(lines[1..], stale);
      CountedBefore(lines, stale);
    } else if stale(InfoOf(HeadBlock(lines))) {
      StaleHead(lines, stale);
      GlobalsCounted(lines[Extent(lines)..], stale);
      CountedBehindStale(lines, stale, lines[Extent(lines)..]);
    } else {
      StayingHead(lines, stale);
      GlobalsCounted(lines[1 + |Body(lines[1..])|..], stale);
    }
  }

  lemma {:induction false} NonBlankStay(lines: seq<Line>, stale: Verdict)
    requires AllClosed(lines)
    ensures NonBlank(Globals(Prune(lines, stale))) == NonBlank(Globals(lines))
    decreases |lines|
  {
    if lines == [] {
    } else if !lines[0].kind.MenuEntry? {
      NonBlankStay(lines[1..], stale);
      GlobalsBefore(lines, stale);
    } else if stale(InfoOf(HeadBlock(lines))) {
      ExtentSkipsOneBlock(lines);
      GlobalsBehindExtent(lines);
      NonBlankStay(lines[Extent(lines)..], stale);
    } else {
      GlobalsBehindBlock(lines, stale);
      NonBlankStay(lines[1 + |Body(lines[1..])|..], stale);
    }
  }

  /** Lines outside every block stay, verbatim and in order, but for the blank ones behind the
      blocks that go. */
  lemma PruneKeepsGlobals(lines: seq<Line>, stale: Verdict)
    requires AllClosed(lines)
    ensures NonBlank(Globals(Prune(lines, stale))) == NonBlank(Globals(lines))
    ensures multiset(Globals(lines)) == multiset(Globals(Prune(lines, stale))) + multiset(BlanksGone(lines, stale))
  {
    NonBlankStay(lines, stale);
    GlobalsCounted(lines, stale);
  }

  /** Behind a body, pruning goes on as if it started there. */
  lemma {:induction false} PruneSkipsBody(lines: seq<Line>, stale: Verdict)
    requires Closes(lines)
    ensures |Body(lines)| <= |Prune(lines, stale)|
    ensures Prune(lines, stale)[|Body(lines)|..] == Prune(lines[|Body(lines)|..], stale)
  {
    if !lines[0].kind.Close? {
      PruneSkipsBody(lines[1..], stale);
      assert lines[1..][|Body(lines[1..])|..] == lines[|Body(lines)|..];
      assert Prune(lines, stale)[1..] == Prune(lines[1..], stale);
    }
  }

  /* ---- What the machine boots ------------------------------------------------------------ */

  /** The first `set default` line lies in no block that goes. */
  predicate DefaultLineStays(lines: seq<Line>, stale: Verdict)
    decreases |lines|
  {
    if lines == [] then true
    else if lines[0].kind.SetDefault? then true
    else if lines[0].kind.MenuEntry? && stale(InfoOf(HeadBlock(lines))) then
      FirstDefault(lines[..Extent(lines)]) == Extent(lines) && DefaultLineStays(lines[Extent(lines)..], stale)
    else DefaultLineStays(lines[1..], stale)
  }

  lemma {:induction false} DefaultValueSkip(lines: seq<Line>, n: nat)
    requires n <= |lines| && FirstDefault(lines[..n]) == n
    ensures DefaultValue(lines) == DefaultValue(lines[n..])
  {
    if n > 0 {
      assert lines[..n][1..] == lines[1..][..n - 1] && lines[1..][n - 1..] == lines[n..];
      DefaultValueSkip(lines[1..], n - 1);
    }
  }

  lemma {:induction false} PruneKeepsDefaultValue(lines: seq<Line>, stale: Verdict)
    requires DefaultLineStays(lines, stale)
    ensures DefaultValue(Prune(lines, stale)) == DefaultValue(lines)
    decreases |lines|
  {
    if lines == [] || lines[0].kind.SetDefault? {
    } else if lines[0].kind.MenuEntry? && stale(InfoOf(HeadBlock(lines))) {
      DefaultValueSkip(lines, Extent(lines));
      PruneKeepsDefaultValue(lines[Extent(lines)..], stale);
    } else {
      PruneKeepsDefaultValue(lines[1..], stale);
      assert Prune(lines, stale)[1..] == Prune(lines[1..], stale);
    }
  }

  /** The block the name leads to by its id, if there is one, and it stays. */
  predicate NamedBlockStays(bs: seq<Block>, id: string, stale: Verdict) {
    && bs != []
    && if InfoOf(bs[0]).id != "" && InfoOf(bs[0]).id == id then !stale(InfoOf(bs[0]))
       else NamedBlockStays(bs[1..], id, stale)
  }

  /** The block the name leads to by its title stays, if there is one. */
  predicate TitledBlockStays(bs: seq<Block>, title: string, stale: Verdict) {
    bs != [] ==> if InfoOf(bs[0]).title == title then !stale(InfoOf(bs[0])) else TitledBlockStays(bs[1..], title, stale)
  }

  /** The block a name leads to stays: an id comes before a title. */
  predicate LedBlockStays(bs: seq<Block>, name: string, stale: Verdict) {
    if FirstById(InfosOf(bs), name).Some? then NamedBlockStays(bs, name, stale) else TitledBlockStays(bs, name, stale)
  }

  lemma {:induction false} SurvivingKeepsNamed(bs: seq<Block>, id: string, stale: Verdict)
    requires NamedBlockStays(bs, id, stale)
    ensures FirstById(InfosOf(Surviving(bs, stale)), id) == FirstById(InfosOf(bs), id) != None
  {
    assert InfosOf(bs)[1..] == InfosOf(bs[1..]);
    if !(InfoOf(bs[0]).id != "" && InfoOf(bs[0]).id == id) {
      SurvivingKeepsNamed(bs[1..], id, stale);
      if !stale(InfoOf(bs[0])) { SurvivingNext(bs, stale); }
    }
  }

  lemma SurvivingNext(bs: seq<Block>, stale: Verdict)
    requires bs != [] && !stale(InfoOf(bs[0]))
    ensures Surviving(bs, stale)[0] == bs[0] && Surviving(bs, stale)[1..] == Surviving(bs[1..], stale)
    ensures InfosOf(Surviving(bs, stale)) == [InfoOf(bs[0])] + InfosOf(Surviving(bs[1..], stale))
  {
  }

  lemma {:induction false} SurvivingKeepsTitled(bs: seq<Block>, title: string, stale: Verdict)
    requires TitledBlockStays(bs, title, stale)
    ensures FirstByTitle(InfosOf(Surviving(bs, stale)), title) == FirstByTitle(InfosOf(bs), title)
  {
    if bs != [] {
      assert InfosOf(bs)[1..] == InfosOf(bs[1..]);
      if !stale(InfoOf(bs[0])) { SurvivingNext(bs, stale); }
      if InfoOf(bs[0]).title != title { SurvivingKeepsTitled(bs[1..], title, stale); }
    }
  }

  lemma {:induction false} SurvivingAddsNoId(bs: seq<Block>, id: string, stale: Verdict)
    requires FirstById(InfosOf(bs), id).None?
    ensures FirstById(InfosOf(Surviving(bs, stale)), id).None?
  {
    if bs != [] {
      assert InfosOf(bs)[1..] == InfosOf(bs[1..]);
      if !stale(InfoOf(bs[0])) { SurvivingNext(bs, stale); }
      SurvivingAddsNoId(bs[1..], id, stale);
    }
  }

  lemma SurvivingKeepsLed(bs: seq<Block>, name: string, stale: Verdict)
    requires LedBlockStays(bs, name, stale)
    ensures ResolveName(InfosOf(Surviving(bs, stale)), name) == ResolveName(InfosOf(bs), name)
  {
    if FirstById(InfosOf(bs), name).Some? {
      SurvivingKeepsNamed(bs, name, stale);
    } else {
      SurvivingAddsNoId(bs, name, stale);
      SurvivingKeepsTitled(bs, name, stale);
    }
  }

  /** Pruning keeps the default, when blocks close, the default line is in no block that goes,
      and the default is a name whose block, found by id or by title, stays. */
  lemma PruneKeepsDefault(lines: seq<Line>, stale: Verdict)
    requires AllClosed(lines) && DefaultLineStays(lines, stale)
    requires Atoi(DefaultValue(lines)).None?
    requires LedBlockStays(Blocks(lines), DefaultValue(lines), stale)
    ensures Default(Prune(lines, stale)) == Default(lines)
  {
    PruneKeepsBlocks(lines, stale);
    PruneKeepsDefaultValue(lines, stale);
    SurvivingKeepsLed(Blocks(lines), DefaultValue(lines), stale);
  }

  /* ---- Exactly when the default stays ----------------------------------------------------- */

  lemma {:induction false} InfoAt(bs: seq<Block>, i: nat)
    requires i < |bs|
    ensures InfosOf(bs)[i] == InfoOf(bs[i])
  {
    if i > 0 { InfoAt(bs[1..], i - 1); }
  }

  /** How many of the first `n` blocks go. */
  function Gone(bs: seq<Block>, n: nat, stale: Verdict): (g: nat)
    requires n <= |bs|
    ensures g <= n && (g == 0 <==> forall i :: 0 <= i < n ==> !stale(InfoOf(bs[i])))
  {
    if n == 0 then 0 else Gone(bs, n - 1, stale) + if stale(InfoOf(bs[n - 1])) then 1 else 0
  }

  lemma {:induction false} GoneBehindFirst(bs: seq<Block>, n: nat, stale: Verdict)
    requires 0 < n <= |bs|
    ensures Gone(bs, n, stale) == Gone(bs[1..], n - 1, stale) + if stale(InfoOf(bs[0])) then 1 else 0
  {
    if n > 1 {
      GoneBehindFirst(bs, n - 1, stale);
      assert bs[1..][n - 2] == bs[n - 1];
    }
  }

  /** Where the survivor at place `k` stood: as many places back as blocks before it went. */
  lemma {:induction false} SurvivorStood(bs: seq<Block>, k: nat, stale: Verdict) returns (j: nat)
    requires k < |Surviving(bs, stale)|
    ensures j < |bs| && Surviving(bs, stale)[k] == bs[j] && !stale(InfoOf(bs[j])) && j == k + Gone(bs, j, stale)
  {
    if k == 0 && !stale(InfoOf(bs[0])) {
      j := 0;
    } else {
      var rest, before := bs[1..], if stale(InfoOf(bs[0])) then k else k - 1;
      assert Surviving(bs, stale)[k] == Surviving(rest, stale)[before];
      var i := SurvivorStood(rest, before, stale);
      assert rest[i] == bs[i + 1];
      j := i + 1;
      GoneBehindFirst(bs, j, stale);
    }
  }

  lemma {:induction false} SurvivorStands(bs: seq<Block>, j: nat, stale: Verdict)
    requires j < |bs| && !stale(InfoOf(bs[j]))
    ensures j - Gone(bs, j, stale) < |Surviving(bs, stale)|
    ensures Surviving(bs, stale)[j - Gone(bs, j, stale)] == bs[j]
  {
    if j > 0 {
      SurvivorStands(bs[1..], j - 1, stale);
      GoneBehindFirst(bs, j, stale);
    }
    if !stale(InfoOf(bs[0])) { SurvivingNext(bs, stale); }
  }

  /** No two entries name that kernel. */
  predicate OnlyOneNames(bs: seq<Block>, path: string) {
    forall i, j :: 0 <= i < j < |bs| && InfoOf(bs[i]).linux == path ==> InfoOf(bs[j]).linux != path
  }

  /** The entry a name leads to. */
  lemma {:induction false} LedById(bs: seq<Block>, name: string, stale: Verdict) returns (i: nat)
    requires FirstById(InfosOf(bs), name).Some?
    ensures i < |bs| && InfoOf(bs[i]).linux == FirstById(InfosOf(bs), name).value
    ensures NamedBlockStays(bs, name, stale) <==> !stale(InfoOf(bs[i]))
  {
    assert InfosOf(bs)[1..] == InfosOf(bs[1..]);
    i := 0;
    if !(InfoOf(bs[0]).id != "" && InfoOf(bs[0]).id == name) {
      i := LedById(bs[1..], name, stale);
      i := i + 1;
    }
  }

  lemma {:induction false} LedByTitle(bs: seq<Block>, title: string, stale: Verdict) returns (i: nat)
    requires FirstByTitle(InfosOf(bs), title) != ""
    ensures i < |bs| && InfoOf(bs[i]).linux == FirstByTitle(InfosOf(bs), title)
    ensures TitledBlockStays(bs, title, stale) <==> !stale(InfoOf(bs[i]))
  {
    assert InfosOf(bs)[1..] == InfosOf(bs[1..]);
    i := 0;
    if InfoOf(bs[0]).title != title {
      i := LedByTitle(bs[1..], title, stale);
      i := i + 1;
    }
  }

  /** Whatever the default says, it names a kernel some entry has, or nothing. */
  lemma ResolvesToAnEntry(bs: seq<Block>, value: string) returns (i: nat)
    requires Resolve(InfosOf(bs), value) != ""
    ensures i < |bs| && InfoOf(bs[i]).linux == Resolve(InfosOf(bs), value)
  {
    var none: Verdict := (info: Info) => false;
    if Atoi(value).Some? {
      i := Atoi(value).value;
      InfoAt(bs, i);
    } else if FirstById(InfosOf(bs), value).Some? {
      i := LedById(bs, value, none);
    } else {
      i := LedByTitle(bs, value, none);
    }
  }

  /** The entry a default leads to stays, and for a number so do all entries before it. */
  predicate DefaultEntryStays(lines: seq<Line>, stale: Verdict) {
    var value, bs := DefaultValue(lines), Blocks(lines);
    match Atoi(value)
    case Some(n) => forall i :: 0 <= i <= n && i < |bs| ==> !stale(InfoOf(bs[i]))
    case None => LedBlockStays(bs, value, stale)
  }

  /** A number leads to the survivor at its place, which is the entry it led to exactly when no
      entry up to it went. */
  lemma NumberKeepsItsEntry(bs: seq<Block>, n: nat, stale: Verdict)
    requires n < |bs| && InfoOf(bs[n]).linux != "" && OnlyOneNames(bs, InfoOf(bs[n]).linux)
    ensures (n < |Surviving(bs, stale)| && InfoOf(Surviving(bs, stale)[n]).linux == InfoOf(bs[n]).linux)
       <==> forall i :: 0 <= i <= n ==> !stale(InfoOf(bs[i]))
  {
    if forall i :: 0 <= i <= n ==> !stale(InfoOf(bs[i])) {
      SurvivorStands(bs, n, stale);
    } else if n < |Surviving(bs, stale)| {
      var j := SurvivorStood(bs, n, stale);
    }
  }

  /** With no other entry for its kernel, the default stays what it was if and only if its
      entry stays and, when it is a number, no entry before it goes. */
  lemma PruneKeepsDefaultExactly(lines: seq<Line>, stale: Verdict)
    requires AllClosed(lines) && DefaultLineStays(lines, stale)
    requires Default(lines) != "" && OnlyOneNames(Blocks(lines), Default(lines))
    ensures Default(Prune(lines, stale)) == Default(lines) <==> DefaultEntryStays(lines, stale)
  {
    var bs, value := Blocks(lines), DefaultValue(lines);
    PruneKeepsBlocks(lines, stale);
    PruneKeepsDefaultValue(lines, stale);
    var n := Atoi(value);
    if n.Some? {
      InfoAt(bs, n.value);
      if n.value < |Surviving(bs, stale)| { InfoAt(Surviving(bs, stale), n.value); }
      NumberKeepsItsEntry(bs, n.value, stale);
    } else if LedBlockStays(bs, value, stale) {
      SurvivingKeepsLed(bs, value, stale);
    } else {
      LostIsLost(bs, value, stale);
    }
  }

  /** A name whose only entry for its kernel went leads there no more. */
  lemma LostIsLost(bs: seq<Block>, name: string, stale: Verdict)
    requires Atoi(name).None? && name != "" && !LedBlockStays(bs, name, stale)
    requires ResolveName(InfosOf(bs), name) != "" && OnlyOneNames(bs, ResolveName(InfosOf(bs), name))
    ensures ResolveName(InfosOf(Surviving(bs, stale)), name) != ResolveName(InfosOf(bs), name)
  {
    var i: nat;
    if FirstById(InfosOf(bs), name).Some? {
      i := LedById(bs, name, stale);
    } else {
      i := LedByTitle(bs, name, stale);
    }
    var path := ResolveName(InfosOf(bs), name);
    if Resolve(InfosOf(Surviving(bs, stale)), name) != "" {
      var k := ResolvesToAnEntry(Surviving(bs, stale), name);
      var j := SurvivorStood(bs, k, stale);
      assert j != i;
    }
  }

  /** The default is a name that leads to a kernel whose file is there. */
  predicate BootsPresentKernel(lines: seq<Line>, present: set<string>) {
    Atoi(DefaultValue(lines)).None? && Default(lines) != "" && Base(Default(lines)) in present
  }

  /** An entry whose kernel is there is not stale. */
  lemma PresentBlockStays(bs: seq<Block>, name: string, protectedId: string, flavor: string, present: set<string>)
    requires ResolveName(InfosOf(bs), name) != "" && Base(ResolveName(InfosOf(bs), name)) in present
    ensures LedBlockStays(bs, name, VerdictOf(protectedId, flavor, present))
  {
    var stale := VerdictOf(protectedId, flavor, present);
    if FirstById(InfosOf(bs), name).Some? {
      var i := LedById(bs, name, stale);
    } else {
      var i := LedByTitle(bs, name, stale);
    }
  }

  /** What `pruneGrubFile` does to a menu that boots a present kernel by name: it boots the same
      one after, and the menu is as well-formed as before. */
  lemma PruneFileKeepsBoot(lines: seq<Line>, flavor: string, present: set<string>)
    requires AllClosed(lines) && BootsPresentKernel(lines, present)
    requires DefaultLineStays(lines, FileVerdict(lines, flavor, present))
    ensures var after := Prune(lines, FileVerdict(lines, flavor, present));
            && Default(after) == Default(lines) && BootsPresentKernel(after, present) && AllClosed(after)
            && Prune(after, FileVerdict(after, flavor, present)) == after
  {
    var stale := FileVerdict(lines, flavor, present);
    var after := Prune(lines, stale);
    PresentBlockStays(Blocks(lines), DefaultValue(lines), ProtectedId(Default(lines)), flavor, present);
    PruneKeepsDefault(lines, stale);
    PruneKeepsBlocks(lines, stale);
    PruneKeepsDefaultValue(lines, stale);
    SurvivorsAreNotStale(Blocks(lines), stale);
    NothingStaleNothingPruned(after, FileVerdict(after, flavor, present));
  }

  /** A stored kernel of the flavor whose file is gone. */
  ghost predicate Dead(info: Info, flavor: string, present: set<string>) {
    && info.linux != "" && Base(info.linux) !in present
    && exists ts :: ParseStored(Base(info.linux)) == Some((ts, flavor))
  }

  /** The entry the default's kernel is kept under, letters of either case alike. */
  predicate KeptForDefault(lines: seq<Line>, info: Info) {
    Fold(Key(info)) == Fold(if Default(lines) == "" then "" else KernelBasename(Default(lines)))
  }

  lemma VerdictMeans(lines: seq<Line>, info: Info, flavor: string, present: set<string>)
    ensures FileVerdict(lines, flavor, present)(info) <==> Dead(info, flavor, present) && !KeptForDefault(lines, info)
  {
    var stale := FileVerdict(lines, flavor, present);
    assert stale(info) <==> Stale(info, ProtectedId(Default(lines)), flavor, present);
    var p := ParseStored(Base(info.linux));
    if p.Some? && p.value.1 == flavor { assert p == Some((p.value.0, flavor)); }
  }

  /** After the prune every entry left for a kernel that is gone is the default's. */
  lemma DeadEntriesGo(lines: seq<Line>, flavor: string, present: set<string>, i: nat)
    requires AllClosed(lines) && i < |Blocks(Prune(lines, FileVerdict(lines, flavor, present)))|
    ensures var info := InfoOf(Blocks(Prune(lines, FileVerdict(lines, flavor, present)))[i]);
            Dead(info, flavor, present) ==> KeptForDefault(lines, info)
  {
    var stale := FileVerdict(lines, flavor, present);
    PruneKeepsBlocks(lines, stale);
    SurvivorsAreNotStale(Blocks(lines), stale);
    VerdictMeans(lines, InfoOf(Blocks(Prune(lines, stale))[i]), flavor, present);
  }

  /** And no other entry goes. */
  lemma LivingEntriesStay(lines: seq<Line>, flavor: string, present: set<string>, i: nat)
    requires AllClosed(lines) && i < |Blocks(lines)|
    requires !Dead(InfoOf(Blocks(lines)[i]), flavor, present) || KeptForDefault(lines, InfoOf(Blocks(lines)[i]))
    ensures Blocks(lines)[i] in Blocks(Prune(lines, FileVerdict(lines, flavor, present)))
  {
    var stale := FileVerdict(lines, flavor, present);
    PruneKeepsBlocks(lines, stale);
    VerdictMeans(lines, InfoOf(Blocks(lines)[i]), flavor, present);
    SurvivorStands(Blocks(lines), i, stale);
  }

  /** A numeric default whose own entry is not stale stays exactly when no entry before it is. */
  lemma PruneKeepsNumberExactly(lines: seq<Line>, stale: Verdict, n: nat)
    requires AllClosed(lines) && DefaultLineStays(lines, stale)
    requires Atoi(DefaultValue(lines)) == Some(n) && n < |Blocks(lines)|
    requires InfoOf(Blocks(lines)[n]).linux != "" && !stale(InfoOf(Blocks(lines)[n]))
    requires OnlyOneNames(Blocks(lines), InfoOf(Blocks(lines)[n]).linux)
    ensures Default(Prune(lines, stale)) == Default(lines) <==> forall i :: 0 <= i < n ==> !stale(InfoOf(Blocks(lines)[i]))
  {
    InfoAt(Blocks(lines), n);
    PruneKeepsDefaultExactly(lines, stale);
  }

  /** And to one that boots a present kernel by number: the default stays exactly when no entry
      before its own goes. */
  lemma PruneFileAndNumber(lines: seq<Line>, flavor: string, present: set<string>, stale: Verdict, n: nat)
    requires stale == FileVerdict(lines, flavor, present)
    requires AllClosed(lines) && DefaultLineStays(lines, stale)
    requires Atoi(DefaultValue(lines)) == Some(n) && Default(lines) != "" && Base(Default(lines)) in present
    requires OnlyOneNames(Blocks(lines), Default(lines))
    ensures n < |Blocks(lines)|
    ensures Default(Prune(lines, stale)) == Default(lines) <==> forall i :: 0 <= i < n ==> !stale(InfoOf(Blocks(lines)[i]))
  {
    InfoAt(Blocks(lines), n);
    PresentIsNotStale(InfoOf(Blocks(lines)[n]), ProtectedId(Default(lines)), flavor, present);
    PruneKeepsNumberExactly(lines, stale, n);
  }

  lemma PresentIsNotStale(info: Info, protectedId: string, flavor: string, present: set<string>)
    requires Base(info.linux) in present
    ensures !VerdictOf(protectedId, flavor, present)(info)
  {
    var stale := VerdictOf(protectedId, flavor, present);
    assert !Stale(info, protectedId, flavor, present);
    assert stale(info) ==> Stale(info, protectedId, flavor, present);
  }

  predicate ThreeLines(block: Block) {
    |block| == 3 && block[1].kind.Linux? && block[2].kind.Close?
  }

  /** A numeric default counts entries, so pruning an earlier one moves it: "1" boots the
      second of two entries, and after the first is pruned it boots nothing. */
  lemma NumericDefaultMoves(d: Line, a: Block, b: Block, stale: Verdict)
    requires d.kind == SetDefault("1") && ThreeLines(a) && ThreeLines(b)
    requires stale(Info(a[0].kind.title, a[0].kind.id, a[1].kind.kernel))
    requires !stale(Info(b[0].kind.title, b[0].kind.id, b[1].kind.kernel))
    ensures Default([d] + a + b) == b[1].kind.kernel && Default(Prune([d] + a + b, stale)) == ""
  {
    assert [d] + a + b == [d] + (a + b) && b + [] == b;
    NewEntryOf(b, []);
    NewEntryOf(a, b);
    NoEntryNoBlocks([d], a + b);
    NoEntryNoBlocks([d], b);
    assert Atoi("1") == Some(1) by { assert DigitsValue("1") == DigitsValue("") * 10 + 1; }
    assert ([d] + (a + b))[1..] == a + b && ([d] + b)[1..] == b;
    PruneDropsFirst(a, b, stale);
    assert Prune([d] + (a + b), stale) == [d] + b;
  }

  lemma PruneDropsFirst(a: Block, b: Block, stale: Verdict)
    requires ThreeLines(a) && ThreeLines(b)
    requires stale(Info(a[0].kind.title, a[0].kind.id, a[1].kind.kernel))
    requires !stale(Info(b[0].kind.title, b[0].kind.id, b[1].kind.kernel))
    ensures Prune(a + b, stale) == b
  {
    assert b + [] == b;
    NewEntryOf(b, []);
    NewEntryOf(a, b);
    assert HeadBlock(a + b) == a && (a + b)[3..] == b;
    assert !(a + b)[3].kind.Blank?;
    assert Blocks(b) == [b];
    NothingStaleNothingPruned(b, stale);
  }

  lemma NewEntryOf(block: Block, rest: seq<Line>)
    requires ThreeLines(block)
    ensures InfoOf(block) == Info(block[0].kind.title, block[0].kind.id, block[1].kind.kernel)
    ensures Body((block + rest)[1..]) == block[1..]
    ensures Blocks(block + rest) == [block] + Blocks(rest)
    ensures Infos(block + rest) == [Info(block[0].kind.title, block[0].kind.id, block[1].kind.kernel)] + Infos(rest)
  {
    var all := block + rest;
    assert all[1..] == [block[1]] + ([block[2]] + rest);
    assert ([block[1]] + ([block[2]] + rest))[1..] == [block[2]] + rest;
    assert Body([block[2]] + rest) == [block[2]];
    assert Body(all[1..]) == [block[1]] + [block[2]] == block[1..];
    assert [all[0]] + Body(all[1..]) == block;
    assert all[1..] == [block[1], block[2]] + rest;
    NoEntryNoBlocks([block[1], block[2]], rest);
    assert Blocks(all)[1..] == Blocks(rest);
  }
}
