/** The GRUB menu editor (internal/updatecore/bootloader.go): reading the default, pointing
    it at a kernel, and pruning the entries of kernels that are gone.

    A line carries its text and what the editor's patterns see in it; the patterns exclude
    one another. `Grub` specifies the editor on the list of lines; the class in `GrubConfig`
    does the same work in place. */
module Grub {
  import opened Wrappers
  import opened Names

  datatype Kind =
    | MenuEntry(title: string, id: string) // id "": the line has no --id
    | Linux(kernel: string)
    | Close
    | SetDefault(value: string)
    | SetOpts
    | Blank
    | Other

  datatype Line = Line(text: string, kind: Kind)

  /** A menuentry line and what belongs to it. */
  type Block = b: seq<Line> | b != [] && b[0].kind.MenuEntry? witness [Line("menuentry \"\" {", MenuEntry("", ""))]

  /** What the editor knows of an entry: `linux` is its first kernel path, or "". */
  datatype Info = Info(title: string, id: string, linux: string)

  /* ---- Reading --------------------------------------------------------------------------- */

  /** What follows a menuentry line up to its closing brace, or, when that is missing, up to
      the next menuentry or the end. */
  function Body(lines: seq<Line>): (b: seq<Line>)
    ensures b <= lines
  {
    if lines == [] || lines[0].kind.MenuEntry? then []
    else if lines[0].kind.Close? then [lines[0]]
    else [lines[0]] + Body(lines[1..])
  }

  function FirstLinux(lines: seq<Line>): string {
    if lines == [] then "" else if lines[0].kind.Linux? then lines[0].kind.kernel else FirstLinux(lines[1..])
  }

  /** The entry blocks, in order. */
  function Blocks(lines: seq<Line>): seq<Block> {
    if lines == [] then []
    else if lines[0].kind.MenuEntry? then [[lines[0]] + Body(lines[1..])] + Blocks(lines[1..])
    else Blocks(lines[1..])
  }

  function InfoOf(b: Block): Info {
    Info(b[0].kind.title, b[0].kind.id, FirstLinux(b[1..]))
  }

  function InfosOf(bs: seq<Block>): (infos: seq<Info>)
    ensures |infos| == |bs|
  {
    if bs == [] then [] else [InfoOf(bs[0])] + InfosOf(bs[1..])
  }

  function Infos(lines: seq<Line>): seq<Info> {
    InfosOf(Blocks(lines))
  }

  /** The value of the first `set default` line, "" when there is none. */
  function DefaultValue(lines: seq<Line>): string {
    if lines == [] then "" else if lines[0].kind.SetDefault? then lines[0].kind.value else DefaultValue(lines[1..])
  }

  function FirstById(infos: seq<Info>, id: string): Option<string> {
    if infos == [] then None
    else if infos[0].id != "" && infos[0].id == id then Some(infos[0].linux)
    else FirstById(infos[1..], id)
  }

  function FirstByTitle(infos: seq<Info>, title: string): string {
    if infos == [] then "" else if infos[0].title == title then infos[0].linux else FirstByTitle(infos[1..], title)
  }

  function ResolveName(infos: seq<Info>, name: string): string {
    if FirstById(infos, name).Some? then FirstById(infos, name).value else FirstByTitle(infos, name)
  }

  /** A number counts entries; a name is an id, or failing that a title. */
  function Resolve(infos: seq<Info>, value: string): string {
    if value == "" then ""
    else if Atoi(value).Some? then
      if 0 <= Atoi(value).value < |infos| then infos[Atoi(value).value].linux else ""
    else ResolveName(infos, value)
  }

  /** `grubDefault`: the kernel path the menu boots by default, "" when undetermined. */
  function Default(lines: seq<Line>): string {
    Resolve(Infos(lines), DefaultValue(lines))
  }

  lemma {:induction false} FirstWithId(infos: seq<Info>, name: string, k: nat)
    requires name != "" && k < |infos| && infos[k].id == name && forall j :: 0 <= j < k ==> infos[j].id != name
    ensures FirstById(infos, name) == Some(infos[k].linux)
  {
    if k > 0 { FirstWithId(infos[1..], name, k - 1); }
  }

  lemma {:induction false} NoneWithId(infos: seq<Info>, name: string)
    requires forall j :: 0 <= j < |infos| ==> infos[j].id != name
    ensures FirstById(infos, name).None?
  {
    if infos != [] { NoneWithId(infos[1..], name); }
  }

  lemma {:induction false} FirstWithTitle(infos: seq<Info>, title: string, k: nat)
    requires k < |infos| && infos[k].title == title && forall j :: 0 <= j < k ==> infos[j].title != title
    ensures FirstByTitle(infos, title) == infos[k].linux
  {
    if k > 0 { FirstWithTitle(infos[1..], title, k - 1); }
  }

  /** What a default leads to: a number counts the entries from zero; a name leads to the first
      entry with that id, and only if there is none to the first with that title. */
  lemma LookupMeans(infos: seq<Info>, value: string, k: nat)
    requires k < |infos| && value != ""
    ensures Atoi(value) == Some(k) ==> Resolve(infos, value) == infos[k].linux
    ensures Atoi(value).Some? && !(0 <= Atoi(value).value < |infos|) ==> Resolve(infos, value) == ""
    ensures Atoi(value).None? && infos[k].id == value && (forall j :: 0 <= j < k ==> infos[j].id != value) ==>
              Resolve(infos, value) == infos[k].linux
    ensures Atoi(value).None? && (forall j :: 0 <= j < |infos| ==> infos[j].id != value)
            && infos[k].title == value && (forall j :: 0 <= j < k ==> infos[j].title != value) ==>
              Resolve(infos, value) == infos[k].linux
  {
    if infos[k].id == value && forall j :: 0 <= j < k ==> infos[j].id != value { FirstWithId(infos, value, k); }
    if forall j :: 0 <= j < |infos| ==> infos[j].id != value {
      NoneWithId(infos, value);
      if infos[k].title == value && forall j :: 0 <= j < k ==> infos[j].title != value { FirstWithTitle(infos, value, k); }
    }
  }

  /* ---- Setting --------------------------------------------------------------------------- */

  /** The key an entry is found under when setting. */
  function Key(info: Info): string {
    if info.id == "" && info.linux != "" then KernelBasename(info.linux) else info.id
  }

  function HasKey(infos: seq<Info>, id: string): bool {
    infos != [] && (Key(infos[0]) == id || HasKey(infos[1..], id))
  }

  function MenuTitle(path: string): string {
    var stored := ParseStored(Base(path));
    if stored.Some? then "SimpleK8s " + stored.value.0 + " " + stored.value.1 else KernelBasename(path)
  }

  function DefaultLine(id: string): Line {
    Line("set default=" + id, SetDefault(id))
  }

  const OPTS_LINE := Line("set kernel_opts=\"\"", SetOpts)
  const BLANK_LINE := Line("", Blank)

  const CLOSE_LINE := Line("}", Close)

  /** The new entry's first line, with the title and id it is written with: what the patterns
      read back for a name free of blanks and quotes, as every stored name is. */
  function EntryLine(path: string): (l: Line)
    ensures l.kind == MenuEntry(MenuTitle(path), KernelBasename(path))
  {
    Line("menuentry \"" + MenuTitle(path) + "\" --id " + KernelBasename(path) + " {",
         MenuEntry(MenuTitle(path), KernelBasename(path)))
  }

  function LinuxLine(path: string): (l: Line)
    ensures l.kind == Linux(path)
  {
    Line("\tlinux " + path + " ${kernel_opts}", Linux(path))
  }

  function EntryBlock(path: string): Block {
    [EntryLine(path), LinuxLine(path), CLOSE_LINE]
  }

  /** The index of the first menuentry line, or the length. */
  function FirstEntry(lines: seq<Line>): (k: nat)
    ensures k <= |lines| && (k < |lines| ==> lines[k].kind.MenuEntry?)
    ensures forall i :: 0 <= i < k ==> !lines[i].kind.MenuEntry?
  {
    if lines == [] || lines[0].kind.MenuEntry? then 0 else 1 + FirstEntry(lines[1..])
  }

  function FirstDefault(lines: seq<Line>): (k: nat)
    ensures k <= |lines| && (k < |lines| ==> lines[k].kind.SetDefault?)
    ensures forall i :: 0 <= i < k ==> !lines[i].kind.SetDefault?
  {
    if lines == [] || lines[0].kind.SetDefault? then 0 else 1 + FirstDefault(lines[1..])
  }

  function Splice(lines: seq<Line>, at: nat, ins: seq<Line>): seq<Line>
    requires at <= |lines|
  {
    lines[..at] + ins + lines[at..]
  }

  /** A blank line keeps the header and the new block apart. */
  function Spacer(lines: seq<Line>): seq<Line> {
    var at := FirstEntry(lines);
    if at > 0 && !lines[at - 1].kind.Blank? then [BLANK_LINE] else []
  }

  /** Newest first: the block goes before the first entry. */
  function WithEntry(lines: seq<Line>, path: string): seq<Line> {
    if HasKey(Infos(lines), KernelBasename(path)) then lines
    else Splice(lines, FirstEntry(lines), Spacer(lines) + EntryBlock(path) + [BLANK_LINE])
  }

  function ReplaceDefaults(lines: seq<Line>, id: string): (r: seq<Line>)
    ensures |r| == |lines|
    ensures forall i :: 0 <= i < |lines| ==> r[i] == if lines[i].kind.SetDefault? then DefaultLine(id) else lines[i]
  {
    if lines == [] then []
    else [if lines[0].kind.SetDefault? then DefaultLine(id) else lines[0]] + ReplaceDefaults(lines[1..], id)
  }

  predicate HasOpts(lines: seq<Line>) {
    exists i :: 0 <= i < |lines| && lines[i].kind.SetOpts?
  }

  function WithDefault(lines: seq<Line>, id: string): seq<Line> {
    if FirstDefault(lines) < |lines| then ReplaceDefaults(lines, id)
    else
      var at := if FirstEntry(lines) < |lines| then FirstEntry(lines) else 0;
      Splice(lines, at, [DefaultLine(id)])
  }

  function WithOpts(lines: seq<Line>): seq<Line> {
    if HasOpts(lines) then lines else Splice(lines, FirstDefault(lines), [OPTS_LINE])
  }

  /** `setGrubDefault` */
  function PointAt(lines: seq<Line>, path: string): seq<Line> {
    WithOpts(WithDefault(WithEntry(lines, path), KernelBasename(path)))
  }

  /** A name the menu reads back as it was written: not a number, and free of blanks and quotes. */
  predicate PlainName(id: string) {
    id != "" && Atoi(id).None? && forall i :: 0 <= i < |id| ==> IsFlavorChar(id[i]) || id[i] == '.'
  }

  /* ---- Setting: what stays --------------------------------------------------------------- */

  predicate Neutral(line: Line) {
    line.kind.SetDefault? || line.kind.SetOpts? || line.kind.Blank?
  }

  /** Same lines, up to neutral ones, make the same entries. */
  lemma {:induction false} NeutralInsert(a: seq<Line>, x: Line, b: seq<Line>)
    requires Neutral(x)
    ensures FirstLinux(Body(a + [x] + b)) == FirstLinux(Body(a + b))
    ensures Infos(a + [x] + b) == Infos(a + b)
  {
    if a == [] {
      assert a + [x] + b == [x] + b && a + b == b;
    } else {
      assert (a + [x] + b)[1..] == a[1..] + [x] + b && (a + b)[1..] == a[1..] + b;
      NeutralInsert(a[1..], x, b);
    }
  }

  lemma {:induction false} ReplaceKeepsInfos(lines: seq<Line>, id: string)
    ensures FirstLinux(Body(ReplaceDefaults(lines, id))) == FirstLinux(Body(lines))
    ensures Infos(ReplaceDefaults(lines, id)) == Infos(lines)
  {
    if lines != [] {
      ReplaceKeepsInfos(lines[1..], id);
      assert ReplaceDefaults(lines, id)[1..] == ReplaceDefaults(lines[1..], id);
    }
  }

  lemma {:induction false} NoEntryNoBlocks(a: seq<Line>, b: seq<Line>)
    requires forall i :: 0 <= i < |a| ==> !a[i].kind.MenuEntry?
    ensures Blocks(a + b) == Blocks(b)
  {
    if a == [] {
      assert a + b == b;
    } else {
      assert (a + b)[1..] == a[1..] + b;
      NoEntryNoBlocks(a[1..], b);
    }
  }

  /** A closed three-line block in front of `b`. */
  lemma NewEntryFirst(block: Block, b: seq<Line>)
    requires |block| == 3 && block[1].kind.Linux? && block[2].kind.Close?
    ensures Infos(block + [BLANK_LINE] + b) == [Info(block[0].kind.title, block[0].kind.id, block[1].kind.kernel)] + Infos(b)
  {
    var all := block + [BLANK_LINE] + b;
    var rest := [BLANK_LINE] + b;
    assert all[1..] == [block[1]] + ([block[2]] + rest);
    assert ([block[1]] + ([block[2]] + rest))[1..] == [block[2]] + rest;
    assert Body([block[2]] + rest) == [block[2]];
    assert Body(all[1..]) == [block[1]] + [block[2]];
    NoEntryNoBlocks([block[1], block[2], BLANK_LINE], b);
    assert all[1..] == [block[1], block[2], BLANK_LINE] + b;
    assert ([all[0]] + Body(all[1..]))[1..] == Body(all[1..]);
    assert Blocks(all)[1..] == Blocks(b);
  }

  lemma InsertEntryInfos(lines: seq<Line>, spacer: seq<Line>, block: Block)
    requires |block| == 3 && block[1].kind.Linux? && block[2].kind.Close?
    requires forall i :: 0 <= i < |spacer| ==> !spacer[i].kind.MenuEntry?
    ensures Infos(Splice(lines, FirstEntry(lines), spacer + block + [BLANK_LINE]))
         == [Info(block[0].kind.title, block[0].kind.id, block[1].kind.kernel)] + Infos(lines)
  {
    var at := FirstEntry(lines);
    var a, b := lines[..at] + spacer, lines[at..];
    assert Splice(lines, at, spacer + block + [BLANK_LINE]) == a + (block + [BLANK_LINE] + b);
    NoEntryNoBlocks(a, block + [BLANK_LINE] + b);
    NewEntryFirst(block, b);
    assert lines == lines[..at] + b;
    NoEntryNoBlocks(lines[..at], b);
  }

  /** The entries after inserting: the old ones, after the new one if there is a new one. */
  lemma WithEntryInfos(lines: seq<Line>, path: string)
    ensures Infos(WithEntry(lines, path))
         == if HasKey(Infos(lines), KernelBasename(path)) then Infos(lines)
            else [Info(MenuTitle(path), KernelBasename(path), path)] + Infos(lines)
  {
    InsertEntryInfos(lines, Spacer(lines), EntryBlock(path));
  }

  lemma SpliceKeepsInfos(lines: seq<Line>, at: nat, x: Line)
    requires at <= |lines| && Neutral(x)
    ensures Infos(Splice(lines, at, [x])) == Infos(lines)
  {
    NeutralInsert(lines[..at], x, lines[at..]);
    assert lines[..at] + lines[at..] == lines;
  }

  /** Setting the default keeps every entry, with its id and its kernel, in its place; a new
      entry comes first. */
  lemma PointAtKeepsEntries(lines: seq<Line>, path: string)
    ensures Infos(PointAt(lines, path))
         == if HasKey(Infos(lines), KernelBasename(path)) then Infos(lines)
            else [Info(MenuTitle(path), KernelBasename(path), path)] + Infos(lines)
  {
    var id := KernelBasename(path);
    var l1 := WithEntry(lines, path);
    var l2 := WithDefault(l1, id);
    WithEntryInfos(lines, path);
    if FirstDefault(l1) < |l1| {
      ReplaceKeepsInfos(l1, id);
    } else {
      SpliceKeepsInfos(l1, if FirstEntry(l1) < |l1| then FirstEntry(l1) else 0, DefaultLine(id));
    }
    if !HasOpts(l2) {
      SpliceKeepsInfos(l2, FirstDefault(l2), OPTS_LINE);
    }
  }

  lemma {:induction false} DefaultValueAt(lines: seq<Line>)
    ensures DefaultValue(lines) == if FirstDefault(lines) < |lines| then lines[FirstDefault(lines)].kind.value else ""
  {
    if lines != [] && !lines[0].kind.SetDefault? {
      DefaultValueAt(lines[1..]);
    }
  }

  /** Every `set default` line reads the wanted id, and there is one. */
  predicate DefaultsTo(lines: seq<Line>, id: string) {
    && FirstDefault(lines) < |lines|
    && forall i :: 0 <= i < |lines| && lines[i].kind.SetDefault? ==> lines[i] == DefaultLine(id)
  }

  lemma WithDefaultDefaults(lines: seq<Line>, id: string)
    ensures DefaultsTo(WithDefault(lines, id), id)
    ensures HasOpts(WithDefault(lines, id)) == HasOpts(lines)
  {
    var r := WithDefault(lines, id);
    var k := FirstDefault(lines);
    if k < |lines| {
      assert r[k].kind.SetDefault?;
      assert HasOpts(r) ==> exists i :: 0 <= i < |lines| && lines[i].kind.SetOpts?;
      if HasOpts(lines) {
        var i :| 0 <= i < |lines| && lines[i].kind.SetOpts?;
        assert r[i].kind.SetOpts?;
      }
    } else {
      var at := if FirstEntry(lines) < |lines| then FirstEntry(lines) else 0;
      assert r[at] == DefaultLine(id);
      SpliceOpts(lines, at, DefaultLine(id));
    }
  }

  lemma SpliceOpts(lines: seq<Line>, at: nat, x: Line)
    requires at <= |lines|
    ensures HasOpts(Splice(lines, at, [x])) == (HasOpts(lines) || x.kind.SetOpts?)
  {
    var r := Splice(lines, at, [x]);
    assert forall i :: 0 <= i < at ==> r[i] == lines[i];
    assert forall i :: at <= i < |lines| ==> lines[i] == r[i + 1];
    assert r[at] == x;
  }

  lemma WithOptsShape(lines: seq<Line>, id: string)
    requires DefaultsTo(lines, id)
    ensures DefaultsTo(WithOpts(lines), id) && HasOpts(WithOpts(lines))
  {
    if !HasOpts(lines) {
      SpliceOpts(lines, FirstDefault(lines), OPTS_LINE);
      SpliceDefaults(lines, FirstDefault(lines), OPTS_LINE, id);
    }
  }

  /** A line that sets no default leaves the default where it was. */
  lemma SpliceDefaults(lines: seq<Line>, at: nat, x: Line, id: string)
    requires DefaultsTo(lines, id) && at < |lines| && lines[at].kind.SetDefault? && !x.kind.SetDefault?
    ensures DefaultsTo(Splice(lines, at, [x]), id)
  {
    var r := Splice(lines, at, [x]);
    forall i | 0 <= i < |r| && r[i].kind.SetDefault?
      ensures r[i] == DefaultLine(id)
    {
      assert r[i] == if i < at then lines[i] else if i == at then x else lines[i - 1];
    }
    assert r[at + 1] == lines[at];
  }

  lemma PointAtShape(lines: seq<Line>, path: string)
    ensures DefaultsTo(PointAt(lines, path), KernelBasename(path)) && HasOpts(PointAt(lines, path))
  {
    WithDefaultDefaults(WithEntry(lines, path), KernelBasename(path));
    WithOptsShape(WithDefault(WithEntry(lines, path), KernelBasename(path)), KernelBasename(path));
  }

  lemma {:induction false} KeyIsFound(infos: seq<Info>, id: string, linux: string, title: string)
    ensures HasKey([Info(title, id, linux)] + infos, id) || id == ""
    ensures id != "" ==> FirstById([Info(title, id, linux)] + infos, id) == Some(linux)
  {
  }

  /** Reading back: the default is the kernel that was set, exactly when no entry was found
      for it, or the entry the name already led to has that very path. An entry found by its
      kernel alone, without an id of its own, is not led to. */
  lemma PointAtThenDefault(lines: seq<Line>, path: string)
    requires PlainName(KernelBasename(path))
    ensures Default(PointAt(lines, path)) == path
       <==> !HasKey(Infos(lines), KernelBasename(path)) || ResolveName(Infos(lines), KernelBasename(path)) == path
  {
    var id := KernelBasename(path);
    var r := PointAt(lines, path);
    PointAtKeepsEntries(lines, path);
    PointAtShape(lines, path);
    DefaultValueAt(r);
    assert DefaultValue(r) == id;
    KeyIsFound(Infos(lines), id, path, MenuTitle(path));
  }

  lemma ReplaceIsIdentity(lines: seq<Line>, id: string)
    requires DefaultsTo(lines, id)
    ensures ReplaceDefaults(lines, id) == lines
  {
  }

  /** Setting the same default twice changes nothing the second time. */
  lemma PointAtIsIdempotent(lines: seq<Line>, path: string)
    requires KernelBasename(path) != ""
    ensures PointAt(PointAt(lines, path), path) == PointAt(lines, path)
  {
    var id := KernelBasename(path);
    var r := PointAt(lines, path);
    PointAtKeepsEntries(lines, path);
    PointAtShape(lines, path);
    KeyIsFound(Infos(lines), id, path, MenuTitle(path));
    assert WithEntry(r, path) == r;
    ReplaceIsIdentity(r, id);
  }

  /* ---- Setting: other lines stay verbatim and in order ------------------------------------ */

  function NonDefault(lines: seq<Line>): seq<Line> {
    if lines == [] then []
    else if lines[0].kind.SetDefault? then NonDefault(lines[1..])
    else [lines[0]] + NonDefault(lines[1..])
  }

  /** `a` can be had from `b` by leaving lines out. */
  predicate Subsequence(a: seq<Line>, b: seq<Line>) {
    if a == [] then true
    else if b == [] then false
    else if a[0] == b[0] then Subsequence(a[1..], b[1..])
    else Subsequence(a, b[1..])
  }

  lemma {:induction false} NonDefaultConcat(a: seq<Line>, b: seq<Line>)
    ensures NonDefault(a + b) == NonDefault(a) + NonDefault(b)
  {
    if a == [] {
      assert a + b == b;
    } else {
      assert (a + b)[1..] == a[1..] + b;
      NonDefaultConcat(a[1..], b);
    }
  }

  lemma {:induction false} NonDefaultReplace(lines: seq<Line>, id: string)
    ensures NonDefault(ReplaceDefaults(lines, id)) == NonDefault(lines)
  {
    if lines != [] {
      NonDefaultReplace(lines[1..], id);
      assert ReplaceDefaults(lines, id)[1..] == ReplaceDefaults(lines[1..], id);
    }
  }

  lemma {:induction false} SubsequenceDrop(a: seq<Line>, b: seq<Line>)
    requires a != [] && Subsequence(a, b)
    ensures Subsequence(a[1..], b)
  {
    if b != [] && a[0] != b[0] {
      SubsequenceDrop(a, b[1..]);
      if a[1..] != [] && a[1..][0] == b[0] {
        SubsequenceDrop(a[1..], b[1..]);
      }
    } else if b != [] && a[1..] != [] {
      if a[1..][0] == b[0] {
        SubsequenceDrop(a[1..], b[1..]);
      }
    }
  }

  lemma {:induction false} SubsequencePad(a: seq<Line>, x: Line, b: seq<Line>)
    requires Subsequence(a, b)
    ensures Subsequence(a, [x] + b)
  {
    assert ([x] + b)[1..] == b;
    if a != [] && a[0] == x {
      SubsequenceDrop(a, b);
    }
  }

  lemma {:induction false} SubsequenceInsert(a: seq<Line>, ins: seq<Line>, b: seq<Line>)
    ensures Subsequence(a + b, a + ins + b)
  {
    if a != [] {
      assert (a + b)[1..] == a[1..] + b && (a + ins + b)[1..] == a[1..] + ins + b;
      SubsequenceInsert(a[1..], ins, b);
    } else if ins != [] {
      SubsequenceInsert(a, ins[1..], b);
      SubsequencePad(a + b, ins[0], a + ins[1..] + b);
      assert [ins[0]] + (a + ins[1..] + b) == a + ins + b;
    } else {
      assert a + b == b && a + ins + b == b;
      SubsequenceSelf(b);
    }
  }

  lemma {:induction false} SubsequenceSelf(a: seq<Line>)
    ensures Subsequence(a, a)
  {
    if a != [] { SubsequenceSelf(a[1..]); }
  }

  lemma {:induction false} SubsequenceTrans(a: seq<Line>, b: seq<Line>, c: seq<Line>)
    requires Subsequence(a, b) && Subsequence(b, c)
    ensures Subsequence(a, c)
    decreases |b| + |c|
  {
    if a != [] && b != [] && c != [] {
      if b[0] != c[0] {
        SubsequenceTrans(a, b, c[1..]);
        SubsequencePad(a, c[0], c[1..]);
        assert [c[0]] + c[1..] == c;
      } else if a[0] == b[0] {
        SubsequenceTrans(a[1..], b[1..], c[1..]);
      } else {
        SubsequenceTrans(a, b[1..], c[1..]);
      }
    }
  }

  /** What one splice adds to the other lines. */
  lemma SpliceNonDefault(lines: seq<Line>, at: nat, ins: seq<Line>)
    requires at <= |lines|
    ensures Subsequence(NonDefault(lines), NonDefault(Splice(lines, at, ins)))
    ensures multiset(NonDefault(Splice(lines, at, ins))) == multiset(NonDefault(lines)) + multiset(NonDefault(ins))
  {
    var a, b := lines[..at], lines[at..];
    NonDefaultConcat(a, b);
    NonDefaultConcat(a + ins, b);
    NonDefaultConcat(a, ins);
    assert a + b == lines;
    SubsequenceInsert(NonDefault(a), NonDefault(ins), NonDefault(b));
  }

  lemma SpliceManyOpts(lines: seq<Line>, at: nat, ins: seq<Line>)
    requires at <= |lines| && forall i :: 0 <= i < |ins| ==> !ins[i].kind.SetOpts?
    ensures HasOpts(Splice(lines, at, ins)) == HasOpts(lines)
  {
    var r := Splice(lines, at, ins);
    assert forall i :: 0 <= i < at ==> r[i] == lines[i];
    assert forall i :: at <= i < |lines| ==> lines[i] == r[i + |ins|];
    assert forall i :: at <= i < at + |ins| ==> r[i] == ins[i - at];
  }

  /** The lines of a new entry, with their spacing. */
  function NewLines(lines: seq<Line>, path: string): seq<Line> {
    Spacer(lines) + EntryBlock(path) + [BLANK_LINE]
  }

  lemma PlainBlock(spacer: seq<Line>, block: Block)
    requires forall i :: 0 <= i < |spacer| ==> spacer[i].kind.Blank?
    requires |block| == 3 && block[1].kind.Linux? && block[2].kind.Close?
    ensures var all := spacer + block + [BLANK_LINE];
            NonDefault(all) == all && forall i :: 0 <= i < |all| ==> !all[i].kind.SetOpts?
  {
    NoDefaultLines(spacer + block + [BLANK_LINE]);
  }

  lemma NewLinesPlain(lines: seq<Line>, path: string)
    ensures NonDefault(NewLines(lines, path)) == NewLines(lines, path)
    ensures forall i :: 0 <= i < |NewLines(lines, path)| ==> !NewLines(lines, path)[i].kind.SetOpts?
  {
    PlainBlock(Spacer(lines), EntryBlock(path));
  }

  lemma {:induction false} NoDefaultLines(lines: seq<Line>)
    requires forall i :: 0 <= i < |lines| ==> !lines[i].kind.SetDefault?
    ensures NonDefault(lines) == lines
  {
    if lines != [] {
      NoDefaultLines(lines[1..]);
      assert lines == [lines[0]] + lines[1..];
    }
  }

  lemma WithEntryKeepsOtherLines(lines: seq<Line>, path: string)
    ensures Subsequence(NonDefault(lines), NonDefault(WithEntry(lines, path)))
    ensures multiset(NonDefault(WithEntry(lines, path)))
         == multiset(NonDefault(lines))
          + if HasKey(Infos(lines), KernelBasename(path)) then multiset{} else multiset(NewLines(lines, path))
    ensures HasOpts(WithEntry(lines, path)) == HasOpts(lines)
  {
    if HasKey(Infos(lines), KernelBasename(path)) {
      SubsequenceSelf(NonDefault(lines));
    } else {
      NewLinesPlain(lines, path);
      SpliceNonDefault(lines, FirstEntry(lines), NewLines(lines, path));
      SpliceManyOpts(lines, FirstEntry(lines), NewLines(lines, path));
    }
  }

  lemma WithDefaultKeepsOtherLines(lines: seq<Line>, id: string)
    ensures Subsequence(NonDefault(lines), NonDefault(WithDefault(lines, id)))
    ensures multiset(NonDefault(WithDefault(lines, id))) == multiset(NonDefault(lines))
  {
    if FirstDefault(lines) < |lines| {
      NonDefaultReplace(lines, id);
      SubsequenceSelf(NonDefault(lines));
    } else {
      SpliceNonDefault(lines, if FirstEntry(lines) < |lines| then FirstEntry(lines) else 0, [DefaultLine(id)]);
    }
  }

  lemma WithOptsKeepsOtherLines(lines: seq<Line>)
    ensures Subsequence(NonDefault(lines), NonDefault(WithOpts(lines)))
    ensures multiset(NonDefault(WithOpts(lines)))
         == multiset(NonDefault(lines)) + if HasOpts(lines) then multiset{} else multiset{OPTS_LINE}
  {
    if HasOpts(lines) {
      SubsequenceSelf(NonDefault(lines));
    } else {
      SpliceNonDefault(lines, FirstDefault(lines), [OPTS_LINE]);
    }
  }

  /** Every line that is no `set default` line stays, verbatim and in order; nothing is added
      but the new entry with its spacing, when there was none, and the options line, when
      there was none. */
  lemma PointAtKeepsOtherLines(lines: seq<Line>, path: string)
    ensures Subsequence(NonDefault(lines), NonDefault(PointAt(lines, path)))
    ensures multiset(NonDefault(PointAt(lines, path)))
         == multiset(NonDefault(lines))
          + (if HasKey(Infos(lines), KernelBasename(path)) then multiset{} else multiset(NewLines(lines, path)))
          + (if HasOpts(lines) then multiset{} else multiset{OPTS_LINE})
  {
    var id := KernelBasename(path);
    var l1 := WithEntry(lines, path);
    var l2 := WithDefault(l1, id);
    WithEntryKeepsOtherLines(lines, path);
    WithDefaultKeepsOtherLines(l1, id);
    WithDefaultDefaults(l1, id);
    WithOptsKeepsOtherLines(l2);
    SubsequenceTrans(NonDefault(lines), NonDefault(l1), NonDefault(l2));
    SubsequenceTrans(NonDefault(lines), NonDefault(l2), NonDefault(WithOpts(l2)));
  }

  /* ---- A first default, spelled out ------------------------------------------------------------ */

  predicate Plain(lines: seq<Line>) {
    forall i :: 0 <= i < |lines| ==> !lines[i].kind.SetDefault? && !lines[i].kind.SetOpts?
  }

  lemma EntryStartsAt(lines: seq<Line>, k: nat)
    requires k < |lines| && lines[k].kind.MenuEntry? && forall i :: 0 <= i < k ==> !lines[i].kind.MenuEntry?
    ensures FirstEntry(lines) == k
  {
  }

  lemma DefaultStandsAt(lines: seq<Line>, k: nat)
    requires k < |lines| && lines[k].kind.SetDefault? && forall i :: 0 <= i < k ==> !lines[i].kind.SetDefault?
    ensures FirstDefault(lines) == k
  {
  }

  lemma DefaultBefore(front: seq<Line>, back: seq<Line>, id: string)
    requires Plain(front) && Plain(back) && back != [] && back[0].kind.MenuEntry?
    requires forall i :: 0 <= i < |front| ==> !front[i].kind.MenuEntry?
    ensures WithOpts(WithDefault(front + back, id)) == front + [OPTS_LINE, DefaultLine(id)] + back
  {
    var lines := front + back;
    assert Plain(lines);
    EntryStartsAt(lines, |front|);
    var r := front + [DefaultLine(id)] + back;
    assert WithDefault(lines, id) == r;
    DefaultStandsAt(r, |front|);
    assert WithOpts(r) == front + [OPTS_LINE] + ([DefaultLine(id)] + back);
    assert [OPTS_LINE] + ([DefaultLine(id)] + back) == [OPTS_LINE, DefaultLine(id)] + back;
  }

  lemma EntryBefore(head: seq<Line>, rest: seq<Line>, path: string)
    requires rest != [] && rest[0].kind.MenuEntry? && forall i :: 0 <= i < |head| ==> !head[i].kind.MenuEntry?
    requires !HasKey(Infos(head + rest), KernelBasename(path))
    ensures WithEntry(head + rest, path) == (head + Apart(head)) + (EntryBlock(path) + [BLANK_LINE] + rest)
  {
    var lines := head + rest;
    EntryStartsAt(lines, |head|);
    assert Spacer(lines) == Apart(head) && lines[..|head|] == head && lines[|head|..] == rest;
    assert head + (Apart(head) + EntryBlock(path) + [BLANK_LINE]) + rest
        == (head + Apart(head)) + (EntryBlock(path) + [BLANK_LINE] + rest);
  }

  /** A blank line, unless there is one or nothing to keep apart. */
  function Apart(head: seq<Line>): seq<Line> {
    if head == [] || head[|head| - 1].kind.Blank? then [] else [Line("", Blank)]
  }

  /** In a menu without a default, the lines added when there is no entry for the path stand, in
      this order, between the header and the first entry. */
  lemma NewDefaultSpelled(head: seq<Line>, rest: seq<Line>, path: string)
    requires Plain(head) && Plain(rest) && rest != [] && rest[0].kind.MenuEntry?
    requires forall i :: 0 <= i < |head| ==> !head[i].kind.MenuEntry?
    requires !HasKey(Infos(head + rest), KernelBasename(path))
    ensures PointAt(head + rest, path)
         == (head + Apart(head)) + [Line("set kernel_opts=\"\"", SetOpts), DefaultLine(KernelBasename(path))]
            + (EntryBlock(path) + [Line("", Blank)] + rest)
    ensures DefaultLine(KernelBasename(path)).text == "set default=" + KernelBasename(path)
  {
    EntryBefore(head, rest, path);
    var back := EntryBlock(path) + [BLANK_LINE] + rest;
    assert back[0] == EntryLine(path);
    assert forall i :: 3 < i < |back| ==> back[i] == rest[i - 4];
    DefaultBefore(head + Apart(head), back, KernelBasename(path));
  }
}
