/** Staging a release on the boot partition (internal/updatecore/staging.go, purge.go,
    bootstore.go): the order of the steps keeps the machine bootable after each of them. */
module Staging {
  import opened Wrappers
  import opened Names
  import opened Grub
  import opened GrubPrune
  import GrubConfig
  import Purge
  import Retention

  /** A file in the kernel directory; a copy cut short leaves one that is not whole. */
  datatype File = File(size: nat, sum: string, whole: bool)

  /** What is on the partition between two writes. */
  datatype State = State(files: map<string, File>, lines: seq<Line>)

  /** `bootloader` is GRUB; the checksum is "" on the controller's path. */
  datatype Request = Request(version: string, arch: string, running: string, preserve: int, maxPercent: int,
                             efiChecksum: string, noRepoint: bool, dryRun: bool)

  datatype Space = Space(total: nat, free: nat)

  /** How the outside answers: the verified and extracted image, sizes of the partition at
      each look, and which calls fail. */
  datatype Io = Io(image: Option<File>, hashReadable: bool, atStart: Option<Space>, afterMakingRoom: Option<Space>,
                   afterStaging: Option<Space>, listingFails: bool, stuck: set<string>, mkdirFails: bool, copyFails: bool,
                   configFails: bool, pruneFails: bool)

  datatype Outcome = Staged | AlreadyStaged | Planned | Failed

  /* ---- What must hold at every step -------------------------------------------------------- */

  /** The first `set default` line, if any, stands before the entries. */
  predicate DefaultInHeader(lines: seq<Line>) {
    FirstDefault(lines) == |lines| || FirstDefault(lines) < FirstEntry(lines)
  }

  predicate WellFormedMenu(lines: seq<Line>) {
    AllClosed(lines) && DefaultInHeader(lines)
  }

  /** No entry stands in the way of `path`: none is found under its id, or the first with
      that id has that path. */
  predicate EntryFits(lines: seq<Line>, path: string) {
    var id := KernelBasename(path);
    !HasKey(Infos(lines), id) || FirstById(Infos(lines), id) == Some(path)
  }

  /** What a staging run must not break. `boot` is the default's path at the start, when it
      named a kernel on the partition; `keep` are the files no purge may touch; `fits` says
      that the menu is well-formed and has room for the target. `lines` and `names` are the
      menu and the file names at the start, whatever they look like. */
  datatype Guard = Guard(target: string, stored: string, repoint: bool, boot: Option<string>, fits: bool, keep: map<string, File>,
                         flavor: string, lines: seq<Line>, names: set<string>)

  /** The menu boots `path`, and its file is there. */
  ghost predicate Boots(s: State, path: string) {
    WellFormedMenu(s.lines) && BootsPresentKernel(s.lines, s.files.Keys) && Default(s.lines) == path
  }

  ghost predicate Safe(s: State, g: Guard) {
    && (forall n :: n in g.keep ==> n in s.files && (n != g.stored ==> s.files[n] == g.keep[n]))
    && (g.fits && g.boot.Some? ==> Boots(s, g.boot.value) || (g.repoint && Boots(s, g.target)))
  }

  predicate TargetWhole(s: State, g: Guard) {
    g.stored in s.files && s.files[g.stored].whole
  }

  /** A menu before the prune: as it was at the start, or re-pointed, and then only with the
      target's file whole. */
  predicate Unpruned(s: State, g: Guard) {
    s.lines == g.lines || (g.repoint && TargetWhole(s, g) && s.lines == PointAt(g.lines, g.target))
  }

  /** `s` holds what the prune makes of `base` with the files there are. */
  ghost predicate PrunedFrom(base: seq<Line>, s: State, flavor: string) {
    s.lines == Prune(base, FileVerdict(base, flavor, s.files.Keys))
  }

  /** Nothing happens to the menu but the re-pointing and the prune, and no file comes but the
      target: so whatever the menu looks like and however its default is written. */
  ghost predicate Derived(s: State, g: Guard) {
    && s.files.Keys <= g.names + {g.stored}
    && (Unpruned(s, g) || exists base :: Unpruned(State(s.files, base), g) && PrunedFrom(base, s, g.flavor))
  }

  /** The target's file is as it was, unless it is among the files written. */
  predicate Intact(s: State, g: Guard, written: set<string>) {
    g.stored in g.keep && g.stored !in written ==> g.stored in s.files && s.files[g.stored] == g.keep[g.stored]
  }

  /** The target's file is open for writing, and the menu still the first one. */
  predicate Cut(s: State, g: Guard) {
    s.lines == g.lines && g.stored in s.files && !s.files[g.stored].whole
  }

  /** The target's path ends in its name. */
  ghost predicate SoundTarget(g: Guard) {
    Base(g.target) == g.stored
  }

  ghost predicate SoundGuard(g: Guard) {
    g.fits ==> Base(g.target) == g.stored && PlainName(KernelBasename(g.target))
  }

  /** The versions that no purge touches. */
  function ProtectedVersions(req: Request, def: string): set<string> {
    (if req.running != "" then {req.running} else {})
    + (if req.version != "" then {req.version} else {})
    + (var p := ParseStored(Base(def)); if def != "" && p.Some? then {p.value.0} else {})
  }

  /** The files a purge for `flavor` may remove. */
  predicate Purgeable(name: string, flavor: string, protected: set<string>) {
    ParseStored(name).Some? && ParseStored(name).value.1 == flavor && ParseStored(name).value.0 !in protected
  }

  function TargetPath(dir: string, req: Request): string {
    KernelPath(dir, StoredName(req.version, req.arch))
  }

  /** The guard of a run that starts in `s`. */
  function GuardOf(s: State, dir: string, req: Request): Guard {
    var target := TargetPath(dir, req);
    Guard(target, StoredName(req.version, req.arch), !req.noRepoint,
          if BootsPresentKernel(s.lines, s.files.Keys) then Some(Default(s.lines)) else None,
          WellFormedMenu(s.lines) && EntryFits(s.lines, target) && Digits(req.version) && FlavorName(req.arch),
          map n | n in s.files && !Purgeable(n, req.arch, ProtectedVersions(req, Default(s.lines))) :: s.files[n],
          req.arch, s.lines, s.files.Keys)
  }

  /** A purge for `flavor` removes nothing the guard needs. */
  ghost predicate Spares(g: Guard, flavor: string, protected: set<string>) {
    forall n :: Purgeable(n, flavor, protected) ==>
      n !in g.keep && n != g.stored && (g.boot.Some? ==> n != Base(g.boot.value))
  }

  /* ---- Names ----------------------------------------------------------------------------- */

  lemma LastDot(b: string, stem: string)
    requires b == stem + ".efi"
    ensures LastIndexOf(b, '.') == |stem|
  {
    assert b[|stem|] == '.';
    assert b[|stem| + 1..] == "efi";
    assert forall j :: |stem| < j < |b| ==> b[j] == "efi"[j - |stem| - 1];
  }

  lemma TargetNames(dir: string, ts: string, flavor: string)
    requires Digits(ts) && FlavorName(flavor)
    ensures var path := KernelPath(dir, StoredName(ts, flavor));
            && Base(path) == StoredName(ts, flavor) && PlainName(KernelBasename(path))
            && KernelBasename(path) == PREFIX + ts + "." + flavor
  {
    var name := StoredName(ts, flavor);
    StoredNameHasNoSlash(ts, flavor);
    BaseOfKernelPath(dir, name);
    var stem := PREFIX + ts + "." + flavor;
    assert name == stem + ".efi";
    LastDot(name, stem);
    assert name[..|stem|] == stem;
    assert stem[0] == 's';
    forall i | 0 <= i < |stem|
      ensures IsFlavorChar(stem[i]) || stem[i] == '.'
    {
      if i < |PREFIX| {
        assert stem[i] == PREFIX[i];
      } else if i < |PREFIX| + |ts| {
        assert stem[i] == ts[i - |PREFIX|];
      } else if i > |PREFIX| + |ts| {
        assert stem[i] == flavor[i - |PREFIX| - |ts| - 1];
      }
    }
  }

  /** The entry that is added for a stored kernel, spelled out. */
  lemma NewEntrySpelled(dir: string, ts: string, flavor: string, title: string, stem: string)
    requires Digits(ts) && FlavorName(flavor)
    requires title == "SimpleK8s " + ts + " " + flavor && stem == "simplek8s." + ts + "." + flavor
    ensures KernelPath(dir, StoredName(ts, flavor)) == "/" + dir + "/" + (stem + ".efi")
    ensures var block := EntryBlock(KernelPath(dir, StoredName(ts, flavor)));
            && block[0].text == "menuentry \"" + title + "\" --id " + stem + " {"
            && block[1].text == "\tlinux " + KernelPath(dir, StoredName(ts, flavor)) + " ${kernel_opts}"
            && block[2].text == "}" && |block| == 3
  {
    TargetNames(dir, ts, flavor);
    StoredNameRoundTrip(ts, flavor);
    assert StoredName(ts, flavor) == stem + ".efi";
  }

  lemma OnlyDot(ts: string, flavor: string, i: nat)
    requires Digits(ts) && FlavorName(flavor)
    requires i < |ts + "." + flavor| && (ts + "." + flavor)[i] == '.'
    ensures i == |ts|
  {
    var t := ts + "." + flavor;
    assert forall j :: 0 <= j < |ts| ==> t[j] == ts[j] && IsDigit(ts[j]);
    assert forall j :: |ts| < j < |t| ==> t[j] == flavor[j - |ts| - 1];
  }

  /** Even an odd version or flavor gives a stored name that reads back as itself or not at all. */
  lemma StoredNameReadsBack(ts: string, flavor: string)
    ensures var p := ParseStored(StoredName(ts, flavor)); p.Some? ==> p.value.0 == ts && p.value.1 == flavor
  {
    var name := StoredName(ts, flavor);
    var p := ParseStored(name);
    if p.Some? {
      ParsedNameIsStored(name);
      SameMiddle(ts, flavor, p.value.0, p.value.1);
      OnlyDot(p.value.0, p.value.1, |ts|);
      assert (ts + "." + flavor)[..|ts|] == ts;
      assert (ts + "." + flavor)[|ts| + 1..] == flavor;
    }
  }

  lemma SameMiddle(ts: string, flavor: string, ts': string, flavor': string)
    requires StoredName(ts, flavor) == StoredName(ts', flavor')
    ensures ts + "." + flavor == ts' + "." + flavor' && (ts' + "." + flavor')[|ts|] == '.'
  {
    var mid, mid' := ts + "." + flavor, ts' + "." + flavor';
    assert StoredName(ts, flavor) == PREFIX + mid + SUFFIX && StoredName(ts', flavor') == PREFIX + mid' + SUFFIX;
    assert (PREFIX + mid + SUFFIX)[|PREFIX|..|PREFIX| + |mid|] == mid;
    assert (PREFIX + mid' + SUFFIX)[|PREFIX|..|PREFIX| + |mid'|] == mid';
    assert mid[|ts|] == '.';
  }

  lemma GuardIsSound(s: State, dir: string, req: Request)
    ensures SoundGuard(GuardOf(s, dir, req))
  {
    if Digits(req.version) && FlavorName(req.arch) { TargetNames(dir, req.version, req.arch); }
  }

  lemma GuardHolds(s: State, dir: string, req: Request)
    ensures Safe(s, GuardOf(s, dir, req)) && Derived(s, GuardOf(s, dir, req)) && Intact(s, GuardOf(s, dir, req), {})
  {
    var g := GuardOf(s, dir, req);
    assert g.fits && g.boot.Some? ==> Boots(s, g.boot.value);
    UnprunedIsDerived(s, g);
  }

  lemma UnprunedIsDerived(s: State, g: Guard)
    requires s.lines == g.lines && s.files.Keys <= g.names + {g.stored}
    ensures Derived(s, g)
  {
    assert Unpruned(s, g);
  }

  lemma PurgeableIsElsewhere(n: string, req: Request, def: string)
    requires Purgeable(n, req.arch, ProtectedVersions(req, def))
    ensures n != StoredName(req.version, req.arch) && n != Base(def)
  {
    ParsedNameIsStored(n);
    assert |n| > 1;
    StoredNameReadsBack(req.version, req.arch);
  }

  lemma GuardIsSpared(s: State, dir: string, req: Request)
    ensures Spares(GuardOf(s, dir, req), req.arch, ProtectedVersions(req, Default(s.lines)))
  {
    var g, def := GuardOf(s, dir, req), Default(s.lines);
    forall n | Purgeable(n, req.arch, ProtectedVersions(req, def))
      ensures n !in g.keep && n != g.stored && (g.boot.Some? ==> n != Base(g.boot.value))
    {
      PurgeableIsElsewhere(n, req, def);
    }
  }

  /* ---- The menu over the steps ------------------------------------------------------------ */

  lemma {:induction false} ClosedInsert(a: seq<Line>, x: Line, b: seq<Line>)
    requires !x.kind.MenuEntry? && !x.kind.Close?
    ensures Closes(a + [x] + b) == Closes(a + b) && AllClosed(a + [x] + b) == AllClosed(a + b)
  {
    if a == [] {
      assert a + [x] + b == [x] + b && a + b == b;
    } else {
      assert (a + [x] + b)[1..] == a[1..] + [x] + b && (a + b)[1..] == a[1..] + b;
      ClosedInsert(a[1..], x, b);
    }
  }

  lemma {:induction false} ClosedReplace(lines: seq<Line>, id: string)
    ensures Closes(ReplaceDefaults(lines, id)) == Closes(lines)
    ensures AllClosed(ReplaceDefaults(lines, id)) == AllClosed(lines)
  {
    if lines != [] {
      ClosedReplace(lines[1..], id);
      assert ReplaceDefaults(lines, id)[1..] == ReplaceDefaults(lines[1..], id);
    }
  }

  lemma {:induction false} ClosedHeader(a: seq<Line>, b: seq<Line>)
    requires forall i :: 0 <= i < |a| ==> !a[i].kind.MenuEntry?
    ensures AllClosed(a + b) == AllClosed(b)
  {
    if a == [] {
      assert a + b == b;
    } else {
      assert (a + b)[1..] == a[1..] + b;
      ClosedHeader(a[1..], b);
    }
  }

  lemma ClosedBlock(block: Block, b: seq<Line>)
    requires |block| == 3 && block[1].kind.Linux? && block[2].kind.Close?
    ensures AllClosed(block + [BLANK_LINE] + b) == AllClosed(b)
  {
    var all := block + [BLANK_LINE] + b;
    assert all[1..] == [block[1]] + ([block[2]] + ([BLANK_LINE] + b));
    assert ([block[1]] + ([block[2]] + ([BLANK_LINE] + b)))[1..] == [block[2]] + ([BLANK_LINE] + b);
    assert Closes(all[1..]);
    ClosedHeader([block[1], block[2], BLANK_LINE], b);
    assert all[1..] == [block[1], block[2], BLANK_LINE] + b;
  }

  lemma InsertBlockClosed(lines: seq<Line>, spacer: seq<Line>, block: Block)
    requires AllClosed(lines) && |block| == 3 && block[1].kind.Linux? && block[2].kind.Close?
    requires forall i :: 0 <= i < |spacer| ==> !spacer[i].kind.MenuEntry?
    ensures AllClosed(Splice(lines, FirstEntry(lines), spacer + block + [BLANK_LINE]))
  {
    var at := FirstEntry(lines);
    var a, b := lines[..at] + spacer, lines[at..];
    assert Splice(lines, at, spacer + block + [BLANK_LINE]) == a + (block + [BLANK_LINE] + b);
    ClosedHeader(a, block + [BLANK_LINE] + b);
    ClosedBlock(block, b);
    assert lines == lines[..at] + b;
    ClosedHeader(lines[..at], b);
  }

  /** The new entry goes behind the header. */
  lemma WithEntryClosed(lines: seq<Line>, path: string)
    requires AllClosed(lines)
    ensures AllClosed(WithEntry(lines, path))
  {
    InsertBlockClosed(lines, Spacer(lines), EntryBlock(path));
  }

  lemma SpliceHeader(lines: seq<Line>, ins: seq<Line>)
    requires DefaultInHeader(lines)
    requires forall i :: 0 <= i < |ins| ==> !ins[i].kind.SetDefault?
    ensures DefaultInHeader(Splice(lines, FirstEntry(lines), ins))
  {
    var at, k := FirstEntry(lines), FirstDefault(lines);
    var r := Splice(lines, at, ins);
    assert forall i :: 0 <= i < at ==> r[i] == lines[i];
    if k < |lines| {
      assert r[k] == lines[k];
    } else {
      assert forall i :: at <= i < at + |ins| ==> r[i] == ins[i - at];
      assert forall i :: at + |ins| <= i < |r| ==> r[i] == lines[i - |ins|];
    }
  }

  lemma WithEntryWellFormed(lines: seq<Line>, path: string)
    requires WellFormedMenu(lines)
    ensures WellFormedMenu(WithEntry(lines, path))
  {
    WithEntryClosed(lines, path);
    SpliceHeader(lines, Spacer(lines) + EntryBlock(path) + [BLANK_LINE]);
  }

  lemma SpliceOneHeader(lines: seq<Line>, at: nat, x: Line)
    requires at <= FirstEntry(lines) && !x.kind.MenuEntry?
    requires x.kind.SetDefault? || FirstDefault(lines) < FirstEntry(lines)
    ensures var r := Splice(lines, at, [x]); FirstDefault(r) < |r| && FirstDefault(r) < FirstEntry(r)
  {
    var r, e := Splice(lines, at, [x]), FirstEntry(lines);
    assert forall i :: 0 <= i < at ==> r[i] == lines[i];
    assert r[at] == x;
    assert forall i :: at < i < |r| ==> r[i] == lines[i - 1];
    assert forall i :: 0 <= i <= e ==> i < |r| && !r[i].kind.MenuEntry?;
    if !x.kind.SetDefault? {
      var k := FirstDefault(lines);
      assert r[if k < at then k else k + 1] == lines[k];
    }
  }

  lemma SpliceOneClosed(lines: seq<Line>, at: nat, x: Line)
    requires at <= |lines| && !x.kind.MenuEntry? && !x.kind.Close? && AllClosed(lines)
    ensures AllClosed(Splice(lines, at, [x]))
  {
    ClosedInsert(lines[..at], x, lines[at..]);
    assert lines == lines[..at] + lines[at..];
  }

  lemma WithDefaultWellFormed(lines: seq<Line>, id: string)
    requires WellFormedMenu(lines)
    ensures var r := WithDefault(lines, id); AllClosed(r) && FirstDefault(r) < |r| && FirstDefault(r) < FirstEntry(r)
  {
    var r := WithDefault(lines, id);
    var k := FirstDefault(lines);
    if k < |lines| {
      ClosedReplace(lines, id);
      assert r[k].kind.SetDefault?;
      assert forall i :: 0 <= i < |lines| ==> r[i].kind.MenuEntry? == lines[i].kind.MenuEntry?;
    } else {
      var at := if FirstEntry(lines) < |lines| then FirstEntry(lines) else 0;
      SpliceOneClosed(lines, at, DefaultLine(id));
      SpliceOneHeader(lines, at, DefaultLine(id));
    }
  }

  lemma WithOptsWellFormed(lines: seq<Line>)
    requires AllClosed(lines) && FirstDefault(lines) < |lines| && FirstDefault(lines) < FirstEntry(lines)
    ensures WellFormedMenu(WithOpts(lines))
  {
    if !HasOpts(lines) {
      SpliceOneClosed(lines, FirstDefault(lines), OPTS_LINE);
      SpliceOneHeader(lines, FirstDefault(lines), OPTS_LINE);
    }
  }

  /** Re-pointing a well-formed menu that has room for the path: it stays well-formed, and
      then boots that path, by id. */
  lemma RepointBoots(lines: seq<Line>, path: string, present: set<string>)
    requires WellFormedMenu(lines) && EntryFits(lines, path) && PlainName(KernelBasename(path)) && Base(path) in present
    ensures var r := PointAt(lines, path);
            WellFormedMenu(r) && BootsPresentKernel(r, present) && Default(r) == path
  {
    var id := KernelBasename(path);
    var r := PointAt(lines, path);
    WithEntryWellFormed(lines, path);
    WithDefaultWellFormed(WithEntry(lines, path), id);
    WithOptsWellFormed(WithDefault(WithEntry(lines, path), id));
    PointAtKeepsEntries(lines, path);
    PointAtShape(lines, path);
    DefaultValueAt(r);
    PointAtThenDefault(lines, path);
    KeyIsFound(Infos(lines), id, path, MenuTitle(path));
  }

  lemma RepointReadsBack(lines: seq<Line>, dir: string, version: string, arch: string)
    ensures var path := KernelPath(dir, StoredName(version, arch));
            WellFormedMenu(lines) && EntryFits(lines, path) && Digits(version) && FlavorName(arch)
            ==> Default(PointAt(lines, path)) == path
  {
    var path := KernelPath(dir, StoredName(version, arch));
    if WellFormedMenu(lines) && EntryFits(lines, path) && Digits(version) && FlavorName(arch) {
      TargetNames(dir, version, arch);
      RepointBoots(lines, path, {Base(path)});
    }
  }

  lemma {:induction false} HeaderDefaultStays(lines: seq<Line>, stale: Verdict)
    requires FirstDefault(lines) < FirstEntry(lines)
    ensures DefaultLineStays(lines, stale)
    ensures FirstDefault(Prune(lines, stale)) < FirstEntry(Prune(lines, stale))
  {
    if !lines[0].kind.SetDefault? {
      HeaderDefaultStays(lines[1..], stale);
    }
    assert Prune(lines, stale)[1..] == Prune(lines[1..], stale);
  }

  /** Pruning a well-formed menu that boots a present kernel: the same kernel, and the menu
      is well-formed after. */
  lemma PruneBoots(lines: seq<Line>, flavor: string, present: set<string>)
    requires WellFormedMenu(lines) && BootsPresentKernel(lines, present)
    ensures var r := Prune(lines, FileVerdict(lines, flavor, present));
            WellFormedMenu(r) && BootsPresentKernel(r, present) && Default(r) == Default(lines)
  {
    DefaultValueAt(lines);
    HeaderDefaultStays(lines, FileVerdict(lines, flavor, present));
    PruneFileKeepsBoot(lines, flavor, present);
  }

  /* ---- Safe steps -------------------------------------------------------------------------- */

  lemma SafeWrite(s: State, g: Guard, f: File)
    requires Safe(s, g) && Derived(s, g) && s.lines == g.lines
    ensures Safe(State(s.files[g.stored := f], s.lines), g) && Derived(State(s.files[g.stored := f], s.lines), g)
  {
  }

  lemma SafeRemove(s: State, g: Guard, name: string)
    requires Safe(s, g) && Derived(s, g) && Unpruned(s, g) && SoundGuard(g) && name !in g.keep && name != g.stored
    requires g.boot.Some? ==> name != Base(g.boot.value)
    ensures Safe(State(s.files - {name}, s.lines), g) && Derived(State(s.files - {name}, s.lines), g)
    ensures Unpruned(State(s.files - {name}, s.lines), g)
  {
  }

  lemma RepointKeepsSafe(s: State, g: Guard)
    requires Safe(s, g) && Derived(s, g) && SoundGuard(g) && s.lines == g.lines && g.repoint && TargetWhole(s, g)
    requires g.fits ==> WellFormedMenu(s.lines) && EntryFits(s.lines, g.target) && g.stored in s.files
    ensures var after := State(s.files, PointAt(s.lines, g.target));
            Safe(after, g) && Derived(after, g) && Unpruned(after, g) && (g.fits ==> Boots(after, g.target))
  {
    if g.fits { RepointBoots(s.lines, g.target, s.files.Keys); }
  }

  lemma PruneKeepsSafe(s: State, g: Guard)
    requires Safe(s, g) && Derived(s, g) && Unpruned(s, g)
    ensures var after := State(s.files, Prune(s.lines, FileVerdict(s.lines, g.flavor, s.files.Keys)));
            Safe(after, g) && Derived(after, g) && forall path :: Boots(s, path) ==> Boots(after, path)
  {
    var after := State(s.files, Prune(s.lines, FileVerdict(s.lines, g.flavor, s.files.Keys)));
    if WellFormedMenu(s.lines) && BootsPresentKernel(s.lines, s.files.Keys) {
      PruneBoots(s.lines, g.flavor, s.files.Keys);
    }
    assert Unpruned(State(after.files, s.lines), g) && PrunedFrom(s.lines, after, g.flavor);
  }

  /** What a safe state means, in plain terms: no file of another flavor or of no kernel is
      gone or changed, nor any of the running version; and when the menu was well-formed, had
      room for the target and booted a kernel of the partition, it boots that one or, if the
      run re-points, the target, and the file is there. */
  lemma SafeMeans(start: State, s: State, dir: string, req: Request)
    requires Safe(s, GuardOf(start, dir, req))
    ensures forall n :: n in start.files && n != StoredName(req.version, req.arch)
                        && (ParseStored(n).None? || ParseStored(n).value.1 != req.arch || ParseStored(n).value.0 == req.running)
                        ==> n in s.files && s.files[n] == start.files[n]
    ensures WellFormedMenu(start.lines) && EntryFits(start.lines, TargetPath(dir, req)) && Digits(req.version) && FlavorName(req.arch)
            && BootsPresentKernel(start.lines, start.files.Keys)
            ==> Base(Default(s.lines)) in s.files
                && (Default(s.lines) == Default(start.lines) || (!req.noRepoint && Default(s.lines) == TargetPath(dir, req)))
  {
    var g := GuardOf(start, dir, req);
    forall n | n in start.files && n != g.stored
               && (ParseStored(n).None? || ParseStored(n).value.1 != req.arch || ParseStored(n).value.0 == req.running)
      ensures n in g.keep
    {
      ParsedNameIsStored(n);
    }
  }

  /** A file of the right name is taken for staged by its name alone, or, given a checksum,
      exactly when it can be read and has it. So a file cut short is taken for staged without
      a checksum, and with one only if it has the whole image's. */
  predicate TakenForStaged(req: Request, io: Io, file: File) {
    req.efiChecksum == "" || (io.hashReadable && Fold(file.sum) == Fold(req.efiChecksum))
  }

  /** A numeric default over a run that leaves it alone: its kernel's file stays, and it still
      names it in exactly the states where the menu is as it was or no entry before its own
      names a kernel that is gone. */
  lemma NumericDefaultInRun(start: State, s: State, dir: string, req: Request)
    requires Safe(s, GuardOf(start, dir, req)) && Derived(s, GuardOf(start, dir, req)) && req.noRepoint
    requires WellFormedMenu(start.lines) && Atoi(DefaultValue(start.lines)).Some?
    requires Default(start.lines) != "" && Base(Default(start.lines)) in start.files && OnlyOneNames(Blocks(start.lines), Default(start.lines))
    ensures Base(Default(start.lines)) in s.files
    ensures Default(s.lines) == Default(start.lines)
       <==> || s.lines == start.lines
            || var stale := FileVerdict(start.lines, req.arch, s.files.Keys);
               forall i :: 0 <= i < Atoi(DefaultValue(start.lines)).value ==> !stale(InfoOf(Blocks(start.lines)[i]))
  {
    var g := GuardOf(start, dir, req);
    DefaultFileKept(start, dir, req);
    if s.lines != start.lines {
      assert PrunedFrom(start.lines, s, req.arch);
      DefaultValueAt(start.lines);
      HeaderDefaultStays(start.lines, FileVerdict(start.lines, req.arch, s.files.Keys));
      PruneFileAndNumber(start.lines, req.arch, s.files.Keys, FileVerdict(start.lines, req.arch, s.files.Keys), Atoi(DefaultValue(start.lines)).value);
    }
  }

  /** The default's file is none that a purge may take. */
  lemma DefaultFileKept(start: State, dir: string, req: Request)
    requires Default(start.lines) != "" && Base(Default(start.lines)) in start.files
    ensures Base(Default(start.lines)) in GuardOf(start, dir, req).keep
  {
  }

  /** What `EnsureBootGoal` does: nothing unless the file is there; then nothing if the default
      is the goal already; else the menu is re-pointed, and, when well-formed with room for the
      goal, reads back as it. */
  ghost predicate GoalEnsured(before: State, after: State, dir: string, version: string, arch: string,
                              present: bool, repointed: bool, ok: bool) {
    var path := KernelPath(dir, StoredName(version, arch));
    && after.files == before.files
    && (present <==> StoredName(version, arch) in before.files)
    && (repointed ==> ok) && (!repointed ==> after == before) && (repointed ==> after.lines == PointAt(before.lines, path))
    && (ok ==> present && (repointed <==> Default(before.lines) != path))
    && (ok && (!repointed || (WellFormedMenu(before.lines) && EntryFits(before.lines, path) && Digits(version) && FlavorName(arch)))
        ==> Default(after.lines) == path)
  }

  /* ---- The steps -------------------------------------------------------------------------- */

  function OwnFlavor(entries: seq<Purge.Kernel>, flavor: string): (own: seq<Purge.Kernel>)
    ensures forall e :: e in own <==> e in entries && ParseStored(e.name).Some? && ParseStored(e.name).value.1 == flavor
    ensures Retention.Distinct(entries) ==> Retention.Distinct(own)
  {
    if entries == [] then []
    else
      var rest := OwnFlavor(entries[1..], flavor);
      assert forall i :: 0 <= i < |entries| - 1 ==> entries[1..][i] == entries[i + 1];
      if ParseStored(entries[0].name).Some? && ParseStored(entries[0].name).value.1 == flavor
      then [entries[0]] + rest else rest
  }

  predicate IsListing(files: map<string, File>, entries: seq<Purge.Kernel>) {
    && (forall e :: e in entries ==>
          && e.name in files && e.size == files[e.name].size
          && ParseStored(e.name).Some? && ParseStored(e.name).value.0 == e.ts)
    && (forall n :: n in files && ParseStored(n).Some? ==> exists e :: e in entries && e.name == n)
    && (forall i, j :: 0 <= i < j < |entries| ==> entries[i].name != entries[j].name)
  }

  function SizesOf(files: map<string, File>): Retention.Sizes {
    map n | n in files :: files[n].size
  }

  /** The files without those that go. */
  function Minus(files: map<string, File>, gone: seq<string>): map<string, File> {
    map n | n in files && n !in gone :: files[n]
  }

  lemma ListsOwn(files: map<string, File>, entries: seq<Purge.Kernel>, flavor: string)
    requires IsListing(files, entries)
    ensures Retention.Lists(OwnFlavor(entries, flavor), SizesOf(files), flavor)
  {
    var own := OwnFlavor(entries, flavor);
    forall n | n in SizesOf(files) && Retention.Own(n, flavor)
      ensures exists e :: e in own && e.name == n
    {
      var e :| e in entries && e.name == n;
      assert e in own;
    }
  }

  lemma OneMoreGone(files: map<string, File>, gone: seq<string>, k: nat)
    requires k < |gone|
    ensures Minus(files, gone[..k + 1]) == Minus(files, gone[..k]) - {gone[k]}
  {
    assert gone[..k + 1] == gone[..k] + [gone[k]];
  }

  ghost predicate AllSafe(trace: seq<State>, from: nat, g: Guard, written: set<string>) {
    forall i :: from <= i < |trace| ==> Safe(trace[i], g) && Derived(trace[i], g) && Intact(trace[i], g, written)
  }

  ghost predicate WasCut(trace: seq<State>, from: nat, g: Guard) {
    exists i :: from <= i < |trace| && Cut(trace[i], g)
  }

  lemma OneMoreSafe(trace: seq<State>, from: nat, g: Guard, written: set<string>, s: State)
    requires AllSafe(trace, from, g, written) && Safe(s, g) && Derived(s, g) && Intact(s, g, written)
    ensures AllSafe(trace + [s], from, g, written)
    ensures WasCut(trace, from, g) ==> WasCut(trace + [s], from, g)
  {
    if WasCut(trace, from, g) {
      var i :| from <= i < |trace| && Cut(trace[i], g);
      assert Cut((trace + [s])[i], g);
    }
  }

  lemma StartIsSafe(trace: seq<State>, s: State, g: Guard)
    requires trace != [] && trace[|trace| - 1] == s && Safe(s, g) && Derived(s, g) && Intact(s, g, {})
    ensures AllSafe(trace, |trace| - 1, g, {})
  {
  }

  /** From the moment the target's file is cut to nothing it counts as written. */
  lemma NowCut(trace: seq<State>, from: nat, g: Guard, written: set<string>, s: State)
    requires AllSafe(trace, from, g, written) && Safe(s, g) && Derived(s, g) && Cut(s, g) && from <= |trace|
    ensures AllSafe(trace + [s], from, g, written + {g.stored}) && WasCut(trace + [s], from, g)
  {
    assert Cut((trace + [s])[|trace|], g);
  }

  /* ---- What a run leaves in the end ------------------------------------------------------------ */

  /** The menu after the final purge: pruned when anything went, if the prune can be written. */
  function MenuAfter(lines: seq<Line>, flavor: string, present: set<string>, gone: seq<string>, io: Io): seq<Line> {
    if gone != [] && !io.pruneFails then Prune(lines, FileVerdict(lines, flavor, present)) else lines
  }

  /** What goes is what retention plans for `preserve` and the cap. */
  ghost predicate RetainedAs(files: map<string, File>, req: Request, protected: set<string>, io: Io, gone: seq<string>) {
    && io.afterStaging.Some?
    && Retention.Planned(SizesOf(files), req.arch, protected, req.preserve, io.afterStaging.value.free,
                         Purge.TargetFree(io.afterStaging.value.total, req.maxPercent), gone)
  }

  /** There is room for `need`, at once or, as far as calls go, by making some. */
  predicate RoomFor(need: nat, io: Io, hasDir: bool) {
    && io.atStart.Some?
    && (|| io.atStart.value.free >= need
        || (&& hasDir && !io.listingFails && io.stuck == {}
            && io.afterMakingRoom.Some? && io.afterMakingRoom.value.free >= need))
  }

  /** There is an image, and it has the checksum, when there is one to compare. */
  predicate Verified(req: Request, io: Io) {
    io.image.Some? && (req.efiChecksum == "" || (io.hashReadable && Fold(io.image.value.sum) == Fold(req.efiChecksum)))
  }

  /** The image is verified, and as far as calls go it can be put there and the run completed. */
  predicate NothingFails(req: Request, io: Io, hasDir: bool) {
    && Verified(req, io)
    && RoomFor(io.image.value.size, io, hasDir) && !io.mkdirFails && !io.copyFails && (req.noRepoint || !io.configFails)
    && io.afterStaging.Some? && !io.listingFails && io.stuck == {}
  }

  /** First, when space was short, what making room takes; then the image, whole. */
  ghost predicate PlacedAs(files: map<string, File>, after: map<string, File>, req: Request, image: File, protected: set<string>,
                           io: Io, room: seq<string>) {
    && io.atStart.Some?
    && Retention.Planned(SizesOf(files), req.arch, protected, 0, io.atStart.value.free, image.size, room)
    && after == Minus(files, room)[StoredName(req.version, req.arch) := image.(whole := true)]
  }

  /** A completed run: the image is placed, what retention plans goes, and the menu is re-pointed,
      unless told not to, and pruned. */
  ghost predicate Completed(a: State, z: State, dir: string, req: Request, io: Io, room: seq<string>, gone: seq<string>) {
    var protected := ProtectedVersions(req, Default(a.lines));
    && io.image.Some?
    && (exists staged ::
          && PlacedAs(a.files, staged, req, io.image.value, protected, io, room)
          && RetainedAs(staged, req, protected, io, gone) && z.files == Minus(staged, gone))
    && z.lines == MenuAfter(if req.noRepoint then a.lines else PointAt(a.lines, TargetPath(dir, req)), req.arch, z.files.Keys, gone, io)
  }

  /* ---- Whether the default's file is whole ---------------------------------------------------- */

  predicate DefaultWhole(s: State) {
    Base(Default(s.lines)) in s.files && s.files[Base(Default(s.lines))].whole
  }

  ghost predicate WholeThroughout(trace: seq<State>, from: nat, name: string) {
    forall i :: from <= i < |trace| ==> name in trace[i].files && trace[i].files[name].whole
  }

  ghost predicate DefaultWholeThroughout(trace: seq<State>, from: nat) {
    forall i :: from <= i < |trace| ==> DefaultWhole(trace[i])
  }

  /** What a run leaves behind, whatever happened: its states, and the files it opened for writing. */
  ghost predicate RunLeft(start: State, dir: string, req: Request, trace: seq<State>, from: nat, written: set<string>) {
    var g := GuardOf(start, dir, req);
    AllSafe(trace, from, g, written) && written <= {g.stored} && (g.stored in written ==> WasCut(trace, from, g))
  }

  /** The file of the first default, whole at the start, is whole at every point of a run
      exactly when the run does not write that very file. */
  lemma FirstDefaultWhole(start: State, dir: string, req: Request, trace: seq<State>, from: nat, written: set<string>)
    requires RunLeft(start, dir, req, trace, from, written)
    requires Default(start.lines) != "" && DefaultWhole(start)
    ensures WholeThroughout(trace, from, Base(Default(start.lines))) <==> Base(Default(start.lines)) !in written
  {
    var g, name := GuardOf(start, dir, req), Base(Default(start.lines));
    DefaultFileKept(start, dir, req);
    if name in written {
      var i :| from <= i < |trace| && Cut(trace[i], g);
      assert !trace[i].files[name].whole;
    } else {
      forall i | from <= i < |trace|
        ensures name in trace[i].files && trace[i].files[name].whole
      {
        assert Safe(trace[i], g) && Intact(trace[i], g, written);
      }
    }
  }

  /** A default that is not the first one is the target, and its file is whole. */
  lemma MovedIsWhole(start: State, s: State, dir: string, req: Request)
    requires Safe(s, GuardOf(start, dir, req)) && Derived(s, GuardOf(start, dir, req))
    requires GuardOf(start, dir, req).fits && GuardOf(start, dir, req).boot.Some?
    ensures Default(s.lines) != Default(start.lines) ==> DefaultWhole(s)
  {
    var g := GuardOf(start, dir, req);
    SafeMeans(start, s, dir, req);
    GuardIsSound(start, dir, req);
    DefaultFileKept(start, dir, req);
    if PrunedFrom(start.lines, s, req.arch) {
      PruneBoots(start.lines, req.arch, s.files.Keys);
    }
    assert s.lines == start.lines || PrunedFrom(start.lines, s, req.arch) || TargetWhole(s, g);
  }

  /** With the first default's file whole, so is the file of the default of the moment. */
  lemma WholeAtTheMoment(start: State, s: State, dir: string, req: Request)
    requires Safe(s, GuardOf(start, dir, req)) && Derived(s, GuardOf(start, dir, req))
    requires GuardOf(start, dir, req).fits && GuardOf(start, dir, req).boot.Some?
    requires Base(Default(start.lines)) in s.files && s.files[Base(Default(start.lines))].whole
    ensures DefaultWhole(s)
  {
    MovedIsWhole(start, s, dir, req);
  }

  lemma CutDefaultIsNotWhole(start: State, s: State, dir: string, req: Request)
    requires Cut(s, GuardOf(start, dir, req)) && Base(Default(start.lines)) == GuardOf(start, dir, req).stored
    ensures !DefaultWhole(s)
  {
  }

  /** And on a well-formed menu with room for the target the default of the moment has a whole
      file at every point, under the same condition. */
  lemma DefaultStaysWhole(start: State, dir: string, req: Request, trace: seq<State>, from: nat, written: set<string>)
    requires RunLeft(start, dir, req, trace, from, written)
    requires GuardOf(start, dir, req).fits && GuardOf(start, dir, req).boot.Some? && DefaultWhole(start)
    ensures DefaultWholeThroughout(trace, from) <==> Base(Default(start.lines)) !in written
  {
    var name := Base(Default(start.lines));
    FirstDefaultWhole(start, dir, req, trace, from, written);
    if name in written {
      var i :| from <= i < |trace| && Cut(trace[i], GuardOf(start, dir, req));
      CutDefaultIsNotWhole(start, trace[i], dir, req);
    } else {
      forall i | from <= i < |trace|
        ensures DefaultWhole(trace[i])
      {
        assert name in trace[i].files && trace[i].files[name].whole;
        WholeAtTheMoment(start, trace[i], dir, req);
      }
    }
  }

  class Partition {
    const dir: string
    const menu: GrubConfig.MenuFile
    var hasDir: bool
    var files: map<string, File>

    /** Every state the partition went through, in order; the last is the present one. */
    ghost var trace: seq<State>

    /** The files the present run has opened for writing. */
    ghost var written: set<string>

    constructor (dir: string, menu: GrubConfig.MenuFile, hasDir: bool, files: map<string, File>)
      ensures this.menu == menu && this.dir == dir && this.hasDir == hasDir && this.files == files
      ensures trace == [State(files, menu.lines)] && Valid()
    {
      this.dir, this.menu, this.hasDir, this.files := dir, menu, hasDir, files;
      this.trace, this.written := [State(files, menu.lines)], {};
    }

    ghost function Now(): State
      reads this`files, menu
    {
      State(files, menu.lines)
    }

    ghost predicate Valid()
      reads this`files, this`trace, menu
    {
      trace != [] && trace[|trace| - 1] == Now()
    }

    /** Every state from the `from`-th on is safe, the present one among them. */
    ghost predicate SafeSince(from: nat, g: Guard)
      reads this`files, this`trace, this`written, menu
    {
      && Valid() && from < |trace| && SoundGuard(g) && AllSafe(trace, from, g, written)
      && Safe(Now(), g) && Derived(Now(), g) && Intact(Now(), g, written)
      && written <= {g.stored} && (g.stored in written ==> WasCut(trace, from, g))
    }

    /** `listKernels` */
    method ListKernels() returns (entries: seq<Purge.Kernel>)
      ensures IsListing(files, entries)
    {
      entries := [];
      var left := files.Keys;
      while left != {}
        invariant left <= files.Keys
        invariant forall e :: e in entries ==>
                    && e.name in files && e.name !in left && e.size == files[e.name].size
                    && ParseStored(e.name).Some? && ParseStored(e.name).value.0 == e.ts
        invariant forall n :: n in files && n !in left && ParseStored(n).Some? ==> exists e :: e in entries && e.name == n
        invariant forall i, j :: 0 <= i < j < |entries| ==> entries[i].name != entries[j].name
        decreases |left|
      {
        var n :| n in left;
        left := left - {n};
        var p := ParseStored(n);
        if p.Some? {
          var e := Purge.Kernel(p.value.0, n, files[n].size);
          assert forall d :: d in entries ==> d in entries + [e];
          assert e in entries + [e];
          entries := entries + [e];
        }
      }
    }

    method Remove(name: string, ghost g: Guard, ghost from: nat)
      requires SafeSince(from, g) && Unpruned(Now(), g) && name !in g.keep && name != g.stored
      requires g.boot.Some? ==> name != Base(g.boot.value)
      modifies this`files, this`trace
      ensures SafeSince(from, g) && old(trace) <= trace
      ensures files == old(files) - {name}
    {
      SafeRemove(Now(), g, name);
      OneMoreSafe(trace, from, g, written, State(files - {name}, menu.lines));
      files := files - {name};
      trace := trace + [Now()];
    }

    /** `applyPurge`: stops at the first file that cannot be removed. */
    method ApplyPurge(del: seq<Purge.Kernel>, stuck: set<string>, ghost g: Guard, ghost from: nat) returns (ok: bool, ghost done: nat)
      requires SafeSince(from, g) && Unpruned(Now(), g)
      requires forall e :: e in del ==> e.name !in g.keep && e.name != g.stored
      requires forall e :: e in del && g.boot.Some? ==> e.name != Base(g.boot.value)
      modifies this`files, this`trace
      ensures SafeSince(from, g) && Unpruned(Now(), g) && old(trace) <= trace
      ensures done <= |del| && files == Minus(old(files), Retention.NamesOf(del)[..done])
      ensures if ok then done == |del| else done < |del| && del[done].name in stuck && del[done].name in files
    {
      var i := 0;
      ghost var gone := Retention.NamesOf(del);
      while i < |del|
        invariant 0 <= i <= |del| && SafeSince(from, g) && Unpruned(Now(), g)
        invariant old(trace) <= trace && files == Minus(old(files), gone[..i])
      {
        assert del[i] in del;
        if del[i].name in stuck && del[i].name in files {
          return false, i;
        }
        OneMoreGone(old(files), gone, i);
        Remove(del[i].name, g, from);
        i := i + 1;
      }
      ok, done := true, i;
    }

    /** Plan on the own flavor's kernels. */
    method PlanFor(flavor: string, protected: set<string>, keepNewest: int, free: nat, targetFree: nat) returns (del: seq<Purge.Kernel>)
      ensures forall e :: e in del ==> Purgeable(e.name, flavor, protected)
      ensures Retention.Planned(SizesOf(files), flavor, protected, keepNewest, free, targetFree, Retention.NamesOf(del))
    {
      var entries := ListKernels();
      var own := OwnFlavor(entries, flavor);
      ghost var desc, asc;
      del, desc, asc := Purge.PlanPurge(own, protected, keepNewest, free, targetFree);
      ListsOwn(files, entries, flavor);
      Retention.PlannedMeans(own, SizesOf(files), flavor, desc, asc, protected, keepNewest, free, targetFree, del);
      forall e | e in del
        ensures Purgeable(e.name, flavor, protected)
      {
        Purge.PlanTakesDeletable(own, desc, asc, protected, keepNewest, free, targetFree, del, e);
      }
    }

    /** Plan, then remove what the plan says. */
    method PurgeFor(flavor: string, protected: set<string>, keepNewest: int, free: nat, targetFree: nat, stuck: set<string>,
                    ghost g: Guard, ghost from: nat)
      returns (ok: bool, gone: seq<string>, ghost done: nat)
      requires SafeSince(from, g) && Unpruned(Now(), g) && Spares(g, flavor, protected)
      modifies this
      ensures SafeSince(from, g) && Unpruned(Now(), g) && old(trace) <= trace && hasDir == old(hasDir) && written == old(written)
      ensures Retention.Planned(SizesOf(old(files)), flavor, protected, keepNewest, free, targetFree, gone)
      ensures forall n :: n in gone ==> Purgeable(n, flavor, protected)
      ensures done <= |gone| && files == Minus(old(files), gone[..done])
      ensures if ok then done == |gone| else done < |gone| && gone[done] in stuck
    {
      var del := PlanFor(flavor, protected, keepNewest, free, targetFree);
      gone := Retention.NamesOf(del);
      ok, done := ApplyPurge(del, stuck, g, from);
    }

    /** Opened for writing, the file is cut to nothing. */
    method Open(ghost g: Guard, ghost from: nat, stored: string)
      requires SafeSince(from, g) && menu.lines == g.lines && stored == g.stored
      modifies this`files, this`trace, this`written
      ensures SafeSince(from, g) && old(trace) <= trace && written == {stored}
      ensures files == old(files)[stored := File(0, "", false)]
    {
      SafeWrite(Now(), g, File(0, "", false));
      NowCut(trace, from, g, written, State(files[stored := File(0, "", false)], menu.lines));
      files := files[stored := File(0, "", false)];
      trace, written := trace + [Now()], written + {stored};
    }

    /** `copyFile`: the file is opened first, and is whole when the copy is through. */
    method Copy(stored: string, image: File, fails: bool, ghost g: Guard, ghost from: nat) returns (ok: bool)
      requires SafeSince(from, g) && menu.lines == g.lines && stored == g.stored
      modifies this`files, this`trace, this`written
      ensures SafeSince(from, g) && old(trace) <= trace && written == {stored}
      ensures ok == !fails && files == old(files)[stored := if fails then File(0, "", false) else image.(whole := true)]
    {
      Open(g, from, stored);
      if fails {
        return false;
      }
      SafeWrite(Now(), g, image.(whole := true));
      OneMoreSafe(trace, from, g, written, State(files[stored := image.(whole := true)], menu.lines));
      files := files[stored := image.(whole := true)];
      trace := trace + [Now()];
      ok := true;
    }

    /** `SetBootloaderDefault`; the write of the config is taken to be atomic. */
    method Repoint(ghost g: Guard, ghost from: nat, path: string)
      requires SafeSince(from, g) && menu.lines == g.lines && path == g.target && g.repoint && TargetWhole(Now(), g)
      requires g.fits ==> WellFormedMenu(menu.lines) && EntryFits(menu.lines, g.target) && g.stored in files
      modifies this, menu
      ensures SafeSince(from, g) && old(trace) <= trace && hasDir == old(hasDir) && written == old(written) && files == old(files)
      ensures Unpruned(Now(), g) && (g.fits ==> Boots(Now(), g.target)) && menu.lines == PointAt(old(menu.lines), path)
    {
      RepointKeepsSafe(Now(), g);
      ghost var next := State(files, PointAt(menu.lines, path));
      OneMoreSafe(trace, from, g, written, next);
      menu.SetDefault(path);
      trace := trace + [next];
    }

    /** The stale-entry prune; it never fails the run. */
    method PruneMenu(flavor: string, fails: bool, ghost g: Guard, ghost from: nat)
      requires SafeSince(from, g) && Unpruned(Now(), g) && flavor == g.flavor
      modifies this, menu
      ensures SafeSince(from, g) && old(trace) <= trace && hasDir == old(hasDir) && written == old(written) && files == old(files)
      ensures forall path :: old(Boots(Now(), path)) ==> Boots(Now(), path)
      ensures menu.lines == if fails then old(menu.lines) else Prune(old(menu.lines), FileVerdict(old(menu.lines), flavor, files.Keys))
    {
      if fails {
        return;
      }
      PruneKeepsSafe(Now(), g);
      OneMoreSafe(trace, from, g, written, State(files, Prune(menu.lines, FileVerdict(menu.lines, flavor, files.Keys))));
      var n := menu.Prune(flavor, files.Keys);
      trace := trace + [Now()];
    }

    /** `purgeAndPrune`: retention, then, if it removed anything, the stale-entry prune. A
        missing kernel directory is a success. */
    method PurgeAndPrune(req: Request, protected: set<string>, io: Io, ghost g: Guard, ghost from: nat) returns (ok: bool, ghost gone: seq<string>)
      requires SafeSince(from, g) && Unpruned(Now(), g) && Spares(g, req.arch, protected) && g.flavor == req.arch
      modifies this, menu
      ensures SafeSince(from, g) && old(trace) <= trace && hasDir == old(hasDir) && written == old(written)
      ensures forall n :: n in gone ==> Purgeable(n, req.arch, protected)
      ensures exists done :: 0 <= done <= |gone| && files == Minus(old(files), gone[..done])
      ensures ok ==> io.afterStaging.Some? && files == Minus(old(files), gone) && menu.lines == MenuAfter(old(menu.lines), req.arch, files.Keys, gone, io)
      ensures ok && hasDir ==> RetainedAs(old(files), req, protected, io, gone)
      ensures ok && !hasDir ==> gone == []
      ensures io.afterStaging.Some? && (!hasDir || (!io.listingFails && io.stuck == {})) ==> ok
      ensures old(Boots(Now(), g.target)) && SoundTarget(g) ==> Boots(Now(), g.target)
    {
      gone := [];
      assert files == Minus(old(files), gone[..0]);
      if io.afterStaging.None? {
        return false, gone;
      }
      if !hasDir {
        return true, gone;
      }
      if io.listingFails {
        return false, gone;
      }
      var target := Purge.TargetFree(io.afterStaging.value.total, req.maxPercent);
      var removed, deleted;
      ghost var done;
      removed, deleted, done := PurgeFor(req.arch, protected, req.preserve, io.afterStaging.value.free, target, io.stuck, g, from);
      gone := deleted;
      assert deleted[..|deleted|] == deleted;
      assert old(Boots(Now(), g.target)) && SoundTarget(g) ==> Boots(Now(), g.target);
      if !removed {
        return false, gone;
      }
      if deleted != [] {
        PruneMenu(req.arch, io.pruneFails, g, from);
      }
      ok := true;
    }

    /** Room for the new kernel, by purging the oldest unprotected ones when it is short. */
    method MakeRoom(req: Request, need: nat, protected: set<string>, io: Io, ghost g: Guard, ghost from: nat) returns (ok: bool, ghost gone: seq<string>)
      requires SafeSince(from, g) && Unpruned(Now(), g) && Spares(g, req.arch, protected)
      modifies this
      ensures SafeSince(from, g) && old(trace) <= trace && hasDir == old(hasDir) && written == old(written)
      ensures ok ==>
                && files == Minus(old(files), gone) && io.atStart.Some?
                && Retention.Planned(SizesOf(old(files)), req.arch, protected, 0, io.atStart.value.free, need, gone)
      ensures RoomFor(need, io, hasDir) ==> ok
    {
      gone := [];
      if io.atStart.None? {
        return false, gone;
      }
      if io.atStart.value.free >= need {
        return true, gone;
      }
      if !hasDir || io.listingFails {
        return false, gone;
      }
      var removed, deleted;
      ghost var done;
      removed, deleted, done := PurgeFor(req.arch, protected, 0, io.atStart.value.free, need, io.stuck, g, from);
      gone := deleted;
      assert deleted[..|deleted|] == deleted;
      ok := removed && io.afterMakingRoom.Some? && io.afterMakingRoom.value.free >= need;
    }

    /** `stagePartition`. Whatever fails, and wherever it is cut short, every state it went
        through is safe. */
    method Stage(req: Request, io: Io) returns (r: Outcome, ghost room: seq<string>, ghost gone: seq<string>)
      requires Valid()
      modifies this, menu
      ensures old(trace) <= trace && SafeSince(old(|trace|) - 1, GuardOf(old(Now()), dir, req))
      ensures RunLeft(old(Now()), dir, req, trace, old(|trace|) - 1, written)
      ensures r.AlreadyStaged? || r.Planned? ==> written == {}
      ensures written != {} ==> io.image.Some? && !req.dryRun
      ensures r.Staged? ==> StoredName(req.version, req.arch) in written
      ensures r.AlreadyStaged? || r.Planned? ==> trace == old(trace)
      ensures r.AlreadyStaged? <==> old(StoredName(req.version, req.arch) in files && TakenForStaged(req, io, files[StoredName(req.version, req.arch)]))
      ensures r.Staged? ==>
                var stored, g := StoredName(req.version, req.arch), GuardOf(old(Now()), dir, req);
                && io.image.Some? && stored in files && files[stored] == io.image.value.(whole := true)
                && (g.fits && !req.noRepoint ==> Boots(Now(), g.target))
                && (g.fits && req.noRepoint && g.boot.Some? ==> Boots(Now(), g.boot.value))
      ensures r.Staged? ==> Completed(old(Now()), Now(), dir, req, io, room, gone)
      ensures r.Planned? <==> !r.AlreadyStaged? && Verified(req, io) && req.dryRun
      ensures !r.AlreadyStaged? && !Verified(req, io) ==> r.Failed?
      ensures NothingFails(req, io, old(hasDir)) && !r.AlreadyStaged? && !req.dryRun ==> r.Staged?
    {
      room, gone := [], [];
      ghost var from := |trace| - 1;
      ghost var g := OpenGuard(req);
      var early := Gate(req, io);
      if early.Some? {
        return early.value, room, gone;
      }
      var def := menu.CurrentDefault();
      r, room, gone := StageImage(req, io.image.value, ProtectedVersions(req, def), io, g, from);
    }

    /** The guard holds where the run starts. */
    ghost method OpenGuard(req: Request) returns (g: Guard)
      requires Valid()
      modifies this`written
      ensures g == GuardOf(Now(), dir, req) && SafeSince(|trace| - 1, g) && written == {}
      ensures Spares(g, req.arch, ProtectedVersions(req, Default(menu.lines)))
    {
      g, written := GuardOf(Now(), dir, req), {};
      GuardIsSound(Now(), dir, req);
      GuardHolds(Now(), dir, req);
      StartIsSafe(trace, Now(), g);
      GuardIsSpared(Now(), dir, req);
    }

    /** Steps that end a run before it writes: already staged, no verified image, or a dry run. */
    method Gate(req: Request, io: Io) returns (r: Option<Outcome>)
      ensures r == Some(AlreadyStaged) <==>
                var stored := StoredName(req.version, req.arch);
                stored in files && TakenForStaged(req, io, files[stored])
      ensures r != Some(AlreadyStaged) ==> r == if !Verified(req, io) then Some(Failed) else if req.dryRun then Some(Planned) else None
    {
      var stored := StoredName(req.version, req.arch);
      if stored in files && (req.efiChecksum == "" || (io.hashReadable && Fold(files[stored].sum) == Fold(req.efiChecksum))) {
        return Some(AlreadyStaged);
      }
      if io.image.None? {
        return Some(Failed);
      }
      if req.efiChecksum != "" && (!io.hashReadable || Fold(io.image.value.sum) != Fold(req.efiChecksum)) {
        return Some(Failed);
      }
      r := if req.dryRun then Some(Planned) else None;
    }

    /** The steps that write: make room, copy, re-point, purge. */
    method StageImage(req: Request, image: File, protected: set<string>, io: Io, ghost g: Guard, ghost from: nat)
      returns (r: Outcome, ghost room: seq<string>, ghost gone: seq<string>)
      requires io.image == Some(image) && Verified(req, io)
      requires SafeSince(from, g) && g == GuardOf(Now(), dir, req) && protected == ProtectedVersions(req, Default(menu.lines))
      requires Spares(g, req.arch, protected) && written == {}
      modifies this, menu
      ensures old(trace) <= trace && SafeSince(from, g) && (r.Staged? || r.Failed?)
      ensures r.Staged? ==> g.stored in written
      ensures r.Staged? ==>
                && g.stored in files && files[g.stored] == image.(whole := true)
                && (g.fits && !req.noRepoint ==> Boots(Now(), g.target))
                && (g.fits && req.noRepoint && g.boot.Some? ==> Boots(Now(), g.boot.value))
      ensures r.Staged? ==> Completed(old(Now()), Now(), dir, req, io, room, gone)
      ensures NothingFails(req, io, old(hasDir)) ==> r.Staged?
    {
      var landed;
      landed, room := Install(req, image, protected, io, g, from);
      gone := [];
      if !landed {
        return Failed, room, gone;
      }
      var kept;
      kept, gone := PurgeAndPrune(req, protected, io, g, from);
      r := if kept then Staged else Failed;
    }

    /** Make room and copy. */
    method Place(req: Request, image: File, protected: set<string>, io: Io, ghost g: Guard, ghost from: nat) returns (ok: bool, ghost room: seq<string>)
      requires SafeSince(from, g) && menu.lines == g.lines && Spares(g, req.arch, protected) && g.stored == StoredName(req.version, req.arch)
      modifies this
      ensures old(trace) <= trace && SafeSince(from, g)
      ensures ok ==> g.stored in written && hasDir && PlacedAs(old(files), files, req, image, protected, io, room)
      ensures RoomFor(image.size, io, old(hasDir)) && !io.mkdirFails && !io.copyFails ==> ok
    {
      ok, room := MakeRoom(req, image.size, protected, io, g, from);
      if !ok || io.mkdirFails {
        return false, room;
      }
      hasDir := true;
      ok := Copy(StoredName(req.version, req.arch), image, io.copyFails, g, from);
    }

    /** Then re-point, unless told not to. */
    method Install(req: Request, image: File, protected: set<string>, io: Io, ghost g: Guard, ghost from: nat) returns (ok: bool, ghost room: seq<string>)
      requires SafeSince(from, g) && menu.lines == g.lines && Spares(g, req.arch, protected) && g.stored == StoredName(req.version, req.arch)
      requires g.repoint == !req.noRepoint && g.target == TargetPath(dir, req)
      requires g.fits ==> WellFormedMenu(g.lines) && EntryFits(g.lines, g.target)
      modifies this, menu
      ensures old(trace) <= trace && SafeSince(from, g) && Unpruned(Now(), g)
      ensures ok ==>
                && g.stored in written && hasDir && PlacedAs(old(files), files, req, image, protected, io, room)
                && (g.fits && !req.noRepoint ==> Boots(Now(), g.target))
                && menu.lines == if req.noRepoint then g.lines else PointAt(g.lines, TargetPath(dir, req))
      ensures RoomFor(image.size, io, old(hasDir)) && !io.mkdirFails && !io.copyFails && (req.noRepoint || !io.configFails) ==> ok
    {
      ok, room := Place(req, image, protected, io, g, from);
      if !ok || req.noRepoint {
        return;
      }
      if io.configFails {
        return false, room;
      }
      Repoint(g, from, TargetPath(dir, req));
    }

    /** `EnsureBootGoal`: the file is there, and then the default points at it. None: the file
        is absent. */
    method EnsureBootGoal(version: string, arch: string, fails: bool) returns (present: bool, repointed: bool, ok: bool)
      requires Valid()
      modifies this`trace, menu
      ensures Valid() && old(trace) <= trace
      ensures GoalEnsured(old(Now()), Now(), dir, version, arch, present, repointed, ok)
    {
      var stored := StoredName(version, arch);
      present, repointed, ok := stored in files, false, false;
      if !present {
        return;
      }
      var want := KernelPath(dir, stored);
      var cur := menu.CurrentDefault();
      if cur == want {
        ok := true;
        return;
      }
      if fails {
        return;
      }
      RepointReadsBack(menu.lines, dir, version, arch);
      menu.SetDefault(want);
      trace := trace + [Now()];
      ok, repointed := true, true;
    }
  }
}
