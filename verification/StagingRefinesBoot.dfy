/** The partition of `Staging`, with its files and its menu, against the one the update pod
    reasons with, with its images and its default. */
module StagingRefinesBoot {
  import opened Wrappers
  import opened Names
  import opened Grub
  import opened Staging
  import opened Boot

  function ImageOf(name: string): Option<Image> {
    var p := ParseStored(name);
    if p.Some? then Some(Image(p.value.0, p.value.1)) else None
  }

  predicate Stores(files: map<string, File>, k: Image) {
    exists n :: n in files && ImageOf(n) == Some(k)
  }

  function DefaultImage(lines: seq<Line>, dir: string): Option<Image> {
    var path := Default(lines);
    if path == KernelPath(dir, Base(path)) then ImageOf(Base(path)) else None
  }

  lemma NameOfImage(name: string, k: Image)
    requires ImageOf(name) == Some(k)
    ensures name == StoredName(k.ts, k.flavor) && Digits(k.ts) && FlavorName(k.flavor)
  {
    ParsedNameIsStored(name);
  }

  /** Every state a staging run goes through keeps the images that `Boot.BootPartition.Stage`
      keeps. */
  lemma StagingKeepsImages(start: State, s: State, dir: string, req: Request, k: Image)
    requires Safe(s, GuardOf(start, dir, req)) && Stores(start.files, k)
    requires k.flavor != req.arch || k.ts == req.running || k.ts == req.version || DefaultImage(start.lines, dir) == Some(k)
    ensures Stores(s.files, k)
  {
    var n :| n in start.files && ImageOf(n) == Some(k);
    NameOfImage(n, k);
    if DefaultImage(start.lines, dir) == Some(k) {
      NameOfImage(Base(Default(start.lines)), k);
    }
    assert n in GuardOf(start, dir, req).keep;
    assert ImageOf(n) == Some(k) && n in s.files;
  }

  /** And holds no other image than those and the target. */
  lemma StagingAddsTheTarget(start: State, s: State, dir: string, req: Request, k: Image)
    requires Derived(s, GuardOf(start, dir, req)) && Stores(s.files, k)
    ensures Stores(start.files, k) || k == Image(req.version, req.arch)
  {
    var n :| n in s.files && ImageOf(n) == Some(k);
    StoredNameReadsBack(req.version, req.arch);
    assert n in start.files || n == StoredName(req.version, req.arch);
  }

  lemma PathImage(dir: string, version: string, arch: string, lines: seq<Line>)
    requires Digits(version) && FlavorName(arch)
    ensures DefaultImage(lines, dir) == Some(Image(version, arch)) <==> Default(lines) == KernelPath(dir, StoredName(version, arch))
  {
    TargetNames(dir, version, arch);
    StoredNameRoundTrip(version, arch);
    if DefaultImage(lines, dir).Some? { NameOfImage(Base(Default(lines)), DefaultImage(lines, dir).value); }
  }

  /** And its default is the one before, or the target when the run may re-point. */
  lemma StagingKeepsDefault(start: State, s: State, dir: string, req: Request)
    requires Safe(s, GuardOf(start, dir, req)) && GuardOf(start, dir, req).fits && GuardOf(start, dir, req).boot.Some?
    ensures DefaultImage(s.lines, dir) == DefaultImage(start.lines, dir)
         || (!req.noRepoint && DefaultImage(s.lines, dir) == Some(Image(req.version, req.arch)))
    ensures DefaultImage(s.lines, dir).Some? ==> Stores(s.files, DefaultImage(s.lines, dir).value)
  {
    SafeMeans(start, s, dir, req);
    PathImage(dir, req.version, req.arch, s.lines);
    DefaultIsStored(s, dir);
  }

  lemma DefaultIsStored(s: State, dir: string)
    ensures Base(Default(s.lines)) in s.files && DefaultImage(s.lines, dir).Some? ==> Stores(s.files, DefaultImage(s.lines, dir).value)
  {
  }

  /** `EnsureBootGoal`, seen as images, does what `Boot.BootPartition.EnsureBootGoal` says, on a
      well-formed menu with room for the goal. */
  lemma EnsuringRefines(before: State, after: State, dir: string, version: string, arch: string,
                        present: bool, repointed: bool, ok: bool)
    requires GoalEnsured(before, after, dir, version, arch, present, repointed, ok)
    requires Digits(version) && FlavorName(arch)
    requires WellFormedMenu(before.lines) && EntryFits(before.lines, KernelPath(dir, StoredName(version, arch)))
    ensures forall k :: Stores(after.files, k) <==> Stores(before.files, k)
    ensures present <==> Stores(before.files, Image(version, arch))
    ensures ok ==> present && DefaultImage(after.lines, dir) == Some(Image(version, arch))
    ensures ok ==> (repointed <==> DefaultImage(before.lines, dir) != Some(Image(version, arch)))
    ensures !repointed ==> DefaultImage(after.lines, dir) == DefaultImage(before.lines, dir)
  {
    PathImage(dir, version, arch, before.lines);
    PathImage(dir, version, arch, after.lines);
    StoredNameRoundTrip(version, arch);
    var image := Image(version, arch);
    if Stores(before.files, image) {
      var n :| n in before.files && ImageOf(n) == Some(image);
      NameOfImage(n, image);
    }
    if present { assert ImageOf(StoredName(version, arch)) == Some(image); }
  }
}
