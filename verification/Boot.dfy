/** The boot partition as the update pod sees it (internal/updatecore/bootstore.go): which
    kernels are there and which one is the default. `StagingRefinesBoot` says what a staging
    run, seen as images, keeps. */
module Boot {
  import opened Wrappers

  datatype Image = Image(ts: string, flavor: string)

  /** Where a staging run ends. */
  datatype Cut = NotFetched | NoRoom | NotCopied | NotPointed | NotPurged | Through

  /** How one call goes: whether the partition can be mounted and its menu written, how far a
      staging run gets, and what its purges take. */
  datatype Turn = Turn(mounts: bool, writes: bool, cut: Cut, purged: set<Image>)

  datatype Ensured = GoalAbsent | NotEnsured | Ensured(repointed: bool)

  class BootPartition {
    var files: set<Image>
    var default: Option<Image>
    var script: seq<Turn>

    /** Every image the default was pointed at, in order. */
    ghost var points: seq<Image>

    constructor (files: set<Image>, default: Option<Image>, script: seq<Turn>)
      ensures this.files == files && this.default == default && this.script == script && points == []
    {
      this.files, this.default, this.script := files, default, script;
      points := [];
    }

    method NextTurn() returns (t: Turn)
      modifies this`script
      ensures old(script) == [] ==> script == [] && t == Turn(true, true, Through, {})
    {
      if script == [] {
        return Turn(true, true, Through, {});
      }
      t := script[0];
      script := script[1..];
    }

    method Point(image: Image)
      modifies this`default, this`points
      ensures default == Some(image) && points == old(points) + [image]
    {
      default := Some(image);
      points := points + [image];
    }

    /** The kernels, in some order; None when the partition cannot be read. */
    method Kernels() returns (r: Option<seq<Image>>)
      modifies this`script
      ensures r.Some? ==> forall k :: k in r.value <==> k in files
      ensures old(script) == [] ==> script == [] && r.Some?
    {
      var t := NextTurn();
      if !t.mounts {
        return None;
      }
      var listing: seq<Image> := [];
      var left := files;
      while left != {}
        invariant left <= files
        invariant forall k :: k in listing <==> k in files && k !in left
        decreases |left|
      {
        var k :| k in left;
        assert forall x :: x in listing + [k] <==> x in listing || x == k;
        listing := listing + [k];
        left := left - {k};
      }
      r := Some(listing);
    }

    /** `EnsureBootGoal` */
    method EnsureBootGoal(version: string, arch: string) returns (r: Ensured)
      modifies this
      ensures files == old(files)
      ensures r.GoalAbsent? ==> Image(version, arch) !in files
      ensures r.Ensured? ==> Image(version, arch) in files && default == Some(Image(version, arch))
      ensures r.Ensured? && r.repointed ==>
                points == old(points) + [Image(version, arch)] && old(default) != Some(Image(version, arch))
      ensures !(r.Ensured? && r.repointed) ==> points == old(points) && default == old(default)
      ensures old(script) == [] ==> script == [] && !r.NotEnsured?
    {
      var t := NextTurn();
      if !t.mounts {
        return NotEnsured;
      }
      if Image(version, arch) !in files {
        return GoalAbsent;
      }
      if default == Some(Image(version, arch)) {
        return Ensured(false);
      }
      if !t.writes {
        return NotEnsured;
      }
      Point(Image(version, arch));
      r := Ensured(true);
    }

    /** `Stage`, by name only as on the controller's path. */
    method Stage(version: string, arch: string, running: string) returns (ok: bool)
      modifies this
      ensures ok ==> Image(version, arch) in files
      ensures points == old(points) || points == old(points) + [Image(version, arch)]
      ensures points == old(points) ==> default == old(default)
      ensures points != old(points) ==> default == Some(Image(version, arch)) && Image(version, arch) in files
      ensures forall k :: k in old(files) && (k.flavor != arch || k.ts == running || k.ts == version || old(default) == Some(k)) ==> k in files
      ensures forall k :: k in files ==> k in old(files) || k == Image(version, arch)
      ensures old(script) == [] ==>
                && script == [] && ok && files == old(files) + {Image(version, arch)}
                && default == if Image(version, arch) in old(files) then old(default) else Some(Image(version, arch))
    {
      var t := NextTurn();
      var image := Image(version, arch);
      if !t.mounts {
        return false;
      }
      if image in files {
        return true;
      }
      if t.cut.NotFetched? {
        return false;
      }
      ghost var before := files;
      var gone := set k | k in t.purged && k.flavor == arch && k.ts != running && k.ts != version
                          && (default.Some? ==> k.ts != default.value.ts);
      files := files - gone;
      if t.cut.NoRoom? {
        return false;
      }
      files := files + {image};
      if t.cut.NotCopied? || t.cut.NotPointed? {
        return false;
      }
      Point(image);
      ok := t.cut.Through?;
    }
  }
}
