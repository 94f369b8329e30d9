/**
 * The crash-safe swap of the native bundle. Every step on the file system may
 * throw, and the process may die before it, after it or half way through a
 * removal; the next run starts from what is left.
 */
module BundleInstaller {
  import opened Wrappers
  import opened NativeBundle

  /** The directories a swap moves between. */
  datatype Path = Package | Previous | Staged

  type Disk = map<Path, Dir>

  /** How a step ended. */
  datatype Outcome = Done | Threw | Died

  /** How a run ended. */
  datatype RunResult =
    | Installed
    | Reused
    | Failed(error: RunError)
    | Killed

  datatype RunError = RecoveryError | StagingError | InstallError | RollbackError | RestoreError

  function At(disk: Disk, p: Path): (dir: Option<Dir>) {
    if p in disk then Some(disk[p]) else None
  }

  // ------------------------------------------------------- the file system

  ghost predicate CanRename(disk: Disk, source: Path, destination: Path) {
    source in disk && (destination in disk ==> disk[destination] == map[])
  }

  function Renamed(disk: Disk, source: Path, destination: Path): (after: Disk)
    requires source in disk
  {
    (disk - {source})[destination := disk[source]]
  }

  /** No other directory is touched. */
  ghost predicate OnlyChanges(p: Path, before: Disk, after: Disk) {
    forall other :: other != p ==> At(after, other) == At(before, other)
  }

  /** A rename is atomic, and fails on a destination that is not empty. */
  ghost predicate RenameStep(before: Disk, source: Path, destination: Path, after: Disk, o: Outcome) {
    match o
    case Done => CanRename(before, source, destination) && after == Renamed(before, source, destination)
    case Threw => after == before
    case Died => after == before || (CanRename(before, source, destination) && after == Renamed(before, source, destination))
  }

  /** A removal that does not end leaves some of the files, or none. */
  ghost predicate RemoveStep(before: Disk, p: Path, after: Disk, o: Outcome) {
    && OnlyChanges(p, before, after)
    && (p in after ==> p in before && IsPartOf(after[p], before[p]))
    && (o == Done ==> p !in after)
  }

  class Installer {
    const codec: Codec
    const target: Target
    /** What the package manager puts into a staging directory when all goes well. */
    const package: Dir
    /** Whether every step does what it is asked to. */
    const reliable: bool
    var disk: Disk
    /** How often the package was installed into a staging directory. */
    var installs: nat

    constructor (codec: Codec, target: Target, package: Dir, reliable: bool, disk: Disk)
      ensures this.codec == codec && this.target == target && this.package == package && this.reliable == reliable
      ensures this.disk == disk && installs == 0
    {
      this.codec := codec;
      this.target := target;
      this.package := package;
      this.reliable := reliable;
      this.disk := disk;
      installs := 0;
    }

    // -------------------------------------------------- one step at a time

    /** Whether something goes wrong here. */
    method Fault() returns (fault: bool)
      ensures reliable ==> !fault
    {
      if * {
        return !reliable;
      }
      return false;
    }

    /** The way a step ends when something went wrong in it. */
    method Broken() returns (o: Outcome)
      ensures o != Done
    {
      if * {
        return Threw;
      }
      return Died;
    }

    /** The way a step ends once its effect is there. */
    method Completed() returns (o: Outcome)
      ensures o != Threw && (reliable ==> o == Done)
    {
      var dies := Fault();
      return if dies then Died else Done;
    }

    method Rename(source: Path, destination: Path) returns (o: Outcome)
      requires source != destination
      modifies this`disk
      ensures RenameStep(old(disk), source, destination, disk, o)
      ensures reliable && CanRename(old(disk), source, destination) ==> o == Done
    {
      var fault := Fault();
      if fault {
        o := Broken();
        return;
      }
      if source !in disk || (destination in disk && disk[destination] != map[]) {
        return Threw;
      }
      disk := Renamed(disk, source, destination);
      o := Completed();
    }

    method Remove(p: Path) returns (o: Outcome)
      modifies this`disk
      ensures RemoveStep(old(disk), p, disk, o)
      ensures reliable ==> o == Done
    {
      var fault := Fault();
      if fault {
        // Interrupted: any of the files may be gone already.
        if p in disk {
          var gone: set<string> := *;
          disk := disk[p := disk[p] - gone];
        }
        o := Broken();
        return;
      }
      disk := disk - {p};
      o := Completed();
    }

    /** A removal whose failure is ignored; dying is not. */
    method RemoveBestEffort(p: Path) returns (alive: bool)
      modifies this`disk
      ensures exists o :: RemoveStep(old(disk), p, disk, o) && alive == (o != Died)
      ensures reliable ==> alive && At(disk, p).None?
    {
      var o := Remove(p);
      alive := o != Died;
    }

    // ------------------------------------------------------------- recovery

    predicate IsValid(version: string)
      reads this
    {
      ValidVersion(codec, target, At(disk, Package)) == Some(version)
    }

    method RecoverInterruptedReplacement() returns (o: Outcome)
      modifies this`disk
      ensures Recovers(codec, target, old(disk), disk, o)
      ensures reliable ==> o == Done && At(disk, Previous).None?
    {
      if Previous !in disk {
        return Done;
      }
      if ValidVersion(codec, target, At(disk, Package)).Some? {
        var alive := RemoveBestEffort(Previous);
        return if alive then Done else Died;
      }
      if ReadComplete(codec, target, At(disk, Previous)).Some? {
        o := Remove(Package);
        if o == Done {
          o := Rename(Previous, Package);
        }
        return;
      }
      ghost var was := disk;
      var alive := RemoveBestEffort(Previous);
      PartStaysIncomplete(codec, target, At(was, Previous), At(disk, Previous));
      return if alive then Done else Died;
    }

    // -------------------------------------------------------------- staging

    /** `mkdir`, `mkdtemp` and the staging directory's own package.json: no staged package yet. */
    method MakeStagingRoot() returns (o: Outcome)
      modifies this`disk
      ensures OnlyChanges(Staged, old(disk), disk) && At(disk, Staged).None?
      ensures reliable ==> o == Done
    {
      disk := disk - {Staged};
      var fault := Fault();
      if fault {
        o := Broken();
        return;
      }
      return Done;
    }

    /** The package manager may leave anything in the staging directory, and touches nothing else. */
    method InstallBundle() returns (o: Outcome)
      modifies this`disk, this`installs
      ensures OnlyChanges(Staged, old(disk), disk) && installs == old(installs) + 1
      ensures reliable ==> o == Done && At(disk, Staged) == Some(package)
    {
      installs := installs + 1;
      var fault := Fault();
      if !fault {
        disk := disk[Staged := package];
        return Done;
      }
      disk := disk - {Staged};
      if * {
        var staged: Dir := *;
        disk := disk[Staged := staged];
      }
      if * {
        return Done;
      }
      o := Broken();
    }

    /** Writes the receipt, or fails: the bundle is not the wanted one, or the write is half done. */
    method Seal(version: string) returns (o: Outcome)
      modifies this`disk
      ensures OnlyChanges(Staged, old(disk), disk)
      ensures o == Done ==> At(disk, Staged).Some? && Sealed(codec, target, At(old(disk), Staged), version) == At(disk, Staged)
      ensures reliable ==> o == if Sealed(codec, target, At(old(disk), Staged), version).Some? then Done else Threw
    {
      var sealed := Sealed(codec, target, At(disk, Staged), version);
      if sealed.None? {
        return Threw;
      }
      var fault := Fault();
      if fault {
        var written: Bytes := *;
        disk := disk[Staged := disk[Staged][RECEIPT_FILE := written]];
        o := Broken();
        return;
      }
      disk := disk[Staged := sealed.value];
      o := Completed();
    }

    // ------------------------------------------------------------- the swap

    method ReplaceBundle(version: string) returns (r: RunResult)
      requires ValidVersion(codec, target, At(disk, Staged)) == Some(version)
      modifies this`disk
      ensures Replaces(codec, target, old(disk), version, disk, r)
      ensures reliable && At(old(disk), Previous).None? ==> r == Installed && At(disk, Previous).None?
    {
      var previousMoved := false;
      var o := Done;
      if Package in disk {
        if ReadComplete(codec, target, At(disk, Package)).Some? {
          o := Rename(Package, Previous);
          previousMoved := o == Done;
        } else {
          o := Remove(Package);
        }
      }
      if o == Done {
        o := Rename(Staged, Package);
      }
      if o == Died {
        return Killed;
      }
      if o == Done {
        var alive := RemoveBestEffort(Previous);
        return if alive then Installed else Killed;
      }
      // A step threw.
      r := RollBack(version, previousMoved);
    }

    /** The handler of a swap that threw. */
    method RollBack(version: string, previousMoved: bool) returns (r: RunResult)
      modifies this`disk
      ensures RollsBack(codec, target, old(disk), version, previousMoved, disk, r)
    {
      if IsValid(version) {
        var alive := RemoveBestEffort(Previous);
        return if alive then Reused else Killed;
      }
      if previousMoved && Previous in disk {
        var o := Remove(Package);
        if o != Done {
          return if o == Died then Killed else Failed(RollbackError);
        }
        o := Rename(Previous, Package);
        if o != Done {
          return if o == Died then Killed else Failed(RestoreError);
        }
      }
      return Failed(InstallError);
    }

    // --------------------------------------------------------------- a run

    /** From the new staging directory to the end of the swap. */
    method InstallStaged(version: string) returns (r: RunResult)
      requires RoundTrips(codec)
      modifies this`disk, this`installs
      ensures Installs(codec, target, old(disk), version, disk, r)
      ensures installs == old(installs) + 1
      ensures reliable && At(old(disk), Previous).None? && Sealed(codec, target, Some(package), version).Some?
              ==> r == Installed && At(disk, Previous).None?
      ensures reliable && Sealed(codec, target, Some(package), version).None? ==> r == Failed(StagingError)
    {
      var o := InstallBundle();
      if o == Done {
        o := Seal(version);
      }
      if o != Done {
        return if o == Died then Killed else Failed(StagingError);
      }
      SealedIsValid(codec, target, At(disk, Staged), version);
      r := ReplaceBundle(version);
    }

    method EnsureBundle(version: string) returns (r: RunResult)
      requires RoundTrips(codec)
      modifies this`disk, this`installs
      // What is asked for is there after a success.
      ensures r in {Installed, Reused} ==> IsValid(version)
      ensures r == Installed ==> installs == old(installs) + 1
      // What is there already is kept, and nothing is installed.
      ensures old(IsValid(version)) ==> r in {Reused, Killed} && installs == old(installs) && At(disk, Package) == At(old(disk), Package)
      // A complete bundle is never lost.
      ensures HoldsBundle(codec, target, old(disk)) ==> HoldsBundle(codec, target, disk)
      ensures KeepsOnFailure(Kept(codec, target, old(disk)), disk, r)
      // With nothing in the way the run succeeds.
      ensures reliable && Sealed(codec, target, Some(package), version).Some? ==>
                && r == (if ValidVersion(codec, target, Kept(codec, target, old(disk))) == Some(version) then Reused else Installed)
                && At(disk, Previous).None?
      // What cannot be sealed is not installed, and no staging directory stays behind.
      ensures reliable && Sealed(codec, target, Some(package), version).None? ==>
                r == if ValidVersion(codec, target, Kept(codec, target, old(disk))) == Some(version) then Reused else Failed(StagingError)
      ensures reliable && installs > old(installs) ==> At(disk, Staged).None?
    {
      var o := RecoverInterruptedReplacement();
      if o != Done {
        return if o == Died then Killed else Failed(RecoveryError);
      }
      if IsValid(version) {
        return Reused;
      }
      o := MakeStagingRoot();
      if o != Done {
        return if o == Died then Killed else Failed(StagingError);
      }
      r := InstallStaged(version);
      if r != Killed {
        var alive := RemoveBestEffort(Staged);
        if !alive {
          r := Killed;
        }
      }
    }

    /** Any number of runs, for any versions, each free to fail or die anywhere. */
    method AnyRuns(versions: seq<string>)
      requires RoundTrips(codec)
      modifies this`disk, this`installs
      ensures HoldsBundle(codec, target, old(disk)) ==> HoldsBundle(codec, target, disk)
    {
      for i := 0 to |versions|
        invariant HoldsBundle(codec, target, old(disk)) ==> HoldsBundle(codec, target, disk)
      {
        var r := EnsureBundle(versions[i]);
      }
    }

    /** A run that succeeded is followed by one that installs nothing. */
    method RunTwice(version: string) returns (first: RunResult, second: RunResult, installed: bool)
      requires RoundTrips(codec)
      modifies this`disk, this`installs
      ensures first in {Installed, Reused} ==> second in {Reused, Killed} && !installed && IsValid(version)
    {
      first := EnsureBundle(version);
      var before := installs;
      second := EnsureBundle(version);
      installed := installs != before;
    }
  }

  // --------------------------------------------------- what the steps promise

  /** The package directory or its recovery copy holds a complete bundle. */
  ghost predicate HoldsBundle(c: Codec, target: Target, disk: Disk) {
    ReadComplete(c, target, At(disk, Package)).Some? || ReadComplete(c, target, At(disk, Previous)).Some?
  }

  /** The bundle that counts: a valid one in place, else the recovery copy, else a complete one in place. */
  function Kept(c: Codec, target: Target, disk: Disk): (dir: Option<Dir>) {
    if ValidVersion(c, target, At(disk, Package)).Some? then At(disk, Package)
    else if ReadComplete(c, target, At(disk, Previous)).Some? then At(disk, Previous)
    else if ReadComplete(c, target, At(disk, Package)).Some? then At(disk, Package)
    else None
  }

  /** Recovery keeps the bundle that counts, and puts it in place when it ends well. */
  ghost predicate Recovers(c: Codec, target: Target, before: Disk, after: Disk, o: Outcome) {
    var kept := Kept(c, target, before);
    && At(after, Staged) == At(before, Staged)
    && (kept.Some? ==> At(after, Package) == kept || At(after, Previous) == kept)
    && (o == Done ==> At(after, Package) == if kept.Some? then kept else At(before, Package))
    && (ValidVersion(c, target, At(before, Package)).Some? ==> At(after, Package) == kept && o != Threw)
    && (o == Done && ReadComplete(c, target, At(after, Previous)).Some? ==> ValidVersion(c, target, At(after, Package)).Some?)
  }

  /** The swap: the new bundle in place, or the old one in place or in the recovery copy. */
  ghost predicate Replaces(c: Codec, target: Target, before: Disk, version: string, after: Disk, r: RunResult) {
    var was, fresh_ := At(before, Package), At(before, Staged);
    var wasComplete := ReadComplete(c, target, was).Some?;
    && (r == Installed ==> At(after, Package) == fresh_)
    && (r == Reused ==> ValidVersion(c, target, At(after, Package)) == Some(version))
    && (wasComplete ==> At(after, Package) == fresh_ || At(after, Package) == was || At(after, Previous) == was)
    && (wasComplete && r.Failed? ==> At(after, Package) == was || At(after, Previous) == was)
    && (wasComplete && r == Failed(InstallError) ==> At(after, Package) == was)
    && (!wasComplete && ReadComplete(c, target, At(before, Previous)).Some? ==>
          At(after, Package) == fresh_ || At(after, Previous) == At(before, Previous))
    && (r.Failed? ==> r.error in {InstallError, RollbackError, RestoreError})
  }

  /** The handler: the moved bundle goes back in place, or stays in the recovery copy. */
  ghost predicate RollsBack(c: Codec, target: Target, before: Disk, version: string, moved: bool, after: Disk, r: RunResult) {
    var was := At(before, Previous);
    && r != Installed
    && (r == Reused ==> ValidVersion(c, target, At(after, Package)) == Some(version))
    && (ValidVersion(c, target, At(before, Package)) == Some(version) ==> !r.Failed? && At(after, Package) == At(before, Package))
    && (ValidVersion(c, target, At(before, Package)) != Some(version) ==>
          && (!moved ==> after == before)
          && (moved && was.Some? ==> At(after, Previous) == was || At(after, Package) == was)
          && (moved && was.Some? && r == Failed(InstallError) ==> At(after, Package) == was)
          && (moved && was.None? ==> after == before))
    && (r.Failed? ==> r.error in {InstallError, RollbackError, RestoreError})
  }

  ghost predicate Installs(c: Codec, target: Target, before: Disk, version: string, after: Disk, r: RunResult) {
    && (r in {Installed, Reused} ==> ValidVersion(c, target, At(after, Package)) == Some(version))
    && (HoldsBundle(c, target, before) ==> HoldsBundle(c, target, after))
    && (ReadComplete(c, target, At(before, Package)).Some? ==> KeepsOnFailure(At(before, Package), after, r))
    && (r.Failed? ==> r.error != RecoveryError)
  }

  /** After a failure the bundle that counted is in place or in the recovery copy; short of a failed rollback, in place. */
  ghost predicate KeepsOnFailure(kept: Option<Dir>, after: Disk, r: RunResult) {
    kept.Some? && r.Failed? ==>
      && (At(after, Package) == kept || At(after, Previous) == kept)
      && (r.error in {StagingError, InstallError} ==> At(after, Package) == kept)
  }

  lemma PartStaysIncomplete(c: Codec, target: Target, whole: Option<Dir>, part: Option<Dir>)
    requires ReadComplete(c, target, whole).None?
    requires part.Some? ==> whole.Some? && IsPartOf(part.value, whole.value)
    ensures ReadComplete(c, target, part).None?
  {
    if ReadComplete(c, target, part).Some? {
      RemovalNeverCompletes(c, target, part.value, whole.value);
    }
  }
}
