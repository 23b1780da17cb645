/** The deployment transaction: whichever step fails, what the receipt says about
    the recovery is true.  Every external command is a step that may fail, with
    or without having taken effect, while the running application keeps writing
    to its database. */
module Deployment {

  datatype Option<+T> = None | Some(value: T)

  /** The five control files of a deployment. */
  datatype File = ComposeFile | StateFile | ConfigFile | UpdateScript | PortalScript

  /** `image` is the image that a compose file names for the application. */
  datatype Content = Content(image: string, text: nat)

  type Files = map<File, Content>

  /** A container remembers the image id and the configuration it was made from. */
  datatype Container = Container(image: nat, config: Content)

  /** A database is the sequence of its writes, each tagged with the image that
      made it. */
  type Database = seq<nat>

  /** What a receipt says about recovery: the first four before the transaction,
      depending on how the application became healthy, the others by it. */
  datatype Recovery =
    | NotAttempted
    | NotNeeded
    | RecoveredWithoutRestart
    | RestartVerified
    | RolledBack
    | OriginalPreserved
    | OperatorRequired
  {
    predicate Claimed() { RolledBack? || OriginalPreserved? || OperatorRequired? }
  }

  datatype Outcome = Complete | Failed

  datatype Entry = Regular(size: nat, content: Database) | Irregular

  datatype Release = Directory(files: map<string, Entry>) | NotDirectory

  /** The data archive of a release. */
  function ArchiveIn(releases: map<string, Release>, directory: string): Option<Database> {
    if directory in releases && releases[directory].Directory? && "data.tar" in releases[directory].files
       && releases[directory].files["data.tar"].Regular?
    then Some(releases[directory].files["data.tar"].content)
    else None
  }

  /** `db'` is `db` with more writes, all made by `image`. */
  ghost predicate Extends(db: Database, db': Database, image: nat) {
    db <= db' && forall i :: |db| <= i < |db'| ==> db'[i] == image
  }

  const FILES := [ComposeFile, StateFile, ConfigFile, UpdateScript, PortalScript]

  class Host {
    var files: Files
    /** Which image id each tag stands for. */
    var tags: map<string, nat>
    var container: Container
    var up: bool
    var db: Database
    /** The entries of the releases directory. */
    var releases: map<string, Release>
    var recovery: Recovery
    /** How often the compose file was written. */
    ghost var composeWrites: nat
    /** How often a stopped container was started again. */
    ghost var restarts: nat
    /** How many commands have failed. */
    ghost var faults: nat

    constructor (files: Files, tags: map<string, nat>, container: Container, db: Database, releases: map<string,
      Release>)
      ensures this.files == files && this.tags == tags && this.container == container && up && this.db == db
      ensures this.releases == releases
      ensures recovery == NotAttempted && composeWrites == 0 && restarts == 0 && faults == 0
    {
      this.files, this.tags, this.container, this.db, this.releases := files, tags, container, db, releases;
      up, recovery, composeWrites, restarts, faults := true, NotAttempted, 0, 0, 0;
    }

    // ----- single steps -----

    /** Time passes; a running application may write to its database. */
    method Work()
      modifies this`db
      ensures Extends(old(db), db, container.image) && (!up ==> db == old(db))
    {
      var n: nat := *;
      while up && n > 0
        invariant Extends(old(db), db, container.image) && (!up ==> db == old(db))
        decreases n
      {
        db := db + [container.image];
        n := n - 1;
      }
    }

    /** A command or check that changes nothing the model keeps. */
    method Attempt() returns (ok: bool)
      modifies this`db, this`faults
      ensures faults == old(faults) + if ok then 0 else 1
      ensures Extends(old(db), db, container.image) && (!up ==> db == old(db))
    {
      Work();
      ok := *;
      faults := faults + if ok then 0 else 1;
    }

    /** Updates the receipt; writing it out may fail. */
    method Report(claim: Option<Recovery>) returns (ok: bool)
      modifies this`recovery, this`db, this`faults
      ensures faults == old(faults) + if ok then 0 else 1
      ensures recovery == (if claim.Some? then claim.value else old(recovery))
      ensures Extends(old(db), db, container.image) && (!up ==> db == old(db))
    {
      if claim.Some? { recovery := claim.value; }
      ok := Attempt();
    }

    method Write(file: File, content: Option<Content>) returns (ok: bool)
      modifies this`files, this`composeWrites, this`db, this`faults
      ensures faults == old(faults) + if ok then 0 else 1
      ensures Extends(old(db), db, container.image) && (!up ==> db == old(db))
      ensures composeWrites == old(composeWrites) + if file.ComposeFile? then 1 else 0
      ensures files == Written(old(files), file, content) || (!ok && files == old(files))
    {
      Work();
      var happens: bool := *;
      ok := *;
      faults := faults + if ok then 0 else 1;
      composeWrites := composeWrites + if file.ComposeFile? then 1 else 0;
      if ok || happens { files := Written(files, file, content); }
    }

    method Stop() returns (ok: bool)
      modifies this`up, this`db, this`faults
      ensures faults == old(faults) + if ok then 0 else 1
      ensures Extends(old(db), db, container.image) && (!old(up) ==> db == old(db))
      ensures ok ==> !up
      ensures up ==> old(up)
    {
      Work();
      var happens: bool := *;
      ok := *;
      faults := faults + if ok then 0 else 1;
      if ok || happens { up := false; }
    }

    /** Starts the same container again. */
    method Restart() returns (ok: bool)
      modifies this`up, this`db, this`restarts, this`faults
      ensures faults == old(faults) + if ok then 0 else 1
      ensures old(up) ==> up
      ensures Extends(old(db), db, container.image) && (ok ==> up) && restarts == old(restarts) + 1
    {
      restarts := restarts + 1;
      var happens: bool := *;
      ok := *;
      faults := faults + if ok then 0 else 1;
      if ok || happens { up := true; }
      Work();
    }

    /** Makes the application follow the compose file; without pulling, so the
        image must be there. */
    method Reconcile() returns (ok: bool)
      modifies this`container, this`up, this`db, this`faults
      ensures faults >= old(faults)
      ensures faults == old(faults) && ComposeFile in files && files[ComposeFile].image in tags ==> ok
      ensures ok ==> up && ComposeFile in files && files[ComposeFile].image in tags
                     && container == Container(tags[files[ComposeFile].image], files[ComposeFile])
      ensures ok && !old(up) ==> Extends(old(db), db, container.image)
    {
      ok := *;
      faults := faults + if ok then 0 else 1;
      var happens: bool := *;
      if !(ok || happens) || ComposeFile !in files || files[ComposeFile].image !in tags {
        Work();
        return false;
      }
      Work();
      container := Container(tags[files[ComposeFile].image], files[ComposeFile]);
      up := true;
      Work();
    }

    /** Succeeds only if the running application has this configuration and image. */
    method Verify(config: Content, image: nat) returns (ok: bool)
      modifies this`db, this`faults
      ensures faults >= old(faults) && (faults == old(faults) && up && container == Container(image, config) ==> ok)
      ensures ok ==> up && container == Container(image, config)
      ensures Extends(old(db), db, container.image) && (!up ==> db == old(db))
    {
      ok := Attempt();
      ok := ok && up && container == Container(image, config);
    }

    /** Archives the data of the stopped application.  Unless the archive is
        complete, the application is started again before the failure is passed on. */
    method StoppedArchive(directory: string) returns (ok: bool)
      modifies this`up, this`db, this`releases, this`restarts, this`faults
      ensures faults >= old(faults)
      ensures faults == old(faults) && HasDirectory(old(releases), directory) ==> ok
      ensures !ok && faults <= old(faults) + 1 && HasDirectory(old(releases), directory) ==> up
      ensures ok ==> !up && ArchiveIn(releases, directory) == Some(db)
      ensures restarts == old(restarts) + if ok then 0 else 1
      ensures Extends(old(db), db, container.image)
    {
      var complete := false;
      ok := Attempt();
      if ok { ok := Stop(); }
      if ok { ok := Attempt(); }
      if ok && directory in releases && releases[directory].Directory? {
        var files := releases[directory].files;
        releases := releases[directory := Directory(files["data.tar" := Regular(|db|, db)])];
        complete := true;
      }
      if !complete {
        var restarted := Restart();
        return false;
      }
    }

    /** Puts the archived database back; a failure may leave none in place. */
    method RestoreDatabase(directory: string) returns (ok: bool)
      requires !up
      modifies this`db, this`faults
      ensures faults >= old(faults) && (faults == old(faults) && ArchiveIn(releases, directory).Some? ==> ok)
      ensures ok ==> ArchiveIn(releases, directory) == Some(db)
    {
      ok := *;
      faults := faults + if ok then 0 else 1;
      var archived := ArchiveIn(releases, directory);
      if archived.None? { return false; }
      var removed: bool := *;
      if removed { db := []; }
      if ok { db := archived.value; }
    }

    /** Writes back every saved control file that differs. */
    method RestoreFiles(saved: Files, names: seq<File>) returns (ok: bool)
      modifies this`files, this`composeWrites, this`db, this`faults
      ensures faults == old(faults) + if ok then 0 else 1
      ensures Extends(old(db), db, container.image) && (!up ==> db == old(db))
      ensures ok ==> forall f :: f in names ==> SameAt(files, saved, f)
      ensures forall f :: f !in names ==> SameAt(files, old(files), f)
      ensures ComposeFile !in names ==> composeWrites == old(composeWrites)
    {
      var i := 0;
      while i < |names|
        invariant 0 <= i <= |names|
        invariant Extends(old(db), db, container.image) && (!up ==> db == old(db))
        invariant forall f :: f in names[..i] ==> SameAt(files, saved, f)
        invariant forall f :: f !in names ==> SameAt(files, old(files), f)
        invariant ComposeFile !in names ==> composeWrites == old(composeWrites)
        invariant faults == old(faults)
      {
        var f := names[i];
        if !SameAt(files, saved, f) {
          ok := Write(f, if f in saved then Some(saved[f]) else None);
          if !ok { return; }
        }
        assert names[..i + 1] == names[..i] + [f];
        i := i + 1;
      }
      assert names[..i] == names;
      ok := true;
    }

    // ----- retention -----

    /** Removes the rollback archives of every release but the kept one, and
        nothing else; an archive that cannot be removed is kept. */
    method PruneArchives(keep: string) returns (failed: bool, removed: nat, freed: nat)
      modifies this`releases
      ensures releases.Keys == old(releases).Keys
      ensures forall d :: d in releases ==> Pruned(old(releases)[d], releases[d])
      ensures forall d :: d in releases && releases[d] != old(releases)[d] ==> d != keep && IsReleaseName(d)
    {
      hide Pruned, IsReleaseName;
      failed, removed, freed := false, 0, 0;
      PrunedNothing();
      var todo := releases.Keys;
      while todo != {}
        invariant todo <= releases.Keys == old(releases).Keys && forall d :: d in todo ==>
                  releases[d] == old(releases)[d]
        invariant forall d :: d in releases ==> Pruned(old(releases)[d], releases[d])
        invariant forall d :: d in releases && releases[d] != old(releases)[d] ==> d != keep && IsReleaseName(d)
        decreases todo
      {
        var d :| d in todo;
        todo := todo - {d};
        if d == keep || !IsReleaseName(d) || releases[d].NotDirectory? { continue; }
        var files, kept, count, size := PruneRelease(releases[d].files);
        releases := releases[d := Directory(files)];
        failed, removed, freed := failed || kept, removed + count, freed + size;
      }
    }

    /** Unlinks the regular rollback archives of one release, as far as possible. */
    method PruneRelease(files: map<string, Entry>)
      returns (left: map<string, Entry>, failed: bool, removed: nat, freed: nat)
      ensures Pruned(Directory(files), Directory(left))
      ensures removed == |files| - |left| && (!failed ==> forall name :: name in ROLLBACK_ARCHIVES && name in left ==>
              left[name].Irregular?)
    {
      left, failed, removed, freed := files, false, 0, 0;
      var i := 0;
      while i < |ROLLBACK_ARCHIVES|
        invariant 0 <= i <= |ROLLBACK_ARCHIVES| && Pruned(Directory(files), Directory(left))
        invariant removed == |files| - |left|
        invariant !failed ==> forall name :: name in ROLLBACK_ARCHIVES[..i] && name in left ==> left[name].Irregular?
      {
        var name := ROLLBACK_ARCHIVES[i];
        assert ROLLBACK_ARCHIVES[..i + 1] == ROLLBACK_ARCHIVES[..i] + [name];
        i := i + 1;
        if name !in left || left[name].Irregular? { continue; }
        var unlinked: bool := *;
        if !unlinked {
          failed := true;
          continue;
        }
        freed, removed := freed + left[name].size, removed + 1;
        Smaller(left, name);
        left := left - {name};
      }
    }

    /** Removes superseded image tags; Docker may refuse, and a refusal is kept. */
    method PruneImages(keepRefs: set<string>, keepIds: set<nat>) returns (failed: bool, removed: set<string>)
      modifies this`tags
      ensures tags.Keys == old(tags).Keys - removed && forall t :: t in tags ==> tags[t] == old(tags)[t]
      ensures forall t :: t in removed ==>
                t in old(tags) && IsFingerprinted(t) && t !in keepRefs && old(tags)[t] !in keepIds + {container.image}
      ensures forall t :: t in removed ==> ComposeFile in files && t != files[ComposeFile].image
    {
      removed := {};
      failed := *;
      if failed || ComposeFile !in files { return true, removed; }
      var protectedRefs, protectedIds := keepRefs + {files[ComposeFile].image}, keepIds + {container.image};
      var todo := tags.Keys;
      while todo != {}
        invariant todo <= tags.Keys && !failed
        invariant tags.Keys == old(tags).Keys - removed && forall t :: t in tags ==> tags[t] == old(tags)[t]
        invariant forall t :: t in removed ==>
                    t in old(tags) && IsFingerprinted(t) && t !in protectedRefs && old(tags)[t] !in protectedIds
        decreases todo
      {
        var ref :| ref in todo;
        todo := todo - {ref};
        if !IsFingerprinted(ref) || ref in protectedRefs || tags[ref] in protectedIds { continue; }
        var gone: bool := *;
        if gone {
          tags := tags - {ref};
          removed := removed + {ref};
        }
      }
    }

    /** Keeps exactly what a rollback of this release needs.  It never fails, so
        a success can never become a failure. */
    method EnforceRetention(directory: string, keepRefs: set<string>, keepIds: set<nat>)
      modifies this`releases, this`tags
      ensures ArchiveIn(releases, directory) == ArchiveIn(old(releases), directory)
      ensures forall t :: t in keepRefs && t in old(tags) ==> t in tags && tags[t] == old(tags)[t]
      ensures forall t :: t in old(tags) && old(tags)[t] in keepIds ==> t in tags && tags[t] == old(tags)[t]
      ensures forall d :: d in old(releases) && d != directory ==>
              d in releases && Pruned(old(releases)[d], releases[d])
    {
      var failed, removed, freed := PruneArchives(directory);
      var refused, untagged := PruneImages(keepRefs, keepIds);
    }

    // ----- the transaction -----

    /** Updates or installs.  `after` is the new compose file, `others` are the new
        control files of an installation, `built` is the image id a build would
        give.  On success the verified new configuration runs.  On failure the
        receipt's claim is true: "rolled back" means that every control file has
        its saved content, the original image runs the original configuration, and
        after an update the database is the archive that was taken while the
        application was stopped, plus writes of the original image only;
        "original preserved" means that the compose file was never written, every
        control file has its saved content and the original application was
        verified again; anything else is left to the operator.  Unless a command
        fails a sound deployment completes, and when only one command fails it
        never needs the operator.  The tag that
        the original compose file names still stands for its image, also when
        the recovery starts after retention. */
    method Transaction(install: bool, after: Content, others: Files, built: nat, state: Content, directory: string)
      returns (outcome: Outcome)
      requires !recovery.Claimed() && ComposeFile in files
      modifies this
      ensures outcome.Complete? ==>
                && up && container == Container(if install then old(container).image else built, after)
                && ComposeFile in files && files[ComposeFile] == after && StateFile in files
                && files[StateFile] == state
                && SameOthers(files, if install then others else old(files))
                && (!install ==> StoppedCopy(directory, old(db), old(container).image))
      ensures recovery.RolledBack? ==> outcome.Failed? && Restored(old(files), old(container).image)
      ensures recovery.RolledBack? && !install ==>
                && StoppedCopy(directory, old(db), old(container).image)
                && Extends(ArchiveIn(releases, directory).value, db, old(container).image)
      ensures recovery.OriginalPreserved? ==>
                && outcome.Failed? && Restored(old(files), old(container).image) && composeWrites == old(composeWrites)
                && Extends(old(db), db, old(container).image)
      ensures if outcome.Failed? then recovery.Claimed() else recovery == old(recovery)
      ensures TagKept(old(tags), tags, old(files)[ComposeFile].image, after.image)
      ensures faults >= old(faults)
      ensures faults == old(faults) && old(Deployable(install, after, directory)) ==> outcome.Complete?
      ensures faults <= old(faults) + 1 && old(Deployable(install, after, directory) && Healthy(install, after)) ==>
                !recovery.OperatorRequired?
    {
      var saved, before, original := files, files[ComposeFile], container.image;
      var stopped, cutover := false, false;
      ghost var db0 := db;
      var ok;
      ok, stopped, cutover := Forward(install, after, others, built, state, directory);
      if ok { return Complete; }
      Recover(install, saved, before, original, directory, stopped, cutover, db0);
      return Failed;
    }

    /** The release has its directory, and an installation keeps the image. */
    ghost predicate Deployable(install: bool, after: Content, directory: string)
      reads this
    {
      if install then after.image in tags && tags[after.image] == container.image else HasDirectory(releases, directory)
    }

    /** The original application runs as configured, under a tag that a new build
        does not take. */
    ghost predicate Healthy(install: bool, after: Content)
      reads this
    {
      && up && ComposeFile in files && container.config == files[ComposeFile]
      && files[ComposeFile].image in tags && tags[files[ComposeFile].image] == container.image
      && (!install ==> files[ComposeFile].image != after.image)
    }

    /** Every control file as saved, and the original image running them. */
    ghost predicate Restored(saved: Files, original: nat)
      reads this
    {
      && (forall f :: SameAt(files, saved, f))
      && ComposeFile in saved && up && container == Container(original, saved[ComposeFile])
    }

    /** The release's archive is the database as it was when the original
        application had been stopped. */
    ghost predicate StoppedCopy(directory: string, db0: Database, original: nat)
      reads this
    {
      ArchiveIn(releases, directory).Some? && Extends(db0, ArchiveIn(releases, directory).value, original)
    }

    /** What is known when the forward path has failed. */
    ghost predicate Interrupted(install: bool, saved: Files, original: nat, directory: string, stopped: bool,
                                cutover: bool, db0: Database)
      reads this
    {
      && !recovery.RolledBack? && !recovery.OriginalPreserved?
      && (!install ==> forall f :: f != ComposeFile && f != StateFile ==> SameAt(files, saved, f))
      && (!cutover ==>
            && SameAt(files, saved, ComposeFile) && (!install ==> SameAt(files, saved, StateFile))
            && container.image == original && Extends(db0, db, original))
      && (cutover && !install ==> StoppedCopy(directory, db0, original))
    }

    method Forward(install: bool, after: Content, others: Files, built: nat, state: Content, directory: string)
      returns (ok: bool, stopped: bool, cutover: bool)
      requires !recovery.Claimed() && ComposeFile in files
      modifies this
      ensures !ok ==> Interrupted(install, old(files), old(container).image, directory, stopped, cutover, old(db))
      ensures !cutover ==> composeWrites == old(composeWrites)
      ensures TagKept(old(tags), tags, old(files)[ComposeFile].image, after.image) && (install ==> tags == old(tags))
      ensures faults >= old(faults)
      ensures faults == old(faults) && old(Deployable(install, after, directory)) ==> ok
      ensures !ok && faults <= old(faults) + 1 && old(Deployable(install, after, directory)
              && Healthy(install, after)) ==>
                faults == old(faults) + 1
                && Recoverable(stopped, cutover, old(files)[ComposeFile], old(container).image)
      ensures ok ==>
                && recovery == old(recovery)
                && up && container == Container(if install then old(container).image else built, after)
                && ComposeFile in files && files[ComposeFile] == after && StateFile in files
                && files[StateFile] == state
                && SameOthers(files, if install then others else old(files))
                && (!install ==> StoppedCopy(directory, old(db), old(container).image))
    {
      hide Extends;
      cutover := false;
      var original, running := container.image, files[ComposeFile].image;
      ghost var files0 := files;
      ok, stopped := Prepare(install, after, others, built, directory);
      if !ok { return; }
      cutover := true;
      ghost var files1 := files;
      ok := CutOver(install, after, state, if install then original
        else built, {after.image, running}, {built, original}, directory);
      OthersStay(files, files1, if install then others else files0);
    }

    /** What a recovery needs in order to succeed, apart from its own commands. */
    ghost predicate Recoverable(stopped: bool, cutover: bool, before: Content, original: nat)
      reads this
    {
      if cutover then before.image in tags && tags[before.image] == original
      else (up || stopped) && container == Container(original, before)
    }

    /** Everything before the compose file is written. */
    method Prepare(install: bool, after: Content, others: Files, built: nat, directory: string)
      returns (ok: bool, stopped: bool)
      requires !recovery.Claimed() && ComposeFile in files
      modifies this
      ensures recovery == old(recovery) && composeWrites == old(composeWrites) && container == old(container)
      ensures TagKept(old(tags), tags, old(files)[ComposeFile].image, after.image)
      ensures Extends(old(db), db, container.image)
      ensures SameAt(files, old(files), ComposeFile) && SameAt(files, old(files), StateFile)
      ensures !install ==> files == old(files)
      ensures install ==> tags == old(tags)
      ensures ok && !install ==> after.image in tags && tags[after.image] == built
      ensures faults >= old(faults) && (!ok && (install || HasDirectory(old(releases), directory)) ==>
              faults > old(faults))
      ensures !ok && old(up) && (install || HasDirectory(old(releases), directory)) && faults <= old(faults) + 1 ==>
              up || stopped
      ensures ok && install ==> SameOthers(files, others)
      ensures ok && !install ==> StoppedCopy(directory, old(db), container.image)
    {
      hide ArchiveIn;
      stopped := false;
      ok := Report(None);
      if !ok { return; }
      if install {
        ok := InstallFiles(others);
        if !ok { return; }
      } else {
        ok := Attempt();
        if !ok { return; }
        tags := tags[after.image := built];
      }
      ok := Attempt();
      if !ok { return; }
      if !install {
        ok := StoppedArchive(directory);
        if !ok { return; }
        stopped := true;
        ok := Report(None);
        if !ok { return; }
      }
      ok := Attempt();
      if !ok { return; }
      ok := Report(None);
    }

    /** From the first write of the compose file on. */
    method CutOver(install: bool, after: Content, state: Content, image: nat, keepRefs: set<string>, keepIds: set<nat>,
                   directory: string)
      returns (ok: bool)
      modifies this
      ensures recovery == old(recovery) && ArchiveIn(releases, directory) == ArchiveIn(old(releases), directory)
      ensures forall t :: t in old(tags) && (t in keepRefs || old(tags)[t] in keepIds) ==>
              t in tags && tags[t] == old(tags)[t]
      ensures forall f :: f != ComposeFile && f != StateFile ==> SameAt(files, old(files), f)
      ensures install ==> tags == old(tags)
      ensures faults >= old(faults) && (after.image in old(tags) && old(tags)[after.image] == image && !ok ==>
              faults > old(faults))
      ensures ok ==> up && container == Container(image, after)
                     && ComposeFile in files && files[ComposeFile] == after && StateFile in files
                     && files[StateFile] == state
    {
      hide ArchiveIn, Extends, Pruned;
      ok := Write(ComposeFile, Some(after));
      if !ok { return; }
      ok := Reconcile();
      if !ok { return; }
      ok := Report(None);
      if !ok { return; }
      ok := Verify(after, image);
      if !ok { return; }
      ok := Attempt();
      if !ok { return; }
      ok := Write(StateFile, Some(state));
      if !ok { return; }
      if !install { EnforceRetention(directory, keepRefs, keepIds); }
      ok := Report(None);
    }

    /** The two scripts and the configuration of an installation. */
    method InstallFiles(others: Files) returns (ok: bool)
      modifies this`files, this`db, this`composeWrites, this`faults
      ensures faults == old(faults) + if ok then 0 else 1
      ensures Extends(old(db), db, container.image) && composeWrites == old(composeWrites)
      ensures SameAt(files, old(files), ComposeFile) && SameAt(files, old(files), StateFile)
      ensures ok ==> SameOthers(files, others)
    {
      var names, i := [UpdateScript, PortalScript, ConfigFile], 0;
      while i < |names|
        invariant 0 <= i <= |names| && Extends(old(db), db, container.image) && composeWrites == old(composeWrites)
        invariant (forall k :: 0 <= k < i ==> SameAt(files, others, names[k])) && faults == old(faults)
        invariant SameAt(files, old(files), ComposeFile) && SameAt(files, old(files), StateFile)
      {
        ok := Write(names[i], if names[i] in others then Some(others[names[i]]) else None);
        if !ok { return; }
        i := i + 1;
      }
      assert names[0] == UpdateScript && names[1] == PortalScript && names[2] == ConfigFile;
      ok := true;
    }

    /** The recovery branch is chosen by what the forward path had reached. */
    method Recover(install: bool, saved: Files, before: Content, original: nat, directory: string, stopped: bool,
                   cutover: bool,
                   ghost db0: Database)
      requires ComposeFile in saved && saved[ComposeFile] == before
      requires Interrupted(install, saved, original, directory, stopped, cutover, db0)
      modifies this
      ensures recovery.Claimed() && tags == old(tags) && faults >= old(faults)
      ensures faults == old(faults) && old(Recoverable(stopped, cutover, before, original)) ==>
              !recovery.OperatorRequired?
      ensures recovery.RolledBack? ==> cutover && Restored(saved, original)
      ensures recovery.RolledBack? && !install ==>
                && StoppedCopy(directory, db0, original)
                && Extends(ArchiveIn(releases, directory).value, db, original)
      ensures recovery.OriginalPreserved? ==> !cutover && Restored(saved, original) && Extends(db0, db, original)
      ensures !cutover ==> composeWrites == old(composeWrites)
    {
      var ok;
      if cutover {
        ok := RollBack(install, saved, before, original, directory, db0);
      } else {
        ok := Preserve(install, saved, before, original, stopped, db0);
      }
      if !ok {
        var told := Report(Some(OperatorRequired));
      }
    }

    method RollBack(install: bool, saved: Files, before: Content, original: nat, directory: string,
                    ghost db0: Database) returns (ok: bool)
      requires ComposeFile in saved && saved[ComposeFile] == before
      requires !install ==> StoppedCopy(directory, db0, original)
      modifies this
      ensures tags == old(tags) && faults >= old(faults)
      ensures faults == old(faults) && before.image in tags && tags[before.image] == original ==> ok
      ensures ok ==> recovery.RolledBack? && Restored(saved, original)
      ensures ok && !install ==>
                && StoppedCopy(directory, db0, original)
                && Extends(ArchiveIn(releases, directory).value, db, original)
    {
      ok := Stop();
      if !ok { return; }
      if !install {
        ok := RestoreDatabase(directory);
        if !ok { return; }
      }
      ok := RestoreFiles(saved, FILES);
      AllFiles();
      if !ok { return; }
      ok := Reconcile();
      if !ok { return; }
      ok := Verify(before, original);
      if !ok { return; }
      ok := Report(Some(RolledBack));
    }

    method Preserve(install: bool, saved: Files, before: Content, original: nat, stopped: bool, ghost db0: Database)
      returns (ok: bool)
      requires ComposeFile in saved && saved[ComposeFile] == before
      requires Interrupted(install, saved, original, "", stopped, false, db0)
      modifies this
      ensures composeWrites == old(composeWrites) && tags == old(tags) && faults >= old(faults)
      ensures faults == old(faults) && old(up || stopped) && old(container) == Container(original, before) ==> ok
      ensures ok ==> recovery.OriginalPreserved? && Restored(saved, original) && Extends(db0, db, original)
    {
      if stopped {
        ok := Restart();
        if !ok { return; }
      }
      if install {
        ok := RestoreFiles(saved, FILES[1..]);
        AllFiles();
        if !ok { return; }
      }
      ok := Verify(before, original);
      if !ok { return; }
      ok := Report(Some(OriginalPreserved));
    }
  }

  const ROLLBACK_ARCHIVES := ["data.tar", "data.tar.sha256", "data.tar.partial"]

  /** Only regular rollback archives are gone. */
  ghost predicate Pruned(before: Release, after: Release) {
    before == after
    || (before.Directory? && after.Directory? && after.files.Keys <= before.files.Keys
        && forall name :: name in before.files ==>
             if name in after.files then after.files[name] == before.files[name]
             else name in ROLLBACK_ARCHIVES && before.files[name].Regular?)
  }

  lemma {:induction false} AllFiles()
    ensures forall f: File :: f in FILES && (f in FILES[1..] <==> f != ComposeFile)
  {
    forall f: File ensures f in FILES && (f in FILES[1..] <==> f != ComposeFile) {
      var rest := FILES[1..];
      assert FILES[0] == ComposeFile && rest == [StateFile, ConfigFile, UpdateScript, PortalScript];
      assert FILES == [ComposeFile] + rest;
      match f
      case ComposeFile =>
      case StateFile => assert rest[0] == f;
      case ConfigFile => assert rest[1] == f;
      case UpdateScript => assert rest[2] == f;
      case PortalScript => assert rest[3] == f;
    }
  }

  lemma {:induction false} PrunedNothing()
    ensures forall r: Release :: Pruned(r, r)
  {
  }

  lemma {:induction false} Smaller(m: map<string, Entry>, name: string)
    requires name in m
    ensures |m - {name}| == |m| - 1
  {
  }

  predicate Decimal(s: string) { forall i :: 0 <= i < |s| ==> '0' <= s[i] <= '9' }

  predicate Hexadecimal(s: string) { forall i :: 0 <= i < |s| ==> '0' <= s[i] <= '9' || 'a' <= s[i] <= 'f' }

  /** A timestamp, then the start of a commit id or the word for a preflight. */
  predicate IsReleaseName(s: string) {
    exists n | 15 <= n < |s| - 1 ::
      Decimal(s[..8]) && s[8] == 'T' && Decimal(s[9..n]) && s[n] == 'Z' && s[n + 1] == '-'
      && (s[n + 2..] == "preflight" || (|s| - n - 2 == 12 && Hexadecimal(s[n + 2..])))
  }

  const IMAGE_REPOSITORY := "local/comfyui-image-frontend"

  predicate IsFingerprinted(ref: string) {
    |ref| == |IMAGE_REPOSITORY| + 41 && ref[..|IMAGE_REPOSITORY| + 1] == IMAGE_REPOSITORY + ":"
    && Hexadecimal(ref[|IMAGE_REPOSITORY| + 1..])
  }

  /** The tag still stands for its image, unless it is the tag of the new build. */
  predicate TagKept(tags: map<string, nat>, tags': map<string, nat>, tag: string, built: string) {
    tag in tags && tag != built ==> tag in tags' && tags'[tag] == tags[tag]
  }

  predicate HasDirectory(releases: map<string, Release>, directory: string) {
    directory in releases && releases[directory].Directory?
  }

  lemma {:induction false} OthersStay(a: Files, b: Files, c: Files)
    requires forall f :: f != ComposeFile && f != StateFile ==> SameAt(a, b, f)
    ensures SameOthers(b, c) ==> SameOthers(a, c)
  {
    assert SameAt(a, b, UpdateScript) && SameAt(a, b, PortalScript) && SameAt(a, b, ConfigFile);
  }

  /** The two scripts and the release configuration. */
  predicate SameOthers(a: Files, b: Files) { SameAt(a, b, UpdateScript) && SameAt(a, b, PortalScript) && SameAt(a, b,
                       ConfigFile) }

  predicate SameAt(a: Files, b: Files, f: File) { (f in a <==> f in b) && (f in a ==> a[f] == b[f]) }

  function Written(files: Files, file: File, content: Option<Content>): Files {
    if content.Some? then files[file := content.value] else files - {file}
  }
}
