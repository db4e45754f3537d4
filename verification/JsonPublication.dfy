/**
 The publication protocol of `io/json_*.rs`: rotation through a backup, hard-link creation,
 upsert, and reads that fall back to the backup. Every namespace operation and every sync
 may fail; a crash may happen at every instant recorded in `trace`.
 */
module JsonPublication {
  import opened Prelude
  import opened MetadataDirectory

  /** What `read_json` answers on a directory that does not change during the read. */
  function Visible(entries: Entries): Option<nat> {
    if Primary in entries && entries[Primary].Generation? then Some(entries[Primary].n)
    else if Backup in entries && entries[Backup].Generation? then Some(entries[Backup].n)
    else None
  }

  datatype Source = PrimaryOnly | PrimaryWithBackup | BackupOnly | Absent

  /** The write report: an error, a visible but unconfirmed value, or a durable one. */
  datatype Publication = Failed | Unconfirmed | Durable(cleanupWarning: bool)

  /** The report of hard-link creation. */
  datatype Creation = CreationFailed | Existing | Published(publication: Publication)

  /** One instant of a run: the directory, the newest value reported durable, the newest value attempted. */
  datatype Instant = Instant(disk: Disk, confirmed: Option<nat>, newest: nat)

  /**
   Generations are numbered from 1 in the order in which their writes are attempted, so each of
   them up to `newest` was written. The image reads back as one of those, at least as new as the
   confirmed one.
   */
  ghost predicate Survives(image: Entries, confirmed: Option<nat>, newest: nat) {
    match Visible(image)
    case Some(g) => confirmed.GetOr(1) <= g <= newest
    case None => confirmed.None?
  }

  /** Whatever survives a crash, the document reads as this value. */
  ghost predicate EveryImageReads(disk: Disk, value: Option<nat>) {
    forall image: Entries :: image in Images(disk) ==> Visible(image) == value
  }

  ghost predicate CrashSafe(at: Instant) {
    forall image: Entries :: image in Images(at.disk) ==> Survives(image, at.confirmed, at.newest)
  }

  /**
   What each instant adds to `CrashSafe` so that the next operation keeps it: backups always
   parse, a torn primary never comes without one, and while the primary is torn every image still
   has the backup in use.
   */
  ghost predicate Sound(at: Instant) {
    && CrashSafe(at)
    && at.confirmed.GetOr(0) <= at.newest && at.confirmed.GetOr(1) >= 1
    && (forall image: Entries :: image in Images(at.disk) && Backup in image ==> image[Backup].Generation?)
    && (forall image: Entries :: image in Images(at.disk) && Primary in image && image[Primary].Torn? ==> Backup in image)
    && (var live := Live(at.disk);
        Primary in live && live[Primary].Torn? ==>
          && Backup in live
          && forall image: Entries :: image in Images(at.disk) ==> Backup in image && image[Backup] == live[Backup])
  }

  /** A backup changes only by disappearing or by receiving the primary that is moved away. */
  ghost predicate RotationOnly(before: Entries, after: Entries) {
    Backup in after ==>
      || (Backup in before && before[Backup] == after[Backup])
      || (Primary !in after && after[Backup].Generation?)
  }

  /** The backup is removed only once every crash image holds a primary that parses. */
  ghost predicate BackupOutlived(before: Instant, after: Instant) {
    Backup in Live(before.disk) && Backup !in Live(after.disk) && Primary in Live(before.disk) ==>
      forall image: Entries :: image in Images(before.disk) ==>
        Primary in image && image[Primary] == Live(before.disk)[Primary] && image[Primary].Generation?
  }

  ghost predicate Step(before: Instant, after: Instant) {
    RotationOnly(Live(before.disk), Live(after.disk)) && BackupOutlived(before, after)
  }

  /** A run of the single writer: any number of writes, interrupted anywhere. */
  ghost predicate SafeRun(trace: seq<Instant>) {
    && (forall k :: 0 <= k < |trace| ==> CrashSafe(trace[k]))
    && (forall k :: 0 <= k < |trace| - 1 ==> Step(trace[k], trace[k + 1]))
  }

  // ----- how each operation of the protocol moves a sound instant to a sound instant -----

  /** Staging names are invisible to readers. */
  lemma StagingIsInvisible(at: Instant, op: NameOp)
    requires Sound(at)
    requires (op.Link? && op.name.Staging?) || (op.Remove? && op.name.Staging?)
    ensures var after := at.(disk := Issued(at.disk, op));
      Sound(after) && Step(at, after) && Visible(Live(after.disk)) == Visible(Live(at.disk))
    ensures forall name: Name :: !name.Staging? && name in Live(Issued(at.disk, op))
              ==> name in Live(at.disk) && Live(at.disk)[name] == Live(Issued(at.disk, op))[name]
    ensures forall name: Name :: !name.Staging? && name in Live(at.disk) ==> name in Live(Issued(at.disk, op))
    ensures forall value :: EveryImageReads(at.disk, value) ==> EveryImageReads(Issued(at.disk, op), value)
  {
    IssuedImages(at.disk, op);
    forall image | image in Images(at.disk)
      ensures Visible(Apply(image, op)) == Visible(image)
    {
    }
  }

  /** Moving a primary that parses onto the backup keeps every image readable. */
  lemma RotateIsSound(at: Instant)
    requires Sound(at)
    requires Primary in Live(at.disk) && Live(at.disk)[Primary].Generation?
    ensures var after := at.(disk := Issued(at.disk, Rename(Primary, Backup, Live(at.disk)[Primary])));
      && Sound(after) && Step(at, after)
      && Visible(Live(after.disk)) == Visible(Live(at.disk))
      && Live(after.disk) == (Live(at.disk) - {Primary})[Backup := Live(at.disk)[Primary]]
  {
    var op := Rename(Primary, Backup, Live(at.disk)[Primary]);
    IssuedImages(at.disk, op);
    assert Survives(Live(at.disk), at.confirmed, at.newest);
    forall image | image in Images(at.disk)
      ensures Visible(Apply(image, op)) == Some(op.content.n)
    {
    }
  }

  /** Restoring the rotated backup after a failed publication. */
  lemma RestoreIsSound(at: Instant)
    requires Sound(at)
    requires Backup in Live(at.disk) && Live(at.disk)[Backup].Generation? && Primary !in Live(at.disk)
    ensures var after := at.(disk := Issued(at.disk, Rename(Backup, Primary, Live(at.disk)[Backup])));
      Sound(after) && Step(at, after) && Visible(Live(after.disk)) == Visible(Live(at.disk))
  {
    var op := Rename(Backup, Primary, Live(at.disk)[Backup]);
    IssuedImages(at.disk, op);
    assert Survives(Live(at.disk), at.confirmed, at.newest);
    forall image | image in Images(at.disk)
      ensures Visible(Apply(image, op)) == Some(op.content.n)
    {
    }
  }

  /** Publishing the staged file over the primary, by rename or by hard link. */
  lemma PublishIsSound(at: Instant, op: NameOp)
    requires Sound(at)
    requires op.Rename? || op.Link?
    requires op.Rename? ==> op.source.Staging? && op.target == Primary
    requires op.Link? ==> op.name == Primary
    requires op.content.Generation? && at.newest == op.content.n >= 1
    ensures var after := at.(disk := Issued(at.disk, op));
      Sound(after) && Step(at, after) && Visible(Live(after.disk)) == Some(at.newest)
  {
    IssuedImages(at.disk, op);
    forall image | image in Images(at.disk)
      ensures Visible(Apply(image, op)) == Some(op.content.n)
    {
    }
  }

  /** Dropping the backup of a primary whose entry is already durable. */
  lemma DropBackupIsSound(at: Instant)
    requires Sound(at)
    requires Images(at.disk) == {Live(at.disk)}
    requires Primary in Live(at.disk) && Live(at.disk)[Primary].Generation?
    ensures var after := at.(disk := Issued(at.disk, Remove(Backup)));
      && Sound(after) && Step(at, after)
      && Live(after.disk) == Live(at.disk) - {Backup}
      && EveryImageReads(after.disk, Visible(Live(at.disk)))
  {
    IssuedImages(at.disk, Remove(Backup));
    forall image | image in Images(at.disk)
      ensures Visible(Apply(image, Remove(Backup))) == Visible(Live(at.disk))
    {
    }
  }

  /** Discarding a torn primary while its backup is in use. */
  lemma DiscardTornIsSound(at: Instant)
    requires Sound(at)
    requires Primary in Live(at.disk) && Live(at.disk)[Primary].Torn?
    ensures var after := at.(disk := Issued(at.disk, Remove(Primary)));
      && Sound(after) && Step(at, after)
      && Visible(Live(after.disk)) == Visible(Live(at.disk))
      && Live(after.disk) == Live(at.disk) - {Primary}
  {
    IssuedImages(at.disk, Remove(Primary));
    var live := Live(at.disk);
    assert Survives(live, at.confirmed, at.newest);
    forall image | image in Images(at.disk)
      ensures Visible(Apply(image, Remove(Primary))) == Visible(live)
    {
    }
  }

  lemma SyncIsSound(at: Instant)
    requires Sound(at)
    ensures var after := at.(disk := Synced(at.disk));
      Sound(after) && Step(at, after) && Live(after.disk) == Live(at.disk)
  {
    SyncedImages(at.disk);
    LiveSurvives(at.disk.durable, at.disk.pending);
  }

  /** Reporting a value durable is justified when every crash image reads it. */
  lemma ConfirmIsSound(at: Instant)
    requires Sound(at)
    requires EveryImageReads(at.disk, Some(at.newest))
    ensures var after := at.(confirmed := Some(at.newest)); Sound(after) && Step(at, after)
  {
    LiveSurvives(at.disk.durable, at.disk.pending);
    assert Survives(Live(at.disk), at.confirmed, at.newest);
    forall image | image in Images(at.disk)
      ensures Survives(image, Some(at.newest), at.newest)
    {
    }
  }

  lemma AttemptIsSound(at: Instant, n: nat)
    requires Sound(at) && n == at.newest + 1
    ensures var after := at.(newest := n); Sound(after) && Step(at, after)
  {
  }

  lemma LiveBackupParses(at: Instant)
    requires Sound(at) && Backup in Live(at.disk)
    ensures Live(at.disk)[Backup].Generation?
  {
    LiveSurvives(at.disk.durable, at.disk.pending);
  }

  /** Whatever power loss leaves is sound again: the chain of writes goes on from there. */
  lemma PowerLossIsSound(at: Instant, image: Entries)
    requires Sound(at) && image in Images(at.disk)
    ensures Sound(at.(disk := Disk(image, [])))
    ensures Backup in image ==> image[Backup].Generation?
    ensures Primary in image && image[Primary].Torn? ==> Backup in image
    ensures Visible(image).Some? ==> Visible(image).value >= 1
  {
    assert Survives(image, at.confirmed, at.newest);
    assert Images(Disk(image, [])) == {image} && Live(Disk(image, [])) == image;
  }

  lemma SafeRunExtends(trace: seq<Instant>, next: Instant)
    requires SafeRun(trace) && trace != [] && CrashSafe(next) && Step(trace[|trace| - 1], next)
    ensures SafeRun(trace + [next])
  {
  }

  // ----- the document and its protocol -----

  class Document {
    var disk: Disk
    var nextNonce: nat
    // When false no operation fails; when true any subset of them may.
    const faulty: bool
    ghost var confirmed: Option<nat>
    ghost var newest: nat
    // The instants since the last power loss, and those before it.
    ghost var trace: seq<Instant>
    ghost var past: seq<Instant>

    ghost function Now(): Instant
      reads this
    {
      Instant(disk, confirmed, newest)
    }

    ghost predicate Recorded()
      reads this
    {
      trace != [] && trace[|trace| - 1] == Now() && SafeRun(trace) && forall k :: 0 <= k < |past| ==> CrashSafe(past[k])
    }

    ghost predicate Valid()
      reads this
    {
      Sound(Now()) && Recorded()
    }

    ghost function Value(): Option<nat>
      reads this
    {
      Visible(Live(disk))
    }

    /** A document found on disk: absent, whole, or with a torn primary beside a valid backup. */
    constructor (found: Entries, faulty: bool)
      requires Backup in found ==> found[Backup].Generation?
      requires Primary in found && found[Primary].Torn? ==> Backup in found
      requires Visible(found).Some? ==> Visible(found).value >= 1
      ensures Valid() && disk == Disk(found, []) && this.faulty == faulty && confirmed == Visible(found)
    {
      disk := Disk(found, []);
      nextNonce := 0;
      this.faulty := faulty;
      confirmed := Visible(found);
      newest := Visible(found).GetOr(0);
      trace := [Instant(Disk(found, []), Visible(found), Visible(found).GetOr(0))];
      past := [];
    }

    /**
     The power fails and the next process finds what is left; what was attempted and what was
     reported durable are not forgotten.
     */
    method LosePower(image: Entries)
      requires Valid() && image in Images(disk)
      modifies this`disk, this`trace, this`past
      ensures Valid() && disk == Disk(image, []) && trace == [Now()] && past == old(past) + old(trace)
      ensures match Value()
              case Some(g) => confirmed.GetOr(1) <= g <= newest
              case None => confirmed.None?
    {
      PowerLossIsSound(Now(), image);
      assert Survives(image, confirmed, newest);
      disk := Disk(image, []);
      past := past + trace;
      trace := [Now()];
    }

    /** The operation keeps the document crash safe if it is issued now. */
    ghost predicate Keeps(op: NameOp)
      reads this
    {
      var after := Now().(disk := Issued(disk, op));
      Sound(after) && Step(Now(), after)
    }

    // ----- file system calls: each may fail, and then has no effect -----

    method Issue(op: NameOp) returns (ok: bool)
      requires Valid()
      modifies this`disk, this`trace
      ensures ok ==> disk == Issued(old(disk), op) && trace == old(trace) + [Now()]
      ensures !ok ==> faulty && disk == old(disk) && trace == old(trace)
      ensures old(Keeps(op)) ==> Valid()
    {
      if faulty {
        if * {
          return false;
        }
      }
      if Keeps(op) {
        SafeRunExtends(trace, Now().(disk := Issued(disk, op)));
      }
      disk := Issued(disk, op);
      trace := trace + [Now()];
      ok := true;
    }

    method SyncDirectory() returns (ok: bool)
      requires Valid()
      modifies this`disk, this`trace
      ensures Valid() && Live(disk) == old(Live(disk))
      ensures ok ==> Images(disk) == {Live(disk)} && trace == old(trace) + [Now()]
      ensures !ok ==> faulty && disk == old(disk) && trace == old(trace)
    {
      if faulty {
        if * {
          return false;
        }
      }
      SyncIsSound(Now());
      SyncedImages(disk);
      SafeRunExtends(trace, Now().(disk := Synced(disk)));
      disk := Synced(disk);
      trace := trace + [Now()];
      ok := true;
    }

    function Read(name: Name): (r: Option<Content>)
      reads this`disk
    {
      if name in Live(disk) then Some(Live(disk)[name]) else None
    }

    // ----- bookkeeping of the specification: what was attempted and what was promised -----

    ghost method Attempt(n: nat)
      requires Valid() && n == newest + 1
      modifies this`newest, this`trace
      ensures Valid() && newest == n && trace == old(trace) + [Now()]
    {
      AttemptIsSound(Now(), n);
      SafeRunExtends(trace, Now().(newest := n));
      newest := n;
      trace := trace + [Now()];
    }

    ghost method Confirm()
      requires Valid()
      requires EveryImageReads(disk, Some(newest))
      modifies this`confirmed, this`trace
      ensures Valid() && confirmed == Some(newest) && trace == old(trace) + [Now()]
    {
      ConfirmIsSound(Now());
      SafeRunExtends(trace, Now().(confirmed := Some(newest)));
      confirmed := Some(newest);
      trace := trace + [Now()];
    }

    /** Since `from`, every instant showed readers either the value before or the value being written. */
    ghost predicate OldOrNew(from: nat, before: Option<nat>)
      reads this
    {
      forall k :: from <= k < |trace| ==> Visible(Live(trace[k].disk)) in {before, Some(newest)}
    }

    // ----- json_file.rs, json_publish.rs -----

    /** The source names the generation that readers see now. */
    ghost predicate Describes(source: Source)
      reads this
    {
      var live := Live(disk);
      match source
      case PrimaryOnly => Primary in live && live[Primary].Generation? && Backup !in live
      case PrimaryWithBackup => Primary in live && live[Primary].Generation? && Backup in live
      case BackupOnly => Backup in live && (Primary in live ==> live[Primary].Torn?)
      case Absent => Primary !in live && Backup !in live
    }

    /** `publication_source`: which generation a write replaces; None stands for an error. */
    method PublicationSource() returns (source: Option<Source>)
      requires Valid()
      ensures source.Some? && Describes(source.value)
    {
      LiveSurvives(disk.durable, disk.pending);
      match Read(Primary) {
        case Some(Generation(_)) =>
          source := Some(if Read(Backup).Some? then PrimaryWithBackup else PrimaryOnly);
        case Some(Torn) =>
          match Read(Backup) {
            case Some(Generation(_)) => source := Some(BackupOnly);
            case Some(Torn) => source := None;
            case None => source := None;
          }
        case None =>
          match Read(Backup) {
            case Some(Generation(_)) => source := Some(BackupOnly);
            case Some(Torn) => source := None;
            case None => source := Some(Absent);
          }
      }
    }

    /** Create and sync a staging file under a fresh nonce. */
    method Stage(n: nat) returns (ok: bool, temporary: Name)
      requires Valid() && newest == n
      modifies this`disk, this`nextNonce, this`trace
      ensures Valid() && old(trace) <= trace && Value() == old(Value()) && OldOrNew(|old(trace)|, old(Value()))
      ensures ok ==> temporary.Staging? && temporary in Live(disk) && Live(disk)[temporary] == Generation(n)
      ensures forall name: Name :: !name.Staging? ==>
        (name in Live(disk) <==> name in old(Live(disk))) && (name in Live(disk) ==> Live(disk)[name] == old(Live(disk))[name])
      ensures !ok ==> faulty
    {
      temporary := Staging(nextNonce);
      nextNonce := nextNonce + 1;
      StagingIsInvisible(Now(), Link(temporary, Generation(n)));
      IssuedImages(disk, Link(temporary, Generation(n)));
      ok := Issue(Link(temporary, Generation(n)));
    }

    /** `write_json_commit_aware`: stage the new generation, then replace the document by it. */
    method WriteJson(n: nat) returns (r: Publication)
      requires Valid() && n == newest + 1
      modifies this`disk, this`nextNonce, this`confirmed, this`newest, this`trace
      ensures Valid() && newest == n && old(trace) <= trace
      ensures OldOrNew(|old(trace)|, old(Value()))
      ensures r.Failed? ==> faulty && Value() == old(Value()) && confirmed == old(confirmed)
      ensures r.Unconfirmed? ==> faulty && Value() == Some(n) && confirmed == old(confirmed)
      ensures r.Durable? ==> confirmed == Some(n) && EveryImageReads(disk, Some(n))
      ensures r.Durable? && !r.cleanupWarning ==> Backup !in Live(disk)
      ensures !faulty ==> r == Durable(false)
    {
      Attempt(n);
      var source := PublicationSource();
      if source.None? {
        return Failed;
      }
      var staged, temporary := Stage(n);
      if !staged {
        return Failed;
      }
      r := ReplaceWithBackup(temporary, n, source.value);
    }

    /** `PrimaryWithBackup`: make the primary durable, then drop the older backup durably. */
    method ClearBackup() returns (ok: bool)
      requires Valid() && Describes(PrimaryWithBackup)
      modifies this`disk, this`trace
      ensures Valid() && old(trace) <= trace && Value() == old(Value()) && OldOrNew(|old(trace)|, old(Value()))
      ensures ok ==> Describes(PrimaryOnly) && Images(disk) == {Live(disk)}
      ensures !ok ==> faulty
    {
      hide Sound, SafeRun, Step, Images, Live, EveryImageReads, CrashSafe;
      ok := SyncDirectory();
      if ok {
        DropBackupIsSound(Now());
        ok := Issue(Remove(Backup));
        if ok {
          ok := SyncDirectory();
        }
      }
    }

    /** Move the primary onto the backup name, durably. */
    method RotatePrimary() returns (ok: bool)
      requires Valid() && Primary in Live(disk) && Live(disk)[Primary].Generation?
      modifies this`disk, this`trace
      ensures Valid() && old(trace) <= trace && Value() == old(Value()) && OldOrNew(|old(trace)|, old(Value()))
      ensures ok ==> Primary !in Live(disk) && Backup in Live(disk) && Live(disk)[Backup].Generation?
      ensures ok ==> Images(disk) == {Live(disk)}
      ensures !ok ==> faulty
    {
      hide Sound, SafeRun, Step, Images, Live, CrashSafe;
      RotateIsSound(Now());
      ok := Issue(Rename(Primary, Backup, Live(disk)[Primary]));
      if ok {
        ok := SyncDirectory();
      }
    }

    /** Discard a primary that does not parse while its backup is in use. */
    method DiscardPrimary() returns (ok: bool)
      requires Valid() && Primary in Live(disk) && Live(disk)[Primary].Torn?
      modifies this`disk, this`trace
      ensures Valid() && old(trace) <= trace && Value() == old(Value()) && OldOrNew(|old(trace)|, old(Value()))
      ensures ok ==> Live(disk) == old(Live(disk)) - {Primary} && Images(disk) == {Live(disk)}
      ensures !ok ==> faulty
    {
      hide Sound, SafeRun, Step, Images;
      DiscardTornIsSound(Now());
      ok := Issue(Remove(Primary));
      if ok {
        ok := SyncDirectory();
      }
    }

    /** The rename that makes the staged generation visible. */
    method PublishStaged(temporary: Name, n: nat) returns (ok: bool)
      requires Valid() && newest == n >= 1 && temporary.Staging?
      modifies this`disk, this`trace
      ensures Valid() && old(trace) <= trace && OldOrNew(|old(trace)|, old(Value()))
      ensures ok ==> Value() == Some(n) && Primary in Live(disk) && Live(disk)[Primary] == Generation(n)
      ensures !ok ==> faulty && disk == old(disk)
    {
      hide Sound, SafeRun, Step, Images;
      PublishIsSound(Now(), Rename(temporary, Primary, Generation(n)));
      IssuedImages(disk, Rename(temporary, Primary, Generation(n)));
      ok := Issue(Rename(temporary, Primary, Generation(n)));
    }

    /** Put the rotated backup back after a failed publication; its own failures change nothing readers see. */
    method RestoreBackup()
      requires Valid() && Primary !in Live(disk) && Backup in Live(disk) && Live(disk)[Backup].Generation?
      modifies this`disk, this`trace
      ensures Valid() && old(trace) <= trace && Value() == old(Value()) && OldOrNew(|old(trace)|, old(Value()))
    {
      hide Sound, SafeRun, Step, Images, Live, CrashSafe;
      RestoreIsSound(Now());
      var ok := Issue(Rename(Backup, Primary, Live(disk)[Backup]));
      if ok {
        ok := SyncDirectory();
      }
    }

    /** The first half of `replace_with_backup_with`: clear the way for the new primary. */
    method PrepareTarget(source: Source) returns (ok: bool)
      requires Valid() && Describes(source)
      modifies this`disk, this`trace
      ensures Valid() && old(trace) <= trace && Value() == old(Value()) && OldOrNew(|old(trace)|, old(Value()))
      ensures ok ==> Primary !in Live(disk) && (source != Absent ==> Backup in Live(disk) && Live(disk)[Backup].Generation?)
      ensures ok && old(Primary in Live(disk)) ==> Images(disk) == {Live(disk)}
      ensures !ok ==> faulty
    {
      hide Sound, SafeRun, Step, Images;
      if Backup in Live(disk) {
        LiveBackupParses(Now());
      }
      var primaryExists, backupExists := Read(Primary).Some?, Read(Backup).Some?;
      if !ValidSource(source, primaryExists, backupExists) {
        return false;
      }
      match source {
        case PrimaryWithBackup =>
          ok := ClearBackup();
          if ok {
            ok := RotatePrimary();
          }
        case PrimaryOnly =>
          ok := RotatePrimary();
        case BackupOnly =>
          ok := true;
          if primaryExists {
            ok := DiscardPrimary();
          }
        case Absent =>
          ok := true;
      }
    }

    /** `replace_with_backup_with`. */
    method ReplaceWithBackup(temporary: Name, n: nat, source: Source) returns (r: Publication)
      requires Valid() && newest == n >= 1 && temporary.Staging? && Describes(source)
      modifies this`disk, this`confirmed, this`trace
      ensures Valid() && old(trace) <= trace
      ensures OldOrNew(|old(trace)|, old(Value()))
      ensures r.Failed? ==> faulty && Value() == old(Value()) && confirmed == old(confirmed)
      ensures r.Unconfirmed? ==> faulty && Value() == Some(n) && confirmed == old(confirmed)
      ensures r.Durable? ==> confirmed == Some(n) && EveryImageReads(disk, Some(n))
      ensures r.Durable? && !r.cleanupWarning ==> Backup !in Live(disk)
      ensures !faulty ==> r == Durable(false)
    {
      hide Sound, SafeRun, Step, Images;
      var ok := PrepareTarget(source);
      if !ok {
        return Failed;
      }
      ok := PublishStaged(temporary, n);
      if !ok {
        if (source.PrimaryOnly? || source.PrimaryWithBackup?) && Read(Backup).Some? {
          RestoreBackup();
        }
        return Failed;
      }
      r := FinishPublication(n);
      if r == Durable(false) && Read(Backup).Some? {
        r := RemoveBackup();
      }
    }

    /** The commit boundary: a visible value becomes a durable one when the directory sync succeeds. */
    method FinishPublication(n: nat) returns (r: Publication)
      requires Valid() && newest == n && Value() == Some(n)
      modifies this`disk, this`confirmed, this`trace
      ensures Valid() && old(trace) <= trace && Live(disk) == old(Live(disk)) && OldOrNew(|old(trace)|, Some(n))
      ensures r.Unconfirmed? ==> faulty && confirmed == old(confirmed)
      ensures r != Unconfirmed ==> r == Durable(false) && confirmed == Some(n) && Images(disk) == {Live(disk)}
    {
      var ok := SyncDirectory();
      if !ok {
        return Unconfirmed;
      }
      Confirm();
      r := Durable(false);
    }

    /** Cleanup after the commit: its failure is a warning, never an error. */
    method RemoveBackup() returns (r: Publication)
      requires Valid() && Images(disk) == {Live(disk)}
      requires Primary in Live(disk) && Live(disk)[Primary] == Generation(newest)
      modifies this`disk, this`trace
      ensures Valid() && old(trace) <= trace && Value() == old(Value()) && OldOrNew(|old(trace)|, old(Value()))
      ensures r.Durable? && EveryImageReads(disk, Some(newest))
      ensures !r.cleanupWarning ==> Backup !in Live(disk)
      ensures !faulty ==> !r.cleanupWarning
    {
      hide Sound, SafeRun, Step, Live, CrashSafe;
      DropBackupIsSound(Now());
      var ok := Issue(Remove(Backup));
      if !ok {
        return Durable(true);
      }
      ok := SyncDirectory();
      r := Durable(!ok);
    }

    // ----- json_create.rs -----

    /** Remove a staging name: invisible to every reader, now and after a crash. */
    method RemoveTemporary(temporary: Name) returns (ok: bool)
      requires Valid() && temporary.Staging?
      modifies this`disk, this`trace
      ensures Valid() && old(trace) <= trace && Value() == old(Value()) && OldOrNew(|old(trace)|, old(Value()))
      ensures forall value :: EveryImageReads(old(disk), value) ==> EveryImageReads(disk, value)
      ensures !ok ==> faulty
    {
      hide Sound, SafeRun, Step, Live, Images, Visible, EveryImageReads;
      StagingIsInvisible(Now(), Remove(temporary));
      ok := Issue(Remove(temporary));
    }

    /** The hard link, which the primary must not precede. */
    method LinkPrimary(n: nat) returns (ok: bool)
      requires Valid() && newest == n >= 1
      modifies this`disk, this`trace
      ensures Valid() && old(trace) <= trace && OldOrNew(|old(trace)|, old(Value()))
      ensures Value() == if ok then Some(n) else old(Value())
      ensures !ok ==> faulty && disk == old(disk)
    {
      hide Sound, SafeRun, Step, Live, Images, Visible;
      PublishIsSound(Now(), Link(Primary, Generation(n)));
      ok := Issue(Link(Primary, Generation(n)));
    }

    /** `create_json_commit_aware_with`: publish a staged file under a name that must not exist. */
    method CreateJson(n: nat) returns (r: Creation)
      requires Valid() && n == newest + 1
      modifies this`disk, this`nextNonce, this`confirmed, this`newest, this`trace
      ensures Valid() && newest == n && old(trace) <= trace
      ensures OldOrNew(|old(trace)|, old(Value()))
      ensures r.CreationFailed? ==> faulty && Value() == old(Value()) && confirmed == old(confirmed)
      ensures r.Existing? ==> Primary in old(Live(disk)) && Value() == old(Value()) && confirmed == old(confirmed)
      ensures r.Published? ==> Primary !in old(Live(disk)) && Value() == Some(n) && !r.publication.Failed?
      ensures r.Published? && r.publication.Unconfirmed? ==> faulty && confirmed == old(confirmed)
      ensures r.Published? && r.publication.Durable? ==>
        confirmed == Some(n) && EveryImageReads(disk, Some(n))
      ensures !faulty ==> r == if Primary in old(Live(disk)) then Existing else Published(Durable(false))
    {
      hide Sound, SafeRun, Step, Images, Live, Visible, EveryImageReads;
      Attempt(n);
      var staged, temporary := Stage(n);
      if !staged {
        return CreationFailed;
      }
      if Read(Primary).Some? {
        var removed := RemoveTemporary(temporary);
        return if removed then Existing else CreationFailed;
      }
      var linked := LinkPrimary(n);
      if !linked {
        var ignored := RemoveTemporary(temporary);
        return CreationFailed;
      }
      var publication := FinishPublication(n);
      if publication == Durable(false) {
        publication := RemoveStaging(temporary, n);
      }
      r := Published(publication);
    }

    /** Cleanup of the staging name after the commit. */
    method RemoveStaging(temporary: Name, n: nat) returns (r: Publication)
      requires Valid() && Images(disk) == {Live(disk)} && Value() == Some(n) && temporary.Staging?
      modifies this`disk, this`trace
      ensures Valid() && old(trace) <= trace && Value() == Some(n) && OldOrNew(|old(trace)|, Some(n))
      ensures r.Durable? && EveryImageReads(disk, Some(n))
      ensures !faulty ==> !r.cleanupWarning
    {
      hide Sound, SafeRun, Step, Live, Visible;
      assert EveryImageReads(disk, Some(n));
      var ok := RemoveTemporary(temporary);
      if !ok {
        return Durable(true);
      }
      ok := SyncDirectory();
      r := Durable(!ok);
    }

    // ----- json_document.rs -----

    /** `upsert_json`: create an absent document, replace any other. */
    method UpsertJson(n: nat) returns (ok: bool)
      requires Valid() && n == newest + 1
      modifies this`disk, this`nextNonce, this`confirmed, this`newest, this`trace
      ensures Valid() && newest == n && old(trace) <= trace
      ensures OldOrNew(|old(trace)|, old(Value()))
      ensures ok ==> confirmed == Some(n) && EveryImageReads(disk, Some(n))
      ensures !ok ==> faulty && Value() in {old(Value()), Some(n)} && confirmed == old(confirmed)
    {
      hide Sound, SafeRun, Step, Images;
      if Read(Primary).None? && Read(Backup).None? {
        var creation := CreateJson(n);
        match creation {
          case CreationFailed => return false;
          case Published(publication) => return publication.Durable?;
          case Existing => assert false;
        }
      } else {
        var publication := WriteJson(n);
        ok := publication.Durable?;
      }
    }
  }

  /** `validate_source`: the directory still has the shape the source was chosen for. */
  predicate ValidSource(source: Source, primaryExists: bool, backupExists: bool) {
    match source
    case PrimaryOnly => primaryExists && !backupExists
    case PrimaryWithBackup => primaryExists && backupExists
    case BackupOnly => backupExists
    case Absent => !primaryExists && !backupExists
  }

  // ----- readers that take no lock -----

  /** The instants at which `read_json` looks at the directory, in order. */
  datatype ReadTimes = ReadTimes(primarySeen: nat, primaryRead: nat, backupFound: nat, backupSeen: nat, backupRead: nat) {
    ghost predicate Ordered(length: nat) {
      primarySeen <= primaryRead <= backupFound <= backupSeen <= backupRead < length
    }
  }

  datatype ReadOne = Missing | Rejected | Loaded(n: nat)

  /** `read_one`: an existence check, then a read that may find the name gone. */
  function ReadName(name: Name, seen: Entries, read: Entries): ReadOne {
    if name !in seen || name !in read then Missing
    else match read[name]
         case Torn => Rejected
         case Generation(n) => Loaded(n)
  }

  /** `read_json` of a directory seen at five looks: the primary, then the backup. */
  function ReadJson(primarySeen: Entries, primaryRead: Entries, backupFound: Entries, backupSeen: Entries, backupRead: Entries): Option<nat> {
    match ReadName(Primary, primarySeen, primaryRead)
    case Loaded(n) => Some(n)
    case _ =>
      if Backup !in backupFound then None
      else
        match ReadName(Backup, backupSeen, backupRead)
        case Loaded(n) => Some(n)
        case _ => None
  }

  /** `read_json` beside a running writer, each look at its own instant. */
  function UnlockedRead(trace: seq<Instant>, at: ReadTimes): Option<nat>
    requires at.Ordered(|trace|)
  {
    ReadJson(Live(trace[at.primarySeen].disk), Live(trace[at.primaryRead].disk), Live(trace[at.backupFound].disk),
             Live(trace[at.backupSeen].disk), Live(trace[at.backupRead].disk))
  }

  /**
   A read of a directory that does not change returns the document: the primary if it parses, else the
   backup if it does, and fails exactly when neither does.
   */
  lemma StillReadIsTheDocument(entries: Entries)
    ensures ReadJson(entries, entries, entries, entries, entries) == Visible(entries)
    ensures forall g: nat :: Primary in entries && entries[Primary] == Generation(g) ==>
      ReadJson(entries, entries, entries, entries, entries) == Some(g)
    ensures forall g: nat :: (Primary !in entries || entries[Primary].Torn?) && Backup in entries && entries[Backup] == Generation(g) ==>
      ReadJson(entries, entries, entries, entries, entries) == Some(g)
    ensures ReadJson(entries, entries, entries, entries, entries).None? <==>
      (Primary !in entries || entries[Primary].Torn?) && (Backup !in entries || entries[Backup].Torn?)
  {
  }

  /** So does a read beside a writer that changes nothing during it. */
  lemma QuietReadIsTheDocument(trace: seq<Instant>, at: ReadTimes, entries: Entries)
    requires at.Ordered(|trace|) && forall k :: at.primarySeen <= k <= at.backupRead ==> Live(trace[k].disk) == entries
    ensures UnlockedRead(trace, at) == Visible(entries)
  {
    StillReadIsTheDocument(entries);
  }

  /** A backup found after the primary was not readable was the document's value in between. */
  lemma {:induction false} BackupWasVisible(trace: seq<Instant>, from: nat, last: nat)
    requires SafeRun(trace) && from <= last < |trace|
    requires var start := Live(trace[from].disk); Primary in start ==> start[Primary].Torn?
    requires var end := Live(trace[last].disk); Backup in end && end[Backup].Generation?
    decreases last
    ensures exists t :: from <= t <= last && Visible(Live(trace[t].disk)) == Some(Live(trace[last].disk)[Backup].n)
  {
    var end := Live(trace[last].disk);
    if from == last || Primary !in end {
      assert Visible(end) == Some(end[Backup].n);
    } else {
      assert Step(trace[last - 1], trace[last - 1 + 1]);
      BackupWasVisible(trace, from, last - 1);
    }
  }

  /**
   A read that takes no lock either fails or returns a value the document held at some
   instant during the read, across any number of overlapping writes.
   */
  lemma UnlockedReadIsLinearizable(trace: seq<Instant>, at: ReadTimes)
    requires SafeRun(trace) && at.Ordered(|trace|)
    ensures UnlockedRead(trace, at).Some? ==>
      exists t :: at.primarySeen <= t <= at.backupRead && Visible(Live(trace[t].disk)) == UnlockedRead(trace, at)
  {
    var first, second := Live(trace[at.primarySeen].disk), Live(trace[at.primaryRead].disk);
    if ReadName(Primary, first, second).Loaded? {
      assert Visible(second) == UnlockedRead(trace, at);
    } else if UnlockedRead(trace, at).Some? {
      var from := if Primary !in first then at.primarySeen else at.primaryRead;
      BackupWasVisible(trace, from, at.backupRead);
    }
  }

  /** After a crash at any instant of any run the document reads back no older than what was last promised. */
  lemma RecoveredValueIsRecent(trace: seq<Instant>, k: nat, keep: seq<bool>)
    requires SafeRun(trace) && k < |trace| && |keep| == |trace[k].disk.pending|
    ensures var recovered := Visible(Kept(trace[k].disk.durable, trace[k].disk.pending, keep));
      match recovered
      case Some(g) => trace[k].confirmed.GetOr(1) <= g <= trace[k].newest
      case None => trace[k].confirmed.None?
  {
    var image := Kept(trace[k].disk.durable, trace[k].disk.pending, keep);
    SurvivorsAreSubsequences(trace[k].disk.durable, trace[k].disk.pending, image);
    assert image in Images(trace[k].disk);
    assert Survives(image, trace[k].confirmed, trace[k].newest);
  }

  /** A read of whatever a crash leaves, at any instant of any run, returns a value no older than what was last promised. */
  lemma CrashedReadIsRecent(trace: seq<Instant>, k: nat, keep: seq<bool>)
    requires SafeRun(trace) && k < |trace| && |keep| == |trace[k].disk.pending|
    ensures var left := Kept(trace[k].disk.durable, trace[k].disk.pending, keep);
      match ReadJson(left, left, left, left, left)
      case Some(g) => trace[k].confirmed.GetOr(1) <= g <= trace[k].newest
      case None => trace[k].confirmed.None?
  {
    StillReadIsTheDocument(Kept(trace[k].disk.durable, trace[k].disk.pending, keep));
    RecoveredValueIsRecent(trace, k, keep);
  }
}
