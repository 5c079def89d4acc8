/**
 The backup and restore controller of tools/release_backup_restore.py. The restic subprocess is an
 arbitrary party: each of its answers, and the tree it leaves at the target, is an input.
 */
module BackupRestore {
  import opened Text
  import opened TreeManifest
  import opened RestoreEnvelope

  const REPOSITORY := "restic-repository-sha256:"
  const REPOSITORY_BINDING := "restic-repository-binding-sha256:"
  const RELEASE_MANIFEST := "release-manifest-sha256:"
  const VERSION := "restic-version:0.19.0"
  const MICROS := 1_000_000

  datatype BackupPayload = BackupPayload(
    snapshotId: string, sourceManifestSha: string, destinationRef: string, encrypted: bool,
    startedAt: int, endedAt: int, verificationResult: string)

  datatype RestorePayload = RestorePayload(
    backupRef: string, cleanTargetRef: string, restoredManifestSha: string,
    integrityResult: string, recoveryPointSeconds: int, recoveryTimeSeconds: int)

  datatype Receipt<P> = Receipt(
    schemaId: string, schemaVersion: string, objectId: string, issuedAt: int, issuerId: string,
    authorityClass: string, contour: string, classification: string, payload: P,
    payloadSha: string, parentRefs: seq<string>)

  /** The SHA-256 applications, and the syntax test for a digest. */
  datatype Hashes = Hashes(
    entries: seq<Entry> -> string, backup: BackupPayload -> string,
    restore: RestorePayload -> string, text: string -> string,
    target: (string, string, string) -> string, isSha: string -> bool)

  /** Every text digest has the digest syntax. */
  ghost predicate DigestsAreHex(hashes: Hashes) {
    forall text: string :: hashes.isSha(hashes.text(text))
  }

  /** A source path of a snapshot: its root is "", "/" or "//". */
  datatype SourcePath = SourcePath(root: string, parts: Path)

  datatype Snapshot = Snapshot(id: string, tags: seq<string>, paths: seq<SourcePath>)

  datatype Release = Release(objectId: string, payloadSha: string)

  /** Answers of the subprocess during a backup; None or false is a failed execution. */
  datatype BackupRun = BackupRun(
    versionOk: bool, repositoryId: Option<string>, reportedSnapshots: Option<set<string>>,
    snapshots: Option<seq<Snapshot>>, checkOk: bool)

  /** Answers of the subprocess during a restore, and the tree found at the target afterwards. */
  datatype RestoreRun = RestoreRun(
    versionOk: bool, repositoryId: Option<string>, firstSnapshots: Option<seq<Snapshot>>,
    checkOk: bool, restoreOk: bool, target: Option<Node>, secondSnapshots: Option<seq<Snapshot>>)

  datatype Clock = Clock(startedAt: int, endedAt: int, startedMonotonic: int, endedMonotonic: int)

  // ---------------------------------------------------------------- snapshots

  /** `_snapshot_source`. */
  function SnapshotSource(
    snapshots: Option<seq<Snapshot>>, snapshotId: string, requiredTags: set<string>,
    exactSource: Option<SourcePath>): Option<SourcePath>
  {
    if snapshots.None? || |snapshots.value| != 1 then None
    else
      var snapshot := snapshots.value[0];
      if snapshot.id != snapshotId || !(requiredTags <= Elements(snapshot.tags)) then None
      else if |snapshot.paths| != 1 then None
      else
        var path := snapshot.paths[0];
        if path.root == "" || path == SourcePath("/", []) || ".." in path.parts then None
        else if exactSource.Some? && exactSource.value != path then None
        else Some(path)
  }

  function ManifestTag(manifestSha: string): string {
    "dcros-manifest-" + manifestSha
  }

  function ReleaseTag(releaseSha: string): string {
    "dcros-release-" + releaseSha
  }

  // ---------------------------------------------------------------- receipts

  /** The texts after `prefix` of the references that carry it. */
  function Stripped(refs: seq<string>, prefix: string): seq<string> {
    if refs == [] then []
    else (if prefix <= refs[0] then [refs[0][|prefix|..]] else []) + Stripped(refs[1..], prefix)
  }

  function BackupReceiptOf(
    hashes: Hashes, destinationRef: string, locator: string, snapshotId: string,
    manifestSha: string, release: Release, repositoryId: string, startedAt: int, endedAt: int)
    : Receipt<BackupPayload>
  {
    var payload := BackupPayload(snapshotId, manifestSha, destinationRef, true, startedAt, endedAt,
                                 "VERIFIED");
    Receipt("BackupReceipt", "1.0.0", "backup-restic-" + snapshotId, endedAt,
            "restic-release-backup-controller", "backup-controller", "governance",
            "D1_INTERNAL_SANITIZED", payload, hashes.backup(payload),
            [release.objectId,
             RELEASE_MANIFEST + release.payloadSha,
             REPOSITORY + hashes.text(repositoryId),
             REPOSITORY_BINDING + hashes.text(repositoryId + "\0" + locator),
             VERSION])
  }

  /** What `_validate_backup_receipt` returns. */
  datatype Bound = Bound(
    objectId: string, snapshotId: string, manifestSha: string, endedAt: int, commitment: string,
    binding: string)

  function ValidateBackupReceipt(
    hashes: Hashes, destinationRef: string, receipt: Receipt<BackupPayload>): Option<Bound>
  {
    var p := receipt.payload;
    var repositories := Stripped(receipt.parentRefs, REPOSITORY);
    var bindings := Stripped(receipt.parentRefs, REPOSITORY_BINDING);
    if && receipt.schemaId == "BackupReceipt" && receipt.schemaVersion == "1.0.0"
       && receipt.contour == "governance" && receipt.classification == "D1_INTERNAL_SANITIZED"
       && receipt.objectId != ""
       && receipt.issuerId == "restic-release-backup-controller"
       && receipt.authorityClass == "backup-controller"
       && receipt.payloadSha == hashes.backup(p)
       && (forall i | 0 <= i < |receipt.parentRefs| :: receipt.parentRefs[i] != "")
       && hashes.isSha(p.snapshotId) && hashes.isSha(p.sourceManifestSha)
       && p.destinationRef == destinationRef && p.encrypted && p.verificationResult == "VERIFIED"
       && receipt.objectId == "backup-restic-" + p.snapshotId
       && p.startedAt <= p.endedAt <= receipt.issuedAt
       && |repositories| == 1 && hashes.isSha(repositories[0])
       && |bindings| == 1 && hashes.isSha(bindings[0])
       && VERSION in receipt.parentRefs
    then Some(Bound(receipt.objectId, p.snapshotId, p.sourceManifestSha, p.endedAt,
                    repositories[0], bindings[0]))
    else None
  }

  /** A release id that would be read back as a repository reference. */
  predicate Reserved(objectId: string) {
    REPOSITORY <= objectId || REPOSITORY_BINDING <= objectId
  }

  lemma PrefixesAreApart(a: string, b: string, c: string)
    ensures !(REPOSITORY <= RELEASE_MANIFEST + a) && !(REPOSITORY_BINDING <= RELEASE_MANIFEST + a)
    ensures !(REPOSITORY <= VERSION) && !(REPOSITORY_BINDING <= VERSION)
    ensures !(REPOSITORY_BINDING <= REPOSITORY + b) && !(REPOSITORY <= REPOSITORY_BINDING + c)
  {
    assert (RELEASE_MANIFEST + a)[2] == 'l';
    assert REPOSITORY[2] == 's' && REPOSITORY_BINDING[2] == 's';
    assert VERSION[7] == 'v' && REPOSITORY[7] == 'r' && REPOSITORY_BINDING[7] == 'r';
    assert (REPOSITORY + b)[18] == 's' && REPOSITORY[18] == 's';
    assert (REPOSITORY_BINDING + c)[18] == 'b' && REPOSITORY_BINDING[18] == 'b';
  }

  function Rest(ref: string, prefix: string): seq<string> {
    if prefix <= ref then [ref[|prefix|..]] else []
  }

  lemma StrippedCons(ref: string, refs: seq<string>, prefix: string)
    ensures Stripped([ref] + refs, prefix) == Rest(ref, prefix) + Stripped(refs, prefix)
  {
    assert ([ref] + refs)[1..] == refs;
  }

  lemma StrippedFive(a: string, b: string, c: string, d: string, e: string, prefix: string)
    ensures Stripped([a, b, c, d, e], prefix)
         == Rest(a, prefix) + (Rest(b, prefix) + (Rest(c, prefix) + (Rest(d, prefix) + Rest(e, prefix))))
  {
    hide Rest;
    StrippedCons(e, [], prefix);
    StrippedCons(d, [e], prefix);
    StrippedCons(c, [d, e], prefix);
    StrippedCons(b, [c, d, e], prefix);
    StrippedCons(a, [b, c, d, e], prefix);
    assert [a, b, c, d, e] == [a] + [b, c, d, e] && [b, c, d, e] == [b] + [c, d, e];
    assert [c, d, e] == [c] + [d, e] && [d, e] == [d] + [e] && [e] == [e] + [];
    assert Stripped([], prefix) == [];
  }

  /**
   The receipt round trip. An issued receipt validates exactly when the clock did not run backwards
   and the release id is not itself a repository reference; it then yields what was issued.
   */
  lemma IssuedReceiptValidates(
    hashes: Hashes, destinationRef: string, locator: string, snapshotId: string,
    manifestSha: string, release: Release, repositoryId: string, startedAt: int, endedAt: int)
    requires DigestsAreHex(hashes) && hashes.isSha(snapshotId) && hashes.isSha(manifestSha)
    requires release.objectId != ""
    ensures var receipt := BackupReceiptOf(hashes, destinationRef, locator, snapshotId, manifestSha,
                                           release, repositoryId, startedAt, endedAt);
      var validated := ValidateBackupReceipt(hashes, destinationRef, receipt);
      && (validated.Some? <==> startedAt <= endedAt && !Reserved(release.objectId))
      && (validated.Some? ==>
            validated.value
              == Bound("backup-restic-" + snapshotId, snapshotId, manifestSha, endedAt,
                       hashes.text(repositoryId), hashes.text(repositoryId + "\0" + locator)))
  {
    var commitment := hashes.text(repositoryId);
    var binding := hashes.text(repositoryId + "\0" + locator);
    var a, b, c, d := release.objectId, RELEASE_MANIFEST + release.payloadSha,
                      REPOSITORY + commitment, REPOSITORY_BINDING + binding;
    PrefixesAreApart(release.payloadSha, commitment, binding);
    StrippedFive(a, b, c, d, VERSION, REPOSITORY);
    StrippedFive(a, b, c, d, VERSION, REPOSITORY_BINDING);
    assert c[|REPOSITORY|..] == commitment && d[|REPOSITORY_BINDING|..] == binding;
    assert [a, b, c, d, VERSION][4] == VERSION;
  }

  /** A release id that looks like a repository reference: the issued receipt is refused. */
  lemma ReservedReleaseIsRefused(
    hashes: Hashes, destinationRef: string, locator: string, snapshotId: string,
    manifestSha: string, payloadSha: string, repositoryId: string, at: int)
    requires DigestsAreHex(hashes) && hashes.isSha(snapshotId) && hashes.isSha(manifestSha)
    ensures var release := Release(REPOSITORY + "x", payloadSha);
      ValidateBackupReceipt(hashes, destinationRef,
        BackupReceiptOf(hashes, destinationRef, locator, snapshotId, manifestSha, release,
                        repositoryId, at, at)) == None
  {
    IssuedReceiptValidates(hashes, destinationRef, locator, snapshotId, manifestSha,
                           Release(REPOSITORY + "x", payloadSha), repositoryId, at, at);
  }

  // ---------------------------------------------------------------- what validation demands

  /** Exactly one reference carries the prefix, and it goes on with `rest`. */
  ghost predicate OnlyReference(refs: seq<string>, prefix: string, rest: string) {
    exists i :: 0 <= i < |refs| && refs[i] == prefix + rest
      && forall j | 0 <= j < |refs| && prefix <= refs[j] :: j == i
  }

  lemma {:induction false} StrippedMeans(refs: seq<string>, prefix: string)
    ensures Stripped(refs, prefix) == [] <==> forall j | 0 <= j < |refs| :: !(prefix <= refs[j])
    ensures forall rest :: Stripped(refs, prefix) == [rest] <==> OnlyReference(refs, prefix, rest)
  {
    if refs != [] {
      var tail := refs[1..];
      StrippedMeans(tail, prefix);
      assert forall j | 0 <= j < |tail| :: tail[j] == refs[j + 1];
      assert forall j | 0 < j < |refs| :: refs[j] == tail[j - 1];
      forall rest ensures Stripped(refs, prefix) == [rest] <==> OnlyReference(refs, prefix, rest) {
        StrippedHead(refs, prefix, rest);
      }
    }
  }

  lemma StrippedHead(refs: seq<string>, prefix: string, rest: string)
    requires refs != []
    requires Stripped(refs[1..], prefix) == []
      <==> forall j | 0 <= j < |refs[1..]| :: !(prefix <= refs[1..][j])
    requires Stripped(refs[1..], prefix) == [rest] <==> OnlyReference(refs[1..], prefix, rest)
    ensures Stripped(refs, prefix) == [rest] <==> OnlyReference(refs, prefix, rest)
  {
    var tail := refs[1..];
    assert forall j | 0 < j < |refs| :: refs[j] == tail[j - 1];
    assert forall j | 0 <= j < |tail| :: tail[j] == refs[j + 1];
    assert prefix <= refs[0] ==> refs[0] == prefix + refs[0][|prefix|..];
    assert (prefix + rest)[|prefix|..] == rest;
    if prefix <= refs[0] {
      assert Stripped(refs, prefix) == [refs[0][|prefix|..]] + Stripped(tail, prefix);
      if OnlyReference(refs, prefix, rest) {
        forall j | 0 <= j < |tail| ensures !(prefix <= tail[j]) { assert tail[j] == refs[j + 1]; }
      }
      if Stripped(refs, prefix) == [rest] { assert [rest][0] == refs[0][|prefix|..]; }
    } else {
      if OnlyReference(tail, prefix, rest) {
        var i :| 0 <= i < |tail| && tail[i] == prefix + rest
          && forall j | 0 <= j < |tail| && prefix <= tail[j] :: j == i;
        assert refs[i + 1] == prefix + rest;
      }
      if OnlyReference(refs, prefix, rest) {
        var i :| 0 <= i < |refs| && refs[i] == prefix + rest
          && forall j | 0 <= j < |refs| && prefix <= refs[j] :: j == i;
        assert tail[i - 1] == prefix + rest;
      }
    }
  }

  /** What a backup receipt must be, and what validation reads off it. */
  ghost predicate Certifies(
    hashes: Hashes, destinationRef: string, receipt: Receipt<BackupPayload>, bound: Bound)
  {
    var p := receipt.payload;
    && receipt.schemaId == "BackupReceipt" && receipt.schemaVersion == "1.0.0"
    && receipt.contour == "governance" && receipt.classification == "D1_INTERNAL_SANITIZED"
    && receipt.issuerId == "restic-release-backup-controller"
    && receipt.authorityClass == "backup-controller"
    && receipt.objectId == "backup-restic-" + p.snapshotId
    && receipt.payloadSha == hashes.backup(p)
    && p.destinationRef == destinationRef && p.encrypted && p.verificationResult == "VERIFIED"
    && p.startedAt <= p.endedAt && p.endedAt <= receipt.issuedAt
    && (forall s | s in {p.snapshotId, p.sourceManifestSha, bound.commitment, bound.binding} ::
          hashes.isSha(s))
    && "" !in receipt.parentRefs && "restic-version:0.19.0" in receipt.parentRefs
    && OnlyReference(receipt.parentRefs, "restic-repository-sha256:", bound.commitment)
    && OnlyReference(receipt.parentRefs, "restic-repository-binding-sha256:", bound.binding)
    && bound.objectId == receipt.objectId && bound.snapshotId == p.snapshotId
    && bound.manifestSha == p.sourceManifestSha && bound.endedAt == p.endedAt
  }

  /** Validation returns exactly what the receipt certifies. */
  lemma ValidationMeans(
    hashes: Hashes, destinationRef: string, receipt: Receipt<BackupPayload>, bound: Bound)
    ensures ValidateBackupReceipt(hashes, destinationRef, receipt) == Some(bound)
      <==> Certifies(hashes, destinationRef, receipt, bound)
  {
    hide Stripped, OnlyReference;
    StrippedMeans(receipt.parentRefs, REPOSITORY);
    StrippedMeans(receipt.parentRefs, REPOSITORY_BINDING);
    var refs := receipt.parentRefs;
    assert (forall i | 0 <= i < |refs| :: refs[i] != "") <==> "" !in refs;
    assert receipt.objectId == "backup-restic-" + receipt.payload.snapshotId ==> receipt.objectId != "";
    var repositories, bindings := Stripped(refs, REPOSITORY), Stripped(refs, REPOSITORY_BINDING);
    assert |repositories| == 1 ==> repositories == [repositories[0]];
    assert |bindings| == 1 ==> bindings == [bindings[0]];
  }

  /** The one snapshot with this id, tagged as required, of one usable absolute path. */
  ghost predicate Certified(
    snapshots: Option<seq<Snapshot>>, snapshotId: string, requiredTags: set<string>,
    exactSource: Option<SourcePath>, path: SourcePath)
  {
    && (exists tags :: snapshots == Some([Snapshot(snapshotId, tags, [path])])
          && forall t | t in requiredTags :: t in tags)
    && path.root != "" && ".." !in path.parts
    && (path.root == "/" ==> path.parts != [])
    && (exactSource == None || exactSource == Some(path))
  }

  lemma SnapshotMeans(
    snapshots: Option<seq<Snapshot>>, snapshotId: string, requiredTags: set<string>,
    exactSource: Option<SourcePath>, path: SourcePath)
    ensures SnapshotSource(snapshots, snapshotId, requiredTags, exactSource) == Some(path)
      <==> Certified(snapshots, snapshotId, requiredTags, exactSource, path)
  {
    if snapshots.Some? && |snapshots.value| == 1 {
      var snapshot := snapshots.value[0];
      assert snapshots.value == [snapshot];
      assert forall t :: t in Elements(snapshot.tags) <==> t in snapshot.tags;
      if |snapshot.paths| == 1 {
        assert snapshot.paths == [snapshot.paths[0]];
        assert snapshot == Snapshot(snapshot.id, snapshot.tags, [snapshot.paths[0]]);
      }
    }
  }

  /** What a backup receipt says about the snapshot, the release and the repository. */
  ghost predicate BackupFigures(
    hashes: Hashes, destinationRef: string, locator: string, release: Release,
    repositoryId: string, startedAt: int, endedAt: int, receipt: Receipt<BackupPayload>)
  {
    var p := receipt.payload;
    && receipt.objectId == "backup-restic-" + p.snapshotId && receipt.issuedAt == endedAt
    && p.startedAt == startedAt && p.endedAt == endedAt && p.destinationRef == destinationRef
    && p.encrypted && p.verificationResult == "VERIFIED" && receipt.payloadSha == hashes.backup(p)
    && receipt.schemaId == "BackupReceipt" && receipt.authorityClass == "backup-controller"
    && receipt.parentRefs == [
         release.objectId, "release-manifest-sha256:" + release.payloadSha,
         "restic-repository-sha256:" + hashes.text(repositoryId),
         "restic-repository-binding-sha256:" + hashes.text(repositoryId + "\0" + locator),
         "restic-version:0.19.0"]
  }

  // ---------------------------------------------------------------- restore

  function CeilSeconds(micros: int): int
    requires micros >= 0
  {
    (micros + MICROS - 1) / MICROS
  }

  /** The least number of whole seconds, from 0 on, after which `late` is not past `early`. */
  ghost predicate LeastSeconds(early: int, late: int, n: int) {
    && 0 <= n && late <= early + n * 1_000_000
    && forall m | 0 <= m < n :: early + m * 1_000_000 < late
  }

  lemma CeilIsLeast(early: int, late: int)
    ensures LeastSeconds(early, late, CeilSeconds(if late > early then late - early else 0))
  {
  }

  /** What a restore receipt says about the backup, the tree and the two clocks. */
  ghost predicate RestoreFigures(
    hashes: Hashes, bound: Bound, backupPayloadSha: string, clock: Clock,
    receipt: Receipt<RestorePayload>)
  {
    var p := receipt.payload;
    && receipt.schemaId == "RestoreReceipt" && receipt.schemaVersion == "1.0.0"
    && receipt.objectId == "restore-restic-" + bound.snapshotId && receipt.issuedAt == clock.endedAt
    && receipt.issuerId == "restic-release-backup-controller"
    && receipt.authorityClass == "restore-controller" && receipt.contour == "governance"
    && receipt.classification == "D1_INTERNAL_SANITIZED" && receipt.payloadSha == hashes.restore(p)
    && p.backupRef == bound.objectId && p.restoredManifestSha == bound.manifestSha
    && p.integrityResult == "VERIFIED"
    && p.cleanTargetRef == "clean-target:sha256:"
         + hashes.target(bound.objectId, bound.snapshotId, bound.manifestSha)
    && LeastSeconds(bound.endedAt, clock.endedAt, p.recoveryPointSeconds)
    && LeastSeconds(clock.startedMonotonic, clock.endedMonotonic, p.recoveryTimeSeconds)
    && |receipt.parentRefs| == 4
    && receipt.parentRefs[..2] == [bound.objectId, "backup-payload-sha256:" + backupPayloadSha]
    && OnlyReference(receipt.parentRefs, "restic-repository-sha256:", bound.commitment)
    && OnlyReference(receipt.parentRefs, "restic-repository-binding-sha256:", bound.binding)
  }

  lemma FiguresOfRestore(
    hashes: Hashes, bound: Bound, backupPayloadSha: string, clock: Clock)
    requires clock.startedMonotonic <= clock.endedMonotonic
    requires bound.objectId == "backup-restic-" + bound.snapshotId
    ensures RestoreFigures(hashes, bound, backupPayloadSha, clock,
      RestoreReceiptOf(hashes, bound, backupPayloadSha, bound.manifestSha, clock))
  {
    hide CeilSeconds, LeastSeconds, OnlyReference;
    CeilIsLeast(bound.endedAt, clock.endedAt);
    CeilIsLeast(clock.startedMonotonic, clock.endedMonotonic);
    RestoreParents(bound, backupPayloadSha);
    assert clock.endedMonotonic == clock.startedMonotonic ==>
      clock.endedMonotonic - clock.startedMonotonic == 0;
  }

  lemma RestoreParents(bound: Bound, backupPayloadSha: string)
    requires bound.objectId == "backup-restic-" + bound.snapshotId
    ensures var refs := [bound.objectId, "backup-payload-sha256:" + backupPayloadSha,
        REPOSITORY + bound.commitment, REPOSITORY_BINDING + bound.binding];
      && OnlyReference(refs, "restic-repository-sha256:", bound.commitment)
      && OnlyReference(refs, "restic-repository-binding-sha256:", bound.binding)
  {
    var refs := [bound.objectId, "backup-payload-sha256:" + backupPayloadSha,
        REPOSITORY + bound.commitment, REPOSITORY_BINDING + bound.binding];
    PrefixesAreApart("", bound.commitment, bound.binding);
    assert refs[0][0] == 'b' && refs[1][0] == 'b' && REPOSITORY[0] == 'r' && REPOSITORY_BINDING[0] == 'r';
    assert refs[2] == "restic-repository-sha256:" + bound.commitment;
    assert refs[3] == "restic-repository-binding-sha256:" + bound.binding;
  }

  function RestoreReceiptOf(
    hashes: Hashes, bound: Bound, backupPayloadSha: string, restoredSha: string, clock: Clock)
    : Receipt<RestorePayload>
    requires clock.startedMonotonic <= clock.endedMonotonic
  {
    var age := clock.endedAt - bound.endedAt;
    var payload := RestorePayload(
      bound.objectId,
      "clean-target:sha256:" + hashes.target(bound.objectId, bound.snapshotId, restoredSha),
      restoredSha, "VERIFIED", CeilSeconds(if age > 0 then age else 0),
      CeilSeconds(clock.endedMonotonic - clock.startedMonotonic));
    Receipt("RestoreReceipt", "1.0.0", "restore-restic-" + bound.snapshotId, clock.endedAt,
            "restic-release-backup-controller", "restore-controller", "governance",
            "D1_INTERNAL_SANITIZED", payload, hashes.restore(payload),
            [bound.objectId, "backup-payload-sha256:" + backupPayloadSha,
             REPOSITORY + bound.commitment, REPOSITORY_BINDING + bound.binding])
  }

  /**
   What else decides a run: the receipt path is free at the start, both proofs that repository and
   target are on separate devices succeed, and the receipt is published at the end.
   */
  datatype Lane = Lane(receiptFree: bool, separate: bool, stillSeparate: bool, published: bool)

  predicate Open(lane: Lane) {
    lane.receiptFree && lane.separate && lane.stillSeparate && lane.published
  }

  class Controller {
    const destinationRef: string
    const locator: string

    constructor (destinationRef: string, locator: string)
      ensures this.destinationRef == destinationRef && this.locator == locator
    {
      this.destinationRef := destinationRef;
      this.locator := locator;
    }

    /** Everything a restore requires of the receipt, the answers and the tree. */
    ghost predicate RestoreAccepts(
      lane: Lane, hashes: Hashes, receipt: Receipt<BackupPayload>, targetFree: bool,
      run: RestoreRun, clock: Clock, source: SourcePath)
    {
      var validated := ValidateBackupReceipt(hashes, destinationRef, receipt);
      && Open(lane) && validated.Some?
      && var bound := validated.value;
      && targetFree
      && bound.endedAt <= clock.startedAt <= clock.endedAt
      && clock.startedMonotonic <= clock.endedMonotonic
      && run.versionOk && run.checkOk && run.restoreOk
      && run.repositoryId.Some?
      && hashes.text(run.repositoryId.value) == bound.commitment
      && hashes.text(run.repositoryId.value + "\0" + locator) == bound.binding
      && SnapshotSource(run.firstSnapshots, bound.snapshotId, {ManifestTag(bound.manifestSha)}, None)
           == Some(source)
      && SnapshotSource(run.secondSnapshots, bound.snapshotId, {ManifestTag(bound.manifestSha)},
                        Some(source)) == Some(source)
      && run.target.Some?
      && TreeAccepted(run.target.value, source.parts)
      && hashes.entries(Listing(Resolve(run.target.value, source.parts).value, ""))
           == bound.manifestSha
    }

    method Restore(
      lane: Lane, hashes: Hashes, receipt: Receipt<BackupPayload>, target: Path, targetFree: bool,
      run: RestoreRun, clock: Clock)
      returns (r: Result<Receipt<RestorePayload>>)
      requires target != []
      ensures r.Ok? <==> exists source ::
        RestoreAccepts(lane, hashes, receipt, targetFree, run, clock, source)
      ensures r.Ok? ==>
        && clock.startedMonotonic <= clock.endedMonotonic
        && ValidateBackupReceipt(hashes, destinationRef, receipt).Some?
        && r.value == RestoreReceiptOf(
             hashes, ValidateBackupReceipt(hashes, destinationRef, receipt).value,
             receipt.payloadSha, receipt.payload.sourceManifestSha, clock)
      ensures r.Ok? ==> exists bound ::
        && Certifies(hashes, destinationRef, receipt, bound)
        && RestoreFigures(hashes, bound, receipt.payloadSha, clock, r.value)
    {
      hide Plain, EnvelopeOk, Listing, Resolve, SnapshotSource, RestoreFigures, Certifies;
      if !lane.receiptFree {
        return Failed;
      }
      var validated := ValidateBackupReceipt(hashes, destinationRef, receipt);
      if validated.None? || !targetFree || !lane.separate {
        return Failed;
      }
      var bound := validated.value;
      if bound.endedAt > clock.startedAt || !run.versionOk || run.repositoryId.None?
         || hashes.text(run.repositoryId.value) != bound.commitment
         || hashes.text(run.repositoryId.value + "\0" + locator) != bound.binding {
        return Failed;
      }
      var tags := {"dcros-manifest-" + bound.manifestSha};
      var source := SnapshotSource(run.firstSnapshots, bound.snapshotId, tags, None);
      if source.None? || !run.checkOk || !lane.stillSeparate || !run.restoreOk || run.target.None?
         || !run.target.value.Directory? {
        return Failed;
      }
      var restored := Resolve(run.target.value, source.value.parts);
      if restored.None? || !restored.value.Directory? {
        return Failed;
      }
      var enveloped := VerifyRestoreEnvelope(run.target.value, target, source.value.parts);
      if !enveloped {
        return Failed;
      }
      var manifest := CanonicalTreeManifest(hashes.entries, restored.value);
      if manifest.Failed? || manifest.value.sha256 != bound.manifestSha {
        return Failed;
      }
      var again := SnapshotSource(run.secondSnapshots, bound.snapshotId, tags, source);
      if again.None? || clock.endedAt < clock.startedAt
         || clock.endedMonotonic < clock.startedMonotonic || !lane.published {
        return Failed;
      }
      ExactSourceIsKept(run.secondSnapshots, bound.snapshotId, tags, source.value);
      assert RestoreAccepts(lane, hashes, receipt, targetFree, run, clock, source.value);
      FiguresOfRestore(hashes, bound, receipt.payloadSha, clock);
      ValidationMeans(hashes, destinationRef, receipt, bound);
      return Ok(RestoreReceiptOf(hashes, bound, receipt.payloadSha, manifest.value.sha256, clock));
    }

    /** Everything a backup requires, ending in the snapshot it certifies. */
    ghost predicate BackupAccepts(
      lane: Lane, hashes: Hashes, source: SourcePath, before: Node, after: Node, release: Release,
      run: BackupRun, snapshotId: string)
    {
      && Open(lane)
      && Manifestable(before) && Manifestable(after)
      && hashes.entries(Listing(before, "")) == hashes.entries(Listing(after, ""))
      && run.versionOk && run.checkOk && run.repositoryId.Some?
      && run.reportedSnapshots == Some({snapshotId}) && hashes.isSha(snapshotId)
      && SnapshotSource(run.snapshots, snapshotId,
           {ManifestTag(hashes.entries(Listing(before, ""))), ReleaseTag(release.payloadSha)},
           Some(source)) == Some(source)
    }

    /** `manifest` is None if the release manifest is refused. */
    method Backup(
      lane: Lane, hashes: Hashes, source: SourcePath, before: Node, after: Node,
      manifest: Option<Release>, run: BackupRun, startedAt: int, endedAt: int)
      returns (r: Result<Receipt<BackupPayload>>)
      ensures r.Ok? <==> manifest.Some? && exists snapshotId ::
        BackupAccepts(lane, hashes, source, before, after, manifest.value, run, snapshotId)
      ensures r.Ok? ==>
        && manifest.Some? && before.Directory? && run.repositoryId.Some?
        && BackupAccepts(lane, hashes, source, before, after, manifest.value, run,
                         r.value.payload.snapshotId)
        && r.value == BackupReceiptOf(
             hashes, destinationRef, locator, r.value.payload.snapshotId,
             hashes.entries(Listing(before, "")), manifest.value, run.repositoryId.value, startedAt,
             endedAt)
        && BackupFigures(hashes, destinationRef, locator, manifest.value, run.repositoryId.value,
                         startedAt, endedAt, r.value)
        && r.value.payload.sourceManifestSha == hashes.entries(Listing(before, ""))
        && run.reportedSnapshots == Some({r.value.payload.snapshotId})
    {
      hide Plain, Listing, SnapshotSource;
      if !lane.receiptFree || manifest.None? || !lane.separate {
        return Failed;
      }
      var release := manifest.value;
      var sourceBefore := CanonicalTreeManifest(hashes.entries, before);
      if sourceBefore.Failed? || !run.versionOk || run.repositoryId.None?
         || !lane.stillSeparate || run.reportedSnapshots.None? {
        return Failed;
      }
      var ids := run.reportedSnapshots.value;
      if |ids| != 1 {
        return Failed;
      }
      var snapshotId := OnlyElement(ids);
      if !hashes.isSha(snapshotId) {
        return Failed;
      }
      var tags := {"dcros-manifest-" + sourceBefore.value.sha256, "dcros-release-" + release.payloadSha};
      var certified := SnapshotSource(run.snapshots, snapshotId, tags, Some(source));
      if certified.None? || !run.checkOk {
        return Failed;
      }
      var sourceAfter := CanonicalTreeManifest(hashes.entries, after);
      if sourceAfter.Failed? || sourceAfter.value.sha256 != sourceBefore.value.sha256
         || !lane.published {
        return Failed;
      }
      ExactSourceIsKept(run.snapshots, snapshotId, tags, source);
      assert BackupAccepts(lane, hashes, source, before, after, release, run, snapshotId);
      return Ok(BackupReceiptOf(hashes, destinationRef, locator, snapshotId,
                                sourceBefore.value.sha256, release, run.repositoryId.value,
                                startedAt, endedAt));
    }
  }

  method OnlyElement(ids: set<string>) returns (id: string)
    requires |ids| == 1
    ensures ids == {id}
  {
    id :| id in ids;
    assert |ids - {id}| == 0;
    assert ids == {id};
  }

  lemma ExactSourceIsKept(
    snapshots: Option<seq<Snapshot>>, snapshotId: string, tags: set<string>, source: SourcePath)
    requires SnapshotSource(snapshots, snapshotId, tags, Some(source)).Some?
    ensures SnapshotSource(snapshots, snapshotId, tags, Some(source)) == Some(source)
  {
  }

  /**
   End to end: whatever the subprocess does, a restore that succeeds on the receipt of a successful
   backup holds the backed-up tree, unless the two listings collide, and with a listable chain
   nothing else.
   */
  lemma RestoreReturnsTheBackedUpTree(
    controller: Controller, first: Lane, second: Lane, hashes: Hashes, source: SourcePath,
    before: Node, after: Node,
    release: Release, backup: BackupRun, snapshotId: string, startedAt: int, endedAt: int,
    targetFree: bool, run: RestoreRun, clock: Clock, restoredFrom: SourcePath)
    requires WellNamed(before) && run.target.Some? && WellNamed(run.target.value)
    requires controller.BackupAccepts(
      first, hashes, source, before, after, release, backup, snapshotId)
    requires controller.RestoreAccepts(
      second, hashes,
      BackupReceiptOf(hashes, controller.destinationRef, controller.locator, snapshotId,
        hashes.entries(Listing(before, "")), release, backup.repositoryId.value, startedAt, endedAt),
      targetFree, run, clock, restoredFrom)
    requires Apart(hashes.entries, Listing(Resolve(run.target.value, restoredFrom.parts).value, ""),
                   Listing(before, ""))
    ensures Resolve(run.target.value, restoredFrom.parts) == Some(before)
    ensures Profile(run.target.value, restoredFrom.parts, seq(|restoredFrom.parts|, _ => true)) ==>
      && Sealed(run.target.value, restoredFrom.parts)
      && At(run.target.value, restoredFrom.parts) == Some(before)
  {
    hide SnapshotSource;
    var restored := Resolve(run.target.value, restoredFrom.parts).value;
    ResolveKeepsNames(run.target.value, restoredFrom.parts);
    ManifestIdentifiesTree(hashes.entries, restored, before);
    if Profile(run.target.value, restoredFrom.parts, seq(|restoredFrom.parts|, _ => true)) {
      AcceptedTreeIsSealed(run.target.value, restoredFrom.parts);
    }
  }

  lemma {:induction false} ResolveKeepsNames(node: Node, path: Path)
    requires WellNamed(node) && Resolve(node, path).Some?
    ensures WellNamed(Resolve(node, path).value)
    decreases |path|
  {
    if path != [] {
      FollowKeepsNames(node);
      ResolveKeepsNames(Follow(node).children[path[0]], path[1..]);
    }
  }

  lemma {:induction false} FollowKeepsNames(node: Node)
    requires WellNamed(node)
    ensures WellNamed(Follow(node))
  {
    if node.Symlink? { FollowKeepsNames(node.destination); }
  }
}
