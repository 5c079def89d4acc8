/**
 The deploy controller of tools/pre_soak_deploy.py over an abstract remote host: the host, what one
 command may do to it, the order of commands of each action, and the receipts that link actions.
 Between commands nobody else acts on the host.

 What comes back from outside is a script: reply n answers the n-th event of a run. A command is
 done, refused (a non-zero exit, which an unchecked call ignores), or raised: the runner gave up
 on a time-out, an operating system error or unusable output, which no call ignores.
 */
module Deployment {
  import opened Text

  type Bytes = seq<bv8>

  datatype Bundle = Bundle(
    releaseSha: string, imageId: string, policySha: string, configSha: string,
    archiveSha: Option<string>, unitBytes: Bytes, unitSha: string, capsule: Option<string>,
    previousRelease: string)

  /** `conforming` covers the frozen runtime policy beyond the identity fields. */
  datatype Container = Container(
    image: string, releaseSha: string, policySha: string, configSha: string,
    capsule: Option<string>, conforming: bool, running: bool)

  /** The conflicting predecessor; its container, if there is one, is running or not. */
  datatype Predecessor = Predecessor(active: bool, enabled: bool, container: Option<bool>)

  /**
   Stored files are their bytes or, where only that is ever read, their digest; `pause` is the
   pause state the service reports.
   */
  datatype Host = Host(
    active: bool, enabled: bool, liveUnit: Option<Bytes>, nextUnit: Option<Bytes>,
    savedUnit: Option<Bytes>, archive: Option<string>, configFile: Option<string>,
    images: map<string, string>, container: Option<Container>, configVolume: Option<string>,
    pause: string, bootSha: string, predecessor: Predecessor)

  datatype Hashes = Hashes(
    unit: Bytes -> string, pause: string -> string, payload: Payload -> string)

  predicate Matches(c: Container, bundle: Bundle) {
    && c.image == bundle.imageId && c.releaseSha == bundle.releaseSha
    && c.policySha == bundle.policySha && c.configSha == bundle.configSha
    && c.capsule == bundle.capsule && c.conforming
  }

  // ---------------------------------------------------------------- commands

  datatype Outcome = Done | Refused | Raised

  /**
   `wild` is where the touched part of the host ends up unless success fixes it; `inspected` says
   whether `container inspect` worked inside a remote script that goes on without it.
   */
  datatype Reply = Reply(outcome: Outcome, inspected: bool, wild: Host)

  datatype Mutation =
    | MakeDirectories | TransferArchive | LoadImage | TransferConfig | ProtectConfig
    | MakeCapsuleDirectory | TransferCapsuleObject | SealCapsule | CleanCapsule
    | CreateRuntimeVolume | CreateConfigVolume
    | InitializeVolumes | InitializeFromCapsule(configSha: string)
    | SaveUnit | ProtectUnit | StageUnit
    | MoveUnit | ReloadDaemon | EnableService
    | DisableService | StopContainer | RetireUnit

  /** The host after a command. A command that is not done may have done anything to its part. */
  function After(h: Host, m: Mutation, reply: Reply): Host {
    var done, wild := reply.outcome.Done?, reply.wild;
    match m
    case TransferArchive => h.(archive := wild.archive)
    case LoadImage => h.(images := wild.images)
    case TransferConfig => h.(configFile := wild.configFile)
    case InitializeVolumes => h.(configVolume := wild.configVolume, pause := wild.pause)
    case InitializeFromCapsule(sha) =>
      h.(configVolume := if done then Some(sha) else wild.configVolume, pause := wild.pause)
    case SaveUnit => h.(savedUnit := wild.savedUnit)
    case StageUnit => h.(nextUnit := wild.nextUnit)
    case MoveUnit =>
      h.(liveUnit := if done then h.nextUnit else wild.liveUnit,
         nextUnit := if done then None else wild.nextUnit)
    case EnableService =>
      h.(active := wild.active, enabled := wild.enabled, container := wild.container,
         pause := wild.pause)
    case DisableService =>
      h.(active := !done && wild.active, enabled := !done && wild.enabled,
         container := wild.container, pause := wild.pause)
    case StopContainer =>
      h.(container := if done && wild.container.Some?
                      then Some(wild.container.value.(running := false)) else wild.container,
         pause := wild.pause)
    case RetireUnit => h.(liveUnit := if done then None else wild.liveUnit)
    case _ => h
  }

  /** What a command can ask about the host; the first three ask nothing this model keeps. */
  datatype Fact =
    | AliasExpands | HostFits | EngineFits
    | ServiceActive | ServiceEnabled
    | ArchiveIs(sha: string) | ConfigIs(sha: string) | VolumeIs(sha: string)
    | SavedUnitIs(sha: string) | NextUnitIs(sha: string)
    | ImageIs(id: string, revision: string)
    | ContainerIs(bundle: Bundle, running: bool)
    | PauseState | BootIdentity
    | PredecessorActive | PredecessorEnabled | PredecessorNotRunning

  predicate UnitIs(hashes: Hashes, file: Option<Bytes>, sha: string) {
    file.Some? && hashes.unit(file.value) == sha
  }

  predicate Holds(hashes: Hashes, h: Host, f: Fact) {
    match f
    case ServiceActive => h.active
    case ServiceEnabled => h.enabled
    case ArchiveIs(sha) => h.archive == Some(sha)
    case ConfigIs(sha) => h.configFile == Some(sha)
    case VolumeIs(sha) => h.configVolume == Some(sha)
    case SavedUnitIs(sha) => UnitIs(hashes, h.savedUnit, sha)
    case NextUnitIs(sha) => UnitIs(hashes, h.nextUnit, sha)
    case ImageIs(id, revision) => id in h.images && h.images[id] == revision
    case ContainerIs(bundle, running) =>
      && h.container.Some? && Matches(h.container.value, bundle)
      && h.container.value.running == running
    case PredecessorActive => h.predecessor.active
    case PredecessorEnabled => h.predecessor.enabled
    case PredecessorNotRunning => h.predecessor.container != Some(true)
    case _ => true
  }

  /**
   What an answered question reports. The remote script about the predecessor's container prints
   `ABSENT` whenever its inner `inspect` fails, for whatever reason, and the engine answers.
   */
  predicate Reported(hashes: Hashes, h: Host, f: Fact, reply: Reply) {
    Holds(hashes, h, f) || (f.PredecessorNotRunning? && !reply.inspected)
  }

  datatype Event =
    | Asked(fact: Fact, outcome: Outcome)
    | Mutated(mutation: Mutation, outcome: Outcome)
    | Authorized(accepted: bool)
    | ConflictsCleared

  datatype Step =
    | Checked(mutation: Mutation)     // stops the action unless done
    | Unchecked(mutation: Mutation)   // stops it only if the runner raised
    | Demand(fact: Fact)              // goes on only if the answer is yes
    | Deny(fact: Fact)                // a quiet question: no answer reads like "no"
    | Tolerate(fact: Fact)            // any answer or refusal will do
    | Consent                         // the authorization callback
    | Clear                           // the conflict check returned
    | Refuse                          // a local check failed

  /** Whether the lane names a conflicting predecessor: neither name, both, or only one of them. */
  datatype Profile = NoConflict | Named | Incomplete

  datatype World = World(hashes: Hashes, profile: Profile, script: nat -> Reply)

  /** A run so far; `ok` is false once an error is on its way out. */
  datatype Run = Run(host: Host, log: seq<Event>, ok: bool)

  function Perform(w: World, s: Step, r: Run): Run {
    if !r.ok then r else
    var reply := w.script(|r.log|);
    var o := reply.outcome;
    match s
    case Checked(m) => Run(After(r.host, m, reply), r.log + [Mutated(m, o)], o.Done?)
    case Unchecked(m) => Run(After(r.host, m, reply), r.log + [Mutated(m, o)], !o.Raised?)
    case Demand(f) =>
      Run(r.host, r.log + [Asked(f, o)], o.Done? && Reported(w.hashes, r.host, f, reply))
    case Deny(f) =>
      Run(r.host, r.log + [Asked(f, o)],
          o.Refused? || (o.Done? && !Reported(w.hashes, r.host, f, reply)))
    case Tolerate(f) => Run(r.host, r.log + [Asked(f, o)], !o.Raised?)
    case Consent => Run(r.host, r.log + [Authorized(o.Done?)], o.Done?)
    case Clear => Run(r.host, r.log + [ConflictsCleared], true)
    case Refuse => r.(ok := false)
  }

  /** The steps in order, up to the first that stops. */
  function Play(w: World, steps: seq<Step>, r: Run): Run {
    if !r.ok || steps == [] then r else Play(w, steps[1..], Perform(w, steps[0], r))
  }

  // ---------------------------------------------------------------- the actions as plans

  const PREFLIGHT := [Demand(AliasExpands), Demand(HostFits), Demand(EngineFits)]

  function ConflictPlan(profile: Profile): seq<Step> {
    match profile
    case NoConflict => [Clear]
    case Incomplete => [Refuse]
    case Named =>
      [Deny(PredecessorActive), Deny(PredecessorEnabled), Demand(PredecessorNotRunning), Clear]
  }

  function RunningPlan(bundle: Bundle): seq<Step> {
    [Demand(ServiceActive), Demand(ServiceEnabled), Demand(ContainerIs(bundle, true)),
     Demand(PauseState)]
  }

  function ImagePlan(bundle: Bundle): seq<Step> {
    if bundle.archiveSha.None? then [Refuse] else
    [Checked(MakeDirectories), Checked(TransferArchive),
     Demand(ArchiveIs(bundle.archiveSha.value)), Checked(LoadImage),
     Demand(ImageIs(bundle.imageId, bundle.releaseSha))]
  }

  function ConfigPlan(bundle: Bundle): seq<Step> {
    [Checked(TransferConfig), Demand(ConfigIs(bundle.configSha)), Checked(ProtectConfig)]
  }

  function VolumePlan(bundle: Bundle): seq<Step> {
    if bundle.capsule.None? then
      [Checked(CreateRuntimeVolume), Checked(CreateConfigVolume), Checked(InitializeVolumes),
       Demand(VolumeIs(bundle.configSha))]
    else
      [Checked(MakeCapsuleDirectory), Checked(TransferCapsuleObject),
       Checked(TransferCapsuleObject), Checked(SealCapsule), Checked(CreateRuntimeVolume),
       Checked(CreateConfigVolume), Checked(InitializeFromCapsule(bundle.configSha)),
       Checked(CleanCapsule)]
  }

  function SavedUnitPlan(bundle: Bundle): seq<Step> {
    [Checked(SaveUnit), Checked(ProtectUnit), Demand(SavedUnitIs(bundle.unitSha))]
  }

  function StagedUnitPlan(bundle: Bundle): seq<Step> {
    [Checked(StageUnit), Demand(NextUnitIs(bundle.unitSha))]
  }

  const ACTIVATION := [Checked(MoveUnit), Checked(ReloadDaemon), Checked(EnableService)]

  const FORCED_STOP := [Unchecked(DisableService), Unchecked(StopContainer), Checked(RetireUnit)]

  function RollbackPlan(bundle: Bundle): seq<Step> {
    [Checked(DisableService), Unchecked(StopContainer), Checked(RetireUnit),
     Deny(ServiceActive), Deny(ServiceEnabled), Demand(ContainerIs(bundle, false))]
  }

  function RedeployPlan(bundle: Bundle): seq<Step> {
    [Deny(ServiceActive), Demand(SavedUnitIs(bundle.unitSha)),
     Demand(ImageIs(bundle.imageId, bundle.releaseSha)), Demand(ContainerIs(bundle, false))]
  }

  /** An interrupted attempt may have left a container, but only this release's, and stopped. */
  function Leftover(w: World, bundle: Bundle, r: Run): Run {
    var own := ContainerIs(bundle, false);
    var asked := Perform(w, Tolerate(own), r);
    if !asked.ok || w.script(|r.log|).outcome.Refused? || r.host.container.None? then asked
    else if !Holds(w.hashes, r.host, own) then asked.(ok := false)
    else Perform(w, Demand(own), asked)
  }

  function FirstChecks(w: World, bundle: Bundle, r: Run): Run {
    Leftover(w, bundle, Play(w, [Deny(ServiceActive)],
      Play(w, ConflictPlan(w.profile), Play(w, PREFLIGHT, r))))
  }

  function Prepare(w: World, bundle: Bundle, callback: bool, r: Run): Run {
    var checks := FirstChecks(w, bundle, r);
    if callback then Play(w, ConflictPlan(w.profile), Play(w, [Consent], checks)) else checks
  }

  function Stage(w: World, bundle: Bundle, r: Run): Run {
    Play(w, SavedUnitPlan(bundle), Play(w, VolumePlan(bundle),
      Play(w, ConfigPlan(bundle), Play(w, ImagePlan(bundle), r))))
  }

  /** From a checked unit file to a running service; a failure here forces the service to stop. */
  function Activate(w: World, r: Run): Run {
    var activated := Play(w, ACTIVATION, r);
    if !r.ok || activated.ok then activated
    else Play(w, FORCED_STOP, activated.(ok := true)).(ok := false)
  }

  function Install(w: World, bundle: Bundle, r: Run): Run {
    Activate(w, Play(w, StagedUnitPlan(bundle), r))
  }

  /** Everything `deploy` does before it first touches the live unit or the service. */
  function BeforeActivation(w: World, bundle: Bundle, callback: bool, r: Run): Run {
    Play(w, StagedUnitPlan(bundle), Stage(w, bundle, Prepare(w, bundle, callback, r)))
  }

  function Deploy(w: World, bundle: Bundle, callback: bool, r: Run): Run {
    Play(w, RunningPlan(bundle), Activate(w, BeforeActivation(w, bundle, callback, r)))
  }

  function Verified(w: World, bundle: Bundle, r: Run): Run {
    Play(w, RunningPlan(bundle), Play(w, PREFLIGHT, r))
  }

  function RebootBoundary(w: World, bundle: Bundle, r: Run): Run {
    Play(w, [Demand(BootIdentity)], Verified(w, bundle, r))
  }

  function VerifyReboot(w: World, bundle: Bundle, boundary: Receipt, r: Run): Run {
    match ParentEvidence(w.hashes, boundary, "reboot-boundary", bundle)
    case None => r.(ok := false)
    case Some(e) =>
      if e.beforeBootSha.None? || e.pauseSha.None? then r.(ok := false) else
      var booted := Play(w, PREFLIGHT + [Demand(BootIdentity)], r);
      if booted.ok && booted.host.bootSha == e.beforeBootSha.value then booted.(ok := false) else
      var verified := Play(w, RunningPlan(bundle), booted);
      verified.(ok := verified.ok && w.hashes.pause(verified.host.pause) == e.pauseSha.value)
  }

  function Rollback(w: World, bundle: Bundle, r: Run): Run {
    Play(w, RollbackPlan(bundle), Verified(w, bundle, r))
  }

  /** A rollback receipt `redeploy` can go on from: the pause digest it must find again. */
  function ExpectedPause(hashes: Hashes, parent: Receipt, bundle: Bundle): Option<string> {
    match ParentEvidence(hashes, parent, "rollback", bundle)
    case None => None
    case Some(e) => if e.serviceState == Some(STOPPED) then e.pauseSha else None
  }

  /** `redeploy` up to the service it verified as running. */
  function Restarted(w: World, bundle: Bundle, r: Run): Run {
    Play(w, RunningPlan(bundle), Install(w, bundle,
      Play(w, RedeployPlan(bundle), Play(w, PREFLIGHT, r))))
  }

  function Redeploy(w: World, bundle: Bundle, parent: Receipt, r: Run): Run {
    var expected := ExpectedPause(w.hashes, parent, bundle);
    if expected.None? then r.(ok := false) else
    var restarted := Restarted(w, bundle, r);
    if !restarted.ok || w.hashes.pause(restarted.host.pause) == expected.value then restarted
    else Play(w, FORCED_STOP, restarted).(ok := false)
  }

  // ---------------------------------------------------------------- receipts

  /**
   `saved_unit_sha256` and `unit_sha256` are one field, told apart by the action. `others` holds the
   members that never vary, and any the controller does not write.
   */
  datatype Evidence = Evidence(
    pause: Option<string>, pauseSha: Option<string>, serviceState: Option<string>,
    unitSha: Option<string>, rollbackTarget: Option<string>, beforeBootSha: Option<string>,
    afterBootSha: Option<string>, parentPayloadSha: Option<string>, others: map<string, string>)

  /**
   `others` holds members no check looks at, an explicit null for the capsule included; the
   controller writes none.
   */
  datatype Payload = Payload(
    action: string, status: string, releaseSha: string, imageId: string, policySha: string,
    configSha: string, capsule: Option<string>, evidence: Evidence, others: map<string, string>)

  /** `issuedAt` is None if it is not a time as the controller writes it; nothing checks that. */
  datatype Receipt = Receipt(
    schemaVersion: string, issuedAt: Option<int>, classification: string, payload: Payload,
    payloadSha: string, integrityOthers: map<string, string>)

  const SCHEMA := "research-os.pre-soak-deployment-receipt.v1"
  const CLASSIFICATION := "D1_INTERNAL_SANITIZED"
  const STOPPED := "none-service-stopped"

  const NO_AUTHORITY := map[
    "preflight" := "passed", "automatic_sudo_executed" := "false",
    "automatic_reboot_executed" := "false", "declares_ready_for_72h_soak" := "false"]

  const DEPLOY_FACTS := NO_AUTHORITY + map[
    "remote_archive_verified" := "true", "runtime_policy_enforced" := "true"]

  const BOUNDARY_FACTS := NO_AUTHORITY + map[
    "operator_action_required" := "authorized out-of-band host reboot"]

  const REBOOT_FACTS := NO_AUTHORITY + map["boot_identity_changed" := "true"]

  const ROLLBACK_FACTS := NO_AUTHORITY + map[
    "state_volumes_preserved" := "true", "domain_services_mutated" := "false"]

  const REDEPLOY_FACTS := NO_AUTHORITY + map[
    "exact_release_restored" := "true", "domain_services_mutated" := "false"]

  /** `_receipt`. */
  function Issue(
    hashes: Hashes, action: string, status: string, bundle: Bundle, evidence: Evidence, at: int)
    : Receipt
  {
    var payload := Payload(action, status, bundle.releaseSha, bundle.imageId, bundle.policySha,
                           bundle.configSha, bundle.capsule, evidence, map[]);
    Receipt(SCHEMA, Some(at), CLASSIFICATION, payload, hashes.payload(payload), map[])
  }

  /** `_verified_parent_receipt`. */
  function ParentEvidence(
    hashes: Hashes, receipt: Receipt, action: string, bundle: Bundle): Option<Evidence>
  {
    var p := receipt.payload;
    if && receipt.schemaVersion == SCHEMA && receipt.classification == CLASSIFICATION
       && receipt.payloadSha == hashes.payload(p)
       && p.action == action && p.status == "PASS" && p.releaseSha == bundle.releaseSha
       && p.imageId == bundle.imageId && p.policySha == bundle.policySha
       && p.configSha == bundle.configSha && p.capsule == bundle.capsule
    then Some(p.evidence) else None
  }

  function DeployReceipt(hashes: Hashes, bundle: Bundle, h: Host, at: int): Receipt {
    Issue(hashes, "deploy", "PASS", bundle,
          Evidence(Some(h.pause), Some(hashes.pause(h.pause)), None, Some(bundle.unitSha),
                   Some(bundle.previousRelease), None, None, None, DEPLOY_FACTS), at)
  }

  function BoundaryReceipt(hashes: Hashes, bundle: Bundle, h: Host, at: int): Receipt {
    Issue(hashes, "reboot-boundary", "PASS", bundle,
          Evidence(Some(h.pause), Some(hashes.pause(h.pause)), None, None, None, Some(h.bootSha),
                   None, None, BOUNDARY_FACTS), at)
  }

  function VerifiedReceipt(
    hashes: Hashes, bundle: Bundle, h: Host, boundary: Receipt, at: int): Receipt
  {
    Issue(hashes, "verify-reboot", "PASS", bundle,
          Evidence(Some(h.pause), Some(hashes.pause(h.pause)), None, None, None,
                   boundary.payload.evidence.beforeBootSha, Some(h.bootSha),
                   Some(boundary.payloadSha), REBOOT_FACTS), at)
  }

  /** The pause state is the one seen while the service still ran. */
  function RollbackReceipt(hashes: Hashes, bundle: Bundle, before: Host, at: int): Receipt {
    Issue(hashes, "rollback", "PASS", bundle,
          Evidence(Some(before.pause), Some(hashes.pause(before.pause)), Some(STOPPED),
                   Some(bundle.unitSha), Some(bundle.previousRelease), None, None, None,
                   ROLLBACK_FACTS), at)
  }

  function RedeployReceipt(
    hashes: Hashes, bundle: Bundle, h: Host, parent: Receipt, at: int): Receipt
  {
    Issue(hashes, "redeploy", "PASS", bundle,
          Evidence(Some(h.pause), Some(hashes.pause(h.pause)), None, Some(bundle.unitSha),
                   Some(bundle.previousRelease), None, None, Some(parent.payloadSha),
                   REDEPLOY_FACTS), at)
  }

  /** The identity a parent receipt binds; unit, archive and previous release are not part of it. */
  predicate SameRelease(a: Bundle, b: Bundle) {
    && a.releaseSha == b.releaseSha && a.imageId == b.imageId && a.policySha == b.policySha
    && a.configSha == b.configSha && a.capsule == b.capsule
  }
}
