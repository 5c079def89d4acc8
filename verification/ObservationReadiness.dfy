/**
 `evaluate` of tools/bridge_observation_readiness.py. A field that fails its own syntax check is
 None; instants are integer microseconds.
 */
module ObservationReadiness {
  import opened Text

  datatype Name = ReleaseIdentity | RuntimeBinding | MonitorProjection

  const REQUIRED: seq<Name> := [ReleaseIdentity, RuntimeBinding, MonitorProjection]

  datatype Header = Header(schemaId: string, schemaVersion: string)

  /** The fields every required input carries. */
  datatype Common = Common(
    runtimeRef: Option<string>, validUntil: Option<int>, policySha: Option<string>,
    releaseSha: Option<string>)

  datatype Item =
    | ReleaseItem(header: Header, common: Common, releaseRef: Option<string>,
                  policyRef: Option<string>, runtimePolicySha: Option<string>)
    | RuntimeItem(header: Header, common: Common, inputSha: Option<string>)
    | MonitorItem(header: Header, common: Common, monitorInputSha: Option<string>)

  /** `ready` is None when it is not a boolean; `factsOk` says the facts are known flags only. */
  datatype Signal = Signal(
    header: Header, ref: Option<string>, ready: Option<bool>, factsOk: bool, validUntil: Option<int>)

  /** The request with its inputs; an input of the wrong shape is None, an absent one no key. */
  datatype Request = Request(
    releaseRef: string, runtimeRef: string, policyRef: string, policySha: string,
    inputs: map<Name, Option<Item>>, signal: Option<Option<Signal>>)

  datatype Reason =
    | MissingInput | MalformedInput | ReleaseIdentityMismatch | RuntimeIdentityMismatch
    | PolicyRefMismatch | StaleInput | PolicyHashMismatch | ExplicitNegativeReadiness

  datatype Verdict = True | False | Unknown

  datatype Report = Report(
    result: Verdict, reasons: set<Reason>, validUntil: Option<int>, releaseSha: Option<string>)

  function SchemaOf(name: Name): string {
    match name
    case ReleaseIdentity => "BridgeReleaseIdentity"
    case RuntimeBinding => "BridgeRuntimeBinding"
    case MonitorProjection => "BridgeMonitorProjection"
  }

  predicate Fits(name: Name, item: Item) {
    match name
    case ReleaseIdentity => item.ReleaseItem?
    case RuntimeBinding => item.RuntimeItem?
    case MonitorProjection => item.MonitorItem?
  }

  // ---------------------------------------------------------------- what a verdict means

  /** A required input that is present, well formed, bound to the request and unexpired. */
  predicate Sound(r: Request, name: Name, now: int) {
    && name in r.inputs && r.inputs[name].Some?
    && var item := r.inputs[name].value;
    && Fits(name, item) && item.header == Header(SchemaOf(name), "1.0.0")
    && item.common.runtimeRef == Some(r.runtimeRef)
    && item.common.validUntil.Some? && now < item.common.validUntil.value
    && item.common.policySha == Some(r.policySha)
    && item.common.releaseSha.Some?
    && match item
       case ReleaseItem(_, _, releaseRef, policyRef, runtimePolicySha) =>
         releaseRef == Some(r.releaseRef) && policyRef == Some(r.policyRef) && runtimePolicySha.Some?
       case RuntimeItem(_, _, inputSha) => inputSha.Some?
       case MonitorItem(_, _, inputSha) => inputSha.Some?
  }

  predicate SignalSound(s: Option<Signal>, now: int) {
    && s.Some?
    && s.value.header == Header("BridgeReadinessSignal", "1.0.0")
    && s.value.ref.Some? && s.value.ready.Some? && s.value.factsOk
    && s.value.validUntil.Some? && now < s.value.validUntil.value
  }

  /** The release SHA of a sound input. */
  function ShaOf(r: Request, name: Name): Option<string> {
    if name in r.inputs && r.inputs[name].Some? then r.inputs[name].value.common.releaseSha else None
  }

  /** All required inputs are sound and name one release; a signal, if any, is sound. */
  predicate Definite(r: Request, now: int) {
    && (forall name: Name :: Sound(r, name, now) && ShaOf(r, name) == ShaOf(r, ReleaseIdentity))
    && (r.signal.Some? ==> SignalSound(r.signal.value, now))
  }

  function VerdictOf(r: Request, now: int): Verdict {
    if !Definite(r, now) then Unknown
    else if r.signal.Some? && r.signal.value.value.ready == Some(false) then False
    else True
  }

  // ---------------------------------------------------------------- what each reason means

  /** An input with the members and the identity of its kind. */
  ghost predicate Shaped(r: Request, name: Name) {
    && name in r.inputs && r.inputs[name].Some?
    && var item := r.inputs[name].value;
    && item.header.schemaVersion == "1.0.0"
    && match name
       case ReleaseIdentity => item.ReleaseItem? && item.header.schemaId == "BridgeReleaseIdentity"
       case RuntimeBinding => item.RuntimeItem? && item.header.schemaId == "BridgeRuntimeBinding"
       case MonitorProjection => item.MonitorItem? && item.header.schemaId == "BridgeMonitorProjection"
  }

  /** All members of its own kind have their syntax. */
  ghost predicate Complete(item: Item) {
    && item.common.runtimeRef.Some?
    && match item
       case ReleaseItem(_, _, releaseRef, policyRef, sha) =>
         releaseRef.Some? && policyRef.Some? && sha.Some?
       case RuntimeItem(_, _, sha) => sha.Some?
       case MonitorItem(_, _, sha) => sha.Some?
  }

  ghost predicate Dated(item: Item) {
    item.common.validUntil.Some? && item.common.policySha.Some? && item.common.releaseSha.Some?
  }

  ghost predicate Differs(a: Option<string>, b: string) {
    a.Some? && a.value != b
  }

  /** What makes one required input give this reason, once the release input showed `sha`. */
  ghost predicate Cause(r: Request, name: Name, now: int, sha: Option<string>, reason: Reason) {
    if name !in r.inputs then reason == MissingInput
    else if !Shaped(r, name) then reason == MalformedInput
    else
      var item := r.inputs[name].value;
      match reason
      case MissingInput => false
      case MalformedInput => !Complete(item) || !Dated(item)
      case ReleaseIdentityMismatch =>
        if item.ReleaseItem? then Complete(item) && item.releaseRef != Some(r.releaseRef)
        else sha.Some? && Differs(item.common.releaseSha, sha.value)
      case RuntimeIdentityMismatch => Differs(item.common.runtimeRef, r.runtimeRef)
      case PolicyRefMismatch => item.ReleaseItem? && Differs(item.policyRef, r.policyRef)
      case StaleInput => Dated(item) && item.common.validUntil.value <= now
      case PolicyHashMismatch => Differs(item.common.policySha, r.policySha)
      case ExplicitNegativeReadiness => false
  }

  ghost predicate SignalCause(s: Option<Signal>, now: int, reason: Reason) {
    if s.None? || s.value.header != Header("BridgeReadinessSignal", "1.0.0") || s.value.ref.None?
       || s.value.ready.None? || s.value.validUntil.None? || !s.value.factsOk
    then reason == MalformedInput
    else reason == StaleInput && s.value.validUntil.value <= now
  }

  /** The release SHA a well-shaped release input shows. */
  ghost function SeenSha(r: Request): Option<string> {
    if Shaped(r, ReleaseIdentity) then r.inputs[ReleaseIdentity].value.common.releaseSha else None
  }

  /** Input `name` gives no reason. */
  ghost predicate Clean(r: Request, name: Name, now: int) {
    forall reason :: !Cause(r, name, now, SeenSha(r), reason)
  }

  ghost predicate CleanSignal(r: Request, now: int) {
    r.signal.Some? && forall reason :: !SignalCause(r.signal.value, now, reason)
  }

  /** Why a reason is in a report. */
  ghost predicate Justified(r: Request, now: int, reason: Reason) {
    || (exists i :: 0 <= i < |REQUIRED| && Cause(r, REQUIRED[i], now, SeenSha(r), reason))
    || (r.signal.Some? && SignalCause(r.signal.value, now, reason))
    || (reason == ExplicitNegativeReadiness && CleanSignal(r, now)
        && r.signal.value.Some? && r.signal.value.value.ready == Some(false))
  }

  /** `until` is the earliest expiry of the inputs that gave no reason, among the first n. */
  ghost predicate EarliestClean(r: Request, now: int, n: nat, until: Option<int>)
    requires n <= |REQUIRED|
  {
    && (until.None? ==> forall i | 0 <= i < n :: !Clean(r, REQUIRED[i], now))
    && (until.Some? ==>
          && (exists i :: 0 <= i < n && Clean(r, REQUIRED[i], now)
                && until.value == UntilOf(r, REQUIRED[i]))
          && forall i | 0 <= i < n && Clean(r, REQUIRED[i], now) ::
               until.value <= UntilOf(r, REQUIRED[i]))
  }

  // ---------------------------------------------------------------- the evaluation

  /** The members of an input's own kind. */
  ghost predicate OwnCause(r: Request, item: Item, reason: Reason) {
    match reason
    case MalformedInput => !Complete(item)
    case ReleaseIdentityMismatch =>
      item.ReleaseItem? && Complete(item) && item.releaseRef != Some(r.releaseRef)
    case RuntimeIdentityMismatch => Differs(item.common.runtimeRef, r.runtimeRef)
    case PolicyRefMismatch => item.ReleaseItem? && Differs(item.policyRef, r.policyRef)
    case _ => false
  }

  method CheckOwn(r: Request, item: Item) returns (reasons: set<Reason>)
    ensures forall reason :: reason in reasons <==> OwnCause(r, item, reason)
  {
    reasons := {};
    var runtimeRef := item.common.runtimeRef;
    var inputSha := match item
                    case RuntimeItem(_, _, sha) => sha
                    case MonitorItem(_, _, sha) => sha
                    case _ => None;
    match item {
      case ReleaseItem(_, _, releaseRef, policyRef, runtimePolicySha) =>
        if releaseRef.None? || runtimeRef.None? || policyRef.None? || runtimePolicySha.None? {
          reasons := reasons + {MalformedInput};
        } else if releaseRef != Some(r.releaseRef) {
          reasons := reasons + {ReleaseIdentityMismatch};
        }
        if runtimeRef.Some? && runtimeRef != Some(r.runtimeRef) {
          reasons := reasons + {RuntimeIdentityMismatch};
        }
        if policyRef.Some? && policyRef != Some(r.policyRef) {
          reasons := reasons + {PolicyRefMismatch};
        }
      case _ =>
        if runtimeRef.None? {
          reasons := reasons + {MalformedInput};
        } else if runtimeRef != Some(r.runtimeRef) {
          reasons := reasons + {RuntimeIdentityMismatch};
        }
        if inputSha.None? {
          reasons := reasons + {MalformedInput};
        }
    }
  }

  /** The members every input has. */
  ghost predicate CommonCause(
    r: Request, item: Item, now: int, sha: Option<string>, reason: Reason)
  {
    match reason
    case MalformedInput => !Dated(item)
    case ReleaseIdentityMismatch =>
      !item.ReleaseItem? && sha.Some? && Differs(item.common.releaseSha, sha.value)
    case StaleInput => Dated(item) && item.common.validUntil.value <= now
    case PolicyHashMismatch => Differs(item.common.policySha, r.policySha)
    case _ => false
  }

  method CheckCommon(r: Request, item: Item, now: int, releaseSha: Option<string>)
    returns (reasons: set<Reason>, sha: Option<string>)
    ensures forall reason :: reason in reasons <==> CommonCause(r, item, now, releaseSha, reason)
    ensures sha == if item.ReleaseItem? && item.common.releaseSha.Some? then item.common.releaseSha
                   else releaseSha
  {
    reasons, sha := {}, releaseSha;
    var common := item.common;
    if common.validUntil.None? || common.policySha.None? || common.releaseSha.None? {
      reasons := reasons + {MalformedInput};
    } else if common.validUntil.value <= now {
      reasons := reasons + {StaleInput};
    }
    if common.policySha.Some? && common.policySha != Some(r.policySha) {
      reasons := reasons + {PolicyHashMismatch};
    }
    if common.releaseSha.Some? {
      if item.ReleaseItem? {
        sha := common.releaseSha;
      } else if releaseSha.Some? && common.releaseSha != releaseSha {
        reasons := reasons + {ReleaseIdentityMismatch};
      }
    }
  }

  lemma CausesAdd(r: Request, name: Name, now: int, sha: Option<string>, reason: Reason)
    requires Shaped(r, name)
    ensures Cause(r, name, now, sha, reason) <==>
      || OwnCause(r, r.inputs[name].value, reason)
      || CommonCause(r, r.inputs[name].value, now, sha, reason)
  {
  }

  /** One round of the loop: the reasons one input adds, and the release SHA it leaves. */
  method CheckInput(r: Request, name: Name, now: int, releaseSha: Option<string>)
    returns (reasons: set<Reason>, sha: Option<string>)
    ensures forall reason :: reason in reasons <==> Cause(r, name, now, releaseSha, reason)
    ensures name.ReleaseIdentity? && releaseSha.None? ==> sha == SeenSha(r)
    ensures !name.ReleaseIdentity? ==> sha == releaseSha
  {
    var schema := match name
                  case ReleaseIdentity => "BridgeReleaseIdentity"
                  case RuntimeBinding => "BridgeRuntimeBinding"
                  case MonitorProjection => "BridgeMonitorProjection";
    if name !in r.inputs {
      return {MissingInput}, releaseSha;
    }
    if r.inputs[name].None? || !Fits(name, r.inputs[name].value)
       || r.inputs[name].value.header != Header(schema, "1.0.0") {
      return {MalformedInput}, releaseSha;
    }
    var item := r.inputs[name].value;
    assert Shaped(r, name);
    forall reason { CausesAdd(r, name, now, releaseSha, reason); }
    hide Cause, OwnCause, CommonCause, Complete, Dated;
    var own := CheckOwn(r, item);
    reasons, sha := CheckCommon(r, item, now, releaseSha);
    reasons := own + reasons;
  }

  /** An input that gives no reason is sound and names the release of the release input. */
  lemma CleanMeansSound(r: Request, name: Name, now: int, sha: Option<string>)
    ensures (forall reason :: !Cause(r, name, now, sha, reason)) <==>
      Sound(r, name, now)
      && (!name.ReleaseIdentity? && sha.Some? ==> ShaOf(r, name) == sha)
  {
    if forall reason :: !Cause(r, name, now, sha, reason) {
      assert !Cause(r, name, now, sha, MissingInput) && !Cause(r, name, now, sha, MalformedInput);
      assert !Cause(r, name, now, sha, ReleaseIdentityMismatch);
      assert !Cause(r, name, now, sha, RuntimeIdentityMismatch);
      assert !Cause(r, name, now, sha, PolicyRefMismatch) && !Cause(r, name, now, sha, StaleInput);
      assert !Cause(r, name, now, sha, PolicyHashMismatch);
    }
  }

  method CheckSignal(s: Option<Signal>, now: int) returns (reasons: set<Reason>)
    ensures reasons == {} <==> SignalSound(s, now)
    ensures ExplicitNegativeReadiness !in reasons
    ensures forall reason :: reason in reasons <==> SignalCause(s, now, reason)
  {
    if s.None? || s.value.header != Header("BridgeReadinessSignal", "1.0.0")
       || s.value.ref.None? || s.value.ready.None? || s.value.validUntil.None? || !s.value.factsOk {
      return {MalformedInput};
    }
    if s.value.validUntil.value <= now {
      return {StaleInput};
    }
    return {};
  }

  const SECOND := 1_000_000

  /** An instant as the report prints it, to the second. */
  function WholeSecond(t: int): int {
    t - t % SECOND
  }

  function Earliest(a: Option<int>, b: int): Option<int> {
    if a.Some? && a.value <= b then a else Some(b)
  }

  /**
   TRUE is exactly "no reason", FALSE exactly "the explicit negative and nothing else", and the
   verdict is the one its meaning demands. The reported expiry is the earliest one cut to the second.
   */
  method Evaluate(r: Request, now: int) returns (report: Report)
    ensures report.result == VerdictOf(r, now)
    ensures report.result.True? <==> report.reasons == {}
    ensures report.result.False? <==> report.reasons == {ExplicitNegativeReadiness}
    ensures !report.result.Unknown? ==>
      && report.validUntil == Some(WholeSecond(Horizon(r)))
      && report.releaseSha == ShaOf(r, ReleaseIdentity)
    ensures forall reason :: reason in report.reasons <==> Justified(r, now, reason)
    ensures report.releaseSha == SeenSha(r)
    ensures exists until ::
      EarliestClean(r, now, |REQUIRED|, until) && report.validUntil == Reported(r, now, until)
  {
    hide Cause, SignalCause, Sound, Shaped, SeenSha, Clean, EarliestClean;
    NothingClean(r, now);
    var reasons: set<Reason> := {};
    var releaseSha: Option<string> := None;
    var validUntil: Option<int> := None;
    for i := 0 to |REQUIRED|
      invariant ExplicitNegativeReadiness !in reasons
      invariant releaseSha == if i == 0 then None else SeenSha(r)
      invariant forall reason :: reason in reasons <==>
        exists j :: 0 <= j < i && Cause(r, REQUIRED[j], now, SeenSha(r), reason)
      invariant reasons == {} <==> forall j | 0 <= j < i ::
        Sound(r, REQUIRED[j], now) && ShaOf(r, REQUIRED[j]) == ShaOf(r, ReleaseIdentity)
      invariant reasons == {} && i > 0 ==>
        releaseSha == ShaOf(r, ReleaseIdentity) && releaseSha.Some?
      invariant reasons == {} ==> validUntil == EarliestOf(r, i)
      invariant EarliestClean(r, now, i, validUntil)
    {
      var name := REQUIRED[i];
      var added, sha := CheckInput(r, name, now, releaseSha);
      RoundMeans(r, now, i, releaseSha, added);
      OneMoreClean(r, now, i, validUntil, added);
      if added == {} {
        validUntil := Earliest(validUntil, r.inputs[name].value.common.validUntil.value);
      }
      reasons, releaseSha := reasons + added, sha;
    }
    AllNames(r, now);
    ghost var fromInputs := validUntil;
    var signalOk := false;
    if r.signal.Some? {
      var added := CheckSignal(r.signal.value, now);
      reasons := reasons + added;
      signalOk := added == {};
      SignalMeans(r.signal.value, now);
    }
    assert signalOk <==> CleanSignal(r, now);
    if signalOk {
      validUntil := Earliest(validUntil, r.signal.value.value.validUntil.value);
    }
    assert validUntil == if CleanSignal(r, now)
      then Earliest(fromInputs, r.signal.value.value.validUntil.value) else fromInputs;
    var result := Unknown;
    if signalOk && r.signal.value.value.ready == Some(false) {
      if reasons == {} {
        result := False;
      }
      reasons := reasons + {ExplicitNegativeReadiness};
    }
    if reasons == {} {
      result := True;
    }
    var reported := if validUntil.Some? then Some(WholeSecond(validUntil.value)) else None;
    return Report(result, reasons, reported, releaseSha);
  }

  /** The expiry a report gives: the earliest of the clean inputs and a clean signal, cut to the second. */
  ghost function Reported(r: Request, now: int, until: Option<int>): Option<int> {
    var all := if CleanSignal(r, now) && r.signal.value.Some? && r.signal.value.value.validUntil.Some?
               then Some(if until.Some? && until.value <= r.signal.value.value.validUntil.value
                         then until.value else r.signal.value.value.validUntil.value)
               else until;
    if all.Some? then Some(all.value - all.value % 1_000_000) else None
  }

  lemma NothingClean(r: Request, now: int)
    ensures EarliestClean(r, now, 0, None)
  {
  }

  lemma OneMoreClean(r: Request, now: int, i: nat, until: Option<int>, added: set<Reason>)
    requires i < |REQUIRED| && EarliestClean(r, now, i, until)
    requires forall reason :: reason in added <==> Cause(r, REQUIRED[i], now, SeenSha(r), reason)
    ensures EarliestClean(r, now, i + 1,
      if added == {} then Earliest(until, UntilOf(r, REQUIRED[i])) else until)
  {
    hide Cause;
    assert added == {} <==> Clean(r, REQUIRED[i], now);
    if until.Some? {
      var k :| 0 <= k < i && Clean(r, REQUIRED[k], now) && until.value == UntilOf(r, REQUIRED[k]);
    }
  }

  /** What a round of the loop means for the verdict; the release input comes first. */
  lemma RoundMeans(r: Request, now: int, i: nat, sha: Option<string>, added: set<Reason>)
    requires i < |REQUIRED| && sha == if i == 0 then None else SeenSha(r)
    requires forall reason :: reason in added <==> Cause(r, REQUIRED[i], now, sha, reason)
    ensures ExplicitNegativeReadiness !in added
    ensures forall reason :: reason in added <==> Cause(r, REQUIRED[i], now, SeenSha(r), reason)
    ensures added == {} ==> Sound(r, REQUIRED[i], now)
    ensures i == 0 ==> (added == {} <==> Sound(r, REQUIRED[i], now))
    ensures i == 0 && added == {} ==> SeenSha(r) == ShaOf(r, ReleaseIdentity) && SeenSha(r).Some?
    ensures i > 0 && sha == ShaOf(r, ReleaseIdentity) && sha.Some? ==>
      (added == {} <==> Sound(r, REQUIRED[i], now) && ShaOf(r, REQUIRED[i]) == sha)
    ensures added == {} ==>
      && REQUIRED[i] in r.inputs && r.inputs[REQUIRED[i]].Some?
      && r.inputs[REQUIRED[i]].value.common.validUntil == Some(UntilOf(r, REQUIRED[i]))
  {
    var name := REQUIRED[i];
    CleanMeansSound(r, name, now, sha);
    assert name.ReleaseIdentity? <==> i == 0;
    if i == 0 {
      forall reason ensures Cause(r, name, now, sha, reason) <==> Cause(r, name, now, SeenSha(r), reason) {}
    }
    assert added == {} <==> forall reason :: !Cause(r, name, now, sha, reason);
  }

  lemma SignalMeans(s: Option<Signal>, now: int)
    ensures (forall reason :: !SignalCause(s, now, reason)) <==> SignalSound(s, now)
    ensures !SignalCause(s, now, ExplicitNegativeReadiness)
  {
    if forall reason :: !SignalCause(s, now, reason) {
      assert !SignalCause(s, now, MalformedInput) && !SignalCause(s, now, StaleInput);
    }
  }

  lemma AllNames(r: Request, now: int)
    ensures (forall j | 0 <= j < |REQUIRED| ::
               Sound(r, REQUIRED[j], now) && ShaOf(r, REQUIRED[j]) == ShaOf(r, ReleaseIdentity))
      <==> (forall name: Name :: Sound(r, name, now) && ShaOf(r, name) == ShaOf(r, ReleaseIdentity))
  {
    assert REQUIRED[0] == ReleaseIdentity && REQUIRED[1] == RuntimeBinding
      && REQUIRED[2] == MonitorProjection;
    if forall j | 0 <= j < |REQUIRED| ::
        Sound(r, REQUIRED[j], now) && ShaOf(r, REQUIRED[j]) == ShaOf(r, ReleaseIdentity) {
      forall name: Name ensures Sound(r, name, now) && ShaOf(r, name) == ShaOf(r, ReleaseIdentity) {
        var j := if name.ReleaseIdentity? then 0 else if name.RuntimeBinding? then 1 else 2;
        assert REQUIRED[j] == name;
      }
    }
  }

  function UntilOf(r: Request, name: Name): int {
    if name in r.inputs && r.inputs[name].Some? && r.inputs[name].value.common.validUntil.Some?
    then r.inputs[name].value.common.validUntil.value else 0
  }

  function EarliestOf(r: Request, n: nat): Option<int>
    requires n <= |REQUIRED|
  {
    if n == 0 then None else Earliest(EarliestOf(r, n - 1), UntilOf(r, REQUIRED[n - 1]))
  }

  /** The earliest expiry among the inputs. */
  function Horizon(r: Request): int {
    var required := EarliestOf(r, |REQUIRED|);
    if r.signal.Some? && r.signal.value.Some? && r.signal.value.value.validUntil.Some?
    then Earliest(required, r.signal.value.value.validUntil.value).value
    else required.value
  }

  // ---------------------------------------------------------------- time

  lemma HorizonIsEarliest(r: Request, now: int, later: int)
    requires Definite(r, now)
    ensures later < Horizon(r) <==>
      && (forall name: Name :: later < UntilOf(r, name))
      && (r.signal.Some? ==> later < r.signal.value.value.validUntil.value)
  {
    assert EarliestOf(r, 0) == None;
    assert EarliestOf(r, 1) == Earliest(EarliestOf(r, 0), UntilOf(r, ReleaseIdentity));
    assert EarliestOf(r, 2) == Earliest(EarliestOf(r, 1), UntilOf(r, RuntimeBinding));
    assert EarliestOf(r, 3) == Earliest(EarliestOf(r, 2), UntilOf(r, MonitorProjection));
    forall name: Name ensures EarliestOf(r, 3).value <= UntilOf(r, name) {
      assert name.ReleaseIdentity? || name.RuntimeBinding? || name.MonitorProjection?;
    }
  }

  /** For fixed inputs a later clock keeps the verdict or loses it; it never swaps or recovers. */
  lemma ReadinessOnlyDecays(r: Request, now: int, later: int)
    requires now <= later
    ensures VerdictOf(r, later) == VerdictOf(r, now) || VerdictOf(r, later).Unknown?
  {
    if Definite(r, later) {
      forall name: Name ensures Sound(r, name, now) && ShaOf(r, name) == ShaOf(r, ReleaseIdentity) {
        assert Sound(r, name, later);
      }
    }
  }

  /** A definite verdict stands until the earliest expiry and not one microsecond longer. */
  lemma VerdictStandsUntilHorizon(r: Request, now: int, later: int)
    requires now <= later && !VerdictOf(r, now).Unknown?
    ensures VerdictOf(r, later) == VerdictOf(r, now) <==> later < Horizon(r)
    ensures now < Horizon(r)
  {
    HorizonIsEarliest(r, now, later);
    HorizonIsEarliest(r, now, now);
    if later < Horizon(r) {
      forall name: Name ensures Sound(r, name, later) && ShaOf(r, name) == ShaOf(r, ReleaseIdentity) {
        assert Sound(r, name, now);
        assert later < UntilOf(r, name);
      }
    }
    if Definite(r, later) {
      forall name: Name ensures later < UntilOf(r, name) { assert Sound(r, name, later); }
    }
    forall name: Name ensures now < UntilOf(r, name) { assert Sound(r, name, now); }
  }

  /** The reported expiry describes the verdict: from now on it stands exactly until then. */
  ghost predicate ReportIsExact(r: Request, now: int) {
    forall later | now <= later ::
      VerdictOf(r, later) == VerdictOf(r, now) <==> later < WholeSecond(Horizon(r))
  }

  /**
   A definite verdict stands up to its reported expiry. It stands exactly up to it if and only if
   the earliest expiry is a whole second; and the reported expiry is in the past already exactly if
   the clock is in the second the earliest expiry falls in.
   */
  lemma ReportedExpiry(r: Request, now: int)
    requires !VerdictOf(r, now).Unknown?
    ensures forall later | now <= later < WholeSecond(Horizon(r)) ::
      VerdictOf(r, later) == VerdictOf(r, now)
    ensures ReportIsExact(r, now) <==> Horizon(r) % 1_000_000 == 0
    ensures WholeSecond(Horizon(r)) <= now <==> WholeSecond(now) == WholeSecond(Horizon(r))
  {
    VerdictStandsUntilHorizon(r, now, now);
    forall later | now <= later
      ensures VerdictOf(r, later) == VerdictOf(r, now) <==> later < Horizon(r)
    {
      VerdictStandsUntilHorizon(r, now, later);
    }
    if Horizon(r) % SECOND != 0 {
      var later := if now < WholeSecond(Horizon(r)) then WholeSecond(Horizon(r)) else now;
      assert VerdictOf(r, later) == VerdictOf(r, now);
      assert !ReportIsExact(r, now);
    }
    SameSecond(now, Horizon(r));
  }

  lemma SameSecond(now: int, horizon: int)
    requires now < horizon
    ensures WholeSecond(horizon) <= now <==> WholeSecond(now) == WholeSecond(horizon)
  {
  }

  /** A request whose inputs all expire at the given instant. */
  function Uniform(until: int): Request {
    var common := Common(Some("runtime"), Some(until), Some("policy"), Some("sha"));
    Request("release", "runtime", "ref", "policy",
      map[ReleaseIdentity := Some(ReleaseItem(Header(SchemaOf(ReleaseIdentity), "1.0.0"), common,
                                              Some("release"), Some("ref"), Some("p"))),
          RuntimeBinding := Some(RuntimeItem(Header(SchemaOf(RuntimeBinding), "1.0.0"), common,
                                             Some("i"))),
          MonitorProjection := Some(MonitorItem(Header(SchemaOf(MonitorProjection), "1.0.0"), common,
                                                Some("m")))],
      None)
  }

  /** Inputs valid to half past a second, read at its first fifth: TRUE, and reported as expired. */
  lemma TrueReportedAsExpired()
    ensures VerdictOf(Uniform(500_000), 200_000) == True
    ensures WholeSecond(Horizon(Uniform(500_000))) == 0 < 200_000
    ensures !ReportIsExact(Uniform(500_000), 200_000)
  {
    var r := Uniform(500_000);
    forall name: Name ensures Sound(r, name, 200_000) && ShaOf(r, name) == Some("sha") {
      assert name.ReleaseIdentity? || name.RuntimeBinding? || name.MonitorProjection?;
    }
    HorizonIsEarliest(r, 200_000, 499_999);
    HorizonIsEarliest(r, 200_000, 500_000);
    ReportedExpiry(r, 200_000);
  }
}
