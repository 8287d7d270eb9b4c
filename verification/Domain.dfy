/**
  The vocabulary shared by the controller and the drivers: phases, plans, operation
  states, phase receipts with their typed artifacts, and the operation record.

  A receipt digest is modelled as a free constructor over the digested payload, so two
  digests are equal exactly when the payloads are.  An artifact is an opaque token; only
  equality of artifacts matters to the code modelled here.
*/
module Domain {

  datatype Option<+T> = None | Some(value: T)

  datatype Result<+T, +E> = Ok(value: T) | Err(error: E)

  datatype Phase =
    | Queued | SyncingSource | VerifyingSource | Testing | Building | Preflight
    | BackingUp | Draining | CutoverSnapshotting | Migrating
    | Deploying | HealthChecking | Soaking | Rollback | Reconciliation

  /** Phases from which an attempt may already have changed the production host. */
  predicate CrossesMutationBoundary(p: Phase) {
    p in {BackingUp, Draining, CutoverSnapshotting, Migrating, Deploying,
          HealthChecking, Soaking, Rollback, Reconciliation}
  }

  datatype OperationKind = Deploy | CodeRollback | BackupOnly

  datatype ReleaseClass = CodeOnlyCompatible | StatefulCompatible | StatefulBreaking | RollbackRelease

  const CODE_ONLY_PHASES: seq<Phase> :=
    [Queued, SyncingSource, VerifyingSource, Testing, Building, Preflight,
     Deploying, HealthChecking, Soaking]

  const STATEFUL_PHASES: seq<Phase> :=
    [Queued, SyncingSource, VerifyingSource, Testing, Building, Preflight,
     BackingUp, Draining, CutoverSnapshotting, Migrating, Deploying, HealthChecking, Soaking]

  const CODE_ROLLBACK_PHASES: seq<Phase> := [Queued, Preflight, Rollback, HealthChecking, Soaking]

  const BACKUP_ONLY_PHASES: seq<Phase> := [Queued, Preflight, BackingUp]

  /** The branch entered when a deployment is rolled back automatically. */
  const RECOVERY_PHASES: seq<Phase> := [Rollback, HealthChecking, Soaking]

  /** The phase plan of an operation; None is the release-class mismatch error. */
  function RequiredPhases(kind: OperationKind, release: Option<ReleaseClass>): (plan: Option<seq<Phase>>)
    ensures plan.Some? ==> WellFormedPlan(kind, plan.value)
  {
    PlansAreWellFormed();
    match (kind, release)
    case (Deploy, Some(CodeOnlyCompatible)) => Some(CODE_ONLY_PHASES)
    case (Deploy, Some(StatefulCompatible)) => Some(STATEFUL_PHASES)
    case (Deploy, Some(StatefulBreaking)) => Some(STATEFUL_PHASES)
    case (CodeRollback, Some(RollbackRelease)) => Some(CODE_ROLLBACK_PHASES)
    case (BackupOnly, None) => Some(BACKUP_ONLY_PHASES)
    case _ => None
  }

  lemma PlansAreWellFormed()
    ensures WellFormedPlan(Deploy, CODE_ONLY_PHASES)
    ensures WellFormedPlan(Deploy, STATEFUL_PHASES)
    ensures WellFormedPlan(CodeRollback, CODE_ROLLBACK_PHASES)
    ensures WellFormedPlan(BackupOnly, BACKUP_ONLY_PHASES)
  {
    hide WellFormedPlan;
    CodeOnlyIsWellFormed();
    StatefulIsWellFormed();
    RollbackIsWellFormed();
    BackupIsWellFormed();
  }

  lemma CodeOnlyIsWellFormed()
    ensures WellFormedPlan(Deploy, CODE_ONLY_PHASES)
  {
  }

  lemma StatefulIsWellFormed()
    ensures WellFormedPlan(Deploy, STATEFUL_PHASES)
  {
  }

  lemma RollbackIsWellFormed()
    ensures WellFormedPlan(CodeRollback, CODE_ROLLBACK_PHASES)
  {
  }

  lemma BackupIsWellFormed()
    ensures WellFormedPlan(BackupOnly, BACKUP_ONLY_PHASES)
  {
  }

  /** What every plan has in common, whatever its kind and class. */
  ghost predicate WellFormedPlan(kind: OperationKind, plan: seq<Phase>) {
    && 2 <= |plan|
    && plan[0] == Queued
    && Distinct(plan)
    && Reconciliation !in plan
    && (Rollback in plan ==> kind == CodeRollback)
    && (forall i, j :: 0 <= i <= j < |plan| && CrossesMutationBoundary(plan[i]) ==> CrossesMutationBoundary(plan[j]))
    && (kind == CodeRollback ==> plan == CODE_ROLLBACK_PHASES)
  }

  predicate Distinct<T(==)>(s: seq<T>) {
    forall i, j :: 0 <= i < j < |s| ==> s[i] != s[j]
  }

  /** Position of a phase in a plan, None when the plan does not contain it. */
  function Position(plan: seq<Phase>, p: Phase): (r: Option<nat>)
    ensures r.Some? ==> r.value < |plan| && plan[r.value] == p && p !in plan[..r.value]
    ensures r.None? <==> p !in plan
  {
    if plan == [] then None
    else if plan[0] == p then Some(0)
    else
      match Position(plan[1..], p)
      case None => None
      case Some(i) =>
        assert plan[..i + 1] == [plan[0]] + plan[1..][..i];
        Some(i + 1)
  }

  lemma PositionInDistinct(plan: seq<Phase>, i: nat)
    requires Distinct(plan) && i < |plan|
    ensures Position(plan, plan[i]) == Some(i)
  {
    var k := Position(plan, plan[i]).value;
    assert plan[k] == plan[i];
  }

  /** Whether the plan lets the operation move from one phase to the next. */
  predicate PermitsTransition(plan: seq<Phase>, current: Phase, next: Phase) {
    if next == Reconciliation then true
    else if next == Rollback then CrossesMutationBoundary(current)
    else exists i :: 0 <= i < |plan| - 1 && plan[i] == current && plan[i + 1] == next
  }

  datatype OperationResult =
    | Running | Succeeded | Failed | RolledBack | RollbackFailed
    | Cancelled | Superseded | ManualRecoveryRequired

  datatype BlockingReason =
    | NoBlock | DiskReserve | SourceDivergence | SourceBrokerUnavailable | SourceHeadSuperseded
    | SourceAttestationInvalid | PolicyUnavailable | PolicyInvalid | PolicyStale
    | SecurityStateInvalid | BackupPolicy | StaleTelemetry | ClockUnsynchronized
    | MaintenanceConflict | OperatorHold

  datatype State = State(phase: Phase, result: OperationResult, block: BlockingReason) {
    predicate Valid() {
      && (result != Running ==> block == NoBlock)
      && (result == ManualRecoveryRequired ==> phase == Reconciliation)
      && (result == RolledBack ==> phase in {Rollback, Soaking})
      && (result == RollbackFailed ==> phase in {Rollback, Reconciliation})
    }
  }

  const QUEUED_STATE := State(Queued, Running, NoBlock)

  datatype Branch = Primary | RollbackRecovery

  /** Every artifact slot a receipt may carry, and the slots only evidence has. */
  datatype Field =
    | SourceGateProof | DrainEvidence | SourceExport | PrefetchEvidence | CiEvidence
    | BuildPlan | DeploymentPlan | ReleaseBundle | ResourceReservation | BuildContext
    | GeneratedOutputs | Image | ImageId | BaseImages | SchemaVersion
    | BackupId | BackupSetId | BaseBackupId | BaseBackupManifest | BaseBackupEvidence
    | BaseBackupOffsite | BaseBackupVerification | CutoverBackupId | CutoverManifest
    | CutoverEvidence | CutoverVerification | PreviousReleaseBundle | HealthEvidence
    | FencingEpoch | RollbackHealthEvidence

  datatype Value = Value(token: nat)

  /** An absent optional and an empty list are both a slot missing from `fields`. */
  datatype Artifacts = Artifacts(specDigest: Option<nat>, fields: map<Field, Value>)

  function RequiredFields(p: Phase): set<Field> {
    match p
    case Testing => {SourceExport, PrefetchEvidence, CiEvidence, BuildContext, ResourceReservation, BaseImages}
    case Building => {BuildContext, BuildPlan, Image, ImageId, BaseImages}
    case Preflight => {ResourceReservation}
    case Draining => {SourceGateProof, DrainEvidence}
    case Deploying => {DeploymentPlan, ReleaseBundle}
    case BackingUp => {BackupSetId, BaseBackupId, BaseBackupManifest, BaseBackupEvidence,
                       BaseBackupOffsite, BaseBackupVerification}
    case CutoverSnapshotting => {BackupSetId, CutoverBackupId, CutoverManifest, CutoverEvidence,
                                 CutoverVerification, FencingEpoch}
    case Migrating => {SchemaVersion}
    case HealthChecking => {HealthEvidence}
    case _ => {}
  }

  function OwnedFields(p: Phase): (owned: set<Field>)
    ensures RequiredFields(p) <= owned
    ensures RollbackHealthEvidence !in owned
  {
    match p
    case Testing => RequiredFields(p) + {GeneratedOutputs}
    case BackingUp => RequiredFields(p) + {SourceGateProof}
    case Deploying => RequiredFields(p) + {SourceGateProof, PreviousReleaseBundle}
    case Soaking => {HealthEvidence}
    case Rollback => {PreviousReleaseBundle}
    case _ => RequiredFields(p)
  }

  /** A receipt carries all the evidence its phase requires and none owned by another. */
  predicate ValidForPhase(a: Artifacts, p: Phase) {
    RequiredFields(p) <= a.fields.Keys <= OwnedFields(p)
  }

  datatype ReceiptPayload = ReceiptPayload(
    attempt: nat, phase: Phase, branch: Branch, intent: nat, observation: nat,
    artifacts: Artifacts, committedAt: int)

  datatype ReceiptDigest = Sha256(payload: ReceiptPayload)

  datatype Receipt = Receipt(payload: ReceiptPayload, digest: ReceiptDigest) {
    predicate HasValidDigest() {
      digest == Sha256(payload)
    }
  }

  datatype Transition = Transition(
    sequence: nat, from: State, to: State, receipt: Option<ReceiptDigest>, at: int)

  datatype RecoveryMode = RollbackMode | ReconciliationMode

  datatype SpecEntry = SpecEntry(branch: Branch, phase: Phase, spec: nat)

  datatype Evidence = Evidence(
    specs: seq<SpecEntry>,
    policy: Option<nat>,
    sourceAttestation: Option<nat>,
    sourceSequence: Option<nat>,
    actionGrant: Option<nat>,
    fenceReceipt: Option<nat>,
    fields: map<Field, Value>,
    recovery: Option<RecoveryMode>,
    transitions: seq<Transition>)

  datatype Capsule = Capsule(token: nat, wellFormed: bool)

  datatype Actor = Interactive(user: nat) | Automation(source: Channel)

  datatype Channel = GithubWebhook | SourceReconciliation | DirectPush

  datatype Record = Record(
    operation: nat, request: nat, attempt: nat, number: nat, project: nat,
    kind: OperationKind, commit: Option<nat>, release: Option<ReleaseClass>,
    state: State, actor: Actor, evidence: Evidence, capsule: Option<Capsule>,
    createdAt: int, updatedAt: int)

  /** Transition sequence numbers are 32-bit. */
  const MAX_SEQUENCE: nat := 0xFFFF_FFFF

  /** Slot-wise merge: keep equal values, fill missing ones, refuse to replace any. */
  function MergeFields(target: map<Field, Value>, incoming: map<Field, Value>): (r: Option<map<Field, Value>>)
    ensures r.None? <==> exists f :: f in target && f in incoming && target[f] != incoming[f]
    ensures r.Some? ==>
              && r.value.Keys == target.Keys + incoming.Keys
              && (forall f :: f in target ==> r.value[f] == target[f])
              && (forall f :: f in incoming ==> r.value[f] == incoming[f])
  {
    if exists f :: f in target && f in incoming && target[f] != incoming[f] then None
    else Some(target + incoming)
  }

  /** One slot: nothing incoming or an equal value changes nothing, a missing one is filled, another conflicts. */
  function MergeSlot(target: map<Field, Value>, incoming: map<Field, Value>, slot: Field)
    : (r: Option<map<Field, Value>>)
  {
    if slot !in incoming then Some(target)
    else if slot !in target then Some(target[slot := incoming[slot]])
    else if target[slot] == incoming[slot] then Some(target)
    else None
  }

  /** The given slots one after the other; the first conflict ends it. */
  function MergeSlots(target: map<Field, Value>, incoming: map<Field, Value>, slots: seq<Field>)
    : (r: Option<map<Field, Value>>)
    decreases |slots|
  {
    if slots == [] then Some(target)
    else
      match MergeSlot(target, incoming, slots[0])
      case None => None
      case Some(next) => MergeSlots(next, incoming, slots[1..])
  }

  function Restricted(fields: map<Field, Value>, slots: seq<Field>): map<Field, Value> {
    map f | f in fields && f in slots :: fields[f]
  }

  /** Merging slot by slot, in any order, is merging the listed slots at once. */
  lemma {:induction false} SlotBySlotIsAtOnce(target: map<Field, Value>, incoming: map<Field, Value>, slots: seq<Field>)
    ensures MergeSlots(target, incoming, slots) == MergeFields(target, Restricted(incoming, slots))
    decreases |slots|
  {
    if slots == [] {
      assert target + Restricted(incoming, slots) == target;
    } else {
      var now := MergeSlot(target, incoming, slots[0]);
      if now.Some? {
        SlotBySlotIsAtOnce(now.value, incoming, slots[1..]);
        FirstSlot(target, incoming, slots);
      } else {
        assert slots[0] in slots;
        assert slots[0] in Restricted(incoming, slots);
      }
    }
  }

  lemma FirstSlot(target: map<Field, Value>, incoming: map<Field, Value>, slots: seq<Field>)
    requires slots != [] && MergeSlot(target, incoming, slots[0]).Some?
    ensures MergeFields(MergeSlot(target, incoming, slots[0]).value, Restricted(incoming, slots[1..]))
         == MergeFields(target, Restricted(incoming, slots))
  {
    var next := MergeSlot(target, incoming, slots[0]).value;
    var some, rest := Restricted(incoming, slots), Restricted(incoming, slots[1..]);
    assert slots == [slots[0]] + slots[1..];
    assert forall f :: f in slots <==> f == slots[0] || f in slots[1..];
    assert forall f :: f in some <==> f in rest || (f == slots[0] && f in incoming);
    assert next + rest == target + some;
  }

  /** The one history entry per branch and phase, appended once and never replaced. */
  function MergeSpec(history: seq<SpecEntry>, phase: Phase, branch: Branch, incoming: Option<nat>)
    : (r: Option<seq<SpecEntry>>)
    ensures r.Some? ==> history <= r.value && |r.value| <= |history| + 1
    ensures r.Some? && UniqueSpecs(history) ==> UniqueSpecs(r.value)
    ensures r.Some? && incoming.Some? ==> SpecEntry(branch, phase, incoming.value) in r.value
  {
    match incoming
    case None => Some(history)
    case Some(spec) =>
      match FirstSpec(history, phase, branch)
      case Some(i) => if history[i].spec == spec then Some(history) else None
      case None => Some(history + [SpecEntry(branch, phase, spec)])
  }

  function FirstSpec(history: seq<SpecEntry>, phase: Phase, branch: Branch): (r: Option<nat>)
    ensures r.Some? ==> r.value < |history| && history[r.value].phase == phase && history[r.value].branch == branch
    ensures r.None? ==> forall i :: 0 <= i < |history| ==> history[i].phase != phase || history[i].branch != branch
  {
    if history == [] then None
    else if history[0].phase == phase && history[0].branch == branch then Some(0)
    else
      match FirstSpec(history[1..], phase, branch)
      case None => None
      case Some(i) => Some(i + 1)
  }

  predicate UniqueSpecs(history: seq<SpecEntry>) {
    forall i, j :: 0 <= i < j < |history| ==>
                     history[i].branch != history[j].branch || history[i].phase != history[j].phase
  }
}
