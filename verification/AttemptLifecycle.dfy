/**
  What each controller call does to one attempt record, and what every sequence of such
  calls keeps: the transition log is a chain that never repeats a receipt, looking back
  through reconciliation recovers the phase of every receipt, receipts follow the plan,
  an attempt never ends in failure after it changed the host, and an ended attempt never
  changes again.
*/
module AttemptLifecycle {
  import opened Domain

  datatype StoreError =
    | ReceiptDigestMismatch | ArtifactContract | ReceiptMismatch | TransitionRejected
    | ArtifactConflict | ReleaseClassMismatch | InvalidState | CorruptCapsule
    | SequenceOverflow | InvalidInput | FailureAfterMutation | CancellationAfterMutation

  type Outcome = Result<Record, StoreError>

  /** One call addressed to an existing attempt. */
  datatype Call =
    | CommitReceipt(receipt: Receipt)
    | CommitReconciledReceipt(receipt: Receipt)
    | MarkNeedsReconcile(capsule: Capsule)
    | BeginRollback
    | SetSourceBlock(reason: BlockingReason)
    | SetCutoverBlock
    | ClearCutoverBlock
    | SetDiskBlock
    | ClearDiskBlock
    | Supersede(capsule: Capsule)
    | RecordFence(fence: FenceReceipt)
    | Fail(capsule: Capsule)
    | Cancel

  datatype FenceReceipt = FenceReceipt(attempt: nat, project: nat, epoch: nat, digest: nat, wellFormed: bool)

  // ---------------------------------------------------------------- reading the log

  function ReceiptPhase(ts: seq<Transition>, i: nat): (p: Option<Phase>) {
    if |ts| <= i then None
    else if ts[i].from.phase != Reconciliation then Some(ts[i].from.phase)
    else if i == 0 then None
    else if ts[i - 1].to.phase == Reconciliation && ts[i - 1].receipt.None? then Some(ts[i - 1].from.phase)
    else None
  }

  predicate HasCommittedMutation(op: Record) {
    var ts := op.evidence.transitions;
    exists i :: 0 <= i < |ts| && ts[i].receipt.Some? && ReceiptPhase(ts, i).Some?
      && CrossesMutationBoundary(ReceiptPhase(ts, i).value)
  }

  predicate HasCommittedPhase(op: Record, p: Phase) {
    var ts := op.evidence.transitions;
    exists i :: 0 <= i < |ts| && ts[i].receipt.Some? && ReceiptPhase(ts, i) == Some(p)
  }

  predicate HasReceipt(op: Record, d: ReceiptDigest) {
    exists i :: 0 <= i < |op.evidence.transitions| && op.evidence.transitions[i].receipt == Some(d)
  }

  predicate HasTrustedSourceAdmission(op: Record) {
    && op.kind == Deploy
    && op.commit.Some?
    && op.evidence.policy.Some?
    && op.evidence.sourceAttestation.Some?
    && op.evidence.sourceSequence.Some?
    && op.evidence.sourceSequence.value > 0
  }

  predicate IsStatefulCutoverRetry(op: Record) {
    && op.state.result == Running
    && op.state.phase == CutoverSnapshotting
    && op.kind == Deploy
    && op.release in {Some(StatefulCompatible), Some(StatefulBreaking)}
    && HasTrustedSourceAdmission(op)
    && HasCommittedPhase(op, BackingUp)
    && HasCommittedPhase(op, Draining)
  }

  // ---------------------------------------------------------------- the transitions

  function Persist(op: Record, next: State, receipt: Option<ReceiptDigest>, at: int): (r: Outcome) {
    if !next.Valid() then Err(InvalidState)
    else if op.capsule.Some? && !op.capsule.value.wellFormed then Err(CorruptCapsule)
    else if |op.evidence.transitions| + 1 > MAX_SEQUENCE then Err(SequenceOverflow)
    else
      var t := Transition(|op.evidence.transitions| + 1, op.state, next, receipt, at);
      Ok(op.(state := next, updatedAt := at,
             evidence := op.evidence.(transitions := op.evidence.transitions + [t])))
  }

  function NextState(op: Record, payload: ReceiptPayload, inRollback: bool): (r: Result<State, StoreError>) {
    if payload.branch != (if inRollback then RollbackRecovery else Primary) then Err(ReceiptMismatch)
    else
      var plan := if inRollback then Some(RECOVERY_PHASES) else RequiredPhases(op.kind, op.release);
      if plan.None? then Err(ReleaseClassMismatch)
      else
        var index := Position(plan.value, payload.phase);
        if index.None? then Err(TransitionRejected)
        else if index.value + 1 < |plan.value| then
          var next := plan.value[index.value + 1];
          if !inRollback && !PermitsTransition(plan.value, payload.phase, next) then Err(TransitionRejected)
          else Ok(State(next, Running, NoBlock))
        else
          var result := if inRollback || op.kind == CodeRollback then RolledBack else Succeeded;
          Ok(State(payload.phase, result, NoBlock))
  }

  /** Health evidence goes to the slot of its branch; the soak replaces what the health check left. */
  function MergeHealth(fields: map<Field, Value>, incoming: map<Field, Value>, phase: Phase, inRollback: bool)
    : (r: Option<map<Field, Value>>)
  {
    var slot := if inRollback then RollbackHealthEvidence else HealthEvidence;
    if HealthEvidence !in incoming then Some(fields)
    else if phase == Soaking then Some(fields[slot := incoming[HealthEvidence]])
    else MergeFields(fields, map[slot := incoming[HealthEvidence]])
  }

  /** The controller folds every artifact slot of the receipt into the record's evidence. */
  function MergeArtifacts(e: Evidence, a: Artifacts, phase: Phase, branch: Branch, inRollback: bool)
    : (r: Option<Evidence>)
  {
    var specs := MergeSpec(e.specs, phase, branch, a.specDigest);
    var others := MergeFields(e.fields, a.fields - {HealthEvidence});
    if specs.None? || others.None? then None
    else
      match MergeHealth(others.value, a.fields, phase, inRollback)
      case None => None
      case Some(fields) => Some(e.(specs := specs.value, fields := fields))
  }

  /** The controller's slots in the order it merges them: source and build, then backups, then the release. */
  const BUILD_ORDER: seq<Field> :=
    [SourceGateProof, DrainEvidence, SourceExport, PrefetchEvidence, CiEvidence, BuildPlan, DeploymentPlan,
     ReleaseBundle, ResourceReservation, BuildContext, GeneratedOutputs, Image, ImageId, BaseImages, SchemaVersion]

  const STORED_BACKUP_ORDER: seq<Field> :=
    [BackupId, BackupSetId, BaseBackupId, BaseBackupManifest, BaseBackupEvidence, BaseBackupOffsite,
     BaseBackupVerification, CutoverBackupId, CutoverManifest, CutoverEvidence, CutoverVerification, FencingEpoch]

  const CONTROLLER_ORDER: seq<Field> := BUILD_ORDER + STORED_BACKUP_ORDER + [PreviousReleaseBundle]

  /** Merging at once is what the controller does slot by slot; receipts have no slot for rollback health. */
  lemma ControllerMergesInOrder(e: Evidence, a: Artifacts, phase: Phase, branch: Branch, inRollback: bool)
    requires RollbackHealthEvidence !in a.fields
    ensures var specs, others := MergeSpec(e.specs, phase, branch, a.specDigest),
                                 MergeSlots(e.fields, a.fields, CONTROLLER_ORDER);
            MergeArtifacts(e, a, phase, branch, inRollback) ==
            if specs.None? || others.None? then None
            else
              match MergeHealth(others.value, a.fields, phase, inRollback)
              case None => None
              case Some(fields) => Some(e.(specs := specs.value, fields := fields))
  {
    hide MergeSpec, MergeFields, MergeHealth, MergeSlots;
    SlotBySlotIsAtOnce(e.fields, a.fields, CONTROLLER_ORDER);
    AllSlotsListed();
    assert Restricted(a.fields, CONTROLLER_ORDER) == a.fields - {HealthEvidence};
  }

  lemma AllSlotsListed()
    ensures forall f :: f in CONTROLLER_ORDER <==> f != HealthEvidence && f != RollbackHealthEvidence
  {
    forall f ensures f in CONTROLLER_ORDER <==> f != HealthEvidence && f != RollbackHealthEvidence {
      BuildSlotsListed(f);
      BackupSlotsListed(f);
    }
  }

  lemma BuildSlotsListed(f: Field)
    ensures f in BUILD_ORDER
       <==> f in {SourceGateProof, DrainEvidence, SourceExport, PrefetchEvidence, CiEvidence, BuildPlan, DeploymentPlan,
                  ReleaseBundle, ResourceReservation, BuildContext, GeneratedOutputs, Image, ImageId, BaseImages,
                  SchemaVersion}
  {
    assert BUILD_ORDER[0] == SourceGateProof && BUILD_ORDER[1] == DrainEvidence && BUILD_ORDER[2] == SourceExport;
    assert BUILD_ORDER[3] == PrefetchEvidence && BUILD_ORDER[4] == CiEvidence && BUILD_ORDER[5] == BuildPlan;
    assert BUILD_ORDER[6] == DeploymentPlan && BUILD_ORDER[7] == ReleaseBundle && BUILD_ORDER[8] == ResourceReservation;
    assert BUILD_ORDER[9] == BuildContext && BUILD_ORDER[10] == GeneratedOutputs && BUILD_ORDER[11] == Image;
    assert BUILD_ORDER[12] == ImageId && BUILD_ORDER[13] == BaseImages && BUILD_ORDER[14] == SchemaVersion;
  }

  lemma BackupSlotsListed(f: Field)
    ensures f in STORED_BACKUP_ORDER
       <==> f in {BackupId, BackupSetId, BaseBackupId, BaseBackupManifest, BaseBackupEvidence, BaseBackupOffsite,
                  BaseBackupVerification, CutoverBackupId, CutoverManifest, CutoverEvidence, CutoverVerification,
                  FencingEpoch}
  {
    var order := STORED_BACKUP_ORDER;
    assert order[0] == BackupId && order[1] == BackupSetId && order[2] == BaseBackupId;
    assert order[3] == BaseBackupManifest && order[4] == BaseBackupEvidence && order[5] == BaseBackupOffsite;
    assert order[6] == BaseBackupVerification && order[7] == CutoverBackupId && order[8] == CutoverManifest;
    assert order[9] == CutoverEvidence && order[10] == CutoverVerification && order[11] == FencingEpoch;
  }

  function AfterCommitReceipt(op: Record, receipt: Receipt, at: int): (r: Outcome) {
    if !receipt.HasValidDigest() then Err(ReceiptDigestMismatch)
    else if !ValidForPhase(receipt.payload.artifacts, receipt.payload.phase) then Err(ArtifactContract)
    else if HasReceipt(op, receipt.digest) then Ok(op)
    else if op.state.result != Running || op.state.phase != receipt.payload.phase then Err(ReceiptMismatch)
    else
      var inRollback := op.evidence.recovery == Some(RollbackMode);
      match NextState(op, receipt.payload, inRollback)
      case Err(e) => Err(e)
      case Ok(next) =>
        match MergeArtifacts(op.evidence, receipt.payload.artifacts, receipt.payload.phase,
                             receipt.payload.branch, inRollback)
        case None => Err(ArtifactConflict)
        case Some(evidence) => Persist(op.(evidence := evidence), next, Some(receipt.digest), at)
  }

  function AfterCommitReconciledReceipt(op: Record, receipt: Receipt, at: int): (r: Outcome) {
    var ts := op.evidence.transitions;
    if !receipt.HasValidDigest() then Err(ReceiptDigestMismatch)
    else if !ValidForPhase(receipt.payload.artifacts, receipt.payload.phase) then Err(ArtifactContract)
    else if HasReceipt(op, receipt.digest) then
      if CommittedOutOfReconciliation(ts, receipt) then Ok(op) else Err(ReceiptMismatch)
    else if || op.state.result != Running
            || op.state.phase != Reconciliation
            || op.evidence.recovery != Some(ReconciliationMode)
            || receipt.payload.branch != Primary then Err(ReceiptMismatch)
    else if !EnteredReconciliationFrom(ts, receipt.payload.phase) then Err(ReceiptMismatch)
    else
      match NextState(op, receipt.payload, false)
      case Err(e) => Err(e)
      case Ok(next) =>
        match MergeArtifacts(op.evidence, receipt.payload.artifacts, receipt.payload.phase,
                             receipt.payload.branch, false)
        case None => Err(ArtifactConflict)
        case Some(evidence) =>
          Persist(op.(evidence := evidence.(recovery := None), capsule := None), next, Some(receipt.digest), at)
  }

  /** The first log entry with this receipt left reconciliation and names its phase. */
  predicate CommittedOutOfReconciliation(ts: seq<Transition>, receipt: Receipt) {
    exists i ::
      && 0 <= i < |ts|
      && ts[i].receipt == Some(receipt.digest)
      && (forall j :: 0 <= j < i ==> ts[j].receipt != Some(receipt.digest))
      && ts[i].from.phase == Reconciliation
      && ReceiptPhase(ts, i) == Some(receipt.payload.phase)
  }

  predicate EnteredReconciliationFrom(ts: seq<Transition>, p: Phase) {
    && ts != []
    && var last := ts[|ts| - 1];
    && last.from.phase == p
    && last.to.phase == Reconciliation
    && last.to.result == Running
    && last.receipt.None?
  }

  function AfterMarkNeedsReconcile(op: Record, capsule: Capsule, at: int): (r: Outcome) {
    if !capsule.wellFormed then Err(InvalidInput)
    else if op.state.phase == Reconciliation && op.state.result == Running then Ok(op)
    else if op.state.result != Running then Err(TransitionRejected)
    else
      Persist(op.(evidence := op.evidence.(recovery := Some(ReconciliationMode)), capsule := Some(capsule)),
              State(Reconciliation, Running, SecurityStateInvalid), None, at)
  }

  /** Ok(true): rollback already begun and not yet left its first phase; Ok(false): allowed now. */
  function RequireRollback(op: Record): (r: Result<bool, StoreError>) {
    if op.evidence.recovery == Some(RollbackMode) then
      if op.state.phase == Rollback && op.state.result == Running then Ok(true) else Err(TransitionRejected)
    else if || op.kind != Deploy
            || op.state.result != Running
            || !CrossesMutationBoundary(op.state.phase)
            || !HasCommittedPhase(op, Deploying)
            || op.release !in {Some(CodeOnlyCompatible), Some(StatefulCompatible)} then Err(TransitionRejected)
    else Ok(false)
  }

  function AfterBeginRollback(op: Record, at: int): (r: Outcome) {
    match RequireRollback(op)
    case Err(e) => Err(e)
    case Ok(true) => Ok(op)
    case Ok(false) =>
      Persist(op.(evidence := op.evidence.(recovery := Some(RollbackMode))), State(Rollback, Running, NoBlock), None,
              at)
  }

  function AfterPreMutationBlock(op: Record, reason: BlockingReason, needsSource: bool, at: int): (r: Outcome) {
    if || op.state.result != Running
       || (needsSource && !HasTrustedSourceAdmission(op))
       || HasCommittedMutation(op) then Err(TransitionRejected)
    else if op.state.block == reason then Ok(op)
    else if op.state.block != NoBlock && op.state.block != SourceBrokerUnavailable then Ok(op)
    else Persist(op, State(op.state.phase, Running, reason), None, at)
  }

  function AfterSetSourceBlock(op: Record, reason: BlockingReason, at: int): (r: Outcome) {
    if reason !in {SourceDivergence, SourceBrokerUnavailable, SourceAttestationInvalid, OperatorHold} then
      Err(InvalidInput)
    else AfterPreMutationBlock(op, reason, true, at)
  }

  function AfterSetCutoverBlock(op: Record, at: int): (r: Outcome) {
    if !IsStatefulCutoverRetry(op) then Err(TransitionRejected)
    else if op.state.block == SourceBrokerUnavailable then Ok(op)
    else if op.state.block != NoBlock then Err(TransitionRejected)
    else Persist(op, State(op.state.phase, Running, SourceBrokerUnavailable), None, at)
  }

  function AfterClearCutoverBlock(op: Record, at: int): (r: Outcome) {
    if !IsStatefulCutoverRetry(op) then Err(TransitionRejected)
    else
      match op.state.block
      case NoBlock => Ok(op)
      case SourceBrokerUnavailable => Persist(op, State(op.state.phase, Running, NoBlock), None, at)
      case _ => Err(TransitionRejected)
  }

  function AfterClearDiskBlock(op: Record, at: int): (r: Outcome) {
    if op.state.result != Running || op.state.block != DiskReserve || HasCommittedMutation(op) then
      Err(TransitionRejected)
    else Persist(op, State(op.state.phase, Running, NoBlock), None, at)
  }

  function AfterSupersede(op: Record, capsule: Capsule, at: int): (r: Outcome) {
    if !capsule.wellFormed then Err(InvalidInput)
    else if op.state.result != Running then Ok(op)
    else if !HasTrustedSourceAdmission(op) || HasCommittedMutation(op) then Err(TransitionRejected)
    else Persist(op.(capsule := Some(capsule)), State(op.state.phase, Superseded, NoBlock), None, at)
  }

  /** The epoch slot is filled first; a second, different receipt or epoch is a conflict. */
  function AfterRecordFence(op: Record, f: FenceReceipt, at: int): (r: Outcome) {
    if f.attempt != op.attempt || !f.wellFormed then Err(InvalidInput)
    else if op.state.result != Running || op.state.phase != CutoverSnapshotting || op.project != f.project then
      Err(TransitionRejected)
    else
      match MergeFields(op.evidence.fields, map[FencingEpoch := Value(f.epoch)])
      case None => Err(ArtifactConflict)
      case Some(fields) =>
        if op.evidence.fenceReceipt == Some(f.digest) then Ok(op)
        else if op.evidence.fenceReceipt.Some? then Err(ArtifactConflict)
        else Ok(op.(evidence := op.evidence.(fields := fields, fenceReceipt := Some(f.digest)), updatedAt := at))
  }

  function AfterFail(op: Record, capsule: Capsule, at: int): (r: Outcome) {
    if !capsule.wellFormed then Err(InvalidInput)
    else if op.state.result != Running then Ok(op)
    else if CrossesMutationBoundary(op.state.phase) then Err(FailureAfterMutation)
    else Persist(op.(capsule := Some(capsule)), State(op.state.phase, Failed, NoBlock), None, at)
  }

  function AfterCancel(op: Record, at: int): (r: Outcome) {
    if op.state.result != Running then Ok(op)
    else if CrossesMutationBoundary(op.state.phase) then Err(CancellationAfterMutation)
    else Persist(op, State(op.state.phase, Cancelled, NoBlock), None, at)
  }

  function After(op: Record, c: Call, at: int): (r: Outcome) {
    match c
    case CommitReceipt(receipt) => AfterCommitReceipt(op, receipt, at)
    case CommitReconciledReceipt(receipt) => AfterCommitReconciledReceipt(op, receipt, at)
    case MarkNeedsReconcile(capsule) => AfterMarkNeedsReconcile(op, capsule, at)
    case BeginRollback => AfterBeginRollback(op, at)
    case SetSourceBlock(reason) => AfterSetSourceBlock(op, reason, at)
    case SetCutoverBlock => AfterSetCutoverBlock(op, at)
    case ClearCutoverBlock => AfterClearCutoverBlock(op, at)
    case SetDiskBlock => AfterPreMutationBlock(op, DiskReserve, false, at)
    case ClearDiskBlock => AfterClearDiskBlock(op, at)
    case Supersede(capsule) => AfterSupersede(op, capsule, at)
    case RecordFence(fence) => AfterRecordFence(op, fence, at)
    case Fail(capsule) => AfterFail(op, capsule, at)
    case Cancel => AfterCancel(op, at)
  }

  // ---------------------------------------------------------------- the log's meaning

  /** All receipts in the log, oldest first. */
  ghost function Committed(ts: seq<Transition>): seq<ReceiptDigest> {
    if ts == [] then []
    else Committed(ts[..|ts| - 1]) + ReceiptOf(ts[|ts| - 1])
  }

  ghost function ReceiptOf(t: Transition): seq<ReceiptDigest> {
    if t.receipt.Some? then [t.receipt.value] else []
  }

  ghost predicate IsRollbackEntry(t: Transition) {
    t.to.phase == Rollback && t.receipt.None?
  }

  /** Index of the latest transition that put the attempt into rollback recovery. */
  ghost function LastRollbackEntry(ts: seq<Transition>): (r: Option<nat>)
    ensures r.Some? ==> r.value < |ts| && IsRollbackEntry(ts[r.value])
    ensures forall i :: (if r.Some? then r.value < i else 0 <= i) && i < |ts| ==> !IsRollbackEntry(ts[i])
  {
    if ts == [] then None
    else if IsRollbackEntry(ts[|ts| - 1]) then Some(|ts| - 1)
    else LastRollbackEntry(ts[..|ts| - 1])
  }

  /** The phase the attempt is at, seen through reconciliation. */
  ghost function Cursor(ts: seq<Transition>): Phase {
    if ts == [] then Queued
    else if ts[|ts| - 1].to.phase != Reconciliation then ts[|ts| - 1].to.phase
    else Cursor(ts[..|ts| - 1])
  }

  /** The receipts are one per phase, for the first `k` phases of `plan`, all in `branch`. */
  ghost predicate FollowPlan(ds: seq<ReceiptDigest>, plan: seq<Phase>, k: nat, branch: Branch) {
    && |ds| == k <= |plan|
    && forall i :: 0 <= i < k ==> ds[i].payload.phase == plan[i] && ds[i].payload.branch == branch
  }

  ghost predicate Finished(op: Record) {
    op.state.result in {Succeeded, RolledBack}
  }

  ghost predicate ChainedLog(op: Record) {
    var ts := op.evidence.transitions;
    && (forall i :: 0 <= i < |ts| ==> ts[i].sequence == i + 1 && ts[i].from.result == Running && ts[i].to.Valid())
    && (forall i :: 0 < i < |ts| ==> ts[i].from == ts[i - 1].to)
    && (if ts == [] then op.state == QUEUED_STATE else ts[0].from == QUEUED_STATE && op.state == ts[|ts| - 1].to)
    && |ts| <= MAX_SEQUENCE
  }

  ghost predicate NoReceiptTwice(ts: seq<Transition>) {
    forall i, j :: 0 <= i < j < |ts| && ts[i].receipt.Some? ==> ts[i].receipt != ts[j].receipt
  }

  ghost predicate LookBackFindsPhase(ts: seq<Transition>) {
    forall i :: 0 <= i < |ts| && ts[i].receipt.Some? ==> ReceiptPhase(ts, i) == Some(ts[i].receipt.value.payload.phase)
  }

  /** Reconciliation is entered once, without a receipt, and nothing but leaving it follows. */
  ghost predicate ReconciliationShape(op: Record) {
    var ts := op.evidence.transitions;
    && (op.state.phase == Reconciliation <==> op.evidence.recovery == Some(ReconciliationMode))
    && (op.state.phase == Reconciliation && op.state.result == Running ==>
          && op.state.block == SecurityStateInvalid
          && ts != []
          && ts[|ts| - 1].receipt.None?
          && ts[|ts| - 1].from.phase != Reconciliation)
  }

  ghost predicate MutationSafe(op: Record) {
    (exists d :: d in Committed(op.evidence.transitions) && CrossesMutationBoundary(d.payload.phase)) ==>
      && CrossesMutationBoundary(op.state.phase)
      && CrossesMutationBoundary(Cursor(op.evidence.transitions))
      && op.state.result in {Running, Succeeded, RolledBack}
  }

  /** An attempt never put into rollback recovery has committed the plan up to where it is. */
  ghost predicate PrimaryOrder(op: Record) {
    var ts := op.evidence.transitions;
    LastRollbackEntry(ts).None? && RequiredPhases(op.kind, op.release).Some? ==>
      var plan := RequiredPhases(op.kind, op.release).value;
      && op.evidence.recovery != Some(RollbackMode)
      && (if Finished(op) then FollowPlan(Committed(ts), plan, |plan|, Primary)
          else
            && Position(plan, Cursor(ts)).Some?
            && FollowPlan(Committed(ts), plan, Position(plan, Cursor(ts)).value, Primary))
  }

  /** An attempt in rollback recovery has committed the recovery phases since it was entered. */
  ghost predicate RecoveryOrder(op: Record) {
    var ts := op.evidence.transitions;
    && (LastRollbackEntry(ts).Some? ==>
          && op.kind == Deploy
          && exists d :: d in Committed(ts[..LastRollbackEntry(ts).value]) && d.payload.phase == Deploying)
    && (op.evidence.recovery == Some(RollbackMode) ==>
          && LastRollbackEntry(ts).Some?
          && op.state.phase in RECOVERY_PHASES
          && op.state.result in {Running, RolledBack}
          && var since := Committed(ts[LastRollbackEntry(ts).value..]);
          if op.state.result == RolledBack then FollowPlan(since, RECOVERY_PHASES, 3, RollbackRecovery)
          else FollowPlan(since, RECOVERY_PHASES, Position(RECOVERY_PHASES, op.state.phase).value, RollbackRecovery))
    && (op.kind == Deploy && op.state.result == RolledBack ==> op.evidence.recovery == Some(RollbackMode))
    && (op.state.phase == Rollback ==> op.evidence.recovery == Some(RollbackMode))
  }

  /** A code-rollback attempt is refused the step out of preflight. */
  ghost predicate RollbackPlanStuck(op: Record) {
    op.kind == CodeRollback ==> Cursor(op.evidence.transitions) in {Queued, Preflight} && !Finished(op)
  }

  /** The record can be read back: every check made when a stored record is decoded holds. */
  ghost predicate Decodable(op: Record) {
    && op.state.Valid()
    && (op.capsule.Some? ==> op.capsule.value.wellFormed)
    && RequiredPhases(op.kind, op.release).Some?
    && UniqueSpecs(op.evidence.specs)
    && forall i :: 0 <= i < |op.evidence.specs| && op.evidence.specs[i].branch == RollbackRecovery ==>
                     op.evidence.specs[i].phase in RECOVERY_PHASES
  }

  ghost predicate Inv(op: Record) {
    && Decodable(op)
    && ChainedLog(op)
    && NoReceiptTwice(op.evidence.transitions)
    && LookBackFindsPhase(op.evidence.transitions)
    && ReconciliationShape(op)
    && MutationSafe(op)
    && PrimaryOrder(op)
    && RecoveryOrder(op)
    && RollbackPlanStuck(op)
    && op.state.result !in {RollbackFailed, ManualRecoveryRequired}
  }

  /** A freshly admitted attempt, whatever artifact slots it starts with. */
  ghost predicate Admitted(op: Record) {
    && op.state == QUEUED_STATE
    && RequiredPhases(op.kind, op.release).Some?
    && op.capsule.None?
    && op.evidence.specs == []
    && op.evidence.recovery.None?
    && op.evidence.transitions == []
  }
}
