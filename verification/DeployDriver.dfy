/**
  The deploy driver.  A drive rebuilds the operation from the executor's journal (primary
  receipts, an optional rollback takeover, recovery receipts), then executes one phase at a
  time, journalling each receipt before it projects it, and commits the release state at the
  end.  The process may stop between any two of those steps and be driven again.
*/
module DeployDriver {
  import opened Domain
  import AttemptLifecycle

  datatype ReplayError =
    | ReceiptOrder | ReceiptBinding | ArtifactContract | ArtifactConflict | TransitionOverflow
    | RollbackBinding | ReleaseClassMismatch

  datatype DriverError =
    | Unreplayable(error: ReplayError)
    | InstalledBinding | ReleaseStateWithoutTerminalReceipt | ReleaseStateConflict

  type Projection = Result<Record, ReplayError>

  /** The artifact slots the deploy driver folds into its evidence. */
  const DEPLOY_SLOTS: set<Field> :=
    {SourceGateProof, SourceExport, PrefetchEvidence, CiEvidence, BuildPlan, DeploymentPlan, ReleaseBundle,
     ResourceReservation, BuildContext, GeneratedOutputs, Image, ImageId, BaseImages, HealthEvidence}

  function Only(a: Artifacts, slots: set<Field>): Artifacts {
    a.(fields := map f | f in a.fields && f in slots :: a.fields[f])
  }

  /** The same slots in the order the driver merges them, health apart. */
  const DEPLOY_ORDER: seq<Field> :=
    [SourceGateProof, SourceExport, PrefetchEvidence, CiEvidence, BuildPlan, DeploymentPlan, ReleaseBundle,
     ResourceReservation, BuildContext, GeneratedOutputs, Image, ImageId, BaseImages]

  /** The driver's own merge of a receipt's artifacts. */
  function MergeDeployArtifacts(e: Evidence, a: Artifacts, phase: Phase, rollback: bool): (r: Option<Evidence>) {
    var specs := MergeSpec(e.specs, phase, BranchOf(rollback), a.specDigest);
    var fields := MergeSlots(e.fields, a.fields, DEPLOY_ORDER);
    if specs.None? || fields.None? then None
    else
      match MergeDeployHealth(fields.value, a.fields, phase, rollback)
      case None => None
      case Some(healthy) => Some(e.(specs := specs.value, fields := healthy))
  }

  function MergeDeployHealth(fields: map<Field, Value>, incoming: map<Field, Value>, phase: Phase, rollback: bool)
    : (r: Option<map<Field, Value>>)
  {
    var slot := if rollback then RollbackHealthEvidence else HealthEvidence;
    if phase == Soaking && HealthEvidence in incoming then Some(fields[slot := incoming[HealthEvidence]])
    else if HealthEvidence !in incoming then Some(fields)
    else MergeSlot(fields, map[slot := incoming[HealthEvidence]], slot)
  }

  /** It is the controller's merge restricted to the driver's slots. */
  lemma DeployMergeIsRestricted(e: Evidence, a: Artifacts, phase: Phase, rollback: bool)
    ensures MergeDeployArtifacts(e, a, phase, rollback)
         == AttemptLifecycle.MergeArtifacts(e, Only(a, DEPLOY_SLOTS), phase, BranchOf(rollback), rollback)
  {
    DeployOrderCovers(e.fields, a);
    hide MergeSpec, MergeSlots, MergeFields, MergeDeployHealth, AttemptLifecycle.MergeHealth;
    var fields := MergeSlots(e.fields, a.fields, DEPLOY_ORDER);
    if fields.Some? {
      HealthMergesAlike(fields.value, a.fields, Only(a, DEPLOY_SLOTS).fields, phase, rollback);
    }
  }

  lemma HealthMergesAlike(fields: map<Field, Value>, incoming: map<Field, Value>, only: map<Field, Value>, phase: Phase,
                          rollback: bool)
    requires HealthEvidence in only <==> HealthEvidence in incoming
    requires HealthEvidence in only ==> only[HealthEvidence] == incoming[HealthEvidence]
    ensures MergeDeployHealth(fields, incoming, phase, rollback)
         == AttemptLifecycle.MergeHealth(fields, only, phase, rollback)
  {
    if HealthEvidence in incoming && phase != Soaking {
      var slot := if rollback then RollbackHealthEvidence else HealthEvidence;
      OneSlotAtOnce(fields, slot, incoming[HealthEvidence]);
    }
  }

  lemma OneSlotAtOnce(fields: map<Field, Value>, slot: Field, value: Value)
    ensures MergeSlot(fields, map[slot := value], slot) == MergeFields(fields, map[slot := value])
  {
    assert fields[slot := value] == fields + map[slot := value];
    if slot in fields && fields[slot] == value { assert fields[slot := value] == fields; }
  }

  lemma DeployOrderCovers(fields: map<Field, Value>, a: Artifacts)
    ensures var only := Only(a, DEPLOY_SLOTS).fields;
            && MergeSlots(fields, a.fields, DEPLOY_ORDER) == MergeFields(fields, only - {HealthEvidence})
            && (HealthEvidence in only <==> HealthEvidence in a.fields)
            && (HealthEvidence in only ==> only[HealthEvidence] == a.fields[HealthEvidence])
  {
    hide MergeSlots, MergeFields;
    SlotBySlotIsAtOnce(fields, a.fields, DEPLOY_ORDER);
    DeployOrderListed();
    RestrictedIsOnly(a, DEPLOY_ORDER, DEPLOY_SLOTS);
  }

  lemma RestrictedIsOnly(a: Artifacts, order: seq<Field>, slots: set<Field>)
    requires forall f :: f in order <==> f in slots && f != HealthEvidence
    ensures Restricted(a.fields, order) == Only(a, slots).fields - {HealthEvidence}
  {
  }

  lemma DeployOrderListed()
    ensures forall f :: f in DEPLOY_ORDER <==> f in DEPLOY_SLOTS && f != HealthEvidence
  {
    assert DEPLOY_ORDER[0] == SourceGateProof && DEPLOY_ORDER[1] == SourceExport;
    assert DEPLOY_ORDER[2] == PrefetchEvidence && DEPLOY_ORDER[3] == CiEvidence;
    assert DEPLOY_ORDER[4] == BuildPlan && DEPLOY_ORDER[5] == DeploymentPlan;
    assert DEPLOY_ORDER[6] == ReleaseBundle && DEPLOY_ORDER[7] == ResourceReservation;
    assert DEPLOY_ORDER[8] == BuildContext && DEPLOY_ORDER[9] == GeneratedOutputs;
    assert DEPLOY_ORDER[10] == Image && DEPLOY_ORDER[11] == ImageId && DEPLOY_ORDER[12] == BaseImages;
  }

  // ---------------------------------------------------------------- projecting one journal entry

  function BranchOf(rollback: bool): Branch {
    if rollback then RollbackRecovery else Primary
  }

  function PlanOf(op: Record, rollback: bool): Option<seq<Phase>> {
    if rollback then Some(RECOVERY_PHASES) else RequiredPhases(op.kind, op.release)
  }

  function Push(op: Record, next: State, receipt: Option<ReceiptDigest>, at: int): Projection {
    if |op.evidence.transitions| + 1 > MAX_SEQUENCE then Err(TransitionOverflow)
    else
      var t := Transition(|op.evidence.transitions| + 1, op.state, next, receipt, at);
      Ok(op.(state := next, updatedAt := at, evidence := op.evidence.(transitions := op.evidence.transitions + [t])))
  }

  function Project(op: Record, receipt: Receipt, rollback: bool): (r: Projection) {
    var p := receipt.payload;
    if || !receipt.HasValidDigest()
       || p.attempt != op.attempt
       || p.branch != BranchOf(rollback)
       || p.phase != op.state.phase
       || op.state.result != Running then Err(ReceiptBinding)
    else if !ValidForPhase(p.artifacts, p.phase) then Err(ArtifactContract)
    else
      match MergeDeployArtifacts(op.evidence, p.artifacts, p.phase, rollback)
      case None => Err(ArtifactConflict)
      case Some(evidence) =>
        match PlanOf(op, rollback)
        case None => Err(ReleaseClassMismatch)
        case Some(plan) =>
          match Position(plan, p.phase)
          case None => Err(ReceiptBinding)
          case Some(i) =>
            Push(op.(evidence := evidence), StateAt(plan, i + 1, rollback), Some(receipt.digest), p.committedAt)
  }

  /** The state of an operation that has committed the first k phases of a plan. */
  function StateAt(plan: seq<Phase>, k: nat, rollback: bool): State
    requires plan != []
  {
    if k < |plan| then State(plan[k], Running, NoBlock)
    else State(plan[|plan| - 1], if rollback then RolledBack else Succeeded, NoBlock)
  }

  function BeginRollback(op: Record, at: int): (r: Projection) {
    if || op.state.result != Running
       || op.state.phase !in {HealthChecking, Soaking}
       || PreviousReleaseBundle !in op.evidence.fields then Err(RollbackBinding)
    else Push(op.(evidence := op.evidence.(recovery := Some(RollbackMode))), State(Rollback, Running, NoBlock), None,
              at)
  }

  // ---------------------------------------------------------------- replaying the journal

  datatype Journal = Journal(primary: map<Phase, Receipt>, takeover: Option<int>, recovery: map<Phase, Receipt>)

  const EMPTY_JOURNAL := Journal(map[], None, map[])

  /** Project the stored receipts of plan[i..] in order; a receipt after a gap is an error. */
  function ReplayFrom(op: Record, receipts: map<Phase, Receipt>, plan: seq<Phase>, i: nat, missing: bool,
                      rollback: bool)
    : (r: Projection)
    requires i <= |plan|
    decreases |plan| - i
  {
    if i == |plan| then Ok(op)
    else if plan[i] !in receipts then ReplayFrom(op, receipts, plan, i + 1, true, rollback)
    else if missing then Err(ReceiptOrder)
    else
      match Project(op, receipts[plan[i]], rollback)
      case Err(e) => Err(e)
      case Ok(next) => ReplayFrom(next, receipts, plan, i + 1, missing, rollback)
  }

  function Replay(base: Record, j: Journal): (r: Projection) {
    match RequiredPhases(Deploy, base.release)
    case None => Err(ReleaseClassMismatch)
    case Some(plan) =>
      match ReplayFrom(base, j.primary, plan, 0, false, false)
      case Err(e) => Err(e)
      case Ok(op) => if j.takeover.None? then Ok(op) else ReplayTakeover(op, j)
  }

  function ReplayTakeover(op: Record, j: Journal): Projection
    requires j.takeover.Some?
  {
    var begun := if op.evidence.recovery.None? then BeginRollback(op, j.takeover.value) else Ok(op);
    match begun
    case Err(e) => Err(e)
    case Ok(op) => ReplayFrom(op, j.recovery, RECOVERY_PHASES, 0, false, true)
  }

  /** The replay loop as the driver runs it. */
  method ProjectReceipts(base: Record, receipts: map<Phase, Receipt>, plan: seq<Phase>, rollback: bool)
    returns (r: Projection)
    ensures r == ReplayFrom(base, receipts, plan, 0, false, rollback)
  {
    var operation, missing := base, false;
    for i := 0 to |plan|
      invariant ReplayFrom(base, receipts, plan, 0, false, rollback) ==
                ReplayFrom(operation, receipts, plan, i, missing, rollback)
    {
      if plan[i] !in receipts {
        missing := true;
      } else if missing {
        return Err(ReceiptOrder);
      } else {
        var next := Project(operation, receipts[plan[i]], rollback);
        if next.Err? { return next; }
        operation := next.value;
      }
    }
    return Ok(operation);
  }

  method ProjectExistingReceipts(base: Record, j: Journal) returns (r: Projection)
    ensures r == Replay(base, j)
  {
    var plan := RequiredPhases(Deploy, base.release);
    if plan.None? { return Err(ReleaseClassMismatch); }
    r := ProjectReceipts(base, j.primary, plan.value, false);
    if r.Err? || j.takeover.None? { return r; }
    if r.value.evidence.recovery.None? {
      r := BeginRollback(r.value, j.takeover.value);
      if r.Err? { return r; }
    }
    r := ProjectReceipts(r.value, j.recovery, RECOVERY_PHASES, true);
  }

  // ---------------------------------------------------------------- the accepted deployment

  datatype BackupDigests = BackupDigests(setId: Value, id: Value, manifest: Value, evidence: Value,
                                         offsite: Option<Value>, chain: Value)

  datatype Accepted = Accepted(
    intent: nat, request: nat, attempt: nat, project: nat, commit: nat, actor: nat, policy: nat,
    sourceAttestation: nat, sourceSequence: nat, grant: nat, acceptedAt: int,
    candidate: nat, deploymentPlan: Value, previous: Option<nat>, backup: Option<BackupDigests>, reservation: Value)

  function BackupFields(b: BackupDigests): map<Field, Value> {
    map[BackupSetId := b.setId, BaseBackupId := b.id, BaseBackupManifest := b.manifest,
        BaseBackupEvidence := b.evidence,
        BaseBackupVerification := b.chain]
    + if b.offsite.Some? then map[BaseBackupOffsite := b.offsite.value] else map[]
  }

  /** The operation as it was accepted, before any receipt. */
  function Reconstruct(a: Accepted): (op: Record) {
    var fields :=
      map[DeploymentPlan := a.deploymentPlan, ReleaseBundle := Value(a.candidate)]
      + (if a.previous.Some? then map[PreviousReleaseBundle := Value(a.previous.value)] else map[])
      + (if a.backup.Some? then BackupFields(a.backup.value) else map[]);
    Record(a.intent, a.request, a.attempt, 1, a.project, Deploy, Some(a.commit), Some(CodeOnlyCompatible), QUEUED_STATE,
           Interactive(a.actor),
           Evidence([], Some(a.policy), Some(a.sourceAttestation), Some(a.sourceSequence), Some(a.grant), None, fields,
                    None, []),
           None, a.acceptedAt, a.acceptedAt)
  }

  /** The same with the runtime disk reservation bound in. */
  function Bound(a: Accepted): (op: Record) {
    var op := Reconstruct(a);
    op.(evidence := op.evidence.(fields := op.evidence.fields[ResourceReservation := a.reservation]))
  }

  // ---------------------------------------------------------------- the installed release

  datatype ReleaseState = ReleaseState(generation: nat, current: Option<nat>, lastKnownGood: Option<nat>,
                                       updatedAt: int)

  const MAX_U64: nat := 0xFFFF_FFFF_FFFF_FFFF

  predicate ReleaseShape(state: ReleaseState, a: Accepted) {
    match (state.current, a.previous)
    case (None, None) => state.lastKnownGood.None? && a.backup.None?
    case (Some(c), None) => c == a.candidate && state.lastKnownGood.None? && a.backup.None?
    case (Some(c), Some(p)) => (p == c || a.candidate == c) && p != a.candidate && a.backup.Some?
    case _ => false
  }

  /** Compare-and-set of the installed release against the state read when the drive began. */
  function CommitRelease(installed: ReleaseState, expected: ReleaseState, a: Accepted, at: int)
    : (r: Result<ReleaseState, DriverError>)
    ensures r.Ok? ==>
              installed == expected && r.value.current == Some(a.candidate) && r.value.lastKnownGood == expected.current
                      && r.value.generation == expected.generation + 1
  {
    if || at < expected.updatedAt
       || expected.generation + 1 > MAX_U64
       || (if a.previous.Some? then expected.current.None? || expected.current == Some(a.candidate)
           else expected.current.Some? || expected.lastKnownGood.Some?)
       || installed != expected then Err(ReleaseStateConflict)
    else Ok(ReleaseState(expected.generation + 1, Some(a.candidate), expected.current, at))
  }

  // ---------------------------------------------------------------- one drive, step by step

  datatype Live = Live(op: Record, seen: ReleaseState)

  /** What survives the process (journal, release) and the running drive, if there is one. */
  datatype World = World(journal: Journal, release: ReleaseState, live: Option<Live>)

  datatype Start = Done(op: Record) | Refused(error: DriverError) | Entered(op: Record)

  function StartDrive(a: Accepted, w: World): (r: Start) {
    if !ReleaseShape(w.release, a) then Refused(InstalledBinding)
    else
      match Replay(Reconstruct(a), w.journal)
      case Err(e) => Refused(Unreplayable(e))
      case Ok(projected) =>
        if projected.state.result == Succeeded && w.release.current == Some(a.candidate) then Done(projected)
        else if projected.state.result == RolledBack && w.release.current == a.previous then Done(projected)
        else if w.release.current == Some(a.candidate) then Refused(ReleaseStateWithoutTerminalReceipt)
        else
          match Replay(Bound(a), w.journal)
          case Err(e) => Refused(Unreplayable(e))
          case Ok(op) => Entered(op)
  }

  function HasCommittedTerminal(a: Accepted, w: World): (r: Result<bool, DriverError>) {
    if !ReleaseShape(w.release, a) then Err(InstalledBinding)
    else
      match Replay(Reconstruct(a), w.journal)
      case Err(e) => Err(Unreplayable(e))
      case Ok(op) =>
        var committed := w.release.current == Some(a.candidate);
        var rolledBack := op.state.result == RolledBack && w.release.current == a.previous;
        if committed && op.state.result != Succeeded then Err(ReleaseStateWithoutTerminalReceipt)
        else Ok(committed || rolledBack)
  }

  predicate InRollback(op: Record) {
    op.evidence.recovery == Some(RollbackMode)
  }

  /** The executor only hands out receipts for the phase and branch it was asked to execute. */
  predicate Produces(op: Record, receipt: Receipt) {
    && op.state.result == Running
    && receipt.HasValidDigest()
    && receipt.payload.attempt == op.attempt
    && receipt.payload.phase == op.state.phase
    && receipt.payload.branch == BranchOf(InRollback(op))
  }

  function Journalled(j: Journal, op: Record, receipt: Receipt): Journal {
    if InRollback(op) then j.(recovery := j.recovery[op.state.phase := receipt])
    else j.(primary := j.primary[op.state.phase := receipt])
  }

  /** The first takeover of an attempt is the one that stays. */
  function TakenOver(j: Journal, at: int): Journal {
    if j.takeover.Some? then j else j.(takeover := Some(at))
  }

  /** A failed health check or soak of an upgrade is answered by rolling back. */
  predicate RollsBack(a: Accepted, op: Record) {
    a.previous.Some? && op.evidence.recovery.None? && op.state.phase in {HealthChecking, Soaking}
  }

  datatype Event =
    | Begin
    | PhaseCommitted(receipt: Receipt)
    | PhaseCommittedThenStopped(receipt: Receipt)
    | PhaseFailed(at: int)
    | PhaseFailedThenStopped(at: int)
    | Finish(cleanedUp: bool, at: int)
    | Stopped

  function Continue(w: World, journal: Journal, next: Projection): World
    requires w.live.Some?
  {
    w.(journal := journal, live := if next.Ok? then Some(w.live.value.(op := next.value)) else None)
  }

  /** One atomic step; an event that cannot happen in this world changes nothing. */
  function Step(a: Accepted, w: World, e: Event): World {
    if e.Begin? then
      if w.live.Some? then w
      else match StartDrive(a, w)
           case Entered(op) => w.(live := Some(Live(op, w.release)))
           case _ => w
    else if w.live.None? then w
    else
      var op := w.live.value.op;
      match e
      case PhaseCommitted(receipt) =>
        if !Produces(op, receipt) then w
        else Continue(w, Journalled(w.journal, op, receipt), Project(op, receipt, InRollback(op)))
      case PhaseCommittedThenStopped(receipt) =>
        if Produces(op, receipt) then w.(journal := Journalled(w.journal, op, receipt), live := None) else w
      case PhaseFailed(at) =>
        if op.state.result != Running then w
        else if RollsBack(a, op) then Continue(w, TakenOver(w.journal, at), BeginRollback(op, at))
        else w.(live := None)
      case PhaseFailedThenStopped(at) =>
        if op.state.result == Running && RollsBack(a, op) then w.(journal := TakenOver(w.journal, at), live := None)
        else w
      case Finish(cleanedUp, at) =>
        if op.state.result == Running then w
        else if !cleanedUp || op.state.result == RolledBack then w.(live := None)
        else
          var committed := CommitRelease(w.release, w.live.value.seen, a, at);
          w.(release := if committed.Ok? then committed.value else w.release, live := None)
      case _ => w.(live := None)
  }
}
