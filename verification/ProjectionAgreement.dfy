/**
  The controller and the two drivers project the same receipts with separately written code.
  From the same queued record, a list of journal entries a driver accepts is accepted by the
  controller too, with the same states, log and recovery mode, except that each driver skips
  one artifact slot the controller merges; the exact condition on that slot is given.
*/
module ProjectionAgreement {
  import opened Domain
  import opened AttemptLifecycle
  import AttemptInvariants
  import DeployDriver

  // ---------------------------------------------------------------- the backup driver's projection

  datatype BackupError = ReceiptBinding | BackupArtifactContract | BackupArtifactConflict | BackupTransitionOverflow

  const BACKUP_SLOTS: set<Field> :=
    {ResourceReservation, BackupSetId, BackupId, BaseBackupId, BaseBackupManifest, BaseBackupEvidence,
     BaseBackupOffsite, BaseBackupVerification}

  /** The backup driver has its own table of next states instead of a plan. */
  function BackupNextState(p: Phase): (s: Option<State>) {
    match p
    case Queued => Some(State(Preflight, Running, NoBlock))
    case Preflight => Some(State(BackingUp, Running, NoBlock))
    case BackingUp => Some(State(BackingUp, Succeeded, NoBlock))
    case _ => None
  }

  /** The same slots in the order the driver merges them. */
  const BACKUP_ORDER: seq<Field> :=
    [ResourceReservation, BackupSetId, BackupId, BaseBackupId, BaseBackupManifest, BaseBackupEvidence,
     BaseBackupOffsite, BaseBackupVerification]

  /** The backup driver's own merge; it has no health to merge. */
  function MergeBackupArtifacts(e: Evidence, a: Artifacts, phase: Phase): (r: Option<Evidence>) {
    var specs, fields := MergeSpec(e.specs, phase, Primary, a.specDigest), MergeSlots(e.fields, a.fields, BACKUP_ORDER);
    if specs.None? || fields.None? then None else Some(e.(specs := specs.value, fields := fields.value))
  }

  /** It, too, is the controller's merge restricted to the driver's slots. */
  lemma BackupMergeIsRestricted(e: Evidence, a: Artifacts, phase: Phase)
    ensures MergeBackupArtifacts(e, a, phase)
         == MergeArtifacts(e, DeployDriver.Only(a, BACKUP_SLOTS), phase, Primary, false)
  {
    BackupOrderCovers(e.fields, a);
    hide MergeSpec, MergeSlots, MergeFields;
  }

  lemma BackupOrderCovers(fields: map<Field, Value>, a: Artifacts)
    ensures var only := DeployDriver.Only(a, BACKUP_SLOTS).fields;
            && MergeSlots(fields, a.fields, BACKUP_ORDER) == MergeFields(fields, only - {HealthEvidence})
            && HealthEvidence !in only
  {
    hide MergeSlots, MergeFields;
    SlotBySlotIsAtOnce(fields, a.fields, BACKUP_ORDER);
    BackupOrderListed();
    DeployDriver.RestrictedIsOnly(a, BACKUP_ORDER, BACKUP_SLOTS);
  }

  lemma BackupOrderListed()
    ensures forall f :: f in BACKUP_ORDER <==> f in BACKUP_SLOTS && f != HealthEvidence
  {
    assert BACKUP_ORDER[0] == ResourceReservation && BACKUP_ORDER[1] == BackupSetId && BACKUP_ORDER[2] == BackupId;
    assert BACKUP_ORDER[3] == BaseBackupId && BACKUP_ORDER[4] == BaseBackupManifest;
    assert BACKUP_ORDER[5] == BaseBackupEvidence && BACKUP_ORDER[6] == BaseBackupOffsite;
    assert BACKUP_ORDER[7] == BaseBackupVerification;
  }

  function BackupProject(op: Record, receipt: Receipt): (r: Result<Record, BackupError>) {
    var p := receipt.payload;
    if || !receipt.HasValidDigest()
       || p.attempt != op.attempt
       || p.branch != Primary
       || op.state.result != Running
       || op.state.phase != p.phase then Err(ReceiptBinding)
    else if !ValidForPhase(p.artifacts, p.phase) then Err(BackupArtifactContract)
    else
      match MergeBackupArtifacts(op.evidence, p.artifacts, p.phase)
      case None => Err(BackupArtifactConflict)
      case Some(evidence) =>
        match BackupNextState(p.phase)
        case None => Err(ReceiptBinding)
        case Some(next) =>
          match DeployDriver.Push(op.(evidence := evidence), next, Some(receipt.digest), p.committedAt)
          case Err(_) => Err(BackupTransitionOverflow)
          case Ok(after) => Ok(after)
  }

  // ---------------------------------------------------------------- agreement

  function Slot(fields: map<Field, Value>, x: Field): Option<Value> {
    if x in fields then Some(fields[x]) else None
  }

  ghost predicate FieldsAgree(f: map<Field, Value>, g: map<Field, Value>, skipped: Field) {
    forall x :: x != skipped ==> Slot(f, x) == Slot(g, x)
  }

  ghost predicate LogsAgree(s: seq<Transition>, t: seq<Transition>) {
    && |s| == |t|
    && forall i :: 0 <= i < |s| ==>
         s[i].sequence == t[i].sequence && s[i].from == t[i].from && s[i].to == t[i].to && s[i].receipt == t[i].receipt
  }

  /** A driver's record d and the controller's c tell the same story, timestamps and one slot aside. */
  ghost predicate Agree(d: Record, c: Record, skipped: Field) {
    && d.attempt == c.attempt && d.kind == c.kind && d.release == c.release
    && d.state == c.state
    && d.evidence.recovery == c.evidence.recovery
    && d.evidence.specs == c.evidence.specs
    && FieldsAgree(d.evidence.fields, c.evidence.fields, skipped)
    && LogsAgree(d.evidence.transitions, c.evidence.transitions)
    && c.capsule.None?
  }

  /** The one merge only the controller makes does not conflict. */
  predicate Compatible(have: map<Field, Value>, incoming: map<Field, Value>, skipped: Field) {
    skipped in have && skipped in incoming ==> have[skipped] == incoming[skipped]
  }

  lemma MergeFieldsOkTogether(f: map<Field, Value>, g: map<Field, Value>, some: map<Field, Value>,
                              all: map<Field, Value>, skipped: Field)
    requires FieldsAgree(f, g, skipped) && FieldsAgree(some, all, skipped) && skipped !in some
    ensures MergeFields(g, all).Some? <==> MergeFields(f, some).Some? && Compatible(g, all, skipped)
  {
    hide MergeFields;
    if MergeFields(f, some).None? {
      var x :| x in f && x in some && f[x] != some[x];
      assert Slot(f, x) == Slot(g, x) && Slot(some, x) == Slot(all, x);
    }
    if MergeFields(g, all).None? {
      var x :| x in g && x in all && g[x] != all[x];
      if x != skipped { assert Slot(f, x) == Slot(g, x) && Slot(some, x) == Slot(all, x); }
    }
  }

  lemma MergedSlot(f: map<Field, Value>, some: map<Field, Value>, x: Field)
    requires MergeFields(f, some).Some?
    ensures Slot(MergeFields(f, some).value, x) == if x in some then Slot(some, x) else Slot(f, x)
  {
  }

  lemma MergeFieldsAgree(f: map<Field, Value>, g: map<Field, Value>, some: map<Field, Value>, all: map<Field, Value>,
                         skipped: Field)
    requires FieldsAgree(f, g, skipped) && FieldsAgree(some, all, skipped) && skipped !in some
    ensures MergeFields(g, all).Some? <==> MergeFields(f, some).Some? && Compatible(g, all, skipped)
    ensures MergeFields(g, all).Some? ==>
              && FieldsAgree(MergeFields(f, some).value, MergeFields(g, all).value, skipped)
              && Slot(MergeFields(g, all).value, skipped) ==
                   (if skipped in all then Slot(all, skipped) else Slot(g, skipped))
  {
    hide MergeFields;
    MergeFieldsOkTogether(f, g, some, all, skipped);
    if MergeFields(g, all).Some? {
      MergedSlot(g, all, skipped);
      forall x | x != skipped ensures Slot(MergeFields(f, some).value, x) == Slot(MergeFields(g, all).value, x) {
        MergedSlot(f, some, x);
        MergedSlot(g, all, x);
        assert Slot(f, x) == Slot(g, x) && Slot(some, x) == Slot(all, x);
      }
    }
  }

  /** Merging all slots and merging all but one agree on everything but that one. */
  ghost predicate MergedAlike(d: Evidence, c: Evidence, d': Evidence, c': Evidence, incoming: map<Field, Value>,
                              skipped: Field) {
    && d'.specs == c'.specs && FieldsAgree(d'.fields, c'.fields, skipped)
    && Slot(c'.fields, skipped) == (if skipped in incoming then Slot(incoming, skipped) else Slot(c.fields, skipped))
    && d' == d.(specs := d'.specs, fields := d'.fields)
    && c' == c.(specs := c'.specs, fields := c'.fields)
  }

  lemma HealthAgrees(f: map<Field, Value>, g: map<Field, Value>, some: map<Field, Value>, all: map<Field, Value>,
                     skipped: Field, phase: Phase, rollback: bool)
    requires FieldsAgree(f, g, skipped) && skipped !in {HealthEvidence, RollbackHealthEvidence}
    requires Slot(some, HealthEvidence) == Slot(all, HealthEvidence)
    ensures MergeHealth(f, some, phase, rollback).Some? <==> MergeHealth(g, all, phase, rollback).Some?
    ensures MergeHealth(g, all, phase, rollback).Some? ==>
              && FieldsAgree(MergeHealth(f, some, phase, rollback).value, MergeHealth(g, all, phase, rollback).value,
                             skipped)
              && Slot(MergeHealth(g, all, phase, rollback).value, skipped) == Slot(g, skipped)
  {
    assert HealthEvidence in some <==> HealthEvidence in all;
    if HealthEvidence in all {
      assert some[HealthEvidence] == all[HealthEvidence];
      hide MergeFields, FieldsAgree, Slot;
      var slot, value := if rollback then RollbackHealthEvidence else HealthEvidence, all[HealthEvidence];
      if phase == Soaking {
        UpdateAgrees(f, g, slot, value, skipped);
      } else {
        SingleAgrees(f, g, slot, value, skipped);
      }
    }
  }

  lemma SingleAgrees(f: map<Field, Value>, g: map<Field, Value>, slot: Field, value: Value, skipped: Field)
    requires FieldsAgree(f, g, skipped) && slot != skipped
    ensures MergeFields(g, map[slot := value]).Some? <==> MergeFields(f, map[slot := value]).Some?
    ensures MergeFields(g, map[slot := value]).Some? ==>
              && FieldsAgree(MergeFields(f, map[slot := value]).value, MergeFields(g, map[slot := value]).value,
                             skipped)
              && Slot(MergeFields(g, map[slot := value]).value, skipped) == Slot(g, skipped)
  {
    hide MergeFields, FieldsAgree, Slot;
    var one := map[slot := value];
    FieldsAgreeWithSelf(one, skipped);
    MergeFieldsAgree(f, g, one, one, skipped);
  }

  lemma MergeAgrees(d: Evidence, c: Evidence, a: Artifacts, slots: set<Field>, skipped: Field, phase: Phase,
                    branch: Branch, rollback: bool)
    requires d.specs == c.specs && FieldsAgree(d.fields, c.fields, skipped)
    requires a.fields.Keys <= slots + {skipped} && skipped !in slots
             && skipped !in {HealthEvidence, RollbackHealthEvidence}
    ensures MergeArtifacts(c, a, phase, branch, rollback).Some?
       <==> && MergeArtifacts(d, DeployDriver.Only(a, slots), phase, branch, rollback).Some?
            && Compatible(c.fields, a.fields, skipped)
    ensures MergeArtifacts(c, a, phase, branch, rollback).Some? ==>
              MergedAlike(d, c, MergeArtifacts(d, DeployDriver.Only(a, slots), phase, branch, rollback).value,
                          MergeArtifacts(c, a, phase, branch, rollback).value, a.fields, skipped)
  {
    hide MergeArtifacts, MergeSpec, MergeFields, MergeHealth, DeployDriver.Only, FieldsAgree, Slot, Compatible;
    var b := DeployDriver.Only(a, slots);
    var some, all := b.fields - {HealthEvidence}, a.fields - {HealthEvidence};
    MergeInParts(d, b, some, phase, branch, rollback);
    MergeInParts(c, a, all, phase, branch, rollback);
    OnlyAgrees(c.fields, a, slots, skipped);
    MergeFieldsAgree(d.fields, c.fields, some, all, skipped);
    if MergeFields(c.fields, all).Some? {
      HealthAgrees(MergeFields(d.fields, some).value, MergeFields(c.fields, all).value, b.fields, a.fields, skipped,
                   phase, rollback);
    }
  }

  lemma MergeInParts(e: Evidence, a: Artifacts, plain: map<Field, Value>, phase: Phase, branch: Branch, rollback: bool)
    requires plain == a.fields - {HealthEvidence}
    ensures var specs, fields := MergeSpec(e.specs, phase, branch, a.specDigest), MergeFields(e.fields, plain);
            var merged := MergeArtifacts(e, a, phase, branch, rollback);
            && (merged.Some? <==>
                  specs.Some? && fields.Some? && MergeHealth(fields.value, a.fields, phase, rollback).Some?)
            && (merged.Some? ==>
                  merged.value == e.(specs := specs.value,
                                     fields := MergeHealth(fields.value, a.fields, phase, rollback).value))
  {
    hide MergeSpec, MergeFields, MergeHealth;
  }

  lemma OnlyAgrees(have: map<Field, Value>, a: Artifacts, slots: set<Field>, skipped: Field)
    requires a.fields.Keys <= slots + {skipped} && skipped !in slots && skipped != HealthEvidence
    ensures var b := DeployDriver.Only(a, slots);
            && b.specDigest == a.specDigest
            && skipped !in b.fields
            && FieldsAgree(b.fields - {HealthEvidence}, a.fields - {HealthEvidence}, skipped)
            && Slot(b.fields, HealthEvidence) == Slot(a.fields, HealthEvidence)
            && Slot(a.fields - {HealthEvidence}, skipped) == Slot(a.fields, skipped)
            && (skipped in a.fields - {HealthEvidence} <==> skipped in a.fields)
            && (Compatible(have, a.fields - {HealthEvidence}, skipped) <==> Compatible(have, a.fields, skipped))
  {
    hide FieldsAgree;
    OnlyFieldsAgree(a, slots, skipped);
  }

  lemma OnlyFieldsAgree(a: Artifacts, slots: set<Field>, skipped: Field)
    requires a.fields.Keys <= slots + {skipped} && skipped !in slots && skipped != HealthEvidence
    ensures FieldsAgree(DeployDriver.Only(a, slots).fields - {HealthEvidence}, a.fields - {HealthEvidence}, skipped)
  {
  }

  lemma FieldsAgreeWithSelf(f: map<Field, Value>, skipped: Field)
    ensures FieldsAgree(f, f, skipped)
  {
  }

  lemma UpdatedSlot(f: map<Field, Value>, slot: Field, value: Value, x: Field)
    ensures Slot(f[slot := value], x) == if x == slot then Some(value) else Slot(f, x)
  {
  }

  lemma UpdateAgrees(f: map<Field, Value>, g: map<Field, Value>, slot: Field, value: Value, skipped: Field)
    requires FieldsAgree(f, g, skipped) && slot != skipped
    ensures FieldsAgree(f[slot := value], g[slot := value], skipped)
    ensures Slot(g[slot := value], skipped) == Slot(g, skipped)
  {
    var f', g' := f[slot := value], g[slot := value];
    forall x | x != skipped ensures Slot(f', x) == Slot(g', x) {
      UpdatedSlot(f, slot, value, x);
      UpdatedSlot(g, slot, value, x);
      assert Slot(f, x) == Slot(g, x);
    }
  }

  // ---------------------------------------------------------------- one receipt, deploy driver

  lemma DeploySlotsCover(phase: Phase)
    requires phase in CODE_ONLY_PHASES || phase == Rollback
    ensures OwnedFields(phase) <= DeployDriver.DEPLOY_SLOTS + {PreviousReleaseBundle}
  {
    match phase
    case _ =>
  }

  lemma ConsecutivePermitted(plan: seq<Phase>, k: nat)
    requires k + 1 < |plan| && Rollback !in plan
    ensures PermitsTransition(plan, plan[k], plan[k + 1])
  {
    assert plan[k + 1] in plan;
  }

  /** The controller's next state is the driver's. */
  lemma DeployNextAgrees(c: Record, p: ReceiptPayload, rollback: bool)
    requires c.kind == Deploy && c.release == Some(CodeOnlyCompatible) && p.branch == DeployDriver.BranchOf(rollback)
    ensures var plan := DeployDriver.PlanOf(c, rollback).value;
            && (Position(plan, p.phase).None? ==> NextState(c, p, rollback).Err?)
            && (Position(plan, p.phase).Some? ==>
                  NextState(c, p, rollback) ==
                    Ok(DeployDriver.StateAt(plan, Position(plan, p.phase).value + 1, rollback)))
  {
    hide Position, NextState, RequiredPhases, DeployDriver.StateAt;
    CodeOnlyPlan(c);
    if rollback { RecoveryNext(c, p); } else { PrimaryNext(c, p); }
  }

  lemma PrimaryNext(c: Record, p: ReceiptPayload)
    requires c.kind == Deploy && RequiredPhases(c.kind, c.release) == Some(CODE_ONLY_PHASES) && p.branch == Primary
    ensures var index := Position(CODE_ONLY_PHASES, p.phase);
            && (index.None? ==> NextState(c, p, false).Err?)
            && (index.Some? ==>
                  NextState(c, p, false) == Ok(DeployDriver.StateAt(CODE_ONLY_PHASES, index.value + 1, false)))
  {
    hide Position, PermitsTransition, RequiredPhases;
    var index := Position(CODE_ONLY_PHASES, p.phase);
    if index.Some? && index.value + 1 < |CODE_ONLY_PHASES| { ConsecutivePermitted(CODE_ONLY_PHASES, index.value); }
  }

  lemma RecoveryNext(c: Record, p: ReceiptPayload)
    requires p.branch == RollbackRecovery
    ensures var index := Position(RECOVERY_PHASES, p.phase);
            && (index.None? ==> NextState(c, p, true).Err?)
            && (index.Some? ==>
                  NextState(c, p, true) == Ok(DeployDriver.StateAt(RECOVERY_PHASES, index.value + 1, true)))
  {
    hide Position, PermitsTransition, RequiredPhases;
  }

  lemma CodeOnlyPlan(c: Record)
    requires c.kind == Deploy && c.release == Some(CodeOnlyCompatible)
    ensures RequiredPhases(c.kind, c.release) == Some(CODE_ONLY_PHASES)
  {
    hide WellFormedPlan;
  }

  lemma PushAgrees(d: Record, c: Record, next: State, receipt: Option<ReceiptDigest>, dAt: int, cAt: int,
                   skipped: Field)
    requires Agree(d, c, skipped) && next.Valid()
    ensures DeployDriver.Push(d, next, receipt, dAt).Ok? <==> Persist(c, next, receipt, cAt).Ok?
    ensures Persist(c, next, receipt, cAt).Ok? ==>
              && Agree(DeployDriver.Push(d, next, receipt, dAt).value, Persist(c, next, receipt, cAt).value, skipped)
              && Persist(c, next, receipt, cAt).value.evidence.fields == c.evidence.fields
  {
    hide FieldsAgree;
  }

  lemma StateAtValid(plan: seq<Phase>, k: nat, rollback: bool)
    requires plan != [] && plan[|plan| - 1] == Soaking
    ensures DeployDriver.StateAt(plan, k, rollback).Valid()
  {
  }

  /**
    On a receipt new to the log, the controller accepts exactly what the deploy driver accepts,
    unless the receipt names a different previous release than the controller already merged.
  */
  lemma DeployReceiptAgrees(d: Record, c: Record, receipt: Receipt, at: int)
    requires Agree(d, c, PreviousReleaseBundle) && d.kind == Deploy && d.release == Some(CodeOnlyCompatible)
    requires receipt.payload.attempt == d.attempt && !HasReceipt(c, receipt.digest)
    ensures AfterCommitReceipt(c, receipt, at).Ok?
       <==> && DeployDriver.Project(d, receipt, DeployDriver.InRollback(d)).Ok?
            && Compatible(c.evidence.fields, receipt.payload.artifacts.fields, PreviousReleaseBundle)
    ensures AfterCommitReceipt(c, receipt, at).Ok? ==>
              && Agree(DeployDriver.Project(d, receipt, DeployDriver.InRollback(d)).value,
                       AfterCommitReceipt(c, receipt, at).value,
                       PreviousReleaseBundle)
              && SlotMerged(c.evidence.fields, receipt.payload.artifacts.fields,
                            AfterCommitReceipt(c, receipt, at).value.evidence.fields,
                            PreviousReleaseBundle)
  {
    hide DeployDriver.MergeDeployArtifacts, Position, RequiredPhases, MergeArtifacts, NextState, Persist,
      DeployDriver.Push, ValidForPhase, FieldsAgree, LogsAgree, DeployDriver.Only, DeployDriver.StateAt, HasReceipt,
      Compatible;
    var p, rollback := receipt.payload, DeployDriver.InRollback(d);
    DeployDriver.DeployMergeIsRestricted(d.evidence, p.artifacts, p.phase, rollback);
    if p.branch == DeployDriver.BranchOf(rollback) {
      DeployNextAgrees(c, p, rollback);
      PlanFacts(c, rollback);
      var plan := DeployDriver.PlanOf(c, rollback).value;
      if ValidForPhase(p.artifacts, p.phase) && Position(plan, p.phase).Some? {
        OwnedOnly(p.artifacts, p.phase);
        MergeAgrees(d.evidence, c.evidence, p.artifacts, DeployDriver.DEPLOY_SLOTS, PreviousReleaseBundle, p.phase,
                    p.branch, rollback);
        if MergeArtifacts(c.evidence, p.artifacts, p.phase, p.branch, rollback).Some? {
          var k := Position(plan, p.phase).value;
          StateAtValid(plan, k + 1, rollback);
          var d' := d.(evidence :=
                       MergeArtifacts(d.evidence, DeployDriver.Only(p.artifacts, DeployDriver.DEPLOY_SLOTS), p.phase,
                                      p.branch, rollback).value);
          var c' := c.(evidence := MergeArtifacts(c.evidence, p.artifacts, p.phase, p.branch, rollback).value);
          PushAgrees(d', c', DeployDriver.StateAt(plan, k + 1, rollback), Some(receipt.digest), p.committedAt, at,
                     PreviousReleaseBundle);
        }
      }
    } else {
      BranchMismatch(c, p, rollback);
    }
  }

  ghost predicate SlotMerged(have: map<Field, Value>, incoming: map<Field, Value>, after: map<Field, Value>, x: Field) {
    Slot(after, x) == if x in incoming then Slot(incoming, x) else Slot(have, x)
  }

  lemma BranchMismatch(c: Record, p: ReceiptPayload, rollback: bool)
    requires p.branch != DeployDriver.BranchOf(rollback)
    ensures NextState(c, p, rollback).Err?
  {
  }

  lemma PlanFacts(c: Record, rollback: bool)
    requires c.kind == Deploy && c.release == Some(CodeOnlyCompatible)
    ensures DeployDriver.PlanOf(c, rollback) == Some(if rollback then RECOVERY_PHASES else CODE_ONLY_PHASES)
    ensures CODE_ONLY_PHASES[8] == RECOVERY_PHASES[2] == Soaking
  {
  }

  lemma OwnedOnly(a: Artifacts, phase: Phase)
    requires ValidForPhase(a, phase) && (phase in CODE_ONLY_PHASES || phase in RECOVERY_PHASES)
    ensures a.fields.Keys <= DeployDriver.DEPLOY_SLOTS + {PreviousReleaseBundle}
  {
    DeploySlotsCover(phase);
  }

  // ---------------------------------------------------------------- the takeover

  /** In any record the controller can hold, a deployment at health check or soak has committed its deployment. */
  lemma DeployedBeforeHealth(c: Record)
    requires Inv(c) && c.kind == Deploy && c.release == Some(CodeOnlyCompatible)
    requires c.state.result == Running && c.state.phase in {HealthChecking, Soaking} && c.evidence.recovery.None?
    ensures HasCommittedPhase(c, Deploying)
  {
    var ts := c.evidence.transitions;
    assert LookBackFindsPhase(ts) && ChainedLog(c) && PrimaryOrder(c) && RecoveryOrder(c);
    AttemptInvariants.PhaseTestIsExact(c, Deploying);
    hide Inv, HasCommittedPhase, LookBackFindsPhase, MutationSafe;
    if LastRollbackEntry(ts).None? {
      AtHealthOrSoak(c);
    } else {
      var i := LastRollbackEntry(ts).value;
      var digest :| digest in Committed(ts[..i]) && digest.payload.phase == Deploying;
      AttemptInvariants.CommittedMembers(ts[..i], digest);
      AttemptInvariants.CommittedMembers(ts, digest);
      var x :| 0 <= x < |ts[..i]| && ts[..i][x].receipt == Some(digest);
      assert ts[x].receipt == Some(digest);
    }
  }

  lemma AtHealthOrSoak(c: Record)
    requires ChainedLog(c) && PrimaryOrder(c) && LastRollbackEntry(c.evidence.transitions).None?
    requires c.kind == Deploy && c.release == Some(CodeOnlyCompatible)
    requires c.state.result == Running && c.state.phase in {HealthChecking, Soaking}
    ensures exists digest :: digest in Committed(c.evidence.transitions) && digest.payload.phase == Deploying
  {
    var ts := c.evidence.transitions;
    assert ts != [] && Cursor(ts) == c.state.phase;
    hide ChainedLog, Cursor, Committed, LastRollbackEntry, Position;
    HealthIsAfterDeploying(c.state.phase);
    assert Committed(ts)[6] in Committed(ts) && Committed(ts)[6].payload.phase == Deploying;
  }

  lemma HealthIsAfterDeploying(p: Phase)
    requires p in {HealthChecking, Soaking}
    ensures CODE_ONLY_PHASES[6] == Deploying
    ensures Position(CODE_ONLY_PHASES, p).Some? && 6 < Position(CODE_ONLY_PHASES, p).value
  {
    assert CODE_ONLY_PHASES[7] == HealthChecking && CODE_ONLY_PHASES[8] == Soaking;
    PlansAreWellFormed();
    PositionInDistinct(CODE_ONLY_PHASES, 7);
    PositionInDistinct(CODE_ONLY_PHASES, 8);
  }

  /** Whenever the driver may begin its rollback, so may the controller. */
  lemma RollbackGuardAgrees(d: Record, c: Record, dAt: int, cAt: int)
    requires Inv(c) && Agree(d, c, PreviousReleaseBundle) && d.kind == Deploy && d.release == Some(CodeOnlyCompatible)
    requires d.evidence.recovery.None? && DeployDriver.BeginRollback(d, dAt).Ok?
    ensures RequireRollback(c) == Ok(false)
    ensures AfterBeginRollback(c, cAt).Ok?
    ensures Agree(DeployDriver.BeginRollback(d, dAt).value, AfterBeginRollback(c, cAt).value, PreviousReleaseBundle)
    ensures AfterBeginRollback(c, cAt).value.evidence.fields == c.evidence.fields
  {
    hide Inv, FieldsAgree, Persist, DeployDriver.Push, HasCommittedPhase, LogsAgree;
    DeployedBeforeHealth(c);
    PushAgrees(d.(evidence := d.evidence.(recovery := Some(RollbackMode))),
               c.(evidence := c.evidence.(recovery := Some(RollbackMode))),
               State(Rollback, Running, NoBlock), None, dAt, cAt, PreviousReleaseBundle);
  }

  // ---------------------------------------------------------------- whole deploy runs

  /** A journal entry, with the time at which the controller records it. */
  datatype Entry = Received(receipt: Receipt, recordedAt: int) | TookOver(at: int, recordedAt: int)

  /** What the deploy driver makes of a list of entries. */
  ghost function DriverRun(base: Record, entries: seq<Entry>): DeployDriver.Projection {
    if entries == [] then Ok(base)
    else
      var before := DriverRun(base, entries[..|entries| - 1]);
      if before.Err? then before else DriverStep(before.value, entries[|entries| - 1])
  }

  ghost function DriverStep(d: Record, e: Entry): DeployDriver.Projection {
    match e
    case Received(receipt, _) => DeployDriver.Project(d, receipt, DeployDriver.InRollback(d))
    case TookOver(at, _) => if d.evidence.recovery.None? then DeployDriver.BeginRollback(d, at) else Ok(d)
  }

  /** What the controller makes of them; a takeover already begun is not begun again. */
  ghost function ControllerRun(base: Record, entries: seq<Entry>): Outcome {
    if entries == [] then Ok(base)
    else
      var before := ControllerRun(base, entries[..|entries| - 1]);
      if before.Err? then before else ControllerStep(before.value, entries[|entries| - 1])
  }

  ghost function ControllerStep(c: Record, e: Entry): Outcome {
    match e
    case Received(receipt, at) => AfterCommitReceipt(c, receipt, at)
    case TookOver(_, at) => if c.evidence.recovery.None? then AfterBeginRollback(c, at) else Ok(c)
  }

  /** How far along a deployment a receipt is: the primary plan, then the recovery plan. */
  ghost function Rank(branch: Branch, phase: Phase): nat {
    match (branch, phase)
    case (Primary, Queued) => 0
    case (Primary, SyncingSource) => 1
    case (Primary, VerifyingSource) => 2
    case (Primary, Testing) => 3
    case (Primary, Building) => 4
    case (Primary, Preflight) => 5
    case (Primary, Deploying) => 6
    case (Primary, HealthChecking) => 7
    case (Primary, Soaking) => 8
    case (RollbackRecovery, Rollback) => 9
    case (RollbackRecovery, HealthChecking) => 10
    case (RollbackRecovery, Soaking) => 11
    case _ => 12
  }

  ghost predicate BehindRank(ts: seq<Transition>, rank: nat) {
    forall i :: 0 <= i < |ts| && ts[i].receipt.Some? ==>
                  Rank(ts[i].receipt.value.payload.branch, ts[i].receipt.value.payload.phase) < rank
  }

  /** Every logged receipt is for an earlier phase than the one a running driver stands at. */
  ghost predicate Ahead(d: Record) {
    d.state.result == Running ==>
      BehindRank(d.evidence.transitions, Rank(DeployDriver.BranchOf(DeployDriver.InRollback(d)), d.state.phase))
  }

  lemma RankNext(rollback: bool, k: nat)
    requires k < |DeployPlan(rollback)|
    ensures k + 1 < |DeployPlan(rollback)| ==>
              Rank(DeployDriver.BranchOf(rollback), DeployPlan(rollback)[k])
              < Rank(DeployDriver.BranchOf(rollback), DeployPlan(rollback)[k + 1])
    ensures Rank(Primary, HealthChecking) < Rank(RollbackRecovery, Rollback)
    ensures Rank(Primary, Soaking) < Rank(RollbackRecovery, Rollback)
  {
  }

  ghost function DeployPlan(rollback: bool): seq<Phase> {
    if rollback then RECOVERY_PHASES else CODE_ONLY_PHASES
  }

  lemma PushKeepsRank(ts: seq<Transition>, t: Transition, low: nat, high: nat)
    requires BehindRank(ts, low) && low <= high
    requires t.receipt.Some? ==> Rank(t.receipt.value.payload.branch, t.receipt.value.payload.phase) < high
    ensures BehindRank(ts + [t], high)
  {
    hide Rank;
  }

  lemma DriverStepKeepsAhead(d: Record, e: Entry)
    requires Ahead(d) && d.kind == Deploy && d.release == Some(CodeOnlyCompatible) && DriverStep(d, e).Ok?
    ensures Ahead(DriverStep(d, e).value)
    ensures var d' := DriverStep(d, e).value; d'.kind == d.kind && d'.release == d.release && d'.attempt == d.attempt
  {
    hide ValidForPhase, MergeArtifacts, DeployDriver.MergeDeployArtifacts, DeployDriver.Only, Rank, BehindRank,
      RequiredPhases, Position, DeployPlan;
    var d', rollback, ts := DriverStep(d, e).value, DeployDriver.InRollback(d), d.evidence.transitions;
    if d'.evidence.transitions != ts || d' != d {
      PlanFacts(d, rollback);
      DeployPlanIs(rollback);
      match e
      case Received(receipt, _) =>
        var p := receipt.payload;
        DeployDriver.DeployMergeIsRestricted(d.evidence, p.artifacts, p.phase, rollback);
        MergeKeepsLog(d.evidence, DeployDriver.Only(p.artifacts, DeployDriver.DEPLOY_SLOTS), p.phase,
                      DeployDriver.BranchOf(rollback), rollback);
        var k := Position(DeployPlan(rollback), p.phase).value;
        RankNext(rollback, k);
        if d'.state.result == Running {
          PushKeepsRank(ts, d'.evidence.transitions[|ts|], Rank(p.branch, p.phase), Rank(p.branch, d'.state.phase));
        }
      case TookOver(at, _) =>
        RankNext(false, 0);
        PushKeepsRank(ts, d'.evidence.transitions[|ts|], Rank(DeployDriver.BranchOf(rollback), d.state.phase),
                      Rank(RollbackRecovery, Rollback));
    }
  }

  lemma DeployPlanIs(rollback: bool)
    ensures DeployPlan(rollback) == if rollback then RECOVERY_PHASES else CODE_ONLY_PHASES
  {
  }

  lemma MergeKeepsLog(e: Evidence, a: Artifacts, phase: Phase, branch: Branch, rollback: bool)
    requires MergeArtifacts(e, a, phase, branch, rollback).Some?
    ensures var m := MergeArtifacts(e, a, phase, branch, rollback).value; m == e.(specs := m.specs, fields := m.fields)
  {
    hide MergeSpec, MergeFields, MergeHealth;
  }

  /** A receipt the driver would accept is new to both logs. */
  lemma AcceptedIsNew(d: Record, c: Record, receipt: Receipt)
    requires Ahead(d) && LogsAgree(d.evidence.transitions, c.evidence.transitions)
    requires DeployDriver.Project(d, receipt, DeployDriver.InRollback(d)).Ok?
    ensures !HasReceipt(c, receipt.digest)
  {
    hide ValidForPhase, DeployDriver.MergeDeployArtifacts, DeployDriver.Push, Position, Rank;
    forall i | 0 <= i < |c.evidence.transitions| ensures c.evidence.transitions[i].receipt != Some(receipt.digest) {
      assert d.evidence.transitions[i].receipt == c.evidence.transitions[i].receipt;
    }
  }

  /** Every previous release named so far: by the record the run starts from, or by one of its receipts. */
  ghost predicate Names(base: Record, entries: seq<Entry>, v: Value) {
    || Slot(base.evidence.fields, PreviousReleaseBundle) == Some(v)
    || exists i :: 0 <= i < |entries| && entries[i].Received?
                   && Slot(entries[i].receipt.payload.artifacts.fields, PreviousReleaseBundle) == Some(v)
  }

  ghost predicate OnePreviousRelease(base: Record, entries: seq<Entry>) {
    forall v, w :: Names(base, entries, v) && Names(base, entries, w) ==> v == w
  }

  ghost function Named(e: Entry): Option<Value> {
    if e.Received? then Slot(e.receipt.payload.artifacts.fields, PreviousReleaseBundle) else None
  }

  lemma NamesOneMore(base: Record, entries: seq<Entry>, v: Value)
    requires entries != []
    ensures Names(base, entries, v) <==>
              Names(base, entries[..|entries| - 1], v) || Named(entries[|entries| - 1]) == Some(v)
  {
    var rest := entries[..|entries| - 1];
    if Names(base, rest, v) && Slot(base.evidence.fields, PreviousReleaseBundle) != Some(v) {
      var i :| 0 <= i < |rest| && rest[i].Received?
               && Slot(rest[i].receipt.payload.artifacts.fields, PreviousReleaseBundle) == Some(v);
      assert entries[i] == rest[i];
    }
    if Names(base, entries, v) && Slot(base.evidence.fields, PreviousReleaseBundle) != Some(v) {
      var i :| 0 <= i < |entries| && entries[i].Received?
               && Slot(entries[i].receipt.payload.artifacts.fields, PreviousReleaseBundle) == Some(v);
      if i < |rest| { assert rest[i] == entries[i]; }
    }
  }

  /** The controller's record agrees with the driver's and holds the one previous release named so far. */
  ghost predicate RunAgrees(base: Record, entries: seq<Entry>, d: Record, c: Record) {
    && Agree(d, c, PreviousReleaseBundle)
    && forall v :: Names(base, entries, v) <==> Slot(c.evidence.fields, PreviousReleaseBundle) == Some(v)
  }

  /**
    Every list of entries the deploy driver accepts is accepted by the controller exactly when
    the record and the receipts name at most one previous release, and then with the same states,
    log and recovery mode.
  */
  lemma {:induction false} DeployProjectionsAgree(base: Record, entries: seq<Entry>)
    requires Admitted(base) && base.kind == Deploy && base.release == Some(CodeOnlyCompatible)
    requires DriverRun(base, entries).Ok?
    ensures ControllerRun(base, entries).Ok? <==> OnePreviousRelease(base, entries)
    ensures ControllerRun(base, entries).Ok? ==>
              && RunAgrees(base, entries, DriverRun(base, entries).value, ControllerRun(base, entries).value)
              && Inv(ControllerRun(base, entries).value)
    ensures var d := DriverRun(base, entries).value;
            Ahead(d) && d.kind == Deploy && d.release == base.release && d.attempt == base.attempt
  {
    hide Inv, Admitted, Ahead, RunAgrees, DriverStep, ControllerStep, OnePreviousRelease;
    if entries == [] {
      BaseAgrees(base);
    } else {
      var rest, last := entries[..|entries| - 1], entries[|entries| - 1];
      DeployProjectionsAgree(base, rest);
      var d := DriverRun(base, rest).value;
      DriverStepKeepsAhead(d, last);
      assert rest + [last] == entries;
      OneStaysOne(base, rest, last);
      if ControllerRun(base, rest).Ok? { StepAgrees(base, rest, last, d, ControllerRun(base, rest).value); }
    }
  }

  lemma OneStaysOne(base: Record, rest: seq<Entry>, e: Entry)
    ensures OnePreviousRelease(base, rest + [e]) ==> OnePreviousRelease(base, rest)
  {
    hide Names;
    assert (rest + [e])[..|rest|] == rest;
    forall v ensures Names(base, rest, v) ==> Names(base, rest + [e], v) { NamesOneMore(base, rest + [e], v); }
  }

  /** Naming at most one previous release is what the controller's merge checks. */
  lemma CompatibleIsOne(base: Record, rest: seq<Entry>, e: Entry, have: map<Field, Value>)
    requires forall v :: Names(base, rest, v) <==> Slot(have, PreviousReleaseBundle) == Some(v)
    ensures var incoming := if e.Received? then e.receipt.payload.artifacts.fields else map[];
            Compatible(have, incoming, PreviousReleaseBundle) <==> OnePreviousRelease(base, rest + [e])
  {
    hide Names;
    var incoming := if e.Received? then e.receipt.payload.artifacts.fields else map[];
    assert (rest + [e])[..|rest|] == rest && (rest + [e])[|rest|] == e;
    forall v ensures Names(base, rest + [e], v) <==>
                       || Slot(have, PreviousReleaseBundle) == Some(v)
                       || Slot(incoming, PreviousReleaseBundle) == Some(v) {
      NamesOneMore(base, rest + [e], v);
    }
    if !Compatible(have, incoming, PreviousReleaseBundle) {
      assert Names(base, rest + [e], have[PreviousReleaseBundle])
             && Names(base, rest + [e], incoming[PreviousReleaseBundle]);
    }
  }

  lemma BaseAgrees(base: Record)
    requires Admitted(base) && base.kind == Deploy
    ensures RunAgrees(base, [], base, base) && Inv(base) && Ahead(base) && OnePreviousRelease(base, [])
  {
    AttemptInvariants.AdmittedInv(base);
  }

  lemma StepAgrees(base: Record, rest: seq<Entry>, e: Entry, d: Record, c: Record)
    requires Inv(c) && Ahead(d) && d.kind == Deploy && d.release == Some(CodeOnlyCompatible)
    requires RunAgrees(base, rest, d, c) && DriverStep(d, e).Ok?
    ensures ControllerStep(c, e).Ok? <==> OnePreviousRelease(base, rest + [e])
    ensures ControllerStep(c, e).Ok? ==> RunAgrees(base, rest + [e], DriverStep(d, e).value, ControllerStep(c, e).value)
                                         && Inv(ControllerStep(c, e).value)
  {
    hide Inv, Ahead, Names, Agree, AfterCommitReceipt, DeployDriver.Project, DeployDriver.BeginRollback,
      AfterBeginRollback, HasReceipt, OnePreviousRelease;
    assert (rest + [e])[..|rest|] == rest && (rest + [e])[|rest|] == e;
    forall v
      ensures Names(base, rest + [e], v) <==> Names(base, rest, v) || Named(e) == Some(v)
    {
      NamesOneMore(base, rest + [e], v);
    }
    CompatibleIsOne(base, rest, e, c.evidence.fields);
    AgreeParts(d, c);
    match e
    case Received(receipt, at) =>
      AcceptedIsNew(d, c, receipt);
      ProjectedIsMine(d, receipt);
      DeployReceiptAgrees(d, c, receipt, at);
      if AfterCommitReceipt(c, receipt, at).Ok? { AttemptInvariants.CallKeepsInv(c, CommitReceipt(receipt), at); }
    case TookOver(dAt, cAt) =>
      if d.evidence.recovery.None? {
        RollbackGuardAgrees(d, c, dAt, cAt);
        AttemptInvariants.CallKeepsInv(c, Call.BeginRollback, cAt);
      }
  }

  lemma AgreeParts(d: Record, c: Record)
    requires Agree(d, c, PreviousReleaseBundle)
    ensures d.evidence.recovery == c.evidence.recovery && LogsAgree(d.evidence.transitions, c.evidence.transitions)
  {
  }

  lemma ProjectedIsMine(d: Record, receipt: Receipt)
    requires DeployDriver.Project(d, receipt, DeployDriver.InRollback(d)).Ok?
    ensures receipt.payload.attempt == d.attempt
  {
  }

  // ---------------------------------------------------------------- two previous releases

  /** What the record already holds in a slot, or an arbitrary value. */
  ghost function Known(base: Record, f: Field): Value {
    if f in base.evidence.fields then base.evidence.fields[f] else Value(0)
  }

  /** The receipt of a phase with the evidence it requires; the deploying phase names the given previous release. */
  ghost function NamingReceipt(base: Record, previous: Value, p: Phase): Receipt {
    var required := map f | f in RequiredFields(p) :: Known(base, f);
    var fields := if p == Deploying then required[PreviousReleaseBundle := previous] else required;
    var payload := ReceiptPayload(base.attempt, p, Primary, 0, 0, Artifacts(None, fields), 0);
    Receipt(payload, Sha256(payload))
  }

  /** One receipt for each of the first k phases of the code-only plan. */
  ghost function NamingEntries(base: Record, previous: Value, k: nat): (entries: seq<Entry>)
    requires k <= |CODE_ONLY_PHASES|
    ensures |entries| == k
    ensures forall i :: 0 <= i < k ==> entries[i] == Received(NamingReceipt(base, previous, CODE_ONLY_PHASES[i]), 0)
  {
    if k == 0 then []
    else NamingEntries(base, previous, k - 1) + [Received(NamingReceipt(base, previous, CODE_ONLY_PHASES[k - 1]), 0)]
  }

  /** The previous release aside, every slot holds what the record held or the arbitrary value. */
  ghost predicate KnownElsewhere(base: Record, fields: map<Field, Value>) {
    forall f :: f in fields && f != PreviousReleaseBundle ==> fields[f] == Known(base, f)
  }

  ghost predicate AdmittedDeploy(base: Record) {
    Admitted(base) && base.kind == Deploy && base.release == Some(CodeOnlyCompatible)
  }

  /** The driver's record after k of those receipts. */
  ghost predicate DrivenSoFar(base: Record, d: Record, k: nat) {
    && k <= |CODE_ONLY_PHASES|
    && d.attempt == base.attempt && d.kind == Deploy && d.release == Some(CodeOnlyCompatible)
    && d.state == DeployDriver.StateAt(CODE_ONLY_PHASES, k, false)
    && d.evidence.recovery.None? && d.evidence.specs == [] && |d.evidence.transitions| == k
    && KnownElsewhere(base, d.evidence.fields)
  }

  lemma NamingReceiptFits(base: Record, previous: Value, p: Phase)
    ensures ValidForPhase(NamingReceipt(base, previous, p).payload.artifacts, p)
    ensures var only := DeployDriver.Only(NamingReceipt(base, previous, p).payload.artifacts,
                                          DeployDriver.DEPLOY_SLOTS);
            && only.specDigest.None?
            && PreviousReleaseBundle !in only.fields
            && KnownElsewhere(base, only.fields)
  {
    var required := map f | f in RequiredFields(p) :: Known(base, f);
    assert required.Keys == RequiredFields(p);
    assert NamingReceipt(base, previous, p).payload.artifacts.fields.Keys ==
           RequiredFields(p) + (if p == Deploying then {PreviousReleaseBundle} else {});
  }

  lemma KnownFields(base: Record, target: map<Field, Value>, incoming: map<Field, Value>)
    requires KnownElsewhere(base, target) && KnownElsewhere(base, incoming) && PreviousReleaseBundle !in incoming
    ensures MergeFields(target, incoming).Some? && KnownElsewhere(base, MergeFields(target, incoming).value)
  {
    hide Known;
  }

  lemma KnownMerge(base: Record, e: Evidence, a: Artifacts, p: Phase)
    requires KnownElsewhere(base, e.fields) && e.specs == []
    requires a.specDigest.None? && PreviousReleaseBundle !in a.fields && KnownElsewhere(base, a.fields)
    ensures var m := MergeArtifacts(e, a, p, Primary, false);
            m.Some? && m.value == e.(fields := m.value.fields) && KnownElsewhere(base, m.value.fields)
  {
    hide MergeFields, Known;
    var others := a.fields - {HealthEvidence};
    KnownFields(base, e.fields, others);
    if HealthEvidence in a.fields {
      KnownFields(base, MergeFields(e.fields, others).value, map[HealthEvidence := a.fields[HealthEvidence]]);
    }
  }

  lemma DriverTakesNaming(base: Record, previous: Value, d: Record, k: nat)
    requires DrivenSoFar(base, d, k) && k < |CODE_ONLY_PHASES|
    ensures var r := DriverStep(d, Received(NamingReceipt(base, previous, CODE_ONLY_PHASES[k]), 0));
            r.Ok? && DrivenSoFar(base, r.value, k + 1)
  {
    hide MergeArtifacts, DeployDriver.MergeDeployArtifacts, KnownElsewhere, ValidForPhase, RequiredFields, OwnedFields,
      Position, DeployDriver.Only;
    var artifacts := NamingReceipt(base, previous, CODE_ONLY_PHASES[k]).payload.artifacts;
    NamingReceiptFits(base, previous, CODE_ONLY_PHASES[k]);
    DeployDriver.DeployMergeIsRestricted(d.evidence, artifacts, CODE_ONLY_PHASES[k], false);
    KnownMerge(base, d.evidence, DeployDriver.Only(artifacts, DeployDriver.DEPLOY_SLOTS), CODE_ONLY_PHASES[k]);
    PlansAreWellFormed();
    PositionInDistinct(CODE_ONLY_PHASES, k);
  }

  lemma NothingDriven(base: Record)
    requires AdmittedDeploy(base)
    ensures DrivenSoFar(base, base, 0)
  {
  }

  lemma {:induction false} DriverTakesAllNaming(base: Record, previous: Value, k: nat)
    requires AdmittedDeploy(base) && k <= |CODE_ONLY_PHASES|
    ensures DriverRun(base, NamingEntries(base, previous, k)).Ok?
    ensures DrivenSoFar(base, DriverRun(base, NamingEntries(base, previous, k)).value, k)
  {
    hide DriverStep, NamingReceipt, DrivenSoFar, AdmittedDeploy;
    if k == 0 {
      NothingDriven(base);
    } else {
      DriverTakesAllNaming(base, previous, k - 1);
      assert NamingEntries(base, previous, k)[..k - 1] == NamingEntries(base, previous, k - 1);
      DriverTakesNaming(base, previous, DriverRun(base, NamingEntries(base, previous, k - 1)).value, k - 1);
    }
  }

  /**
    The two projections do disagree, for every attempt admitted with a previous release: when its
    deploying receipt names any other, the driver carries it to success and the controller refuses it.
  */
  lemma SecondPreviousReleaseSplitsProjections(base: Record, previous: Value)
    requires AdmittedDeploy(base) && PreviousReleaseBundle in base.evidence.fields
    requires previous != base.evidence.fields[PreviousReleaseBundle]
    ensures var entries := NamingEntries(base, previous, |CODE_ONLY_PHASES|);
            && DriverRun(base, entries).Ok?
            && DriverRun(base, entries).value.state.result == Succeeded
            && ControllerRun(base, entries).Err?
  {
    hide DriverRun, ControllerRun;
    var entries := NamingEntries(base, previous, |CODE_ONLY_PHASES|);
    DriverTakesAllNaming(base, previous, |CODE_ONLY_PHASES|);
    DeployProjectionsAgree(base, entries);
    var k := Position(CODE_ONLY_PHASES, Deploying).value;
    assert entries[k].receipt.payload.artifacts.fields[PreviousReleaseBundle] == previous;
    assert Names(base, entries, base.evidence.fields[PreviousReleaseBundle]) && Names(base, entries, previous);
  }

  /** In particular for every record the driver starts from that has a previous release. */
  lemma ReconstructedRecordsSplit(a: DeployDriver.Accepted, previous: Value)
    requires a.previous.Some? && previous != Value(a.previous.value)
    ensures forall base :: base in {DeployDriver.Reconstruct(a), DeployDriver.Bound(a)} ==>
              var entries := NamingEntries(base, previous, |CODE_ONLY_PHASES|);
              && DriverRun(base, entries).Ok?
              && DriverRun(base, entries).value.state.result == Succeeded
              && ControllerRun(base, entries).Err?
  {
    ReconstructedIsAdmitted(a);
    hide DriverRun, ControllerRun, DeployDriver.Reconstruct, DeployDriver.Bound, AdmittedDeploy, NamingEntries;
    SecondPreviousReleaseSplitsProjections(DeployDriver.Reconstruct(a), previous);
    SecondPreviousReleaseSplitsProjections(DeployDriver.Bound(a), previous);
  }

  lemma ReconstructedIsAdmitted(a: DeployDriver.Accepted)
    requires a.previous.Some?
    ensures forall base :: base in {DeployDriver.Reconstruct(a), DeployDriver.Bound(a)} ==>
              && AdmittedDeploy(base)
              && PreviousReleaseBundle in base.evidence.fields
              && base.evidence.fields[PreviousReleaseBundle] == Value(a.previous.value)
  {
  }

  // ---------------------------------------------------------------- the backup driver

  lemma BackupPositions()
    ensures Position(BACKUP_ONLY_PHASES, Queued) == Some(0)
    ensures Position(BACKUP_ONLY_PHASES, Preflight) == Some(1)
    ensures Position(BACKUP_ONLY_PHASES, BackingUp) == Some(2)
    ensures forall p :: p !in {Queued, Preflight, BackingUp} ==> Position(BACKUP_ONLY_PHASES, p).None?
  {
    assert WellFormedPlan(BackupOnly, RequiredPhases(BackupOnly, None).value);
    assert BACKUP_ONLY_PHASES[0] == Queued && BACKUP_ONLY_PHASES[1] == Preflight && BACKUP_ONLY_PHASES[2] == BackingUp;
    PositionInDistinct(BACKUP_ONLY_PHASES, 0);
    PositionInDistinct(BACKUP_ONLY_PHASES, 1);
    PositionInDistinct(BACKUP_ONLY_PHASES, 2);
  }

  /** The backup driver's table is the backup plan. */
  lemma BackupTableIsThePlan(c: Record, p: ReceiptPayload)
    requires c.kind == BackupOnly && c.release.None? && p.branch == Primary
    ensures match NextState(c, p, false)
            case Ok(next) => BackupNextState(p.phase) == Some(next)
            case Err(_) => BackupNextState(p.phase).None?
  {
    BackupPositions();
    ConsecutivePermitted(BACKUP_ONLY_PHASES, 0);
    ConsecutivePermitted(BACKUP_ONLY_PHASES, 1);
    hide Position, PermitsTransition;
    match p.phase
    case _ =>
  }

  lemma BackupOwned(a: Artifacts, phase: Phase)
    requires ValidForPhase(a, phase) && phase in {Queued, Preflight, BackingUp}
    ensures a.fields.Keys <= BACKUP_SLOTS + {SourceGateProof}
    ensures phase != BackingUp ==> SourceGateProof !in a.fields
  {
    match phase
    case _ =>
  }

  /** On a receipt new to the log, the controller accepts exactly what the backup driver accepts, one slot aside. */
  lemma BackupReceiptAgrees(d: Record, c: Record, receipt: Receipt, at: int)
    requires Agree(d, c, SourceGateProof) && d.kind == BackupOnly && d.release.None? && d.evidence.recovery.None?
    requires receipt.payload.attempt == d.attempt && !HasReceipt(c, receipt.digest)
    ensures AfterCommitReceipt(c, receipt, at).Ok?
       <==> && BackupProject(d, receipt).Ok?
            && Compatible(c.evidence.fields, receipt.payload.artifacts.fields, SourceGateProof)
    ensures AfterCommitReceipt(c, receipt, at).Ok? ==>
              && Agree(BackupProject(d, receipt).value, AfterCommitReceipt(c, receipt, at).value, SourceGateProof)
              && SlotMerged(c.evidence.fields, receipt.payload.artifacts.fields,
                            AfterCommitReceipt(c, receipt, at).value.evidence.fields,
                            SourceGateProof)
  {
    hide MergeBackupArtifacts, RequiredPhases, MergeArtifacts, NextState, Persist, DeployDriver.Push, ValidForPhase,
      FieldsAgree, LogsAgree, DeployDriver.Only, HasReceipt, Compatible, BackupNextState;
    var p := receipt.payload;
    BackupMergeIsRestricted(d.evidence, p.artifacts, p.phase);
    if p.branch == Primary {
      BackupTableIsThePlan(c, p);
      if ValidForPhase(p.artifacts, p.phase) && BackupNextState(p.phase).Some? {
        BackupPhases(p.phase);
        BackupOwned(p.artifacts, p.phase);
        MergeAgrees(d.evidence, c.evidence, p.artifacts, BACKUP_SLOTS, SourceGateProof, p.phase, Primary, false);
        if MergeArtifacts(c.evidence, p.artifacts, p.phase, p.branch, false).Some? {
          var d' := d.(evidence :=
                       MergeArtifacts(d.evidence, DeployDriver.Only(p.artifacts, BACKUP_SLOTS), p.phase, Primary,
                                      false).value);
          var c' := c.(evidence := MergeArtifacts(c.evidence, p.artifacts, p.phase, Primary, false).value);
          PushAgrees(d', c', BackupNextState(p.phase).value, Some(receipt.digest), p.committedAt, at, SourceGateProof);
        }
      }
    } else {
      BranchMismatch(c, p, false);
    }
  }

  lemma BackupPhases(p: Phase)
    requires BackupNextState(p).Some?
    ensures p in {Queued, Preflight, BackingUp} && BackupNextState(p).value.Valid()
  {
  }

  datatype TimedReceipt = TimedReceipt(receipt: Receipt, recordedAt: int)

  ghost function BackupRun(base: Record, rs: seq<TimedReceipt>): Result<Record, BackupError> {
    if rs == [] then Ok(base)
    else
      var before := BackupRun(base, rs[..|rs| - 1]);
      if before.Err? then before else BackupProject(before.value, rs[|rs| - 1].receipt)
  }

  ghost function ControllerBackupRun(base: Record, rs: seq<TimedReceipt>): Outcome {
    if rs == [] then Ok(base)
    else
      var before := ControllerBackupRun(base, rs[..|rs| - 1]);
      if before.Err? then before else AfterCommitReceipt(before.value, rs[|rs| - 1].receipt, rs[|rs| - 1].recordedAt)
  }

  ghost function BackupRank(p: Phase): nat {
    match p
    case Queued => 0
    case Preflight => 1
    case _ => 2
  }

  /** A running backup has logged only receipts of earlier phases, and no source proof has been seen. */
  ghost predicate BackupAhead(d: Record, c: Record) {
    d.state.result == Running ==>
      && SourceGateProof !in c.evidence.fields
      && forall i :: 0 <= i < |d.evidence.transitions| && d.evidence.transitions[i].receipt.Some? ==>
                       BackupRank(d.evidence.transitions[i].receipt.value.payload.phase) < BackupRank(d.state.phase)
  }

  lemma BackupIsNew(d: Record, c: Record, receipt: Receipt)
    requires BackupAhead(d, c) && LogsAgree(d.evidence.transitions, c.evidence.transitions)
             && BackupProject(d, receipt).Ok?
    ensures !HasReceipt(c, receipt.digest) && receipt.payload.attempt == d.attempt
    ensures Compatible(c.evidence.fields, receipt.payload.artifacts.fields, SourceGateProof)
  {
    hide ValidForPhase, MergeBackupArtifacts, DeployDriver.Push, BackupRank, BackupNextState;
    forall i | 0 <= i < |c.evidence.transitions| ensures c.evidence.transitions[i].receipt != Some(receipt.digest) {
      assert d.evidence.transitions[i].receipt == c.evidence.transitions[i].receipt;
    }
  }

  lemma BackupStaysAhead(d: Record, c: Record, receipt: Receipt, c': Record)
    requires BackupAhead(d, c) && BackupProject(d, receipt).Ok?
    requires SlotMerged(c.evidence.fields, receipt.payload.artifacts.fields, c'.evidence.fields, SourceGateProof)
    ensures BackupAhead(BackupProject(d, receipt).value, c')
    ensures var d' := BackupProject(d, receipt).value;
            d'.kind == d.kind && d'.release == d.release && d'.evidence.recovery == d.evidence.recovery
  {
    hide ValidForPhase, MergeArtifacts, MergeBackupArtifacts, DeployDriver.Only;
    var p := receipt.payload;
    BackupMergeIsRestricted(d.evidence, p.artifacts, p.phase);
    MergeKeepsLog(d.evidence, DeployDriver.Only(p.artifacts, BACKUP_SLOTS), p.phase, Primary, false);
    BackupOwned(p.artifacts, p.phase);
  }

  /**
    Every list of receipts the backup driver accepts, from a queued backup without source proof as
    the driver reconstructs it, is accepted by the controller with the same states and log.
  */
  lemma {:induction false} BackupProjectionsAgree(base: Record, rs: seq<TimedReceipt>)
    requires Admitted(base) && base.kind == BackupOnly && base.release.None? && SourceGateProof !in base.evidence.fields
    requires BackupRun(base, rs).Ok?
    ensures ControllerBackupRun(base, rs).Ok?
    ensures var d, c := BackupRun(base, rs).value, ControllerBackupRun(base, rs).value;
            && Agree(d, c, SourceGateProof) && BackupAhead(d, c)
            && d.kind == BackupOnly && d.release.None? && d.evidence.recovery.None?
  {
    if rs != [] {
      hide Admitted, BackupAhead, BackupProject, AfterCommitReceipt, FieldsAgree, LogsAgree, Compatible, HasReceipt;
      var rest, last := rs[..|rs| - 1], rs[|rs| - 1];
      BackupProjectionsAgree(base, rest);
      var d, c := BackupRun(base, rest).value, ControllerBackupRun(base, rest).value;
      BackupIsNew(d, c, last.receipt);
      BackupReceiptAgrees(d, c, last.receipt, last.recordedAt);
      BackupStaysAhead(d, c, last.receipt, AfterCommitReceipt(c, last.receipt, last.recordedAt).value);
    }
  }
}
