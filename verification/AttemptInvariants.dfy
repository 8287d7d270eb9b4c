/**
  Every call keeps the record invariant, so it holds after every run of calls; from it
  follow the safety statements about whole runs.
*/
module AttemptInvariants {
  import opened Domain
  import opened AttemptLifecycle

  // ---------------------------------------------------------------- appending to the log

  lemma AppendedLog(ts: seq<Transition>, t: Transition)
    ensures Committed(ts + [t]) == Committed(ts) + ReceiptOf(t)
    ensures Cursor(ts + [t]) == if t.to.phase != Reconciliation then t.to.phase else Cursor(ts)
    ensures LastRollbackEntry(ts + [t]) == if IsRollbackEntry(t) then Some(|ts|) else LastRollbackEntry(ts)
  {
    assert (ts + [t])[..|ts|] == ts;
  }

  lemma AppendedTail(ts: seq<Transition>, t: Transition, k: nat)
    requires k <= |ts|
    ensures Committed((ts + [t])[k..]) == Committed(ts[k..]) + ReceiptOf(t)
    ensures (ts + [t])[..k] == ts[..k]
  {
    assert (ts + [t])[k..] == ts[k..] + [t];
    AppendedLog(ts[k..], t);
  }

  lemma {:induction false} CommittedMembers(ts: seq<Transition>, d: ReceiptDigest)
    ensures d in Committed(ts) <==> exists i :: 0 <= i < |ts| && ts[i].receipt == Some(d)
  {
    if ts != [] {
      var rest := ts[..|ts| - 1];
      CommittedMembers(rest, d);
      if d in Committed(rest) {
        var i :| 0 <= i < |rest| && rest[i].receipt == Some(d);
        assert ts[i].receipt == Some(d);
      }
      if i :| 0 <= i < |ts| && ts[i].receipt == Some(d) {
        if i < |ts| - 1 { assert rest[i].receipt == Some(d); }
      }
    }
  }

  /** With a correct look-back, the code's mutation test sees exactly the committed receipts. */
  lemma MutationTestIsExact(op: Record)
    requires LookBackFindsPhase(op.evidence.transitions)
    ensures HasCommittedMutation(op) <==>
              exists d :: d in Committed(op.evidence.transitions) && CrossesMutationBoundary(d.payload.phase)
  {
    var ts := op.evidence.transitions;
    if HasCommittedMutation(op) {
      var i :| 0 <= i < |ts| && ts[i].receipt.Some? && ReceiptPhase(ts, i).Some?
               && CrossesMutationBoundary(ReceiptPhase(ts, i).value);
      CommittedMembers(ts, ts[i].receipt.value);
    }
    if d :| d in Committed(ts) && CrossesMutationBoundary(d.payload.phase) {
      CommittedMembers(ts, d);
    }
  }

  lemma PhaseTestIsExact(op: Record, p: Phase)
    requires LookBackFindsPhase(op.evidence.transitions)
    ensures HasCommittedPhase(op, p) <==> exists d :: d in Committed(op.evidence.transitions) && d.payload.phase == p
  {
    var ts := op.evidence.transitions;
    if HasCommittedPhase(op, p) {
      var i :| 0 <= i < |ts| && ts[i].receipt.Some? && ReceiptPhase(ts, i) == Some(p);
      CommittedMembers(ts, ts[i].receipt.value);
    }
    if d :| d in Committed(ts) && d.payload.phase == p {
      CommittedMembers(ts, d);
    }
  }

  /** `after` is `op` with the transition `t` appended and everything else about the log kept. */
  ghost predicate Appends(op: Record, after: Record, t: Transition) {
    && after.evidence.transitions == op.evidence.transitions + [t]
    && t == Transition(|op.evidence.transitions| + 1, op.state, after.state, t.receipt, t.at)
    && |op.evidence.transitions| + 1 <= MAX_SEQUENCE
    && op.state.result == Running
    && after.kind == op.kind && after.release == op.release
    && Decodable(after)
  }

  lemma ChainKept(op: Record, after: Record, t: Transition)
    requires ChainedLog(op) && Appends(op, after, t)
    ensures ChainedLog(after)
  {
  }

  lemma NoReceiptTwiceKept(op: Record, after: Record, t: Transition)
    requires NoReceiptTwice(op.evidence.transitions) && Appends(op, after, t)
    requires t.receipt.Some? ==> !HasReceipt(op, t.receipt.value)
    ensures NoReceiptTwice(after.evidence.transitions)
  {
  }

  lemma LookBackKept(op: Record, after: Record, t: Transition)
    requires ChainedLog(op) && LookBackFindsPhase(op.evidence.transitions) && ReconciliationShape(op)
    requires Appends(op, after, t)
    requires t.receipt.Some? ==> t.receipt.value.payload.phase == Cursor(op.evidence.transitions)
    ensures LookBackFindsPhase(after.evidence.transitions)
  {
    var ts, n := op.evidence.transitions, |op.evidence.transitions|;
    var ts' := after.evidence.transitions;
    forall i | 0 <= i < |ts'| && ts'[i].receipt.Some?
      ensures ReceiptPhase(ts', i) == Some(ts'[i].receipt.value.payload.phase)
    {
      if i < n {
        assert ts'[i] == ts[i];
        assert ReceiptPhase(ts', i) == ReceiptPhase(ts, i);
      } else if op.state.phase == Reconciliation {
        CursorIsLastFrom(op);
        assert ts'[n - 1] == ts[n - 1];
      } else {
        CursorIsPhase(op);
      }
    }
  }

  lemma LogKept(op: Record, after: Record, t: Transition)
    requires Inv(op) && Appends(op, after, t)
    requires t.receipt.Some? ==>
               && !HasReceipt(op, t.receipt.value)
               && t.receipt.value.payload.phase == Cursor(op.evidence.transitions)
    ensures ChainedLog(after)
    ensures NoReceiptTwice(after.evidence.transitions)
    ensures LookBackFindsPhase(after.evidence.transitions)
  {
    ChainKept(op, after, t);
    NoReceiptTwiceKept(op, after, t);
    LookBackKept(op, after, t);
  }

  /** In reconciliation the cursor is the phase it was entered from. */
  lemma CursorIsLastFrom(op: Record)
    requires ChainedLog(op) && ReconciliationShape(op)
    requires op.state.phase == Reconciliation && op.state.result == Running
    ensures Cursor(op.evidence.transitions) == op.evidence.transitions[|op.evidence.transitions| - 1].from.phase
  {
    var ts := op.evidence.transitions;
    var n := |ts|;
    var rest := ts[..n - 1];
    if n == 1 {
      assert Cursor(rest) == Queued;
    } else {
      assert ts[n - 1].from == ts[n - 2].to && rest[|rest| - 1] == ts[n - 2];
    }
  }

  /** Outside reconciliation the cursor is simply the current phase. */
  lemma CursorIsPhase(op: Record)
    requires ChainedLog(op) && op.state.phase != Reconciliation
    ensures Cursor(op.evidence.transitions) == op.state.phase
  {
  }

  // ---------------------------------------------------------------- transitions without a receipt

  /** A transition that keeps the phase: blocks, unblocks, and the three early endings. */
  lemma SamePhaseKeepsInv(op: Record, after: Record, t: Transition)
    requires Inv(op) && Appends(op, after, t) && t.receipt.None?
    requires after.state.phase == op.state.phase && after.evidence.recovery == op.evidence.recovery
    requires after.state.result in {Running, Failed, Cancelled, Superseded}
    requires after.state.result == Running ==> op.state.phase != Reconciliation
    requires after.state.result != Running ==> !HasCommittedMutation(op)
    requires op.evidence.recovery != Some(RollbackMode)
    ensures Inv(after)
  {
    LogKept(op, after, t);
    NotInRollbackPhase(op);
    MutationTestIsExact(op);
    SamePhaseKeepsOrder(op, after, t);
    hide RequiredPhases, Position, FollowPlan, Committed, LastRollbackEntry, ReceiptPhase, HasCommittedMutation,
      Decodable, ChainedLog, LookBackFindsPhase, NoReceiptTwice, PrimaryOrder, RecoveryOrder;
  }

  lemma SamePhaseKeepsOrder(op: Record, after: Record, t: Transition)
    requires ChainedLog(op) && PrimaryOrder(op) && RecoveryOrder(op) && Appends(op, after, t) && t.receipt.None?
    requires after.state.phase == op.state.phase != Rollback && after.evidence.recovery == op.evidence.recovery
    requires after.state.result in {Running, Failed, Cancelled, Superseded}
    requires op.evidence.recovery != Some(RollbackMode)
    ensures Committed(after.evidence.transitions) == Committed(op.evidence.transitions)
    ensures Cursor(after.evidence.transitions) == Cursor(op.evidence.transitions)
    ensures PrimaryOrder(after) && RecoveryOrder(after)
  {
    var ts := op.evidence.transitions;
    AppendedLog(ts, t);
    if op.state.phase != Reconciliation { CursorIsPhase(op); }
    hide RequiredPhases, Position, FollowPlan, Committed, Cursor, LastRollbackEntry, ChainedLog, Decodable,
      RecoveryOrder, PrimaryOrder;
    SamePhaseKeepsRecoveryOrder(op, after, t);
    SamePhaseKeepsPrimaryOrder(op, after);
  }

  lemma SamePhaseKeepsPrimaryOrder(op: Record, after: Record)
    requires PrimaryOrder(op) && after.kind == op.kind && after.release == op.release
    requires after.evidence.recovery == op.evidence.recovery
    requires op.state.result == Running && after.state.result in {Running, Failed, Cancelled, Superseded}
    requires var ts, ts' := op.evidence.transitions, after.evidence.transitions;
             Committed(ts') == Committed(ts) && Cursor(ts') == Cursor(ts)
               && LastRollbackEntry(ts') == LastRollbackEntry(ts)
    ensures PrimaryOrder(after)
  {
    hide RequiredPhases, Position, FollowPlan, Committed, Cursor, LastRollbackEntry;
  }

  lemma SamePhaseKeepsRecoveryOrder(op: Record, after: Record, t: Transition)
    requires RecoveryOrder(op) && after.kind == op.kind && after.evidence.transitions == op.evidence.transitions + [t]
    requires after.state.phase == op.state.phase != Rollback && after.evidence.recovery == op.evidence.recovery
    requires after.state.result in {Running, Failed, Cancelled, Superseded}
    requires op.evidence.recovery != Some(RollbackMode)
    requires LastRollbackEntry(after.evidence.transitions) == LastRollbackEntry(op.evidence.transitions)
    ensures RecoveryOrder(after)
  {
    hide FollowPlan, Committed, LastRollbackEntry, Position;
    var ts := op.evidence.transitions;
    if LastRollbackEntry(ts).Some? {
      assert (ts + [t])[..LastRollbackEntry(ts).value] == ts[..LastRollbackEntry(ts).value];
    }
  }

  /** Only rollback recovery is ever at the rollback phase, so blocks never look like an entry. */
  lemma NotInRollbackPhase(op: Record)
    requires Inv(op) && op.evidence.recovery != Some(RollbackMode)
    ensures op.state.phase != Rollback
  {
  }

  lemma EnteringReconciliationKeepsInv(op: Record, after: Record, t: Transition)
    requires Inv(op) && Appends(op, after, t) && t.receipt.None?
    requires op.state.phase != Reconciliation
    requires after.state == State(Reconciliation, Running, SecurityStateInvalid)
    requires after.evidence.recovery == Some(ReconciliationMode)
    ensures Inv(after)
  {
    var ts := op.evidence.transitions;
    LogKept(op, after, t);
    AppendedLog(ts, t);
    CursorIsPhase(op);
    if LastRollbackEntry(ts).Some? {
      AppendedTail(ts, t, LastRollbackEntry(ts).value);
    }
  }

  lemma RollbackEntryOrder(op: Record, after: Record, t: Transition)
    requires LookBackFindsPhase(op.evidence.transitions) && Appends(op, after, t) && IsRollbackEntry(t)
    requires op.kind == Deploy && HasCommittedPhase(op, Deploying)
    requires after.state == State(Rollback, Running, NoBlock)
    requires after.evidence.recovery == Some(RollbackMode)
    ensures RecoveryOrder(after) && PrimaryOrder(after)
  {
    var ts := op.evidence.transitions;
    AppendedLog(ts, t);
    AppendedTail(ts, t, |ts|);
    PhaseTestIsExact(op, Deploying);
    assert after.evidence.transitions[..|ts|] == ts;
    assert Position(RECOVERY_PHASES, Rollback) == Some(0);
    assert FollowPlan([], RECOVERY_PHASES, 0, RollbackRecovery);
  }

  lemma EnteringRollbackKeepsInv(op: Record, after: Record, t: Transition)
    requires Inv(op) && Appends(op, after, t) && t.receipt.None?
    requires op.kind == Deploy && HasCommittedPhase(op, Deploying)
    requires after.state == State(Rollback, Running, NoBlock)
    requires after.evidence.recovery == Some(RollbackMode)
    ensures Inv(after)
  {
    LogKept(op, after, t);
    AppendedLog(op.evidence.transitions, t);
    RollbackEntryOrder(op, after, t);
  }

  // ---------------------------------------------------------------- transitions with a receipt

  lemma {:induction false} OneMorePhase(ds: seq<ReceiptDigest>, d: ReceiptDigest, plan: seq<Phase>, k: nat,
                                        branch: Branch)
    requires FollowPlan(ds, plan, k, branch) && k < |plan|
    requires d.payload.phase == plan[k] && d.payload.branch == branch
    ensures FollowPlan(ds + [d], plan, k + 1, branch)
  {
  }

  /** The part of NextState that the primary branch uses: one phase further, or the end. */
  lemma PrimaryNext(op: Record, payload: ReceiptPayload, next: State)
    requires NextState(op, payload, false) == Ok(next)
    ensures RequiredPhases(op.kind, op.release).Some?
    ensures var plan := RequiredPhases(op.kind, op.release).value;
            && payload.branch == Primary
            && Position(plan, payload.phase).Some?
            && var k := Position(plan, payload.phase).value;
            if k + 1 < |plan| then next == State(plan[k + 1], Running, NoBlock) && plan[k + 1] != Rollback
            else next == State(plan[k], if op.kind == CodeRollback then RolledBack else Succeeded, NoBlock)
  {
    assert CODE_ROLLBACK_PHASES[1] == Preflight;
  }

  lemma MutationKept(op: Record, after: Record, t: Transition, plan: seq<Phase>, k: nat)
    requires MutationSafe(op) && Appends(op, after, t) && t.receipt.Some?
    requires RequiredPhases(op.kind, op.release) == Some(plan)
    requires k < |plan| && plan[k] == t.receipt.value.payload.phase == Cursor(op.evidence.transitions)
    requires after.state == State(if k + 1 < |plan| then plan[k + 1] else plan[k], after.state.result, NoBlock)
    requires after.state.result in {Running, Succeeded, RolledBack}
    ensures MutationSafe(after)
  {
    AppendedLog(op.evidence.transitions, t);
  }

  lemma PrimaryOrderKept(op: Record, after: Record, t: Transition, plan: seq<Phase>, k: nat)
    requires PrimaryOrder(op) && Appends(op, after, t) && t.receipt.Some?
    requires RequiredPhases(op.kind, op.release) == Some(plan) && op.state.result == Running
    requires t.receipt.value.payload.branch == Primary
    requires k < |plan| && plan[k] == t.receipt.value.payload.phase == Cursor(op.evidence.transitions)
    requires if k + 1 < |plan| then after.state == State(plan[k + 1], Running, NoBlock)
             else Finished(after)
    requires after.evidence.recovery.None?
    ensures PrimaryOrder(after)
  {
    var ts, d := op.evidence.transitions, t.receipt.value;
    AppendedLog(ts, t);
    if LastRollbackEntry(ts).None? {
      PositionInDistinct(plan, k);
      OneMorePhase(Committed(ts), d, plan, k, Primary);
      if k + 1 < |plan| { PositionInDistinct(plan, k + 1); }
    }
  }

  lemma RecoveryOrderLeft(op: Record, after: Record, t: Transition)
    requires RecoveryOrder(op) && Appends(op, after, t) && t.receipt.Some?
    requires after.evidence.recovery.None? && after.state.phase != Rollback
    requires op.kind == Deploy ==> after.state.result != RolledBack
    ensures RecoveryOrder(after)
  {
    var ts := op.evidence.transitions;
    AppendedLog(ts, t);
    if LastRollbackEntry(ts).Some? { AppendedTail(ts, t, LastRollbackEntry(ts).value); }
  }

  lemma StuckKept(op: Record, after: Record, t: Transition, plan: seq<Phase>, k: nat)
    requires RollbackPlanStuck(op) && Appends(op, after, t) && t.receipt.Some?
    requires RequiredPhases(op.kind, op.release) == Some(plan)
    requires k < |plan| && plan[k] == t.receipt.value.payload.phase == Cursor(op.evidence.transitions)
    requires if k + 1 < |plan| then after.state == State(plan[k + 1], Running, NoBlock) && plan[k + 1] != Rollback
             else Finished(after)
    ensures RollbackPlanStuck(after)
  {
    AppendedLog(op.evidence.transitions, t);
    if op.kind == CodeRollback { assert plan == CODE_ROLLBACK_PHASES; }
  }

  /** A receipt of the primary branch moves the attempt one phase down its plan. */
  lemma PrimaryReceiptKeepsInv(op: Record, after: Record, t: Transition)
    requires Inv(op) && Appends(op, after, t) && t.receipt.Some?
    requires !HasReceipt(op, t.receipt.value)
    requires t.receipt.value.payload.phase == Cursor(op.evidence.transitions)
    requires NextState(op, t.receipt.value.payload, false) == Ok(after.state)
    requires after.evidence.recovery.None?
    ensures Inv(after)
  {
    var payload := t.receipt.value.payload;
    PrimaryNext(op, payload, after.state);
    var plan := RequiredPhases(op.kind, op.release).value;
    var k := Position(plan, payload.phase).value;
    LogKept(op, after, t);
    MutationKept(op, after, t, plan, k);
    PrimaryOrderKept(op, after, t, plan, k);
    RecoveryOrderLeft(op, after, t);
    StuckKept(op, after, t, plan, k);
  }

  lemma RecoveryNext(op: Record, payload: ReceiptPayload, next: State)
    requires NextState(op, payload, true) == Ok(next)
    ensures payload.branch == RollbackRecovery
    ensures payload.phase in RECOVERY_PHASES
    ensures match payload.phase
            case Rollback => next == State(HealthChecking, Running, NoBlock)
            case HealthChecking => next == State(Soaking, Running, NoBlock)
            case _ => next == State(Soaking, RolledBack, NoBlock)
    ensures Position(RECOVERY_PHASES, Rollback) == Some(0)
    ensures Position(RECOVERY_PHASES, HealthChecking) == Some(1)
    ensures Position(RECOVERY_PHASES, Soaking) == Some(2)
  {
    PositionInDistinct(RECOVERY_PHASES, 0);
    PositionInDistinct(RECOVERY_PHASES, 1);
    PositionInDistinct(RECOVERY_PHASES, 2);
  }

  lemma RecoveryOrderKept(op: Record, after: Record, t: Transition)
    requires RecoveryOrder(op) && Appends(op, after, t) && t.receipt.Some?
    requires t.receipt.value.payload.phase == op.state.phase
    requires NextState(op, t.receipt.value.payload, true) == Ok(after.state)
    requires op.evidence.recovery == after.evidence.recovery == Some(RollbackMode)
    ensures RecoveryOrder(after) && PrimaryOrder(after)
  {
    hide NextState, Decodable, Position;
    var ts, d := op.evidence.transitions, t.receipt.value;
    RecoveryNext(op, d.payload, after.state);
    AppendedLog(ts, t);
    var entry := LastRollbackEntry(ts).value;
    AppendedTail(ts, t, entry);
    var k := Position(RECOVERY_PHASES, d.payload.phase).value;
    OneMorePhase(Committed(ts[entry..]), d, RECOVERY_PHASES, k, RollbackRecovery);
    assert FollowPlan(Committed(after.evidence.transitions[entry..]), RECOVERY_PHASES, k + 1, RollbackRecovery);
  }

  /** A receipt of the recovery branch moves the attempt one phase down that branch. */
  lemma RecoveryReceiptKeepsInv(op: Record, after: Record, t: Transition)
    requires Inv(op) && Appends(op, after, t) && t.receipt.Some?
    requires !HasReceipt(op, t.receipt.value)
    requires t.receipt.value.payload.phase == op.state.phase
    requires NextState(op, t.receipt.value.payload, true) == Ok(after.state)
    requires op.evidence.recovery == after.evidence.recovery == Some(RollbackMode)
    ensures Inv(after)
  {
    RecoveryNext(op, t.receipt.value.payload, after.state);
    CursorIsPhase(op);
    LogKept(op, after, t);
    AppendedLog(op.evidence.transitions, t);
    RecoveryOrderKept(op, after, t);
  }

  // ---------------------------------------------------------------- every call keeps the invariant

  lemma MergedSpecsStayDecodable(op: Record, a: Artifacts, phase: Phase, branch: Branch, inRollback: bool)
    requires Decodable(op)
    requires branch == RollbackRecovery ==> phase in RECOVERY_PHASES
    requires MergeArtifacts(op.evidence, a, phase, branch, inRollback).Some?
    ensures var e := MergeArtifacts(op.evidence, a, phase, branch, inRollback).value;
            && Decodable(op.(evidence := e))
            && e == op.evidence.(specs := e.specs, fields := e.fields)
  {
  }

  lemma InvParts(op: Record)
    requires Inv(op)
    ensures Decodable(op) && ChainedLog(op) && LookBackFindsPhase(op.evidence.transitions)
    ensures ReconciliationShape(op) && MutationSafe(op) && RecoveryOrder(op)
  {
  }

  /** A successful persist appends exactly one transition to the log. */
  lemma PersistAppends(op: Record, base: Record, next: State, receipt: Option<ReceiptDigest>, at: int)
    returns (t: Transition)
    requires base == op.(evidence := base.evidence, capsule := base.capsule)
    requires base.evidence.transitions == op.evidence.transitions
    requires Decodable(base) && op.state.result == Running
    requires Persist(base, next, receipt, at).Ok?
    ensures var after := Persist(base, next, receipt, at).value;
            && Appends(op, after, t)
            && t.receipt == receipt
            && after.state == next
            && after.evidence == base.evidence.(transitions := after.evidence.transitions)
  {
    var after := Persist(base, next, receipt, at).value;
    t := after.evidence.transitions[|op.evidence.transitions|];
  }

  lemma CommitReceiptKeepsInv(op: Record, receipt: Receipt, at: int)
    requires Inv(op) && AfterCommitReceipt(op, receipt, at).Ok?
    ensures Inv(AfterCommitReceipt(op, receipt, at).value)
  {
    hide Inv, NextState, MergeArtifacts, Persist, ValidForPhase, Decodable, ChainedLog, Appends, RecoveryOrder,
      MutationSafe;
    if !HasReceipt(op, receipt.digest) {
      InvParts(op);
      var p := receipt.payload;
      var inRollback := op.evidence.recovery == Some(RollbackMode);
      var next := NextState(op, p, inRollback).value;
      if inRollback { RecoveryNext(op, p, next); } else { PrimaryNext(op, p, next); }
      MergedSpecsStayDecodable(op, p.artifacts, p.phase, p.branch, inRollback);
      var e := MergeArtifacts(op.evidence, p.artifacts, p.phase, p.branch, inRollback).value;
      var t := PersistAppends(op, op.(evidence := e), next, Some(receipt.digest), at);
      var after := AfterCommitReceipt(op, receipt, at).value;
      RunningOutsideReconciliation(op, p);
      CursorIsPhase(op);
      if inRollback { RecoveryReceiptKeepsInv(op, after, t); } else { PrimaryReceiptKeepsInv(op, after, t); }
    }
  }

  /** No branch plans the reconciliation phase, and outside it the mode is rollback or none. */
  lemma RunningOutsideReconciliation(op: Record, payload: ReceiptPayload)
    requires ReconciliationShape(op)
    requires op.state.phase == payload.phase
    requires NextState(op, payload, op.evidence.recovery == Some(RollbackMode)).Ok?
    ensures op.state.phase != Reconciliation
    ensures op.evidence.recovery.None? || op.evidence.recovery == Some(RollbackMode)
  {
    match op.evidence.recovery
    case None =>
    case Some(RollbackMode) =>
    case Some(ReconciliationMode) =>
  }

  lemma CommitReconciledKeepsInv(op: Record, receipt: Receipt, at: int)
    requires Inv(op) && AfterCommitReconciledReceipt(op, receipt, at).Ok?
    ensures Inv(AfterCommitReconciledReceipt(op, receipt, at).value)
  {
    hide Inv, NextState, MergeArtifacts, Persist, ValidForPhase, Decodable, ChainedLog, Appends, RecoveryOrder,
      MutationSafe;
    if !HasReceipt(op, receipt.digest) {
      InvParts(op);
      var p := receipt.payload;
      var next := NextState(op, p, false).value;
      PrimaryNext(op, p, next);
      MergedSpecsStayDecodable(op, p.artifacts, p.phase, p.branch, false);
      var e := MergeArtifacts(op.evidence, p.artifacts, p.phase, p.branch, false).value;
      var base := op.(evidence := e.(recovery := None), capsule := None);
      DecodableWithout(op, e);
      var t := PersistAppends(op, base, next, Some(receipt.digest), at);
      CursorIsLastFrom(op);
      PrimaryReceiptKeepsInv(op, AfterCommitReconciledReceipt(op, receipt, at).value, t);
    }
  }

  lemma DecodableWithout(op: Record, e: Evidence)
    requires Decodable(op.(evidence := e))
    ensures Decodable(op.(evidence := e.(recovery := None), capsule := None))
  {
  }

  /** The calls that leave the phase alone. */
  lemma SamePhaseCallKeepsInv(op: Record, c: Call, at: int)
    requires Inv(op) && After(op, c, at).Ok? && After(op, c, at).value != op
    requires c.SetSourceBlock? || c.SetDiskBlock? || c.ClearDiskBlock? || c.SetCutoverBlock? || c.ClearCutoverBlock?
             || c.Supersede? || c.Fail? || c.Cancel?
    ensures Inv(After(op, c, at).value)
  {
    hide Inv, Persist, HasCommittedMutation, HasCommittedPhase, Appends, Decodable, ChainedLog;
    InvParts(op);
    var after := After(op, c, at).value;
    if op.evidence.recovery == Some(RollbackMode) { RollbackModeHasMutated(op); }
    if !CrossesMutationBoundary(op.state.phase) { EarlyEndIsUnmutated(op); }
    hide HasTrustedSourceAdmission, IsStatefulCutoverRetry, RecoveryOrder, MutationSafe, ReconciliationShape,
      LookBackFindsPhase;
    var capsule := match c case Supersede(x) => Some(x) case Fail(x) => Some(x) case _ => op.capsule;
    var next := State(op.state.phase,
                      match c case Supersede(_) => Superseded case Fail(_) => Failed
                      case Cancel => Cancelled case _ => Running,
                      match c case SetSourceBlock(r) => r case SetDiskBlock => DiskReserve
                      case SetCutoverBlock => SourceBrokerUnavailable case _ => NoBlock);
    DecodableCapsule(op, capsule);
    assert Persist(op.(capsule := capsule), next, None, at) == Ok(after);
    var t := PersistAppends(op, op.(capsule := capsule), next, None, at);
    SamePhaseKeepsInv(op, after, t);
  }

  lemma DecodableCapsule(op: Record, capsule: Option<Capsule>)
    requires Decodable(op)
    ensures capsule.Some? && capsule.value.wellFormed ==> Decodable(op.(capsule := capsule))
    ensures Decodable(op.(capsule := op.capsule))
  {
    assert op.(capsule := op.capsule) == op;
  }

  lemma RollbackModeHasMutated(op: Record)
    requires LookBackFindsPhase(op.evidence.transitions) && RecoveryOrder(op)
    requires op.evidence.recovery == Some(RollbackMode)
    ensures HasCommittedMutation(op)
  {
    var ts := op.evidence.transitions;
    var entry := LastRollbackEntry(ts).value;
    var d :| d in Committed(ts[..entry]) && d.payload.phase == Deploying;
    CommittedMembers(ts[..entry], d);
    CommittedMembers(ts, d);
    MutationTestIsExact(op);
  }

  lemma EarlyEndIsUnmutated(op: Record)
    requires LookBackFindsPhase(op.evidence.transitions) && MutationSafe(op)
    requires !CrossesMutationBoundary(op.state.phase)
    ensures !HasCommittedMutation(op)
  {
    MutationTestIsExact(op);
  }

  /** Every call that succeeds takes a good record to a good record. */
  lemma CallKeepsInv(op: Record, c: Call, at: int)
    requires Inv(op) && After(op, c, at).Ok?
    ensures Inv(After(op, c, at).value)
  {
    hide Inv, Persist, HasCommittedMutation, HasCommittedPhase, Appends, Decodable, ChainedLog;
    var after := After(op, c, at).value;
    if after == op { return; }
    InvParts(op);
    match c
    case CommitReceipt(receipt) => CommitReceiptKeepsInv(op, receipt, at);
    case CommitReconciledReceipt(receipt) => CommitReconciledKeepsInv(op, receipt, at);
    case MarkNeedsReconcile(capsule) =>
      var base := op.(evidence := op.evidence.(recovery := Some(ReconciliationMode)), capsule := Some(capsule));
      DecodableRecovery(op, Some(ReconciliationMode), Some(capsule));
      var t := PersistAppends(op, base, State(Reconciliation, Running, SecurityStateInvalid), None, at);
      EnteringReconciliationKeepsInv(op, after, t);
    case BeginRollback =>
      var base := op.(evidence := op.evidence.(recovery := Some(RollbackMode)));
      DecodableRecovery(op, Some(RollbackMode), op.capsule);
      var t := PersistAppends(op, base, State(Rollback, Running, NoBlock), None, at);
      EnteringRollbackKeepsInv(op, after, t);
    case RecordFence(fence) => FenceKeepsInv(op, after);
    case _ => SamePhaseCallKeepsInv(op, c, at);
  }

  lemma DecodableRecovery(op: Record, mode: Option<RecoveryMode>, capsule: Option<Capsule>)
    requires Decodable(op)
    requires capsule == op.capsule || (capsule.Some? && capsule.value.wellFormed)
    ensures Decodable(op.(evidence := op.evidence.(recovery := mode), capsule := capsule))
    ensures capsule == op.capsule ==> Decodable(op.(evidence := op.evidence.(recovery := mode)))
  {
    assert op.(evidence := op.evidence.(recovery := mode), capsule := op.capsule) ==
           op.(evidence := op.evidence.(recovery := mode));
  }

  lemma FenceKeepsInv(op: Record, after: Record)
    requires Inv(op)
    requires after == op.(evidence :=
                          op.evidence.(fields := after.evidence.fields, fenceReceipt := after.evidence.fenceReceipt),
                          updatedAt := after.updatedAt)
    ensures Inv(after)
  {
    hide Committed, Cursor, LastRollbackEntry, FollowPlan, Position, RequiredPhases, ReceiptPhase, State.Valid;
    SameLogSameChain(op, after);
    SameLogSameOrder(op, after);
    hide ChainedLog, RecoveryOrder, PrimaryOrder, LookBackFindsPhase, NoReceiptTwice;
  }

  lemma SameLogSameChain(op: Record, after: Record)
    requires ChainedLog(op) && after.state == op.state && after.evidence.transitions == op.evidence.transitions
    ensures ChainedLog(after)
  {
  }

  lemma SameLogSameOrder(op: Record, after: Record)
    requires PrimaryOrder(op) && RecoveryOrder(op)
    requires after.state == op.state && after.kind == op.kind && after.release == op.release
    requires after.evidence.transitions == op.evidence.transitions && after.evidence.recovery == op.evidence.recovery
    ensures PrimaryOrder(after) && RecoveryOrder(after)
  {
    hide Committed, Cursor, LastRollbackEntry, FollowPlan, Position, RequiredPhases;
  }

  // ---------------------------------------------------------------- whole runs

  datatype TimedCall = TimedCall(call: Call, at: int)

  /** A run of calls; a call that fails leaves the stored record as it was. */
  ghost function Run(op: Record, calls: seq<TimedCall>): Record {
    if calls == [] then op
    else
      var before := Run(op, calls[..|calls| - 1]);
      var last := calls[|calls| - 1];
      match After(before, last.call, last.at)
      case Ok(after) => after
      case Err(_) => before
  }

  lemma AdmittedInv(op: Record)
    requires Admitted(op)
    ensures Inv(op)
  {
    PositionInDistinct(RequiredPhases(op.kind, op.release).value, 0);
  }

  /** The invariant holds of every record any run can reach. */
  lemma {:induction false} EveryRunKeepsInv(op: Record, calls: seq<TimedCall>)
    requires Admitted(op)
    ensures Inv(Run(op, calls))
  {
    hide Inv;
    if calls == [] {
      AdmittedInv(op);
    } else {
      var last := calls[|calls| - 1];
      EveryRunKeepsInv(op, calls[..|calls| - 1]);
      var before := Run(op, calls[..|calls| - 1]);
      if After(before, last.call, last.at).Ok? { CallKeepsInv(before, last.call, last.at); }
    }
  }

  /** An attempt that has ended is never changed by any further call, successful or not. */
  lemma {:induction false} EndedAttemptsNeverChange(op: Record, calls: seq<TimedCall>)
    requires op.state.result != Running
    ensures Run(op, calls) == op
  {
    if calls != [] {
      EndedAttemptsNeverChange(op, calls[..|calls| - 1]);
      EndedCallChangesNothing(op, calls[|calls| - 1].call, calls[|calls| - 1].at);
    }
  }

  lemma EndedCallChangesNothing(op: Record, c: Call, at: int)
    requires op.state.result != Running
    ensures After(op, c, at).Ok? ==> After(op, c, at).value == op
  {
    hide Persist, NextState, MergeArtifacts, HasCommittedMutation, HasCommittedPhase, ValidForPhase;
  }

  /** No attempt ends failed, cancelled or superseded after a receipt for a mutating phase. */
  lemma EarlyEndingsPrecedeMutation(op: Record, calls: seq<TimedCall>)
    requires Admitted(op)
    requires Run(op, calls).state.result in {Failed, Cancelled, Superseded}
    ensures forall d :: d in Committed(Run(op, calls).evidence.transitions) ==>
              !CrossesMutationBoundary(d.payload.phase)
  {
    EveryRunKeepsInv(op, calls);
  }

  /** A deployment ends rolled back only by deploying and then completing the recovery branch. */
  lemma RolledBackOnlyThroughRecovery(op: Record, calls: seq<TimedCall>)
    requires Admitted(op) && op.kind == Deploy
    requires Run(op, calls).state.result == RolledBack
    ensures CompletedRecovery(Run(op, calls).evidence.transitions)
  {
    hide Inv;
    EveryRunKeepsInv(op, calls);
    IdentityKept(op, calls);
    InvParts(Run(op, calls));
    RecoveryOrderCompletes(Run(op, calls));
  }

  /** Before the last rollback entry Deploying had been committed, and since it exactly the recovery phases. */
  ghost predicate CompletedRecovery(ts: seq<Transition>) {
    && LastRollbackEntry(ts).Some?
    && var k := LastRollbackEntry(ts).value;
    && (exists d :: d in Committed(ts[..k]) && d.payload.phase == Deploying)
    && FollowPlan(Committed(ts[k..]), RECOVERY_PHASES, 3, RollbackRecovery)
  }

  lemma RecoveryOrderCompletes(op: Record)
    requires RecoveryOrder(op) && op.kind == Deploy && op.state.result == RolledBack
    ensures CompletedRecovery(op.evidence.transitions)
  {
    hide FollowPlan, Committed, Position;
  }

  /** Without rollback recovery, the receipts are the plan, in order, up to the current phase. */
  lemma ReceiptsFollowThePlan(op: Record, calls: seq<TimedCall>)
    requires Admitted(op)
    requires LastRollbackEntry(Run(op, calls).evidence.transitions).None?
    ensures var after := Run(op, calls);
            var plan := RequiredPhases(op.kind, op.release).value;
            if Finished(after) then FollowPlan(Committed(after.evidence.transitions), plan, |plan|, Primary)
            else exists k :: 0 <= k < |plan| && plan[k] == Cursor(after.evidence.transitions)
                   && FollowPlan(Committed(after.evidence.transitions), plan, k, Primary)
  {
    hide Committed, Cursor, FollowPlan, Inv;
    EveryRunKeepsInv(op, calls);
    IdentityKept(op, calls);
    var after := Run(op, calls);
    var ts := after.evidence.transitions;
    PrimaryOrderOf(after);
    var plan := RequiredPhases(op.kind, op.release).value;
    if !Finished(after) {
      var k := Position(plan, Cursor(ts)).value;
      assert plan[k] == Cursor(ts);
    }
  }

  lemma PrimaryOrderOf(op: Record)
    requires Inv(op)
    ensures PrimaryOrder(op)
  {
  }

  /** No call changes which request, attempt, plan or source generation a record belongs to. */
  ghost predicate SameIdentity(a: Record, b: Record) {
    && a.operation == b.operation && a.request == b.request && a.attempt == b.attempt
    && a.number == b.number && a.project == b.project && a.kind == b.kind
    && a.commit == b.commit && a.release == b.release && a.actor == b.actor && a.createdAt == b.createdAt
    && a.evidence.policy == b.evidence.policy
    && a.evidence.sourceAttestation == b.evidence.sourceAttestation
    && a.evidence.sourceSequence == b.evidence.sourceSequence
    && a.evidence.actionGrant == b.evidence.actionGrant
  }

  lemma CallKeepsIdentity(op: Record, c: Call, at: int)
    ensures After(op, c, at).Ok? ==> SameIdentity(op, After(op, c, at).value)
  {
    hide NextState, HasCommittedMutation, HasCommittedPhase, ValidForPhase, RequireRollback;
    match c
    case CommitReceipt(receipt) =>
    case CommitReconciledReceipt(receipt) =>
    case _ =>
  }

  lemma {:induction false} IdentityKept(op: Record, calls: seq<TimedCall>)
    ensures SameIdentity(op, Run(op, calls))
  {
    hide After;
    if calls != [] {
      var last := calls[|calls| - 1];
      IdentityKept(op, calls[..|calls| - 1]);
      CallKeepsIdentity(Run(op, calls[..|calls| - 1]), last.call, last.at);
    }
  }

  // ---------------------------------------------------------------- which plans can be finished

  /** A receipt for one phase carrying just the evidence that phase requires. */
  ghost function PlainReceipt(op: Record, p: Phase): Receipt {
    var artifacts := Artifacts(None, map f | f in RequiredFields(p) :: Value(0));
    var payload := ReceiptPayload(op.attempt, p, Primary, 0, 0, artifacts, 0);
    Receipt(payload, Sha256(payload))
  }

  ghost function PlanCalls(op: Record, plan: seq<Phase>, k: nat): (calls: seq<TimedCall>)
    requires k <= |plan|
    ensures |calls| == k
  {
    if k == 0 then []
    else PlanCalls(op, plan, k - 1) + [TimedCall(CommitReceipt(PlainReceipt(op, plan[k - 1])), 0)]
  }

  /** Where an attempt is after the first k plan receipts have been committed one by one. */
  ghost predicate AfterPlanReceipts(op: Record, plan: seq<Phase>, k: nat)
    requires 0 < |plan|
  {
    && k <= |plan|
    && op.state == (if k < |plan| then State(plan[k], Running, NoBlock)
                    else State(plan[|plan| - 1], Succeeded, NoBlock))
    && |op.evidence.transitions| == k
    && op.capsule.None? && op.evidence.recovery.None? && op.evidence.specs == []
    && (forall f :: f in op.evidence.fields ==> op.evidence.fields[f] == Value(0))
    && (forall i :: 0 <= i < k ==>
                      && op.evidence.transitions[i].receipt.Some?
                      && op.evidence.transitions[i].receipt.value.payload.phase == plan[i])
  }

  lemma PlanNext(op: Record, plan: seq<Phase>, k: nat)
    requires RequiredPhases(op.kind, op.release) == Some(plan) && op.kind != CodeRollback
    requires k < |plan|
    ensures |plan| <= 13
    ensures NextState(op, PlainReceipt(op, plan[k]).payload, false)
         == Ok(if k + 1 < |plan| then State(plan[k + 1], Running, NoBlock) else State(plan[k], Succeeded, NoBlock))
  {
    PlansAreShort(op, plan);
    PositionInDistinct(plan, k);
    hide RequiredPhases, Position, PermitsTransition, WellFormedPlan;
    if k + 1 < |plan| { NextIsPermitted(op, plan, k); }
  }

  lemma PlansAreShort(op: Record, plan: seq<Phase>)
    requires RequiredPhases(op.kind, op.release) == Some(plan)
    ensures |plan| <= 13
  {
    hide WellFormedPlan;
  }

  lemma NextIsPermitted(op: Record, plan: seq<Phase>, k: nat)
    requires RequiredPhases(op.kind, op.release) == Some(plan) && op.kind != CodeRollback && k + 1 < |plan|
    ensures PermitsTransition(plan, plan[k], plan[k + 1])
  {
    hide RequiredPhases;
    assert plan[k + 1] in plan;
  }

  lemma PlanReceiptAccepted(op: Record, plan: seq<Phase>, k: nat)
    requires RequiredPhases(op.kind, op.release) == Some(plan) && op.kind != CodeRollback
    requires AfterPlanReceipts(op, plan, k) && k < |plan|
    ensures var r := AfterCommitReceipt(op, PlainReceipt(op, plan[k]), 0);
            r.Ok? && AfterPlanReceipts(r.value, plan, k + 1)
  {
    hide RequiredPhases, Position, NextState, MergeArtifacts, RequiredFields, OwnedFields;
    var receipt := PlainReceipt(op, plan[k]);
    PlanNext(op, plan, k);
    assert !HasReceipt(op, receipt.digest);
    PlainMerge(op.evidence, receipt.payload.artifacts, plan[k]);
    assert ValidForPhase(receipt.payload.artifacts, plan[k]) by {
      assert receipt.payload.artifacts.fields.Keys == RequiredFields(plan[k]);
    }
  }

  lemma PlainMerge(e: Evidence, a: Artifacts, p: Phase)
    requires forall f :: f in e.fields ==> e.fields[f] == Value(0)
    requires a == Artifacts(None, map f | f in RequiredFields(p) :: Value(0))
    ensures var m := MergeArtifacts(e, a, p, Primary, false);
            && m.Some?
            && m.value == e.(fields := m.value.fields)
            && forall f :: f in m.value.fields ==> m.value.fields[f] == Value(0)
  {
  }

  lemma NothingCommitted(op: Record, plan: seq<Phase>)
    requires Admitted(op) && op.evidence.fields == map[] && RequiredPhases(op.kind, op.release) == Some(plan)
    ensures 0 < |plan| && AfterPlanReceipts(op, plan, 0)
  {
    hide Position;
  }

  lemma {:induction false} PlanRunsToTheEnd(op: Record, plan: seq<Phase>, k: nat)
    requires Admitted(op) && op.evidence.fields == map[]
    requires RequiredPhases(op.kind, op.release) == Some(plan) && op.kind != CodeRollback
    requires k <= |plan|
    ensures AfterPlanReceipts(Run(op, PlanCalls(op, plan, k)), plan, k)
  {
    hide AfterPlanReceipts, RequiredPhases, Admitted, AfterCommitReceipt;
    if k == 0 {
      NothingCommitted(op, plan);
    } else {
      PlanRunsToTheEnd(op, plan, k - 1);
      var calls := PlanCalls(op, plan, k);
      assert calls[..k - 1] == PlanCalls(op, plan, k - 1);
      IdentityKept(op, calls[..k - 1]);
      PlanReceiptAccepted(Run(op, calls[..k - 1]), plan, k - 1);
    }
  }

  /**
    Some run finishes an attempt's plan exactly when the attempt is not a code rollback: the
    rule for entering the rollback phase asks that the phase before it already crosses the
    mutation boundary, and the code-rollback plan enters it from preflight.
  */
  lemma PlanCanFinishUnlessCodeRollback(op: Record)
    requires Admitted(op) && op.evidence.fields == map[]
    ensures (exists calls: seq<TimedCall> :: Finished(Run(op, calls))) <==> op.kind != CodeRollback
  {
    hide Run, PlanCalls;
    var plan := RequiredPhases(op.kind, op.release).value;
    if op.kind != CodeRollback {
      PlanRunsToTheEnd(op, plan, |plan|);
      assert Finished(Run(op, PlanCalls(op, plan, |plan|)));
    } else {
      forall calls: seq<TimedCall> ensures !Finished(Run(op, calls)) {
        CodeRollbackNeverLeavesPreflight(op, calls);
      }
    }
  }

  lemma CodeRollbackNeverLeavesPreflight(op: Record, calls: seq<TimedCall>)
    requires Admitted(op) && op.kind == CodeRollback
    ensures Cursor(Run(op, calls).evidence.transitions) in {Queued, Preflight}
    ensures !Finished(Run(op, calls))
  {
    EveryRunKeepsInv(op, calls);
    IdentityKept(op, calls);
  }

  /** The refusal itself, on the one receipt that would take the attempt out of preflight. */
  lemma PreflightReceiptRefused(op: Record, receipt: Receipt, at: int)
    requires op.kind == CodeRollback && op.release == Some(RollbackRelease)
    requires op.state == State(Preflight, Running, NoBlock) && op.evidence.recovery.None?
    requires receipt.HasValidDigest() && receipt.payload.phase == Preflight && receipt.payload.branch == Primary
    requires ValidForPhase(receipt.payload.artifacts, Preflight) && !HasReceipt(op, receipt.digest)
    ensures AfterCommitReceipt(op, receipt, at) == Err(TransitionRejected)
  {
    hide ValidForPhase, HasReceipt, MergeArtifacts, Persist, Position, RequiredPhases;
    PreflightNext(op, receipt.payload);
  }

  lemma PreflightNext(op: Record, p: ReceiptPayload)
    requires op.kind == CodeRollback && op.release == Some(RollbackRelease) && p.phase == Preflight
             && p.branch == Primary
    ensures NextState(op, p, false) == Err(TransitionRejected)
  {
    PlansAreWellFormed();
    PositionInDistinct(CODE_ROLLBACK_PHASES, 1);
    hide Position, WellFormedPlan;
  }
}
