/**
  The durable controller as an object: five tables, updated in place by one transaction per
  public call.  Every method refines the step of the same name in AdmissionStore, keeps the
  tables sound, and never changes an ended attempt.
*/
module DurableController {
  import opened Domain
  import opened AttemptLifecycle
  import opened AdmissionStore
  import opened AdmissionInvariants
  import AttemptInvariants

  /** No row is lost, and rows of ended attempts stay exactly as they are. */
  ghost predicate EndedRowsKept(before: seq<Record>, after: seq<Record>) {
    && |before| <= |after|
    && forall i :: 0 <= i < |before| ==>
                     && after[i].attempt == before[i].attempt
                     && (before[i].state.result != Running ==> after[i] == before[i])
  }

  /** Whoever holds a fence receipt holds its epoch. */
  ghost predicate FenceHasEpoch(op: Record) {
    op.evidence.fenceReceipt.Some? ==> FencingEpoch in op.evidence.fields
  }

  ghost predicate FencesHaveEpochs(attempts: seq<Record>) {
    forall i :: 0 <= i < |attempts| ==> FenceHasEpoch(attempts[i])
  }

  const SOURCE_REASONS: set<BlockingReason> :=
    {SourceDivergence, SourceBrokerUnavailable, SourceAttestationInvalid, OperatorHold}

  ghost function BlockCall(reason: BlockingReason, needsSource: bool): Call {
    if needsSource then SetSourceBlock(reason) else SetDiskBlock
  }

  class DurableController {
    var leases: map<nat, Lease>
    var requests: map<RequestKey, nat>
    var attempts: seq<Record>
    var grants: map<nat, GrantRow>
    var deliveries: map<DeliveryKey, DeliveryRow>

    constructor ()
      ensures View() == EMPTY_STORE && Valid()
    {
      leases, requests, attempts, grants, deliveries := map[], map[], [], map[], map[];
      new;
      EveryRunIsSound([], 0);
    }

    ghost function View(): Store
      reads this
    {
      Store(leases, requests, attempts, grants, deliveries)
    }

    ghost predicate Valid()
      reads this
    {
      StoreInv(View()) && FencesHaveEpochs(attempts)
    }

    // -------------------------------------------------------------- queries

    /** The highest-numbered attempt of a request, by one pass over the table. */
    method LatestAttempt(request: nat) returns (latest: Option<Record>)
      ensures latest == Latest(attempts, request)
      ensures latest.Some? ==> forall i :: 0 <= i < |attempts| && attempts[i].request == request ==>
                attempts[i].number <= latest.value.number
    {
      latest := None;
      for i := 0 to |attempts|
        invariant latest == Latest(attempts[..i], request)
      {
        assert attempts[..i + 1][..i] == attempts[..i];
        var row := attempts[i];
        if row.request == request && (latest.None? || latest.value.number < row.number) { latest := Some(row); }
      }
      assert attempts[..|attempts|] == attempts;
      forall i | 0 <= i < |attempts| && attempts[i].request == request
        ensures latest.Some? && attempts[i].number <= latest.value.number
      {
        LatestIsHighest(attempts, request, i);
      }
    }

    /** How many attempts of a request carry a source sequence. */
    method CountAttempts(request: nat, sequence: nat) returns (count: nat)
      ensures count == CountForSequence(attempts, request, sequence)
    {
      count := 0;
      for i := 0 to |attempts|
        invariant count == CountForSequence(attempts[..i], request, sequence)
      {
        assert attempts[..i + 1][..i] == attempts[..i];
        if attempts[i].request == request && attempts[i].evidence.sourceSequence == Some(sequence) {
          count := count + 1;
        }
      }
      assert attempts[..|attempts|] == attempts;
    }

    method LoadAttempt(attempt: nat) returns (row: Option<nat>)
      requires AttemptIdsDistinct(attempts)
      ensures row == Find(attempts, attempt)
    {
      for i := 0 to |attempts|
        invariant forall j :: 0 <= j < i ==> attempts[j].attempt != attempt
      {
        if attempts[i].attempt == attempt {
          FindIsUnique(attempts, i);
          return Some(i);
        }
      }
      return None;
    }

    // -------------------------------------------------------------- leases

    method Takeover(user: nat, leaseId: nat, acquiredAt: int, expiresAt: int) returns (r: Result<nat, AdmissionError>)
      requires Valid()
      modifies this`leases
      ensures Valid() && View() == Step(old(View()), StoreCall.Takeover(user, leaseId, acquiredAt, expiresAt))
      ensures r.Ok? ==> user in leases && leases[user] == Lease(leaseId, r.value, acquiredAt, expiresAt)
      ensures r.Ok? && user in old(leases) ==> old(leases)[user].generation < r.value
      ensures r.Err? ==> leases == old(leases)
    {
      hide StoreInv;
      ghost var before := View();
      if user == 0 || leaseId == 0 || expiresAt <= acquiredAt { return Err(InvalidControllerInput); }
      var generation := 1;
      if user in leases { generation := leases[user].generation + 1; }
      if generation > MAX_I64 { return Err(InvalidControllerInput); }
      if exists u :: u in leases && u != user && leases[u].leaseId == leaseId { return Err(UniquenessViolated); }
      leases := leases[user := Lease(leaseId, generation, acquiredAt, expiresAt)];
      LeasesDoNotMatter(before, View());
      return Ok(generation);
    }

    // -------------------------------------------------------------- interactive admission

    /** Admit anything but a deployment for an interactive user. */
    method AdmitInteractive(o: NewOperation, lease: LeaseClaim, grant: GrantClaims, at: int, ids: FreshIds)
      returns (r: Result<Reply, AdmissionError>)
      requires Valid()
      modifies this
      ensures Valid() && View() == Step(old(View()), Interact(o, lease, grant, at, ids))
      ensures OptionOf(r) == ReplyTo(old(View()), Interact(o, lease, grant, at, ids))
      ensures EndedRowsKept(old(attempts), attempts)
    {
      if o.kind == Deploy { return Err(SourceAdmissionRequired); }
      r := AdmitInner(o, lease, grant, None, at, ids);
    }

    /** Admit a deployment whose source head has been verified. */
    method AdmitDeploy(o: NewOperation, head: nat, source: SourceEvidence, lease: LeaseClaim, grant: GrantClaims,
                       at: int, ids: FreshIds)
      returns (r: Result<Reply, AdmissionError>)
      requires Valid()
      modifies this
      ensures Valid() && View() == Step(old(View()), InteractDeploy(o, head, source, lease, grant, at, ids))
      ensures OptionOf(r) == ReplyTo(old(View()), InteractDeploy(o, head, source, lease, grant, at, ids))
      ensures EndedRowsKept(old(attempts), attempts)
    {
      if o.kind != Deploy || o.commit != Some(head) || source.sequence == 0 { return Err(SourceAdmissionRequired); }
      r := AdmitInner(o, lease, grant, Some(source), at, ids);
    }

    method AdmitInner(o: NewOperation, lease: LeaseClaim, grant: GrantClaims, source: Option<SourceEvidence>, at: int,
                      ids: FreshIds)
      returns (r: Result<Reply, AdmissionError>)
      requires Valid() && SourceMatchesKind(o, source)
      modifies this
      ensures Valid()
      ensures var spec := AdmissionStore.AdmitInteractive(old(View()), o, lease, grant, source, at, ids);
              View() == StoreOf(old(View()), spec) && OptionOf(r) == ReplyOf(spec)
      ensures EndedRowsKept(old(attempts), attempts)
    {
      hide StoreInv, ValidateOperation, ValidateGrant, ValidateLease, DecideInteractive, FindOrCreateRequest,
        InsertAttempt, NewRecord, SourceMatchesKind, Find, Latest, AttemptIdsDistinct, EndedRowsKept;
      ghost var before := View();
      NothingLost(attempts);
      ghost var spec := AdmissionStore.AdmitInteractive(before, o, lease, grant, source, at, ids);
      if spec.Ok? { InteractiveKeepsStoreInv(before, o, lease, grant, source, at, ids); }
      DistinctIds(before);
      var invalid := ValidateOperation(o);
      if invalid.Some? { return Err(invalid.value); }
      invalid := ValidateGrant(o, lease, grant, at);
      if invalid.Some? { return Err(invalid.value); }
      invalid := ValidateLease(leases, lease, at);
      if invalid.Some? { return Err(invalid.value); }
      if grant.nonce in grants {
        var row := LoadAttempt(grants[grant.nonce].attempt);
        if row.Some? {
          if grants[grant.nonce].digest != grant.digest { return Err(GrantReplay); }
          return Ok(Existing(attempts[row.value]));
        }
      }
      var request := FindOrCreateRequest(Store(leases, requests, attempts, grants, deliveries), o, ids);
      if request.Err? { return Err(request.error); }
      var latest := LatestAttempt(request.value.request);
      var decision := DecideInteractive(request.value.request, latest, grant, source);
      if decision.Err? { return Err(decision.error); }
      if decision.value.Reuse? {
        requests := request.value.requests;
        return Ok(Existing(decision.value.record));
      }
      var record := NewRecord(request.value.request, o, decision.value.number, Interactive(lease.user),
                              Some(grant.digest), source, at, ids);
      var inserted := InsertAttempt(attempts, record);
      if inserted.Err? { return Err(inserted.error); }
      if grant.nonce in grants { return Err(UniquenessViolated); }
      InsertAppends(attempts, record);
      NewRecordsHoldNoFence(attempts, record);
      AppendLosesNothing(attempts, record);
      requests := request.value.requests;
      attempts := inserted.value;
      grants := grants[grant.nonce := GrantRow(grant.digest, request.value.request, record.attempt)];
      return Ok(Created(record));
    }

    // -------------------------------------------------------------- automated admission

    method AdmitAutomation(a: AutomationAdmission, at: int, ids: FreshIds) returns (r: Result<Reply, AdmissionError>)
      requires Valid()
      modifies this
      ensures Valid() && View() == Step(old(View()), Automate(a, at, ids))
      ensures OptionOf(r) == ReplyTo(old(View()), Automate(a, at, ids))
      ensures EndedRowsKept(old(attempts), attempts)
    {
      hide StoreInv, ValidateAutomation, FindOrCreateRequest, InsertAttempt, NewRecord, CountForSequence;
      ghost var before := View();
      StepKeepsStoreInv(before, Automate(a, at, ids));
      var invalid := ValidateAutomation(a);
      if invalid.Some? { return Err(invalid.value); }
      var key := DeliveryKey(a.channel, a.deliveryId);
      if key in deliveries {
        if deliveries[key].payload != a.payload { return Err(DeliveryConflict); }
        var replayed := LatestAttempt(deliveries[key].request);
        if replayed.None? { return Err(CorruptDelivery); }
        return Ok(Existing(replayed.value));
      }
      var request := FindOrCreateRequest(Store(leases, requests, attempts, grants, deliveries), a.operation, ids);
      if request.Err? { return Err(request.error); }
      var latest := LatestAttempt(request.value.request);
      var decision := Decide(request.value.request, latest, a);
      if decision.Err? { return Err(decision.error); }
      hide DecideAutomation;
      if decision.value.Create? {
        var record := NewRecord(request.value.request, a.operation, decision.value.number, Automation(a.channel), None,
                                Some(a.source), at, ids);
        var inserted := InsertAttempt(attempts, record);
        if inserted.Err? { return Err(inserted.error); }
        InsertAppends(attempts, record);
      NewRecordsHoldNoFence(attempts, record);
        attempts := inserted.value;
        r := Ok(Created(record));
      } else {
        r := Ok(Existing(decision.value.record));
      }
      requests := request.value.requests;
      deliveries := deliveries[key := DeliveryRow(a.payload, request.value.request)];
    }

    /** The decision of automated admission; the attempts already spent are counted only for a retry. */
    method Decide(request: nat, latest: Option<Record>, a: AutomationAdmission)
      returns (r: Result<Decision, AdmissionError>)
      ensures r == DecideAutomation(attempts, request, latest, a)
    {
      if latest.None? { return Ok(Create(1)); }
      var known := latest.value.evidence.sourceSequence;
      if known.None? { return Err(CorruptSequence); }
      if a.source.sequence < known.value { return Err(StaleSourceSequence); }
      if latest.value.state.result in {ManualRecoveryRequired, RollbackFailed} { return Err(RecoveryRequired); }
      var next := NextNumber(latest.value.number);
      if next.Err? { return Err(next.error); }
      if a.source.sequence > known.value { return Ok(Create(next.value)); }
      if latest.value.state.result in {Running, Succeeded, RolledBack, Superseded} { return Ok(Reuse(latest.value)); }
      var spent := CountAttempts(request, a.source.sequence);
      if spent >= a.maximumAttempts { return Err(AutomationRejected); }
      return Ok(Create(next.value));
    }

    // -------------------------------------------------------------- calls on one attempt

    /** Store the record in its next state, with one more entry in its log. */
    method PersistTransition(row: nat, operation: Record, next: State, receipt: Option<ReceiptDigest>, at: int)
      returns (r: Result<Record, UpdateError>)
      requires row < |attempts|
      modifies this`attempts
      ensures match Persist(operation, next, receipt, at)
              case Ok(record) => attempts == old(attempts)[row := record] && r == Ok(record)
              case Err(e) => attempts == old(attempts) && r == Err(Rejected(e))
    {
      if !next.Valid() { return Err(Rejected(InvalidState)); }
      if operation.capsule.Some? && !operation.capsule.value.wellFormed { return Err(Rejected(CorruptCapsule)); }
      var ts := operation.evidence.transitions;
      if |ts| + 1 > MAX_SEQUENCE { return Err(Rejected(SequenceOverflow)); }
      var entry := Transition(|ts| + 1, operation.state, next, receipt, at);
      var record := operation.(state := next, updatedAt := at,
                               evidence := operation.evidence.(transitions := ts + [entry]));
      attempts := attempts[row := record];
      return Ok(record);
    }

    /** Commit a phase receipt: replayed, merged into the evidence and appended to the log. */
    method CommitPhaseReceipt(receipt: Receipt, at: int) returns (r: Result<Record, UpdateError>)
      requires Valid()
      modifies this`attempts
      ensures Valid() && View() == Step(old(View()), OnAttempt(receipt.payload.attempt, CommitReceipt(receipt), at))
      ensures RecordOf(r) == UpdatedBy(old(View()), receipt.payload.attempt, CommitReceipt(receipt), at)
      ensures EndedRowsKept(old(attempts), attempts)
    {
      hide StoreInv, Inv, Step, UpdatedBy, UpdateAttempt, EndedRowsKept, Find, AttemptIdsDistinct, NextState,
        MergeArtifacts, Persist, ValidForPhase, HasReceipt;
      ghost var before := View();
      UpdateFacts(before, receipt.payload.attempt, CommitReceipt(receipt), at);
      if !receipt.HasValidDigest() { return Err(Rejected(ReceiptDigestMismatch)); }
      if !ValidForPhase(receipt.payload.artifacts, receipt.payload.phase) { return Err(Rejected(ArtifactContract)); }
      var row := LoadAttempt(receipt.payload.attempt);
      if row.None? { return Err(NotFound); }
      var operation := attempts[row.value];
      var replayed := FindReceipt(operation, receipt.digest);
      if replayed { return Ok(operation); }
      if operation.state.result != Running || operation.state.phase != receipt.payload.phase {
        return Err(Rejected(ReceiptMismatch));
      }
      var inRollback := operation.evidence.recovery == Some(RollbackMode);
      var next := NextState(operation, receipt.payload, inRollback);
      if next.Err? { return Err(Rejected(next.error)); }
      var merged := MergeArtifacts(operation.evidence, receipt.payload.artifacts, receipt.payload.phase,
                                   receipt.payload.branch, inRollback);
      if merged.None? { return Err(Rejected(ArtifactConflict)); }
      operation := operation.(evidence := merged.value);
      r := PersistTransition(row.value, operation, next.value, Some(receipt.digest), at);
    }

    /** Roll a deployment back: allowed once it has committed its deployment, and idempotent until recovery advances. */
    method BeginRollback(attempt: nat, at: int) returns (r: Result<Record, UpdateError>)
      requires Valid()
      modifies this`attempts
      ensures Valid() && View() == Step(old(View()), OnAttempt(attempt, Call.BeginRollback, at))
      ensures RecordOf(r) == UpdatedBy(old(View()), attempt, Call.BeginRollback, at)
      ensures EndedRowsKept(old(attempts), attempts)
    {
      hide StoreInv, Inv, Step, UpdatedBy, UpdateAttempt, EndedRowsKept, Find, AttemptIdsDistinct, Persist,
        HasCommittedPhase;
      ghost var before := View();
      UpdateFacts(before, attempt, Call.BeginRollback, at);
      var row := LoadAttempt(attempt);
      if row.None? { return Err(NotFound); }
      var operation := attempts[row.value];
      if operation.evidence.recovery == Some(RollbackMode) {
        if operation.state.phase != Rollback || operation.state.result != Running {
          return Err(Rejected(TransitionRejected));
        }
        return Ok(operation);
      }
      var deployed := FindPhase(operation, Deploying);
      if || operation.kind != Deploy
         || operation.state.result != Running
         || !CrossesMutationBoundary(operation.state.phase)
         || !deployed
         || operation.release !in {Some(CodeOnlyCompatible), Some(StatefulCompatible)} {
        return Err(Rejected(TransitionRejected));
      }
      operation := operation.(evidence := operation.evidence.(recovery := Some(RollbackMode)));
      r := PersistTransition(row.value, operation, State(Rollback, Running, NoBlock), None, at);
    }

    /** Commit the receipt of the phase reconciliation was entered from, and leave reconciliation. */
    method CommitReconciledPhaseReceipt(receipt: Receipt, at: int) returns (r: Result<Record, UpdateError>)
      requires Valid()
      modifies this`attempts
      ensures Valid()
      ensures View() == Step(old(View()), OnAttempt(receipt.payload.attempt, CommitReconciledReceipt(receipt), at))
      ensures RecordOf(r) == UpdatedBy(old(View()), receipt.payload.attempt, CommitReconciledReceipt(receipt), at)
      ensures EndedRowsKept(old(attempts), attempts)
    {
      hide StoreInv, Inv, Step, UpdatedBy, UpdateAttempt, EndedRowsKept, Find, AttemptIdsDistinct, Persist, NextState,
        MergeArtifacts, ValidForPhase, ReceiptPhase;
      ghost var before := View();
      UpdateFacts(before, receipt.payload.attempt, CommitReconciledReceipt(receipt), at);
      if !receipt.HasValidDigest() { return Err(Rejected(ReceiptDigestMismatch)); }
      if !ValidForPhase(receipt.payload.artifacts, receipt.payload.phase) { return Err(Rejected(ArtifactContract)); }
      var row := LoadAttempt(receipt.payload.attempt);
      if row.None? { return Err(NotFound); }
      var operation := attempts[row.value];
      var ts := operation.evidence.transitions;
      var index := FirstWithReceipt(operation, receipt);
      if index.Some? {
        if ts[index.value].from.phase == Reconciliation
           && ReceiptPhase(ts, index.value) == Some(receipt.payload.phase) {
          return Ok(operation);
        }
        return Err(Rejected(ReceiptMismatch));
      }
      if || operation.state.result != Running
         || operation.state.phase != Reconciliation
         || operation.evidence.recovery != Some(ReconciliationMode)
         || receipt.payload.branch != Primary { return Err(Rejected(ReceiptMismatch)); }
      if !EnteredReconciliationFrom(ts, receipt.payload.phase) { return Err(Rejected(ReceiptMismatch)); }
      var next := NextState(operation, receipt.payload, false);
      if next.Err? { return Err(Rejected(next.error)); }
      var merged := MergeArtifacts(operation.evidence, receipt.payload.artifacts, receipt.payload.phase,
                                   receipt.payload.branch, false);
      if merged.None? { return Err(Rejected(ArtifactConflict)); }
      operation := operation.(evidence := merged.value.(recovery := None), capsule := None);
      r := PersistTransition(row.value, operation, next.value, Some(receipt.digest), at);
    }

    /** Hold a running attempt for reconciliation. */
    method MarkNeedsReconcile(attempt: nat, capsule: Capsule, at: int) returns (r: Result<Record, UpdateError>)
      requires Valid()
      modifies this`attempts
      ensures Valid() && View() == Step(old(View()), OnAttempt(attempt, Call.MarkNeedsReconcile(capsule), at))
      ensures RecordOf(r) == UpdatedBy(old(View()), attempt, Call.MarkNeedsReconcile(capsule), at)
      ensures EndedRowsKept(old(attempts), attempts)
    {
      hide StoreInv, Inv, Step, UpdatedBy, UpdateAttempt, EndedRowsKept, Find, AttemptIdsDistinct, Persist;
      ghost var before := View();
      UpdateFacts(before, attempt, Call.MarkNeedsReconcile(capsule), at);
      if !capsule.wellFormed { return Err(Rejected(InvalidInput)); }
      var row := LoadAttempt(attempt);
      if row.None? { return Err(NotFound); }
      var operation := attempts[row.value];
      if operation.state.phase == Reconciliation && operation.state.result == Running { return Ok(operation); }
      if operation.state.result != Running { return Err(Rejected(TransitionRejected)); }
      operation := operation.(evidence := operation.evidence.(recovery := Some(ReconciliationMode)),
                              capsule := Some(capsule));
      r := PersistTransition(row.value, operation, State(Reconciliation, Running, SecurityStateInvalid), None, at);
    }

    /** Block a deployment on its source, as long as nothing has been mutated. */
    method SetSourceBlock(attempt: nat, reason: BlockingReason, at: int) returns (r: Result<Record, UpdateError>)
      requires Valid()
      modifies this`attempts
      ensures Valid() && View() == Step(old(View()), OnAttempt(attempt, Call.SetSourceBlock(reason), at))
      ensures RecordOf(r) == UpdatedBy(old(View()), attempt, Call.SetSourceBlock(reason), at)
      ensures EndedRowsKept(old(attempts), attempts)
    {
      hide StoreInv, AfterPreMutationBlock;
      if reason !in SOURCE_REASONS { return Err(Rejected(InvalidInput)); }
      r := SetPreMutationBlock(attempt, reason, true, at);
    }

    /** Block an attempt on disk space, as long as nothing has been mutated. */
    method SetDiskBlock(attempt: nat, at: int) returns (r: Result<Record, UpdateError>)
      requires Valid()
      modifies this`attempts
      ensures Valid() && View() == Step(old(View()), OnAttempt(attempt, Call.SetDiskBlock, at))
      ensures RecordOf(r) == UpdatedBy(old(View()), attempt, Call.SetDiskBlock, at)
      ensures EndedRowsKept(old(attempts), attempts)
    {
      r := SetPreMutationBlock(attempt, DiskReserve, false, at);
    }

    /** A block already there stays, unless it is the broker being away. */
    method SetPreMutationBlock(attempt: nat, reason: BlockingReason, needsSource: bool, at: int)
      returns (r: Result<Record, UpdateError>)
      requires if needsSource then reason in SOURCE_REASONS else reason == DiskReserve
      requires Valid()
      modifies this`attempts
      ensures Valid() && View() == Step(old(View()), OnAttempt(attempt, BlockCall(reason, needsSource), at))
      ensures RecordOf(r) == UpdatedBy(old(View()), attempt, BlockCall(reason, needsSource), at)
      ensures EndedRowsKept(old(attempts), attempts)
    {
      hide StoreInv, Inv, Step, UpdatedBy, UpdateAttempt, EndedRowsKept, Find, AttemptIdsDistinct, Persist,
        HasCommittedMutation;
      ghost var before := View();
      UpdateFacts(before, attempt, BlockCall(reason, needsSource), at);
      var row := LoadAttempt(attempt);
      if row.None? { return Err(NotFound); }
      var operation := attempts[row.value];
      var mutated := FindMutation(operation);
      if || operation.state.result != Running
         || (needsSource && !HasTrustedSourceAdmission(operation))
         || mutated { return Err(Rejected(TransitionRejected)); }
      if operation.state.block == reason { return Ok(operation); }
      if operation.state.block != NoBlock && operation.state.block != SourceBrokerUnavailable { return Ok(operation); }
      r := PersistTransition(row.value, operation, State(operation.state.phase, Running, reason), None, at);
    }

    method SetStatefulCutoverSourceBlock(attempt: nat, at: int) returns (r: Result<Record, UpdateError>)
      requires Valid()
      modifies this`attempts
      ensures Valid() && View() == Step(old(View()), OnAttempt(attempt, SetCutoverBlock, at))
      ensures RecordOf(r) == UpdatedBy(old(View()), attempt, SetCutoverBlock, at)
      ensures EndedRowsKept(old(attempts), attempts)
    {
      hide StoreInv, Inv, Step, UpdatedBy, UpdateAttempt, EndedRowsKept, Find, AttemptIdsDistinct, Persist,
        IsStatefulCutoverRetry;
      ghost var before := View();
      UpdateFacts(before, attempt, SetCutoverBlock, at);
      var row := LoadAttempt(attempt);
      if row.None? { return Err(NotFound); }
      var operation := attempts[row.value];
      if !IsStatefulCutoverRetry(operation) { return Err(Rejected(TransitionRejected)); }
      if operation.state.block == SourceBrokerUnavailable { return Ok(operation); }
      if operation.state.block != NoBlock { return Err(Rejected(TransitionRejected)); }
      r := PersistTransition(row.value, operation, State(operation.state.phase, Running, SourceBrokerUnavailable), None,
                             at);
    }

    method ClearStatefulCutoverSourceBlock(attempt: nat, at: int) returns (r: Result<Record, UpdateError>)
      requires Valid()
      modifies this`attempts
      ensures Valid() && View() == Step(old(View()), OnAttempt(attempt, ClearCutoverBlock, at))
      ensures RecordOf(r) == UpdatedBy(old(View()), attempt, ClearCutoverBlock, at)
      ensures EndedRowsKept(old(attempts), attempts)
    {
      hide StoreInv, Inv, Step, UpdatedBy, UpdateAttempt, EndedRowsKept, Find, AttemptIdsDistinct, Persist,
        IsStatefulCutoverRetry;
      ghost var before := View();
      UpdateFacts(before, attempt, ClearCutoverBlock, at);
      var row := LoadAttempt(attempt);
      if row.None? { return Err(NotFound); }
      var operation := attempts[row.value];
      if !IsStatefulCutoverRetry(operation) { return Err(Rejected(TransitionRejected)); }
      if operation.state.block == NoBlock { return Ok(operation); }
      if operation.state.block != SourceBrokerUnavailable { return Err(Rejected(TransitionRejected)); }
      r := PersistTransition(row.value, operation, State(operation.state.phase, Running, NoBlock), None, at);
    }

    method ClearDiskBlock(attempt: nat, at: int) returns (r: Result<Record, UpdateError>)
      requires Valid()
      modifies this`attempts
      ensures Valid() && View() == Step(old(View()), OnAttempt(attempt, Call.ClearDiskBlock, at))
      ensures RecordOf(r) == UpdatedBy(old(View()), attempt, Call.ClearDiskBlock, at)
      ensures EndedRowsKept(old(attempts), attempts)
    {
      hide StoreInv, Inv, Step, UpdatedBy, UpdateAttempt, EndedRowsKept, Find, AttemptIdsDistinct, Persist,
        HasCommittedMutation;
      ghost var before := View();
      UpdateFacts(before, attempt, Call.ClearDiskBlock, at);
      var row := LoadAttempt(attempt);
      if row.None? { return Err(NotFound); }
      var operation := attempts[row.value];
      var mutated := FindMutation(operation);
      if operation.state.result != Running || operation.state.block != DiskReserve || mutated {
        return Err(Rejected(TransitionRejected));
      }
      r := PersistTransition(row.value, operation, State(operation.state.phase, Running, NoBlock), None, at);
    }

    /** End a deployment because a newer source has been admitted; an ended one stays as it is. */
    method SupersedeSourceAttempt(attempt: nat, capsule: Capsule, at: int) returns (r: Result<Record, UpdateError>)
      requires Valid()
      modifies this`attempts
      ensures Valid() && View() == Step(old(View()), OnAttempt(attempt, Supersede(capsule), at))
      ensures RecordOf(r) == UpdatedBy(old(View()), attempt, Supersede(capsule), at)
      ensures EndedRowsKept(old(attempts), attempts)
    {
      hide StoreInv, Inv, Step, UpdatedBy, UpdateAttempt, EndedRowsKept, Find, AttemptIdsDistinct, Persist,
        HasCommittedMutation, HasTrustedSourceAdmission;
      ghost var before := View();
      UpdateFacts(before, attempt, Supersede(capsule), at);
      if !capsule.wellFormed { return Err(Rejected(InvalidInput)); }
      var row := LoadAttempt(attempt);
      if row.None? { return Err(NotFound); }
      var operation := attempts[row.value];
      if operation.state.result != Running { return Ok(operation); }
      var mutated := FindMutation(operation);
      if !HasTrustedSourceAdmission(operation) || mutated { return Err(Rejected(TransitionRejected)); }
      operation := operation.(capsule := Some(capsule));
      r := PersistTransition(row.value, operation, State(operation.state.phase, Superseded, NoBlock), None, at);
    }

    /** Record that the fence is held, in place: the log does not grow. */
    method RecordFenceAcquisition(attempt: nat, fence: FenceReceipt, at: int) returns (r: Result<Record, UpdateError>)
      requires Valid()
      modifies this`attempts
      ensures Valid() && View() == Step(old(View()), OnAttempt(attempt, RecordFence(fence), at))
      ensures RecordOf(r) == UpdatedBy(old(View()), attempt, RecordFence(fence), at)
      ensures EndedRowsKept(old(attempts), attempts)
    {
      hide StoreInv, Inv, Step, UpdatedBy, UpdateAttempt, EndedRowsKept, Find, AttemptIdsDistinct, Persist, MergeFields;
      ghost var before := View();
      UpdateFacts(before, attempt, RecordFence(fence), at);
      if fence.attempt != attempt || !fence.wellFormed { return Err(Rejected(InvalidInput)); }
      var row := LoadAttempt(attempt);
      if row.None? { return Err(NotFound); }
      var operation := attempts[row.value];
      if operation.state.result != Running || operation.state.phase != CutoverSnapshotting
         || operation.project != fence.project {
        return Err(Rejected(TransitionRejected));
      }
      var fields := MergeFields(operation.evidence.fields, map[FencingEpoch := Value(fence.epoch)]);
      if fields.None? { return Err(Rejected(ArtifactConflict)); }
      if operation.evidence.fenceReceipt == Some(fence.digest) {
        EpochAlreadyThere(operation, fence.epoch);
        return Ok(operation.(evidence := operation.evidence.(fields := fields.value)));
      }
      if operation.evidence.fenceReceipt.Some? { return Err(Rejected(ArtifactConflict)); }
      var evidence := operation.evidence.(fields := fields.value, fenceReceipt := Some(fence.digest));
      operation := operation.(evidence := evidence, updatedAt := at);
      attempts := attempts[row.value := operation];
      return Ok(operation);
    }

    /** End an attempt as failed, which is refused once its phase crosses the mutation boundary. */
    method FailAttempt(attempt: nat, capsule: Capsule, at: int) returns (r: Result<Record, UpdateError>)
      requires Valid()
      modifies this`attempts
      ensures Valid() && View() == Step(old(View()), OnAttempt(attempt, Fail(capsule), at))
      ensures RecordOf(r) == UpdatedBy(old(View()), attempt, Fail(capsule), at)
      ensures EndedRowsKept(old(attempts), attempts)
    {
      hide StoreInv, Inv, Step, UpdatedBy, UpdateAttempt, EndedRowsKept, Find, AttemptIdsDistinct, Persist;
      ghost var before := View();
      UpdateFacts(before, attempt, Fail(capsule), at);
      if !capsule.wellFormed { return Err(Rejected(InvalidInput)); }
      var row := LoadAttempt(attempt);
      if row.None? { return Err(NotFound); }
      var operation := attempts[row.value];
      if operation.state.result != Running { return Ok(operation); }
      if CrossesMutationBoundary(operation.state.phase) { return Err(Rejected(FailureAfterMutation)); }
      operation := operation.(capsule := Some(capsule));
      r := PersistTransition(row.value, operation, State(operation.state.phase, Failed, NoBlock), None, at);
    }

    /** Cancel an attempt, which is refused once its phase crosses the mutation boundary. */
    method CancelBeforeMutation(attempt: nat, at: int) returns (r: Result<Record, UpdateError>)
      requires Valid()
      modifies this`attempts
      ensures Valid() && View() == Step(old(View()), OnAttempt(attempt, Cancel, at))
      ensures RecordOf(r) == UpdatedBy(old(View()), attempt, Cancel, at)
      ensures EndedRowsKept(old(attempts), attempts)
    {
      hide StoreInv, Inv, Step, UpdatedBy, UpdateAttempt, EndedRowsKept, Find, AttemptIdsDistinct, Persist;
      ghost var before := View();
      UpdateFacts(before, attempt, Cancel, at);
      var row := LoadAttempt(attempt);
      if row.None? { return Err(NotFound); }
      var operation := attempts[row.value];
      if operation.state.result != Running { return Ok(operation); }
      if CrossesMutationBoundary(operation.state.phase) { return Err(Rejected(CancellationAfterMutation)); }
      r := PersistTransition(row.value, operation, State(operation.state.phase, Cancelled, NoBlock), None, at);
    }
  }

  // ---------------------------------------------------------------- reading one record's log

  method FindReceipt(op: Record, d: ReceiptDigest) returns (found: bool)
    ensures found == HasReceipt(op, d)
  {
    for i := 0 to |op.evidence.transitions|
      invariant forall j :: 0 <= j < i ==> op.evidence.transitions[j].receipt != Some(d)
    {
      if op.evidence.transitions[i].receipt == Some(d) { return true; }
    }
    return false;
  }

  /** The first log entry with this receipt; being first decides whether the receipt left reconciliation. */
  method FirstWithReceipt(op: Record, receipt: Receipt) returns (index: Option<nat>)
    ensures index.Some? <==> HasReceipt(op, receipt.digest)
    ensures var ts := op.evidence.transitions;
            index.Some? ==>
              && index.value < |ts|
              && (CommittedOutOfReconciliation(ts, receipt) <==>
                    && ts[index.value].from.phase == Reconciliation
                    && ReceiptPhase(ts, index.value) == Some(receipt.payload.phase))
  {
    hide ReceiptPhase;
    var ts := op.evidence.transitions;
    for i := 0 to |ts|
      invariant forall j :: 0 <= j < i ==> ts[j].receipt != Some(receipt.digest)
    {
      if ts[i].receipt == Some(receipt.digest) { return Some(i); }
    }
    return None;
  }

  method FindPhase(op: Record, p: Phase) returns (found: bool)
    ensures found == HasCommittedPhase(op, p)
    ensures LookBackFindsPhase(op.evidence.transitions) ==>
              (found <==> exists d :: d in Committed(op.evidence.transitions) && d.payload.phase == p)
  {
    if LookBackFindsPhase(op.evidence.transitions) { AttemptInvariants.PhaseTestIsExact(op, p); }
    var ts := op.evidence.transitions;
    for i := 0 to |ts|
      invariant forall j :: 0 <= j < i ==> !(ts[j].receipt.Some? && ReceiptPhase(ts, j) == Some(p))
    {
      if ts[i].receipt.Some? && ReceiptPhase(ts, i) == Some(p) { return true; }
    }
    return false;
  }

  method FindMutation(op: Record) returns (found: bool)
    ensures found == HasCommittedMutation(op)
    ensures LookBackFindsPhase(op.evidence.transitions) ==>
              (found <==>
                 exists d :: d in Committed(op.evidence.transitions) && CrossesMutationBoundary(d.payload.phase))
  {
    if LookBackFindsPhase(op.evidence.transitions) { AttemptInvariants.MutationTestIsExact(op); }
    var ts := op.evidence.transitions;
    for i := 0 to |ts|
      invariant forall j :: 0 <= j < i ==>
                              !(ts[j].receipt.Some? && ReceiptPhase(ts, j).Some?
                                && CrossesMutationBoundary(ReceiptPhase(ts, j).value))
    {
      if ts[i].receipt.Some? && ReceiptPhase(ts, i).Some? && CrossesMutationBoundary(ReceiptPhase(ts, i).value) {
        return true;
      }
    }
    return false;
  }

  // ---------------------------------------------------------------- facts the methods use

  ghost function OptionOf(r: Result<Reply, AdmissionError>): Option<Reply> {
    if r.Ok? then Some(r.value) else None
  }

  ghost function RecordOf(r: Result<Record, UpdateError>): Option<Record> {
    if r.Ok? then Some(r.value) else None
  }

  ghost function UpdatedBy(s: Store, attempt: nat, call: Call, at: int): Option<Record> {
    var r := UpdateAttempt(s, attempt, call, at);
    if r.Ok? then Some(r.value.record) else None
  }

  lemma NothingLost(attempts: seq<Record>)
    ensures EndedRowsKept(attempts, attempts)
  {
  }

  lemma AppendLosesNothing(attempts: seq<Record>, record: Record)
    ensures EndedRowsKept(attempts, attempts + [record])
  {
  }

  lemma NewRecordsHoldNoFence(attempts: seq<Record>, record: Record)
    requires FencesHaveEpochs(attempts) && record.evidence.fenceReceipt.None?
    ensures FencesHaveEpochs(attempts + [record])
  {
  }

  lemma FindIsUnique(attempts: seq<Record>, i: nat)
    requires AttemptIdsDistinct(attempts) && i < |attempts|
    ensures Find(attempts, attempts[i].attempt) == Some(i)
  {
  }

  lemma DistinctIds(s: Store)
    requires StoreInv(s)
    ensures AttemptIdsDistinct(s.attempts)
  {
  }

  /** A call on one attempt replaces its row by what the transition gives, or changes nothing. */
  ghost predicate UpdateSpelledOut(s: Store, attempt: nat, call: Call, at: int) {
    var next, updated := Step(s, OnAttempt(attempt, call, at)), UpdatedBy(s, attempt, call, at);
    match Find(s.attempts, attempt)
    case None => next == s && updated == None
    case Some(row) =>
      && row < |s.attempts|
      && s.attempts[row].attempt == attempt
      && match After(s.attempts[row], call, at)
         case Err(_) => next == s && updated == None
         case Ok(record) =>
           && next == s.(attempts := s.attempts[row := record])
           && updated == Some(record)
           && (record == s.attempts[row] ==> next == s)
  }

  lemma SpellOutUpdate(s: Store, attempt: nat, call: Call, at: int)
    requires StoreInv(s)
    ensures UpdateSpelledOut(s, attempt, call, at)
  {
    hide StoreInv, Inv, After;
    if Find(s.attempts, attempt).Some? {
      var row := Find(s.attempts, attempt).value;
      assert s.attempts[row := s.attempts[row]] == s.attempts;
    }
  }

  lemma UpdateFacts(s: Store, attempt: nat, call: Call, at: int)
    requires StoreInv(s) && FencesHaveEpochs(s.attempts)
    ensures StoreInv(Step(s, OnAttempt(attempt, call, at)))
    ensures AttemptIdsDistinct(s.attempts)
    ensures EndedRowsKept(s.attempts, Step(s, OnAttempt(attempt, call, at)).attempts)
    ensures UpdateSpelledOut(s, attempt, call, at)
    ensures FencesHaveEpochs(Step(s, OnAttempt(attempt, call, at)).attempts)
  {
    hide StoreInv, Inv, After, FenceHasEpoch;
    DistinctIds(s);
    SpellOutUpdate(s, attempt, call, at);
    StepKeepsStoreInv(s, OnAttempt(attempt, call, at));
    if UpdateAttempt(s, attempt, call, at).Ok? {
      var op := s.attempts[Find(s.attempts, attempt).value];
      AttemptInvariants.CallKeepsIdentity(op, call, at);
      CallKeepsFence(op, call, at);
      if op.state.result != Running { EndedRowUnchanged(s, attempt, call, at); }
    }
  }

  /** A replayed fence acquisition has nothing left to fill in. */
  lemma EpochAlreadyThere(op: Record, epoch: nat)
    requires FenceHasEpoch(op) && op.evidence.fenceReceipt.Some?
    requires MergeFields(op.evidence.fields, map[FencingEpoch := Value(epoch)]).Some?
    ensures MergeFields(op.evidence.fields, map[FencingEpoch := Value(epoch)]).value == op.evidence.fields
  {
    var merged := MergeFields(op.evidence.fields, map[FencingEpoch := Value(epoch)]).value;
    assert merged.Keys == op.evidence.fields.Keys;
  }

  lemma CallKeepsFence(op: Record, c: Call, at: int)
    requires FenceHasEpoch(op) && After(op, c, at).Ok?
    ensures FenceHasEpoch(After(op, c, at).value)
  {
    hide NextState, MergeArtifacts, ValidForPhase, HasReceipt, HasCommittedPhase, HasCommittedMutation,
      CommittedOutOfReconciliation, IsStatefulCutoverRetry, HasTrustedSourceAdmission;
    match c
    case CommitReceipt(receipt) => MergeKeepsFence(op, receipt.payload, op.evidence.recovery == Some(RollbackMode));
    case CommitReconciledReceipt(receipt) => MergeKeepsFence(op, receipt.payload, false);
    case _ =>
  }

  lemma MergeKeepsFence(op: Record, p: ReceiptPayload, inRollback: bool)
    ensures var merged := MergeArtifacts(op.evidence, p.artifacts, p.phase, p.branch, inRollback);
            merged.Some? ==>
              && merged.value.fenceReceipt == op.evidence.fenceReceipt
              && (FencingEpoch in op.evidence.fields ==> FencingEpoch in merged.value.fields)
  {
    hide MergeSpec;
  }

  lemma EndedRowUnchanged(s: Store, attempt: nat, call: Call, at: int)
    requires StoreInv(s) && UpdateAttempt(s, attempt, call, at).Ok?
    requires s.attempts[Find(s.attempts, attempt).value].state.result != Running
    ensures UpdateAttempt(s, attempt, call, at).value.record == s.attempts[Find(s.attempts, attempt).value]
  {
    hide Inv, After;
    AttemptInvariants.EndedCallChangesNothing(s.attempts[Find(s.attempts, attempt).value], call, at);
  }
}
