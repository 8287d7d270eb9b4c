/**
  The controller's durable tables and what admission does to them.  Each function is one
  transaction: it returns the new tables together with the reply, or an error, in which
  case the tables stay as they were.  Identifiers drawn at random are parameters; a
  collision with a stored identifier violates a uniqueness constraint and fails the
  transaction.
*/
module AdmissionStore {
  import opened Domain
  import opened AttemptLifecycle

  datatype Lease = Lease(leaseId: nat, generation: nat, acquiredAt: int, expiresAt: int)

  datatype LeaseClaim = LeaseClaim(user: nat, leaseId: nat, generation: nat)

  datatype NewOperation = NewOperation(
    project: nat, kind: OperationKind, commit: Option<nat>, release: Option<ReleaseClass>,
    policy: nat, policyVersion: nat)

  datatype GrantClaims = GrantClaims(
    nonce: nat, digest: nat, user: nat, project: nat, kind: OperationKind,
    commit: Option<nat>, retryRequest: Option<nat>, expiresAt: int)

  datatype SourceEvidence = SourceEvidence(attestation: nat, sequence: nat)

  datatype AutomationAdmission = AutomationAdmission(
    operation: NewOperation, channel: Channel, deliveryId: string, payload: nat,
    source: SourceEvidence, head: nat, maximumAttempts: nat)

  datatype RequestKey = RequestKey(project: nat, commit: Option<nat>, kind: OperationKind)

  datatype GrantRow = GrantRow(digest: nat, request: nat, attempt: nat)

  datatype DeliveryRow = DeliveryRow(payload: nat, request: nat)

  datatype DeliveryKey = DeliveryKey(channel: Channel, deliveryId: string)

  /** The attempts table keeps its rows in insertion order. */
  datatype Store = Store(
    leases: map<nat, Lease>,
    requests: map<RequestKey, nat>,
    attempts: seq<Record>,
    grants: map<nat, GrantRow>,
    deliveries: map<DeliveryKey, DeliveryRow>)

  const EMPTY_STORE := Store(map[], map[], [], map[], map[])

  /** Identifiers drawn for one admission. */
  datatype FreshIds = FreshIds(request: nat, operation: nat, attempt: nat)

  datatype Reply = Created(record: Record) | Existing(record: Record)

  datatype AdmissionError =
    | SourceAdmissionRequired | InvalidControllerInput | PlanMismatch | GrantExpired
    | GrantBindingMismatch | LeaseRevoked | LeaseExpired | GrantReplay
    | RecoveryRequired | RetryGrantRequired | StaleSourceSequence
    | AutomationRejected | DeliveryConflict
    | CorruptDelivery | CorruptSequence | CorruptNumber | UniquenessViolated

  datatype Admission = Admission(store: Store, reply: Reply)

  const MAX_U32: nat := 0xFFFF_FFFF
  const MAX_I64: nat := 0x7FFF_FFFF_FFFF_FFFF

  // ---------------------------------------------------------------- queries

  /** The attempt of a request with the highest number. */
  function Latest(attempts: seq<Record>, request: nat): (r: Option<Record>)
    ensures r.Some? ==> r.value.request == request
  {
    if attempts == [] then None
    else
      var last, rest := attempts[|attempts| - 1], Latest(attempts[..|attempts| - 1], request);
      if last.request == request && (rest.None? || rest.value.number < last.number) then Some(last) else rest
  }

  /** How many attempts of a request were admitted under one source sequence. */
  function CountForSequence(attempts: seq<Record>, request: nat, sequence: nat): nat {
    if attempts == [] then 0
    else
      var last := attempts[|attempts| - 1];
      CountForSequence(attempts[..|attempts| - 1], request, sequence)
      + if last.request == request && last.evidence.sourceSequence == Some(sequence) then 1 else 0
  }

  function Find(attempts: seq<Record>, attempt: nat): (r: Option<nat>)
    ensures r.Some? ==> r.value < |attempts| && attempts[r.value].attempt == attempt
    ensures r.None? ==> forall i :: 0 <= i < |attempts| ==> attempts[i].attempt != attempt
  {
    if attempts == [] then None
    else if attempts[|attempts| - 1].attempt == attempt then Some(|attempts| - 1)
    else Find(attempts[..|attempts| - 1], attempt)
  }

  // ---------------------------------------------------------------- validation

  function RequiresCommit(kind: OperationKind): bool {
    kind == Deploy || kind == CodeRollback
  }

  function ValidateOperation(o: NewOperation): (e: Option<AdmissionError>) {
    if RequiresCommit(o.kind) != o.commit.Some? then Some(InvalidControllerInput)
    else if RequiredPhases(o.kind, o.release).None? then Some(PlanMismatch)
    else if o.policyVersion == 0 then Some(InvalidControllerInput)
    else None
  }

  function ValidateGrant(o: NewOperation, lease: LeaseClaim, grant: GrantClaims, at: int): (e: Option<AdmissionError>) {
    if lease.user == 0 || lease.leaseId == 0 || lease.generation == 0 || grant.nonce == 0 then
      Some(InvalidControllerInput)
    else if at >= grant.expiresAt then Some(GrantExpired)
    else if || grant.user != lease.user || grant.project != o.project
            || grant.kind != o.kind || grant.commit != o.commit then
      Some(GrantBindingMismatch)
    else None
  }

  function ValidateLease(leases: map<nat, Lease>, claim: LeaseClaim, at: int): (e: Option<AdmissionError>) {
    if claim.generation > MAX_I64 then Some(InvalidControllerInput)
    else if || claim.user !in leases
            || leases[claim.user].leaseId != claim.leaseId
            || leases[claim.user].generation != claim.generation then Some(LeaseRevoked)
    else if at >= leases[claim.user].expiresAt then Some(LeaseExpired)
    else None
  }

  function ValidateAutomation(a: AutomationAdmission): (e: Option<AdmissionError>) {
    if ValidateOperation(a.operation).Some? then ValidateOperation(a.operation)
    else if || a.operation.commit.None?
            || a.operation.kind != Deploy
            || a.maximumAttempts == 0
            || a.source.sequence == 0
            || a.operation.commit.value != a.head
            || |a.deliveryId| == 0
            || |a.deliveryId| > 128
            || exists i :: 0 <= i < |a.deliveryId| && a.deliveryId[i] as int >= 128 then Some(AutomationRejected)
    else None
  }

  // ---------------------------------------------------------------- transactions

  /** Taking over a tab lease bumps the user's generation and so revokes every older claim. */
  function TakeoverLease(s: Store, user: nat, leaseId: nat, acquiredAt: int, expiresAt: int)
    : (r: Result<Store, AdmissionError>)
  {
    if user == 0 || leaseId == 0 || expiresAt <= acquiredAt then Err(InvalidControllerInput)
    else
      var generation := if user in s.leases then s.leases[user].generation + 1 else 1;
      if generation > MAX_I64 then Err(InvalidControllerInput)
      else if exists u :: u in s.leases && u != user && s.leases[u].leaseId == leaseId then Err(UniquenessViolated)
      else Ok(s.(leases := s.leases[user := Lease(leaseId, generation, acquiredAt, expiresAt)]))
  }

  function KeyOf(o: NewOperation): RequestKey {
    RequestKey(o.project, o.commit, o.kind)
  }

  datatype RequestRow = RequestRow(requests: map<RequestKey, nat>, request: nat)

  function FindOrCreateRequest(s: Store, o: NewOperation, ids: FreshIds): (r: Result<RequestRow, AdmissionError>) {
    if KeyOf(o) in s.requests then Ok(RequestRow(s.requests, s.requests[KeyOf(o)]))
    else if ids.request in s.requests.Values then Err(UniquenessViolated)
    else Ok(RequestRow(s.requests[KeyOf(o) := ids.request], ids.request))
  }

  function NewRecord(request: nat, o: NewOperation, number: nat, actor: Actor, grant: Option<nat>,
                     source: Option<SourceEvidence>, at: int, ids: FreshIds): (r: Record)
    ensures r.evidence.fenceReceipt.None?
  {
    var attestation := match source case None => None case Some(x) => Some(x.attestation);
    var sequence := match source case None => None case Some(x) => Some(x.sequence);
    Record(ids.operation, request, ids.attempt, number, o.project, o.kind, o.commit, o.release, QUEUED_STATE, actor,
           Evidence([], Some(o.policy), attestation, sequence, grant, None, map[], None, []), None, at, at)
  }

  /** Insert one attempt row; operation and attempt identifiers are unique, and so is the number per request. */
  function InsertAttempt(attempts: seq<Record>, record: Record): (r: Result<seq<Record>, AdmissionError>)
    ensures r.Err? ==> r.error == UniquenessViolated
  {
    if exists i :: 0 <= i < |attempts|
         && (|| attempts[i].operation == record.operation
             || attempts[i].attempt == record.attempt
             || (attempts[i].request == record.request && attempts[i].number == record.number))
    then Err(UniquenessViolated)
    else Ok(attempts + [record])
  }

  function NextNumber(current: nat): (r: Result<nat, AdmissionError>) {
    if current + 1 > MAX_U32 then Err(CorruptNumber) else Ok(current + 1)
  }

  /** What admission decides before it writes: hand back an attempt, or create number n. */
  datatype Decision = Reuse(record: Record) | Create(number: nat)

  function DecideInteractive(request: nat, existing: Option<Record>, grant: GrantClaims, source: Option<SourceEvidence>)
    : (r: Result<Decision, AdmissionError>)
  {
    if existing.None? then
      if grant.retryRequest.Some? then Err(GrantBindingMismatch) else Ok(Create(1))
    else
      var latest := existing.value;
      var known := if latest.evidence.sourceSequence.Some? then latest.evidence.sourceSequence.value else 0;
      if source.Some? && source.value.sequence < known then Err(StaleSourceSequence)
      else if source.Some? && source.value.sequence > known then
        if latest.state.result in {ManualRecoveryRequired, RollbackFailed} then Err(RecoveryRequired)
        else if grant.retryRequest.Some? then Err(GrantBindingMismatch)
        else
          match NextNumber(latest.number)
          case Err(e) => Err(e)
          case Ok(n) => Ok(Create(n))
      else
        match latest.state.result
        case Running => Ok(Reuse(latest))
        case Succeeded => Ok(Reuse(latest))
        case RolledBack => Ok(Reuse(latest))
        case Superseded => Ok(Reuse(latest))
        case ManualRecoveryRequired => Err(RecoveryRequired)
        case RollbackFailed => Err(RecoveryRequired)
        case _ =>
          if grant.retryRequest != Some(request) then Err(RetryGrantRequired)
          else
            match NextNumber(latest.number)
            case Err(e) => Err(e)
            case Ok(n) => Ok(Create(n))
  }

  function AdmitInteractive(s: Store, o: NewOperation, lease: LeaseClaim, grant: GrantClaims,
                            source: Option<SourceEvidence>, at: int, ids: FreshIds)
    : (r: Result<Admission, AdmissionError>)
  {
    var invalid := FirstError(ValidateOperation(o),
                              FirstError(ValidateGrant(o, lease, grant, at), ValidateLease(s.leases, lease, at)));
    if invalid.Some? then Err(invalid.value)
    else if grant.nonce in s.grants && Find(s.attempts, s.grants[grant.nonce].attempt).Some? then
      if s.grants[grant.nonce].digest != grant.digest then Err(GrantReplay)
      else Ok(Admission(s, Existing(s.attempts[Find(s.attempts, s.grants[grant.nonce].attempt).value])))
    else
      match FindOrCreateRequest(s, o, ids)
      case Err(e) => Err(e)
      case Ok(row) =>
        match DecideInteractive(row.request, Latest(s.attempts, row.request), grant, source)
        case Err(e) => Err(e)
        case Ok(Reuse(record)) => Ok(Admission(s.(requests := row.requests), Existing(record)))
        case Ok(Create(number)) =>
          var record := NewRecord(row.request, o, number, Interactive(lease.user), Some(grant.digest), source, at, ids);
          match InsertAttempt(s.attempts, record)
          case Err(e) => Err(e)
          case Ok(attempts) =>
            if grant.nonce in s.grants then Err(UniquenessViolated)
            else
              var grants := s.grants[grant.nonce := GrantRow(grant.digest, row.request, record.attempt)];
              Ok(Admission(s.(requests := row.requests, attempts := attempts, grants := grants), Created(record)))
  }

  function FirstError(a: Option<AdmissionError>, b: Option<AdmissionError>): Option<AdmissionError> {
    if a.Some? then a else b
  }

  /** The public entry for everything but deployments. */
  function AdmitUnsourced(s: Store, o: NewOperation, lease: LeaseClaim, grant: GrantClaims, at: int, ids: FreshIds)
    : (r: Result<Admission, AdmissionError>)
  {
    if o.kind == Deploy then Err(SourceAdmissionRequired)
    else AdmitInteractive(s, o, lease, grant, None, at, ids)
  }

  /** The entry for deployments whose source head has been verified. */
  function AdmitVerifiedDeploy(s: Store, o: NewOperation, head: nat, source: SourceEvidence, lease: LeaseClaim,
                               grant: GrantClaims, at: int, ids: FreshIds)
    : (r: Result<Admission, AdmissionError>)
  {
    if o.kind != Deploy || o.commit != Some(head) || source.sequence == 0 then Err(SourceAdmissionRequired)
    else AdmitInteractive(s, o, lease, grant, Some(source), at, ids)
  }

  function DecideAutomation(attempts: seq<Record>, request: nat, existing: Option<Record>, a: AutomationAdmission)
    : (r: Result<Decision, AdmissionError>)
  {
    if existing.None? then Ok(Create(1))
    else
      var latest := existing.value;
      if latest.evidence.sourceSequence.None? then Err(CorruptSequence)
      else if a.source.sequence < latest.evidence.sourceSequence.value then Err(StaleSourceSequence)
      else if latest.state.result in {ManualRecoveryRequired, RollbackFailed} then Err(RecoveryRequired)
      else
        match NextNumber(latest.number)
        case Err(e) => Err(e)
        case Ok(n) =>
          if a.source.sequence > latest.evidence.sourceSequence.value then Ok(Create(n))
          else if latest.state.result in {Running, Succeeded, RolledBack, Superseded} then Ok(Reuse(latest))
          else if CountForSequence(attempts, request, a.source.sequence) >= a.maximumAttempts then
            Err(AutomationRejected)
          else Ok(Create(n))
  }

  function AdmitAutomation(s: Store, a: AutomationAdmission, at: int, ids: FreshIds)
    : (r: Result<Admission, AdmissionError>)
  {
    var key := DeliveryKey(a.channel, a.deliveryId);
    if ValidateAutomation(a).Some? then Err(ValidateAutomation(a).value)
    else if key in s.deliveries then
      if s.deliveries[key].payload != a.payload then Err(DeliveryConflict)
      else
        match Latest(s.attempts, s.deliveries[key].request)
        case None => Err(CorruptDelivery)
        case Some(record) => Ok(Admission(s, Existing(record)))
    else
      match FindOrCreateRequest(s, a.operation, ids)
      case Err(e) => Err(e)
      case Ok(row) =>
        var deliveries := s.deliveries[key := DeliveryRow(a.payload, row.request)];
        match DecideAutomation(s.attempts, row.request, Latest(s.attempts, row.request), a)
        case Err(e) => Err(e)
        case Ok(Reuse(record)) =>
          Ok(Admission(s.(requests := row.requests, deliveries := deliveries), Existing(record)))
        case Ok(Create(number)) =>
          var record := NewRecord(row.request, a.operation, number, Automation(a.channel), None, Some(a.source), at,
                                  ids);
          match InsertAttempt(s.attempts, record)
          case Err(e) => Err(e)
          case Ok(attempts) =>
            Ok(Admission(s.(requests := row.requests, attempts := attempts, deliveries := deliveries), Created(record)))
  }

  datatype UpdateError = NotFound | Rejected(error: StoreError)

  datatype Update = Update(store: Store, record: Record)

  /** A call addressed to a stored attempt rewrites that row only. */
  function UpdateAttempt(s: Store, attempt: nat, c: Call, at: int): (r: Result<Update, UpdateError>) {
    match Find(s.attempts, attempt)
    case None => Err(NotFound)
    case Some(i) =>
      match After(s.attempts[i], c, at)
      case Err(e) => Err(Rejected(e))
      case Ok(record) => Ok(Update(s.(attempts := s.attempts[i := record]), record))
  }
}
