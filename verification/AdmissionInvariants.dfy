/**
  What every interleaving of admissions and attempt calls keeps: attempts of a request are
  numbered 1..n, source sequences never go back, at most one attempt per source sequence is
  live, grants and deliveries are spent once, and the two corruption errors of automated
  admission cannot occur.
*/
module AdmissionInvariants {
  import opened Domain
  import opened AttemptLifecycle
  import opened AdmissionStore
  import AttemptInvariants

  // ---------------------------------------------------------------- the invariant

  ghost function Count(attempts: seq<Record>, request: nat): nat {
    if attempts == [] then 0
    else Count(attempts[..|attempts| - 1], request) + if attempts[|attempts| - 1].request == request then 1 else 0
  }

  ghost function SequenceOf(r: Record): nat {
    if r.evidence.sourceSequence.Some? then r.evidence.sourceSequence.value else 0
  }

  /** The k-th attempt of a request, in insertion order, has number k. */
  ghost predicate Numbered(attempts: seq<Record>) {
    forall i :: 0 <= i < |attempts| ==> attempts[i].number == Count(attempts[..i], attempts[i].request) + 1
  }

  ghost predicate SequencesNeverDecrease(attempts: seq<Record>) {
    forall i, j :: 0 <= i < j < |attempts| && attempts[i].request == attempts[j].request ==>
                     SequenceOf(attempts[i]) <= SequenceOf(attempts[j])
  }

  /** Before a source sequence is attempted again, the earlier attempt failed or was cancelled. */
  ghost predicate RetriedOnlyAfterFailure(attempts: seq<Record>) {
    forall i, j :: 0 <= i < j < |attempts| && attempts[i].request == attempts[j].request
                   && SequenceOf(attempts[i]) == SequenceOf(attempts[j]) ==>
                     attempts[i].state.result in {Failed, Cancelled}
  }

  ghost predicate SourcedExactlyDeployments(attempts: seq<Record>) {
    forall i :: 0 <= i < |attempts| ==>
                  if attempts[i].kind == Deploy then
                    attempts[i].evidence.sourceSequence.Some? && SequenceOf(attempts[i]) > 0
                  else attempts[i].evidence.sourceSequence.None?
  }

  ghost function KeyOfRecord(r: Record): RequestKey {
    RequestKey(r.project, r.commit, r.kind)
  }

  /** Requests have distinct ids, every attempt belongs to the request of its own key, and no request is empty. */
  ghost predicate RequestsSound(requests: map<RequestKey, nat>, attempts: seq<Record>) {
    && (forall k1, k2 :: k1 in requests && k2 in requests && requests[k1] == requests[k2] ==> k1 == k2)
    && (forall i :: 0 <= i < |attempts| ==>
                      KeyOfRecord(attempts[i]) in requests && requests[KeyOfRecord(attempts[i])] == attempts[i].request)
    && (forall k :: k in requests ==> Count(attempts, requests[k]) > 0)
  }

  /** Each spent nonce names an existing attempt of its request, and no two name the same one. */
  ghost predicate GrantsSound(grants: map<nat, GrantRow>, attempts: seq<Record>) {
    && (forall n :: n in grants ==> Find(attempts, grants[n].attempt).Some?)
    && (forall n1, n2 :: n1 in grants && n2 in grants && grants[n1].attempt == grants[n2].attempt ==> n1 == n2)
  }

  ghost predicate DeliveriesSound(deliveries: map<DeliveryKey, DeliveryRow>, requests: map<RequestKey, nat>) {
    forall d :: d in deliveries ==> deliveries[d].request in requests.Values
  }

  ghost predicate AttemptIdsDistinct(attempts: seq<Record>) {
    forall i, j :: 0 <= i < j < |attempts| ==> attempts[i].attempt != attempts[j].attempt
  }

  ghost predicate RecordsGood(attempts: seq<Record>) {
    forall i :: 0 <= i < |attempts| ==> Inv(attempts[i])
  }

  ghost predicate StoreInv(s: Store) {
    && Numbered(s.attempts)
    && SequencesNeverDecrease(s.attempts)
    && RetriedOnlyAfterFailure(s.attempts)
    && SourcedExactlyDeployments(s.attempts)
    && RequestsSound(s.requests, s.attempts)
    && GrantsSound(s.grants, s.attempts)
    && DeliveriesSound(s.deliveries, s.requests)
    && AttemptIdsDistinct(s.attempts)
    && RecordsGood(s.attempts)
  }

  // ---------------------------------------------------------------- the latest attempt

  /** In a numbered table the highest-numbered attempt of a request is its last row. */
  lemma {:induction false} LatestIsLast(attempts: seq<Record>, request: nat) returns (k: nat)
    requires Numbered(attempts)
    ensures Count(attempts, request) == 0 <==> Latest(attempts, request).None?
    ensures Latest(attempts, request).Some? ==>
              && k < |attempts|
              && attempts[k] == Latest(attempts, request).value
              && attempts[k].request == request
              && attempts[k].number == Count(attempts, request)
              && forall j :: k < j < |attempts| ==> attempts[j].request != request
  {
    k := 0;
    if attempts != [] {
      var n := |attempts| - 1;
      var rest := attempts[..n];
      NumberedPrefix(attempts);
      assert attempts[n].number == Count(rest, attempts[n].request) + 1;
      hide Numbered;
      k := LatestIsLast(rest, request);
      if attempts[n].request == request { k := n; }
    }
  }

  /** The query picks the highest number, whatever order the rows are in. */
  lemma {:induction false} LatestIsHighest(attempts: seq<Record>, request: nat, i: nat)
    requires i < |attempts| && attempts[i].request == request
    ensures Latest(attempts, request).Some? && attempts[i].number <= Latest(attempts, request).value.number
  {
    var n := |attempts| - 1;
    if i < n {
      assert attempts[..n][i] == attempts[i];
      LatestIsHighest(attempts[..n], request, i);
    }
  }

  lemma NumberedPrefix(attempts: seq<Record>)
    requires Numbered(attempts) && attempts != []
    ensures Numbered(attempts[..|attempts| - 1])
  {
    var rest := attempts[..|attempts| - 1];
    forall i | 0 <= i < |rest| ensures rest[i].number == Count(rest[..i], rest[i].request) + 1 {
      assert rest[..i] == attempts[..i];
    }
  }

  lemma {:induction false} CountPositive(attempts: seq<Record>, i: nat)
    requires i < |attempts|
    ensures Count(attempts, attempts[i].request) > 0
  {
    if i < |attempts| - 1 {
      CountPositive(attempts[..|attempts| - 1], i);
      assert attempts[..|attempts| - 1][i] == attempts[i];
    }
  }

  // ---------------------------------------------------------------- inserting an attempt

  /** A row that may be appended: next number, and a later sequence or a retry after failure. */
  ghost predicate MayAppend(attempts: seq<Record>, r: Record) {
    && r.number == Count(attempts, r.request) + 1
    && match Latest(attempts, r.request)
       case None => true
       case Some(latest) =>
         || SequenceOf(latest) < SequenceOf(r)
         || (SequenceOf(latest) == SequenceOf(r) && latest.state.result in {Failed, Cancelled})
  }

  lemma AppendKeepsNumbering(attempts: seq<Record>, r: Record)
    requires Numbered(attempts) && r.number == Count(attempts, r.request) + 1
    ensures Numbered(attempts + [r])
  {
    var table := attempts + [r];
    forall i | 0 <= i < |table| ensures table[i].number == Count(table[..i], table[i].request) + 1 {
      assert table[..i] == attempts[..i];
      if i == |attempts| { assert attempts[..i] == attempts; }
    }
  }

  lemma AppendKeepsSequences(attempts: seq<Record>, r: Record)
    requires Numbered(attempts) && SequencesNeverDecrease(attempts) && RetriedOnlyAfterFailure(attempts)
    requires MayAppend(attempts, r)
    ensures SequencesNeverDecrease(attempts + [r])
    ensures RetriedOnlyAfterFailure(attempts + [r])
  {
    hide Numbered;
    var k := LatestIsLast(attempts, r.request);
    forall i | 0 <= i < |attempts| && attempts[i].request == r.request
      ensures SequenceOf(attempts[i]) <= SequenceOf(r)
      ensures SequenceOf(attempts[i]) == SequenceOf(r) ==> attempts[i].state.result in {Failed, Cancelled}
    {
      CountPositive(attempts, i);
    }
  }

  lemma AppendedCount(attempts: seq<Record>, r: Record, request: nat)
    ensures Count(attempts + [r], request) == Count(attempts, request) + if r.request == request then 1 else 0
  {
    assert (attempts + [r])[..|attempts|] == attempts;
  }

  lemma AppendedFind(attempts: seq<Record>, r: Record, attempt: nat)
    ensures Find(attempts + [r], attempt) == if r.attempt == attempt then Some(|attempts|) else Find(attempts, attempt)
  {
    assert (attempts + [r])[..|attempts|] == attempts;
  }

  lemma AppendKeepsRequests(requests: map<RequestKey, nat>, requests': map<RequestKey, nat>, attempts: seq<Record>,
                            r: Record)
    requires RequestsSound(requests, attempts)
    requires KeyOfRecord(r) in requests' && requests'[KeyOfRecord(r)] == r.request
    requires || requests' == requests
             || (r.request !in requests.Values && KeyOfRecord(r) !in requests
                 && requests' == requests[KeyOfRecord(r) := r.request])
    ensures RequestsSound(requests', attempts + [r])
  {
    forall k | k in requests' ensures Count(attempts + [r], requests'[k]) > 0 {
      AppendedCount(attempts, r, requests'[k]);
    }
  }

  lemma AppendKeepsGrants(grants: map<nat, GrantRow>, attempts: seq<Record>, r: Record)
    requires GrantsSound(grants, attempts)
    ensures GrantsSound(grants, attempts + [r])
  {
    forall n | n in grants ensures Find(attempts + [r], grants[n].attempt).Some? {
      AppendedFind(attempts, r, grants[n].attempt);
    }
  }

  lemma SpendKeepsGrants(grants: map<nat, GrantRow>, attempts: seq<Record>, r: Record, nonce: nat, row: GrantRow)
    requires GrantsSound(grants, attempts)
    requires nonce !in grants && row.attempt == r.attempt && Find(attempts, r.attempt).None?
    ensures GrantsSound(grants[nonce := row], attempts + [r])
  {
    AppendKeepsGrants(grants, attempts, r);
    AppendedFind(attempts, r, r.attempt);
    var grants' := grants[nonce := row];
    forall n1, n2 | n1 in grants' && n2 in grants' && grants'[n1].attempt == grants'[n2].attempt ensures n1 == n2 {
      assert forall n :: n in grants ==> grants[n].attempt != r.attempt;
    }
  }

  // ---------------------------------------------------------------- admission

  lemma {:induction false} CountZero(attempts: seq<Record>, request: nat)
    requires forall i :: 0 <= i < |attempts| ==> attempts[i].request != request
    ensures Count(attempts, request) == 0
  {
    if attempts != [] { CountZero(attempts[..|attempts| - 1], request); }
  }

  /** Where the request row comes from decides what the latest attempt can be. */
  lemma RequestRowFacts(s: Store, o: NewOperation, ids: FreshIds, row: RequestRow)
    requires RequestsSound(s.requests, s.attempts)
    requires FindOrCreateRequest(s, o, ids) == Ok(row)
    ensures KeyOf(o) in row.requests && row.requests[KeyOf(o)] == row.request
    ensures KeyOf(o) in s.requests ==> row.requests == s.requests
    ensures KeyOf(o) !in s.requests ==>
              row.request !in s.requests.Values && row.requests == s.requests[KeyOf(o) := row.request]
              && Count(s.attempts, row.request) == 0
    ensures forall i :: 0 <= i < |s.attempts| && s.attempts[i].request == row.request ==> s.attempts[i].kind == o.kind
  {
    if KeyOf(o) !in s.requests {
      forall i | 0 <= i < |s.attempts| ensures s.attempts[i].request != row.request {
        assert s.requests[KeyOfRecord(s.attempts[i])] in s.requests.Values;
      }
      CountZero(s.attempts, row.request);
    }
  }

  /** The sequence an admission without a source carries is zero. */
  ghost function SequenceOfSource(source: Option<SourceEvidence>): nat {
    if source.Some? then source.value.sequence else 0
  }

  /** Deployments come with a positive source sequence and nothing else comes with one. */
  ghost predicate SourceMatchesKind(o: NewOperation, source: Option<SourceEvidence>) {
    if o.kind == Deploy then source.Some? && source.value.sequence > 0 else source.None?
  }

  /** The latest attempt of the request, with the facts both decisions use. */
  lemma LatestFacts(attempts: seq<Record>, request: nat, kind: OperationKind)
    requires Numbered(attempts) && SourcedExactlyDeployments(attempts)
    requires forall i :: 0 <= i < |attempts| && attempts[i].request == request ==> attempts[i].kind == kind
    ensures match Latest(attempts, request)
            case None => Count(attempts, request) == 0
            case Some(latest) =>
              && latest.number == Count(attempts, request)
              && (if kind == Deploy then latest.evidence.sourceSequence.Some? else latest.evidence.sourceSequence.None?)
  {
    var k := LatestIsLast(attempts, request);
  }

  lemma InteractiveRowMayAppend(attempts: seq<Record>, request: nat, o: NewOperation, source: Option<SourceEvidence>,
                                grant: GrantClaims, r: Record)
    requires Numbered(attempts) && SourcedExactlyDeployments(attempts)
    requires forall i :: 0 <= i < |attempts| && attempts[i].request == request ==> attempts[i].kind == o.kind
    requires SourceMatchesKind(o, source)
    requires DecideInteractive(request, Latest(attempts, request), grant, source) == Ok(Create(r.number))
    requires r.request == request && SequenceOf(r) == SequenceOfSource(source)
    ensures MayAppend(attempts, r)
  {
    LatestFacts(attempts, request, o.kind);
    hide Numbered, Count, SourcedExactlyDeployments, Latest;
  }

  lemma AutomatedRowMayAppend(attempts: seq<Record>, request: nat, a: AutomationAdmission, r: Record)
    requires Numbered(attempts) && SourcedExactlyDeployments(attempts)
    requires forall i :: 0 <= i < |attempts| && attempts[i].request == request ==> attempts[i].kind == Deploy
    requires DecideAutomation(attempts, request, Latest(attempts, request), a) == Ok(Create(r.number))
    requires r.request == request && SequenceOf(r) == a.source.sequence
    ensures MayAppend(attempts, r)
  {
    LatestFacts(attempts, request, Deploy);
    hide Numbered, Count, SourcedExactlyDeployments, Latest, CountForSequence;
    if Latest(attempts, request).Some? { EightResults(Latest(attempts, request).value.state.result); }
  }

  lemma EightResults(r: OperationResult)
    ensures r in {Running, Succeeded, RolledBack, Superseded} || r in {ManualRecoveryRequired, RollbackFailed}
            || r in {Failed, Cancelled}
  {
    match r
    case _ =>
  }

  lemma InsertKeepsStoreInv(s: Store, row: RequestRow, o: NewOperation, ids: FreshIds, r: Record,
                            grants: map<nat, GrantRow>, deliveries: map<DeliveryKey, DeliveryRow>)
    requires StoreInv(s)
    requires FindOrCreateRequest(s, o, ids) == Ok(row) && KeyOfRecord(r) == KeyOf(o) && r.request == row.request
    requires MayAppend(s.attempts, r) && Inv(r) && InsertAttempt(s.attempts, r).Ok?
    requires SourcedExactlyDeployments([r])
    requires GrantsSound(grants, s.attempts + [r])
    requires DeliveriesSound(deliveries, row.requests)
    ensures StoreInv(s.(requests := row.requests, attempts := s.attempts + [r], grants := grants,
                        deliveries := deliveries))
  {
    hide Inv;
    assert [r][0] == r;
    AppendKeepsNumbering(s.attempts, r);
    AppendKeepsSequences(s.attempts, r);
    RequestRowFacts(s, o, ids, row);
    AppendKeepsRequests(s.requests, row.requests, s.attempts, r);
    AppendKeepsIds(s.attempts, r);
    AppendKeepsGood(s.attempts, r);
    AppendKeepsSourced(s.attempts, r);
  }

  lemma AppendKeepsIds(attempts: seq<Record>, r: Record)
    requires AttemptIdsDistinct(attempts) && InsertAttempt(attempts, r).Ok?
    ensures AttemptIdsDistinct(attempts + [r]) && Find(attempts, r.attempt).None?
  {
  }

  lemma AppendKeepsGood(attempts: seq<Record>, r: Record)
    requires RecordsGood(attempts) && Inv(r)
    ensures RecordsGood(attempts + [r])
  {
    hide Inv;
  }

  lemma AppendKeepsSourced(attempts: seq<Record>, r: Record)
    requires SourcedExactlyDeployments(attempts) && SourcedExactlyDeployments([r])
    ensures SourcedExactlyDeployments(attempts + [r])
  {
    assert [r][0] == r;
  }

  lemma DeliveriesGrow(deliveries: map<DeliveryKey, DeliveryRow>, requests: map<RequestKey, nat>,
                       requests': map<RequestKey, nat>)
    requires DeliveriesSound(deliveries, requests)
    requires forall k :: k in requests ==> k in requests' && requests'[k] == requests[k]
    ensures DeliveriesSound(deliveries, requests')
  {
    forall d | d in deliveries ensures deliveries[d].request in requests'.Values {
      var k :| k in requests && requests[k] == deliveries[d].request;
      assert requests'[k] == deliveries[d].request;
    }
  }

  lemma NewRecordIsGood(request: nat, o: NewOperation, number: nat, actor: Actor, grant: Option<nat>,
                        source: Option<SourceEvidence>, at: int, ids: FreshIds)
    requires ValidateOperation(o).None? && SourceMatchesKind(o, source)
    ensures var r := NewRecord(request, o, number, actor, grant, source, at, ids);
            && Inv(r)
            && SourcedExactlyDeployments([r])
            && SequenceOf(r) == SequenceOfSource(source)
  {
    hide Inv;
    AttemptInvariants.AdmittedInv(NewRecord(request, o, number, actor, grant, source, at, ids));
  }

  /** Interactive admission keeps every table sound. */
  lemma InteractiveKeepsStoreInv(s: Store, o: NewOperation, lease: LeaseClaim, grant: GrantClaims,
                                 source: Option<SourceEvidence>, at: int, ids: FreshIds)
    requires StoreInv(s) && SourceMatchesKind(o, source)
    requires AdmitInteractive(s, o, lease, grant, source, at, ids).Ok?
    ensures StoreInv(AdmitInteractive(s, o, lease, grant, source, at, ids).value.store)
  {
    hide Inv, Numbered, SequencesNeverDecrease, RetriedOnlyAfterFailure, RequestsSound, GrantsSound, DeliveriesSound,
      MayAppend, SourcedExactlyDeployments, InsertAttempt, NewRecord, DecideInteractive, ValidateOperation,
      ValidateGrant, ValidateLease;
    var after := AdmitInteractive(s, o, lease, grant, source, at, ids).value;
    if grant.nonce !in s.grants || Find(s.attempts, s.grants[grant.nonce].attempt).None? {
      var row := FindOrCreateRequest(s, o, ids).value;
      RequestRowFacts(s, o, ids, row);
      var decision := DecideInteractive(row.request, Latest(s.attempts, row.request), grant, source);
      if decision.value.Reuse? {
        InteractiveReuseHasLatest(row.request, Latest(s.attempts, row.request), grant, source);
        ReuseNeedsRequest(s, o, ids, row);
        assert after.store == s;
      } else {
        var n := decision.value.number;
        var r := NewRecord(row.request, o, n, Interactive(lease.user), Some(grant.digest), source, at, ids);
        NewRecordIsGood(row.request, o, n, Interactive(lease.user), Some(grant.digest), source, at, ids);
        NewRecordFields(row.request, o, n, Interactive(lease.user), Some(grant.digest), source, at, ids);
        InteractiveRowMayAppend(s.attempts, row.request, o, source, grant, r);
        AppendKeepsIds(s.attempts, r);
        SpendKeepsGrants(s.grants, s.attempts, r, grant.nonce, GrantRow(grant.digest, row.request, r.attempt));
        DeliveriesGrow(s.deliveries, s.requests, row.requests);
        InsertKeepsStoreInv(s, row, o, ids, r, after.store.grants, s.deliveries);
        InsertAppends(s.attempts, r);
      }
    }
  }

  lemma InteractiveReuseHasLatest(request: nat, existing: Option<Record>, grant: GrantClaims,
                                  source: Option<SourceEvidence>)
    requires var d := DecideInteractive(request, existing, grant, source); d.Ok? && d.value.Reuse?
    ensures existing.Some?
  {
  }

  lemma NewRecordFields(request: nat, o: NewOperation, number: nat, actor: Actor, grant: Option<nat>,
                        source: Option<SourceEvidence>, at: int, ids: FreshIds)
    ensures var r := NewRecord(request, o, number, actor, grant, source, at, ids);
            r.request == request && r.number == number && r.attempt == ids.attempt && KeyOfRecord(r) == KeyOf(o)
  {
  }

  lemma InsertAppends(attempts: seq<Record>, r: Record)
    requires InsertAttempt(attempts, r).Ok?
    ensures InsertAttempt(attempts, r).value == attempts + [r]
  {
  }

  /** An attempt can only be handed back for a request that was already there. */
  lemma ReuseNeedsRequest(s: Store, o: NewOperation, ids: FreshIds, row: RequestRow)
    requires Numbered(s.attempts) && RequestsSound(s.requests, s.attempts)
    requires FindOrCreateRequest(s, o, ids) == Ok(row)
    requires Latest(s.attempts, row.request).Some?
    ensures row.requests == s.requests
  {
    RequestRowFacts(s, o, ids, row);
    var k := LatestIsLast(s.attempts, row.request);
  }

  /** Automated admission keeps every table sound. */
  lemma AutomationKeepsStoreInv(s: Store, a: AutomationAdmission, at: int, ids: FreshIds)
    requires StoreInv(s) && AdmitAutomation(s, a, at, ids).Ok?
    ensures StoreInv(AdmitAutomation(s, a, at, ids).value.store)
  {
    hide Inv, Numbered, SequencesNeverDecrease, RetriedOnlyAfterFailure, RequestsSound, GrantsSound, DeliveriesSound,
      MayAppend, SourcedExactlyDeployments, InsertAttempt, NewRecord, DecideAutomation;
    var after := AdmitAutomation(s, a, at, ids).value;
    var key := DeliveryKey(a.channel, a.deliveryId);
    if key !in s.deliveries {
      var o := a.operation;
      var row := FindOrCreateRequest(s, o, ids).value;
      RequestRowFacts(s, o, ids, row);
      var decision := DecideAutomation(s.attempts, row.request, Latest(s.attempts, row.request), a);
      DeliveriesGrow(s.deliveries, s.requests, row.requests);
      DeliveryAdded(s.deliveries, row.requests, key, DeliveryRow(a.payload, row.request), KeyOf(o));
      if decision.value.Reuse? {
        AutomationReuseHasLatest(s.attempts, row.request, a);
        ReuseNeedsRequest(s, o, ids, row);
      } else {
        var n := decision.value.number;
        var r := NewRecord(row.request, o, n, Automation(a.channel), None, Some(a.source), at, ids);
        NewRecordIsGood(row.request, o, n, Automation(a.channel), None, Some(a.source), at, ids);
        NewRecordFields(row.request, o, n, Automation(a.channel), None, Some(a.source), at, ids);
        AutomatedRowMayAppend(s.attempts, row.request, a, r);
        AppendKeepsGrants(s.grants, s.attempts, r);
        InsertKeepsStoreInv(s, row, o, ids, r, s.grants, after.store.deliveries);
        InsertAppends(s.attempts, r);
      }
    }
  }

  lemma AutomationReuseHasLatest(attempts: seq<Record>, request: nat, a: AutomationAdmission)
    requires var d := DecideAutomation(attempts, request, Latest(attempts, request), a); d.Ok? && d.value.Reuse?
    ensures Latest(attempts, request).Some?
  {
  }

  lemma DeliveryAdded(deliveries: map<DeliveryKey, DeliveryRow>, requests: map<RequestKey, nat>, key: DeliveryKey,
                      row: DeliveryRow, k: RequestKey)
    requires DeliveriesSound(deliveries, requests)
    requires k in requests && requests[k] == row.request
    ensures DeliveriesSound(deliveries[key := row], requests)
  {
  }

  // ---------------------------------------------------------------- calls on stored attempts

  /** `b` is the table `a` with the row i replaced by one of the same identity. */
  ghost predicate Rewrites(a: seq<Record>, b: seq<Record>, i: nat) {
    && i < |a| == |b|
    && b == a[i := b[i]]
    && AttemptInvariants.SameIdentity(a[i], b[i])
  }

  lemma {:induction false} RewrittenCount(a: seq<Record>, b: seq<Record>, request: nat)
    requires |a| == |b|
    requires forall j :: 0 <= j < |a| ==> a[j].request == b[j].request
    ensures Count(a, request) == Count(b, request)
  {
    if a != [] { RewrittenCount(a[..|a| - 1], b[..|b| - 1], request); }
  }

  lemma {:induction false} RewrittenFind(a: seq<Record>, b: seq<Record>, attempt: nat)
    requires |a| == |b|
    requires forall j :: 0 <= j < |a| ==> a[j].attempt == b[j].attempt
    ensures Find(a, attempt) == Find(b, attempt)
  {
    if a != [] { RewrittenFind(a[..|a| - 1], b[..|b| - 1], attempt); }
  }

  lemma RewriteKeepsNumbering(a: seq<Record>, b: seq<Record>, i: nat)
    requires Numbered(a) && Rewrites(a, b, i)
    ensures Numbered(b)
  {
    forall j | 0 <= j < |b| ensures b[j].number == Count(b[..j], b[j].request) + 1 {
      assert a[j].number == b[j].number && a[j].request == b[j].request;
      RewrittenCount(a[..j], b[..j], b[j].request);
    }
  }

  /** An ended attempt is never rewritten, so a retried one stays failed. */
  lemma RewriteKeepsSequences(a: seq<Record>, b: seq<Record>, i: nat)
    requires SequencesNeverDecrease(a) && RetriedOnlyAfterFailure(a) && SourcedExactlyDeployments(a)
             && AttemptIdsDistinct(a)
    requires Rewrites(a, b, i) && (a[i].state.result != Running ==> b[i] == a[i])
    ensures SequencesNeverDecrease(b) && RetriedOnlyAfterFailure(b) && SourcedExactlyDeployments(b)
            && AttemptIdsDistinct(b)
  {
    assert forall j :: 0 <= j < |b| ==> SequenceOf(b[j]) == SequenceOf(a[j]) && b[j].request == a[j].request;
    assert b[i].kind == a[i].kind && b[i].attempt == a[i].attempt;
  }

  lemma RewriteKeepsRequests(requests: map<RequestKey, nat>, grants: map<nat, GrantRow>, a: seq<Record>, b: seq<Record>,
                             i: nat)
    requires RequestsSound(requests, a) && GrantsSound(grants, a) && Rewrites(a, b, i)
    ensures RequestsSound(requests, b) && GrantsSound(grants, b)
  {
    assert forall j :: 0 <= j < |b| ==> b[j].request == a[j].request && b[j].attempt == a[j].attempt;
    forall k | k in requests ensures Count(b, requests[k]) > 0 { RewrittenCount(a, b, requests[k]); }
    forall n | n in grants ensures Find(b, grants[n].attempt).Some? { RewrittenFind(a, b, grants[n].attempt); }
    forall j | 0 <= j < |b| ensures KeyOfRecord(b[j]) in requests && requests[KeyOfRecord(b[j])] == b[j].request {
      assert KeyOfRecord(b[j]) == KeyOfRecord(a[j]);
    }
  }

  lemma RewriteKeepsGood(a: seq<Record>, b: seq<Record>, i: nat)
    requires RecordsGood(a) && Rewrites(a, b, i) && Inv(b[i])
    ensures RecordsGood(b)
  {
    hide Inv;
  }

  lemma UpdateKeepsStoreInv(s: Store, attempt: nat, c: Call, at: int)
    requires StoreInv(s) && UpdateAttempt(s, attempt, c, at).Ok?
    ensures StoreInv(UpdateAttempt(s, attempt, c, at).value.store)
  {
    hide Inv, After, Numbered, SequencesNeverDecrease, RetriedOnlyAfterFailure, RequestsSound, GrantsSound,
      DeliveriesSound, SourcedExactlyDeployments, AttemptIdsDistinct;
    var i := Find(s.attempts, attempt).value;
    var b := UpdateAttempt(s, attempt, c, at).value.store.attempts;
    AttemptInvariants.CallKeepsIdentity(s.attempts[i], c, at);
    AttemptInvariants.CallKeepsInv(s.attempts[i], c, at);
    if s.attempts[i].state.result != Running { AttemptInvariants.EndedCallChangesNothing(s.attempts[i], c, at); }
    RewriteKeepsNumbering(s.attempts, b, i);
    RewriteKeepsSequences(s.attempts, b, i);
    RewriteKeepsRequests(s.requests, s.grants, s.attempts, b, i);
    RewriteKeepsGood(s.attempts, b, i);
  }

  // ---------------------------------------------------------------- whole runs

  datatype StoreCall =
    | Takeover(user: nat, leaseId: nat, acquiredAt: int, expiresAt: int)
    | Interact(operation: NewOperation, lease: LeaseClaim, grant: GrantClaims, at: int, ids: FreshIds)
    | InteractDeploy(operation: NewOperation, head: nat, source: SourceEvidence, lease: LeaseClaim, grant: GrantClaims,
                     at: int, ids: FreshIds)
    | Automate(automation: AutomationAdmission, at: int, ids: FreshIds)
    | OnAttempt(attempt: nat, call: Call, at: int)

  /** What an admission call replied; None for refusals and for calls that do not admit. */
  ghost function ReplyTo(s: Store, c: StoreCall): Option<Reply> {
    match c
    case Interact(o, lease, grant, at, ids) => ReplyOf(AdmitUnsourced(s, o, lease, grant, at, ids))
    case InteractDeploy(o, head, source, lease, grant, at, ids) =>
      ReplyOf(AdmitVerifiedDeploy(s, o, head, source, lease, grant, at, ids))
    case Automate(a, at, ids) => ReplyOf(AdmitAutomation(s, a, at, ids))
    case _ => None
  }

  ghost function ReplyOf(r: Result<Admission, AdmissionError>): Option<Reply> {
    if r.Ok? then Some(r.value.reply) else None
  }

  ghost function Step(s: Store, c: StoreCall): Store {
    match c
    case Takeover(user, leaseId, acquiredAt, expiresAt) =>
      var r := TakeoverLease(s, user, leaseId, acquiredAt, expiresAt);
      if r.Ok? then r.value else s
    case Interact(o, lease, grant, at, ids) => StoreOf(s, AdmitUnsourced(s, o, lease, grant, at, ids))
    case InteractDeploy(o, head, source, lease, grant, at, ids) =>
      StoreOf(s, AdmitVerifiedDeploy(s, o, head, source, lease, grant, at, ids))
    case Automate(a, at, ids) => StoreOf(s, AdmitAutomation(s, a, at, ids))
    case OnAttempt(attempt, call, at) =>
      var r := UpdateAttempt(s, attempt, call, at);
      if r.Ok? then r.value.store else s
  }

  ghost function StoreOf(s: Store, r: Result<Admission, AdmissionError>): Store {
    if r.Ok? then r.value.store else s
  }

  /** The tables after the first n calls of a run that starts empty. */
  ghost function At(calls: seq<StoreCall>, n: nat): Store
    requires n <= |calls|
  {
    if n == 0 then EMPTY_STORE else Step(At(calls, n - 1), calls[n - 1])
  }

  lemma StepKeepsStoreInv(s: Store, c: StoreCall)
    requires StoreInv(s)
    ensures StoreInv(Step(s, c))
  {
    hide Inv, AdmitInteractive, AdmitAutomation, UpdateAttempt, StoreInv;
    match c
    case Takeover(_, _, _, _) => LeasesDoNotMatter(s, Step(s, c));
    case Interact(o, lease, grant, at, ids) =>
      if AdmitUnsourced(s, o, lease, grant, at, ids).Ok? {
        InteractiveKeepsStoreInv(s, o, lease, grant, None, at, ids);
      }
    case InteractDeploy(o, head, source, lease, grant, at, ids) =>
      if AdmitVerifiedDeploy(s, o, head, source, lease, grant, at, ids).Ok? {
        InteractiveKeepsStoreInv(s, o, lease, grant, Some(source), at, ids);
      }
    case Automate(a, at, ids) => if AdmitAutomation(s, a, at, ids).Ok? { AutomationKeepsStoreInv(s, a, at, ids); }
    case OnAttempt(attempt, call, at) =>
      if UpdateAttempt(s, attempt, call, at).Ok? { UpdateKeepsStoreInv(s, attempt, call, at); }
  }

  lemma LeasesDoNotMatter(s: Store, s': Store)
    requires StoreInv(s) && s' == s.(leases := s'.leases)
    ensures StoreInv(s')
  {
  }

  lemma EmptyIsSound()
    ensures StoreInv(EMPTY_STORE)
  {
  }

  /** The tables are sound after every run. */
  lemma {:induction false} EveryRunIsSound(calls: seq<StoreCall>, n: nat)
    requires n <= |calls|
    ensures StoreInv(At(calls, n))
  {
    hide Inv, Step, StoreInv;
    if n == 0 {
      EmptyIsSound();
    } else {
      EveryRunIsSound(calls, n - 1);
      StepKeepsStoreInv(At(calls, n - 1), calls[n - 1]);
    }
  }

  // ---------------------------------------------------------------- what runs can never do

  lemma {:induction false} CountGrows(attempts: seq<Record>, i: nat, request: nat)
    requires i < |attempts|
    ensures Count(attempts[..i], request) + (if attempts[i].request == request then 1 else 0)
            <= Count(attempts, request)
  {
    var n := |attempts| - 1;
    if i < n {
      CountGrows(attempts[..n], i, request);
      assert attempts[..n][..i] == attempts[..i];
    }
  }

  /** The number of an attempt is its place among the attempts of its request, so they are 1..n in order. */
  lemma NumbersAreOneToN(calls: seq<StoreCall>, n: nat, i: nat, j: nat)
    requires n <= |calls|
    requires i <= j < |At(calls, n).attempts|
    requires At(calls, n).attempts[i].request == At(calls, n).attempts[j].request
    ensures var attempts := At(calls, n).attempts;
            && attempts[i].number == Count(attempts[..i + 1], attempts[i].request)
            && 1 <= attempts[i].number <= attempts[j].number <= Count(attempts, attempts[i].request)
            && (i < j ==> attempts[i].number < attempts[j].number)
  {
    hide StoreInv, At, Numbered, Count;
    EveryRunIsSound(calls, n);
    SoundParts(At(calls, n));
    var attempts := At(calls, n).attempts;
    NumberIsPlace(attempts, i);
    NumberIsPlace(attempts, j);
    if i < j { NumbersIncrease(attempts, i, j); }
  }

  lemma NumberIsPlace(attempts: seq<Record>, i: nat)
    requires Numbered(attempts) && i < |attempts|
    ensures attempts[i].number == Count(attempts[..i + 1], attempts[i].request)
    ensures 1 <= attempts[i].number <= Count(attempts, attempts[i].request)
  {
    assert attempts[i].number == Count(attempts[..i], attempts[i].request) + 1;
    assert attempts[..i + 1][..i] == attempts[..i];
    CountGrows(attempts, i, attempts[i].request);
  }

  lemma NumbersIncrease(attempts: seq<Record>, i: nat, j: nat)
    requires Numbered(attempts) && i < j < |attempts| && attempts[i].request == attempts[j].request
    ensures attempts[i].number < attempts[j].number
  {
    assert attempts[j].number == Count(attempts[..j], attempts[j].request) + 1;
    assert attempts[i].number == Count(attempts[..i], attempts[i].request) + 1;
    hide Numbered;
    CountGrows(attempts[..j], i, attempts[i].request);
    assert attempts[..j][..i] == attempts[..i];
  }

  lemma SoundParts(s: Store)
    requires StoreInv(s)
    ensures Numbered(s.attempts) && RetriedOnlyAfterFailure(s.attempts) && GrantsSound(s.grants, s.attempts)
  {
  }

  /** At most one attempt per request and source sequence is running. */
  lemma AtMostOneLive(calls: seq<StoreCall>, n: nat, i: nat, j: nat)
    requires n <= |calls|
    requires i < |At(calls, n).attempts| && j < |At(calls, n).attempts|
    requires var attempts := At(calls, n).attempts;
             && attempts[i].request == attempts[j].request
             && attempts[i].evidence.sourceSequence == attempts[j].evidence.sourceSequence
             && attempts[i].state.result == attempts[j].state.result == Running
    ensures i == j
  {
    hide StoreInv, At;
    EveryRunIsSound(calls, n);
    SoundParts(At(calls, n));
  }

  /** Neither corruption error of automated admission can occur, and no request waits for recovery. */
  lemma NoCorruption(calls: seq<StoreCall>, n: nat, a: AutomationAdmission, at: int, ids: FreshIds)
    requires n <= |calls|
    ensures AdmitAutomation(At(calls, n), a, at, ids)
            !in {Err(CorruptDelivery), Err(CorruptSequence), Err(RecoveryRequired)}
  {
    EveryRunIsSound(calls, n);
    NoCorruptionIn(At(calls, n), a, at, ids);
  }

  lemma NoCorruptionIn(s: Store, a: AutomationAdmission, at: int, ids: FreshIds)
    requires StoreInv(s)
    ensures AdmitAutomation(s, a, at, ids) !in {Err(CorruptDelivery), Err(CorruptSequence), Err(RecoveryRequired)}
  {
    hide Inv, Numbered, SequencesNeverDecrease, RetriedOnlyAfterFailure, GrantsSound, InsertAttempt, NewRecord, Count;
    var key := DeliveryKey(a.channel, a.deliveryId);
    if key in s.deliveries {
      var k :| k in s.requests && s.requests[k] == s.deliveries[key].request;
      var i := LatestIsLast(s.attempts, s.requests[k]);
    } else if ValidateAutomation(a).None? && FindOrCreateRequest(s, a.operation, ids).Ok? {
      var row := FindOrCreateRequest(s, a.operation, ids).value;
      RequestRowFacts(s, a.operation, ids, row);
      LatestFacts(s.attempts, row.request, Deploy);
      if Latest(s.attempts, row.request).Some? { LatestNeedsNoRecovery(s.attempts, row.request); }
    }
  }

  lemma LatestNeedsNoRecovery(attempts: seq<Record>, request: nat)
    requires Numbered(attempts) && RecordsGood(attempts) && Latest(attempts, request).Some?
    ensures Latest(attempts, request).value.state.result !in {ManualRecoveryRequired, RollbackFailed}
  {
    var i := LatestIsLast(attempts, request);
    assert Inv(attempts[i]);
  }

  // ---------------------------------------------------------------- spent once

  /** Spent grants and deliveries stay spent, with the same row, whatever is called next. */
  lemma StepKeepsSpent(s: Store, c: StoreCall)
    ensures forall n :: n in s.grants ==> n in Step(s, c).grants && Step(s, c).grants[n] == s.grants[n]
    ensures forall d :: d in s.deliveries ==> d in Step(s, c).deliveries && Step(s, c).deliveries[d] == s.deliveries[d]
  {
    hide After, DecideInteractive, DecideAutomation, InsertAttempt, FindOrCreateRequest, NewRecord, ValidateOperation,
      ValidateGrant, ValidateLease, Latest, Find;
    match c
    case Interact(o, lease, grant, at, ids) =>
    case InteractDeploy(o, head, source, lease, grant, at, ids) =>
    case Automate(a, at, ids) =>
    case _ =>
  }

  lemma {:induction false} SpentForever(calls: seq<StoreCall>, i: nat, j: nat)
    requires i <= j <= |calls|
    ensures forall n :: n in At(calls, i).grants ==>
              n in At(calls, j).grants && At(calls, j).grants[n] == At(calls, i).grants[n]
    ensures forall d :: d in At(calls, i).deliveries ==>
                          d in At(calls, j).deliveries && At(calls, j).deliveries[d] == At(calls, i).deliveries[d]
    decreases j
  {
    hide Step;
    if i < j {
      SpentForever(calls, i, j - 1);
      StepKeepsSpent(At(calls, j - 1), calls[j - 1]);
    }
  }

  ghost function NonceOf(c: StoreCall): Option<nat> {
    match c
    case Interact(_, _, grant, _, _) => Some(grant.nonce)
    case InteractDeploy(_, _, _, _, grant, _, _) => Some(grant.nonce)
    case _ => None
  }

  ghost function DeliveryOf(c: StoreCall): Option<DeliveryKey> {
    match c
    case Automate(a, _, _) => Some(DeliveryKey(a.channel, a.deliveryId))
    case _ => None
  }

  ghost predicate Creates(calls: seq<StoreCall>, i: nat)
    requires i < |calls|
  {
    var reply := ReplyTo(At(calls, i), calls[i]);
    reply.Some? && reply.value.Created?
  }

  /** Creating with a nonce spends it; with a spent nonce nothing is created or changed. */
  lemma InteractiveSpends(s: Store, o: NewOperation, lease: LeaseClaim, grant: GrantClaims,
                          source: Option<SourceEvidence>, at: int, ids: FreshIds)
    requires AdmitInteractive(s, o, lease, grant, source, at, ids).Ok?
    ensures var a := AdmitInteractive(s, o, lease, grant, source, at, ids).value;
            && (a.reply.Created? ==>
                  && grant.nonce !in s.grants && grant.nonce in a.store.grants
                  && a.store.grants[grant.nonce] ==
                       GrantRow(grant.digest, a.reply.record.request, a.reply.record.attempt))
            && (GrantsSound(s.grants, s.attempts) && grant.nonce in s.grants ==>
                  && a.store == s
                  && a.reply.Existing?
                  && s.grants[grant.nonce].digest == grant.digest
                  && a.reply.record.attempt == s.grants[grant.nonce].attempt)
  {
    hide DecideInteractive, InsertAttempt, FindOrCreateRequest, ValidateOperation, ValidateGrant, ValidateLease, Latest;
  }

  lemma AutomationSpends(s: Store, a: AutomationAdmission, at: int, ids: FreshIds)
    requires AdmitAutomation(s, a, at, ids).Ok?
    ensures var key := DeliveryKey(a.channel, a.deliveryId);
            && key in AdmitAutomation(s, a, at, ids).value.store.deliveries
            && (key in s.deliveries ==> AdmitAutomation(s, a, at, ids).value.reply.Existing?
                                        && AdmitAutomation(s, a, at, ids).value.store == s)
  {
    hide DecideAutomation, InsertAttempt, FindOrCreateRequest, NewRecord, Latest;
  }

  /** In any run, each grant nonce creates at most one attempt. */
  lemma NonceCreatesOnce(calls: seq<StoreCall>, i: nat, j: nat)
    requires i < j < |calls|
    requires NonceOf(calls[i]).Some? && NonceOf(calls[i]) == NonceOf(calls[j])
    ensures !(Creates(calls, i) && Creates(calls, j))
  {
    hide AdmitInteractive, AdmitAutomation, UpdateAttempt, TakeoverLease;
    if Creates(calls, i) && Creates(calls, j) {
      SpendsAt(calls, i);
      SpendsAt(calls, j);
      SpentForever(calls, i + 1, j);
    }
  }

  /** The interactive call at position i, with its creation recorded in the grant table. */
  lemma SpendsAt(calls: seq<StoreCall>, i: nat)
    requires i < |calls| && NonceOf(calls[i]).Some? && Creates(calls, i)
    ensures var nonce := NonceOf(calls[i]).value;
            && nonce !in At(calls, i).grants
            && nonce in At(calls, i + 1).grants
            && At(calls, i + 1).grants[nonce].attempt == ReplyTo(At(calls, i), calls[i]).value.record.attempt
            && GrantDigestOf(calls[i]) == Some(At(calls, i + 1).grants[nonce].digest)
  {
    hide AdmitInteractive;
    match calls[i]
    case Interact(o, lease, grant, at, ids) => InteractiveSpends(At(calls, i), o, lease, grant, None, at, ids);
    case InteractDeploy(o, head, source, lease, grant, at, ids) =>
      InteractiveSpends(At(calls, i), o, lease, grant, Some(source), at, ids);
  }

  /** The checks an interactive call passes before the grant table is consulted. */
  ghost predicate PassesChecks(s: Store, c: StoreCall) {
    match c
    case Interact(o, lease, grant, at, _) =>
      && o.kind != Deploy
      && ValidateOperation(o).None? && ValidateGrant(o, lease, grant, at).None?
      && ValidateLease(s.leases, lease, at).None?
    case InteractDeploy(o, head, source, lease, grant, at, _) =>
      && o.kind == Deploy && o.commit == Some(head) && source.sequence > 0
      && ValidateOperation(o).None? && ValidateGrant(o, lease, grant, at).None?
      && ValidateLease(s.leases, lease, at).None?
    case _ => false
  }

  ghost function GrantDigestOf(c: StoreCall): Option<nat> {
    match c
    case Interact(_, _, grant, _, _) => Some(grant.digest)
    case InteractDeploy(_, _, _, _, grant, _, _) => Some(grant.digest)
    case _ => None
  }

  /** With a spent nonce the outcome of the transaction is decided by the checks and the digest alone. */
  lemma SpentNonceOutcome(s: Store, o: NewOperation, lease: LeaseClaim, grant: GrantClaims,
                          source: Option<SourceEvidence>, at: int, ids: FreshIds)
    requires grant.nonce in s.grants && Find(s.attempts, s.grants[grant.nonce].attempt).Some?
    ensures var r := AdmitInteractive(s, o, lease, grant, source, at, ids);
            var record := s.attempts[Find(s.attempts, s.grants[grant.nonce].attempt).value];
            && (r.Ok? <==>
                  && ValidateOperation(o).None? && ValidateGrant(o, lease, grant, at).None?
                  && ValidateLease(s.leases, lease, at).None?
                  && grant.digest == s.grants[grant.nonce].digest)
            && (r.Ok? ==> r.value == Admission(s, Existing(record)))
  {
    hide DecideInteractive, InsertAttempt, FindOrCreateRequest, ValidateOperation, ValidateGrant, ValidateLease, Latest,
      Find, NewRecord;
  }

  lemma SpentNonceStep(s: Store, c: StoreCall)
    requires NonceOf(c).Some? && NonceOf(c).value in s.grants && GrantsSound(s.grants, s.attempts)
    ensures var row := s.grants[NonceOf(c).value];
            var reply := ReplyTo(s, c);
            && Find(s.attempts, row.attempt).Some?
            && Step(s, c) == s
            && (reply.Some? <==> PassesChecks(s, c) && GrantDigestOf(c) == Some(row.digest))
            && (reply.Some? ==> reply.value == Existing(s.attempts[Find(s.attempts, row.attempt).value]))
  {
    hide AdmitInteractive, ValidateOperation, ValidateGrant, ValidateLease, Find;
    match c
    case Interact(o, lease, grant, at, ids) => SpentNonceOutcome(s, o, lease, grant, None, at, ids);
    case InteractDeploy(o, head, source, lease, grant, at, ids) =>
      SpentNonceOutcome(s, o, lease, grant, Some(source), at, ids);
  }

  /**
    Replaying the nonce that created an attempt never changes a table.  It is answered exactly when
    the call passes its checks and carries the digest the nonce was spent with, and then with the
    attempt it created, as that attempt stands.
  */
  lemma NonceReplayIsIdempotent(calls: seq<StoreCall>, i: nat, j: nat)
    requires i < j < |calls| && Creates(calls, i)
    requires NonceOf(calls[i]).Some? && NonceOf(calls[i]) == NonceOf(calls[j])
    ensures var created, reply := ReplyTo(At(calls, i), calls[i]).value.record, ReplyTo(At(calls, j), calls[j]);
            var row := Find(At(calls, j).attempts, created.attempt);
            && At(calls, j + 1) == At(calls, j)
            && row.Some?
            && (reply.Some? <==>
                  PassesChecks(At(calls, j), calls[j]) && GrantDigestOf(calls[j]) == GrantDigestOf(calls[i]))
            && (reply.Some? ==> reply.value == Existing(At(calls, j).attempts[row.value]))
  {
    hide AdmitInteractive, AdmitAutomation, UpdateAttempt, TakeoverLease, StoreInv, GrantsSound, PassesChecks, Find;
    SpendsAt(calls, i);
    SpentForever(calls, i + 1, j);
    EveryRunIsSound(calls, j);
    SoundParts(At(calls, j));
    SpentNonceStep(At(calls, j), calls[j]);
  }

  /** In any run, each delivery creates at most one attempt. */
  lemma DeliveryCreatesOnce(calls: seq<StoreCall>, i: nat, j: nat)
    requires i < j < |calls|
    requires DeliveryOf(calls[i]).Some? && DeliveryOf(calls[i]) == DeliveryOf(calls[j])
    ensures !(Creates(calls, i) && Creates(calls, j))
  {
    hide AdmitInteractive, AdmitAutomation, UpdateAttempt, TakeoverLease;
    if Creates(calls, i) && Creates(calls, j) {
      AutomationSpends(At(calls, i), calls[i].automation, calls[i].at, calls[i].ids);
      SpentForever(calls, i + 1, j);
      AutomationSpends(At(calls, j), calls[j].automation, calls[j].at, calls[j].ids);
    }
  }

  // ---------------------------------------------------------------- the automation budget

  /** No source sequence of any request has had more than `maximum` attempts. */
  ghost predicate WithinBudget(attempts: seq<Record>, maximum: nat) {
    forall request, sequence :: CountForSequence(attempts, request, sequence) <= maximum
  }

  lemma {:induction false} RewrittenSequenceCount(a: seq<Record>, b: seq<Record>, request: nat, sequence: nat)
    requires |a| == |b|
    requires forall j :: 0 <= j < |a| ==>
               a[j].request == b[j].request && a[j].evidence.sourceSequence == b[j].evidence.sourceSequence
    ensures CountForSequence(a, request, sequence) == CountForSequence(b, request, sequence)
  {
    if a != [] { RewrittenSequenceCount(a[..|a| - 1], b[..|b| - 1], request, sequence); }
  }

  lemma AppendedSequenceCount(attempts: seq<Record>, r: Record, request: nat, sequence: nat)
    ensures CountForSequence(attempts + [r], request, sequence)
         == CountForSequence(attempts, request, sequence)
            + if r.request == request && r.evidence.sourceSequence == Some(sequence) then 1 else 0
  {
    assert (attempts + [r])[..|attempts|] == attempts;
  }

  /** A sequence later than every stored one has not been attempted. */
  lemma {:induction false} LaterSequenceIsNew(attempts: seq<Record>, request: nat, sequence: nat)
    requires forall i :: 0 <= i < |attempts| && attempts[i].request == request ==> SequenceOf(attempts[i]) < sequence
    ensures CountForSequence(attempts, request, sequence) == 0
  {
    if attempts != [] { LaterSequenceIsNew(attempts[..|attempts| - 1], request, sequence); }
  }

  lemma NewSequenceCount(attempts: seq<Record>, request: nat, sequence: nat)
    requires Numbered(attempts) && SequencesNeverDecrease(attempts) && sequence > 0
    requires Latest(attempts, request).None? || SequenceOf(Latest(attempts, request).value) < sequence
    ensures CountForSequence(attempts, request, sequence) == 0
  {
    hide Numbered, Latest, Count;
    var k := LatestIsLast(attempts, request);
    forall i | 0 <= i < |attempts| && attempts[i].request == request ensures SequenceOf(attempts[i]) < sequence {
      CountPositive(attempts, i);
    }
    LaterSequenceIsNew(attempts, request, sequence);
  }

  lemma DecisionIsWithinBudget(attempts: seq<Record>, request: nat, a: AutomationAdmission)
    requires Numbered(attempts) && SequencesNeverDecrease(attempts) && a.source.sequence > 0 && a.maximumAttempts > 0
    requires var d := DecideAutomation(attempts, request, Latest(attempts, request), a); d.Ok? && d.value.Create?
    ensures CountForSequence(attempts, request, a.source.sequence) < a.maximumAttempts
  {
    hide Numbered, SequencesNeverDecrease, Latest, CountForSequence;
    var latest := Latest(attempts, request);
    if latest.None? || SequenceOf(latest.value) < a.source.sequence {
      NewSequenceCount(attempts, request, a.source.sequence);
    }
  }

  lemma AutomationStaysWithinBudget(s: Store, a: AutomationAdmission, at: int, ids: FreshIds)
    requires StoreInv(s) && AdmitAutomation(s, a, at, ids).Ok? && WithinBudget(s.attempts, a.maximumAttempts)
    ensures WithinBudget(AdmitAutomation(s, a, at, ids).value.store.attempts, a.maximumAttempts)
  {
    hide Inv, RecordsGood, Numbered, SequencesNeverDecrease, RetriedOnlyAfterFailure, SourcedExactlyDeployments,
      RequestsSound, GrantsSound, DeliveriesSound, AttemptIdsDistinct, InsertAttempt, DecideAutomation,
      CountForSequence, Latest, FindOrCreateRequest;
    var after := AdmitAutomation(s, a, at, ids).value;
    if after.reply.Created? {
      var r := after.reply.record;
      InsertAppends(s.attempts, r);
      DecisionIsWithinBudget(s.attempts, r.request, a);
      forall request, sequence ensures CountForSequence(s.attempts + [r], request, sequence) <= a.maximumAttempts {
        AppendedSequenceCount(s.attempts, r, request, sequence);
      }
    }
  }

  lemma UpdateStaysWithinBudget(s: Store, attempt: nat, call: Call, at: int, maximum: nat)
    requires UpdateAttempt(s, attempt, call, at).Ok? && WithinBudget(s.attempts, maximum)
    ensures WithinBudget(UpdateAttempt(s, attempt, call, at).value.store.attempts, maximum)
  {
    hide After, CountForSequence;
    var i := Find(s.attempts, attempt).value;
    AttemptInvariants.CallKeepsIdentity(s.attempts[i], call, at);
    var attempts := UpdateAttempt(s, attempt, call, at).value.store.attempts;
    forall request, sequence ensures CountForSequence(attempts, request, sequence) <= maximum {
      RewrittenSequenceCount(s.attempts, attempts, request, sequence);
    }
  }

  lemma EmptyWithinBudget(maximum: nat)
    ensures WithinBudget([], maximum)
  {
  }

  /** Calls that admit only automatically, all under the same installed maximum. */
  ghost predicate AutomatedUnder(calls: seq<StoreCall>, maximum: nat) {
    forall i :: 0 <= i < |calls| ==>
                  || calls[i].Takeover?
                  || calls[i].OnAttempt?
                  || (calls[i].Automate? && calls[i].automation.maximumAttempts == maximum)
  }

  /** If every admission is automated under one maximum, no source sequence exceeds it. */
  lemma {:induction false} AutomationBudgetHolds(calls: seq<StoreCall>, n: nat, maximum: nat)
    requires n <= |calls| && AutomatedUnder(calls, maximum)
    ensures WithinBudget(At(calls, n).attempts, maximum)
  {
    hide AdmitAutomation, AdmitInteractive, UpdateAttempt, StoreInv, WithinBudget;
    if n > 0 {
      var s, c := At(calls, n - 1), calls[n - 1];
      AutomationBudgetHolds(calls, n - 1, maximum);
      EveryRunIsSound(calls, n - 1);
      match c
      case Takeover(_, _, _, _) =>
      case Automate(a, at, ids) => if AdmitAutomation(s, a, at, ids).Ok? { AutomationStaysWithinBudget(s, a, at, ids); }
      case OnAttempt(attempt, call, at) =>
        if UpdateAttempt(s, attempt, call, at).Ok? { UpdateStaysWithinBudget(s, attempt, call, at, maximum); }
    } else {
      EmptyWithinBudget(maximum);
    }
  }

  // ---------------------------------------------------------------- tab leases

  /** Calls other than takeovers leave the leases alone, and a takeover raises one user's generation. */
  lemma StepRaisesGenerations(s: Store, c: StoreCall, user: nat)
    requires user in s.leases
    ensures user in Step(s, c).leases && s.leases[user].generation <= Step(s, c).leases[user].generation
    ensures c.Takeover? && c.user == user && Step(s, c) != s ==>
              s.leases[user].generation < Step(s, c).leases[user].generation
  {
    hide After, DecideInteractive, DecideAutomation, InsertAttempt, FindOrCreateRequest, NewRecord, ValidateOperation,
      ValidateGrant, ValidateLease, Latest, Find;
    match c
    case Interact(o, lease, grant, at, ids) =>
    case InteractDeploy(o, head, source, lease, grant, at, ids) =>
    case Automate(a, at, ids) =>
    case _ =>
  }

  lemma {:induction false} GenerationsNeverFall(calls: seq<StoreCall>, i: nat, j: nat, user: nat)
    requires i <= j <= |calls| && user in At(calls, i).leases
    ensures user in At(calls, j).leases && At(calls, i).leases[user].generation <= At(calls, j).leases[user].generation
    decreases j
  {
    hide Step;
    if i < j {
      GenerationsNeverFall(calls, i, j - 1, user);
      StepRaisesGenerations(At(calls, j - 1), calls[j - 1], user);
    }
  }

  /** Once a user's lease is taken over, every claim on an older generation is refused for the rest of the run. */
  lemma TakeoverRevokesForever(calls: seq<StoreCall>, i: nat, j: nat, claim: LeaseClaim, at: int)
    requires i < j <= |calls| && calls[i].Takeover? && calls[i].user == claim.user && At(calls, i + 1) != At(calls, i)
    requires claim.user in At(calls, i).leases && claim.generation <= At(calls, i).leases[claim.user].generation
    ensures ValidateLease(At(calls, j).leases, claim, at) in {Some(InvalidControllerInput), Some(LeaseRevoked)}
  {
    hide Step;
    StepRaisesGenerations(At(calls, i), calls[i], claim.user);
    GenerationsNeverFall(calls, i + 1, j, claim.user);
  }
}
