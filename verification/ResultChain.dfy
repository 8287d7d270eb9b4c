/**
  Step results of one authorised phase.  Each result names the digest of the one before it;
  a result is authorised against the list of all earlier results, and a complete list is
  projected into the artifacts of the phase.
*/
module ResultChain {
  import opened Domain
  import opened BackupInventory
  import opened BackupChain

  datatype Profile =
    | BackupCapture | BackupEncryptAge | BackupUploadGoogleDrive | BackupReadbackVerify
    | OtherProfile(id: nat)

  datatype Schema =
    | ManifestSchema | LocalSchema | UploadSchema | OffsiteSchema
    | InspectionSchema | ObservationSchema(id: nat)

  /** An observation document carries the artifacts it reports; whether they fit the spec is checked apart. */
  datatype StepEvidence =
    | ManifestEvidence(manifest: Manifest)
    | LocalEvidence(local: Local)
    | UploadEvidence(upload: Upload)
    | OffsiteEvidence(offsite: Offsite)
    | InspectionEvidence(at: int, fits: bool)
    | ObservationEvidence(schema: nat, at: int, artifacts: Artifacts)

  datatype Step = Step(profile: Profile, schema: Schema, timeout: nat)

  datatype PhaseSpecContent = PhaseSpecContent(
    attempt: nat, request: nat, project: nat, phase: Phase, branch: Branch, backup: Option<Spec>,
    notBefore: Option<int>, notAfter: Option<int>, expected: Artifacts, steps: seq<Step>)

  datatype PhaseSpecDigest = PhaseSpecDigest(content: PhaseSpecContent)

  datatype PhaseSpec = PhaseSpec(content: PhaseSpecContent, digest: PhaseSpecDigest)

  const BACKUP_STEPS: seq<(Profile, Schema)> :=
    [(BackupCapture, ManifestSchema), (BackupEncryptAge, LocalSchema),
     (BackupUploadGoogleDrive, UploadSchema), (BackupReadbackVerify, OffsiteSchema)]

  /** The steps a phase asks for, as far as backup phases are concerned, and the window every request carries. */
  predicate ValidPhaseSpec(s: PhaseSpec) {
    var c := s.content;
    && c.attempt != 0 && c.request != 0 && c.steps != [] && |c.steps| <= 0xFFFF
    && (match (c.notBefore, c.notAfter)
        case (Some(a), Some(b)) => a <= b
        case (None, None) => true
        case _ => false)
    && (c.phase == BackingUp ==>
          && c.backup.Some? && ValidSpec(c.backup.value) && c.backup.value.content.kind == Base
          && c.expected == Artifacts(None, map[])
          && StepsAre(c.steps, BACKUP_STEPS))
    && (c.phase == CutoverSnapshotting ==>
          && c.backup.Some? && ValidSpec(c.backup.value) && c.backup.value.content.kind == Cutover
          && c.expected.specDigest.None? && c.expected.fields.Keys == {BackupSetId, FencingEpoch}
          && StepsAre(c.steps, BACKUP_STEPS[..2]))
    && (c.backup.Some? ==> c.backup.value.content.attempt == c.attempt && c.backup.value.content.project == c.project)
    && s.digest == PhaseSpecDigest(c)
  }

  predicate StepsAre(steps: seq<Step>, wanted: seq<(Profile, Schema)>) {
    && |steps| == |wanted|
    && forall i :: 0 <= i < |steps| ==> steps[i].profile == wanted[i].0 && steps[i].schema == wanted[i].1
  }

  /** Request documents are determined by the spec and the step's number. */
  datatype RequestDigest = RequestDigest(spec: PhaseSpecContent, sequence: nat)

  datatype ResultContent = ResultContent(
    attempt: nat, request: nat, project: nat, phase: Phase, branch: Branch, sequence: nat, profile: Profile,
    schema: Schema, requestDocument: RequestDigest, spec: PhaseSpecDigest, prior: Option<ResultDigest>,
    completedAt: int, evidence: StepEvidence)

  datatype ResultDigest = ResultDigest(content: ResultContent)

  datatype StepResult = StepResult(content: ResultContent, digest: ResultDigest)

  function SchemaOf(e: StepEvidence): Schema {
    match e
    case ManifestEvidence(_) => ManifestSchema
    case LocalEvidence(_) => LocalSchema
    case UploadEvidence(_) => UploadSchema
    case OffsiteEvidence(_) => OffsiteSchema
    case InspectionEvidence(_, _) => InspectionSchema
    case ObservationEvidence(id, _, _) => ObservationSchema(id)
  }

  function TimeOf(e: StepEvidence): int {
    match e
    case ManifestEvidence(m) => m.content.completedAt
    case LocalEvidence(l) => l.content.encryption.encryptedAt
    case UploadEvidence(u) => u.content.uploadedAt
    case OffsiteEvidence(o) => o.content.verifiedAt
    case InspectionEvidence(at, _) => at
    case ObservationEvidence(_, at, _) => at
  }

  // ---------------------------------------------------------------- checking one result

  predicate HasValidDigest(r: StepResult) {
    && r.content.completedAt >= 0
    && r.content.schema == SchemaOf(r.content.evidence)
    && r.content.completedAt == TimeOf(r.content.evidence)
    && r.digest == ResultDigest(r.content)
  }

  predicate IdentityMatches(r: StepResult, s: PhaseSpec, sequence: nat)
    requires 1 <= sequence <= |s.content.steps|
  {
    var c, p := r.content, s.content;
    && c.attempt == p.attempt && c.request == p.request && c.project == p.project && c.phase == p.phase
    && c.branch == p.branch
    && c.sequence == sequence && c.profile == p.steps[sequence - 1].profile && c.schema == p.steps[sequence - 1].schema
    && c.requestDocument == RequestDigest(p, sequence) && c.spec == s.digest
  }

  function LastDigest(prior: seq<StepResult>): Option<ResultDigest> {
    if prior == [] then None else Some(prior[|prior| - 1].digest)
  }

  /** Inside the request's window. */
  predicate Timely(r: StepResult, s: PhaseSpec) {
    && (s.content.notBefore.Some? ==> s.content.notBefore.value <= r.content.completedAt)
    && (s.content.notAfter.Some? ==> r.content.completedAt <= s.content.notAfter.value)
  }

  function FindManifest(rs: seq<StepResult>): (r: Option<Manifest>) {
    if rs == [] then None
    else if rs[0].content.evidence.ManifestEvidence? then Some(rs[0].content.evidence.manifest)
    else FindManifest(rs[1..])
  }

  function FindLocal(rs: seq<StepResult>): (r: Option<Local>) {
    if rs == [] then None
    else if rs[0].content.evidence.LocalEvidence? then Some(rs[0].content.evidence.local)
    else FindLocal(rs[1..])
  }

  function FindUpload(rs: seq<StepResult>): (r: Option<Upload>) {
    if rs == [] then None
    else if rs[0].content.evidence.UploadEvidence? then Some(rs[0].content.evidence.upload)
    else FindUpload(rs[1..])
  }

  function FindOffsite(rs: seq<StepResult>): (r: Option<Offsite>) {
    if rs == [] then None
    else if rs[0].content.evidence.OffsiteEvidence? then Some(rs[0].content.evidence.offsite)
    else FindOffsite(rs[1..])
  }

  /** Observed artifacts belong to the phase and repeat every artifact the spec expects. */
  predicate ObservedFits(s: PhaseSpec, a: Artifacts) {
    && ValidForPhase(a, s.content.phase)
    && (forall f :: f in s.content.expected.fields ==> f in a.fields && a.fields[f] == s.content.expected.fields[f])
    && (PreviousReleaseBundle in a.fields ==> PreviousReleaseBundle in s.content.expected.fields)
  }

  predicate EvidenceFits(r: StepResult, s: PhaseSpec, prior: seq<StepResult>) {
    var backup := s.content.backup;
    match r.content.evidence
    case ManifestEvidence(m) => backup.Some? && VerifiedAgainst(m, backup.value)
    case LocalEvidence(l) =>
      backup.Some? && FindManifest(prior).Some? && LocalVerified(l, backup.value, FindManifest(prior).value)
    case UploadEvidence(u) =>
      backup.Some? && FindLocal(prior).Some? && UploadVerified(u, backup.value, FindLocal(prior).value)
    case OffsiteEvidence(o) =>
      && backup.Some? && FindLocal(prior).Some? && FindUpload(prior).Some?
      && OffsiteVerified(o, backup.value, FindLocal(prior).value, FindUpload(prior).value)
    case InspectionEvidence(_, fits) => fits
    case ObservationEvidence(_, at, a) => at >= 0 && ObservedFits(s, a)
  }

  // ---------------------------------------------------------------- the two validators

  /** The spec answers with a request document for this step. */
  predicate HasRequest(s: PhaseSpec, sequence: nat) {
    ValidPhaseSpec(s) && 1 <= sequence <= |s.content.steps|
  }

  /** The check of one element in the pass over a prior chain: it looks back at its neighbour. */
  predicate ElementValid(s: PhaseSpec, prior: seq<StepResult>, index: nat)
    requires index < |prior|
  {
    && HasRequest(s, index + 1)
    && HasValidDigest(prior[index])
    && IdentityMatches(prior[index], s, index + 1)
    && prior[index].content.prior == (if index == 0 then None else Some(prior[index - 1].digest))
    && Timely(prior[index], s)
    && (index > 0 ==> prior[index - 1].content.completedAt <= prior[index].content.completedAt)
    && EvidenceFits(prior[index], s, prior[..index])
  }

  /** The rest of the pass, from `index` on; the first element refused ends it. */
  predicate PassesFrom(s: PhaseSpec, prior: seq<StepResult>, index: nat)
    decreases |prior| - index
  {
    index >= |prior| || (ElementValid(s, prior, index) && PassesFrom(s, prior, index + 1))
  }

  predicate PriorChainValid(s: PhaseSpec, sequence: nat, prior: seq<StepResult>) {
    sequence != 0 && |prior| == sequence - 1 && PassesFrom(s, prior, 0)
  }

  /** A result as the next one after the last of a prior chain; validating it validates that chain first. */
  predicate Authorised(r: StepResult, s: PhaseSpec, sequence: nat, prior: seq<StepResult>) {
    && HasRequest(s, sequence)
    && PriorChainValid(s, sequence, prior)
    && HasValidDigest(r)
    && IdentityMatches(r, s, sequence)
    && r.content.prior == LastDigest(prior)
    && Timely(r, s)
    && (prior != [] ==> prior[|prior| - 1].content.completedAt <= r.content.completedAt)
    && EvidenceFits(r, s, prior)
  }

  predicate CompleteChainValid(s: PhaseSpec, rs: seq<StepResult>) {
    && rs != [] && |rs| == |s.content.steps|
    && forall i :: 0 <= i < |rs| ==> Authorised(rs[i], s, i + 1, rs[..i])
  }

  /** The simple definition: every element is authorised against its own prefix. */
  ghost predicate AllAuthorised(s: PhaseSpec, rs: seq<StepResult>)
    decreases |rs|
  {
    rs == [] || (AllAuthorised(s, rs[..|rs| - 1]) && Authorised(rs[|rs| - 1], s, |rs|, rs[..|rs| - 1]))
  }

  /** The pass over a prior chain; it accepts exactly the chains whose every element is authorised. */
  method ValidatePriorResults(s: PhaseSpec, sequence: nat, prior: seq<StepResult>) returns (ok: bool)
    ensures ok == PriorChainValid(s, sequence, prior)
    ensures ok <==> sequence == |prior| + 1 && AllAuthorised(s, prior)
  {
    hide ElementValid, AllAuthorised;
    SinglePassIsPrefixwise(s, sequence, prior);
    if sequence == 0 || |prior| != sequence - 1 { return false; }
    var index := 0;
    while index < |prior|
      invariant 0 <= index <= |prior|
      invariant PassesFrom(s, prior, 0) == PassesFrom(s, prior, index)
    {
      if !ElementValid(s, prior, index) { return false; }
      index := index + 1;
    }
    return true;
  }

  /** The validator of complete chains starts over at every element; one pass over the list decides the same. */
  method ValidateCompleteResultChain(s: PhaseSpec, rs: seq<StepResult>) returns (ok: bool)
    ensures ok == CompleteChainValid(s, rs)
    ensures ok <==> rs != [] && |rs| == |s.content.steps| && PriorChainValid(s, |rs| + 1, rs)
  {
    hide Authorised, PriorChainValid;
    CompleteIsOnePass(s, rs);
    if rs == [] || |rs| != |s.content.steps| { return false; }
    var index := 0;
    while index < |rs|
      invariant 0 <= index <= |rs|
      invariant forall i :: 0 <= i < index ==> Authorised(rs[i], s, i + 1, rs[..i])
    {
      if !Authorised(rs[index], s, index + 1, rs[..index]) { return false; }
      index := index + 1;
    }
    return true;
  }

  lemma {:induction false} PassIsElementwise(s: PhaseSpec, prior: seq<StepResult>, index: nat)
    ensures PassesFrom(s, prior, index) <==> forall i :: index <= i < |prior| ==> ElementValid(s, prior, i)
    decreases |prior| - index
  {
    hide ElementValid;
    if index < |prior| { PassIsElementwise(s, prior, index + 1); }
  }

  lemma ElementOfPrefix(s: PhaseSpec, rs: seq<StepResult>, n: nat, i: nat)
    requires i < n <= |rs|
    ensures ElementValid(s, rs[..n], i) <==> ElementValid(s, rs, i)
  {
    hide ValidPhaseSpec, HasValidDigest, EvidenceFits, IdentityMatches;
    assert rs[..n][..i] == rs[..i];
  }

  /** A prefix of a list passes exactly when all its elements pass within the list. */
  lemma PrefixPasses(s: PhaseSpec, rs: seq<StepResult>, n: nat)
    requires n <= |rs|
    ensures PriorChainValid(s, n + 1, rs[..n]) <==> forall i :: 0 <= i < n ==> ElementValid(s, rs, i)
  {
    hide ElementValid, PassesFrom;
    PassIsElementwise(s, rs[..n], 0);
    forall i | 0 <= i < n ensures ElementValid(s, rs[..n], i) <==> ElementValid(s, rs, i) {
      ElementOfPrefix(s, rs, n, i);
    }
  }

  /** Looking back at the neighbour in the list is looking at the last of the prefix. */
  lemma ElementIsAuthorised(s: PhaseSpec, rs: seq<StepResult>, i: nat)
    requires i < |rs|
    ensures Authorised(rs[i], s, i + 1, rs[..i]) <==> PriorChainValid(s, i + 1, rs[..i]) && ElementValid(s, rs, i)
  {
    hide ValidPhaseSpec, HasValidDigest, EvidenceFits, PriorChainValid;
  }

  /** The single pass accepts exactly the lists whose every element is authorised against its own prefix. */
  lemma {:induction false} SinglePassIsPrefixwise(s: PhaseSpec, sequence: nat, prior: seq<StepResult>)
    ensures PriorChainValid(s, sequence, prior) <==> sequence == |prior| + 1 && AllAuthorised(s, prior)
    decreases |prior|
  {
    hide Authorised, ElementValid, PassesFrom;
    PrefixPasses(s, prior, |prior|);
    assert prior[..|prior|] == prior;
    if prior != [] {
      var n := |prior| - 1;
      SinglePassIsPrefixwise(s, n + 1, prior[..n]);
      PrefixPasses(s, prior, n);
      ElementIsAuthorised(s, prior, n);
    } else {
      PassIsElementwise(s, prior, 0);
    }
  }

  /** The quadratic validator of complete chains accepts exactly what one pass over the whole list accepts. */
  lemma CompleteIsOnePass(s: PhaseSpec, rs: seq<StepResult>)
    ensures CompleteChainValid(s, rs) <==> rs != [] && |rs| == |s.content.steps| && PriorChainValid(s, |rs| + 1, rs)
  {
    hide Authorised, ElementValid, PriorChainValid;
    PrefixPasses(s, rs, |rs|);
    assert rs[..|rs|] == rs;
    forall i | 0 <= i < |rs|
      ensures Authorised(rs[i], s, i + 1, rs[..i]) <==> forall j :: 0 <= j <= i ==> ElementValid(s, rs, j)
    {
      PrefixPasses(s, rs, i);
      ElementIsAuthorised(s, rs, i);
    }
    if CompleteChainValid(s, rs) { assert Authorised(rs[|rs| - 1], s, |rs|, rs[..|rs| - 1]); }
  }

  /** Times never go back along an accepted chain and stay inside the request's window. */
  lemma {:induction false} TimesNeverGoBack(s: PhaseSpec, rs: seq<StepResult>, i: nat, j: nat)
    requires CompleteChainValid(s, rs) && i <= j < |rs|
    ensures rs[i].content.completedAt <= rs[j].content.completedAt
    ensures s.content.notBefore.Some? ==> s.content.notBefore.value <= rs[i].content.completedAt
    ensures s.content.notAfter.Some? ==> rs[j].content.completedAt <= s.content.notAfter.value
    decreases j
  {
    hide ValidPhaseSpec, HasValidDigest, EvidenceFits, IdentityMatches, PriorChainValid;
    assert Authorised(rs[j], s, j + 1, rs[..j]);
    if i < j {
      TimesNeverGoBack(s, rs, i, j - 1);
      assert rs[..j][j - 1] == rs[j - 1];
    }
  }

  lemma LinkedPrefix(rs: seq<StepResult>, n: nat)
    requires Linked(rs) && n <= |rs|
    ensures Linked(rs[..n])
  {
    forall i | 0 <= i < n ensures rs[..n][..i] == rs[..i] {}
  }

  lemma {:induction false} SameLastSameChain(a: seq<StepResult>, b: seq<StepResult>)
    requires |a| == |b| && Linked(a) && Linked(b)
    requires a != [] ==> a[|a| - 1].digest == b[|b| - 1].digest
    ensures a == b
  {
    if a != [] {
      var n := |a| - 1;
      assert a[n] == b[n];
      assert a[n].content.prior == LastDigest(a[..n]) && b[n].content.prior == LastDigest(b[..n]);
      LinkedPrefix(a, n);
      LinkedPrefix(b, n);
      hide Linked;
      SameLastSameChain(a[..n], b[..n]);
      assert a == a[..n] + [a[n]] && b == b[..n] + [b[n]];
    }
  }

  /** Every result carries its own digest and its predecessor's. */
  ghost predicate Linked(rs: seq<StepResult>) {
    forall i :: 0 <= i < |rs| ==>
                  rs[i].digest == ResultDigest(rs[i].content) && rs[i].content.prior == LastDigest(rs[..i])
  }

  /** The digest of the last result determines the whole chain. */
  lemma FinalDigestDeterminesChain(s: PhaseSpec, a: seq<StepResult>, b: seq<StepResult>)
    requires CompleteChainValid(s, a) && CompleteChainValid(s, b) && a[|a| - 1].digest == b[|b| - 1].digest
    ensures a == b
  {
    hide ValidPhaseSpec, EvidenceFits, IdentityMatches, PriorChainValid;
    SameLastSameChain(a, b);
  }

  // ---------------------------------------------------------------- projection of a base backup

  /** What a base backup contributes to the operation's evidence. */
  datatype Projection = Projection(
    observation: ResultDigest, completedAt: int, setId: nat, backupId: nat,
    manifest: ManifestDigest, local: LocalDigest, offsite: OffsiteDigest, chain: Chain)

  const BASE_FIELDS: set<Field> :=
    {BackupSetId, BaseBackupId, BaseBackupManifest, BaseBackupEvidence, BaseBackupOffsite, BaseBackupVerification}

  /** The six slots are those of the phase, and the spec expects no particular value of any. */
  predicate BaseFieldsFit(s: PhaseSpec) {
    RequiredFields(s.content.phase) <= BASE_FIELDS <= OwnedFields(s.content.phase) && s.content.expected.fields == map[]
  }

  /** The base-backup projection: look the documents up again and build the verified chain. */
  function ProjectBase(s: PhaseSpec, rs: seq<StepResult>): (r: Option<Projection>) {
    if !CompleteChainValid(s, rs) || s.content.phase != BackingUp || s.content.backup.None? then None
    else
      var backup, m, l, u, o := s.content.backup.value, FindManifest(rs), FindLocal(rs), FindUpload(rs),
        FindOffsite(rs);
      if backup.content.kind != Base || m.None? || l.None? || u.None? || o.None? then None
      else
        match NewBaseChain(backup, m.value, l.value, u.value, o.value)
        case None => None
        case Some(chain) =>
          if !BaseFieldsFit(s) then None
          else
            var last := rs[|rs| - 1];
            Some(Projection(last.digest, last.content.completedAt, backup.content.setId, backup.content.backupId,
                            m.value.digest, l.value.digest, o.value.digest, chain))
  }

  lemma FourSteps(s: PhaseSpec, rs: seq<StepResult>)
    requires CompleteChainValid(s, rs) && s.content.phase == BackingUp
    ensures |rs| == 4
    ensures rs[0].content.evidence.ManifestEvidence? && rs[1].content.evidence.LocalEvidence?
    ensures rs[2].content.evidence.UploadEvidence? && rs[3].content.evidence.OffsiteEvidence?
    ensures s.content.backup.Some? && ValidSpec(s.content.backup.value) && s.content.backup.value.content.kind == Base
    ensures s.content.expected.fields == map[]
  {
    hide EvidenceFits, PriorChainValid, ValidSpec;
    assert Authorised(rs[0], s, 1, rs[..0]) && Authorised(rs[1], s, 2, rs[..1]);
    assert |rs| == 4;
    assert Authorised(rs[2], s, 3, rs[..2]) && Authorised(rs[3], s, 4, rs[..3]);
    assert BACKUP_STEPS[0].1 == ManifestSchema && BACKUP_STEPS[1].1 == LocalSchema
        && BACKUP_STEPS[2].1 == UploadSchema && BACKUP_STEPS[3].1 == OffsiteSchema;
  }

  lemma Lookups(rs: seq<StepResult>, n: nat)
    requires |rs| == 4 && 1 <= n <= 4
    requires rs[0].content.evidence.ManifestEvidence? && rs[1].content.evidence.LocalEvidence?
    requires rs[2].content.evidence.UploadEvidence? && rs[3].content.evidence.OffsiteEvidence?
    ensures FindManifest(rs[..n]) == Some(rs[0].content.evidence.manifest)
    ensures n >= 2 ==> FindLocal(rs[..n]) == Some(rs[1].content.evidence.local)
    ensures n >= 3 ==> FindUpload(rs[..n]) == Some(rs[2].content.evidence.upload)
    ensures n == 4 ==> FindOffsite(rs[..n]) == Some(rs[3].content.evidence.offsite)
  {
    var t := rs[..n];
    if n >= 2 {
      assert FindLocal(t) == FindLocal(t[1..]) && FindUpload(t) == FindUpload(t[1..])
             && FindOffsite(t) == FindOffsite(t[1..]);
      assert t[1..][0] == rs[1];
    }
    if n >= 3 {
      assert FindUpload(t[1..]) == FindUpload(t[1..][1..]) && FindOffsite(t[1..]) == FindOffsite(t[1..][1..]);
      assert t[1..][1..][0] == rs[2];
    }
    if n == 4 {
      assert FindOffsite(t[1..][1..]) == FindOffsite(t[1..][1..][1..]);
      assert t[1..][1..][1..][0] == rs[3];
    }
  }

  /** Whatever complete base-backup chain is accepted, its projection succeeds: nothing fails late. */
  lemma AcceptedBaseChainProjects(s: PhaseSpec, rs: seq<StepResult>)
    requires CompleteChainValid(s, rs) && s.content.phase == BackingUp
    ensures ProjectBase(s, rs).Some?
    ensures ChainVerified(ProjectBase(s, rs).value.chain)
    ensures VerifiedAt(ProjectBase(s, rs).value.chain) == ProjectBase(s, rs).value.completedAt
    ensures ProjectBase(s, rs).value.chain.content.spec == s.content.backup.value
  {
    hide CompleteChainValid, ValidSpec, VerifiedAgainst, LocalVerified, UploadVerified, OffsiteVerified, FindManifest,
      FindLocal, FindUpload, FindOffsite;
    FourSteps(s, rs);
    assert rs[..4] == rs;
    Lookups(rs, 4);
    DocumentsVerified(s, rs);
    LastTime(s, rs);
  }

  lemma LastTime(s: PhaseSpec, rs: seq<StepResult>)
    requires CompleteChainValid(s, rs) && |rs| == 4 && rs[3].content.evidence.OffsiteEvidence?
    ensures rs[3].content.completedAt == rs[3].content.evidence.offsite.content.verifiedAt
  {
    hide ValidPhaseSpec, EvidenceFits, IdentityMatches, PriorChainValid;
    assert Authorised(rs[3], s, 4, rs[..3]);
  }

  lemma DocumentsVerified(s: PhaseSpec, rs: seq<StepResult>)
    requires CompleteChainValid(s, rs) && s.content.phase == BackingUp && |rs| == 4
    requires rs[0].content.evidence.ManifestEvidence? && rs[1].content.evidence.LocalEvidence?
    requires rs[2].content.evidence.UploadEvidence? && rs[3].content.evidence.OffsiteEvidence?
    requires s.content.backup.Some?
    ensures var b := s.content.backup.value;
            && LocalVerified(rs[1].content.evidence.local, b, rs[0].content.evidence.manifest)
            && UploadVerified(rs[2].content.evidence.upload, b, rs[1].content.evidence.local)
            && OffsiteVerified(rs[3].content.evidence.offsite, b, rs[1].content.evidence.local,
                               rs[2].content.evidence.upload)
  {
    assert Authorised(rs[1], s, 2, rs[..1]) && Authorised(rs[2], s, 3, rs[..2]) && Authorised(rs[3], s, 4, rs[..3]);
    hide CompleteChainValid, ValidPhaseSpec, PriorChainValid, HasValidDigest, IdentityMatches, LocalVerified,
      UploadVerified, OffsiteVerified, FindManifest, FindLocal, FindUpload;
    Lookups(rs, 1);
    Lookups(rs, 2);
    Lookups(rs, 3);
  }

  // ---------------------------------------------------------------- projection of a cutover backup

  /** What a cutover backup contributes. */
  datatype CutoverProjection = CutoverProjection(
    observation: ResultDigest, completedAt: int, setId: nat, backupId: nat, epoch: Option<nat>,
    manifest: ManifestDigest, local: LocalDigest, chain: Chain)

  const CUTOVER_FIELDS: set<Field> :=
    {BackupSetId, CutoverBackupId, CutoverManifest, CutoverEvidence, CutoverVerification, FencingEpoch}

  /** The slots are those of the phase, and the values the spec expects of two of them are the ones reported. */
  predicate CutoverFieldsFit(s: PhaseSpec, setId: nat, epoch: Option<nat>) {
    var expected := s.content.expected.fields;
    && epoch.Some?
    && RequiredFields(s.content.phase) <= CUTOVER_FIELDS <= OwnedFields(s.content.phase)
    && expected.Keys <= {BackupSetId, FencingEpoch}
    && (BackupSetId in expected ==> expected[BackupSetId] == Value(setId))
    && (FencingEpoch in expected ==> expected[FencingEpoch] == Value(epoch.value))
  }

  function ProjectCutover(s: PhaseSpec, rs: seq<StepResult>): (r: Option<CutoverProjection>) {
    if !CompleteChainValid(s, rs) || s.content.phase != CutoverSnapshotting || s.content.backup.None? then None
    else
      var backup, m, l := s.content.backup.value, FindManifest(rs), FindLocal(rs);
      if backup.content.kind != Cutover || m.None? || l.None? then None
      else
        match NewCutoverChain(backup, m.value, l.value)
        case None => None
        case Some(chain) =>
          if !CutoverFieldsFit(s, backup.content.setId, backup.content.epoch) then None
          else
            var last := rs[|rs| - 1];
            Some(CutoverProjection(last.digest, last.content.completedAt, backup.content.setId, backup.content.backupId,
                                   backup.content.epoch, m.value.digest, l.value.digest, chain))
  }

  /** The spec expects the backup set and the epoch of its own backup. */
  predicate ExpectsOwnBackup(s: PhaseSpec) {
    && s.content.backup.Some?
    && var expected, backup := s.content.expected.fields, s.content.backup.value.content;
    && BackupSetId in expected && expected[BackupSetId] == Value(backup.setId)
    && FencingEpoch in expected && backup.epoch.Some? && expected[FencingEpoch] == Value(backup.epoch.value)
  }

  lemma TwoSteps(s: PhaseSpec, rs: seq<StepResult>)
    requires CompleteChainValid(s, rs) && s.content.phase == CutoverSnapshotting
    ensures |rs| == 2
    ensures rs[0].content.evidence.ManifestEvidence? && rs[1].content.evidence.LocalEvidence?
    ensures s.content.backup.Some? && ValidSpec(s.content.backup.value)
            && s.content.backup.value.content.kind == Cutover
    ensures s.content.expected.fields.Keys == {BackupSetId, FencingEpoch}
    ensures rs[1].content.completedAt == rs[1].content.evidence.local.content.encryption.encryptedAt
  {
    hide EvidenceFits, PriorChainValid, ValidSpec;
    assert Authorised(rs[0], s, 1, rs[..0]);
    assert |rs| == 2;
    assert Authorised(rs[1], s, 2, rs[..1]);
    assert BACKUP_STEPS[..2][0].1 == ManifestSchema && BACKUP_STEPS[..2][1].1 == LocalSchema;
  }

  lemma CutoverLookups(s: PhaseSpec, rs: seq<StepResult>)
    requires CompleteChainValid(s, rs) && |rs| == 2 && s.content.backup.Some?
    requires rs[0].content.evidence.ManifestEvidence? && rs[1].content.evidence.LocalEvidence?
    ensures FindManifest(rs) == Some(rs[0].content.evidence.manifest)
    ensures FindLocal(rs) == Some(rs[1].content.evidence.local)
    ensures LocalVerified(rs[1].content.evidence.local, s.content.backup.value, rs[0].content.evidence.manifest)
  {
    hide ValidPhaseSpec, PriorChainValid, HasValidDigest, IdentityMatches, LocalVerified, VerifiedAgainst,
      UploadVerified, OffsiteVerified, ObservedFits, Timely, LastDigest, FindManifest, FindLocal;
    assert Authorised(rs[1], s, 2, rs[..1]);
    hide CompleteChainValid;
    LookupsOfTwo(rs);
  }

  lemma LookupsOfTwo(rs: seq<StepResult>)
    requires |rs| == 2 && rs[0].content.evidence.ManifestEvidence? && rs[1].content.evidence.LocalEvidence?
    ensures FindManifest(rs) == FindManifest(rs[..1]) == Some(rs[0].content.evidence.manifest)
    ensures FindLocal(rs) == Some(rs[1].content.evidence.local)
  {
    assert rs[1..][0] == rs[1];
    assert rs[..1][0] == rs[0];
  }

  lemma CutoverHasEpoch(b: Spec)
    requires ValidSpec(b) && b.content.kind == Cutover
    ensures b.content.epoch.Some?
  {
    hide ValidUnit;
  }

  /**
    A cutover chain can fail late: an accepted one projects exactly when the spec expects the
    backup set and the fencing epoch of its own backup, which validating it does not ask.
  */
  lemma AcceptedCutoverChainProjectsIff(s: PhaseSpec, rs: seq<StepResult>)
    requires CompleteChainValid(s, rs) && s.content.phase == CutoverSnapshotting
    ensures ProjectCutover(s, rs).Some? <==> ExpectsOwnBackup(s)
    ensures ProjectCutover(s, rs).Some? ==>
              var p := ProjectCutover(s, rs).value;
              && ChainVerified(p.chain)
              && VerifiedAt(p.chain) == p.completedAt
              && p.chain.content.spec == s.content.backup.value
  {
    hide CompleteChainValid, ValidSpec, VerifiedAgainst, LocalVerified, FindManifest, FindLocal;
    TwoSteps(s, rs);
    CutoverLookups(s, rs);
    CutoverHasEpoch(s.content.backup.value);
    CutoverChainIff(s.content.backup.value, rs[0].content.evidence.manifest, rs[1].content.evidence.local);
    CutoverSlots();
  }

  lemma CutoverSlots()
    ensures RequiredFields(CutoverSnapshotting) <= CUTOVER_FIELDS <= OwnedFields(CutoverSnapshotting)
  {
  }

  /** The spec with another expected backup set. */
  function Expecting(s: PhaseSpec, setId: nat): PhaseSpec {
    var expected := s.content.expected;
    var content := s.content.(expected := expected.(fields := expected.fields[BackupSetId := Value(setId)]));
    PhaseSpec(content, PhaseSpecDigest(content))
  }

  /** A result reissued for another spec, behind another predecessor. */
  function Reissued(r: StepResult, s: PhaseSpec, prior: Option<ResultDigest>): StepResult {
    var content := r.content.(spec := s.digest, requestDocument := RequestDigest(s.content, r.content.sequence),
                              prior := prior);
    StepResult(content, ResultDigest(content))
  }

  function ReissuedChain(rs: seq<StepResult>, s: PhaseSpec): seq<StepResult>
    requires |rs| == 2
  {
    var first := Reissued(rs[0], s, None);
    [first, Reissued(rs[1], s, Some(first.digest))]
  }

  lemma ExpectingIsValid(s: PhaseSpec, setId: nat)
    requires ValidPhaseSpec(s) && s.content.phase == CutoverSnapshotting
    ensures ValidPhaseSpec(Expecting(s, setId))
  {
    hide ValidSpec, StepsAre;
    assert s.content.expected.fields[BackupSetId := Value(setId)].Keys == {BackupSetId, FencingEpoch};
  }

  lemma ElementsOfComplete(s: PhaseSpec, rs: seq<StepResult>)
    ensures CompleteChainValid(s, rs) <==>
              rs != [] && |rs| == |s.content.steps| && forall i :: 0 <= i < |rs| ==> ElementValid(s, rs, i)
  {
    hide CompleteChainValid, PriorChainValid, ElementValid;
    CompleteIsOnePass(s, rs);
    PrefixPasses(s, rs, |rs|);
    assert rs[..|rs|] == rs;
  }

  /** Reissuing changes neither what the documents say nor what they are checked against. */
  lemma ReissuedFits(r: StepResult, s: PhaseSpec, setId: nat, before: seq<StepResult>, after: seq<StepResult>,
                     prior: Option<ResultDigest>)
    requires r.content.evidence.ManifestEvidence? || r.content.evidence.LocalEvidence?
    requires FindManifest(after) == FindManifest(before)
    ensures var s' := Expecting(s, setId); EvidenceFits(Reissued(r, s', prior), s', after) == EvidenceFits(r, s, before)
  {
    hide VerifiedAgainst, LocalVerified, FindManifest;
  }

  lemma ReissuedIdentity(r: StepResult, s: PhaseSpec, setId: nat, prior: Option<ResultDigest>, sequence: nat)
    requires 1 <= sequence <= |s.content.steps| && IdentityMatches(r, s, sequence) && HasValidDigest(r)
    ensures var s' := Expecting(s, setId);
            IdentityMatches(Reissued(r, s', prior), s', sequence) && HasValidDigest(Reissued(r, s', prior))
  {
  }

  lemma ReissuedElements(s: PhaseSpec, rs: seq<StepResult>, setId: nat)
    requires |rs| == 2 && ElementValid(s, rs, 0) && ElementValid(s, rs, 1) && s.content.phase == CutoverSnapshotting
    requires rs[0].content.evidence.ManifestEvidence? && rs[1].content.evidence.LocalEvidence?
    ensures var s' := Expecting(s, setId);
            ElementValid(s', ReissuedChain(rs, s'), 0) && ElementValid(s', ReissuedChain(rs, s'), 1)
  {
    hide ValidPhaseSpec, HasValidDigest, IdentityMatches, EvidenceFits;
    var s' := Expecting(s, setId);
    var rs' := ReissuedChain(rs, s');
    ExpectingIsValid(s, setId);
    ReissuedIdentity(rs[0], s, setId, None, 1);
    ReissuedIdentity(rs[1], s, setId, Some(rs'[0].digest), 2);
    assert rs[..0] == rs'[..0] == [] && rs[..1][0] == rs[0] && rs'[..1][0] == rs'[0];
    ReissuedFits(rs[0], s, setId, rs[..0], rs'[..0], None);
    assert FindManifest(rs[..1]) == FindManifest(rs'[..1]);
    ReissuedFits(rs[1], s, setId, rs[..1], rs'[..1], Some(rs'[0].digest));
  }

  /** And beside every accepted cutover chain there is such a one, differing in the set its spec expects. */
  lemma CutoverCanFailLate(s: PhaseSpec, rs: seq<StepResult>, setId: nat)
    requires CompleteChainValid(s, rs) && s.content.phase == CutoverSnapshotting
    requires s.content.backup.Some? && setId != s.content.backup.value.content.setId
    ensures |rs| == 2
    ensures var s' := Expecting(s, setId);
            CompleteChainValid(s', ReissuedChain(rs, s')) && ProjectCutover(s', ReissuedChain(rs, s')).None?
  {
    hide CompleteChainValid, ElementValid, ProjectCutover;
    TwoSteps(s, rs);
    ElementsOfComplete(s, rs);
    ReissuedElements(s, rs, setId);
    var s' := Expecting(s, setId);
    ElementsOfComplete(s', ReissuedChain(rs, s'));
    AcceptedCutoverChainProjectsIff(s', ReissuedChain(rs, s'));
  }
}
