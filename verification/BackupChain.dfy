/**
  The documents that follow a manifest: local encryption, upload receipt, offsite read-back,
  the verified chain over all of them, and the freshness of a chain at a mutation boundary.
  Times are 64-bit milliseconds.
*/
module BackupChain {
  import opened Domain
  import opened BackupInventory

  const MIN_I64: int := -0x8000_0000_0000_0000
  const MAX_I64: int := 0x7FFF_FFFF_FFFF_FFFF

  type Millis = x: int | MIN_I64 <= x <= MAX_I64 witness 0

  datatype Encryption = Encryption(
    spec: SpecDigest, backupId: nat, manifest: ManifestDigest, plaintext: nat, recipient: nat,
    ciphertext: nat, size: nat, encryptedAt: int)

  datatype LocalContent = LocalContent(
    spec: SpecDigest, setId: nat, backupId: nat, attempt: nat, project: nat, kind: SnapshotKind,
    manifest: ManifestDigest, completedAt: int, epoch: Option<nat>, encryption: Encryption)

  datatype LocalDigest = LocalDigest(content: LocalContent)

  datatype Local = Local(content: LocalContent, digest: LocalDigest)

  datatype UploadContent = UploadContent(
    spec: SpecDigest, backupId: nat, local: LocalDigest, provider: nat, credentialVersion: nat,
    objectId: string, versionId: string, size: nat, ciphertext: nat, uploadedAt: int, providerReceipt: nat)

  datatype UploadDigest = UploadDigest(content: UploadContent)

  datatype Upload = Upload(content: UploadContent, digest: UploadDigest)

  datatype OffsiteContent = OffsiteContent(
    spec: SpecDigest, backupId: nat, local: LocalDigest, upload: UploadDigest, provider: nat,
    objectId: string, versionId: string, size: nat, ciphertext: nat, observation: nat, verifiedAt: int)

  datatype OffsiteDigest = OffsiteDigest(content: OffsiteContent)

  datatype Offsite = Offsite(content: OffsiteContent, digest: OffsiteDigest)

  const MAX_PROVIDER_ID: nat := 512

  predicate ProviderIdentifier(s: string) {
    0 < |s| <= MAX_PROVIDER_ID && forall i :: 0 <= i < |s| ==> '!' <= s[i] <= '~' && s[i] !in {'\"', '\'', '\\'}
  }

  // ---------------------------------------------------------------- verifying each document

  predicate EncryptionFits(s: Spec, m: Manifest, e: Encryption) {
    && e.spec == s.digest && e.backupId == s.content.backupId && e.manifest == m.digest
    && e.recipient == s.content.recipient && e.size > 0
    && m.content.completedAt <= e.encryptedAt <= s.content.deadline
  }

  predicate LocalVerified(l: Local, s: Spec, m: Manifest) {
    var c := l.content;
    && c.setId != 0 && c.backupId != 0 && c.attempt != 0 && 0 <= c.completedAt
    && c.encryption.spec == c.spec && c.encryption.backupId == c.backupId && c.encryption.manifest == c.manifest
    && c.encryption.size > 0 && c.completedAt <= c.encryption.encryptedAt
    && VerifiedAgainst(m, s)
    && EncryptionFits(s, m, c.encryption)
    && c.spec == s.digest && c.setId == s.content.setId && c.backupId == s.content.backupId
    && c.attempt == s.content.attempt && c.project == s.content.project && c.kind == s.content.kind
    && c.manifest == m.digest && c.completedAt == m.content.completedAt && c.epoch == s.content.epoch
    && l.digest == LocalDigest(c)
  }

  /** Offsite steps must meet the capture deadline only for base snapshots. */
  predicate MeetsDeadline(s: Spec, at: int) {
    s.content.kind == Base ==> at <= s.content.deadline
  }

  predicate UploadVerified(u: Upload, s: Spec, l: Local) {
    var c := u.content;
    && c.spec == s.digest && c.backupId == s.content.backupId && c.local == l.digest
    && c.provider == s.content.provider && c.credentialVersion == s.content.credentialVersion
    && c.size == l.content.encryption.size && c.ciphertext == l.content.encryption.ciphertext
    && ProviderIdentifier(c.objectId) && ProviderIdentifier(c.versionId)
    && l.content.encryption.encryptedAt <= c.uploadedAt && MeetsDeadline(s, c.uploadedAt)
    && u.digest == UploadDigest(c)
  }

  predicate OffsiteVerified(o: Offsite, s: Spec, l: Local, u: Upload) {
    var c := o.content;
    && UploadVerified(u, s, l)
    && c.spec == s.digest && c.backupId == s.content.backupId && c.local == l.digest && c.upload == u.digest
    && c.provider == u.content.provider && c.objectId == u.content.objectId && c.versionId == u.content.versionId
    && c.size == l.content.encryption.size && c.ciphertext == l.content.encryption.ciphertext
    && c.observation != u.content.providerReceipt
    && u.content.uploadedAt <= c.verifiedAt && MeetsDeadline(s, c.verifiedAt)
    && o.digest == OffsiteDigest(c)
  }

  // ---------------------------------------------------------------- the verified chain

  datatype ChainContent = ChainContent(
    kind: SnapshotKind, spec: Spec, manifest: Manifest, local: Local, upload: Option<Upload>, offsite: Option<Offsite>)

  datatype ChainDigest = ChainDigest(content: ChainContent)

  datatype Chain = Chain(content: ChainContent, digest: ChainDigest)

  predicate ChainVerified(chain: Chain) {
    var c := chain.content;
    && c.kind == c.spec.content.kind
    && ValidSpec(c.spec)
    && LocalVerified(c.local, c.spec, c.manifest)
    && (if c.kind == Base then
          && c.upload.Some? && c.offsite.Some?
          && UploadVerified(c.upload.value, c.spec, c.local)
          && OffsiteVerified(c.offsite.value, c.spec, c.local, c.upload.value)
        else c.upload.None? && c.offsite.None?)
    && chain.digest == ChainDigest(c)
  }

  function NewBaseChain(s: Spec, m: Manifest, l: Local, u: Upload, o: Offsite): (r: Option<Chain>)
    ensures r.Some? ==> ChainVerified(r.value) && r.value.content == ChainContent(Base, s, m, l, Some(u), Some(o))
  {
    if s.content.kind != Base then None
    else
      var content := ChainContent(Base, s, m, l, Some(u), Some(o));
      var chain := Chain(content, ChainDigest(content));
      if ChainVerified(chain) then Some(chain) else None
  }

  function NewCutoverChain(s: Spec, m: Manifest, l: Local): (r: Option<Chain>)
    ensures r.Some? ==> ChainVerified(r.value) && r.value.content == ChainContent(Cutover, s, m, l, None, None)
  {
    if s.content.kind != Cutover then None
    else
      var content := ChainContent(Cutover, s, m, l, None, None);
      var chain := Chain(content, ChainDigest(content));
      if ChainVerified(chain) then Some(chain) else None
  }

  /** A base chain is returned exactly for a base spec whose documents all verify, and then holds just these. */
  lemma BaseChainIff(s: Spec, m: Manifest, l: Local, u: Upload, o: Offsite)
    ensures var r := NewBaseChain(s, m, l, u, o);
            var content := ChainContent(Base, s, m, l, Some(u), Some(o));
            && (r.Some? <==>
                  && s.content.kind == Base && ValidSpec(s) && LocalVerified(l, s, m)
                  && UploadVerified(u, s, l) && OffsiteVerified(o, s, l, u))
            && (r.Some? ==> r.value == Chain(content, ChainDigest(content)))
  {
    hide LocalVerified, UploadVerified, OffsiteVerified, ValidSpec;
  }

  /** A cutover chain needs no offsite copy: the spec and the local document suffice. */
  lemma CutoverChainIff(s: Spec, m: Manifest, l: Local)
    ensures var r := NewCutoverChain(s, m, l);
            var content := ChainContent(Cutover, s, m, l, None, None);
            && (r.Some? <==> s.content.kind == Cutover && ValidSpec(s) && LocalVerified(l, s, m))
            && (r.Some? ==> r.value == Chain(content, ChainDigest(content)))
  {
    hide LocalVerified, UploadVerified, OffsiteVerified, ValidSpec;
  }

  /** When the last verification of a chain finished. */
  function VerifiedAt(chain: Chain): int {
    if chain.content.offsite.Some? then chain.content.offsite.value.content.verifiedAt
    else chain.content.local.content.encryption.encryptedAt
  }

  /** The five times of a verified base chain are in order, all before the deadline. */
  lemma BaseChainTimesInOrder(chain: Chain)
    requires ChainVerified(chain) && chain.content.kind == Base
    ensures var c := chain.content;
            0 <= c.manifest.content.startedAt <= c.manifest.content.completedAt
              <= c.local.content.encryption.encryptedAt <= c.upload.value.content.uploadedAt
              <= VerifiedAt(chain) <= c.spec.content.deadline
  {
    hide ValidSpec, ObjectsFitUnit, ChecksFitUnit;
  }

  /** Of a cutover chain only the capture and the encryption are bounded. */
  lemma CutoverChainTimesInOrder(chain: Chain)
    requires ChainVerified(chain) && chain.content.kind == Cutover
    ensures var c := chain.content;
            0 <= c.manifest.content.startedAt <= c.manifest.content.completedAt
              <= VerifiedAt(chain) <= c.spec.content.deadline
  {
    hide ValidSpec, ObjectsFitUnit, ChecksFitUnit;
  }

  /** Two verified chains with the same digest are the same documents throughout. */
  lemma ChainDigestDeterminesDocuments(a: Chain, b: Chain)
    requires ChainVerified(a) && ChainVerified(b) && a.digest == b.digest
    ensures a == b
  {
    hide LocalVerified, UploadVerified, OffsiteVerified, ValidSpec;
  }

  /** The constructors reach every verified chain: rebuilding one from its documents gives it back. */
  lemma VerifiedChainsAreConstructed(chain: Chain)
    requires ChainVerified(chain)
    ensures var c := chain.content;
            if c.kind == Base then
              NewBaseChain(c.spec, c.manifest, c.local, c.upload.value, c.offsite.value) == Some(chain)
            else NewCutoverChain(c.spec, c.manifest, c.local) == Some(chain)
  {
    hide LocalVerified, UploadVerified, OffsiteVerified, ValidSpec;
  }

  /**
    Each document names the digest of the one before it, so the last one alone, the offsite
    read-back of a base chain or the local document of a cutover chain, fixes the whole chain.
  */
  lemma LastDocumentDeterminesChain(a: Chain, b: Chain)
    requires ChainVerified(a) && ChainVerified(b) && a.content.kind == b.content.kind
    requires if a.content.kind == Base then OffsiteOf(a) == OffsiteOf(b)
             else a.content.local.digest == b.content.local.digest
    ensures a == b
  {
    hide ValidDocument, ObjectsFitUnit, ChecksFitUnit, EncryptionFits, ProviderIdentifier, MeetsDeadline, ValidUnit,
      SnapshotBinding;
    if a.content.kind == Base {
      assert a.content.offsite == b.content.offsite;
      assert a.content.upload == b.content.upload;
    }
    assert a.content.local == b.content.local;
    assert a.content.manifest == b.content.manifest;
    assert a.content.spec == b.content.spec;
  }

  // ---------------------------------------------------------------- freshness

  const MAX_BACKUP_AGE: int := 86_400_000
  const MAX_CLOCK_OFFSET: int := 30_000
  const MAX_CLOCK_AGE: int := 30_000

  datatype ClockContent = ClockContent(synchronized: bool, offset: Millis, observedAt: Millis, observation: nat)

  datatype ClockDigest = ClockDigest(content: ClockContent)

  datatype Clock = Clock(content: ClockContent, digest: ClockDigest)

  /** The absolute value is only taken of offsets that have one in 64 bits. */
  predicate Synchronized(k: Clock) {
    && k.content.synchronized
    && k.content.offset != MIN_I64
    && -MAX_CLOCK_OFFSET <= k.content.offset <= MAX_CLOCK_OFFSET
    && 0 <= k.content.observedAt
    && k.digest == ClockDigest(k.content)
  }

  /** Checked 64-bit subtraction, refusing negative arguments and results. */
  function Elapsed(later: Millis, earlier: Millis): (r: Option<Millis>)
    ensures r.Some? <==> 0 <= earlier <= later
    ensures r.Some? ==> r.value == later - earlier
  {
    if earlier < 0 then None
    else if later - earlier < MIN_I64 || later - earlier > MAX_I64 then None
    else if later - earlier < 0 then None
    else Some(later - earlier)
  }

  datatype FreshnessContent = FreshnessContent(
    backupId: nat, chain: ChainDigest, local: LocalDigest, offsite: Option<OffsiteDigest>, clock: ClockDigest,
    clockObservedAt: Millis, completedAt: Millis, evaluatedAt: Millis, age: Millis, maxAge: Millis)

  datatype FreshnessDigest = FreshnessDigest(content: FreshnessContent)

  datatype Freshness = Freshness(content: FreshnessContent, digest: FreshnessDigest)

  predicate FreshnessPolicy(maxAge: Millis, requireOffsite: bool, chain: Chain) {
    0 < maxAge <= MAX_BACKUP_AGE && (requireOffsite ==> chain.content.offsite.Some?)
  }

  predicate ClockAtBoundary(k: Clock, boundary: Millis) {
    && Synchronized(k)
    && var age := Elapsed(boundary, k.content.observedAt);
    age.Some? && age.value <= MAX_CLOCK_AGE
  }

  function OffsiteOf(chain: Chain): Option<OffsiteDigest> {
    if chain.content.offsite.Some? then Some(chain.content.offsite.value.digest) else None
  }

  /** Chain documents carry 64-bit times too. */
  predicate TimesFit(chain: Chain) {
    && MIN_I64 <= chain.content.local.content.completedAt <= MAX_I64
    && MIN_I64 <= VerifiedAt(chain) <= MAX_I64
  }

  function NewFreshness(chain: Chain, clock: Clock, boundary: Millis, maxAge: Millis, requireOffsite: bool)
    : (r: Option<Freshness>)
    requires TimesFit(chain)
  {
    if !ChainVerified(chain) || !FreshnessPolicy(maxAge, requireOffsite, chain) then None
    else if !ClockAtBoundary(clock, boundary) then None
    else FreshnessOf(chain, clock, boundary, maxAge)
  }

  /** The freshness of a chain at a boundary, if it is not older than allowed. */
  function FreshnessOf(chain: Chain, clock: Clock, boundary: Millis, maxAge: Millis): (r: Option<Freshness>)
    requires TimesFit(chain)
  {
    var local := chain.content.local;
    var age := Elapsed(boundary, local.content.completedAt);
    if boundary < VerifiedAt(chain) || age.None? || age.value > maxAge then None
    else
      var content := FreshnessContent(
        local.content.backupId, chain.digest, local.digest, OffsiteOf(chain), clock.digest, clock.content.observedAt,
        local.content.completedAt, boundary, age.value, maxAge);
      Some(Freshness(content, FreshnessDigest(content)))
  }

  predicate FreshnessFitsChain(f: Freshness, chain: Chain, maxAge: Millis, requireOffsite: bool)
    requires TimesFit(chain)
  {
    var c, local := f.content, chain.content.local;
    && ChainVerified(chain)
    && FreshnessPolicy(maxAge, requireOffsite, chain)
    && var recorded, clockAge := Elapsed(c.evaluatedAt, c.completedAt), Elapsed(c.evaluatedAt, c.clockObservedAt);
    && recorded.Some? && clockAge.Some?
    && c.backupId == local.content.backupId && c.chain == chain.digest && c.local == local.digest
    && c.offsite == OffsiteOf(chain)
    && c.completedAt == local.content.completedAt
    && VerifiedAt(chain) <= c.evaluatedAt
    && c.age == recorded.value && c.maxAge == maxAge && recorded.value <= maxAge && clockAge.value <= MAX_CLOCK_AGE
    && f.digest == FreshnessDigest(c)
  }

  /** The freshness recorded earlier still holds at a later boundary, under a newer clock observation. */
  predicate CurrentAt(f: Freshness, chain: Chain, clock: Clock, boundary: Millis, maxAge: Millis, requireOffsite: bool)
    requires TimesFit(chain)
  {
    && FreshnessFitsChain(f, chain, maxAge, requireOffsite)
    && ClockAtBoundary(clock, boundary)
    && clock.digest != f.content.clock
    && clock.content.observedAt > f.content.evaluatedAt
    && boundary > f.content.evaluatedAt
    && boundary >= VerifiedAt(chain)
    && var age := Elapsed(boundary, chain.content.local.content.completedAt);
    age.Some? && age.value <= maxAge
  }

  /** What an accepted freshness check means in time. */
  lemma CurrentMeansFresh(f: Freshness, chain: Chain, clock: Clock, boundary: Millis, maxAge: Millis,
                          requireOffsite: bool)
    requires TimesFit(chain) && CurrentAt(f, chain, clock, boundary, maxAge, requireOffsite)
    ensures VerifiedAt(chain) <= f.content.evaluatedAt < clock.content.observedAt
              <= boundary <= clock.content.observedAt + MAX_CLOCK_AGE
    ensures 0 <= boundary - chain.content.local.content.completedAt <= maxAge <= MAX_BACKUP_AGE
    ensures chain.content.local.content.completedAt <= VerifiedAt(chain)
    ensures requireOffsite ==> chain.content.kind == Base
  {
    hide ValidSpec, VerifiedAgainst;
  }

  ghost predicate NewerClockWithinAge(chain: Chain, evaluated: Millis, clock: Clock, boundary: Millis, maxAge: Millis) {
    && Synchronized(clock)
    && evaluated < clock.content.observedAt <= boundary <= clock.content.observedAt + MAX_CLOCK_AGE
    && boundary - chain.content.local.content.completedAt <= maxAge
  }

  /** Freshness recorded by the constructor is accepted later exactly while clock, order and age allow. */
  lemma RecordedFreshnessStaysCurrentWhile(chain: Chain, first: Clock, evaluated: Millis, clock: Clock,
                                           boundary: Millis, maxAge: Millis, requireOffsite: bool)
    requires TimesFit(chain) && NewFreshness(chain, first, evaluated, maxAge, requireOffsite).Some?
    ensures var f := NewFreshness(chain, first, evaluated, maxAge, requireOffsite).value;
            CurrentAt(f, chain, clock, boundary, maxAge, requireOffsite) <==>
              NewerClockWithinAge(chain, evaluated, clock, boundary, maxAge)
  {
    hide ChainVerified, FreshnessPolicy;
  }
}
