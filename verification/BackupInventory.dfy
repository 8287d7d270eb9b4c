/**
  Backup units and manifests.  A manifest lists the objects captured for a unit; its
  constructor sorts what the adapter reports and compares it with the unit, and a later
  reader verifies it again from the document alone.

  Digests are free constructors over the digested content.  Document schema versions are all
  fixed and not represented.
*/
module BackupInventory {
  import opened Domain
  import opened SortedLists

  datatype ObjectKind =
    | SqliteDatabase | Master | Blob | Configuration | PolicyBundle | ReleaseBundleObject
    | SourceLedger | GitBundle | OciLayout

  datatype CheckKind = SqliteIntegrity | ForeignKeys | DatabaseToFiles | DomainInvariant | StagedReadSmoke

  datatype ExpectedObject = ExpectedObject(path: string, kind: ObjectKind, uid: nat, gid: nat, mode: nat)

  datatype BackupObject = BackupObject(
    path: string, kind: ObjectKind, size: nat, sha256: nat, uid: nat, gid: nat, mode: nat, links: nat)

  datatype CheckSpec = CheckSpec(name: string, kind: CheckKind, definition: nat)

  datatype CheckEvidence = CheckEvidence(name: string, kind: CheckKind, definition: nat, checked: nat, passed: bool,
                                         observation: nat)

  datatype UnitContent = UnitContent(
    unitId: string, consistency: nat, objects: seq<ExpectedObject>, primary: string, checks: seq<CheckSpec>)

  datatype UnitDigest = UnitDigest(content: UnitContent)

  datatype Unit = Unit(content: UnitContent, digest: UnitDigest)

  const MAX_OBJECTS: nat := 16_384
  const MAX_CHECKS: nat := 256
  const MAX_IDENTIFIER: nat := 96
  const MAX_MODE: nat := 511

  // ---------------------------------------------------------------- units

  predicate IdentifierChar(c: char) {
    'a' <= c <= 'z' || 'A' <= c <= 'Z' || '0' <= c <= '9' || c in {'-', '_', '.'}
  }

  predicate BoundedIdentifier(s: string) {
    0 < |s| <= MAX_IDENTIFIER && forall i :: 0 <= i < |s| ==> IdentifierChar(s[i])
  }

  function PathOfExpected(o: ExpectedObject): string { o.path }

  function PathOf(o: BackupObject): string { o.path }

  function NameOfSpec(c: CheckSpec): string { c.name }

  function NameOfEvidence(c: CheckEvidence): string { c.name }

  function Itself(s: string): string { s }

  function SortExpected(objects: seq<ExpectedObject>): (r: Option<seq<ExpectedObject>>)
    ensures r.Some? ==> multiset(r.value) == multiset(objects) && StrictlySortedBy(r.value, PathOfExpected)
  {
    var sorted := Sort(objects, PathOfExpected);
    SortSorts(objects, PathOfExpected);
    NeighboursSuffice(sorted, PathOfExpected);
    if || NeighboursEqual(sorted, PathOfExpected)
       || exists i :: 0 <= i < |sorted| && sorted[i].mode > MAX_MODE then None
    else Some(sorted)
  }

  function SortChecks(checks: seq<CheckSpec>): (r: Option<seq<CheckSpec>>)
    ensures r.Some? ==> multiset(r.value) == multiset(checks) && StrictlySortedBy(r.value, NameOfSpec)
  {
    var sorted := Sort(checks, NameOfSpec);
    SortSorts(checks, NameOfSpec);
    NeighboursSuffice(sorted, NameOfSpec);
    if || NeighboursEqual(sorted, NameOfSpec)
       || exists i :: 0 <= i < |sorted| && !BoundedIdentifier(sorted[i].name) then None
    else Some(sorted)
  }

  function CountKind(checks: seq<CheckSpec>, kind: CheckKind): nat {
    if checks == [] then 0
    else CountKind(checks[..|checks| - 1], kind) + if checks[|checks| - 1].kind == kind then 1 else 0
  }

  function CountDatabases(objects: seq<ExpectedObject>): nat {
    if objects == [] then 0
    else CountDatabases(objects[..|objects| - 1]) + if objects[|objects| - 1].kind == SqliteDatabase then 1 else 0
  }

  predicate RequiredCheckKinds(checks: seq<CheckSpec>) {
    && CountKind(checks, SqliteIntegrity) == 1
    && CountKind(checks, ForeignKeys) == 1
    && CountKind(checks, DatabaseToFiles) == 1
    && CountKind(checks, StagedReadSmoke) == 1
    && exists i :: 0 <= i < |checks| && checks[i].kind == DomainInvariant
  }

  /** The unit as the constructor builds it, or nothing. */
  function NewUnit(input: UnitContent): (r: Option<Unit>)
    ensures r.Some? ==>
              && StrictlySortedBy(r.value.content.objects, PathOfExpected)
              && StrictlySortedBy(r.value.content.checks, NameOfSpec)
              && multiset(r.value.content.objects) == multiset(input.objects)
              && multiset(r.value.content.checks) == multiset(input.checks)
  {
    var objects, checks := SortExpected(input.objects), SortChecks(input.checks);
    if !BoundedIdentifier(input.unitId) || objects.None? || checks.None? then None
    else if || |input.objects| == 0 || |input.objects| > MAX_OBJECTS
            || |input.checks| == 0 || |input.checks| > MAX_CHECKS then None
    else if || !(exists i :: 0 <= i < |objects.value| && objects.value[i].path == input.primary
                             && objects.value[i].kind == SqliteDatabase)
            || CountDatabases(objects.value) != 1
            || !RequiredCheckKinds(checks.value) then None
    else
      var content := input.(objects := objects.value, checks := checks.value);
      Some(Unit(content, UnitDigest(content)))
  }

  /** A stored unit is valid when rebuilding it changes nothing. */
  predicate ValidUnit(u: Unit) {
    NewUnit(u.content) == Some(u)
  }

  // ---------------------------------------------------------------- authorised specs

  datatype SnapshotKind = Base | Cutover

  datatype CapturePurpose = DeploymentBase | DeploymentCutover | Scheduled | RestoreSafety | ControlPlane

  datatype SpecContent = SpecContent(
    attempt: nat, project: nat, policy: nat, policyVersion: nat, intent: nat, setId: nat, backupId: nat,
    kind: SnapshotKind, purpose: CapturePurpose, unit: Unit, recipient: nat, provider: nat, credentialVersion: nat,
    deadline: int, epoch: Option<nat>, fenceReceipt: Option<nat>)

  datatype SpecDigest = SpecDigest(content: SpecContent)

  datatype Spec = Spec(content: SpecContent, digest: SpecDigest)

  predicate SnapshotBinding(kind: SnapshotKind, purpose: CapturePurpose, epoch: Option<nat>,
                            fenceReceipt: Option<nat>) {
    if kind == Base then purpose != DeploymentCutover && epoch.None? && fenceReceipt.None?
    else purpose == DeploymentCutover && epoch.Some? && epoch.value > 0 && fenceReceipt.Some?
  }

  predicate ValidSpec(s: Spec) {
    var c := s.content;
    && c.attempt != 0 && c.setId != 0 && c.backupId != 0 && c.policyVersion != 0 && c.credentialVersion != 0
    && c.deadline >= 0
    && ValidUnit(c.unit)
    && SnapshotBinding(c.kind, c.purpose, c.epoch, c.fenceReceipt)
    && s.digest == SpecDigest(c)
  }

  // ---------------------------------------------------------------- manifests

  datatype ManifestContent = ManifestContent(
    spec: SpecDigest, setId: nat, backupId: nat, attempt: nat, project: nat, kind: SnapshotKind,
    purpose: CapturePurpose,
    unit: UnitDigest, consistency: nat, schemaVersion: string, epoch: Option<nat>, fenceReceipt: Option<nat>,
    startedAt: int, completedAt: int, expectedPaths: seq<string>, objects: seq<BackupObject>,
    missing: seq<string>, unexpected: seq<string>, checks: seq<CheckEvidence>)

  datatype ManifestDigest = ManifestDigest(content: ManifestContent)

  datatype Manifest = Manifest(content: ManifestContent, digest: ManifestDigest)

  datatype ManifestInput = ManifestInput(
    schemaVersion: string, startedAt: int, completedAt: int, objects: seq<BackupObject>, checks: seq<CheckEvidence>)

  const MAX_SCHEMA_VERSION: nat := 96

  predicate ValidSchemaVersion(s: string) {
    0 < |s| <= MAX_SCHEMA_VERSION && forall i :: 0 <= i < |s| ==> '!' <= s[i] <= '~'
  }

  function PathsOf(objects: seq<ExpectedObject>): seq<string> {
    KeyList(objects, PathOfExpected)
  }

  function CapturedPaths(objects: seq<BackupObject>): seq<string> {
    KeyList(objects, PathOf)
  }

  /** An ordered map's keys with one more inserted; a key already there is replaced. */
  function InsertKey(keys: seq<string>, x: string): (r: seq<string>)
    requires StrictlySortedBy(keys, Itself)
    ensures StrictlySortedBy(r, Itself)
    ensures forall k :: k in r <==> k in keys || k == x
  {
    if keys == [] then [x]
    else
      var n := |keys| - 1;
      assert keys == keys[..n] + [keys[n]];
      AllBelowLast(keys);
      if x == keys[n] then keys
      else if Less(x, keys[n]) then
        var front := InsertKey(keys[..n], x);
        AppendGreatest(front, keys[n]);
        front + [keys[n]]
      else
        BelowThrough(keys, x);
        AppendGreatest(keys, x);
        keys + [x]
  }

  lemma AppendGreatest(keys: seq<string>, x: string)
    requires StrictlySortedBy(keys, Itself) && forall k :: k in keys ==> Less(k, x)
    ensures StrictlySortedBy(keys + [x], Itself)
  {
    hide Less;
  }

  lemma AllBelowLast(keys: seq<string>)
    requires StrictlySortedBy(keys, Itself) && keys != []
    ensures StrictlySortedBy(keys[..|keys| - 1], Itself)
    ensures var front, last := keys[..|keys| - 1], keys[|keys| - 1]; forall k :: k in front ==> Less(k, last)
  {
    hide Less;
    var n := |keys| - 1;
    forall k | k in keys[..n] ensures Less(k, keys[n]) {
      var i :| 0 <= i < n && keys[i] == k;
      assert Less(Itself(keys[i]), Itself(keys[n]));
    }
  }

  lemma BelowThrough(keys: seq<string>, x: string)
    requires StrictlySortedBy(keys, Itself) && keys != [] && x != keys[|keys| - 1] && !Less(x, keys[|keys| - 1])
    ensures forall k :: k in keys ==> Less(k, x)
  {
    hide Less;
    var last := keys[|keys| - 1];
    LessIsTotal(x, last);
    AllBelowLast(keys);
    forall k | k in keys ensures Less(k, x) {
      assert keys == keys[..|keys| - 1] + [last];
      if k != last { LessIsTransitive(k, last, x); }
    }
  }

  /** The keys of an ordered map collected from a list of paths. */
  function OrderedKeys(paths: seq<string>): (r: seq<string>)
    ensures StrictlySortedBy(r, Itself)
    ensures forall p :: p in r <==> p in paths
  {
    if paths == [] then []
    else
      var n := |paths| - 1;
      assert paths == paths[..n] + [paths[n]];
      InsertKey(OrderedKeys(paths[..n]), paths[n])
  }

  function FilterOut(keys: seq<string>, present: seq<string>): (r: seq<string>)
    ensures forall p :: p in r <==> p in keys && p !in present
    ensures StrictlySortedBy(keys, Itself) ==> StrictlySortedBy(r, Itself)
  {
    if keys == [] then []
    else
      var n := |keys| - 1;
      assert keys == keys[..n] + [keys[n]];
      var rest := FilterOut(keys[..n], present);
      FilterStep(keys, rest);
      if keys[n] in present then rest else rest + [keys[n]]
  }

  lemma FilterStep(keys: seq<string>, rest: seq<string>)
    requires keys != []
    requires forall p :: p in rest ==> p in keys[..|keys| - 1]
    requires StrictlySortedBy(keys[..|keys| - 1], Itself) ==> StrictlySortedBy(rest, Itself)
    ensures StrictlySortedBy(keys, Itself) ==>
              StrictlySortedBy(rest, Itself) && StrictlySortedBy(rest + [keys[|keys| - 1]], Itself)
  {
    if StrictlySortedBy(keys, Itself) {
      AllBelowLast(keys);
      AppendGreatest(rest, keys[|keys| - 1]);
    }
  }

  /** The paths of the first list that the second lacks, in order and each once. */
  function Lacking(paths: seq<string>, present: seq<string>): (r: seq<string>)
    ensures StrictlySortedBy(r, Itself)
    ensures forall p :: p in r <==> p in paths && p !in present
    ensures r == [] <==> forall i :: 0 <= i < |paths| ==> paths[i] in present
  {
    var r := FilterOut(OrderedKeys(paths), present);
    assert r != [] ==> r[0] in r;
    r
  }

  /** Both differences through ordered maps, as the inventory is compared. */
  method InventoryDifferences(expected: seq<string>, objects: seq<BackupObject>)
    returns (missing: seq<string>, unexpected: seq<string>)
    ensures missing == Lacking(expected, CapturedPaths(objects))
    ensures unexpected == Lacking(CapturedPaths(objects), expected)
    ensures StrictlySortedBy(missing, Itself) && StrictlySortedBy(unexpected, Itself)
    ensures forall p :: p in missing <==> p in expected && forall i :: 0 <= i < |objects| ==> objects[i].path != p
    ensures forall p :: p in unexpected <==>
                          p !in expected && exists i :: 0 <= i < |objects| && objects[i].path == p
    ensures missing == [] && unexpected == [] <==>
              (set i | 0 <= i < |expected| :: expected[i]) == (set i | 0 <= i < |objects| :: objects[i].path)
  {
    hide OrderedKeys, FilterOut;
    var actual := CapturedPaths(objects);
    var expectedKeys := Collect(expected);
    var actualKeys := Collect(actual);
    missing := Filter(expectedKeys, actualKeys);
    unexpected := Filter(actualKeys, expectedKeys);
    FilterByMembers(expectedKeys, actualKeys, actual);
    FilterByMembers(actualKeys, expectedKeys, expected);
    SameSets(expected, objects);
    assert forall p :: p in actual <==> exists i :: 0 <= i < |objects| && objects[i].path == p;
  }

  /** The keys an ordered map ends up with. */
  method Collect(paths: seq<string>) returns (keys: seq<string>)
    ensures keys == OrderedKeys(paths)
  {
    keys := [];
    for i := 0 to |paths|
      invariant keys == OrderedKeys(paths[..i])
    {
      assert paths[..i + 1][..i] == paths[..i];
      keys := InsertKey(keys, paths[i]);
    }
    assert paths[..|paths|] == paths;
  }

  method Filter(keys: seq<string>, present: seq<string>) returns (r: seq<string>)
    ensures r == FilterOut(keys, present)
  {
    hide FilterOut, StrictlySortedBy;
    r := [];
    FilterNothing(keys[..0], present);
    for i := 0 to |keys|
      invariant r == FilterOut(keys[..i], present)
    {
      FilterOne(keys, i, present);
      if keys[i] !in present { r := r + [keys[i]]; }
    }
    assert keys[..|keys|] == keys;
  }

  lemma FilterNothing(keys: seq<string>, present: seq<string>)
    requires keys == []
    ensures FilterOut(keys, present) == []
  {
  }

  lemma FilterOne(keys: seq<string>, i: nat, present: seq<string>)
    requires i < |keys|
    ensures FilterOut(keys[..i + 1], present) ==
            FilterOut(keys[..i], present) + if keys[i] in present then [] else [keys[i]]
  {
    hide StrictlySortedBy;
    assert keys[..i + 1][..i] == keys[..i];
  }

  lemma {:induction false} FilterByMembers(keys: seq<string>, a: seq<string>, b: seq<string>)
    requires forall p :: p in a <==> p in b
    ensures FilterOut(keys, a) == FilterOut(keys, b)
  {
    if keys != [] { FilterByMembers(keys[..|keys| - 1], a, b); }
  }

  lemma SameSets(expected: seq<string>, objects: seq<BackupObject>)
    ensures Lacking(expected, CapturedPaths(objects)) == [] && Lacking(CapturedPaths(objects), expected) == [] <==>
              (set i | 0 <= i < |expected| :: expected[i]) == (set i | 0 <= i < |objects| :: objects[i].path)
  {
    var a, b := set i | 0 <= i < |expected| :: expected[i], set i | 0 <= i < |objects| :: objects[i].path;
    var actual := CapturedPaths(objects);
    assert forall p :: p in a <==> p in expected;
    assert forall p :: p in b <==> p in actual;
    if Lacking(expected, actual) == [] && Lacking(actual, expected) == [] {
      assert forall p :: p in expected <==> p in actual;
      assert a == b;
    }
    if a == b {
      forall i | 0 <= i < |expected| ensures expected[i] in actual { assert expected[i] in a; }
      forall i | 0 <= i < |actual| ensures actual[i] in expected { assert actual[i] in b; }
    }
  }

  /** Objects the unit knows must look as it says; every object is a regular file with one link. */
  predicate ObjectsFitUnit(unit: Unit, objects: seq<BackupObject>) {
    forall i :: 0 <= i < |objects| ==>
                  && objects[i].mode <= MAX_MODE
                  && objects[i].links == 1
                  && forall j :: 0 <= j < |unit.content.objects| && unit.content.objects[j].path == objects[i].path ==>
                       SameMetadata(objects[i], unit.content.objects[j])
  }

  predicate SameMetadata(o: BackupObject, e: ExpectedObject) {
    o.kind == e.kind && o.uid == e.uid && o.gid == e.gid && o.mode == e.mode
  }

  /** The digest of the first object captured at a path. */
  function DigestAt(objects: seq<BackupObject>, path: string): (r: Option<nat>)
    ensures r.Some? <==> path in CapturedPaths(objects)
  {
    if objects == [] then None
    else if objects[0].path == path then
      assert CapturedPaths(objects)[0] == path;
      Some(objects[0].sha256)
    else
      assert CapturedPaths(objects) == [objects[0].path] + CapturedPaths(objects[1..]);
      DigestAt(objects[1..], path)
  }

  predicate ChecksFitUnit(unit: Unit, objects: seq<BackupObject>, checks: seq<CheckEvidence>) {
    var database := DigestAt(objects, unit.content.primary);
    && database.Some?
    && |checks| == |unit.content.checks|
    && forall i :: 0 <= i < |checks| ==>
         && checks[i].name == unit.content.checks[i].name
         && checks[i].kind == unit.content.checks[i].kind
         && checks[i].definition == unit.content.checks[i].definition
         && checks[i].checked == database.value
         && checks[i].passed
  }

  predicate UniqueChecks(checks: seq<CheckEvidence>) {
    && !NeighboursEqual(Sort(checks, NameOfEvidence), NameOfEvidence)
    && forall i :: 0 <= i < |checks| ==> BoundedIdentifier(checks[i].name)
  }

  /** What can be said of the document alone. */
  predicate ValidDocument(m: Manifest) {
    var c := m.content;
    && c.setId != 0 && c.backupId != 0 && c.attempt != 0
    && 0 <= c.startedAt <= c.completedAt
    && ValidSchemaVersion(c.schemaVersion)
    && SnapshotBinding(c.kind, c.purpose, c.epoch, c.fenceReceipt)
    && Sort(c.expectedPaths, Itself) == c.expectedPaths && !NeighboursEqual(c.expectedPaths, Itself)
    && Sort(c.objects, PathOf) == c.objects && !NeighboursEqual(c.objects, PathOf)
    && Sort(c.checks, NameOfEvidence) == c.checks && UniqueChecks(c.checks)
    && c.missing == Lacking(c.expectedPaths, CapturedPaths(c.objects))
    && c.unexpected == Lacking(CapturedPaths(c.objects), c.expectedPaths)
  }

  /** The reader's check of a manifest against its authorised spec. */
  predicate VerifiedAgainst(m: Manifest, s: Spec) {
    var c := m.content;
    && ValidDocument(m)
    && ValidSpec(s)
    && c.spec == s.digest && c.setId == s.content.setId && c.backupId == s.content.backupId
    && c.attempt == s.content.attempt && c.project == s.content.project
    && c.kind == s.content.kind && c.purpose == s.content.purpose
    && c.unit == s.content.unit.digest && c.consistency == s.content.unit.content.consistency
    && c.epoch == s.content.epoch && c.fenceReceipt == s.content.fenceReceipt
    && c.missing == [] && c.unexpected == []
    && m.digest == ManifestDigest(c)
    && ObjectsFitUnit(s.content.unit, c.objects)
    && ChecksFitUnit(s.content.unit, c.objects, c.checks)
  }

  /** The constructor: sort, compare with the unit, and verify what was built. */
  function NewManifest(s: Spec, input: ManifestInput): (r: Option<Manifest>)
    ensures r.Some? ==> VerifiedAgainst(r.value, s)
  {
    if !ValidSpec(s) then None
    else if || !(0 <= input.startedAt <= input.completedAt <= s.content.deadline)
            || !ValidSchemaVersion(input.schemaVersion)
            || |input.objects| == 0 || |input.objects| > MAX_OBJECTS
            || |input.checks| == 0 || |input.checks| > MAX_CHECKS then None
    else
      var objects, checks := Sort(input.objects, PathOf), Sort(input.checks, NameOfEvidence);
      if NeighboursEqual(objects, PathOf) || !UniqueChecks(checks) then None
      else if !ObjectsFitUnit(s.content.unit, objects) || !ChecksFitUnit(s.content.unit, objects, checks) then None
      else
        var m := Assemble(s, input, objects, checks);
        if VerifiedAgainst(m, s) then Some(m) else None
  }

  function Assemble(s: Spec, input: ManifestInput, objects: seq<BackupObject>, checks: seq<CheckEvidence>): Manifest {
    var c := s.content;
    var expected := PathsOf(c.unit.content.objects);
    var content := ManifestContent(
      s.digest, c.setId, c.backupId, c.attempt, c.project, c.kind, c.purpose, c.unit.digest, c.unit.content.consistency,
      input.schemaVersion, c.epoch, c.fenceReceipt, input.startedAt, input.completedAt, expected, objects,
      Lacking(expected, CapturedPaths(objects)), Lacking(CapturedPaths(objects), expected), checks);
    Manifest(content, ManifestDigest(content))
  }

  // ---------------------------------------------------------------- what a manifest says about its unit

  /** Object by object the manifest is what the unit asked for. */
  ghost predicate MatchesUnit(objects: seq<BackupObject>, expected: seq<ExpectedObject>) {
    && |objects| == |expected|
    && forall i :: 0 <= i < |objects| ==>
                     && objects[i].path == expected[i].path
                     && SameMetadata(objects[i], expected[i]) && objects[i].links == 1
  }

  lemma SortedDocument(m: Manifest)
    requires ValidDocument(m)
    ensures StrictlySortedBy(m.content.objects, PathOf) && StrictlySortedBy(m.content.expectedPaths, Itself)
  {
    hide Sort, Lacking, UniqueChecks, SnapshotBinding;
    SortSorts(m.content.objects, PathOf);
    NeighboursSuffice(m.content.objects, PathOf);
    SortSorts(m.content.expectedPaths, Itself);
    NeighboursSuffice(m.content.expectedPaths, Itself);
  }

  lemma PathsMatch(objects: seq<BackupObject>, paths: seq<string>)
    requires StrictlySortedBy(objects, PathOf) && StrictlySortedBy(paths, Itself)
    requires Lacking(paths, CapturedPaths(objects)) == [] && Lacking(CapturedPaths(objects), paths) == []
    ensures CapturedPaths(objects) == paths
  {
    hide Lacking, StrictlySortedBy;
    SameSets(paths, objects);
    assert KeysOf(paths, Itself) == (set i | 0 <= i < |paths| :: paths[i]);
    assert KeysOf(objects, PathOf) == (set i | 0 <= i < |objects| :: objects[i].path);
    StrictlySortedIsUnique(objects, PathOf, paths, Itself);
    forall i | 0 <= i < |objects| ensures CapturedPaths(objects)[i] == paths[i] {
      assert PathOf(objects[i]) == Itself(paths[i]);
    }
  }

  /** Everything a verified manifest lists is exactly its own expected paths, in order. */
  lemma VerifiedListsItsPaths(m: Manifest, s: Spec)
    requires VerifiedAgainst(m, s)
    ensures CapturedPaths(m.content.objects) == m.content.expectedPaths
    ensures ObjectsFitUnit(s.content.unit, m.content.objects)
  {
    hide ValidSpec, ObjectsFitUnit, ChecksFitUnit, Sort, Lacking, UniqueChecks;
    SortedDocument(m);
    PathsMatch(m.content.objects, m.content.expectedPaths);
  }

  /**
    Verifying a manifest does not compare its expected paths with the unit: a verified manifest
    matches its unit index by index exactly when its expected paths are the unit's.
  */
  lemma VerifiedMatchesUnitIff(m: Manifest, s: Spec)
    requires VerifiedAgainst(m, s)
    ensures MatchesUnit(m.content.objects, s.content.unit.content.objects)
       <==> m.content.expectedPaths == PathsOf(s.content.unit.content.objects)
  {
    hide VerifiedAgainst, MatchesUnit, ObjectsFitUnit;
    VerifiedListsItsPaths(m, s);
    MatchIsSamePaths(s.content.unit, m.content.objects);
  }

  lemma MatchIsSamePaths(unit: Unit, objects: seq<BackupObject>)
    requires ObjectsFitUnit(unit, objects)
    ensures MatchesUnit(objects, unit.content.objects) <==> CapturedPaths(objects) == PathsOf(unit.content.objects)
  {
    var expected, captured, wanted := unit.content.objects, CapturedPaths(objects), PathsOf(unit.content.objects);
    if captured == wanted {
      forall i | 0 <= i < |objects|
        ensures objects[i].path == expected[i].path && SameMetadata(objects[i], expected[i]) && objects[i].links == 1
      {
        assert captured[i] == wanted[i];
      }
    }
    if MatchesUnit(objects, expected) {
      assert captured == wanted;
    }
  }

  /** For any input order, a constructed manifest matches its unit index by index and lists what it was given. */
  lemma ConstructedMatchesUnit(s: Spec, input: ManifestInput)
    requires NewManifest(s, input).Some?
    ensures var m := NewManifest(s, input).value;
            && MatchesUnit(m.content.objects, s.content.unit.content.objects)
            && multiset(m.content.objects) == multiset(input.objects)
            && multiset(m.content.checks) == multiset(input.checks)
  {
    hide VerifiedAgainst, ValidSpec, ObjectsFitUnit, ChecksFitUnit, MatchesUnit, UniqueChecks;
    VerifiedMatchesUnitIff(NewManifest(s, input).value, s);
  }

  /** Reordering what the adapter reports does not change the manifest. */
  lemma ManifestIgnoresOrder(s: Spec, input: ManifestInput, other: ManifestInput)
    requires NewManifest(s, input).Some?
    requires other == input.(objects := other.objects, checks := other.checks)
    requires multiset(other.objects) == multiset(input.objects) && multiset(other.checks) == multiset(input.checks)
    ensures NewManifest(s, other) == NewManifest(s, input)
  {
    hide VerifiedAgainst, ValidSpec, ObjectsFitUnit, ChecksFitUnit, Sort, NeighboursEqual, UniqueChecks, Lacking,
      PathsOf, CapturedPaths;
    SameLength(other.objects, input.objects);
    SameLength(other.checks, input.checks);
    SortIgnoresOrder(input.objects, other.objects, PathOf);
    AlreadySorted(input.checks);
    SortIgnoresOrder(input.checks, other.checks, NameOfEvidence);
  }

  lemma SameLength<T>(a: seq<T>, b: seq<T>)
    requires multiset(a) == multiset(b)
    ensures |a| == |b|
  {
    assert |multiset(a)| == |a| && |multiset(b)| == |b|;
  }

  lemma AlreadySorted(checks: seq<CheckEvidence>)
    requires UniqueChecks(Sort(checks, NameOfEvidence))
    ensures !NeighboursEqual(Sort(checks, NameOfEvidence), NameOfEvidence)
  {
    hide Sort, NeighboursEqual;
    var sorted := Sort(checks, NameOfEvidence);
    SortSorts(checks, NameOfEvidence);
    SortTwice(sorted, NameOfEvidence);
  }

  /** Sorting a sorted list changes nothing. */
  lemma {:induction false} SortTwice<T>(s: seq<T>, key: T -> string)
    requires SortedBy(s, key)
    ensures Sort(s, key) == s
  {
    hide Insert, Less;
    if s != [] {
      var n := |s| - 1;
      assert SortedBy(s[..n], key) && (n > 0 ==> !Less(key(s[n]), key(s[n - 1])));
      hide SortedBy;
      SortTwice(s[..n], key);
      InsertAt(s[..n], s[n], key, n);
      assert s == s[..n] + [s[n]] && s[..n][..n] == s[..n] && s[..n][n..] == [];
    }
  }

  // ---------------------------------------------------------------- a verified manifest that leaves out an object

  function Without<T>(s: seq<T>, k: nat): (r: seq<T>)
    requires k < |s|
    ensures |r| == |s| - 1 && forall i :: 0 <= i < |r| ==> r[i] == s[if i < k then i else i + 1]
  {
    s[..k] + s[k + 1..]
  }

  /** The manifest with its k-th object and path left out. */
  function Omitting(m: Manifest, k: nat): Manifest
    requires k < |m.content.objects| == |m.content.expectedPaths|
  {
    var content := m.content.(objects := Without(m.content.objects, k),
                              expectedPaths := Without(m.content.expectedPaths, k));
    Manifest(content, ManifestDigest(content))
  }

  lemma StrictIsCanonical<T>(s: seq<T>, key: T -> string)
    requires StrictlySortedBy(s, key)
    ensures Sort(s, key) == s && !NeighboursEqual(s, key)
  {
    forall i, j | 0 <= i < j < |s| ensures !Less(key(s[j]), key(s[i])) {
      if Less(key(s[j]), key(s[i])) {
        LessIsTransitive(key(s[i]), key(s[j]), key(s[i]));
        LessIsIrreflexive(key(s[i]));
      }
    }
    SortTwice(s, key);
    NeighboursSuffice(s, key);
  }

  lemma WithoutStaysStrict<T>(s: seq<T>, key: T -> string, k: nat)
    requires StrictlySortedBy(s, key) && k < |s|
    ensures StrictlySortedBy(Without(s, k), key)
  {
    hide Less;
  }

  lemma {:induction false} DigestElsewhere(objects: seq<BackupObject>, k: nat, path: string)
    requires k < |objects| && objects[k].path != path
    ensures DigestAt(Without(objects, k), path) == DigestAt(objects, path)
  {
    if k == 0 {
      assert Without(objects, k) == objects[1..];
    } else {
      DigestElsewhere(objects[1..], k - 1, path);
      assert Without(objects, k)[1..] == Without(objects[1..], k - 1);
    }
  }

  lemma NothingLacking(paths: seq<string>)
    ensures Lacking(paths, paths) == []
  {
    hide Lacking;
  }

  lemma OmittingKeepsDocument(m: Manifest, k: nat)
    requires ValidDocument(m) && CapturedPaths(m.content.objects) == m.content.expectedPaths && k < |m.content.objects|
    requires m.content.missing == [] && m.content.unexpected == []
    ensures ValidDocument(Omitting(m, k))
  {
    hide Sort, NeighboursEqual, StrictlySortedBy, Lacking, UniqueChecks, SnapshotBinding, ValidSchemaVersion, KeyList,
      Without;
    SortedDocument(m);
    var c := m.content;
    WithoutStaysStrict(c.objects, PathOf, k);
    WithoutStaysStrict(c.expectedPaths, Itself, k);
    StrictIsCanonical(Without(c.objects, k), PathOf);
    StrictIsCanonical(Without(c.expectedPaths, k), Itself);
    CapturedWithout(c.objects, k);
    NothingLacking(Without(c.expectedPaths, k));
  }

  lemma CapturedWithout(objects: seq<BackupObject>, k: nat)
    requires k < |objects|
    ensures CapturedPaths(Without(objects, k)) == Without(CapturedPaths(objects), k)
  {
  }

  lemma OmittingKeepsFit(unit: Unit, objects: seq<BackupObject>, checks: seq<CheckEvidence>, k: nat)
    requires ObjectsFitUnit(unit, objects) && ChecksFitUnit(unit, objects, checks)
    requires k < |objects| && objects[k].path != unit.content.primary
    ensures ObjectsFitUnit(unit, Without(objects, k)) && ChecksFitUnit(unit, Without(objects, k), checks)
  {
    DigestElsewhere(objects, k, unit.content.primary);
    hide DigestAt;
  }

  /**
    The gap is real for every unit with more than its database: leaving any other object out of
    a verified manifest, together with its expected path, gives a manifest that still verifies.
  */
  lemma VerifiedManifestCanOmitAnObject(m: Manifest, s: Spec, k: nat)
    requires VerifiedAgainst(m, s) && MatchesUnit(m.content.objects, s.content.unit.content.objects)
    requires k < |m.content.objects| && m.content.objects[k].path != s.content.unit.content.primary
    ensures |m.content.objects| == |m.content.expectedPaths|
    ensures VerifiedAgainst(Omitting(m, k), s)
    ensures !MatchesUnit(Omitting(m, k).content.objects, s.content.unit.content.objects)
  {
    VerifiedListsItsPaths(m, s);
    hide ValidDocument, ValidSpec, ObjectsFitUnit, ChecksFitUnit;
    OmittingKeepsDocument(m, k);
    OmittingKeepsFit(s.content.unit, m.content.objects, m.content.checks, k);
  }

  // ---------------------------------------------------------------- a concrete unit and manifest

  const SAMPLE_OBJECTS: seq<ExpectedObject> :=
    [ExpectedObject("d", SqliteDatabase, 0, 0, 384), ExpectedObject("m", Master, 0, 0, 384)]

  const SAMPLE_CHECKS: seq<CheckSpec> :=
    [CheckSpec("a", SqliteIntegrity, 0), CheckSpec("b", ForeignKeys, 0), CheckSpec("c", DatabaseToFiles, 0),
     CheckSpec("d", StagedReadSmoke, 0), CheckSpec("e", DomainInvariant, 0)]

  const SAMPLE_UNIT_CONTENT := UnitContent("u", 0, SAMPLE_OBJECTS, "d", SAMPLE_CHECKS)
  const SAMPLE_UNIT := Unit(SAMPLE_UNIT_CONTENT, UnitDigest(SAMPLE_UNIT_CONTENT))

  const SAMPLE_SPEC_CONTENT := SpecContent(1, 1, 1, 1, 1, 1, 1, Base, Scheduled, SAMPLE_UNIT, 1, 1, 1, 10, None, None)
  const SAMPLE_SPEC := Spec(SAMPLE_SPEC_CONTENT, SpecDigest(SAMPLE_SPEC_CONTENT))

  const SAMPLE_CAPTURED: seq<BackupObject> :=
    [BackupObject("d", SqliteDatabase, 1, 7, 0, 0, 384, 1), BackupObject("m", Master, 1, 8, 0, 0, 384, 1)]

  const SAMPLE_EVIDENCE: seq<CheckEvidence> :=
    [CheckEvidence("a", SqliteIntegrity, 0, 7, true, 0), CheckEvidence("b", ForeignKeys, 0, 7, true, 0),
     CheckEvidence("c", DatabaseToFiles, 0, 7, true, 0), CheckEvidence("d", StagedReadSmoke, 0, 7, true, 0),
     CheckEvidence("e", DomainInvariant, 0, 7, true, 0)]

  const SAMPLE_CONTENT := ManifestContent(
    SAMPLE_SPEC.digest, 1, 1, 1, 1, Base, Scheduled, SAMPLE_UNIT.digest, 0, "1", None, None, 0, 5,
    ["d", "m"], SAMPLE_CAPTURED, [], [], SAMPLE_EVIDENCE)

  const SAMPLE_MANIFEST := Manifest(SAMPLE_CONTENT, ManifestDigest(SAMPLE_CONTENT))

  /** Lists whose keys are single characters in ascending order are strictly sorted. */
  lemma SingleCharacters<T>(s: seq<T>, key: T -> string)
    requires forall i :: 0 <= i < |s| ==> |key(s[i])| == 1
    requires forall i, j :: 0 <= i < j < |s| ==> |key(s[i])| == 1 && |key(s[j])| == 1 && key(s[i])[0] < key(s[j])[0]
    ensures StrictlySortedBy(s, key)
  {
  }

  function Letter(i: nat): string
    requires i < 26
  {
    [('a' as int + i) as char]
  }

  /** Lists keyed by consecutive letters. */
  lemma Alphabetical<T>(s: seq<T>, key: T -> string)
    requires |s| <= 26 && forall i :: 0 <= i < |s| ==> key(s[i]) == Letter(i)
    ensures Sort(s, key) == s && !NeighboursEqual(s, key)
    ensures forall i :: 0 <= i < |s| ==> BoundedIdentifier(key(s[i]))
  {
    forall i, j | 0 <= i < j < |s| ensures Less(key(s[i]), key(s[j])) { assert Less(Letter(i), Letter(j)); }
    hide Sort, NeighboursEqual;
    StrictIsCanonical(s, key);
  }

  lemma SampleObjectsSorted()
    ensures SortExpected(SAMPLE_OBJECTS) == Some(SAMPLE_OBJECTS)
  {
    SingleCharacters(SAMPLE_OBJECTS, PathOfExpected);
    hide Sort, NeighboursEqual, StrictlySortedBy;
    StrictIsCanonical(SAMPLE_OBJECTS, PathOfExpected);
  }

  lemma SampleNames()
    ensures forall i :: 0 <= i < |SAMPLE_CHECKS| ==> SAMPLE_CHECKS[i].name == Letter(i)
    ensures forall i :: 0 <= i < |SAMPLE_EVIDENCE| ==> SAMPLE_EVIDENCE[i].name == Letter(i)
  {
  }

  lemma SampleChecksSorted()
    ensures SortChecks(SAMPLE_CHECKS) == Some(SAMPLE_CHECKS)
  {
    hide Sort, NeighboursEqual, StrictlySortedBy, BoundedIdentifier;
    SampleNames();
    Alphabetical(SAMPLE_CHECKS, NameOfSpec);
  }

  lemma SampleUnitIsValid()
    ensures ValidUnit(SAMPLE_UNIT)
  {
    hide SortExpected, SortChecks, CountDatabases, RequiredCheckKinds;
    SampleObjectsSorted();
    SampleChecksSorted();
    SampleDatabases();
    SampleKinds();
    assert SAMPLE_OBJECTS[0].path == "d" && SAMPLE_OBJECTS[0].kind == SqliteDatabase;
    assert BoundedIdentifier("u");
  }

  lemma SampleDatabases()
    ensures CountDatabases(SAMPLE_OBJECTS) == 1
  {
    assert SAMPLE_OBJECTS[..1] == [SAMPLE_OBJECTS[0]];
    assert CountDatabases(SAMPLE_OBJECTS[..1]) == CountDatabases([]) + 1;
  }

  lemma CountsAddUp(kind: CheckKind)
    ensures CountKind(SAMPLE_CHECKS, kind) == 1
  {
    var c := SAMPLE_CHECKS;
    assert c[..0] == [] && c[..1][..0] == [] && c[..2][..1] == c[..1] && c[..3][..2] == c[..2] && c[..4][..3] == c[..3];
    assert CountKind(c[..1], kind) == if kind == SqliteIntegrity then 1 else 0;
    assert CountKind(c[..2], kind) == CountKind(c[..1], kind) + if kind == ForeignKeys then 1 else 0;
    assert CountKind(c[..3], kind) == CountKind(c[..2], kind) + if kind == DatabaseToFiles then 1 else 0;
    assert CountKind(c[..4], kind) == CountKind(c[..3], kind) + if kind == StagedReadSmoke then 1 else 0;
    match kind
    case _ =>
  }

  lemma SampleKinds()
    ensures RequiredCheckKinds(SAMPLE_CHECKS)
  {
    CountsAddUp(SqliteIntegrity);
    CountsAddUp(ForeignKeys);
    CountsAddUp(DatabaseToFiles);
    CountsAddUp(StagedReadSmoke);
    hide CountKind;
    assert SAMPLE_CHECKS[4].kind == DomainInvariant;
  }

  lemma SampleEvidenceSorted()
    ensures Sort(SAMPLE_EVIDENCE, NameOfEvidence) == SAMPLE_EVIDENCE && UniqueChecks(SAMPLE_EVIDENCE)
  {
    hide Sort, NeighboursEqual, StrictlySortedBy, BoundedIdentifier;
    SampleNames();
    Alphabetical(SAMPLE_EVIDENCE, NameOfEvidence);
  }

  lemma SampleCapturedSorted()
    ensures Sort(SAMPLE_CAPTURED, PathOf) == SAMPLE_CAPTURED && !NeighboursEqual(SAMPLE_CAPTURED, PathOf)
    ensures CapturedPaths(SAMPLE_CAPTURED) == ["d", "m"]
  {
    SingleCharacters(SAMPLE_CAPTURED, PathOf);
    hide Sort, NeighboursEqual, StrictlySortedBy;
    StrictIsCanonical(SAMPLE_CAPTURED, PathOf);
  }

  lemma SamplePathsSorted()
    ensures Sort(["d", "m"], Itself) == ["d", "m"] && !NeighboursEqual(["d", "m"], Itself)
  {
    SingleCharacters(["d", "m"], Itself);
    hide Sort, NeighboursEqual, StrictlySortedBy;
    StrictIsCanonical(["d", "m"], Itself);
  }

  lemma SampleDocumentIsValid()
    ensures ValidDocument(SAMPLE_MANIFEST)
  {
    hide Sort, NeighboursEqual, UniqueChecks, Lacking, CapturedPaths;
    SampleEvidenceSorted();
    SampleCapturedSorted();
    SamplePathsSorted();
    NothingLacking(["d", "m"]);
  }

  /**
    A concrete verified manifest that matches its unit, and the verified one left when its second object is omitted.
  */
  lemma SampleOmission()
    ensures VerifiedAgainst(SAMPLE_MANIFEST, SAMPLE_SPEC)
    ensures MatchesUnit(SAMPLE_CAPTURED, SAMPLE_OBJECTS)
    ensures VerifiedAgainst(Omitting(SAMPLE_MANIFEST, 1), SAMPLE_SPEC)
    ensures !MatchesUnit(Omitting(SAMPLE_MANIFEST, 1).content.objects, SAMPLE_OBJECTS)
  {
    SampleUnitIsValid();
    SampleDocumentIsValid();
    hide ValidUnit, ValidDocument;
    assert DigestAt(SAMPLE_CAPTURED, "d") == Some(7);
    assert VerifiedAgainst(SAMPLE_MANIFEST, SAMPLE_SPEC);
    hide VerifiedAgainst, DigestAt, Omitting;
    VerifiedManifestCanOmitAnObject(SAMPLE_MANIFEST, SAMPLE_SPEC, 1);
  }
}
