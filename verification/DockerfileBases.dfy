/**
  Freezing the base images of a repository Dockerfile.  The FROM instructions are walked in
  order, collecting stage names and the images that must be resolved; the resolved bases
  handed in are then matched against those requirements exactly.

  An instruction is given as its blank-separated arguments.  Which hosts count as public
  registries is a parameter.
*/
module DockerfileBases {
  import opened Domain
  import opened SortedLists

  datatype Policy = Policy(publicHost: string -> bool, allowed: set<string>)

  datatype Requirement = Requirement(stage: string, requested: string)

  datatype ResolvedBase = ResolvedBase(stage: string, requested: string, manifest: string, platform: string)

  datatype DockerfileError =
    | InvalidFrom | NoncanonicalFrom | InvalidStage | UnpinnedFrom | DuplicateStage | MissingFrom
    | InvalidBaseImage | RegistryNotAllowed | DuplicateBaseStage | ResolvedBaseMismatch

  // ---------------------------------------------------------------- strings

  predicate LowerOrDigit(c: char) { 'a' <= c <= 'z' || '0' <= c <= '9' }

  predicate Alphanumeric(c: char) { LowerOrDigit(c) || 'A' <= c <= 'Z' }

  function Lower(c: char): char {
    if 'A' <= c <= 'Z' then (c as int + 32) as char else c
  }

  function Lowercase(s: string): (r: string)
    ensures |r| == |s| && forall i :: 0 <= i < |s| ==> r[i] == Lower(s[i])
  {
    seq(|s|, i requires 0 <= i < |s| => Lower(s[i]))
  }

  /** The characters of the Unicode White_Space property. */
  predicate Whitespace(c: char) {
    || c in {' ', '\t', '\n', '\U{0b}', '\U{0c}', '\r', '\U{85}', '\U{a0}', '\U{1680}'}
    || '\U{2000}' <= c <= '\U{200a}'
    || c in {'\U{2028}', '\U{2029}', '\U{202f}', '\U{205f}', '\U{3000}'}
  }

  function Decimal(n: nat): string {
    if n < 10 then [('0' as int + n) as char] else Decimal(n / 10) + [('0' as int + n % 10) as char]
  }

  /** Position of the last occurrence. */
  function LastIndexOf(s: string, c: char): (r: Option<nat>)
    ensures r.Some? ==> r.value < |s| && s[r.value] == c && c !in s[r.value + 1..]
    ensures r.None? <==> c !in s
  {
    if s == "" then None
    else if s[|s| - 1] == c then Some(|s| - 1)
    else
      var n := |s| - 1;
      assert s == s[..n] + [s[n]];
      match LastIndexOf(s[..n], c)
      case None => None
      case Some(i) =>
        assert s[i + 1..] == s[..n][i + 1..] + [s[n]];
        Some(i)
  }

  function Split(s: string, c: char): (r: seq<string>)
    ensures r != []
  {
    match LastIndexOf(s, c)
    case None => [s]
    case Some(i) => Split(s[..i], c) + [s[i + 1..]]
  }

  // ---------------------------------------------------------------- repository path components

  const MAX_COMPONENT: nat := 128

  /** One or more lower-case letters or digits. */
  ghost predicate Word(s: string) {
    s != "" && forall i :: 0 <= i < |s| ==> LowerOrDigit(s[i])
  }

  /** A dot, one or two underscores, or any number of dashes. */
  ghost predicate Separator(s: string) {
    s == "." || s == "_" || s == "__" || (s != "" && forall i :: 0 <= i < |s| ==> s[i] == '-')
  }

  /** The path component of the OCI Distribution Specification: words joined by separators. */
  ghost predicate Component(s: string)
    decreases |s|, 1
  {
    exists i :: 1 <= i <= |s| && Word(s[..i]) && (i == |s| || Joined(s[i..]))
  }

  ghost predicate Joined(s: string)
    decreases |s|, 0
  {
    exists j :: 1 <= j < |s| && Separator(s[..j]) && Component(s[j..])
  }

  /** Length of the separator the scanner takes, 0 if there is none. */
  function SeparatorLength(s: string): (n: nat)
    ensures n <= |s|
  {
    if s == "" then 0
    else if s[0] == '.' then 1
    else if s[0] == '_' then if |s| > 1 && s[1] == '_' then 2 else 1
    else Dashes(s)
  }

  function Dashes(s: string): (n: nat)
    ensures n <= |s| && (forall i :: 0 <= i < n ==> s[i] == '-') && (n < |s| ==> s[n] != '-')
  {
    if s == "" || s[0] != '-' then 0 else Dashes(s[1..]) + 1
  }

  /** The scanner's loop: words character by character, each separator followed by a word. */
  predicate Scans(s: string)
    decreases |s|
  {
    if s == "" then true
    else if LowerOrDigit(s[0]) then Scans(s[1..])
    else
      var n := SeparatorLength(s);
      0 < n < |s| && LowerOrDigit(s[n]) && Scans(s[n..])
  }

  lemma {:induction false} ComponentScans(s: string)
    requires Component(s)
    ensures Scans(s) && s != "" && LowerOrDigit(s[0])
    decreases |s|
  {
    var i :| 1 <= i <= |s| && Word(s[..i]) && (i == |s| || Joined(s[i..]));
    assert LowerOrDigit(s[..i][0]);
    if i > 1 {
      assert Word(s[1..][..i - 1]) by {
        assert s[1..][..i - 1] == s[..i][1..];
      }
      assert s[1..][i - 1..] == s[i..];
      assert Component(s[1..]);
      ComponentScans(s[1..]);
    } else if i < |s| {
      var t := s[1..];
      var j :| 1 <= j < |t| && Separator(t[..j]) && Component(t[j..]);
      ComponentScans(t[j..]);
      assert t[j..][0] == t[j];
      SeparatorIsTaken(t, j);
    } else {
      assert s[1..] == "";
    }
  }

  lemma SeparatorIsTaken(t: string, j: nat)
    requires 1 <= j < |t| && Separator(t[..j]) && LowerOrDigit(t[j])
    ensures SeparatorLength(t) == j && !LowerOrDigit(t[0])
  {
    assert t[..j][0] == t[0];
    if t[..j] == "__" {
      assert t[..j][1] == t[1];
    } else if t[0] == '-' {
      assert forall i :: 0 <= i < j ==> t[..j][i] == '-';
      DashesRun(t, j);
    }
  }

  lemma {:induction false} DashesRun(t: string, j: nat)
    requires j < |t| && t[j] != '-' && forall i :: 0 <= i < j ==> t[i] == '-'
    ensures Dashes(t) == j
  {
    if j > 0 { DashesRun(t[1..], j - 1); }
  }

  lemma {:induction false} ScannedIsComponent(s: string)
    requires Scans(s) && s != "" && LowerOrDigit(s[0])
    ensures Component(s)
    decreases |s|
  {
    var t := s[1..];
    if t == "" {
      assert s[..1] == s;
      assert Word(s[..1]);
    } else if LowerOrDigit(t[0]) {
      ScannedIsComponent(t);
      var i :| 1 <= i <= |t| && Word(t[..i]) && (i == |t| || Joined(t[i..]));
      assert s[..i + 1] == [s[0]] + t[..i];
      assert Word(s[..i + 1]);
      assert s[i + 1..] == t[i..];
    } else {
      var n := SeparatorLength(t);
      ScannedIsComponent(t[n..]);
      TakenIsSeparator(t);
      assert Joined(t);
      assert Word(s[..1]);
    }
  }

  lemma TakenIsSeparator(t: string)
    requires t != "" && !LowerOrDigit(t[0]) && SeparatorLength(t) > 0
    ensures Separator(t[..SeparatorLength(t)])
  {
    var n := SeparatorLength(t);
    if t[0] == '_' && n == 2 { assert t[..2] == "__"; }
    if n == 1 { assert t[..1] == [t[0]]; }
  }

  /** The scanner as written: it accepts exactly the path components of the specification, up to its length limit. */
  method ValidComponent(s: string) returns (ok: bool)
    ensures ok <==> |s| <= MAX_COMPONENT && Component(s)
  {
    hide Component, SeparatorLength;
    ComponentIff(s);
    if s != "" && Scans(s) { ScannedEndsInWord(s); }
    if |s| == 0 || |s| > MAX_COMPONENT || !Alphanumeric(s[0]) || !Alphanumeric(s[|s| - 1]) {
      return false;
    }
    var index := 0;
    while index < |s|
      invariant 0 <= index <= |s|
      invariant Scans(s) <==> Scans(s[index..])
      invariant index > 0 ==> LowerOrDigit(s[0])
    {
      ghost var rest := s[index..];
      if LowerOrDigit(s[index]) {
        assert rest[1..] == s[index + 1..];
        index := index + 1;
        continue;
      }
      var start := index;
      index := SkipSeparator(s, index);
      if index == start || index >= |s| || !LowerOrDigit(s[index]) { return false; }
      assert rest[index - start..] == s[index..];
    }
    return true;
  }

  /** The scanner's recursion accepts exactly the grammar. */
  lemma ComponentIff(s: string)
    ensures Component(s) <==> s != "" && LowerOrDigit(s[0]) && Scans(s)
  {
    hide Component, Scans;
    if Component(s) { ComponentScans(s); }
    if s != "" && LowerOrDigit(s[0]) && Scans(s) { ScannedIsComponent(s); }
  }

  /** One separator: a dot, one or two underscores, or a run of dashes. */
  method SkipSeparator(s: string, start: nat) returns (index: nat)
    requires start < |s|
    ensures start <= index <= |s| && index - start == SeparatorLength(s[start..])
    ensures index > start ==> s[start] in {'.', '_', '-'}
  {
    index := start;
    ghost var rest := s[start..];
    if s[index] == '.' {
      index := index + 1;
    } else if s[index] == '_' {
      index := index + 1;
      if index < |s| && s[index] == '_' { index := index + 1; }
    } else {
      while index < |s| && s[index] == '-'
        invariant start <= index <= |s|
        invariant forall i :: start <= i < index ==> s[i] == '-'
      {
        index := index + 1;
      }
      if index < |s| { DashesRun(rest, index - start); } else { AllDashes(rest); }
    }
  }

  lemma {:induction false} AllDashes(t: string)
    requires forall i :: 0 <= i < |t| ==> t[i] == '-'
    ensures Dashes(t) == |t|
  {
    if t != "" { AllDashes(t[1..]); }
  }

  lemma {:induction false} ScannedEndsInWord(s: string)
    requires Scans(s) && s != ""
    ensures LowerOrDigit(s[|s| - 1])
    decreases |s|
  {
    if LowerOrDigit(s[0]) {
      if |s| > 1 { ScannedEndsInWord(s[1..]); }
    } else {
      ScannedEndsInWord(s[SeparatorLength(s)..]);
    }
  }

  predicate ComponentFits(s: string) {
    0 < |s| <= MAX_COMPONENT && LowerOrDigit(s[0]) && Scans(s)
  }

  // ---------------------------------------------------------------- image references

  datatype Reference = Reference(registry: string, manifest: string)

  const DIGEST_PREFIX: string := "sha256:"

  predicate CanonicalDigest(s: string) {
    && |s| == |DIGEST_PREFIX| + 64
    && s[..|DIGEST_PREFIX|] == DIGEST_PREFIX
    && forall i :: |DIGEST_PREFIX| <= i < |s| ==> '0' <= s[i] <= '9' || 'a' <= s[i] <= 'f'
  }

  predicate TagChar(c: char) { Alphanumeric(c) || c in {'_', '.', '-'} }

  predicate ValidTag(s: string) {
    0 < |s| <= 128 && (Alphanumeric(s[0]) || s[0] == '_') && forall i :: 0 <= i < |s| ==> TagChar(s[i])
  }

  /** The name without its tag, if any; None when the tag is malformed. */
  function Repository(name: string): Option<string> {
    var slash, colon := LastIndexOf(name, '/'), LastIndexOf(name, ':');
    if colon.None? || (slash.Some? && colon.value <= slash.value) then Some(name)
    else if ValidTag(name[colon.value + 1..]) then Some(name[..colon.value])
    else None
  }

  predicate ExplicitRegistry(first: string) {
    '.' in first || ':' in first || first == "localhost"
  }

  /** The components behind the registry. */
  function PathPart(components: seq<string>): seq<string>
    requires components != []
  {
    if ExplicitRegistry(components[0]) then components[1..] else components
  }

  predicate ComponentsFit(path: seq<string>) {
    forall i :: 0 <= i < |path| ==> ComponentFits(path[i])
  }

  function ParseReference(policy: Policy, value: string): (r: Option<Reference>)
    ensures r.Some? ==> CanonicalDigest(r.value.manifest) && PinnedBy(value, r.value.manifest)
  {
    match LastIndexOf(value, '@')
    case None => None
    case Some(k) =>
      var name, manifest := value[..k], value[k + 1..];
      assert value == name + "@" + manifest;
      if name == "" || |name| > 255 || '@' in name || (exists c :: c in name && Whitespace(c)) then None
      else if !CanonicalDigest(manifest) then None
      else
        match Repository(name)
        case None => None
        case Some(repository) =>
          var components := Split(repository, '/');
          var first := components[0];
          if ExplicitRegistry(first)
             && (|components| < 2 || exists i :: 0 <= i < |first| && 'A' <= first[i] <= 'Z') then None
          else
            var registry := if ExplicitRegistry(first) then Lowercase(first) else "docker.io";
            if !policy.publicHost(registry) || !ComponentsFit(PathPart(components)) then None
            else Some(Reference(registry, manifest))
  }

  /** The reference ends in the digest it is pinned to. */
  ghost predicate PinnedBy(value: string, manifest: string) {
    exists name :: name != "" && value == name + "@" + manifest
  }

  // ---------------------------------------------------------------- references as a grammar

  /** The parts with the separator between them. */
  ghost function Join(parts: seq<string>, c: char): string {
    if parts == [] then ""
    else if |parts| == 1 then parts[0]
    else Join(parts[..|parts| - 1], c) + [c] + parts[|parts| - 1]
  }

  lemma {:induction false} JoinSplit(s: string, c: char)
    ensures Join(Split(s, c), c) == s
    ensures forall i :: 0 <= i < |Split(s, c)| ==> c !in Split(s, c)[i]
    decreases |s|
  {
    match LastIndexOf(s, c)
    case None =>
    case Some(k) =>
      JoinSplit(s[..k], c);
      var front, all := Split(s[..k], c), Split(s, c);
      assert all == front + [s[k + 1..]];
      assert all[..|all| - 1] == front;
      assert s == s[..k] + [c] + s[k + 1..];
  }

  lemma LastIndexIs(s: string, c: char, k: nat)
    requires k < |s| && s[k] == c && c !in s[k + 1..]
    ensures LastIndexOf(s, c) == Some(k)
  {
    var i := LastIndexOf(s, c).value;
    assert forall j :: i < j < |s| ==> s[j] == s[i + 1..][j - i - 1];
    assert forall j :: k < j < |s| ==> s[j] == s[k + 1..][j - k - 1];
  }

  /** The separator before a last part that does not contain it is the last one. */
  lemma LastOfJoined(front: string, c: char, last: string)
    requires c !in last
    ensures LastIndexOf(front + [c] + last, c) == Some(|front|)
  {
    var s := front + [c] + last;
    assert s[|front| + 1..] == last;
    LastIndexIs(s, c, |front|);
  }

  lemma SplitAtLast(front: string, c: char, last: string)
    requires c !in last
    ensures Split(front + [c] + last, c) == Split(front, c) + [last]
  {
    hide LastIndexOf;
    LastOfJoined(front, c, last);
    var s := front + [c] + last;
    assert s[..|front|] == front && s[|front| + 1..] == last;
  }

  lemma {:induction false} SplitJoin(parts: seq<string>, c: char)
    requires parts != [] && forall i :: 0 <= i < |parts| ==> c !in parts[i]
    ensures Split(Join(parts, c), c) == parts
  {
    var n := |parts| - 1;
    if n > 0 {
      hide Split, LastIndexOf;
      SplitJoin(parts[..n], c);
      SplitAtLast(Join(parts[..n], c), c, parts[n]);
      assert parts == parts[..n] + [parts[n]];
    } else {
      assert c !in parts[0];
    }
  }

  /** How a reference is written. */
  datatype Written = Written(registry: Option<string>, path: seq<string>, tag: Option<string>, manifest: string)

  ghost function WrittenRepository(w: Written): string {
    Join(if w.registry.Some? then [w.registry.value] + w.path else w.path, '/')
  }

  ghost function WrittenName(w: Written): string {
    WrittenRepository(w) + if w.tag.Some? then ":" + w.tag.value else ""
  }

  ghost function Write(w: Written): string {
    WrittenName(w) + "@" + w.manifest
  }

  /** No character of a registry separates it from the rest, folds, or is white space. */
  predicate RegistryChar(c: char) {
    c !in {'/', '@'} && !('A' <= c <= 'Z') && !Whitespace(c)
  }

  /** An explicit registry is recognised by a dot, a port or being localhost; without one the first component is not. */
  ghost predicate WellWritten(policy: Policy, w: Written) {
    && w.path != [] && (forall i :: 0 <= i < |w.path| ==> |w.path[i]| <= MAX_COMPONENT && Component(w.path[i]))
    && (w.tag.Some? ==> ValidTag(w.tag.value))
    && CanonicalDigest(w.manifest)
    && |WrittenName(w)| <= 255
    && policy.publicHost(RegistryOf(w))
    && (if w.registry.Some? then
          ExplicitRegistry(w.registry.value) && forall c :: c in w.registry.value ==> RegistryChar(c)
        else !ExplicitRegistry(w.path[0]))
  }

  ghost function RegistryOf(w: Written): string {
    if w.registry.Some? then w.registry.value else "docker.io"
  }

  lemma {:induction false} ComponentChars(s: string, i: nat)
    requires Scans(s) && i < |s|
    ensures LowerOrDigit(s[i]) || s[i] in {'.', '_', '-'}
    decreases |s|
  {
    if LowerOrDigit(s[0]) {
      if i > 0 { ComponentChars(s[1..], i - 1); }
    } else {
      var n := SeparatorLength(s);
      if i >= n { ComponentChars(s[n..], i - n); }
    }
  }

  lemma ComponentHas(s: string, c: char)
    requires Component(s) && c in s
    ensures LowerOrDigit(c) || c in {'.', '_', '-'}
  {
    hide Component, Scans;
    ComponentIff(s);
    var i :| 0 <= i < |s| && s[i] == c;
    ComponentChars(s, i);
  }

  lemma {:induction false} JoinHas(parts: seq<string>, sep: char, c: char)
    requires c in Join(parts, sep)
    ensures c == sep || exists i :: 0 <= i < |parts| && c in parts[i]
  {
    if |parts| > 1 {
      var n := |parts| - 1;
      if c in Join(parts[..n], sep) {
        JoinHas(parts[..n], sep, c);
        if c != sep {
          var i :| 0 <= i < n && c in parts[..n][i];
          assert c in parts[i];
        }
      } else if c != sep {
        assert c in parts[n];
      }
    } else if |parts| == 1 {
      assert c in parts[0];
    }
  }

  /** The characters of a well-written name. */
  lemma NameHas(policy: Policy, w: Written, c: char)
    requires WellWritten(policy, w) && c in WrittenName(w)
    ensures c != '@' && !Whitespace(c)
  {
    hide Component, Join;
    var parts := if w.registry.Some? then [w.registry.value] + w.path else w.path;
    if c in WrittenRepository(w) {
      JoinHas(parts, '/', c);
      if c != '/' {
        var i :| 0 <= i < |parts| && c in parts[i];
        if parts[i] in w.path { ComponentHas(parts[i], c); }
      }
    } else {
      assert w.tag.Some? && c in ":" + w.tag.value;
      if c != ':' { assert c in w.tag.value; }
    }
  }

  lemma DigestHasNoAt(s: string)
    requires CanonicalDigest(s)
    ensures '@' !in s
  {
    forall i | 0 <= i < |s| ensures s[i] != '@' {
      if i < |DIGEST_PREFIX| { assert s[i] == s[..|DIGEST_PREFIX|][i]; }
    }
  }

  lemma {:induction false} LastPartOfJoin(parts: seq<string>, c: char)
    requires parts != [] && c !in parts[|parts| - 1]
    ensures var n, s := |parts| - 1, Join(parts, c);
            LastIndexOf(s, c) == (if n == 0 then None else Some(|s| - |parts[n]| - 1))
  {
    if |parts| > 1 {
      var n := |parts| - 1;
      LastOfJoined(Join(parts[..n], c), c, parts[n]);
    }
  }

  /** The tag, or its absence, is read back from a well-written name. */
  lemma RepositoryOfWritten(policy: Policy, w: Written)
    requires WellWritten(policy, w)
    ensures Repository(WrittenName(w)) == Some(WrittenRepository(w))
  {
    hide Component, Join, LastIndexOf;
    var repository, name := WrittenRepository(w), WrittenName(w);
    var parts := if w.registry.Some? then [w.registry.value] + w.path else w.path;
    var last := parts[|parts| - 1];
    assert last == w.path[|w.path| - 1];
    assert '/' !in last by { if '/' in last { ComponentHas(last, '/'); } }
    assert ':' !in last by { if ':' in last { ComponentHas(last, ':'); } }
    LastPartOfJoin(parts, '/');
    if w.tag.Some? {
      var tag := w.tag.value;
      assert ':' !in tag && '/' !in tag;
      assert name == repository + [':'] + tag;
      LastOfJoined(repository, ':', tag);
      assert name[|repository| + 1..] == tag && name[..|repository|] == repository;
      NoSlashBehind(repository, tag, name);
    } else {
      assert name == repository;
      ColonBeforeSlash(policy, w, parts);
    }
  }

  lemma NoSlashBehind(repository: string, tag: string, name: string)
    requires name == repository + [':'] + tag && '/' !in tag
    ensures LastIndexOf(name, '/').Some? ==> LastIndexOf(name, '/').value < |repository|
  {
    hide LastIndexOf;
    assert forall j :: |repository| < j < |name| ==> name[j] == tag[j - |repository| - 1];
  }

  /** Without a tag, a colon can only be in the registry, before the last slash. */
  lemma ColonBeforeSlash(policy: Policy, w: Written, parts: seq<string>)
    requires WellWritten(policy, w) && parts == (if w.registry.Some? then [w.registry.value] + w.path else w.path)
    ensures var s := Join(parts, '/');
            LastIndexOf(s, ':').Some? ==>
              LastIndexOf(s, '/').Some? && LastIndexOf(s, ':').value <= LastIndexOf(s, '/').value
  {
    hide Component, LastIndexOf, Join;
    var s, n := Join(parts, '/'), |parts| - 1;
    var last := parts[n];
    assert last == w.path[|w.path| - 1];
    assert ':' !in last by { if ':' in last { ComponentHas(last, ':'); } }
    assert '/' !in last by { if '/' in last { ComponentHas(last, '/'); } }
    LastPartOfJoin(parts, '/');
    JoinEndsIn(parts, '/');
    assert s[|s| - |last|..] == last;
    assert forall j :: |s| - |last| <= j < |s| ==> s[j] == last[j - (|s| - |last|)];
  }

  lemma JoinEndsIn(parts: seq<string>, c: char)
    requires parts != []
    ensures var s, last := Join(parts, c), parts[|parts| - 1]; |last| <= |s| && s[|s| - |last|..] == last
    ensures |parts| == 1 ==> Join(parts, c) == parts[0]
  {
  }

  lemma LowercaseIsSame(s: string)
    requires forall c :: c in s ==> !('A' <= c <= 'Z')
    ensures Lowercase(s) == s
  {
    assert forall i :: 0 <= i < |s| ==> s[i] in s;
  }

  /** Every well-written reference parses, to its registry and its digest. */
  lemma WrittenParses(policy: Policy, w: Written)
    requires WellWritten(policy, w)
    ensures ParseReference(policy, Write(w)) == Some(Reference(RegistryOf(w), w.manifest))
  {
    hide Component, Join, LastIndexOf, Repository, Scans, Split, CanonicalDigest, Lowercase;
    var value, name := Write(w), WrittenName(w);
    var parts := if w.registry.Some? then [w.registry.value] + w.path else w.path;
    DigestHasNoAt(w.manifest);
    assert value == name + ['@'] + w.manifest;
    LastOfJoined(name, '@', w.manifest);
    assert value[..|name|] == name && value[|name| + 1..] == w.manifest;
    forall c | c in name ensures c != '@' && !Whitespace(c) { NameHas(policy, w, c); }
    RepositoryOfWritten(policy, w);
    forall i | 0 <= i < |parts| ensures '/' !in parts[i] {
      if parts[i] in w.path && '/' in parts[i] { ComponentHas(parts[i], '/'); }
    }
    SplitJoin(parts, '/');
    forall i | 0 <= i < |w.path| ensures ComponentFits(w.path[i]) { ComponentIff(w.path[i]); }
    JoinEndsIn(parts, '/');
    if w.registry.Some? { LowercaseIsSame(w.registry.value); assert parts[1..] == w.path; }
    assert ComponentFits(w.path[|w.path| - 1]);
    assert name != "";
  }

  /** What was read, written out again. */
  ghost function ReadBack(value: string): Written {
    match LastIndexOf(value, '@')
    case None => Written(None, [], None, "")
    case Some(k) =>
      var name, manifest := value[..k], value[k + 1..];
      var repository := Repository(name);
      if repository.None? then Written(None, [], None, "")
      else
        var tag := if |repository.value| < |name| then Some(name[|repository.value| + 1..]) else None;
        var components := Split(repository.value, '/');
        if ExplicitRegistry(components[0]) then Written(Some(components[0]), components[1..], tag, manifest)
        else Written(None, components, tag, manifest)
  }

  /** What acceptance says about the pieces. */
  lemma ParsedPieces(policy: Policy, value: string)
    requires ParseReference(policy, value).Some?
    ensures LastIndexOf(value, '@').Some? && Repository(value[..LastIndexOf(value, '@').value]).Some?
    ensures var w, r := ReadBack(value), ParseReference(policy, value).value;
            var name := value[..LastIndexOf(value, '@').value];
            && |name| <= 255 && (forall c :: c in name ==> c != '@' && !Whitespace(c))
            && w.path != [] && ComponentsFit(w.path)
            && CanonicalDigest(w.manifest) && r.manifest == w.manifest
            && policy.publicHost(r.registry)
            && (w.registry.Some? ==>
                  && ExplicitRegistry(w.registry.value) && r.registry == Lowercase(w.registry.value)
                  && (forall i :: 0 <= i < |w.registry.value| ==> !('A' <= w.registry.value[i] <= 'Z')))
            && (w.registry.None? ==> r.registry == "docker.io" && !ExplicitRegistry(w.path[0]))
  {
    hide LastIndexOf, Repository, Split, CanonicalDigest, Lowercase, ComponentsFit, ExplicitRegistry, Whitespace;
  }

  lemma RepositoryAndTag(name: string)
    requires Repository(name).Some?
    ensures var repository := Repository(name).value;
            || name == repository
            || (|repository| < |name| && name == repository + ":" + name[|repository| + 1..]
                && ValidTag(name[|repository| + 1..]))
  {
    hide LastIndexOf, ValidTag;
  }

  /** The pieces put together give back what was read. */
  lemma ReadBackWrites(value: string)
    requires LastIndexOf(value, '@').Some? && Repository(value[..LastIndexOf(value, '@').value]).Some?
    ensures var w, name := ReadBack(value), value[..LastIndexOf(value, '@').value];
            && WrittenName(w) == name && Write(w) == value
            && (w.tag.Some? ==> ValidTag(w.tag.value))
            && (w.registry.Some? ==> forall c :: c in w.registry.value ==> c in name && c != '/')
  {
    hide Join, LastIndexOf, Split, ValidTag, ExplicitRegistry, Repository;
    var w, k := ReadBack(value), LastIndexOf(value, '@').value;
    var repository := Repository(value[..k]).value;
    RepositoryAndTag(value[..k]);
    var components := Split(repository, '/');
    JoinSplit(repository, '/');
    if w.registry.Some? {
      assert [components[0]] + components[1..] == components;
      forall c | c in components[0] ensures c in repository { FirstPartHas(components, '/', c); }
    }
    assert WrittenRepository(w) == repository;
    assert value == value[..k] + "@" + w.manifest;
  }

  lemma ParsedIsWritten(policy: Policy, value: string)
    requires ParseReference(policy, value).Some?
    ensures WellWritten(policy, ReadBack(value)) && Write(ReadBack(value)) == value
    ensures ParseReference(policy, value).value == Reference(RegistryOf(ReadBack(value)), ReadBack(value).manifest)
  {
    hide ReadBack, ParseReference, Component, Repository, WrittenName, Write, Scans, Split, CanonicalDigest, Lowercase,
      ValidTag, ExplicitRegistry, Whitespace, LastIndexOf;
    ParsedPieces(policy, value);
    ReadBackWrites(value);
    var w := ReadBack(value);
    forall i | 0 <= i < |w.path| ensures |w.path[i]| <= MAX_COMPONENT && Component(w.path[i]) {
      assert ComponentFits(w.path[i]);
      ComponentIff(w.path[i]);
    }
    if w.registry.Some? { LowercaseIsSame(w.registry.value); }
  }

  lemma {:induction false} FirstPartHas(parts: seq<string>, sep: char, c: char)
    requires parts != [] && c in parts[0]
    ensures c in Join(parts, sep)
  {
    if |parts| > 1 { FirstPartHas(parts[..|parts| - 1], sep, c); }
  }

  /**
    A base image reference is accepted exactly when it is written as an optional explicit registry,
    path components of the OCI Distribution Specification, an optional tag and a canonical digest,
    from a public registry; it then means that registry, docker.io when none is written, and that digest.
  */
  lemma ReferenceIff(policy: Policy, value: string, r: Reference)
    ensures ParseReference(policy, value) == Some(r) <==>
              exists w :: WellWritten(policy, w) && Write(w) == value && r == Reference(RegistryOf(w), w.manifest)
  {
    hide ParseReference, WellWritten, Write, RegistryOf;
    if ParseReference(policy, value) == Some(r) { ParsedIsWritten(policy, value); }
    if exists w :: WellWritten(policy, w) && Write(w) == value && r == Reference(RegistryOf(w), w.manifest) {
      var w :| WellWritten(policy, w) && Write(w) == value && r == Reference(RegistryOf(w), w.manifest);
      WrittenParses(policy, w);
    }
  }

  // ---------------------------------------------------------------- walking the FROM instructions

  predicate StageChar(c: char) { LowerOrDigit(c) || c in {'-', '_'} }

  predicate ValidStage(s: string) {
    0 < |s| <= 64 && forall i :: 0 <= i < |s| ==> StageChar(s[i])
  }

  type From = seq<string>

  predicate WellFormedFrom(f: From) {
    && (|f| == 1 || (|f| == 3 && Lowercase(f[1]) == "as"))
    && !("--" <= f[0])
  }

  function Alias(f: From): Option<string> {
    if |f| == 3 then Some(Lowercase(f[2])) else None
  }

  function StageName(f: From, index: nat): string {
    if Alias(f).Some? then Alias(f).value else Decimal(index)
  }

  predicate Scratch(image: string) {
    Lowercase(image) == "scratch"
  }

  datatype Walk = Walk(stages: set<string>, required: seq<Requirement>)

  /** One FROM instruction, the `index`-th stage. */
  function AddStage(policy: Policy, w: Walk, f: From, index: nat): (r: Result<Walk, DockerfileError>) {
    if !WellFormedFrom(f) then Err(InvalidFrom)
    else
      var image, alias := f[0], Alias(f);
      if '\\' in image || '\'' in image || '\"' in image then Err(NoncanonicalFrom)
      else if alias.Some? && !ValidStage(alias.value) then Err(InvalidStage)
      else
        var external := !Scratch(image) && Lowercase(image) !in w.stages;
        if external && ParseReference(policy, image).None? then Err(UnpinnedFrom)
        else
          var required := if external then w.required + [Requirement(StageName(f, index), image)] else w.required;
          if Decimal(index) in w.stages then Err(DuplicateStage)
          else if alias.Some? && alias.value in w.stages + {Decimal(index)} then Err(DuplicateStage)
          else Ok(Walk(w.stages + NamesOf(f, index), required))
  }

  /** The names a stage can be referred to by. */
  function NamesOf(f: From, index: nat): set<string> {
    if Alias(f).Some? then {Decimal(index), Alias(f).value} else {Decimal(index)}
  }

  function WalkPrefix(policy: Policy, froms: seq<From>, n: nat): (r: Result<Walk, DockerfileError>)
    requires n <= |froms|
  {
    if n == 0 then Ok(Walk({}, []))
    else
      match WalkPrefix(policy, froms, n - 1)
      case Err(e) => Err(e)
      case Ok(w) => AddStage(policy, w, froms[n - 1], n - 1)
  }

  method InspectDockerfile(policy: Policy, froms: seq<From>) returns (r: Result<seq<Requirement>, DockerfileError>)
    ensures r == Inspected(policy, froms)
  {
    hide AddStage;
    var w := Walk({}, []);
    for i := 0 to |froms|
      invariant WalkPrefix(policy, froms, i) == Ok(w)
    {
      var next := AddStage(policy, w, froms[i], i);
      if next.Err? {
        WalkStops(policy, froms, i + 1, |froms|);
        return Err(next.error);
      }
      w := next.value;
    }
    if |froms| == 0 { return Err(MissingFrom); }
    return Ok(w.required);
  }

  function Inspected(policy: Policy, froms: seq<From>): Result<seq<Requirement>, DockerfileError> {
    match WalkPrefix(policy, froms, |froms|)
    case Err(e) => Err(e)
    case Ok(w) => if |froms| == 0 then Err(MissingFrom) else Ok(w.required)
  }

  lemma {:induction false} WalkStops(policy: Policy, froms: seq<From>, i: nat, n: nat)
    requires i <= n <= |froms| && WalkPrefix(policy, froms, i).Err?
    ensures WalkPrefix(policy, froms, n) == WalkPrefix(policy, froms, i)
    decreases n
  {
    hide AddStage;
    if i < n { WalkStops(policy, froms, i, n - 1); }
  }

  // ---------------------------------------------------------------- freezing

  function StageOf(r: Requirement): string { r.stage }

  function StageOfBase(b: ResolvedBase): string { b.stage }

  predicate ValidBase(policy: Policy, b: ResolvedBase) {
    && ParseReference(policy, b.requested).Some?
    && ValidStage(b.stage)
    && ParseReference(policy, b.requested).value.manifest == b.manifest
    && b.platform in {"linux/amd64", "linux/arm64"}
  }

  predicate RegistryAllowed(policy: Policy, requested: string) {
    ParseReference(policy, requested).Some? && ParseReference(policy, requested).value.registry in policy.allowed
  }

  predicate SamePairs(required: seq<Requirement>, bases: seq<ResolvedBase>) {
    && |required| == |bases|
    && forall i :: 0 <= i < |bases| ==>
                     required[i].stage == bases[i].stage && required[i].requested == bases[i].requested
  }

  function Freeze(policy: Policy, froms: seq<From>, resolved: seq<ResolvedBase>)
    : (r: Result<seq<ResolvedBase>, DockerfileError>)
  {
    match Inspected(policy, froms)
    case Err(e) => Err(e)
    case Ok(required) =>
      var bases := Sort(resolved, StageOfBase);
      if exists i :: 0 <= i < |bases| && !ValidBase(policy, bases[i]) then Err(InvalidBaseImage)
      else if exists i :: 0 <= i < |bases| && !RegistryAllowed(policy, bases[i].requested) then Err(RegistryNotAllowed)
      else if NeighboursEqual(bases, StageOfBase) then Err(DuplicateBaseStage)
      else if !SamePairs(Sort(required, StageOf), bases) then Err(ResolvedBaseMismatch)
      else Ok(bases)
  }

  // ---------------------------------------------------------------- what an accepted Dockerfile means

  ghost function NamesBefore(froms: seq<From>, n: nat): set<string>
    requires n <= |froms|
  {
    if n == 0 then {} else NamesBefore(froms, n - 1) + NamesOf(froms[n - 1], n - 1)
  }

  /** The image must come from a registry: not scratch and not an earlier stage. */
  ghost predicate External(froms: seq<From>, i: nat)
    requires i < |froms|
  {
    froms[i] != [] && !Scratch(froms[i][0]) && Lowercase(froms[i][0]) !in NamesBefore(froms, i)
  }

  ghost predicate Wants(froms: seq<From>, i: nat, r: Requirement)
    requires i < |froms|
  {
    External(froms, i) && r == Requirement(StageName(froms[i], i), froms[i][0])
  }

  /** All names known and none given twice. */
  ghost predicate NamesWalked(policy: Policy, froms: seq<From>, n: nat, stages: set<string>)
    requires n <= |froms|
  {
    && stages == NamesBefore(froms, n)
    && (forall i :: 0 <= i < n ==> froms[i] != [] && NamesOf(froms[i], i) !! NamesBefore(froms, i))
    && (forall i :: 0 <= i < n && External(froms, i) ==> ParseReference(policy, froms[i][0]).Some?)
  }

  /** All requirements collected, and nothing else. */
  ghost predicate RequirementsWalked(froms: seq<From>, n: nat, required: seq<Requirement>)
    requires n <= |froms|
  {
    forall r :: r in required <==> exists i :: 0 <= i < n && Wants(froms, i, r)
  }

  ghost predicate Walked(policy: Policy, froms: seq<From>, n: nat, w: Walk)
    requires n <= |froms|
  {
    NamesWalked(policy, froms, n, w.stages) && RequirementsWalked(froms, n, w.required)
  }

  lemma AddedStage(policy: Policy, w: Walk, f: From, index: nat)
    requires AddStage(policy, w, f, index).Ok?
    ensures f != [] && NamesOf(f, index) !! w.stages
    ensures var next, external := AddStage(policy, w, f, index).value, !Scratch(f[0]) && Lowercase(f[0]) !in w.stages;
            && next.stages == w.stages + NamesOf(f, index)
            && next.required == (if external then w.required + [Requirement(StageName(f, index), f[0])] else w.required)
            && (external ==> ParseReference(policy, f[0]).Some?)
  {
    hide ParseReference, Decimal, Lowercase, ValidStage;
  }

  lemma RequirementsOneMore(froms: seq<From>, n: nat, required: seq<Requirement>, next: seq<Requirement>)
    requires n < |froms| && froms[n] != [] && RequirementsWalked(froms, n, required)
    requires next ==
             if External(froms, n) then required + [Requirement(StageName(froms[n], n), froms[n][0])] else required
    ensures RequirementsWalked(froms, n + 1, next)
  {
    hide External, StageName;
    forall r ensures r in next <==> exists i :: 0 <= i < n + 1 && Wants(froms, i, r) {
      if r in required {
        var i :| 0 <= i < n && Wants(froms, i, r);
        assert 0 <= i < n + 1 && Wants(froms, i, r);
      }
      if External(froms, n) && r == Requirement(StageName(froms[n], n), froms[n][0]) { assert Wants(froms, n, r); }
      if exists i :: 0 <= i < n + 1 && Wants(froms, i, r) {
        var i :| 0 <= i < n + 1 && Wants(froms, i, r);
        if i < n { assert r in required; }
      }
    }
  }

  lemma StageWalked(policy: Policy, froms: seq<From>, n: nat, w: Walk)
    requires n < |froms| && Walked(policy, froms, n, w) && AddStage(policy, w, froms[n], n).Ok?
    ensures Walked(policy, froms, n + 1, AddStage(policy, w, froms[n], n).value)
  {
    hide AddStage, ParseReference, Lowercase, NamesOf, StageName, RequirementsWalked;
    AddedStage(policy, w, froms[n], n);
    RequirementsOneMore(froms, n, w.required, AddStage(policy, w, froms[n], n).value.required);
  }

  lemma {:induction false} PrefixWalked(policy: Policy, froms: seq<From>, n: nat)
    requires n <= |froms| && WalkPrefix(policy, froms, n).Ok?
    ensures Walked(policy, froms, n, WalkPrefix(policy, froms, n).value)
  {
    hide AddStage, Walked;
    if n > 0 {
      PrefixWalked(policy, froms, n - 1);
      StageWalked(policy, froms, n - 1, WalkPrefix(policy, froms, n - 1).value);
    } else {
      NothingWalked(policy, froms);
    }
  }

  lemma NothingWalked(policy: Policy, froms: seq<From>)
    ensures Walked(policy, froms, 0, Walk({}, []))
  {
  }

  ghost predicate Frozen(b: ResolvedBase, r: Requirement) {
    b.stage == r.stage && b.requested == r.requested
  }

  /** Sorting the requirements and comparing index by index matches every requirement with a base. */
  lemma BaseOf(required: seq<Requirement>, bases: seq<ResolvedBase>, r: Requirement) returns (k: nat)
    requires SamePairs(Sort(required, StageOf), bases) && r in required
    ensures k < |bases| && Frozen(bases[k], r)
  {
    var sorted := Sort(required, StageOf);
    assert r in multiset(required);
    assert r in multiset(sorted);
    k :| 0 <= k < |sorted| && sorted[k] == r;
  }

  /** And every base with a requirement. */
  lemma RequirementOf(required: seq<Requirement>, bases: seq<ResolvedBase>, k: nat) returns (r: Requirement)
    requires SamePairs(Sort(required, StageOf), bases) && k < |bases|
    ensures r in required && Frozen(bases[k], r)
  {
    r := Sort(required, StageOf)[k];
    assert r in multiset(Sort(required, StageOf));
    assert r in multiset(required);
  }

  /** The stages of the frozen bases are strictly sorted, so each occurs once. */
  lemma BasesSorted(resolved: seq<ResolvedBase>)
    requires !NeighboursEqual(Sort(resolved, StageOfBase), StageOfBase)
    ensures StrictlySortedBy(Sort(resolved, StageOfBase), StageOfBase)
  {
    hide Sort;
    SortSorts(resolved, StageOfBase);
    NeighboursSuffice(Sort(resolved, StageOfBase), StageOfBase);
  }

  lemma FreezeParts(policy: Policy, froms: seq<From>, resolved: seq<ResolvedBase>)
    requires Freeze(policy, froms, resolved).Ok?
    ensures WalkPrefix(policy, froms, |froms|).Ok?
    ensures var w, bases := WalkPrefix(policy, froms, |froms|).value, Freeze(policy, froms, resolved).value;
            && SamePairs(Sort(w.required, StageOf), bases)
            && StrictlySortedBy(bases, StageOfBase)
            && forall i :: 0 <= i < |bases| ==>
                             ValidBase(policy, bases[i]) && RegistryAllowed(policy, bases[i].requested)
  {
    hide WalkPrefix, Sort, ParseReference, NeighboursEqual, StrictlySortedBy, SamePairs, ValidBase, RegistryAllowed;
    BasesSorted(resolved);
  }

  /**
    Every FROM of an accepted Dockerfile is scratch, an earlier stage, or frozen under its own stage from an allowed
    registry.
  */
  lemma EveryFromIsAccountedFor(policy: Policy, froms: seq<From>, resolved: seq<ResolvedBase>, i: nat)
    requires Freeze(policy, froms, resolved).Ok? && i < |froms|
    ensures froms[i] != []
    ensures var image, bases := froms[i][0], Freeze(policy, froms, resolved).value;
            || Scratch(image)
            || Lowercase(image) in NamesBefore(froms, i)
            || (&& RegistryAllowed(policy, image)
                && exists k :: 0 <= k < |bases| && Frozen(bases[k], Requirement(StageName(froms[i], i), image))
                               && forall j :: 0 <= j < |bases| && bases[j].stage == bases[k].stage ==> j == k)
  {
    hide WalkPrefix, Sort, ParseReference, Lowercase, StrictlySortedBy, SamePairs, StageName, Freeze, ValidBase,
      RegistryAllowed;
    FreezeParts(policy, froms, resolved);
    var w, bases := WalkPrefix(policy, froms, |froms|).value, Freeze(policy, froms, resolved).value;
    PrefixWalked(policy, froms, |froms|);
    if External(froms, i) {
      var r := Requirement(StageName(froms[i], i), froms[i][0]);
      assert Wants(froms, i, r);
      assert r in w.required;
      var k := BaseOf(w.required, bases, r);
      OnlyOneStage(bases, k);
    }
  }

  lemma OnlyOneStage(bases: seq<ResolvedBase>, k: nat)
    requires StrictlySortedBy(bases, StageOfBase) && k < |bases|
    ensures forall j :: 0 <= j < |bases| && bases[j].stage == bases[k].stage ==> j == k
  {
    LessIsIrreflexive(bases[k].stage);
  }

  /** The frozen bases contain nothing else: each is the external image of exactly its stage. */
  lemma EveryFrozenBaseIsWanted(policy: Policy, froms: seq<From>, resolved: seq<ResolvedBase>, k: nat)
    requires Freeze(policy, froms, resolved).Ok? && k < |Freeze(policy, froms, resolved).value|
    ensures var b := Freeze(policy, froms, resolved).value[k];
            && ValidBase(policy, b)
            && exists i :: 0 <= i < |froms| && External(froms, i)
                           && b.stage == StageName(froms[i], i) && b.requested == froms[i][0]
  {
    hide WalkPrefix, Sort, ParseReference, Lowercase, StrictlySortedBy, SamePairs, StageName, Freeze, ValidBase;
    FreezeParts(policy, froms, resolved);
    var w, bases := WalkPrefix(policy, froms, |froms|).value, Freeze(policy, froms, resolved).value;
    PrefixWalked(policy, froms, |froms|);
    var r := RequirementOf(w.required, bases, k);
    var i :| 0 <= i < |froms| && Wants(froms, i, r);
    assert ValidBase(policy, bases[k]);
  }

  /** No two stages of an accepted Dockerfile share a name. */
  lemma StageNamesAreDistinct(policy: Policy, froms: seq<From>, resolved: seq<ResolvedBase>, i: nat, j: nat)
    requires Freeze(policy, froms, resolved).Ok? && i < j < |froms|
    ensures NamesOf(froms[i], i) !! NamesOf(froms[j], j)
    ensures StageName(froms[i], i) != StageName(froms[j], j)
  {
    hide AddStage, Sort, Decimal;
    PrefixWalked(policy, froms, |froms|);
    NamesAccumulate(froms, i, j);
    assert NamesOf(froms[j], j) !! NamesBefore(froms, j);
    assert StageName(froms[i], i) in NamesOf(froms[i], i) && StageName(froms[j], j) in NamesOf(froms[j], j);
  }

  lemma {:induction false} NamesAccumulate(froms: seq<From>, i: nat, j: nat)
    requires i < j <= |froms|
    ensures NamesOf(froms[i], i) <= NamesBefore(froms, j)
    decreases j
  {
    hide NamesOf;
    if i < j - 1 { NamesAccumulate(froms, i, j - 1); }
  }

  // ---------------------------------------------------------------- exactly which Dockerfiles are accepted

  /** What the walk asks of the i-th FROM, given the names of the stages before it. */
  ghost predicate StageFine(policy: Policy, froms: seq<From>, i: nat)
    requires i < |froms|
  {
    var f := froms[i];
    && WellFormedFrom(f)
    && '\\' !in f[0] && '\'' !in f[0] && '\"' !in f[0]
    && (Alias(f).Some? ==> ValidStage(Alias(f).value) && Alias(f).value != Decimal(i))
    && (External(froms, i) ==> ParseReference(policy, f[0]).Some?)
    && NamesOf(f, i) !! NamesBefore(froms, i)
  }

  lemma AddStageIff(policy: Policy, froms: seq<From>, n: nat, w: Walk)
    requires n < |froms| && w.stages == NamesBefore(froms, n)
    ensures AddStage(policy, w, froms[n], n).Ok? <==> StageFine(policy, froms, n)
  {
    hide ParseReference, Decimal, Lowercase, ValidStage, NamesBefore;
  }

  lemma WalkedStages(policy: Policy, froms: seq<From>, n: nat)
    requires n <= |froms| && WalkPrefix(policy, froms, n).Ok?
    ensures WalkPrefix(policy, froms, n).value.stages == NamesBefore(froms, n)
  {
    hide WalkPrefix, RequirementsWalked;
    PrefixWalked(policy, froms, n);
  }

  lemma {:induction false} WalkIff(policy: Policy, froms: seq<From>, n: nat)
    requires n <= |froms|
    ensures WalkPrefix(policy, froms, n).Ok? <==> forall i :: 0 <= i < n ==> StageFine(policy, froms, i)
  {
    hide AddStage, StageFine;
    if n > 0 {
      WalkIff(policy, froms, n - 1);
      if WalkPrefix(policy, froms, n - 1).Ok? {
        WalkedStages(policy, froms, n - 1);
        AddStageIff(policy, froms, n - 1, WalkPrefix(policy, froms, n - 1).value);
      }
    }
  }

  ghost predicate StagesWithin(required: seq<Requirement>, stages: set<string>) {
    DistinctBy(required, StageOf) && forall i :: 0 <= i < |required| ==> required[i].stage in stages
  }

  lemma OneMoreStage(required: seq<Requirement>, stages: set<string>, r: Requirement, names: set<string>)
    requires StagesWithin(required, stages) && r.stage in names && names !! stages
    ensures StagesWithin(required + [r], stages + names) && StagesWithin(required, stages + names)
  {
  }

  lemma {:induction false} RequiredOnce(policy: Policy, froms: seq<From>, n: nat)
    requires n <= |froms| && WalkPrefix(policy, froms, n).Ok?
    ensures var w := WalkPrefix(policy, froms, n).value; StagesWithin(w.required, w.stages)
  {
    hide AddStage, StageName, NamesOf, ParseReference, Lowercase;
    if n > 0 {
      RequiredOnce(policy, froms, n - 1);
      var w, f := WalkPrefix(policy, froms, n - 1).value, froms[n - 1];
      hide StagesWithin;
      AddedStage(policy, w, f, n - 1);
      StageIsAName(f, n - 1);
      OneMoreStage(w.required, w.stages, Requirement(StageName(f, n - 1), f[0]), NamesOf(f, n - 1));
    }
  }

  lemma StageIsAName(f: From, index: nat)
    ensures StageName(f, index) in NamesOf(f, index)
  {
  }

  /** The resolved bases are the external images of the stages, in any order. */
  ghost predicate ResolvesExactly(froms: seq<From>, resolved: seq<ResolvedBase>) {
    && (forall r :: Wanted(froms, r) ==> exists k :: 0 <= k < |resolved| && Frozen(resolved[k], r))
    && (forall k :: 0 <= k < |resolved| ==> Wanted(froms, Requirement(resolved[k].stage, resolved[k].requested)))
  }

  /** Some stage needs this image resolved under this name. */
  ghost predicate Wanted(froms: seq<From>, r: Requirement) {
    exists i :: 0 <= i < |froms| && Wants(froms, i, r)
  }

  ghost predicate SameAsRequired(required: seq<Requirement>, resolved: seq<ResolvedBase>) {
    && (forall r :: r in required ==> exists k :: 0 <= k < |resolved| && Frozen(resolved[k], r))
    && (forall k :: 0 <= k < |resolved| ==> Requirement(resolved[k].stage, resolved[k].requested) in required)
  }

  lemma ResolvesIffSame(froms: seq<From>, required: seq<Requirement>, resolved: seq<ResolvedBase>)
    requires RequirementsWalked(froms, |froms|, required)
    ensures ResolvesExactly(froms, resolved) <==> SameAsRequired(required, resolved)
  {
    hide Wants, Frozen;
    assert forall r :: r in required <==> Wanted(froms, r);
    hide Wanted, RequirementsWalked;
  }

  /** Comparing the sorted lists index by index decides whether they hold the same pairs. */
  lemma PairsIffSame(required: seq<Requirement>, resolved: seq<ResolvedBase>)
    requires DistinctBy(required, StageOf) && DistinctBy(resolved, StageOfBase)
    ensures SamePairs(Sort(required, StageOf), Sort(resolved, StageOfBase)) <==> SameAsRequired(required, resolved)
  {
    hide Sort, SamePairs, SameAsRequired, DistinctBy;
    if SamePairs(Sort(required, StageOf), Sort(resolved, StageOfBase)) { PairsAreSame(required, resolved); }
    if SameAsRequired(required, resolved) { SameArePairs(required, resolved); }
  }

  lemma PairsAreSame(required: seq<Requirement>, resolved: seq<ResolvedBase>)
    requires SamePairs(Sort(required, StageOf), Sort(resolved, StageOfBase))
    ensures SameAsRequired(required, resolved)
  {
    hide Sort;
    var bases := Sort(resolved, StageOfBase);
    forall r | r in required ensures exists k :: 0 <= k < |resolved| && Frozen(resolved[k], r) {
      var j := BaseOf(required, bases, r);
      assert bases[j] in multiset(bases);
      assert bases[j] in resolved;
    }
    forall k | 0 <= k < |resolved| ensures Requirement(resolved[k].stage, resolved[k].requested) in required {
      assert resolved[k] in multiset(resolved);
      assert resolved[k] in multiset(bases);
      var j :| 0 <= j < |bases| && bases[j] == resolved[k];
      var r := RequirementOf(required, bases, j);
    }
  }

  lemma SameStages(required: seq<Requirement>, resolved: seq<ResolvedBase>)
    requires SameAsRequired(required, resolved)
    ensures KeysOf(Sort(required, StageOf), StageOf) == KeysOf(Sort(resolved, StageOfBase), StageOfBase)
  {
    hide Sort;
    var sorted, bases := Sort(required, StageOf), Sort(resolved, StageOfBase);
    forall x ensures x in KeysOf(sorted, StageOf) <==> x in KeysOf(bases, StageOfBase) {
      if x in KeysOf(sorted, StageOf) {
        var i :| 0 <= i < |sorted| && sorted[i].stage == x;
        assert sorted[i] in multiset(sorted);
        assert sorted[i] in required;
        var k :| 0 <= k < |resolved| && Frozen(resolved[k], sorted[i]);
        assert resolved[k] in multiset(resolved);
        assert resolved[k] in bases;
        var j :| 0 <= j < |bases| && bases[j] == resolved[k];
        assert StageOfBase(bases[j]) == x;
      }
      if x in KeysOf(bases, StageOfBase) {
        var j :| 0 <= j < |bases| && bases[j].stage == x;
        var r := Requirement(bases[j].stage, bases[j].requested);
        BaseIsRequired(required, resolved, bases[j]);
        assert r in multiset(required);
        assert r in sorted;
        var i :| 0 <= i < |sorted| && sorted[i] == r;
        assert StageOf(sorted[i]) == x;
      }
    }
  }

  lemma BaseIsRequired(required: seq<Requirement>, resolved: seq<ResolvedBase>, b: ResolvedBase)
    requires SameAsRequired(required, resolved) && b in Sort(resolved, StageOfBase)
    ensures Requirement(b.stage, b.requested) in required
  {
    hide Sort;
    assert b in multiset(Sort(resolved, StageOfBase));
    assert b in resolved;
    var k :| 0 <= k < |resolved| && resolved[k] == b;
  }

  lemma SameArePairs(required: seq<Requirement>, resolved: seq<ResolvedBase>)
    requires SameAsRequired(required, resolved)
    requires DistinctBy(required, StageOf) && DistinctBy(resolved, StageOfBase)
    ensures SamePairs(Sort(required, StageOf), Sort(resolved, StageOfBase))
  {
    hide Sort, SortedBy, KeysOf, NeighboursEqual, SameAsRequired, DistinctBy, StrictlySortedBy;
    var sorted, bases := Sort(required, StageOf), Sort(resolved, StageOfBase);
    SameStages(required, resolved);
    SortSorts(required, StageOf);
    SortSorts(resolved, StageOfBase);
    NeighboursTellDuplicates(required, StageOf);
    NeighboursTellDuplicates(resolved, StageOfBase);
    NeighboursSuffice(sorted, StageOf);
    NeighboursSuffice(bases, StageOfBase);
    StrictlySortedIsUnique(sorted, StageOf, bases, StageOfBase);
    forall i | 0 <= i < |bases| ensures sorted[i].stage == bases[i].stage && sorted[i].requested == bases[i].requested {
      assert StageOf(sorted[i]) == StageOfBase(bases[i]);
      var r := Requirement(bases[i].stage, bases[i].requested);
      BaseIsRequired(required, resolved, bases[i]);
      assert r in multiset(required);
      assert r in multiset(sorted) && sorted[i] in multiset(sorted);
      SameKeySameElement(sorted, StageOf, r, sorted[i]);
    }
  }

  ghost predicate BasesFine(policy: Policy, resolved: seq<ResolvedBase>) {
    forall k :: 0 <= k < |resolved| ==> ValidBase(policy, resolved[k]) && RegistryAllowed(policy, resolved[k].requested)
  }

  lemma SortedBasesFine(policy: Policy, resolved: seq<ResolvedBase>)
    ensures BasesFine(policy, Sort(resolved, StageOfBase)) <==> BasesFine(policy, resolved)
  {
    hide Sort, ValidBase, RegistryAllowed;
    var bases := Sort(resolved, StageOfBase);
    forall b ensures b in bases <==> b in resolved { assert b in multiset(bases) <==> b in multiset(resolved); }
    forall k | 0 <= k < |resolved| ensures resolved[k] in bases { assert resolved[k] in resolved; }
    forall k | 0 <= k < |bases| ensures bases[k] in resolved { assert bases[k] in bases; }
  }

  /**
    Freezing succeeds exactly when there is a FROM, each is well formed, pinned unless it names
    scratch or an earlier stage, and introduces only new names; and the resolved bases are valid,
    from allowed registries, one per stage, and in any order just the external images.
  */
  lemma FreezeIff(policy: Policy, froms: seq<From>, resolved: seq<ResolvedBase>)
    ensures Freeze(policy, froms, resolved).Ok? <==>
              && |froms| > 0 && (forall i :: 0 <= i < |froms| ==> StageFine(policy, froms, i))
              && BasesFine(policy, resolved) && DistinctBy(resolved, StageOfBase)
              && ResolvesExactly(froms, resolved)
    ensures Freeze(policy, froms, resolved).Ok? ==>
              var bases := Freeze(policy, froms, resolved).value;
              multiset(bases) == multiset(resolved) && StrictlySortedBy(bases, StageOfBase)
  {
    hide StageFine, Sort, NeighboursEqual, DistinctBy, SamePairs, ValidBase, RegistryAllowed, ResolvesExactly,
      SameAsRequired, WalkPrefix, StrictlySortedBy, Walked, RequirementsWalked, NamesWalked;
    WalkIff(policy, froms, |froms|);
    SortedBasesFine(policy, resolved);
    NeighboursTellDuplicates(resolved, StageOfBase);
    if !NeighboursEqual(Sort(resolved, StageOfBase), StageOfBase) { BasesSorted(resolved); }
    if Inspected(policy, froms).Ok? && DistinctBy(resolved, StageOfBase) {
      RequiredFits(policy, froms);
      ResolvesIffSame(froms, Inspected(policy, froms).value, resolved);
      PairsIffSame(Inspected(policy, froms).value, resolved);
    }
  }

  lemma RequiredFits(policy: Policy, froms: seq<From>)
    requires Inspected(policy, froms).Ok?
    ensures var required := Inspected(policy, froms).value;
            RequirementsWalked(froms, |froms|, required) && DistinctBy(required, StageOf)
  {
    hide WalkPrefix, RequirementsWalked, NamesWalked, DistinctBy;
    PrefixWalked(policy, froms, |froms|);
    RequiredOnce(policy, froms, |froms|);
  }
}
