/**
  Inspecting and extracting a crate archive.  The first pass turns the entries, in whatever
  order they come, into an inventory of directories and files; the second pass over the same
  bytes extracts exactly that inventory.

  A path is its list of components, already decoded and stripped of the crate's own root.
  Each entry records where in the decompressed stream it ends, so that the bound on the stream
  can strike at any entry.
*/
module CrateArchive {
  import opened Domain
  import opened SortedLists

  type Path = seq<string>

  datatype Decoded = Malformed | CrateRoot | Relative(path: Path)

  datatype EntryKind = DirectoryEntry | FileEntry | OtherEntry

  /** `delivered` is how many content bytes the stream yields for the entry, `end` the stream offset behind it. */
  datatype Entry = Entry(kind: EntryKind, name: Decoded, size: nat, executable: bool, delivered: nat, end: nat)

  datatype Archive = Archive(entries: seq<Entry>, total: nat)

  datatype FileInfo = FileInfo(bytes: nat, executable: bool)

  datatype Inventory = Inventory(directories: set<Path>, files: map<Path, FileInfo>, bytes: nat)

  datatype ArchiveError =
    | InvalidCratePath | InvalidCrateArchive | UnsupportedCrateEntry | PayloadTooLarge | StreamTooLong | ArchiveChanged

  const CHECKSUM_FILE: string := ".cargo-checksum.json"
  const MAX_PATH: nat := 4_096
  const MAX_ENTRIES: nat := 100_000
  const MAX_U64: nat := 0xFFFF_FFFF_FFFF_FFFF
  const PER_INODE: nat := 6_144
  const FIXED_OVERHEAD: nat := 65_536

  const EMPTY := Inventory({}, map[], 0)

  /** How long the decompressed stream may be for a payload of this size. */
  function TarBound(bytes: nat, inodes: nat): (r: Option<nat>) {
    var bound := inodes * PER_INODE + FIXED_OVERHEAD + bytes;
    if bound > MAX_U64 then None else Some(bound)
  }

  // ---------------------------------------------------------------- parents

  /** q is a directory strictly above p, below the crate root. */
  predicate Above(q: Path, p: Path) {
    0 < |q| < |p| && p[..|q|] == q
  }

  ghost predicate ParentsIn(p: Path, dirs: set<Path>) {
    forall i :: 0 < i < |p| ==> p[..i] in dirs
  }

  /** No directory without those above it. */
  ghost predicate Rooted(dirs: set<Path>) {
    forall p :: p in dirs ==> ParentsIn(p, dirs)
  }

  function Parents(p: Path): (r: set<Path>)
    ensures forall q :: q in r <==> Above(q, p)
  {
    set i | 0 < i < |p| :: p[..i]
  }

  /** Walk up from the parent, adding every directory, and refuse to pass through a file. */
  method InsertParents(p: Path, dirs: set<Path>, files: map<Path, FileInfo>) returns (r: Option<set<Path>>)
    ensures r == AddParents(p, dirs, files)
    ensures r.Some? ==> ParentsIn(p, r.value) && dirs <= r.value
  {
    var all := dirs;
    var i := if p == [] then 0 else |p| - 1;
    while i > 0
      invariant 0 <= i <= |p| && (p != [] ==> i < |p|)
      invariant all == dirs + (set x | i < x < |p| :: p[..x])
      invariant forall x :: i < x < |p| ==> p[..x] !in files
    {
      if p[..i] in files {
        assert Above(p[..i], p);
        return None;
      }
      all := all + {p[..i]};
      i := i - 1;
    }
    forall q | Above(q, p) ensures q !in files { assert p[..|q|] == q; }
    assert all == dirs + Parents(p);
    return Some(all);
  }

  function AddParents(p: Path, dirs: set<Path>, files: map<Path, FileInfo>): Option<set<Path>> {
    if exists q :: q in files && Above(q, p) then None else Some(dirs + Parents(p))
  }

  // ---------------------------------------------------------------- the first pass

  function Add(inv: Inventory, e: Entry): (r: Result<Inventory, ArchiveError>) {
    match e.name
    case Malformed => Err(InvalidCratePath)
    case CrateRoot => if e.kind != DirectoryEntry || e.size != 0 then Err(InvalidCrateArchive) else Ok(inv)
    case Relative(p) =>
      if |p| == 0 || |p| > MAX_PATH then Err(InvalidCratePath)
      else if p == [CHECKSUM_FILE] then Err(InvalidCrateArchive)
      else
        match e.kind
        case OtherEntry => Err(UnsupportedCrateEntry)
        case DirectoryEntry =>
          if e.size != 0 || p in inv.files || p in inv.directories then Err(InvalidCrateArchive)
          else
            (match AddParents(p, inv.directories + {p}, inv.files)
             case None => Err(InvalidCrateArchive)
             case Some(dirs) => Ok(inv.(directories := dirs)))
        case FileEntry =>
          if inv.bytes + e.size > MAX_U64 then Err(PayloadTooLarge)
          else if p in inv.directories || p in inv.files then Err(InvalidCrateArchive)
          else
            (var files := inv.files[p := FileInfo(e.size, e.executable)];
             match AddParents(p, inv.directories, files)
             case None => Err(InvalidCrateArchive)
             case Some(dirs) =>
               if e.delivered != e.size then Err(InvalidCrateArchive)
               else Ok(Inventory(dirs, files, inv.bytes + e.size)))
  }

  predicate Fits(inv: Inventory, maxBytes: nat, maxInodes: nat) {
    && inv.bytes <= maxBytes
    && |inv.directories| + |inv.files| + 2 <= maxInodes
    && |inv.directories| + |inv.files| <= MAX_ENTRIES
  }

  /** The loop over the entries from the i-th on. */
  function InspectFrom(inv: Inventory, a: Archive, i: nat, bound: nat, maxBytes: nat, maxInodes: nat)
    : (r: Result<Inventory, ArchiveError>)
    requires i <= |a.entries|
    decreases |a.entries| - i
  {
    if i == |a.entries| then Ok(inv)
    else if a.entries[i].end > bound then Err(StreamTooLong)
    else
      match Add(inv, a.entries[i])
      case Err(e) => Err(e)
      case Ok(next) =>
        if a.entries[i].name.Relative? && !Fits(next, maxBytes, maxInodes) then Err(PayloadTooLarge)
        else InspectFrom(next, a, i + 1, bound, maxBytes, maxInodes)
  }

  /** No file is above another file. */
  predicate NoFileAboveFile(files: map<Path, FileInfo>) {
    forall p, q :: p in files && q in files ==> !Above(q, p)
  }

  function Inspect(a: Archive, maxBytes: nat, maxInodes: nat): (r: Result<Inventory, ArchiveError>)
    ensures r.Ok? ==> maxBytes > 0 && maxInodes >= 2 && TarBound(maxBytes, maxInodes).Some?
  {
    if maxBytes == 0 || maxInodes < 2 || TarBound(maxBytes, maxInodes).None? then Err(PayloadTooLarge)
    else
      var bound := TarBound(maxBytes, maxInodes).value;
      match InspectFrom(EMPTY, a, 0, bound, maxBytes, maxInodes)
      case Err(e) => Err(e)
      case Ok(inv) =>
        if a.total > bound then Err(StreamTooLong)
        else if inv.files == map[] || !NoFileAboveFile(inv.files) then Err(InvalidCrateArchive)
        else Ok(inv)
  }

  /** The first pass as it runs. */
  method InspectArchive(a: Archive, maxBytes: nat, maxInodes: nat) returns (r: Result<Inventory, ArchiveError>)
    ensures r == Inspect(a, maxBytes, maxInodes)
    ensures r.Ok? ==> WellFormedTree(r.value) && Fits(r.value, maxBytes, maxInodes)
  {
    InspectedIsTree(a, maxBytes, maxInodes);
    hide Add, WellFormedTree, Fits, NoFileAboveFile;
    if maxBytes == 0 || maxInodes < 2 { return Err(PayloadTooLarge); }
    var bound := TarBound(maxBytes, maxInodes);
    if bound.None? { return Err(PayloadTooLarge); }
    var inv := EMPTY;
    for i := 0 to |a.entries|
      invariant InspectFrom(EMPTY, a, 0, bound.value, maxBytes, maxInodes) ==
                InspectFrom(inv, a, i, bound.value, maxBytes, maxInodes)
    {
      var e := a.entries[i];
      if e.end > bound.value { return Err(StreamTooLong); }
      var next := Add(inv, e);
      if next.Err? { return Err(next.error); }
      inv := next.value;
      if e.name.Relative? && !Fits(inv, maxBytes, maxInodes) { return Err(PayloadTooLarge); }
    }
    if a.total > bound.value { return Err(StreamTooLong); }
    if inv.files == map[] || !NoFileAboveFile(inv.files) { return Err(InvalidCrateArchive); }
    return Ok(inv);
  }

  // ---------------------------------------------------------------- the inventory is a tree

  /** Every ancestor of an entry is listed as a directory, and nothing is both a directory and a file. */
  ghost predicate WellFormedTree(inv: Inventory) {
    && (forall p :: p in inv.directories ==> p != [] && |p| <= MAX_PATH && ParentsIn(p, inv.directories))
    && (forall p :: p in inv.files ==> p != [] && |p| <= MAX_PATH && ParentsIn(p, inv.directories))
    && (forall p :: p in inv.files ==> p !in inv.directories)
  }

  lemma AncestorsOfAncestors(q: Path, p: Path, i: nat)
    requires Above(q, p) && 0 < i < |q|
    ensures q[..i] == p[..i] && Above(q[..i], p)
  {
  }

  lemma AddKeepsTree(inv: Inventory, e: Entry)
    requires WellFormedTree(inv) && Add(inv, e).Ok?
    ensures WellFormedTree(Add(inv, e).value)
  {
    var next := Add(inv, e).value;
    if e.name.Relative? {
      var p := e.name.path;
      forall d | d in next.directories ensures d != [] && |d| <= MAX_PATH && ParentsIn(d, next.directories) {
        if Above(d, p) {
          forall i | 0 < i < |d| ensures d[..i] in next.directories { AncestorsOfAncestors(d, p, i); }
        } else if d == p {
          forall i | 0 < i < |d| ensures d[..i] in next.directories { assert Above(d[..i], p); }
        }
      }
      forall f | f in next.files
        ensures f != [] && |f| <= MAX_PATH && ParentsIn(f, next.directories) && f !in next.directories
      {
        if f == p {
          forall i | 0 < i < |f| ensures f[..i] in next.directories { assert Above(f[..i], p); }
        }
      }
    }
  }

  lemma {:induction false} InspectKeepsTree(inv: Inventory, a: Archive, i: nat, bound: nat, maxBytes: nat,
                                            maxInodes: nat)
    requires i <= |a.entries| && WellFormedTree(inv) && InspectFrom(inv, a, i, bound, maxBytes, maxInodes).Ok?
    ensures WellFormedTree(InspectFrom(inv, a, i, bound, maxBytes, maxInodes).value)
    decreases |a.entries| - i
  {
    hide Add, WellFormedTree, Fits;
    if i < |a.entries| {
      AddKeepsTree(inv, a.entries[i]);
      InspectKeepsTree(Add(inv, a.entries[i]).value, a, i + 1, bound, maxBytes, maxInodes);
    }
  }

  /** For any entry order, an accepted inventory is a well-formed tree; the final check never fails. */
  lemma InspectedIsTree(a: Archive, maxBytes: nat, maxInodes: nat)
    ensures Inspect(a, maxBytes, maxInodes).Ok? ==>
              && WellFormedTree(Inspect(a, maxBytes, maxInodes).value)
              && Fits(Inspect(a, maxBytes, maxInodes).value, maxBytes, maxInodes)
    ensures forall inv :: WellFormedTree(inv) ==> NoFileAboveFile(inv.files)
  {
    hide Add;
    forall inv | WellFormedTree(inv) ensures NoFileAboveFile(inv.files) { TreeHasNoFileAboveFile(inv); }
    if Inspect(a, maxBytes, maxInodes).Ok? {
      var bound := TarBound(maxBytes, maxInodes).value;
      InspectKeepsTree(EMPTY, a, 0, bound, maxBytes, maxInodes);
      InspectKeepsFit(EMPTY, a, 0, bound, maxBytes, maxInodes);
    }
  }

  lemma TreeHasNoFileAboveFile(inv: Inventory)
    requires WellFormedTree(inv)
    ensures NoFileAboveFile(inv.files)
  {
    forall p, q | p in inv.files && Above(q, p) ensures q in inv.directories { assert p[..|q|] == q; }
  }

  lemma {:induction false} InspectKeepsFit(inv: Inventory, a: Archive, i: nat, bound: nat, maxBytes: nat,
                                           maxInodes: nat)
    requires i <= |a.entries| && InspectFrom(inv, a, i, bound, maxBytes, maxInodes).Ok?
    requires inv == EMPTY || Fits(inv, maxBytes, maxInodes)
    ensures var r := InspectFrom(inv, a, i, bound, maxBytes, maxInodes).value;
            r == EMPTY || Fits(r, maxBytes, maxInodes)
    decreases |a.entries| - i
  {
    if i < |a.entries| {
      RootChangesNothing(inv, a.entries[i]);
      hide Add;
      InspectKeepsFit(Add(inv, a.entries[i]).value, a, i + 1, bound, maxBytes, maxInodes);
    }
  }

  lemma RootChangesNothing(inv: Inventory, e: Entry)
    ensures Add(inv, e).Ok? && !e.name.Relative? ==> Add(inv, e).value == inv
  {
  }

  // ---------------------------------------------------------------- exactly which archives are accepted

  /** An entry that is acceptable on its own. */
  predicate EntryFine(e: Entry) {
    match e.name
    case Malformed => false
    case CrateRoot => e.kind == DirectoryEntry && e.size == 0
    case Relative(p) =>
      && 0 < |p| <= MAX_PATH && p != [CHECKSUM_FILE] && e.kind != OtherEntry
      && (if e.kind == DirectoryEntry then e.size == 0 else e.delivered == e.size)
  }

  /** Two entries in stream order: never the same path, never an ancestor after its descendant, never a file above. */
  predicate PairFine(earlier: Entry, later: Entry) {
    earlier.name.Relative? && later.name.Relative? ==>
      && earlier.name.path != later.name.path
      && !Above(later.name.path, earlier.name.path)
      && (earlier.kind == FileEntry ==> !Above(earlier.name.path, later.name.path))
  }

  predicate Tidy(es: seq<Entry>, n: nat)
    requires n <= |es|
  {
    && (forall i :: 0 <= i < n ==> EntryFine(es[i]))
    && (forall i, j :: 0 <= i < j < n ==> PairFine(es[i], es[j]))
  }

  function FileBytes(es: seq<Entry>, n: nat): nat
    requires n <= |es|
  {
    if n == 0 then 0
    else FileBytes(es, n - 1) + if es[n - 1].name.Relative? && es[n - 1].kind == FileEntry then es[n - 1].size else 0
  }

  /** The inventory of the first n entries, bounds aside. */
  ghost function Collected(es: seq<Entry>, n: nat): Result<Inventory, ArchiveError>
    requires n <= |es|
  {
    if n == 0 then Ok(EMPTY)
    else if Collected(es, n - 1).Err? then Collected(es, n - 1)
    else Add(Collected(es, n - 1).value, es[n - 1])
  }

  /** A path is a listed directory when some entry is that directory or lies below it. */
  ghost predicate Listed(es: seq<Entry>, n: nat, p: Path)
    requires n <= |es|
  {
    exists i :: 0 <= i < n && es[i].name.Relative?
                && (Above(p, es[i].name.path) || (es[i].kind == DirectoryEntry && es[i].name.path == p))
  }

  ghost predicate Filed(es: seq<Entry>, n: nat, p: Path)
    requires n <= |es|
  {
    exists i :: 0 <= i < n && es[i].name == Relative(p) && es[i].kind == FileEntry
  }

  ghost predicate Describes(es: seq<Entry>, n: nat, inv: Inventory)
    requires n <= |es|
  {
    && (forall p :: p in inv.directories <==> Listed(es, n, p))
    && (forall p :: p in inv.files <==> Filed(es, n, p))
    && inv.bytes == FileBytes(es, n)
  }

  lemma AddDescribes(es: seq<Entry>, n: nat, inv: Inventory)
    requires n < |es| && Describes(es, n, inv) && Add(inv, es[n]).Ok?
    ensures Describes(es, n + 1, Add(inv, es[n]).value)
  {
    var next, e := Add(inv, es[n]).value, es[n];
    forall p ensures p in next.directories <==> Listed(es, n + 1, p) {
      if Listed(es, n, p) {
        var i :| 0 <= i < n && es[i].name.Relative?
                 && (Above(p, es[i].name.path) || (es[i].kind == DirectoryEntry && es[i].name.path == p));
        assert Listed(es, n + 1, p);
      }
    }
    forall p ensures p in next.files <==> Filed(es, n + 1, p) {
      if Filed(es, n, p) {
        var i :| 0 <= i < n && es[i].name == Relative(p) && es[i].kind == FileEntry;
        assert Filed(es, n + 1, p);
      }
    }
  }

  /** Adding the next entry succeeds exactly when it is fine alone and with every earlier one. */
  lemma AddIff(es: seq<Entry>, n: nat, inv: Inventory)
    requires n < |es| && Describes(es, n, inv) && FileBytes(es, n) <= MAX_U64
    requires forall i :: 0 <= i < n ==> EntryFine(es[i])
    ensures Add(inv, es[n]).Ok? <==>
              EntryFine(es[n]) && (forall i :: 0 <= i < n ==> PairFine(es[i], es[n])) && FileBytes(es, n + 1) <= MAX_U64
  {
    var e := es[n];
    if e.name.Relative? && EntryFine(e) {
      var p := e.name.path;
      assert p in inv.directories <==> Listed(es, n, p);
      assert p in inv.files <==> Filed(es, n, p);
      if Add(inv, e).Ok? {
        forall i | 0 <= i < n ensures PairFine(es[i], e) {
          if es[i].name.Relative? && es[i].kind == FileEntry && Above(es[i].name.path, p) {
            assert Filed(es, n, es[i].name.path);
          }
        }
      }
      if forall i :: 0 <= i < n ==> PairFine(es[i], e) {
        forall q | q in inv.files ensures !Above(q, p) {
          assert Filed(es, n, q);
        }
      }
    }
  }

  lemma {:induction false} CollectedIff(es: seq<Entry>, n: nat)
    requires n <= |es|
    ensures Collected(es, n).Ok? <==> Tidy(es, n) && FileBytes(es, n) <= MAX_U64
    ensures Collected(es, n).Ok? ==> Describes(es, n, Collected(es, n).value)
  {
    hide Add, EntryFine, PairFine, Describes;
    if n == 0 {
      NothingDescribed(es);
    } else {
      CollectedIff(es, n - 1);
      if Collected(es, n - 1).Ok? {
        var inv := Collected(es, n - 1).value;
        AddIff(es, n - 1, inv);
        if Add(inv, es[n - 1]).Ok? { AddDescribes(es, n - 1, inv); }
      }
    }
  }

  lemma NothingDescribed(es: seq<Entry>)
    ensures Describes(es, 0, EMPTY)
  {
  }

  ghost predicate Grows(a: Inventory, b: Inventory) {
    a.directories <= b.directories && a.files.Keys <= b.files.Keys && a.bytes <= b.bytes
  }

  lemma AddGrows(inv: Inventory, e: Entry)
    requires Add(inv, e).Ok?
    ensures Grows(inv, Add(inv, e).value)
  {
  }

  lemma {:induction false} CollectedGrows(es: seq<Entry>, i: nat, n: nat)
    requires i <= n <= |es| && Collected(es, n).Ok?
    ensures Collected(es, i).Ok? && Grows(Collected(es, i).value, Collected(es, n).value)
    decreases n
  {
    hide Add;
    if i < n {
      CollectedGrows(es, i, n - 1);
      AddGrows(Collected(es, n - 1).value, es[n - 1]);
    }
  }

  lemma {:induction false} SubsetIsSmaller<T>(a: set<T>, b: set<T>)
    requires a <= b
    ensures |a| <= |b|
  {
    if a != {} {
      var x :| x in a;
      SubsetIsSmaller(a - {x}, b - {x});
    }
  }

  lemma FitsShrinks(a: Inventory, b: Inventory, maxBytes: nat, maxInodes: nat)
    requires Grows(a, b) && Fits(b, maxBytes, maxInodes)
    ensures Fits(a, maxBytes, maxInodes)
  {
    SubsetIsSmaller(a.directories, b.directories);
    SubsetIsSmaller(a.files.Keys, b.files.Keys);
    assert |a.files.Keys| == |a.files| && |b.files.Keys| == |b.files|;
  }

  /** The loop, once past the first i entries, depends on the rest of the bounds only. */
  lemma {:induction false} InspectFromIff(a: Archive, i: nat, bound: nat, maxBytes: nat, maxInodes: nat)
    requires i <= |a.entries| && Collected(a.entries, i).Ok?
    ensures var n := |a.entries|;
            var r := InspectFrom(Collected(a.entries, i).value, a, i, bound, maxBytes, maxInodes);
            && (r.Ok? <==>
                  Collected(a.entries, n).Ok? && forall j :: i <= j < n ==> RoomAt(a, j, bound, maxBytes, maxInodes))
            && (r.Ok? ==> r == Collected(a.entries, n))
    decreases |a.entries| - i
  {
    hide Add, Fits;
    if i < |a.entries| {
      if Collected(a.entries, |a.entries|).Ok? { CollectedGrows(a.entries, i + 1, |a.entries|); }
      var room := RoomAt(a, i, bound, maxBytes, maxInodes);
      if Collected(a.entries, i + 1).Ok? {
        InspectFromIff(a, i + 1, bound, maxBytes, maxInodes);
        assert (forall j :: i <= j < |a.entries| ==> RoomAt(a, j, bound, maxBytes, maxInodes))
          <==> room && forall j :: i + 1 <= j < |a.entries| ==> RoomAt(a, j, bound, maxBytes, maxInodes);
      }
    }
  }

  /** The j-th entry ends inside the stream bound and the inventory up to it is within the payload bounds. */
  ghost predicate RoomAt(a: Archive, j: nat, bound: nat, maxBytes: nat, maxInodes: nat)
    requires j < |a.entries|
  {
    && a.entries[j].end <= bound
    && (a.entries[j].name.Relative? ==>
          Collected(a.entries, j + 1).Ok? && Fits(Collected(a.entries, j + 1).value, maxBytes, maxInodes))
  }

  /** The whole of what the bounds ask for. */
  ghost predicate WithinBounds(a: Archive, inv: Inventory, bound: nat, maxBytes: nat, maxInodes: nat) {
    && Fits(inv, maxBytes, maxInodes)
    && a.total <= bound
    && forall j :: 0 <= j < |a.entries| ==> a.entries[j].end <= bound
  }

  /** The bounds of a payload that can be inspected at all. */
  ghost predicate Inspectable(maxBytes: nat, maxInodes: nat) {
    maxBytes > 0 && maxInodes >= 2 && TarBound(maxBytes, maxInodes).Some?
  }

  /** Some inventory describes the entries and, with the stream, stays within the bounds. */
  ghost predicate DescribedWithinBounds(a: Archive, maxBytes: nat, maxInodes: nat)
    requires Inspectable(maxBytes, maxInodes)
  {
    exists inv :: Describes(a.entries, |a.entries|, inv)
                  && WithinBounds(a, inv, TarBound(maxBytes, maxInodes).value, maxBytes, maxInodes)
  }

  /**
    An archive is accepted exactly when its entries are fine alone and pairwise in stream order,
    some entry is a file, and the directories and files they describe stay, with the stream,
    within the bounds.  In particular a directory entry that comes after an entry below it is
    refused.  The inventory of an accepted archive describes its entries.
  */
  lemma AcceptedIff(a: Archive, maxBytes: nat, maxInodes: nat)
    ensures var n := |a.entries|;
            && (Inspect(a, maxBytes, maxInodes).Ok? <==>
                  && Inspectable(maxBytes, maxInodes)
                  && Tidy(a.entries, n) && FileBytes(a.entries, n) <= MAX_U64
                  && (exists i :: 0 <= i < n && a.entries[i].name.Relative? && a.entries[i].kind == FileEntry)
                  && DescribedWithinBounds(a, maxBytes, maxInodes))
            && (Inspect(a, maxBytes, maxInodes).Ok? ==>
                  && Inspect(a, maxBytes, maxInodes) == Collected(a.entries, n)
                  && Describes(a.entries, n, Inspect(a, maxBytes, maxInodes).value)
                  && forall i :: 0 <= i < n ==> Accounted(Inspect(a, maxBytes, maxInodes).value, a.entries[i]))
  {
    hide Describes, Accounted, Tidy, WithinBounds, Add, Collected, InspectFrom, NoFileAboveFile;
    if Inspectable(maxBytes, maxInodes) {
      var n, bound := |a.entries|, TarBound(maxBytes, maxInodes).value;
      CollectedIff(a.entries, n);
      AcceptedWithin(a, maxBytes, maxInodes);
      if Collected(a.entries, n).Ok? {
        var inv := Collected(a.entries, n).value;
        forall other | Describes(a.entries, n, other)
          ensures WithinBounds(a, other, bound, maxBytes, maxInodes) <==>
                    WithinBounds(a, inv, bound, maxBytes, maxInodes)
        {
          DescribedAlike(a, inv, other, bound, maxBytes, maxInodes);
        }
        forall i | 0 <= i < n ensures Accounted(inv, a.entries[i]) { AllAccounted(a.entries, n, i); }
      }
    }
  }

  /** Whatever describes the same entries takes the same room. */
  lemma DescribedAlike(a: Archive, inv: Inventory, other: Inventory, bound: nat, maxBytes: nat, maxInodes: nat)
    requires Describes(a.entries, |a.entries|, inv) && Describes(a.entries, |a.entries|, other)
    ensures WithinBounds(a, other, bound, maxBytes, maxInodes) <==> WithinBounds(a, inv, bound, maxBytes, maxInodes)
  {
    assert inv.directories == other.directories;
    assert inv.files.Keys == other.files.Keys;
    assert |inv.files.Keys| == |inv.files| && |other.files.Keys| == |other.files|;
  }

  lemma AcceptedWithin(a: Archive, maxBytes: nat, maxInodes: nat)
    requires Inspectable(maxBytes, maxInodes)
    ensures var n := |a.entries|;
            && (Inspect(a, maxBytes, maxInodes).Ok? <==>
                  && Collected(a.entries, n).Ok?
                  && (exists i :: 0 <= i < n && a.entries[i].name.Relative? && a.entries[i].kind == FileEntry)
                  && WithinBounds(a, Collected(a.entries, n).value, TarBound(maxBytes, maxInodes).value, maxBytes,
                                  maxInodes))
            && (Inspect(a, maxBytes, maxInodes).Ok? ==> Inspect(a, maxBytes, maxInodes) == Collected(a.entries, n))
  {
    var n, bound := |a.entries|, TarBound(maxBytes, maxInodes).value;
    CollectedIff(a.entries, n);
    InspectFromIff(a, 0, bound, maxBytes, maxInodes);
    InspectedIsTree(a, maxBytes, maxInodes);
    if Collected(a.entries, n).Ok? {
      var inv := Collected(a.entries, n).value;
      CollectedIsTree(a.entries, n);
      FilesIff(a.entries, inv);
      RoomIff(a, inv, bound, maxBytes, maxInodes);
    }
    hide Add, Tidy, Fits, Describes, WellFormedTree, NoFileAboveFile, RoomAt, Collected, TarBound, InspectFrom;
  }

  lemma {:induction false} CollectedIsTree(es: seq<Entry>, n: nat)
    requires n <= |es| && Collected(es, n).Ok?
    ensures WellFormedTree(Collected(es, n).value)
  {
    hide Add;
    if n > 0 {
      CollectedIsTree(es, n - 1);
      AddKeepsTree(Collected(es, n - 1).value, es[n - 1]);
    }
  }

  lemma FilesIff(es: seq<Entry>, inv: Inventory)
    requires Describes(es, |es|, inv)
    ensures inv.files != map[] <==> exists i :: 0 <= i < |es| && es[i].name.Relative? && es[i].kind == FileEntry
  {
    if inv.files != map[] {
      var p :| p in inv.files;
      assert Filed(es, |es|, p);
    }
    if exists i :: 0 <= i < |es| && es[i].name.Relative? && es[i].kind == FileEntry {
      var i :| 0 <= i < |es| && es[i].name.Relative? && es[i].kind == FileEntry;
      assert Filed(es, |es|, es[i].name.path);
    }
  }

  lemma RoomIff(a: Archive, inv: Inventory, bound: nat, maxBytes: nat, maxInodes: nat)
    requires Collected(a.entries, |a.entries|) == Ok(inv)
    ensures inv.files != map[] ==>
              ((forall j :: 0 <= j < |a.entries| ==> RoomAt(a, j, bound, maxBytes, maxInodes)) <==>
               Fits(inv, maxBytes, maxInodes) && forall j :: 0 <= j < |a.entries| ==> a.entries[j].end <= bound)
  {
    hide Add, Fits;
    var n := |a.entries|;
    if inv.files != map[] {
      if forall j :: 0 <= j < n ==> RoomAt(a, j, bound, maxBytes, maxInodes) {
        LastRelative(a.entries, n, inv);
        var k :| 0 <= k < n && a.entries[k].name.Relative? && Collected(a.entries, k + 1) == Ok(inv);
        assert RoomAt(a, k, bound, maxBytes, maxInodes);
        forall j | 0 <= j < n ensures a.entries[j].end <= bound { assert RoomAt(a, j, bound, maxBytes, maxInodes); }
      }
      if Fits(inv, maxBytes, maxInodes) && forall j :: 0 <= j < n ==> a.entries[j].end <= bound {
        forall j | 0 <= j < n ensures RoomAt(a, j, bound, maxBytes, maxInodes) {
          CollectedGrows(a.entries, j + 1, n);
          FitsShrinks(Collected(a.entries, j + 1).value, inv, maxBytes, maxInodes);
        }
      }
    }
  }

  lemma {:induction false} LastRelative(es: seq<Entry>, n: nat, inv: Inventory)
    requires n <= |es| && Collected(es, n) == Ok(inv) && inv != EMPTY
    ensures exists k :: 0 <= k < n && es[k].name.Relative? && Collected(es, k + 1) == Ok(inv)
  {
    hide Add;
    if n > 0 {
      RootChangesNothing(Collected(es, n - 1).value, es[n - 1]);
      if es[n - 1].name.Relative? {
        assert Collected(es, (n - 1) + 1) == Ok(inv);
      } else {
        LastRelative(es, n - 1, inv);
      }
    }
  }

  /** A name reserved for the checksum file can still become a directory, exactly when an entry lies below it. */
  lemma ChecksumDirectoryIff(a: Archive, maxBytes: nat, maxInodes: nat)
    requires Inspect(a, maxBytes, maxInodes).Ok?
    ensures var inv := Inspect(a, maxBytes, maxInodes).value;
            && [CHECKSUM_FILE] !in inv.files
            && ([CHECKSUM_FILE] in inv.directories <==>
                  exists i :: 0 <= i < |a.entries| && a.entries[i].name.Relative?
                              && Above([CHECKSUM_FILE], a.entries[i].name.path))
  {
    AcceptedIff(a, maxBytes, maxInodes);
    CollectedIff(a.entries, |a.entries|);
    hide Inspect, Collected;
    var inv := Inspect(a, maxBytes, maxInodes).value;
    assert [CHECKSUM_FILE] in inv.directories <==> Listed(a.entries, |a.entries|, [CHECKSUM_FILE]);
    assert [CHECKSUM_FILE] in inv.files <==> Filed(a.entries, |a.entries|, [CHECKSUM_FILE]);
  }

  // ---------------------------------------------------------------- directories, parents first

  function DepthMark(n: nat): char {
    if n <= MAX_PATH then n as char else MAX_PATH as char
  }

  function Joined(p: Path): string {
    if p == [] then "" else if |p| == 1 then p[0] else Joined(p[..|p| - 1]) + "/" + p[|p| - 1]
  }

  /** Fewer components first, then byte order. */
  function DepthKey(p: Path): string {
    [DepthMark(|p|)] + Joined(p)
  }

  method ListDirectories(dirs: set<Path>) returns (ds: seq<Path>)
    ensures |ds| == |dirs| && (forall p :: p in ds <==> p in dirs)
    ensures SortedBy(ds, DepthKey)
  {
    var rest := dirs;
    ds := [];
    while rest != {}
      invariant rest <= dirs && |ds| + |rest| == |dirs|
      invariant forall p :: p in ds <==> p in dirs && p !in rest
      decreases |rest|
    {
      var p :| p in rest;
      ds, rest := ds + [p], rest - {p};
    }
    ghost var unsorted := ds;
    ds := Sort(ds, DepthKey);
    SortSorts(unsorted, DepthKey);
    forall p ensures p in ds <==> p in unsorted { assert p in multiset(ds) <==> p in multiset(unsorted); }
  }

  lemma {:induction false} ElementsAtMost(ds: seq<Path>)
    ensures |set p | p in ds| <= |ds|
  {
    if ds != [] {
      var n := |ds| - 1;
      ElementsAtMost(ds[..n]);
      assert ds == ds[..n] + [ds[n]];
      assert (set p | p in ds) == (set p | p in ds[..n]) + {ds[n]};
    }
  }

  lemma RepeatShortens(ds: seq<Path>, i: nat, j: nat)
    requires i < j < |ds| && ds[i] == ds[j]
    ensures |set p | p in ds| < |ds|
  {
    var rest := ds[..j] + ds[j + 1..];
    ElementsAtMost(rest);
    assert ds == ds[..j] + [ds[j]] + ds[j + 1..];
    assert rest[i] == ds[j];
    assert (set p | p in rest) == (set p | p in ds);
  }

  /** A list as long as the set of its elements repeats none. */
  lemma ListedOnce(ds: seq<Path>, dirs: set<Path>, i: nat, j: nat)
    requires |ds| == |dirs| && (forall p :: p in ds <==> p in dirs) && i < j < |ds|
    ensures ds[i] != ds[j]
  {
    assert (set p | p in ds) == dirs;
    if ds[i] == ds[j] { RepeatShortens(ds, i, j); }
  }

  lemma ShallowerIsLess(q: Path, p: Path)
    requires |q| < |p| <= MAX_PATH
    ensures Less(DepthKey(q), DepthKey(p))
  {
    assert DepthKey(q)[0] < DepthKey(p)[0];
  }

  /** In the listing every directory comes after all of its ancestors, which are all listed. */
  lemma ParentsComeFirst(inv: Inventory, ds: seq<Path>, i: nat, q: Path)
    requires WellFormedTree(inv) && SortedBy(ds, DepthKey) && (forall p :: p in ds <==> p in inv.directories)
    requires i < |ds| && Above(q, ds[i])
    ensures exists j :: 0 <= j < i && ds[j] == q
  {
    assert ds[i] in inv.directories && ds[i][..|q|] == q;
    assert q in ds;
    var j :| 0 <= j < |ds| && ds[j] == q;
    ShallowerIsLess(q, ds[i]);
  }

  // ---------------------------------------------------------------- the second pass

  /** The loop of the extraction; `seen` are the files written so far. */
  function ExtractFrom(a: Archive, inv: Inventory, i: nat, seen: set<Path>, bound: nat)
    : (r: Result<set<Path>, ArchiveError>)
    requires i <= |a.entries|
    decreases |a.entries| - i
  {
    if i == |a.entries| then Ok(seen)
    else
      var e := a.entries[i];
      if e.end > bound then Err(StreamTooLong)
      else if e.name.Malformed? then Err(InvalidCratePath)
      else if e.name.CrateRoot? then ExtractFrom(a, inv, i + 1, seen, bound)
      else
        var p := e.name.path;
        if |p| == 0 || |p| > MAX_PATH then Err(InvalidCratePath)
        else if e.kind == DirectoryEntry then
          if p in inv.directories then ExtractFrom(a, inv, i + 1, seen, bound) else Err(ArchiveChanged)
        else if || p !in inv.files
                || e.kind != FileEntry
                || e.size != inv.files[p].bytes
                || e.executable != inv.files[p].executable
                || p in seen
                || e.delivered != inv.files[p].bytes then Err(ArchiveChanged)
        else ExtractFrom(a, inv, i + 1, seen + {p}, bound)
  }

  function Extract(a: Archive, inv: Inventory): (r: Result<set<Path>, ArchiveError>) {
    var bound := TarBound(inv.bytes, |inv.directories| + |inv.files| + 2);
    if bound.None? then Err(PayloadTooLarge)
    else
      match ExtractFrom(a, inv, 0, {}, bound.value)
      case Err(e) => Err(e)
      case Ok(seen) =>
        if a.total > bound.value then Err(StreamTooLong)
        else if |seen| != |inv.files| then Err(ArchiveChanged)
        else Ok(seen)
  }

  /** What the i-th entry contributed to the inventory it was collected into. */
  ghost predicate Accounted(inv: Inventory, e: Entry) {
    e.name.Relative? ==>
      if e.kind == DirectoryEntry then e.name.path in inv.directories
      else
        && e.kind == FileEntry && e.name.path in inv.files
        && inv.files[e.name.path] == FileInfo(e.size, e.executable) && e.delivered == e.size
  }

  lemma AddAccounts(inv: Inventory, e: Entry)
    requires Add(inv, e).Ok?
    ensures Accounted(Add(inv, e).value, e)
  {
  }

  lemma AddKeepsAccounts(inv: Inventory, e: Entry, d: Entry)
    requires Add(inv, e).Ok? && Accounted(inv, d)
    ensures Accounted(Add(inv, e).value, d)
  {
  }

  lemma {:induction false} AllAccounted(es: seq<Entry>, n: nat, i: nat)
    requires i < n <= |es| && Collected(es, n).Ok?
    ensures Accounted(Collected(es, n).value, es[i])
    decreases n
  {
    hide Add, Accounted;
    var inv := Collected(es, n - 1).value;
    if i == n - 1 {
      AddAccounts(inv, es[i]);
    } else {
      AllAccounted(es, n - 1, i);
      AddKeepsAccounts(inv, es[n - 1], es[i]);
    }
  }

  /** Over the entries it was collected from, the extraction can only be stopped by the stream bound. */
  lemma {:induction false} ExtractFollows(a: Archive, inv: Inventory, i: nat, seen: set<Path>, bound: nat)
    requires i <= |a.entries| && Tidy(a.entries, |a.entries|)
    requires forall j :: 0 <= j < |a.entries| ==> Accounted(inv, a.entries[j])
    requires forall p :: p in seen <==> Filed(a.entries, i, p)
    ensures var r := ExtractFrom(a, inv, i, seen, bound);
            if forall j :: i <= j < |a.entries| ==> a.entries[j].end <= bound
            then r.Ok? && forall p :: p in r.value <==> Filed(a.entries, |a.entries|, p)
            else r == Err(StreamTooLong)
    decreases |a.entries| - i
  {
    if i < |a.entries| {
      var e := a.entries[i];
      var next := if e.name.Relative? && e.kind == FileEntry then seen + {e.name.path} else seen;
      assert EntryFine(e) && Accounted(inv, e);
      forall p ensures p in next <==> Filed(a.entries, i + 1, p) { FiledOneMore(a.entries, i, p); }
      if e.name.Relative? && e.kind == FileEntry { NotYetFiled(a.entries, i); }
      hide Tidy, PairFine, Filed;
      ExtractFollows(a, inv, i + 1, next, bound);
    }
  }

  lemma NotYetFiled(es: seq<Entry>, i: nat)
    requires i < |es| && Tidy(es, |es|) && es[i].name.Relative?
    ensures !Filed(es, i, es[i].name.path)
  {
    hide EntryFine;
    assert forall j :: 0 <= j < i ==> PairFine(es[j], es[i]);
  }

  lemma FiledOneMore(es: seq<Entry>, i: nat, p: Path)
    requires i < |es|
    ensures Filed(es, i + 1, p) <==> Filed(es, i, p) || (es[i].name == Relative(p) && es[i].kind == FileEntry)
  {
    if Filed(es, i, p) {
      var j :| 0 <= j < i && es[j].name == Relative(p) && es[j].kind == FileEntry;
      assert Filed(es, i + 1, p);
    }
  }

  lemma TarBoundShrinks(bytes: nat, inodes: nat, maxBytes: nat, maxInodes: nat)
    requires bytes <= maxBytes && inodes <= maxInodes && TarBound(maxBytes, maxInodes).Some?
    ensures TarBound(bytes, inodes).Some? && TarBound(bytes, inodes).value <= TarBound(maxBytes, maxInodes).value
  {
    assert inodes * PER_INODE <= maxInodes * PER_INODE;
  }

  /** Whether the same stream also fits the tighter bound of the second pass. */
  predicate StreamFits(a: Archive, bound: nat) {
    a.total <= bound && forall j :: 0 <= j < |a.entries| ==> a.entries[j].end <= bound
  }

  /**
    A second pass over the same bytes never reports a changed archive: it extracts exactly the
    files of the inventory when the stream fits the bound computed from that inventory, and
    otherwise stops at that bound.
  */
  lemma SecondPassExtractsTheInventory(a: Archive, maxBytes: nat, maxInodes: nat)
    requires Inspect(a, maxBytes, maxInodes).Ok?
    ensures var inv := Inspect(a, maxBytes, maxInodes).value;
            var bound := TarBound(inv.bytes, |inv.directories| + |inv.files| + 2);
            && bound.Some?
            && (StreamFits(a, bound.value) ==> Extract(a, inv) == Ok(inv.files.Keys))
            && (!StreamFits(a, bound.value) ==> Extract(a, inv) == Err(StreamTooLong))
  {
    hide Inspect, Collected, Tidy, Describes, Extract, Fits;
    AcceptedIff(a, maxBytes, maxInodes);
    InspectedIsTree(a, maxBytes, maxInodes);
    CollectedIff(a.entries, |a.entries|);
    var inv := Inspect(a, maxBytes, maxInodes).value;
    RoomFacts(inv, maxBytes, maxInodes);
    TarBoundShrinks(inv.bytes, |inv.directories| + |inv.files| + 2, maxBytes, maxInodes);
    SecondPassFollows(a, inv);
  }

  lemma RoomFacts(inv: Inventory, maxBytes: nat, maxInodes: nat)
    requires Fits(inv, maxBytes, maxInodes)
    ensures inv.bytes <= maxBytes && |inv.directories| + |inv.files| + 2 <= maxInodes
  {
  }

  lemma SecondPassFollows(a: Archive, inv: Inventory)
    requires Collected(a.entries, |a.entries|) == Ok(inv) && Tidy(a.entries, |a.entries|)
             && Describes(a.entries, |a.entries|, inv)
    requires TarBound(inv.bytes, |inv.directories| + |inv.files| + 2).Some?
    ensures Extract(a, inv) ==
            if StreamFits(a, TarBound(inv.bytes, |inv.directories| + |inv.files| + 2).value) then Ok(inv.files.Keys)
            else Err(StreamTooLong)
  {
    hide Collected, TarBound, Tidy, ExtractFrom, Accounted, Listed, Filed;
    var n, bound := |a.entries|, TarBound(inv.bytes, |inv.directories| + |inv.files| + 2).value;
    forall j | 0 <= j < n ensures Accounted(inv, a.entries[j]) { AllAccounted(a.entries, n, j); }
    NothingFiled(a.entries);
    ExtractFollows(a, inv, 0, {}, bound);
    var r := ExtractFrom(a, inv, 0, {}, bound);
    if r.Ok? {
      assert r.value == inv.files.Keys;
      assert |inv.files.Keys| == |inv.files|;
    }
  }

  lemma NothingFiled(es: seq<Entry>)
    ensures forall p :: !Filed(es, 0, p)
  {
  }

  // ---------------------------------------------------------------- three concrete archives

  /** A file's header and padded content take 1024 bytes of the stream, a directory's header 512. */
  function SampleFile(end: nat): Entry { Entry(FileEntry, Relative(["a", "b"]), 1, false, 1, end) }

  function SampleDirectory(end: nat): Entry { Entry(DirectoryEntry, Relative(["a"]), 0, false, 0, end) }

  /** The same two entries are accepted in one order and refused in the other. */
  lemma OrderMatters()
    ensures Inspect(Archive([SampleDirectory(512), SampleFile(1_536)], 2_560), 10, 10).Ok?
    ensures Inspect(Archive([SampleFile(1_024), SampleDirectory(1_536)], 2_560), 10, 10).Err?
  {
    var good := Archive([SampleDirectory(512), SampleFile(1_536)], 2_560);
    var bad := Archive([SampleFile(1_024), SampleDirectory(1_536)], 2_560);
    assert Above(["a"], ["a", "b"]);
    assert !Above(["a", "b"], ["a"]);
    assert PairFine(good.entries[0], good.entries[1]);
    AcceptedIff(bad, 10, 10);
    assert !Tidy(bad.entries, 2) by { assert !PairFine(bad.entries[0], bad.entries[1]); }
    assert Tidy(good.entries, 2);
    assert FileBytes(good.entries, 1) == 0;
    CollectedIff(good.entries, 2);
    SmallInventory(good);
    AcceptedIff(good, 10, 10);
    hide Collected, Inspect, Tidy, FileBytes;
    assert good.entries[1].name.Relative? && good.entries[1].kind == FileEntry;
  }

  lemma SmallInventory(a: Archive)
    requires a == Archive([SampleDirectory(512), SampleFile(1_536)], 2_560) && Collected(a.entries, 2).Ok?
    ensures WithinBounds(a, Collected(a.entries, 2).value, TarBound(10, 10).value, 10, 10)
  {
    var d, f := SampleDirectory(512), SampleFile(1_536);
    var p: Path := ["a"];
    var q: Path := ["a", "b"];
    assert Parents(p) == {};
    assert Parents(q) == {p} by { assert q[..1] == p; }
    var one := Inventory({p}, map[], 0);
    assert Add(EMPTY, d) == Ok(one) by { assert {} + {p} + {} == {p}; }
    assert Collected(a.entries, 1) == Add(EMPTY, d);
    var two := Inventory({p}, map[q := FileInfo(1, false)], 1);
    assert Add(one, f) == Ok(two) by { assert {p} + {p} == {p}; assert !Above(q, q); }
    assert Collected(a.entries, 2) == Ok(two);
    hide Add, Collected;
    assert |two.directories| == 1 && |two.files| == 1;
  }

  /** A stream padded past what the inventory accounts for passes the first bound and stops the second pass. */
  lemma SecondPassCanStop()
    ensures var a := Archive([Entry(FileEntry, Relative(["b"]), 1, false, 1, 1_024)], 84_000);
            Inspect(a, 1_000_000, 100).Ok? && Extract(a, Inspect(a, 1_000_000, 100).value) == Err(StreamTooLong)
  {
    var e := Entry(FileEntry, Relative(["b"]), 1, false, 1, 1_024);
    var a := Archive([e], 84_000);
    var q: Path := ["b"];
    var none: set<Path> := {};
    assert Parents(q) == none && none + none == none;
    var inv := Inventory(none, map[q := FileInfo(1, false)], 1);
    assert Add(EMPTY, e) == Ok(inv) by { assert !Above(q, q); }
    assert Collected(a.entries, 1) == Ok(inv) by { assert Collected(a.entries, 0) == Ok(EMPTY); }
    CollectedIff(a.entries, 1);
    hide Add, Collected;
    assert |inv.directories| == 0 && |inv.files| == 1;
    assert a.entries[0].name.Relative? && a.entries[0].kind == FileEntry;
    AcceptedIff(a, 1_000_000, 100);
    SecondPassExtractsTheInventory(a, 1_000_000, 100);
    hide Inspect, Extract;
    assert TarBound(1, 3) == Some(83_969);
  }

  /** A file below the checksum name is accepted and turns the name into a directory. */
  lemma ChecksumCanBeADirectory()
    ensures var a := Archive([Entry(FileEntry, Relative([CHECKSUM_FILE, "x"]), 1, false, 1, 1_024)], 2_048);
            Inspect(a, 10, 10).Ok? && [CHECKSUM_FILE] in Inspect(a, 10, 10).value.directories
  {
    var q: Path := [CHECKSUM_FILE, "x"];
    var p: Path := [CHECKSUM_FILE];
    var e := Entry(FileEntry, Relative(q), 1, false, 1, 1_024);
    var a := Archive([e], 2_048);
    assert Above(p, q) && q[..1] == p;
    assert Parents(q) == {p};
    var inv := Inventory({p}, map[q := FileInfo(1, false)], 1);
    assert Add(EMPTY, e) == Ok(inv) by { assert !Above(q, q); assert {} + {p} == {p}; }
    assert Collected(a.entries, 1) == Ok(inv) by { assert Collected(a.entries, 0) == Ok(EMPTY); }
    CollectedIff(a.entries, 1);
    hide Add, Collected;
    assert |inv.directories| == 1 && |inv.files| == 1;
    assert a.entries[0].name.Relative? && a.entries[0].kind == FileEntry;
    AcceptedIff(a, 10, 10);
  }
}
