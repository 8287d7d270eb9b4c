/**
  Materialising the vendored crates under a byte and inode budget.  Every write to the disk is
  one of the primitives below, and each of them keeps what is on disk within what the budget
  has consumed; so at every point of a materialisation, also where it fails or is cancelled,
  the payload stays within its limits.
*/
module PayloadBudget {
  import opened Domain
  import opened CrateArchive
  import opened SortedLists

  /**
    What surrounds the materialisation: archives that passed their digest, when it is interrupted, and checksum file
    sizes.
  */
  datatype Surroundings = Surroundings(
    fetch: nat -> Option<Fetched>, interrupted: nat -> bool, checksumBytes: map<Path, FileInfo> -> nat, chunk: nat)

  datatype Fetched = Fetched(archive: Archive, compressed: nat)

  const MAX_COMPRESSED: nat := 67_108_864

  /** Nothing is cancelled and no read or write fails. */
  ghost predicate Undisturbed(s: Surroundings) {
    forall t :: !s.interrupted(t)
  }

  /** The inventory of a crate that inspects within what is left, fits it with its checksum file, and extracts. */
  ghost predicate CrateFits(s: Surroundings, a: Archive, bytes: nat, inodes: nat) {
    && Inspect(a, bytes, inodes).Ok?
    && var inv := Inspect(a, bytes, inodes).value;
    && TotalBytes(inv.files) + s.checksumBytes(inv.files) <= bytes
    && Extract(a, inv).Ok?
    && [CHECKSUM_FILE] !in inv.directories
  }

  /** The bytes and inodes such a crate consumes. */
  ghost function CrateCost(s: Surroundings, a: Archive, bytes: nat, inodes: nat): (cost: (nat, nat))
    requires CrateFits(s, a, bytes, inodes)
    ensures cost.0 <= bytes && cost.1 <= inodes
  {
    InspectedIsTree(a, bytes, inodes);
    var inv := Inspect(a, bytes, inodes).value;
    (TotalBytes(inv.files) + s.checksumBytes(inv.files), |inv.directories| + |inv.files| + 2)
  }

  /** What the manifest, the vendor directory and the first n crates consume, if all of them fit. */
  datatype Consumed = Consumed(bytes: nat, inodes: nat, fetched: nat)

  ghost function AfterCrates(s: Surroundings, maxBytes: nat, maxInodes: nat, manifestBytes: nat, n: nat)
    : (r: Option<Consumed>)
    ensures r.Some? ==> r.value.bytes <= maxBytes && r.value.inodes <= maxInodes
  {
    if n == 0 then
      if manifestBytes <= maxBytes && 2 <= maxInodes then Some(Consumed(manifestBytes, 2, 0)) else None
    else
      match AfterCrates(s, maxBytes, maxInodes, manifestBytes, n - 1)
      case None => None
      case Some(before) => AfterOneMore(s, maxBytes, maxInodes, before, s.fetch(n - 1))
  }

  ghost function AfterOneMore(s: Surroundings, maxBytes: nat, maxInodes: nat, before: Consumed, crate: Option<Fetched>)
    : (r: Option<Consumed>)
    requires before.bytes <= maxBytes && before.inodes <= maxInodes
    ensures r.Some? ==> r.value.bytes <= maxBytes && r.value.inodes <= maxInodes
  {
    if crate.None? || crate.value.compressed == 0 || crate.value.compressed > MAX_COMPRESSED then None
    else if before.fetched + crate.value.compressed > maxBytes then None
    else if !CrateFits(s, crate.value.archive, maxBytes - before.bytes, maxInodes - before.inodes) then None
    else
      var cost := CrateCost(s, crate.value.archive, maxBytes - before.bytes, maxInodes - before.inodes);
      Some(Consumed(before.bytes + cost.0, before.inodes + cost.1, before.fetched + crate.value.compressed))
  }

  lemma {:induction false} StopsForGood(s: Surroundings, maxBytes: nat, maxInodes: nat, manifestBytes: nat, i: nat,
                                        n: nat)
    requires i <= n && AfterCrates(s, maxBytes, maxInodes, manifestBytes, i).None?
    ensures AfterCrates(s, maxBytes, maxInodes, manifestBytes, n).None?
    decreases n
  {
    hide AfterOneMore;
    if i < n { StopsForGood(s, maxBytes, maxInodes, manifestBytes, i, n - 1); }
  }

  lemma NoCratesYet(s: Surroundings, maxBytes: nat, maxInodes: nat, manifestBytes: nat, n: nat)
    ensures AfterCrates(s, maxBytes, maxInodes, manifestBytes, 0) ==
            if manifestBytes <= maxBytes && 2 <= maxInodes then Some(Consumed(manifestBytes, 2, 0)) else None
    ensures AfterCrates(s, maxBytes, maxInodes, manifestBytes, n).Some? ==> manifestBytes <= maxBytes && 2 <= maxInodes
  {
    if !(manifestBytes <= maxBytes && 2 <= maxInodes) { StopsForGood(s, maxBytes, maxInodes, manifestBytes, 0, n); }
  }

  class Payload {
    const maximumBytes: nat
    const maximumInodes: nat
    var usedBytes: nat
    var usedInodes: nat
    /** What has reached the disk. */
    var diskBytes: nat
    var diskInodes: nat
    /** The directories below the crate being written. */
    var directories: set<Path>
    /** How many interruption points have been passed. */
    var ticks: nat

    ghost predicate Valid()
      reads this
    {
      && diskBytes <= usedBytes <= maximumBytes <= MAX_U64
      && diskInodes <= usedInodes <= maximumInodes <= MAX_U64
    }

    /** All that has been consumed is on disk. */
    ghost predicate Settled()
      reads this
    {
      diskBytes == usedBytes && diskInodes == usedInodes
    }

    constructor (maximumBytes: nat, maximumInodes: nat)
      requires maximumBytes <= MAX_U64 && maximumInodes <= MAX_U64
      ensures Valid() && Settled() && usedBytes == 0 && usedInodes == 0
      ensures this.maximumBytes == maximumBytes && this.maximumInodes == maximumInodes
    {
      this.maximumBytes, this.maximumInodes := maximumBytes, maximumInodes;
      usedBytes, usedInodes, diskBytes, diskInodes, ticks := 0, 0, 0, 0, 0;
      directories := {};
    }

    /** Reserve room; the budget is untouched when there is not enough. */
    method Consume(bytes: nat, inodes: nat) returns (ok: bool)
      requires Valid()
      modifies this`usedBytes, this`usedInodes
      ensures Valid()
      ensures ok <==> old(usedBytes) + bytes <= maximumBytes && old(usedInodes) + inodes <= maximumInodes
      ensures usedBytes == old(usedBytes) + (if ok then bytes else 0)
      ensures usedInodes == old(usedInodes) + (if ok then inodes else 0)
    {
      if usedBytes + bytes > MAX_U64 || usedInodes + inodes > MAX_U64 { return false; }
      if usedBytes + bytes > maximumBytes || usedInodes + inodes > maximumInodes { return false; }
      usedBytes, usedInodes := usedBytes + bytes, usedInodes + inodes;
      return true;
    }

    /** Cancellation and input/output failures, at every point where the code can meet one. */
    method Checkpoint(s: Surroundings) returns (ok: bool)
      requires Valid()
      modifies this`ticks
      ensures Valid() && ok == !s.interrupted(old(ticks))
    {
      ok := !s.interrupted(ticks);
      ticks := ticks + 1;
    }

    /** Create one directory or empty file. */
    method CreateInode()
      requires Valid() && diskInodes < usedInodes
      modifies this`diskInodes
      ensures Valid() && diskInodes == old(diskInodes) + 1
    {
      diskInodes := diskInodes + 1;
    }

    /** Create one directory of the crate; its parents must be there and it must not. */
    method CreateDirectory(p: Path)
      requires Valid() && diskInodes < usedInodes
      requires ParentsIn(p, directories) && p !in directories
      modifies this`diskInodes, this`directories
      ensures Valid() && diskInodes == old(diskInodes) + 1 && directories == old(directories) + {p}
    {
      CreateInode();
      directories := directories + {p};
    }

    method Append(bytes: nat)
      requires Valid() && diskBytes + bytes <= usedBytes
      modifies this`diskBytes
      ensures Valid() && diskBytes == old(diskBytes) + bytes
    {
      diskBytes := diskBytes + bytes;
    }

    /** Copy one file, whose parents must be there, chunk by chunk and never past the size the inventory expects. */
    method CopyFile(s: Surroundings, p: Path, delivered: nat, expected: nat) returns (ok: bool)
      requires Valid() && diskInodes < usedInodes && diskBytes + expected <= usedBytes
      requires ParentsIn(p, directories) && p !in directories
      modifies this`diskBytes, this`diskInodes, this`ticks
      ensures Valid() && diskInodes == old(diskInodes) + 1
      ensures old(diskBytes) <= diskBytes <= old(diskBytes) + expected
      ensures ok ==> diskBytes == old(diskBytes) + expected && delivered == expected
      ensures Undisturbed(s) ==> (ok <==> delivered == expected)
    {
      CreateInode();
      var copied := 0;
      while copied < delivered
        invariant copied <= delivered && copied <= expected && Valid()
        invariant diskBytes == old(diskBytes) + copied && diskInodes == old(diskInodes) + 1
        invariant usedBytes == old(usedBytes) && usedInodes == old(usedInodes)
      {
        var going := Checkpoint(s);
        if !going { return false; }
        var read := if s.chunk == 0 then 1 else s.chunk;
        if copied + read > delivered { read := delivered - copied; }
        if copied + read > expected { return false; }
        Append(read);
        copied := copied + read;
      }
      return copied == expected;
    }

    /** Create the directories of an inventory, each after its parents. */
    method CreateDirectories(s: Surroundings, inv: Inventory) returns (ok: bool)
      requires Valid() && diskInodes + |inv.directories| <= usedInodes && WellFormedTree(inv) && directories == {}
      modifies this`diskInodes, this`ticks, this`directories
      ensures Valid() && old(diskInodes) <= diskInodes <= old(diskInodes) + |inv.directories|
      ensures directories <= inv.directories && Rooted(directories)
      ensures ok ==> diskInodes == old(diskInodes) + |inv.directories| && directories == inv.directories
      ensures Undisturbed(s) ==> ok
    {
      hide WellFormedTree, SortedBy, ParentsIn, Rooted;
      NothingIsRooted();
      var ds := ListDirectories(inv.directories);
      for i := 0 to |ds|
        invariant Valid() && diskInodes == old(diskInodes) + i
        invariant usedBytes == old(usedBytes) && usedInodes == old(usedInodes) && diskBytes == old(diskBytes)
        invariant forall p :: p in directories <==> p in ds[..i]
        invariant Rooted(directories)
      {
        var going := Checkpoint(s);
        if !going { return false; }
        NextDirectory(inv, ds, i, directories);
        CreateDirectory(ds[i]);
        assert ds[..i + 1] == ds[..i] + [ds[i]];
      }
      assert ds[..|ds|] == ds;
      return true;
    }

    /** The second pass with its writes; anything the inventory does not foresee stops it. */
    method ExtractFiles(s: Surroundings, a: Archive, inv: Inventory) returns (ok: bool)
      requires Valid()
      requires diskBytes + TotalBytes(inv.files) <= usedBytes && diskInodes + |inv.files| <= usedInodes
      requires WellFormedTree(inv) && directories == inv.directories
      modifies this`diskBytes, this`diskInodes, this`ticks
      ensures Valid()
      ensures old(diskBytes) <= diskBytes <= old(diskBytes) + TotalBytes(inv.files)
      ensures old(diskInodes) <= diskInodes <= old(diskInodes) + |inv.files|
      ensures ok ==> diskBytes == old(diskBytes) + TotalBytes(inv.files) && diskInodes == old(diskInodes) + |inv.files|
      ensures ok ==> Extract(a, inv) == Ok(inv.files.Keys)
      ensures Undisturbed(s) ==> (ok <==> Extract(a, inv).Ok?)
    {
      hide BytesOf, TarBound;
      SomeOf(inv.files, {});
      NoneOf(inv.files);
      var bound := TarBound(inv.bytes, |inv.directories| + |inv.files| + 2);
      if bound.None? { return false; }
      var seen: set<Path> := {};
      for i := 0 to |a.entries|
        invariant Valid() && usedBytes == old(usedBytes) && usedInodes == old(usedInodes)
        invariant seen <= inv.files.Keys
        invariant diskBytes == old(diskBytes) + BytesOf(inv.files, seen) && diskInodes == old(diskInodes) + |seen|
        invariant ExtractFrom(a, inv, 0, {}, bound.value) == ExtractFrom(a, inv, i, seen, bound.value)
      {
        SomeOf(inv.files, seen);
        var going := Checkpoint(s);
        if !going { return false; }
        var e := a.entries[i];
        if e.end > bound.value || e.name.Malformed? { return false; }
        if e.name.Relative? {
          var p := e.name.path;
          if |p| == 0 || |p| > MAX_PATH { return false; }
          if e.kind == DirectoryEntry {
            if p !in inv.directories { return false; }
          } else {
            if p !in inv.files || e.kind != FileEntry || p in seen { return false; }
            if e.size != inv.files[p].bytes || e.executable != inv.files[p].executable { return false; }
            OneMore(inv.files, seen, p);
            SomeOf(inv.files, seen + {p});
            var copied := CopyFile(s, p, e.delivered, inv.files[p].bytes);
            if !copied { return false; }
            seen := seen + {p};
          }
        }
      }
      SomeOf(inv.files, seen);
      if a.total > bound.value || |seen| != |inv.files| { return false; }
      AllOf(inv.files, seen);
      return true;
    }

    /** One crate: inspect within what is left, reserve, write the tree and its checksum file. */
    method MaterializeCrate(s: Surroundings, a: Archive) returns (ok: bool)
      requires Valid()
      modifies this
      ensures Valid()
      ensures ok ==>
                var inspected := Inspect(a, maximumBytes - old(usedBytes), maximumInodes - old(usedInodes));
                && inspected.Ok? && [CHECKSUM_FILE] !in inspected.value.directories
                && usedBytes ==
                     old(usedBytes) + TotalBytes(inspected.value.files) + s.checksumBytes(inspected.value.files)
                && usedInodes == old(usedInodes) + |inspected.value.directories| + |inspected.value.files| + 2
      ensures ok ==> CrateFits(s, a, maximumBytes - old(usedBytes), maximumInodes - old(usedInodes))
      ensures Undisturbed(s) && CrateFits(s, a, maximumBytes - old(usedBytes), maximumInodes - old(usedInodes)) ==> ok
      ensures ok ==>
                && usedBytes - diskBytes == old(usedBytes - diskBytes)
                && usedInodes - diskInodes == old(usedInodes - diskInodes)
      ensures old(usedBytes) <= usedBytes && old(usedInodes) <= usedInodes
      ensures usedBytes - diskBytes >= old(usedBytes - diskBytes)
              && usedInodes - diskInodes >= old(usedInodes - diskInodes)
    {
      hide Inspect, Extract, TotalBytes, WellFormedTree;
      var inspected := InspectArchive(a, maximumBytes - usedBytes, maximumInodes - usedInodes);
      if inspected.Err? { return false; }
      var inv := inspected.value;
      var checksum := s.checksumBytes(inv.files);
      var fileBytes := SumBytes(inv.files);
      var reserved := Consume(fileBytes + checksum, |inv.directories| + |inv.files| + 2);
      if !reserved { return false; }
      ok := Checkpoint(s);
      if !ok { return false; }
      CreateInode();
      directories := {};
      ok := CreateDirectories(s, inv);
      if !ok { return false; }
      ok := ExtractFiles(s, a, inv);
      if !ok { return false; }
      ok := Checkpoint(s);
      if !ok || [CHECKSUM_FILE] in inv.directories { return false; }
      CreateInode();
      Append(checksum);
    }

    /** Fetch and materialise the next crate; `fetched` counts the compressed bytes of all of them. */
    method MaterializeNext(s: Surroundings, i: nat, before: nat, ghost manifestBytes: nat)
      returns (ok: bool, fetched: nat)
      requires Valid()
      requires AfterCrates(s, maximumBytes, maximumInodes, manifestBytes, i) ==
               Some(Consumed(usedBytes, usedInodes, before))
      modifies this
      ensures Valid()
      ensures ok ==>
                && usedBytes - diskBytes == old(usedBytes - diskBytes)
                && usedInodes - diskInodes == old(usedInodes - diskInodes)
      ensures var next := AfterCrates(s, maximumBytes, maximumInodes, manifestBytes, i + 1);
              && (ok ==> next == Some(Consumed(usedBytes, usedInodes, fetched)))
              && (Undisturbed(s) && next.Some? ==> ok)
    {
      hide CrateFits, Inspect, TotalBytes, WellFormedTree;
      fetched := before;
      ok := Checkpoint(s);
      if !ok { return; }
      var crate := s.fetch(i);
      if crate.None? || crate.value.compressed == 0 || crate.value.compressed > MAX_COMPRESSED {
        return false, fetched;
      }
      fetched := fetched + crate.value.compressed;
      if fetched > maximumBytes { return false, fetched; }
      ok := MaterializeCrate(s, crate.value.archive);
    }

    /** The whole payload: manifest and vendor directory reserved first, crates one by one, manifest written last. */
    method Materialize(s: Surroundings, packages: nat, manifestBytes: nat) returns (ok: bool)
      requires Valid() && Settled() && usedBytes == 0 && usedInodes == 0
      modifies this
      ensures Valid()
      ensures ok ==> Settled()
      ensures var all := AfterCrates(s, maximumBytes, maximumInodes, manifestBytes, packages);
              && (ok ==> all.Some? && maximumBytes > 0 && maximumInodes >= 3)
              && (ok ==> usedBytes == all.value.bytes && usedInodes == all.value.inodes)
              && (Undisturbed(s) && all.Some? && maximumBytes > 0 && maximumInodes >= 3 ==> ok)
    {
      NoCratesYet(s, maximumBytes, maximumInodes, manifestBytes, packages);
      hide AfterCrates;
      if maximumBytes == 0 || maximumInodes < 3 { return false; }
      ok := Checkpoint(s);
      if !ok { return false; }
      ok := Consume(manifestBytes, 2);
      if !ok { return false; }
      CreateInode();
      var fetched: nat := 0;
      for i := 0 to packages
        invariant Valid() && usedBytes - diskBytes == manifestBytes && usedInodes - diskInodes == 1
        invariant AfterCrates(s, maximumBytes, maximumInodes, manifestBytes, i) ==
                  Some(Consumed(usedBytes, usedInodes, fetched))
      {
        if AfterCrates(s, maximumBytes, maximumInodes, manifestBytes, i + 1).None? {
          StopsForGood(s, maximumBytes, maximumInodes, manifestBytes, i + 1, packages);
        }
        ok, fetched := MaterializeNext(s, i, fetched, manifestBytes);
        if !ok { return false; }
      }
      ok := Checkpoint(s);
      if !ok { return false; }
      CreateInode();
      Append(manifestBytes);
    }
  }

  lemma NothingIsRooted()
    ensures Rooted({})
  {
  }

  /** The directories before the i-th of a listing hold its parents, and not itself. */
  lemma NextDirectory(inv: Inventory, ds: seq<Path>, i: nat, directories: set<Path>)
    requires WellFormedTree(inv) && SortedBy(ds, DepthKey) && |ds| == |inv.directories| && i < |ds|
    requires (forall p :: p in ds <==> p in inv.directories) && (forall p :: p in directories <==> p in ds[..i])
    requires Rooted(directories)
    ensures ParentsIn(ds[i], directories) && ds[i] !in directories && Rooted(directories + {ds[i]})
  {
    hide WellFormedTree, SortedBy;
    var p := ds[i];
    forall n | 0 < n < |p| ensures p[..n] in directories {
      assert Above(p[..n], p);
      ParentsComeFirst(inv, ds, i, p[..n]);
      var j :| 0 <= j < i && ds[j] == p[..n];
      assert ds[..i][j] == p[..n];
    }
    forall j | 0 <= j < i ensures ds[j] != p { ListedOnce(ds, inv.directories, j, i); }
  }

  // ---------------------------------------------------------------- adding up files

  /** The bytes of some of the files. */
  ghost function BytesOf(files: map<Path, FileInfo>, some: set<Path>): nat
    requires some <= files.Keys
  {
    if some == {} then 0
    else
      var p :| p in some;
      files[p].bytes + BytesOf(files, some - {p})
  }

  ghost function TotalBytes(files: map<Path, FileInfo>): nat {
    BytesOf(files, files.Keys)
  }

  lemma NoneOf(files: map<Path, FileInfo>)
    ensures BytesOf(files, {}) == 0
  {
  }

  lemma OutAndIn(some: set<Path>, p: Path, q: Path)
    requires p !in some && q in some + {p}
    ensures q == p ==> some + {p} - {q} == some
    ensures q != p ==>
              some + {p} - {q} == some - {q} + {p} && some - {q} + {q} == some && |some - {q}| < |some|
  {
  }

  lemma PickedFirst(files: map<Path, FileInfo>, some: set<Path>) returns (q: Path)
    requires some <= files.Keys && some != {}
    ensures q in some && BytesOf(files, some) == files[q].bytes + BytesOf(files, some - {q})
  {
    q :| q in some && BytesOf(files, some) == files[q].bytes + BytesOf(files, some - {q});
  }

  /** The sum does not depend on the order the files are taken in. */
  lemma {:induction false} OneMore(files: map<Path, FileInfo>, some: set<Path>, p: Path)
    requires some <= files.Keys && p in files && p !in some
    ensures BytesOf(files, some + {p}) == BytesOf(files, some) + files[p].bytes
    decreases |some|
  {
    var all := some + {p};
    var q := PickedFirst(files, all);
    hide BytesOf;
    OutAndIn(some, p, q);
    if q != p {
      OneMore(files, some - {q}, p);
      OneMore(files, some - {q}, q);
    }
  }

  lemma {:induction false} SomeOf(files: map<Path, FileInfo>, some: set<Path>)
    requires some <= files.Keys
    ensures BytesOf(files, some) <= TotalBytes(files) && |some| <= |files|
    decreases |files.Keys - some|
  {
    assert |files.Keys| == |files|;
    if !(files.Keys <= some) {
      var p :| p in files.Keys && p !in some;
      OneMore(files, some, p);
      SomeOf(files, some + {p});
    } else {
      assert some == files.Keys;
    }
  }

  lemma AllOf(files: map<Path, FileInfo>, some: set<Path>)
    requires some <= files.Keys && |some| == |files|
    ensures some == files.Keys
  {
    assert |files.Keys| == |files|;
    if !(files.Keys <= some) {
      var p :| p in files.Keys && p !in some;
      SubsetIsSmaller(some + {p}, files.Keys);
    }
  }

  method SumBytes(files: map<Path, FileInfo>) returns (total: nat)
    ensures total == TotalBytes(files)
  {
    total := 0;
    var done: set<Path> := {};
    var rest := files.Keys;
    while rest != {}
      invariant rest <= files.Keys && done == files.Keys - rest && total == BytesOf(files, done)
      decreases |rest|
    {
      var p :| p in rest;
      OneMore(files, done, p);
      total := total + files[p].bytes;
      done, rest := done + {p}, rest - {p};
    }
    assert done == files.Keys;
  }
}
