// The local tool store: listing a directory of components and fetching one by
// name, over a file tree with links.
module Store {
  import opened Prelude
  import opened Text
  import opened TextLaws
  import opened FileTree
  import opened PathSafety
  import opened Digest
  import opened StableSort

  datatype ToolInfo = ToolInfo(path: Path, sha256: Option<string>)

  type Listed = Named<ToolInfo>

  datatype StoreError = RootNotCanonical | ListingFailed | BadEntry(error: PathError) | ToolNotFound

  // ----- File names -----

  // The position of the last dot, or -1.
  function LastDot(n: string): (d: int)
    ensures -1 <= d < |n|
    ensures d >= 0 ==> n[d] == '.'
    ensures forall i :: d < i < |n| ==> n[i] != '.'
  {
    if n == [] then -1
    else if n[|n| - 1] == '.' then |n| - 1
    else LastDot(n[..|n| - 1])
  }

  // A dot in front does not start an extension.
  function Extension(n: string): Option<string> {
    if LastDot(n) <= 0 then None else Some(n[LastDot(n) + 1..])
  }

  function Stem(n: string): string {
    if LastDot(n) <= 0 then n else n[..LastDot(n)]
  }

  predicate IsWasm(n: string) {
    Extension(n).Some? && Lower(Extension(n).value) == "wasm"
  }

  // Exactly the names made of a non-empty stem, a dot, and "wasm" in any case.
  lemma {:induction false} WasmNameIff(n: string)
    ensures IsWasm(n) <==> exists ext :: n == Stem(n) + "." + ext && Stem(n) != "" && Alike(ext, "wasm")
  {
    forall ext: string
      ensures Lower(ext) == "wasm" <==> Alike(ext, "wasm")
    {
      LowerIff(ext, "wasm");
    }
    if IsWasm(n) {
      var ext := Extension(n).value;
      assert n == Stem(n) + "." + ext;
    }
    if exists ext :: n == Stem(n) + "." + ext && Stem(n) != "" && Alike(ext, "wasm") {
      var ext :| n == Stem(n) + "." + ext && Stem(n) != "" && Alike(ext, "wasm");
      assert LastDot(n) == |Stem(n)| by {
        assert n[|Stem(n)|] == '.';
      }
    }
  }

  // ----- Listing -----

  function Join(root: Path, n: string): Path {
    Path(root.absolute, root.comps + [Name(n)])
  }

  function Entry(rootLoc: Loc, n: string): Path {
    Path(true, Names(rootLoc) + [Name(n)])
  }

  // Regular files, through links, with the right extension.
  predicate Kept(fs: FileSystem, rootLoc: Loc, n: string) {
    fs.IsFile(Entry(rootLoc, n)) && IsWasm(n)
  }

  function KeptNames(fs: FileSystem, rootLoc: Loc, names: seq<string>): (kept: seq<string>)
    ensures forall n :: n in kept <==> n in names && Kept(fs, rootLoc, n)
  {
    if names == [] then []
    else
      var last := names[|names| - 1];
      KeptNames(fs, rootLoc, names[..|names| - 1]) + (if Kept(fs, rootLoc, last) then [last] else [])
  }

  function Safe(fs: FileSystem, rootLoc: Loc, n: string): Result<Loc, PathError> {
    NormalizeUnderRoot(fs, AsPath(rootLoc), Path(false, [Name(n)]))
  }

  // A kept entry that passes the path check is the file it names.
  lemma {:induction false} SafeEntry(fs: FileSystem, rootLoc: Loc, n: string)
    requires fs.Valid() && Canonical(fs.tree, rootLoc)
    requires Kept(fs, rootLoc, n) && Safe(fs, rootLoc, n).Ok?
    ensures fs.Open(Entry(rootLoc, n)) == Some(Safe(fs, rootLoc, n).value)
    ensures Safe(fs, rootLoc, n).value in fs.tree && fs.tree[Safe(fs, rootLoc, n).value].File?
  {
    LiteralPath(fs, rootLoc, fs.realpathLinks);
    ExistingTarget(fs, AsPath(rootLoc), Path(false, [Name(n)]), Safe(fs, rootLoc, n).value);
  }

  // `item` lists the entry `n`; its digest is that of the file the entry names,
  // and is there if reading that file does not fail.
  ghost predicate Describes<S(!new)>(fs: FileSystem, sha: Sha<S>, readable: Loc -> bool, root: Path, rootLoc: Loc,
                                     n: string, item: Listed)
  {
    && item.name == Stem(n)
    && item.item.path == Join(root, n)
    && Safe(fs, rootLoc, n).Ok?
    && (item.item.sha256.Some? ==>
          var safe := Safe(fs, rootLoc, n).value;
          safe in fs.tree && fs.tree[safe].File? && item.item.sha256.value == OneShot(sha, fs.tree[safe].content))
    && (readable(Safe(fs, rootLoc, n).value) ==> item.item.sha256.Some?)
  }

  ghost predicate DescribeAll<S(!new)>(fs: FileSystem, sha: Sha<S>, readable: Loc -> bool, root: Path, rootLoc: Loc,
                                       kept: seq<string>, items: seq<Listed>)
  {
    |items| == |kept| && forall i :: 0 <= i < |kept| ==> Describes(fs, sha, readable, root, rootLoc, kept[i], items[i])
  }

  // The listing fails exactly when the directory cannot be read or some kept
  // entry fails the path check, one that leads outside the root for instance.
  ghost predicate ListingFails(fs: FileSystem, root: Path, readDir: Loc -> Option<seq<string>>) {
    && fs.Exists(root)
    && (fs.Canonicalize(root).None?
        || readDir(fs.Canonicalize(root).value).None?
        || exists n :: n in KeptNames(fs, fs.Canonicalize(root).value, readDir(fs.Canonicalize(root).value).value)
                       && Safe(fs, fs.Canonicalize(root).value, n).Err?)
  }

  // One kept entry: its path is checked, then its file is hashed.
  method DescribeEntry<S(!new)>(fs: FileSystem, sha: Sha<S>, readable: Loc -> bool, root: Path, rootLoc: Loc, n: string)
    returns (r: Result<Listed, StoreError>)
    requires fs.Valid() && sha.Lawful() && Canonical(fs.tree, rootLoc) && Kept(fs, rootLoc, n)
    ensures r.Ok? <==> Safe(fs, rootLoc, n).Ok?
    ensures r.Ok? ==> Describes(fs, sha, readable, root, rootLoc, n, r.value)
    ensures r.Err? ==> r.error == BadEntry(Safe(fs, rootLoc, n).error)
  {
    var safe := NormalizeUnderRoot(fs, AsPath(rootLoc), Path(false, [Name(n)]));
    if safe.Err? {
      return Err(BadEntry(safe.error));
    }
    SafeEntry(fs, rootLoc, n);
    var file := new Reader(fs.tree[safe.value].content, readable(safe.value));
    var digest := ComputeSha256(sha, file);
    var sha256 := match digest case Ok(d) => Some(d) case Err(_) => None;
    return Ok(Named(Stem(n), ToolInfo(Join(root, n), sha256)));
  }

  method ListLocal<S(!new)>(fs: FileSystem, sha: Sha<S>, readable: Loc -> bool, root: Path,
                            readDir: Loc -> Option<seq<string>>)
    returns (r: Result<seq<Listed>, StoreError>, ghost scanned: seq<Listed>)
    requires fs.Valid() && sha.Lawful()
    ensures r.Err? <==> ListingFails(fs, root, readDir)
    ensures r.Err? ==> r.error != ToolNotFound
    ensures !fs.Exists(root) ==> r == Ok([])
    ensures fs.Exists(root) && r.Ok? ==>
              var rootLoc := fs.Canonicalize(root).value;
              && DescribeAll(fs, sha, readable, root, rootLoc, KeptNames(fs, rootLoc, readDir(rootLoc).value), scanned)
              && IsStableSort(scanned, r.value)
  {
    scanned := [];
    var items: seq<Listed> := [];
    if !fs.Exists(root) {
      return Ok(items), scanned;
    }
    var canonical := fs.Canonicalize(root);
    if canonical.None? {
      return Err(RootNotCanonical), scanned;
    }
    var rootLoc := canonical.value;
    ResolveReachesCanonical(fs, root, fs.realpathLinks);
    var entries := readDir(rootLoc);
    if entries.None? {
      return Err(ListingFailed), scanned;
    }
    var names := entries.value;
    for i := 0 to |names|
      invariant DescribeAll(fs, sha, readable, root, rootLoc, KeptNames(fs, rootLoc, names[..i]), items)
    {
      KeptNamesStep(fs, rootLoc, names, i);
      KeptNamesGrow(fs, rootLoc, names, i + 1);
      var n := names[i];
      if !fs.IsFile(Entry(rootLoc, n)) {
        continue;
      }
      if !IsWasm(n) {
        continue;
      }
      var item := DescribeEntry(fs, sha, readable, root, rootLoc, n);
      if item.Err? {
        return Err(item.error), scanned;
      }
      DescribeOneMore(fs, sha, readable, root, rootLoc, KeptNames(fs, rootLoc, names[..i]), items, n, item.value);
      items := items + [item.value];
    }
    assert names[..|names|] == names;
    scanned := items;
    SortByNameIsStable(items);
    items := SortByName(items);
    return Ok(items), scanned;
  }

  lemma {:induction false} DescribeOneMore<S(!new)>(fs: FileSystem, sha: Sha<S>, readable: Loc -> bool, root: Path,
                                                    rootLoc: Loc, kept: seq<string>, items: seq<Listed>, n: string,
                                                    item: Listed)
    requires DescribeAll(fs, sha, readable, root, rootLoc, kept, items)
    requires Describes(fs, sha, readable, root, rootLoc, n, item)
    ensures DescribeAll(fs, sha, readable, root, rootLoc, kept + [n], items + [item])
  {
  }

  lemma {:induction false} KeptNamesStep(fs: FileSystem, rootLoc: Loc, names: seq<string>, i: nat)
    requires i < |names|
    ensures KeptNames(fs, rootLoc, names[..i + 1]) ==
              KeptNames(fs, rootLoc, names[..i]) + (if Kept(fs, rootLoc, names[i]) then [names[i]] else [])
  {
    assert names[..i + 1][..i] == names[..i];
  }

  lemma {:induction false} KeptNamesGrow(fs: FileSystem, rootLoc: Loc, names: seq<string>, i: nat)
    requires i <= |names|
    ensures KeptNames(fs, rootLoc, names[..i]) <= KeptNames(fs, rootLoc, names)
    decreases |names| - i
  {
    if i < |names| {
      KeptNamesGrow(fs, rootLoc, names, i + 1);
      assert names[..i + 1][..i] == names[..i];
    } else {
      assert names[..i] == names;
    }
  }

  // ----- Fetching -----

  // A plain scan of the directory: the first kept entry with that stem.
  function FirstNamed(kept: seq<string>, name: string): Option<string> {
    if kept == [] then None
    else if Stem(kept[0]) == name then Some(kept[0])
    else FirstNamed(kept[1..], name)
  }

  // The entry is the file to fetch: kept, with that stem, and the first such.
  ghost predicate IsFirstEntry(fs: FileSystem, rootLoc: Loc, names: seq<string>, name: string, i: nat) {
    && i < |names| && Kept(fs, rootLoc, names[i]) && Stem(names[i]) == name
    && forall j :: 0 <= j < i ==> !(Kept(fs, rootLoc, names[j]) && Stem(names[j]) == name)
  }

  lemma {:induction false} FirstNamedOfConcat(a: seq<string>, b: seq<string>, name: string)
    ensures FirstNamed(a + b, name) == if FirstNamed(a, name).Some? then FirstNamed(a, name) else FirstNamed(b, name)
  {
    if a == [] {
      assert a + b == b;
    } else {
      assert (a + b)[1..] == a[1..] + b;
      FirstNamedOfConcat(a[1..], b, name);
    }
  }

  // The entry fetched is the first in directory order.
  lemma {:induction false} FirstInDirectory(fs: FileSystem, rootLoc: Loc, names: seq<string>, name: string)
    ensures forall i: nat :: IsFirstEntry(fs, rootLoc, names, name, i) ==>
              FirstNamed(KeptNames(fs, rootLoc, names), name) == Some(names[i])
    ensures (forall j :: 0 <= j < |names| ==> !(Kept(fs, rootLoc, names[j]) && Stem(names[j]) == name)) ==>
              FirstNamed(KeptNames(fs, rootLoc, names), name) == None
  {
    if names != [] {
      var n := |names| - 1;
      FirstInDirectory(fs, rootLoc, names[..n], name);
      FirstNamedOfConcat(KeptNames(fs, rootLoc, names[..n]),
                         if Kept(fs, rootLoc, names[n]) then [names[n]] else [], name);
      OneNamed(names[n], name);
      forall i: nat | IsFirstEntry(fs, rootLoc, names, name, i)
        ensures FirstNamed(KeptNames(fs, rootLoc, names), name) == Some(names[i])
      {
        if i < n {
          assert IsFirstEntry(fs, rootLoc, names[..n], name, i);
        }
      }
    }
  }

  lemma {:induction false} OneNamed(n: string, name: string)
    ensures FirstNamed([n], name) == if Stem(n) == name then Some(n) else None
    ensures FirstNamed([], name) == None
  {
  }

  lemma {:induction false} FindIsFirstNamed<S(!new)>(fs: FileSystem, sha: Sha<S>, readable: Loc -> bool, root: Path,
                                                     rootLoc: Loc, kept: seq<string>, items: seq<Listed>, name: string)
    requires DescribeAll(fs, sha, readable, root, rootLoc, kept, items)
    ensures Find(items, name).Some? <==> FirstNamed(kept, name).Some?
    ensures Find(items, name).Some? ==>
              Describes(fs, sha, readable, root, rootLoc, FirstNamed(kept, name).value, Find(items, name).value)
    ensures FirstNamed(kept, name).Some? ==>
              FirstNamed(kept, name).value in kept && Stem(FirstNamed(kept, name).value) == name
  {
    if kept != [] {
      assert Describes(fs, sha, readable, root, rootLoc, kept[0], items[0]);
      FindIsFirstNamed(fs, sha, readable, root, rootLoc, kept[1..], items[1..], name);
    }
  }

  // What fetching by name must return, told without any sorting.
  ghost predicate FetchedBy<S(!new)>(fs: FileSystem, sha: Sha<S>, readable: Loc -> bool, root: Path,
                                     readDir: Loc -> Option<seq<string>>, name: string, r: Result<Listed, StoreError>)
    requires !ListingFails(fs, root, readDir)
  {
    if !fs.Exists(root) then r == Err(ToolNotFound)
    else
      var rootLoc := fs.Canonicalize(root).value;
      match FirstNamed(KeptNames(fs, rootLoc, readDir(rootLoc).value), name)
      case None => r == Err(ToolNotFound)
      case Some(n) => r.Ok? && Describes(fs, sha, readable, root, rootLoc, n, r.value)
  }

  // Sorting and then searching by name is the plain scan, even when two entries
  // have the same stem.
  method FetchLocal<S(!new)>(fs: FileSystem, sha: Sha<S>, readable: Loc -> bool, root: Path,
                             readDir: Loc -> Option<seq<string>>, name: string)
    returns (r: Result<Listed, StoreError>)
    requires fs.Valid() && sha.Lawful()
    ensures ListingFails(fs, root, readDir) ==> r.Err? && r.error != ToolNotFound
    ensures !ListingFails(fs, root, readDir) ==> FetchedBy(fs, sha, readable, root, readDir, name, r)
  {
    ghost var scanned;
    var listing;
    listing, scanned := ListLocal(fs, sha, readable, root, readDir);
    if listing.Err? {
      return Err(listing.error);
    }
    var found := Find(listing.value, name);
    if fs.Exists(root) {
      FindAfterSort(scanned, listing.value, name);
      ghost var rootLoc := fs.Canonicalize(root).value;
      FindIsFirstNamed(fs, sha, readable, root, rootLoc, KeptNames(fs, rootLoc, readDir(rootLoc).value), scanned, name);
    }
    match found {
      case None => return Err(ToolNotFound);
      case Some(item) => return Ok(item);
    }
  }

  // The bytes are later read through the display path, not the checked one. On
  // an unchanged tree both name the same file, so the digest is that of the
  // bytes that are read.
  lemma {:induction false} DigestIsOfBytesRead<S(!new)>(fs: FileSystem, sha: Sha<S>, readable: Loc -> bool, root: Path,
                                                        n: string, item: Listed)
    requires fs.Valid() && fs.Canonicalize(root).Some?
    requires Kept(fs, fs.Canonicalize(root).value, n)
    requires Describes(fs, sha, readable, root, fs.Canonicalize(root).value, n, item)
    requires fs.Read(item.item.path).Some?
    ensures item.item.sha256.Some? ==> item.item.sha256.value == OneShot(sha, fs.Read(item.item.path).value)
  {
    var rootLoc := fs.Canonicalize(root).value;
    ResolveReachesCanonical(fs, root, fs.realpathLinks);
    SafeEntry(fs, rootLoc, n);
    SameNodeThroughCanonicalRoot(fs, root, [Name(n)], fs.realpathLinks, fs.statLinks, fs.statLinks);
  }
}
