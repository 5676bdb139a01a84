// `normalize_under_root`: keep a user-supplied path inside an allowed root.
module PathSafety {
  import opened Prelude
  import opened FileTree

  datatype PathError =
    | AbsoluteCandidate
    | RootUnresolved
    | NoParent
    | ParentUnresolved
    | NoFileName
    | TargetUnresolved
    | EscapesRoot

  // The components that `Path::parent` and `Path::file_name` see: a `.` after
  // the start of an absolute path is skipped.
  function Visible(comps: seq<Comp>): seq<Comp> {
    if comps == [] then []
    else if comps[0].Cur? then Visible(comps[1..])
    else [comps[0]] + Visible(comps[1..])
  }

  // The parent is resolved, the last name is appended as it stands.
  function MissingLeaf(fs: FileSystem, joined: Path): Result<Loc, PathError> {
    var comps := Visible(joined.comps);
    if comps == [] then Err(NoParent)
    else
      var last := |comps| - 1;
      match fs.Canonicalize(Path(true, comps[..last]))
      case None => Err(ParentUnresolved)
      case Some(parent) => if comps[last].Name? then Ok(parent + [comps[last].name]) else Err(NoFileName)
  }

  function NormalizeUnderRoot(fs: FileSystem, root: Path, candidate: Path): Result<Loc, PathError> {
    if candidate.absolute then Err(AbsoluteCandidate)
    else
      match fs.Canonicalize(root)
      case None => Err(RootUnresolved)
      case Some(rootLoc) =>
        var joined := Path(true, Names(rootLoc) + candidate.comps);
        var canon :=
          match fs.Canonicalize(joined)
          case Some(l) => Ok(l)
          case None => if !fs.Exists(joined) then MissingLeaf(fs, joined) else Err(TargetUnresolved);
        match canon
        case Err(e) => Err(e)
        case Ok(l) => if rootLoc <= l then Ok(l) else Err(EscapesRoot)
  }

  // What the caller asked for, from the canonical place of the root.
  function Joined(fs: FileSystem, root: Path, candidate: Path): Path
    requires fs.Canonicalize(root).Some?
  {
    Path(true, Names(fs.Canonicalize(root).value) + candidate.comps)
  }

  // The same request made of a normalised result.
  function Again(fs: FileSystem, rootLoc: Loc, r: Loc): Result<Loc, PathError>
    requires rootLoc <= r
  {
    NormalizeUnderRoot(fs, AsPath(rootLoc), Path(false, Names(r[|rootLoc|..])))
  }

  // Whatever the tree, an accepted path is spelled under the canonical root.
  lemma {:induction false} ResultIsUnderRoot(fs: FileSystem, root: Path, candidate: Path)
    requires fs.Valid() && NormalizeUnderRoot(fs, root, candidate).Ok?
    ensures !candidate.absolute && fs.Canonicalize(root).Some?
    ensures Canonical(fs.tree, fs.Canonicalize(root).value)
    ensures fs.Canonicalize(root).value <= NormalizeUnderRoot(fs, root, candidate).value
  {
    ResolveReachesCanonical(fs, root, fs.realpathLinks);
  }

  // An existing target is accepted exactly when its own place lies under the
  // root. The result then is that place: free of links all the way down, it
  // opens the same node as the request under any link allowance, and
  // normalising it again gives it back.
  lemma {:induction false} ExistingTarget(fs: FileSystem, root: Path, candidate: Path, target: Loc)
    requires fs.Valid() && !candidate.absolute && fs.Canonicalize(root).Some?
    requires fs.Canonicalize(Joined(fs, root, candidate)) == Some(target)
    ensures NormalizeUnderRoot(fs, root, candidate).Ok? <==> fs.Canonicalize(root).value <= target
    ensures fs.Canonicalize(root).value <= target ==>
              && NormalizeUnderRoot(fs, root, candidate) == Ok(target)
              && Again(fs, fs.Canonicalize(root).value, target) == Ok(target)
    ensures Canonical(fs.tree, target)
    ensures forall k :: 0 <= k < |target| ==> target[..k] in fs.tree && fs.tree[target[..k]].Dir?
    ensures forall links :: fs.Resolve(AsPath(target), links) == Some(target)
    ensures forall links :: fs.Resolve(Joined(fs, root, candidate), links).Some? ==>
              fs.Resolve(Joined(fs, root, candidate), links) == Some(target)
  {
    var joined := Joined(fs, root, candidate);
    var rootLoc := fs.Canonicalize(root).value;
    ResolveReachesCanonical(fs, root, fs.realpathLinks);
    ResolveReachesCanonical(fs, joined, fs.realpathLinks);
    forall k | 0 <= k < |target|
      ensures target[..k] in fs.tree && fs.tree[target[..k]].Dir?
    {
      AncestorsAreDirs(fs.tree, target, k);
    }
    forall links: nat
      ensures fs.Resolve(AsPath(target), links) == Some(target)
      ensures fs.Resolve(joined, links).Some? ==> fs.Resolve(joined, links) == Some(target)
    {
      LiteralPath(fs, target, links);
      if fs.Resolve(joined, links).Some? {
        ResolveDeterministic(fs, joined, links, fs.realpathLinks);
      }
    }
    LiteralPath(fs, rootLoc, fs.realpathLinks);
    if rootLoc <= target {
      JoinRemainder(rootLoc, target);
    }
  }

  lemma {:induction false} JoinRemainder(rootLoc: Loc, r: Loc)
    requires rootLoc <= r
    ensures Names(rootLoc) + Names(r[|rootLoc|..]) == Names(r)
  {
  }

  // If the target does not resolve, an accepted result is a canonical parent
  // with one more name. Normalising it again gives it back exactly unless that
  // name is a link that does resolve.
  lemma {:induction false} MissingTarget(fs: FileSystem, root: Path, candidate: Path)
    requires fs.Valid() && NormalizeUnderRoot(fs, root, candidate).Ok?
    requires fs.Canonicalize(Joined(fs, root, candidate)).None?
    ensures
      var r := NormalizeUnderRoot(fs, root, candidate).value;
      && r != [] && Canonical(fs.tree, Parent(r))
      && fs.Open(Joined(fs, root, candidate)).None?
      && (Again(fs, fs.Canonicalize(root).value, r) == Ok(r) <==>
            !(r in fs.tree && fs.tree[r].Link? && (fs.Canonicalize(AsPath(r)).Some? || fs.Open(AsPath(r)).Some?)))
  {
    var rootLoc := fs.Canonicalize(root).value;
    var joined := Joined(fs, root, candidate);
    var r := NormalizeUnderRoot(fs, root, candidate).value;
    var comps := Visible(joined.comps);
    var parentPath := Path(true, comps[..|comps| - 1]);
    var p := fs.Canonicalize(parentPath).value;
    assert Parent(r) == p;
    ResolveReachesCanonical(fs, root, fs.realpathLinks);
    ResolveReachesCanonical(fs, parentPath, fs.realpathLinks);
    LiteralPath(fs, rootLoc, fs.realpathLinks);
    JoinRemainder(rootLoc, r);
    AgainFromParent(fs, rootLoc, r);
  }

  lemma {:induction false} AgainFromParent(fs: FileSystem, rootLoc: Loc, r: Loc)
    requires fs.Valid() && Canonical(fs.tree, rootLoc)
    requires rootLoc <= r && r != [] && Canonical(fs.tree, Parent(r))
    ensures Again(fs, rootLoc, r) == Ok(r) <==>
              !(r in fs.tree && fs.tree[r].Link? && (fs.Canonicalize(AsPath(r)).Some? || fs.Open(AsPath(r)).Some?))
  {
    LiteralPath(fs, rootLoc, fs.realpathLinks);
    JoinRemainder(rootLoc, r);
    MissingLeafIs(fs, r);
    if r !in fs.tree {
      NothingThere(fs, r, fs.realpathLinks);
      NothingThere(fs, r, fs.statLinks);
    } else if !fs.tree[r].Link? {
      LiteralPath(fs, r, fs.realpathLinks);
    } else if fs.Canonicalize(AsPath(r)).Some? {
      ResolveReachesCanonical(fs, AsPath(r), fs.realpathLinks);
    }
  }

  lemma {:induction false} LastName(r: Loc)
    requires r != []
    ensures Names(r)[..|r| - 1] == Names(Parent(r)) && Names(r)[|r| - 1] == Name(r[|r| - 1])
    ensures Parent(r) + [r[|r| - 1]] == r
  {
  }

  lemma {:induction false} MissingLeafIs(fs: FileSystem, r: Loc)
    requires fs.Valid() && r != [] && Canonical(fs.tree, Parent(r))
    ensures MissingLeaf(fs, AsPath(r)) == Ok(r)
  {
    VisibleNames(r);
    LastName(r);
    LiteralPath(fs, Parent(r), fs.realpathLinks);
  }

  lemma {:induction false} NothingThere(fs: FileSystem, r: Loc, links: nat)
    requires fs.Valid() && r != [] && Canonical(fs.tree, Parent(r)) && r !in fs.tree
    ensures fs.Resolve(AsPath(r), links).None?
  {
    assert Names(r) == Names(Parent(r)) + [Name(r[|r| - 1])];
    assert Parent(r) + [r[|r| - 1]] == r;
    WalkFromCanonical(fs.tree, Parent(r), [Name(r[|r| - 1])], links);
  }

  lemma {:induction false} VisibleNames(l: Loc)
    ensures Visible(Names(l)) == Names(l)
  {
    if l != [] {
      VisibleNames(l[1..]);
      assert Names(l)[1..] == Names(l[1..]);
      assert Names(l) == [Name(l[0])] + Names(l[1..]);
    }
  }

  // The exception is real: a link followed by a trailing slash, to a file that
  // is not a directory, is accepted as the link itself.
  lemma {:induction false} LinkMayBeAccepted() returns (fs: FileSystem, root: Path, candidate: Path)
    ensures fs.Valid() && NormalizeUnderRoot(fs, root, candidate) == Ok(["a"])
    ensures ["a"] in fs.tree && fs.tree[["a"]].Link?
    ensures Again(fs, [], ["a"]) != Ok(["a"])
  {
    var tree: Tree := map[[] := Dir, ["a"] := Link(false, [Name("b")]), ["b"] := File([])];
    fs := FileSystem(tree, [], 8, 8);
    root := Path(true, []);
    candidate := Path(false, [Name("a"), Cur]);
    LinkTree(tree);
    LinkWalks(tree);
    assert fs.Canonicalize(root) == Some([]);
    assert Names([]) + candidate.comps == [Name("a"), Cur];
    LinkLeaf(fs);
    AgainFromParent(fs, [], ["a"]);
    assert Names(["a"]) == [Name("a")];
  }

  lemma {:induction false} LinkTree(tree: Tree)
    requires tree == map[[] := Dir, ["a"] := Link(false, [Name("b")]), ["b"] := File([])]
    ensures WellFormed(tree) && Canonical(tree, []) && tree[[]] == Dir
    ensures ["a"] in tree && tree[["a"]] == Link(false, [Name("b")]) && ["b"] in tree && tree[["b"]] == File([])
  {
    assert "a"[0] == 'a' && "b"[0] == 'b';
    assert ["a"][0] == "a" && ["b"][0] == "b";
    assert Parent(["a"]) == Parent(["b"]) == [];
  }

  // The link resolves; followed by a dot it does not.
  lemma {:induction false} LinkWalks(tree: Tree)
    requires [] in tree && tree[[]] == Dir
    requires ["a"] in tree && tree[["a"]] == Link(false, [Name("b")]) && ["b"] in tree && tree[["b"]] == File([])
    ensures Walk(tree, [], [Name("a")], 8) == Some((["b"], 7))
    ensures Walk(tree, [], [Name("a"), Cur], 8) == None
  {
    assert [] + ["a"] == ["a"] && [] + ["b"] == ["b"];
    assert [Name("a")][1..] == [] && [Name("b")] + [] == [Name("b")] && [Name("b")][1..] == [];
    assert Walk(tree, [], [Name("b")], 7) == Some((["b"], 7));
    assert Walk(tree, ["b"], [Cur], 7).None?;
    assert [Name("a"), Cur] == [Name("a")] + [Cur];
    WalkConcat(tree, [], [Name("a")], [Cur], 8);
  }

  lemma {:induction false} LinkLeaf(fs: FileSystem)
    requires fs.Canonicalize(Path(true, [])) == Some([])
    ensures MissingLeaf(fs, Path(true, [Name("a"), Cur])) == Ok(["a"])
  {
    var comps := [Name("a"), Cur];
    assert comps[1..] == [Cur] && [Cur][1..] == [];
    assert Visible([Cur]) == [] && Visible(comps) == [Name("a")];
    assert [Name("a")][..0] == [] && [] + ["a"] == ["a"];
  }
}
