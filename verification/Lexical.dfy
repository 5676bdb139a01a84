// What `.`, `..`, names and links mean, told apart from the walk: a path without
// links is read by adding a name for each name and dropping one for each `..`,
// and a link stands for its target.
module Lexical {
  import opened Prelude
  import opened FileTree
  import opened PathSafety
  import opened Confinement

  // The place a path spells from `at`, whatever is there.
  function Spelled(at: Loc, comps: seq<Comp>): Loc {
    if comps == [] then at
    else
      var before := Spelled(at, comps[..|comps| - 1]);
      match comps[|comps| - 1]
      case Cur => before
      case Up => if before == [] then [] else before[..|before| - 1]
      case Name(n) => before + [n]
  }

  // Every proper prefix spells a directory, and the whole a place without a link.
  ghost predicate IsPlainWay(t: Tree, at: Loc, comps: seq<Comp>) {
    && Canonical(t, Spelled(at, comps))
    && forall k :: 0 <= k < |comps| ==> IsDirectory(t, Spelled(at, comps[..k]))
  }

  predicate IsDirectory(t: Tree, l: Loc) {
    l in t && t[l].Dir?
  }

  lemma {:induction false} WalkOne(t: Tree, at: Loc, c: Comp, links: nat)
    requires IsDirectory(t, at) && Canonical(t, Spelled(at, [c]))
    ensures Walk(t, at, [c], links) == Some((Spelled(at, [c]), links))
  {
    assert [c][..0] == [] && [c][1..] == [];
    assert Spelled(at, []) == at;
    assert Walk(t, Spelled(at, [c]), [], links) == Some((Spelled(at, [c]), links));
  }

  lemma {:induction false} SpelledLast(at: Loc, comps: seq<Comp>)
    requires comps != []
    ensures Spelled(at, comps) == Spelled(Spelled(at, comps[..|comps| - 1]), [comps[|comps| - 1]])
  {
    var c := [comps[|comps| - 1]];
    assert c[..|c| - 1] == [];
  }

  lemma {:induction false} PlainPrefix(t: Tree, at: Loc, comps: seq<Comp>)
    requires IsPlainWay(t, at, comps) && comps != []
    ensures IsPlainWay(t, at, comps[..|comps| - 1]) && IsDirectory(t, Spelled(at, comps[..|comps| - 1]))
  {
    var init := comps[..|comps| - 1];
    assert forall k :: 0 <= k < |init| ==> init[..k] == comps[..k];
    assert IsDirectory(t, Spelled(at, comps[..|comps| - 1]));
  }

  // Without links, resolving a path is reading it.
  lemma {:induction false} PlainWayIsSpelled(t: Tree, at: Loc, comps: seq<Comp>, links: nat)
    requires IsPlainWay(t, at, comps)
    ensures Walk(t, at, comps, links) == Some((Spelled(at, comps), links))
  {
    if comps != [] {
      var init, last := comps[..|comps| - 1], comps[|comps| - 1];
      PlainPrefix(t, at, comps);
      PlainWayIsSpelled(t, at, init, links);
      SpelledLast(at, comps);
      WalkOne(t, Spelled(at, init), last, links);
      WalkConcat(t, at, init, [last], links);
      assert comps == init + [last];
    }
  }

  // A link is its target: relative to the directory it is in, or from the top.
  lemma {:induction false} LinkIsItsTarget(t: Tree, at: Loc, before: seq<Comp>, n: string, rest: seq<Comp>, links: nat)
    requires IsPlainWay(t, at, before) && IsDirectory(t, Spelled(at, before))
    requires Spelled(at, before) + [n] in t && t[Spelled(at, before) + [n]].Link?
    requires t[Spelled(at, before) + [n]].target != []
    ensures
      var link := t[Spelled(at, before) + [n]];
      Walk(t, at, before + ([Name(n)] + rest), links + 1) ==
        if link.absolute then Walk(t, [], link.target + rest, links)
        else Walk(t, at, before + (link.target + rest), links)
  {
    var d := Spelled(at, before);
    var link := t[d + [n]];
    PlainWayIsSpelled(t, at, before, links);
    PlainWayIsSpelled(t, at, before, links + 1);
    WalkConcat(t, at, before, [Name(n)] + rest, links + 1);
    WalkConcat(t, at, before, link.target + rest, links);
    assert ([Name(n)] + rest)[0] == Name(n) && ([Name(n)] + rest)[1..] == rest;
  }

  // No link is followed when none is allowed, an empty one never is, nothing is
  // found below a file, and what is not there is not found.
  lemma {:induction false} WalkFails(t: Tree, at: Loc, n: string, rest: seq<Comp>, links: nat)
    requires
      || !IsDirectory(t, at) || at + [n] !in t
      || (t[at + [n]].Link? && (links == 0 || t[at + [n]].target == []))
    ensures Walk(t, at, [Name(n)] + rest, links).None?
  {
    assert ([Name(n)] + rest)[0] == Name(n);
  }

  // A relative path is read from the current directory.
  lemma {:induction false} RelativeFromHere(fs: FileSystem, comps: seq<Comp>, links: nat)
    requires fs.Valid()
    ensures fs.Resolve(Path(false, comps), links) == fs.Resolve(Path(true, Names(fs.cwd) + comps), links)
  {
    WalkFromCanonical(fs.tree, fs.cwd, comps, links);
  }

  // A place is read as what is there: the content of a file, nothing otherwise.
  lemma {:induction false} ReadsThePlace(fs: FileSystem, l: Loc)
    requires fs.Valid() && Canonical(fs.tree, l)
    ensures fs.Exists(AsPath(l)) && (fs.IsFile(AsPath(l)) <==> fs.tree[l].File?)
    ensures fs.tree[l].File? ==> fs.Read(AsPath(l)) == Some(fs.tree[l].content)
    ensures !fs.tree[l].File? ==> fs.Read(AsPath(l)) == None
  {
    LiteralPath(fs, l, fs.statLinks);
  }

  // ----- The root check on paths without links -----

  // A candidate that meets no link is accepted exactly if the place it spells
  // is under the root, and is that place; if not, it escapes.
  lemma {:induction false} PlainCandidate(fs: FileSystem, root: Path, candidate: Path)
    requires fs.Valid() && !candidate.absolute && fs.Canonicalize(root).Some?
    requires IsPlainWay(fs.tree, fs.Canonicalize(root).value, candidate.comps)
    ensures
      var rootLoc := fs.Canonicalize(root).value;
      var place := Spelled(rootLoc, candidate.comps);
      NormalizeUnderRoot(fs, root, candidate) == if rootLoc <= place then Ok(place) else Err(EscapesRoot)
  {
    var rootLoc := fs.Canonicalize(root).value;
    ResolveReachesCanonical(fs, root, fs.realpathLinks);
    WalkFromCanonical(fs.tree, rootLoc, candidate.comps, fs.realpathLinks);
    PlainWayIsSpelled(fs.tree, rootLoc, candidate.comps, fs.realpathLinks);
  }

  // Leaving by `..` for a neighbour of the root is refused.
  lemma {:induction false} UpEscapes(fs: FileSystem, root: Path, n: string)
    requires fs.Valid() && fs.Canonicalize(root).Some? && fs.Canonicalize(root).value != []
    requires IsDirectory(fs.tree, fs.Canonicalize(root).value)
    requires
      var rootLoc := fs.Canonicalize(root).value;
      var neighbour := rootLoc[..|rootLoc| - 1] + [n];
      Canonical(fs.tree, neighbour) && neighbour != rootLoc
    ensures NormalizeUnderRoot(fs, root, Path(false, [Up, Name(n)])) == Err(EscapesRoot)
  {
    var rootLoc := fs.Canonicalize(root).value;
    var above := rootLoc[..|rootLoc| - 1];
    var c := [Up, Name(n)];
    AncestorsAreDirs(fs.tree, rootLoc, |rootLoc| - 1);
    assert c[..0] == [] && c[..1] == [Up] && [Up][..0] == [];
    assert Spelled(rootLoc, []) == rootLoc && Spelled(rootLoc, [Up]) == above;
    assert Spelled(rootLoc, c) == above + [n];
    PlainCandidate(fs, root, Path(false, c));
  }

  // An absolute candidate is refused, and so is everything under a root that
  // does not resolve.
  lemma {:induction false} RefusedAtOnce(fs: FileSystem, root: Path, candidate: Path)
    ensures candidate.absolute ==> NormalizeUnderRoot(fs, root, candidate) == Err(AbsoluteCandidate)
    ensures !candidate.absolute && fs.Canonicalize(root).None? ==>
              NormalizeUnderRoot(fs, root, candidate) == Err(RootUnresolved)
  {
  }

  // When the target does not resolve, the candidate is accepted exactly if
  // testing it fails too, its last name is a name, what comes before resolves,
  // and that place with the name is under the root. It then is that place.
  lemma {:induction false} MissingTargetIff(fs: FileSystem, root: Path, candidate: Path)
    requires fs.Valid() && !candidate.absolute && fs.Canonicalize(root).Some?
    requires fs.Canonicalize(Joined(fs, root, candidate)).None?
    ensures
      var rootLoc := fs.Canonicalize(root).value;
      var joined := Joined(fs, root, candidate);
      var s := Stripped(joined.comps);
      var parent := if s == [] then None else fs.Canonicalize(Path(true, Visible(s[..|s| - 1])));
      && (NormalizeUnderRoot(fs, root, candidate).Ok? <==>
            && fs.Open(joined).None? && parent.Some? && s[|s| - 1].Name?
            && rootLoc <= parent.value + [s[|s| - 1].name])
      && (NormalizeUnderRoot(fs, root, candidate).Ok? ==>
            NormalizeUnderRoot(fs, root, candidate).value == parent.value + [s[|s| - 1].name])
  {
    var joined := Joined(fs, root, candidate);
    var s := Stripped(joined.comps);
    VisibleStripped(joined.comps);
    var comps := Visible(joined.comps);
    if s != [] {
      assert comps[..|comps| - 1] == Visible(s[..|s| - 1]) && comps[|comps| - 1] == s[|s| - 1];
    }
  }
}
