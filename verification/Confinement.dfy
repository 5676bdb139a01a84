// Where an accepted path really leads. `normalize_under_root` compares names, so
// a result lies under the root as it is spelled; whether opening it stays under
// the root is decided by the last component alone.
module Confinement {
  import opened Prelude
  import opened FileTree
  import opened PathSafety

  // Opening the result, if it can be reached, stays within the root.
  ghost predicate Confined(fs: FileSystem, rootLoc: Loc, r: Loc) {
    fs.Open(AsPath(r)).Some? ==> rootLoc <= fs.Open(AsPath(r)).value
  }

  // Whatever the tree, an accepted path is spelled under the canonical root, and
  // opening it stays there unless the target does not resolve and the result is
  // a link that leads outside.
  lemma {:induction false} AcceptedIsConfinedIff(fs: FileSystem, root: Path, candidate: Path)
    requires fs.Valid() && NormalizeUnderRoot(fs, root, candidate).Ok?
    ensures !candidate.absolute && fs.Canonicalize(root).Some?
    ensures
      var rootLoc := fs.Canonicalize(root).value;
      var r := NormalizeUnderRoot(fs, root, candidate).value;
      && Canonical(fs.tree, rootLoc) && rootLoc <= r
      && (Confined(fs, rootLoc, r) <==>
            !(&& fs.Canonicalize(Joined(fs, root, candidate)).None?
              && r in fs.tree && fs.tree[r].Link?
              && fs.Open(AsPath(r)).Some? && !(rootLoc <= fs.Open(AsPath(r)).value)))
  {
    ResultIsUnderRoot(fs, root, candidate);
    var joined := Joined(fs, root, candidate);
    var r := NormalizeUnderRoot(fs, root, candidate).value;
    if fs.Canonicalize(joined).Some? {
      ExistingTarget(fs, root, candidate, r);
    } else {
      MissingTarget(fs, root, candidate);
      if r !in fs.tree {
        NothingThere(fs, r, fs.statLinks);
      } else if !fs.tree[r].Link? {
        LiteralPath(fs, r, fs.statLinks);
      }
    }
  }

  // ----- What the caller can see before the call -----

  // The components without the trailing slashes and dots.
  function Stripped(comps: seq<Comp>): (r: seq<Comp>)
    ensures r <= comps && (r == [] || !r[|r| - 1].Cur?)
    ensures forall i :: |r| <= i < |comps| ==> comps[i].Cur?
  {
    if comps != [] && comps[|comps| - 1].Cur? then Stripped(comps[..|comps| - 1]) else comps
  }

  function StrippedPath(p: Path): Path {
    Path(p.absolute, Stripped(p.comps))
  }

  // The path would resolve if more links were allowed.
  ghost predicate Exhausted(fs: FileSystem, p: Path, links: nat) {
    fs.Resolve(p, links).None? && exists more :: fs.Resolve(p, more).Some?
  }

  lemma {:induction false} VisibleConcat(a: seq<Comp>, b: seq<Comp>)
    ensures Visible(a + b) == Visible(a) + Visible(b)
  {
    if a == [] {
      assert a + b == b;
    } else {
      assert (a + b)[1..] == a[1..] + b;
      VisibleConcat(a[1..], b);
    }
  }

  lemma {:induction false} VisibleDots(c: seq<Comp>)
    requires forall i :: 0 <= i < |c| ==> c[i].Cur?
    ensures Visible(c) == []
  {
    if c != [] {
      VisibleDots(c[1..]);
    }
  }

  // Trailing slashes and dots are not visible to `parent` and `file_name`.
  lemma {:induction false} VisibleStripped(c: seq<Comp>)
    ensures Visible(c) == Visible(Stripped(c))
    ensures Stripped(c) == [] ==> Visible(c) == []
    ensures Stripped(c) != [] ==>
              var s := Stripped(c);
              Visible(c) == Visible(s[..|s| - 1]) + [s[|s| - 1]]
  {
    var s := Stripped(c);
    assert c == s + c[|s|..];
    VisibleConcat(s, c[|s|..]);
    VisibleDots(c[|s|..]);
    if s != [] {
      var last := s[|s| - 1];
      assert s == s[..|s| - 1] + [last];
      VisibleConcat(s[..|s| - 1], [last]);
      assert Visible([last]) == [last] by {
        assert [last][1..] == [];
      }
    }
  }

  lemma {:induction false} WalkFirst(t: Tree, at: Loc, c: seq<Comp>, links: nat)
    requires c != []
    ensures Walk(t, at, c, links) ==
              match Walk(t, at, c[..1], links)
              case None => None
              case Some((m, left)) => Walk(t, m, c[1..], left)
  {
    assert c == c[..1] + c[1..];
    WalkConcat(t, at, c[..1], c[1..], links);
  }

  // Skipping dots changes nothing on the way to a directory, and never makes a
  // path that resolves lead elsewhere.
  lemma {:induction false} WalkVisible(t: Tree, at: Loc, c: seq<Comp>, links: nat)
    ensures Walk(t, at, c, links).Some? ==> Walk(t, at, Visible(c), links) == Walk(t, at, c, links)
    ensures
      var w := Walk(t, at, Visible(c), links);
      w.Some? && w.value.0 in t && t[w.value.0].Dir? ==> Walk(t, at, c, links) == w
    decreases |c|
  {
    if c == [] {
    } else if c[0].Cur? {
      WalkVisible(t, at, c[1..], links);
      DotNeedsDirectory(t, at, c, links);
    } else {
      var v := Visible(c);
      assert v[..1] == c[..1] && v[1..] == Visible(c[1..]);
      WalkFirst(t, at, c, links);
      WalkFirst(t, at, v, links);
      var first := Walk(t, at, c[..1], links);
      if first.Some? {
        WalkVisible(t, first.value.0, c[1..], first.value.1);
      }
    }
  }

  lemma {:induction false} DotNeedsDirectory(t: Tree, at: Loc, c: seq<Comp>, links: nat)
    requires c != [] && c[0].Cur?
    ensures Walk(t, at, c, links) == if at in t && t[at].Dir? then Walk(t, at, c[1..], links) else None
  {
  }

  lemma {:induction false} WalkDots(t: Tree, at: Loc, c: seq<Comp>, links: nat)
    requires forall i :: 0 <= i < |c| ==> c[i].Cur?
    ensures Walk(t, at, c, links) == if c == [] || (at in t && t[at].Dir?) then Some((at, links)) else None
  {
    if c != [] {
      DotNeedsDirectory(t, at, c, links);
      WalkDots(t, at, c[1..], links);
    }
  }

  // Trailing dots ask for a directory and do nothing else.
  lemma {:induction false} ResolveStripped(fs: FileSystem, p: Path, x: Loc, m: nat, n: nat)
    requires fs.Resolve(StrippedPath(p), m) == Some(x)
    ensures Stripped(p.comps) == p.comps || (x in fs.tree && fs.tree[x].Dir?) ==> fs.Resolve(p, m) == Some(x)
    ensures Stripped(p.comps) != p.comps && !(x in fs.tree && fs.tree[x].Dir?) ==> fs.Resolve(p, n).None?
  {
    var s := Stripped(p.comps);
    var dots := p.comps[|s|..];
    assert p.comps == s + dots;
    WalkConcat(fs.tree, fs.Start(p), s, dots, m);
    WalkConcat(fs.tree, fs.Start(p), s, dots, n);
    WalkDots(fs.tree, x, dots, Walk(fs.tree, fs.Start(p), s, m).value.1);
    if Walk(fs.tree, fs.Start(p), s, n).Some? {
      WalkDeterministic(fs.tree, fs.Start(p), s, m, n);
      WalkDots(fs.tree, x, dots, Walk(fs.tree, fs.Start(p), s, n).value.1);
    }
  }

  // What the fallback for a missing leaf does, told on the stripped path.
  lemma {:induction false} LeafShape(fs: FileSystem, p: Path, r: Loc)
    requires p.absolute && MissingLeaf(fs, p) == Ok(r)
    ensures r != [] && Stripped(p.comps) != []
    ensures
      var s := Stripped(p.comps);
      && s[|s| - 1] == Name(r[|r| - 1])
      && fs.Canonicalize(Path(true, Visible(s[..|s| - 1]))) == Some(Parent(r))
  {
    VisibleStripped(p.comps);
    var comps := Visible(p.comps);
    assert comps != [];
    var s := Stripped(p.comps);
    assert comps[..|comps| - 1] == Visible(s[..|s| - 1]) && comps[|comps| - 1] == s[|s| - 1];
    var parent := fs.Canonicalize(Path(true, comps[..|comps| - 1])).value;
    assert r == parent + [comps[|comps| - 1].name];
    assert Parent(r) == parent;
  }

  // Opening a result whose parent is canonical is following its last name there.
  lemma {:induction false} OpenFromParent(fs: FileSystem, r: Loc, links: nat)
    requires fs.Valid() && r != [] && Canonical(fs.tree, Parent(r))
    ensures Walk(fs.tree, [], Names(r), links) == Walk(fs.tree, Parent(r), [Name(r[|r| - 1])], links)
  {
    assert Names(r) == Names(Parent(r)) + [Name(r[|r| - 1])];
    WalkFromCanonical(fs.tree, Parent(r), [Name(r[|r| - 1])], links);
  }

  // The fallback resolved `above` to the canonical parent of `r`.
  ghost predicate IsAbove(fs: FileSystem, above: seq<Comp>, r: Loc) {
    r != [] && Canonical(fs.tree, Parent(r)) && LeadsTo(fs.tree, [], Visible(above), fs.realpathLinks, Parent(r))
  }

  predicate LeadsTo(t: Tree, at: Loc, comps: seq<Comp>, links: nat, x: Loc) {
    Walk(t, at, comps, links).Some? && Walk(t, at, comps, links).value.0 == x
  }

  lemma {:induction false} ResolveLeadsTo(fs: FileSystem, comps: seq<Comp>, links: nat, x: Loc)
    ensures fs.Resolve(Path(true, comps), links) == Some(x) <==> LeadsTo(fs.tree, [], comps, links, x)
  {
  }

  lemma {:induction false} CanonicalizedLeadsTo(fs: FileSystem, comps: seq<Comp>, at: Loc)
    requires fs.Valid() && fs.Canonicalize(Path(true, comps)) == Some(at)
    ensures LeadsTo(fs.tree, [], comps, fs.realpathLinks, at) && Canonical(fs.tree, at)
  {
    ResolveReachesCanonical(fs, Path(true, comps), fs.realpathLinks);
  }

  lemma {:induction false} SplitAtLast(s: seq<Comp>)
    requires s != []
    ensures s[..|s| - 1] + [s[|s| - 1]] == s
  {
  }

  lemma {:induction false} LeafParent(fs: FileSystem, p: Path, r: Loc) returns (above: seq<Comp>)
    requires fs.Valid() && p.absolute && MissingLeaf(fs, p) == Ok(r)
    ensures IsAbove(fs, above, r) && StrippedPath(p) == Path(true, above + [Name(r[|r| - 1])])
  {
    LeafShape(fs, p, r);
    var s := Stripped(p.comps);
    above := s[..|s| - 1];
    SplitAtLast(s);
    CanonicalizedLeadsTo(fs, Visible(above), Parent(r));
  }

  lemma {:induction false} NameNeedsDirectory(t: Tree, at: Loc, c: Comp, links: nat)
    requires Walk(t, at, [c], links).Some?
    ensures at in t && t[at].Dir?
  {
  }

  lemma {:induction false} WalkForward(t: Tree, above: seq<Comp>, at: Loc, last: Comp, m: nat, n: nat, x: Loc)
    requires LeadsTo(t, [], Visible(above), m, at) && LeadsTo(t, at, [last], n, x)
    ensures LeadsTo(t, [], above + [last], m + n, x)
  {
    NameNeedsDirectory(t, at, last, n);
    WalkVisible(t, [], above, m);
    var left := Walk(t, [], above, m).value.1;
    WalkMoreLinks(t, [], above, m, n);
    WalkMoreLinks(t, at, [last], n, left);
    WalkConcat(t, [], above, [last], m + n);
  }

  lemma {:induction false} WalkBack(t: Tree, above: seq<Comp>, at: Loc, last: Comp, m: nat, n: nat, x: Loc)
    requires LeadsTo(t, [], Visible(above), m, at) && LeadsTo(t, [], above + [last], n, x)
    ensures LeadsTo(t, at, [last], n, x)
  {
    WalkConcat(t, [], above, [last], n);
    var left := Walk(t, [], above, n).value.1;
    WalkVisible(t, [], above, n);
    WalkDeterministic(t, [], Visible(above), n, m);
    LeftIsLess(t, [], above, n);
    WalkMoreLinks(t, at, [last], left, n - left);
  }

  lemma {:induction false} LeadsFromParent(fs: FileSystem, r: Loc, links: nat, x: Loc)
    requires fs.Valid() && r != [] && Canonical(fs.tree, Parent(r))
    ensures LeadsTo(fs.tree, [], Names(r), links, x) <==> LeadsTo(fs.tree, Parent(r), [Name(r[|r| - 1])], links, x)
  {
    OpenFromParent(fs, r, links);
  }

  lemma {:induction false} OpensForward(fs: FileSystem, above: seq<Comp>, r: Loc, x: Loc)
    requires fs.Valid() && IsAbove(fs, above, r) && fs.Open(AsPath(r)) == Some(x)
    ensures fs.Resolve(Path(true, above + [Name(r[|r| - 1])]), fs.realpathLinks + fs.statLinks) == Some(x)
  {
    var last := Name(r[|r| - 1]);
    ResolveLeadsTo(fs, Names(r), fs.statLinks, x);
    LeadsFromParent(fs, r, fs.statLinks, x);
    WalkForward(fs.tree, above, Parent(r), last, fs.realpathLinks, fs.statLinks, x);
    ResolveLeadsTo(fs, above + [last], fs.realpathLinks + fs.statLinks, x);
  }

  lemma {:induction false} OpensBack(fs: FileSystem, above: seq<Comp>, r: Loc, x: Loc)
    requires fs.Valid() && IsAbove(fs, above, r) && fs.Open(Path(true, above + [Name(r[|r| - 1])])) == Some(x)
    ensures fs.Open(AsPath(r)) == Some(x)
  {
    var last := Name(r[|r| - 1]);
    ResolveLeadsTo(fs, above + [last], fs.statLinks, x);
    WalkBack(fs.tree, above, Parent(r), last, fs.realpathLinks, fs.statLinks, x);
    LeadsFromParent(fs, r, fs.statLinks, x);
    ResolveLeadsTo(fs, Names(r), fs.statLinks, x);
  }

  // What the result opens, the stripped path reaches, given enough links.
  lemma {:induction false} ResultOpensStripped(fs: FileSystem, p: Path, r: Loc)
    requires fs.Valid() && p.absolute && MissingLeaf(fs, p) == Ok(r) && fs.Open(AsPath(r)).Some?
    ensures fs.Resolve(StrippedPath(p), fs.realpathLinks + fs.statLinks) == fs.Open(AsPath(r))
  {
    var above := LeafParent(fs, p, r);
    OpensForward(fs, above, r, fs.Open(AsPath(r)).value);
  }

  // What the stripped path opens, the result opens.
  lemma {:induction false} StrippedOpensResult(fs: FileSystem, p: Path, r: Loc)
    requires fs.Valid() && p.absolute && MissingLeaf(fs, p) == Ok(r) && fs.Open(StrippedPath(p)).Some?
    ensures fs.Open(AsPath(r)) == fs.Open(StrippedPath(p))
  {
    var above := LeafParent(fs, p, r);
    OpensBack(fs, above, r, fs.Open(StrippedPath(p)).value);
  }

  // The candidate ends in a slash or a dot.
  predicate TrailingDot(candidate: Path) {
    candidate.comps != [] && candidate.comps[|candidate.comps| - 1].Cur?
  }

  lemma {:induction false} StrippedIff(fs: FileSystem, root: Path, candidate: Path)
    requires fs.Canonicalize(root).Some?
    ensures Stripped(Joined(fs, root, candidate).comps) != Joined(fs, root, candidate).comps <==> TrailingDot(candidate)
  {
    var comps := Joined(fs, root, candidate).comps;
    var rootLoc := fs.Canonicalize(root).value;
    if candidate.comps == [] {
      assert comps == Names(rootLoc);
    } else {
      assert comps[|comps| - 1] == candidate.comps[|candidate.comps| - 1];
    }
  }

  // The candidate ends in a slash or a dot and, without it, opens a regular file
  // outside the root. A caller can see this before the call.
  ghost predicate NamesFileOutside(fs: FileSystem, root: Path, candidate: Path)
    requires fs.Canonicalize(root).Some?
  {
    var reached := fs.Open(StrippedPath(Joined(fs, root, candidate)));
    && TrailingDot(candidate)
    && reached.Some? && reached.value in fs.tree && fs.tree[reached.value].File?
    && !(fs.Canonicalize(root).value <= reached.value)
  }

  // The candidate runs out of link expansions, and so does not resolve, but its
  // last name alone, looked up in the canonical place of what comes before it,
  // opens outside the root.
  ghost predicate RunsOutOfLinks(fs: FileSystem, root: Path, candidate: Path)
    requires fs.Canonicalize(root).Some?
  {
    var joined := Joined(fs, root, candidate);
    && fs.Canonicalize(joined).None? && fs.Open(StrippedPath(joined)).None?
    && LastNamePath(fs, joined).Some?
    && LeadsOutside(fs, fs.Canonicalize(root).value, LastNamePath(fs, joined).value)
  }

  // The last name of a path in the canonical place of what comes before it.
  function LastNamePath(fs: FileSystem, p: Path): Option<Path> {
    var s := Stripped(p.comps);
    if s == [] then None
    else
      match fs.Canonicalize(Path(true, Visible(s[..|s| - 1])))
      case Some(parent) => Some(Path(true, Names(parent) + [s[|s| - 1]]))
      case None => None
  }

  // Without its trailing dots the candidate does not open, but it does lead outside
  // the root when more links are allowed.
  ghost predicate ReachesOutside(fs: FileSystem, root: Path, candidate: Path)
    requires fs.Canonicalize(root).Some?
  {
    var stripped := StrippedPath(Joined(fs, root, candidate));
    var reached := fs.Resolve(stripped, fs.realpathLinks + fs.statLinks);
    Exhausted(fs, stripped, fs.statLinks) && reached.Some? && !(fs.Canonicalize(root).value <= reached.value)
  }

  ghost predicate LeadsOutside(fs: FileSystem, rootLoc: Loc, p: Path) {
    fs.Open(p).Some? && !(rootLoc <= fs.Open(p).value)
  }

  // An accepted path leads outside the root exactly in these two cases.
  lemma {:induction false} EscapesIff(fs: FileSystem, root: Path, candidate: Path)
    requires fs.Valid() && NormalizeUnderRoot(fs, root, candidate).Ok?
    ensures !Confined(fs, fs.Canonicalize(root).value, NormalizeUnderRoot(fs, root, candidate).value)
            <==> NamesFileOutside(fs, root, candidate) || RunsOutOfLinks(fs, root, candidate)
    ensures RunsOutOfLinks(fs, root, candidate) ==> ReachesOutside(fs, root, candidate)
  {
    if NamesFileOutside(fs, root, candidate) {
      FileOutsideEscapes(fs, root, candidate);
    }
    if RunsOutOfLinks(fs, root, candidate) {
      OutOfLinksEscapes(fs, root, candidate);
    }
    if !Confined(fs, fs.Canonicalize(root).value, NormalizeUnderRoot(fs, root, candidate).value) {
      if fs.Open(StrippedPath(Joined(fs, root, candidate))).Some? {
        EscapeIsFileOutside(fs, root, candidate);
      } else {
        EscapeIsOutOfLinks(fs, root, candidate);
      }
    }
  }

  // The result's path is the canonical parent's, and the last name.
  lemma {:induction false} LeafPath(fs: FileSystem, p: Path, r: Loc)
    requires p.absolute && MissingLeaf(fs, p) == Ok(r)
    ensures LastNamePath(fs, p) == Some(AsPath(r))
  {
    LeafShape(fs, p, r);
    assert Names(r) == Names(Parent(r)) + [Name(r[|r| - 1])];
  }

  lemma {:induction false} OutOfLinksEscapes(fs: FileSystem, root: Path, candidate: Path)
    requires fs.Valid() && NormalizeUnderRoot(fs, root, candidate).Ok?
    requires RunsOutOfLinks(fs, root, candidate)
    ensures !Confined(fs, fs.Canonicalize(root).value, NormalizeUnderRoot(fs, root, candidate).value)
    ensures ReachesOutside(fs, root, candidate)
  {
    var joined, r := Joined(fs, root, candidate), NormalizeUnderRoot(fs, root, candidate).value;
    AcceptedByFallback(fs, root, candidate);
    LeafPath(fs, joined, r);
    ResultOpensStripped(fs, joined, r);
  }

  lemma {:induction false} EscapeIsOutOfLinks(fs: FileSystem, root: Path, candidate: Path)
    requires fs.Valid() && NormalizeUnderRoot(fs, root, candidate).Ok?
    requires fs.Open(StrippedPath(Joined(fs, root, candidate))).None?
    requires !Confined(fs, fs.Canonicalize(root).value, NormalizeUnderRoot(fs, root, candidate).value)
    ensures RunsOutOfLinks(fs, root, candidate)
  {
    AcceptedIsConfinedIff(fs, root, candidate);
    AcceptedByFallback(fs, root, candidate);
    LeafPath(fs, Joined(fs, root, candidate), NormalizeUnderRoot(fs, root, candidate).value);
  }

  // A target that does not resolve was accepted by the fallback.
  lemma {:induction false} AcceptedByFallback(fs: FileSystem, root: Path, candidate: Path)
    requires NormalizeUnderRoot(fs, root, candidate).Ok?
    requires fs.Canonicalize(Joined(fs, root, candidate)).None?
    ensures fs.Open(Joined(fs, root, candidate)).None?
    ensures MissingLeaf(fs, Joined(fs, root, candidate)) == NormalizeUnderRoot(fs, root, candidate)
  {
  }

  lemma {:induction false} FileOutsideEscapes(fs: FileSystem, root: Path, candidate: Path)
    requires fs.Valid() && NormalizeUnderRoot(fs, root, candidate).Ok?
    requires NamesFileOutside(fs, root, candidate)
    ensures !Confined(fs, fs.Canonicalize(root).value, NormalizeUnderRoot(fs, root, candidate).value)
  {
    var joined := Joined(fs, root, candidate);
    StrippedIff(fs, root, candidate);
    ResolveStripped(fs, joined, fs.Open(StrippedPath(joined)).value, fs.statLinks, fs.realpathLinks);
    AcceptedByFallback(fs, root, candidate);
    StrippedOpensResult(fs, joined, NormalizeUnderRoot(fs, root, candidate).value);
  }

  lemma {:induction false} EscapeIsFileOutside(fs: FileSystem, root: Path, candidate: Path)
    requires fs.Valid() && NormalizeUnderRoot(fs, root, candidate).Ok?
    requires !Exhausted(fs, StrippedPath(Joined(fs, root, candidate)), fs.statLinks)
    requires !Confined(fs, fs.Canonicalize(root).value, NormalizeUnderRoot(fs, root, candidate).value)
    ensures NamesFileOutside(fs, root, candidate)
  {
    var joined := Joined(fs, root, candidate);
    var stripped := StrippedPath(joined);
    AcceptedIsConfinedIff(fs, root, candidate);
    AcceptedByFallback(fs, root, candidate);
    ResultOpensStripped(fs, joined, NormalizeUnderRoot(fs, root, candidate).value);
    ResolveDeterministic(fs, stripped, fs.realpathLinks + fs.statLinks, fs.statLinks);
    ResolveReachesCanonical(fs, stripped, fs.statLinks);
    ResolveStripped(fs, joined, fs.Open(stripped).value, fs.statLinks, fs.statLinks);
    StrippedIff(fs, root, candidate);
  }

  // So a candidate that does not end in a slash or a dot is confined unless it
  // runs out of links.
  lemma {:induction false} PlainCandidateIsConfinedIff(fs: FileSystem, root: Path, candidate: Path)
    requires fs.Valid() && NormalizeUnderRoot(fs, root, candidate).Ok? && !TrailingDot(candidate)
    ensures Confined(fs, fs.Canonicalize(root).value, NormalizeUnderRoot(fs, root, candidate).value)
            <==> !RunsOutOfLinks(fs, root, candidate)
    ensures !Exhausted(fs, Joined(fs, root, candidate), fs.statLinks) ==> !RunsOutOfLinks(fs, root, candidate)
  {
    StrippedIff(fs, root, candidate);
    EscapesIff(fs, root, candidate);
  }

  // Both cases are real. The first: a link to a file outside, followed by a slash.
  lemma {:induction false} ResultMayOpenOutside() returns (fs: FileSystem, root: Path, candidate: Path)
    ensures fs.Valid() && fs.Canonicalize(root) == Some(["r"])
    ensures NormalizeUnderRoot(fs, root, candidate) == Ok(["r", "a"])
    ensures fs.Open(AsPath(["r", "a"])) == Some(["s"]) && !Confined(fs, ["r"], ["r", "a"])
  {
    var tree: Tree := map[[] := Dir, ["r"] := Dir, ["r", "a"] := Link(true, [Name("s")]), ["s"] := File([])];
    fs := FileSystem(tree, [], 8, 8);
    root := AsPath(["r"]);
    candidate := Path(false, [Name("a"), Cur]);
    TreeIsWellFormed(tree);
    LiteralPath(fs, ["r"], 8);
    var joined := Path(true, [Name("r"), Name("a"), Cur]);
    assert Names(["r"]) + candidate.comps == joined.comps;
    LinkLeadsOutside(tree);
    AcceptsLink(fs, joined);
    Fallback(fs, root, candidate, joined, ["r"], ["r", "a"]);
    assert !(["r"] <= ["s"]);
  }

  lemma {:induction false} Fallback(fs: FileSystem, root: Path, candidate: Path, joined: Path, rootLoc: Loc, r: Loc)
    requires fs.Canonicalize(root) == Some(rootLoc) && !candidate.absolute && rootLoc <= r
    requires joined == Path(true, Names(rootLoc) + candidate.comps)
    requires fs.Canonicalize(joined).None? && fs.Open(joined).None?
    requires MissingLeaf(fs, joined) == Ok(r)
    ensures NormalizeUnderRoot(fs, root, candidate) == Ok(r)
  {
  }

  lemma {:induction false} TreeIsWellFormed(tree: Tree)
    requires tree == map[[] := Dir, ["r"] := Dir, ["r", "a"] := Link(true, [Name("s")]), ["s"] := File([])]
    ensures WellFormed(tree) && Canonical(tree, ["r"]) && Canonical(tree, [])
    ensures ["r", "a"] in tree && tree[["r", "a"]] == Link(true, [Name("s")])
    ensures ["s"] in tree && tree[["s"]] == File([])
    ensures tree[["r"]] == Dir
  {
    assert "r"[0] == 'r' && "s"[0] == 's';
    assert ["r"][0] == "r" && ["s"][0] == "s" && |["r", "a"]| == 2;
    assert Parent(["r"]) == Parent(["s"]) == [] && Parent(["r", "a"]) == ["r"];
  }

  lemma {:induction false} AcceptsLink(fs: FileSystem, joined: Path)
    requires fs.Valid() && fs.realpathLinks == fs.statLinks == 8
    requires joined == Path(true, [Name("r"), Name("a"), Cur])
    requires fs.Canonicalize(AsPath(["r"])) == Some(["r"])
    requires Walk(fs.tree, [], [Name("r"), Name("a")], 8) == Some((["s"], 7))
    requires ["s"] in fs.tree && fs.tree[["s"]].File?
    ensures fs.Canonicalize(joined).None? && fs.Open(joined).None?
    ensures MissingLeaf(fs, joined) == Ok(["r", "a"]) && fs.Open(AsPath(["r", "a"])) == Some(["s"])
  {
    assert Stripped(joined.comps) == [Name("r"), Name("a")] by {
      assert joined.comps[..2] == [Name("r"), Name("a")];
    }
    ResolveStripped(fs, joined, ["s"], 8, 8);
    LeafIsLink(fs, joined);
    StrippedOpensResult(fs, joined, ["r", "a"]);
  }

  lemma {:induction false} LinkLeadsOutside(tree: Tree)
    requires [] in tree && tree[[]].Dir? && ["r"] in tree && tree[["r"]].Dir?
    requires ["r", "a"] in tree && tree[["r", "a"]] == Link(true, [Name("s")]) && ["s"] in tree && tree[["s"]].File?
    ensures Walk(tree, [], [Name("r"), Name("a")], 8) == Some((["s"], 7))
  {
    assert [] + ["r"] == ["r"] && ["r"] + ["a"] == ["r", "a"] && [] + ["s"] == ["s"];
    assert [Name("r"), Name("a")][1..] == [Name("a")] && [Name("a")][1..] == [];
    assert [Name("s")] + [] == [Name("s")] && [Name("s")][1..] == [];
    assert Walk(tree, [], [Name("s")], 7) == Some((["s"], 7));
    assert Walk(tree, ["r"], [Name("a")], 8) == Some((["s"], 7));
  }

  lemma {:induction false} LeafIsLink(fs: FileSystem, joined: Path)
    requires joined == Path(true, [Name("r"), Name("a"), Cur])
    requires fs.Canonicalize(AsPath(["r"])) == Some(["r"])
    ensures MissingLeaf(fs, joined) == Ok(["r", "a"])
  {
    var c := joined.comps;
    assert c[1..] == [Name("a"), Cur] && c[1..][1..] == [Cur] && [Cur][1..] == [];
    assert Visible([Cur]) == [];
    assert Visible(c[1..]) == [Name("a")];
    assert Visible(c) == [Name("r"), Name("a")];
    assert Visible(c)[..1] == Names(["r"]);
    assert ["r"] + ["a"] == ["r", "a"];
  }

  // The second, with no trailing dot: one link is allowed, `d` leads to the
  // directory `e` inside the root, and `a` in it leads outside.
  lemma {:induction false} PlainResultMayOpenOutside() returns (fs: FileSystem, root: Path, candidate: Path)
    ensures fs.Valid() && fs.Canonicalize(root) == Some(["r"]) && !TrailingDot(candidate)
    ensures NormalizeUnderRoot(fs, root, candidate) == Ok(["r", "e", "a"])
    ensures fs.Open(AsPath(["r", "e", "a"])) == Some(["s"]) && !Confined(fs, ["r"], ["r", "e", "a"])
  {
    var tree: Tree := map[
      [] := Dir, ["r"] := Dir, ["r", "d"] := Link(false, [Name("e")]), ["r", "e"] := Dir,
      ["r", "e", "a"] := Link(true, [Name("s")]), ["s"] := File([])];
    fs := FileSystem(tree, [], 1, 1);
    root := AsPath(["r"]);
    candidate := Path(false, [Name("d"), Name("a")]);
    LinksTree(tree);
    LiteralPath(fs, ["r"], 1);
    LinksWalks(tree);
    var joined := Path(true, [Name("r"), Name("d"), Name("a")]);
    assert Names(["r"]) + candidate.comps == joined.comps;
    LinksLeaf(fs);
    Fallback(fs, root, candidate, joined, ["r"], ["r", "e", "a"]);
    LinksOpen(fs);
    assert !(["r"] <= ["s"]);
  }

  lemma {:induction false} LinksOpen(fs: FileSystem)
    requires fs.Valid() && fs.statLinks == 1 && Canonical(fs.tree, ["r", "e"])
    requires Walk(fs.tree, ["r", "e"], [Name("a")], 1) == Some((["s"], 0))
    ensures fs.Open(AsPath(["r", "e", "a"])) == Some(["s"])
  {
    assert Parent(["r", "e", "a"]) == ["r", "e"];
    OpenFromParent(fs, ["r", "e", "a"], 1);
  }

  ghost predicate IsLinksTree(tree: Tree) {
    && [] in tree && tree[[]] == Dir && ["r"] in tree && tree[["r"]] == Dir
    && ["r", "d"] in tree && tree[["r", "d"]] == Link(false, [Name("e")])
    && ["r", "e"] in tree && tree[["r", "e"]] == Dir
    && ["r", "e", "a"] in tree && tree[["r", "e", "a"]] == Link(true, [Name("s")])
    && ["s"] in tree && tree[["s"]] == File([])
  }

  lemma {:induction false} LinksTree(tree: Tree)
    requires tree == map[
               [] := Dir, ["r"] := Dir, ["r", "d"] := Link(false, [Name("e")]), ["r", "e"] := Dir,
               ["r", "e", "a"] := Link(true, [Name("s")]), ["s"] := File([])]
    ensures IsLinksTree(tree) && WellFormed(tree)
  {
    assert "r"[0] == 'r' && "s"[0] == 's' && "d"[0] == 'd' && "e"[0] == 'e';
    assert ["r"][0] == "r" && ["s"][0] == "s" && ["r", "d"][1] == "d" && ["r", "e"][1] == "e";
    assert |["r", "d"]| == |["r", "e"]| == 2 && |["r", "e", "a"]| == 3;
    assert Parent(["r"]) == Parent(["s"]) == [] && Parent(["r", "d"]) == Parent(["r", "e"]) == ["r"];
    assert Parent(["r", "e", "a"]) == ["r", "e"];
  }

  // Following `d` uses the one link; `a` needs another.
  lemma {:induction false} LinksWalks(tree: Tree)
    requires IsLinksTree(tree)
    ensures Walk(tree, [], [Name("r"), Name("d")], 1) == Some((["r", "e"], 0))
    ensures Walk(tree, [], [Name("r"), Name("d"), Name("a")], 1) == None
    ensures Walk(tree, ["r", "e"], [Name("a")], 1) == Some((["s"], 0))
  {
    assert [] + ["r"] == ["r"] && ["r"] + ["d"] == ["r", "d"] && ["r"] + ["e"] == ["r", "e"];
    assert ["r", "e"] + ["a"] == ["r", "e", "a"] && [] + ["s"] == ["s"];
    assert [Name("r"), Name("d")][1..] == [Name("d")] && [Name("d")][1..] == [] && [Name("a")][1..] == [];
    assert [Name("e")] + [] == [Name("e")] && [Name("e")][1..] == [];
    assert [Name("s")] + [] == [Name("s")] && [Name("s")][1..] == [];
    assert Walk(tree, ["r"], [Name("e")], 0) == Some((["r", "e"], 0));
    assert Walk(tree, ["r"], [Name("d")], 1) == Some((["r", "e"], 0));
    assert Walk(tree, [], [Name("s")], 0) == Some((["s"], 0));
    assert [Name("r"), Name("d"), Name("a")] == [Name("r"), Name("d")] + [Name("a")];
    WalkConcat(tree, [], [Name("r"), Name("d")], [Name("a")], 1);
  }

  lemma {:induction false} LinksLeaf(fs: FileSystem)
    requires fs.Canonicalize(Path(true, [Name("r"), Name("d")])) == Some(["r", "e"])
    ensures MissingLeaf(fs, Path(true, [Name("r"), Name("d"), Name("a")])) == Ok(["r", "e", "a"])
  {
    var c := [Name("r"), Name("d"), Name("a")];
    assert c[1..] == [Name("d"), Name("a")] && c[1..][1..] == [Name("a")] && [Name("a")][1..] == [];
    assert Visible([Name("a")]) == [Name("a")] && Visible(c[1..]) == c[1..];
    assert Visible(c) == c && c[..2] == [Name("r"), Name("d")];
    assert ["r", "e"] + ["a"] == ["r", "e", "a"];
  }
}
