// File trees with symbolic links, and pathname resolution over them as in
// IEEE Std 1003.1-2017, Base Definitions, section 4.13, on component sequences.
module FileTree {
  import opened Prelude

  // A trailing slash, which asks for a directory, is written as a final `Cur`.
  datatype Comp = Cur | Up | Name(name: string)

  // A place in the tree: the names from the root down.
  type Loc = seq<string>

  datatype Node = File(content: seq<byte>) | Dir | Link(absolute: bool, target: seq<Comp>)

  type Tree = map<Loc, Node>

  ghost predicate WellFormed(t: Tree) {
    && [] in t && t[[]].Dir?
    && (forall l :: l in t && l != [] ==> Parent(l) in t && t[Parent(l)].Dir?)
  }

  function Parent(l: Loc): Loc {
    if l == [] then [] else l[..|l| - 1]
  }

  // Resolve `todo` from the directory `at`, expanding at most `links` symbolic
  // links: the place reached and the expansions left. None is any failure.
  function Walk(t: Tree, at: Loc, todo: seq<Comp>, links: nat): Option<(Loc, nat)>
    decreases links, |todo|
  {
    if todo == [] then Some((at, links))
    else if at !in t || !t[at].Dir? then None
    else
      match todo[0]
      case Cur => Walk(t, at, todo[1..], links)
      case Up => Walk(t, Parent(at), todo[1..], links)
      case Name(n) =>
        if at + [n] !in t then None
        else
          match t[at + [n]]
          case Link(absolute, target) =>
            if links == 0 || target == [] then None
            else Walk(t, if absolute then [] else at, target + todo[1..], links - 1)
          case _ => Walk(t, at + [n], todo[1..], links)
  }

  function Names(l: Loc): (r: seq<Comp>)
    ensures |r| == |l| && forall i :: 0 <= i < |l| ==> r[i] == Name(l[i])
  {
    seq(|l|, i requires 0 <= i < |l| => Name(l[i]))
  }

  // A place that a path without links denotes.
  ghost predicate Canonical(t: Tree, l: Loc) {
    l in t && !t[l].Link?
  }

  // Resolving a joined path is resolving its second part where the first leads.
  lemma {:induction false} WalkConcat(t: Tree, at: Loc, a: seq<Comp>, b: seq<Comp>, links: nat)
    ensures Walk(t, at, a + b, links) ==
              match Walk(t, at, a, links)
              case None => None
              case Some((m, left)) => Walk(t, m, b, left)
    decreases links, |a|
  {
    if a == [] {
      assert a + b == b;
    } else if at in t && t[at].Dir? {
      assert (a + b)[0] == a[0] && (a + b)[1..] == a[1..] + b;
      match a[0]
      case Cur => WalkConcat(t, at, a[1..], b, links);
      case Up => WalkConcat(t, Parent(at), a[1..], b, links);
      case Name(n) =>
        if at + [n] in t {
          match t[at + [n]]
          case Link(absolute, target) =>
            if links > 0 {
              assert target + (a + b)[1..] == (target + a[1..]) + b;
              WalkConcat(t, if absolute then [] else at, target + a[1..], b, links - 1);
            }
          case _ => WalkConcat(t, at + [n], a[1..], b, links);
        }
    }
  }

  // A larger link allowance never changes where a resolvable path leads.
  lemma {:induction false} WalkMoreLinks(t: Tree, at: Loc, todo: seq<Comp>, links: nat, extra: nat)
    requires Walk(t, at, todo, links).Some?
    ensures
      var (l, left) := Walk(t, at, todo, links).value;
      Walk(t, at, todo, links + extra) == Some((l, left + extra))
    decreases links, |todo|
  {
    if todo != [] {
      match todo[0]
      case Cur => WalkMoreLinks(t, at, todo[1..], links, extra);
      case Up => WalkMoreLinks(t, Parent(at), todo[1..], links, extra);
      case Name(n) =>
        match t[at + [n]]
        case Link(absolute, target) =>
          WalkMoreLinks(t, if absolute then [] else at, target + todo[1..], links - 1, extra);
        case _ => WalkMoreLinks(t, at + [n], todo[1..], links, extra);
    }
  }

  lemma {:induction false} WalkDeterministic(t: Tree, at: Loc, todo: seq<Comp>, m: nat, n: nat)
    requires Walk(t, at, todo, m).Some? && Walk(t, at, todo, n).Some?
    ensures Walk(t, at, todo, m).value.0 == Walk(t, at, todo, n).value.0
  {
    if m <= n {
      WalkMoreLinks(t, at, todo, m, n - m);
    } else {
      WalkMoreLinks(t, at, todo, n, m - n);
    }
  }

  // What resolution reaches exists and is not a link.
  lemma {:induction false} WalkReachesCanonical(t: Tree, at: Loc, todo: seq<Comp>, links: nat)
    requires WellFormed(t) && Canonical(t, at)
    requires Walk(t, at, todo, links).Some?
    ensures Canonical(t, Walk(t, at, todo, links).value.0)
    decreases links, |todo|
  {
    if todo != [] {
      match todo[0]
      case Cur => WalkReachesCanonical(t, at, todo[1..], links);
      case Up => WalkReachesCanonical(t, Parent(at), todo[1..], links);
      case Name(n) =>
        match t[at + [n]]
        case Link(absolute, target) =>
          WalkReachesCanonical(t, if absolute then [] else at, target + todo[1..], links - 1);
        case _ => WalkReachesCanonical(t, at + [n], todo[1..], links);
    }
  }

  // Everything above an existing place is a directory, hence not a link.
  lemma {:induction false} AncestorsAreDirs(t: Tree, l: Loc, k: nat)
    requires WellFormed(t) && l in t && k < |l|
    ensures l[..k] in t && t[l[..k]].Dir?
  {
    if k < |l| - 1 {
      AncestorsAreDirs(t, Parent(l), k);
      assert Parent(l)[..k] == l[..k];
    }
  }

  lemma {:induction false} WalkName(t: Tree, at: Loc, n: string, links: nat)
    requires Canonical(t, at) && t[at].Dir? && Canonical(t, at + [n])
    ensures Walk(t, at, [Name(n)], links) == Some((at + [n], links))
  {
    assert [Name(n)][1..] == [];
    assert Walk(t, at + [n], [], links) == Some((at + [n], links));
  }

  // A canonical place, spelled out name by name, resolves to itself, using no
  // link expansion at all.
  lemma {:induction false} WalkLiteral(t: Tree, l: Loc, links: nat)
    requires WellFormed(t) && Canonical(t, l)
    ensures Walk(t, [], Names(l), links) == Some((l, links))
  {
    if l != [] {
      var above, n := Parent(l), l[|l| - 1];
      assert l == above + [n];
      WalkLiteral(t, above, links);
      WalkName(t, above, n, links);
      WalkConcat(t, [], Names(above), [Name(n)], links);
      assert Names(l) == Names(above) + [Name(n)];
    }
  }

  // Spelling out a canonical place and going on is going on from there.
  lemma {:induction false} WalkFromCanonical(t: Tree, l: Loc, rest: seq<Comp>, links: nat)
    requires WellFormed(t) && Canonical(t, l)
    ensures Walk(t, [], Names(l) + rest, links) == Walk(t, l, rest, links)
  {
    WalkLiteral(t, l, links);
    WalkConcat(t, [], Names(l), rest, links);
  }

  // ----- The calls a program makes -----

  datatype Path = Path(absolute: bool, comps: seq<Comp>)

  // `realpath` and the other calls may count links differently.
  datatype FileSystem = FileSystem(tree: Tree, cwd: Loc, realpathLinks: nat, statLinks: nat) {
    ghost predicate Valid() {
      WellFormed(tree) && Canonical(tree, cwd)
    }

    function Start(p: Path): Loc {
      if p.absolute then [] else cwd
    }

    function Resolve(p: Path, links: nat): Option<Loc> {
      match Walk(tree, Start(p), p.comps, links)
      case None => None
      case Some((l, _)) => Some(l)
    }

    function Canonicalize(p: Path): Option<Loc> {
      Resolve(p, realpathLinks)
    }

    // What opening, testing or reading the path would reach.
    function Open(p: Path): Option<Loc> {
      Resolve(p, statLinks)
    }

    predicate Exists(p: Path) {
      Open(p).Some?
    }

    predicate IsFile(p: Path) {
      Open(p).Some? && Open(p).value in tree && tree[Open(p).value].File?
    }

    function Read(p: Path): Option<seq<byte>> {
      if IsFile(p) then Some(tree[Open(p).value].content) else None
    }
  }

  function AsPath(l: Loc): Path {
    Path(true, Names(l))
  }

  lemma {:induction false} LiteralPath(fs: FileSystem, l: Loc, links: nat)
    requires fs.Valid() && Canonical(fs.tree, l)
    ensures fs.Resolve(AsPath(l), links) == Some(l)
  {
    WalkLiteral(fs.tree, l, links);
  }

  lemma {:induction false} ResolveReachesCanonical(fs: FileSystem, p: Path, links: nat)
    requires fs.Valid() && fs.Resolve(p, links).Some?
    ensures Canonical(fs.tree, fs.Resolve(p, links).value)
  {
    WalkReachesCanonical(fs.tree, fs.Start(p), p.comps, links);
  }

  lemma {:induction false} ResolveDeterministic(fs: FileSystem, p: Path, m: nat, n: nat)
    requires fs.Resolve(p, m).Some? && fs.Resolve(p, n).Some?
    ensures fs.Resolve(p, m) == fs.Resolve(p, n)
  {
    WalkDeterministic(fs.tree, fs.Start(p), p.comps, m, n);
  }

  // Entering a directory by any path and then naming an entry reaches the same
  // node as naming the entry in the directory's canonical place.
  lemma {:induction false} SameNodeThroughCanonicalRoot(fs: FileSystem, root: Path, rest: seq<Comp>, m: nat, n: nat,
                                                        k: nat)
    requires fs.Valid()
    requires fs.Resolve(root, m).Some?
    requires fs.Resolve(Path(root.absolute, root.comps + rest), n).Some?
    ensures
      var canonical := Path(true, Names(fs.Resolve(root, m).value) + rest);
      && (fs.Resolve(canonical, k).Some? ==>
            fs.Resolve(canonical, k) == fs.Resolve(Path(root.absolute, root.comps + rest), n))
      && fs.Resolve(canonical, n).Some?
  {
    var start := fs.Start(root);
    WalkConcat(fs.tree, start, root.comps, rest, n);
    var (l, left) := Walk(fs.tree, start, root.comps, n).value;
    WalkDeterministic(fs.tree, start, root.comps, m, n);
    WalkReachesCanonical(fs.tree, start, root.comps, n);
    WalkFromCanonical(fs.tree, l, rest, k);
    WalkFromCanonical(fs.tree, l, rest, n);
    LeftIsLess(fs.tree, start, root.comps, n);
    WalkMoreLinks(fs.tree, l, rest, left, n - left);
    if Walk(fs.tree, l, rest, k).Some? {
      WalkDeterministic(fs.tree, l, rest, left, k);
    }
  }

  lemma {:induction false} LeftIsLess(t: Tree, at: Loc, todo: seq<Comp>, links: nat)
    requires Walk(t, at, todo, links).Some?
    ensures Walk(t, at, todo, links).value.1 <= links
    decreases links, |todo|
  {
    if todo != [] {
      match todo[0]
      case Cur => LeftIsLess(t, at, todo[1..], links);
      case Up => LeftIsLess(t, Parent(at), todo[1..], links);
      case Name(n) =>
        match t[at + [n]]
        case Link(absolute, target) => LeftIsLess(t, if absolute then [] else at, target + todo[1..], links - 1);
        case _ => LeftIsLess(t, at + [n], todo[1..], links);
    }
  }
}
