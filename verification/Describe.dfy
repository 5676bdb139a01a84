// Secret requirements declared by a component: reading them out of the two
// descriptor shapes, and keeping the first of each (key, scope).
module Describe {
  import opened Prelude
  import opened Text
  import opened TextLaws
  import opened Json

  datatype Scope = Scope(env: string, tenant: string, team: Option<string>)

  datatype Format = TextFormat | JsonFormat | BytesFormat

  datatype Requirement = Requirement(
    key: string,
    required: bool,
    description: Option<string>,
    scope: Option<Scope>,
    format: Option<Format>,
    schema: Option<Value>,
    examples: seq<string>)

  datatype Maybe = Data(value: Value) | Unsupported

  // The libraries called: the secret key constructor, and the JSON printer.
  datatype Lib = Lib(newKey: string -> Option<string>, print_: Value -> string)

  const RUNTIME_SENTINEL := "runtime"

  // ----- One entry -----

  function RuntimeScope(): Scope {
    Scope(RUNTIME_SENTINEL, RUNTIME_SENTINEL, None)
  }

  function ParseScope(v: Option<Value>): Option<Scope> {
    match v
    case None => None
    case Some(o) =>
      if o.GetStr("env").None? || o.GetStr("tenant").None? then None
      else Some(Scope(o.GetStr("env").value, o.GetStr("tenant").value, o.GetStr("team")))
  }

  function ParseFormat(s: string): Option<Format> {
    var word := Lower(Trim(s));
    if word == "json" then Some(JsonFormat)
    else if word == "text" then Some(TextFormat)
    else if word == "opaque" then Some(BytesFormat)
    else if word == "binary" || word == "bytes" || word == "byte" || word == "bin" then Some(BytesFormat)
    else None
  }

  function ExampleText(lib: Lib, v: Value): string {
    match v case Str(s) => s case _ => lib.print_(v)
  }

  function Examples(lib: Lib, v: Option<seq<Value>>): seq<string> {
    match v
    case None => []
    case Some(items) => seq(|items|, i requires 0 <= i < |items| => ExampleText(lib, items[i]))
  }

  function OrElse<T>(a: Option<T>, b: Option<T>): Option<T> {
    if a.Some? then a else b
  }

  function ParseFields(lib: Lib, o: Value, key: string): Requirement {
    var optional := match o.GetBool("optional") case Some(b) => b case None => false;
    var required := match o.GetBool("required") case Some(b) => b case None => !optional;
    var scope := OrElse(OrElse(ParseScope(o.Get("scope")), ParseScope(Some(o))), Some(RuntimeScope()));
    var format := match o.GetStr("format")
                  case Some(f) => OrElse(ParseFormat(f), Some(TextFormat))
                  case None => Some(TextFormat);
    Requirement(key, required, o.GetStr("description"), scope, format, o.Get("schema"),
                Examples(lib, o.GetArr("examples")))
  }

  // A `key` that is not a text hides a `name` that is.
  function KeyText(o: Value): Option<string> {
    match OrElse(o.Get("key"), o.Get("name")) case Some(v) => v.AsStr() case None => None
  }

  function ParseRequirement(lib: Lib, v: Value): Option<Requirement> {
    match v
    case Str(s) =>
      (match lib.newKey(s)
       case None => None
       case Some(key) => Some(Requirement(key, true, None, Some(RuntimeScope()), Some(TextFormat), None, [])))
    case Obj(_) =>
      (match KeyText(v)
       case None => None
       case Some(raw) => match lib.newKey(raw) case None => None case Some(key) => Some(ParseFields(lib, v, key)))
    case _ => None
  }

  // A value that spells out a scope: an object with a text `env` and `tenant`.
  ghost predicate SpellsScope(v: Option<Value>, scope: Scope) {
    && v.Some? && v.value.GetStr("env") == Some(scope.env) && v.value.GetStr("tenant") == Some(scope.tenant)
    && v.value.GetStr("team") == scope.team
  }

  ghost predicate SpellsNoScope(v: Option<Value>) {
    v.None? || v.value.GetStr("env").None? || v.value.GetStr("tenant").None?
  }

  // What an object entry means: `required` wins over `optional`, a nested scope
  // over an inline one, and anything unreadable falls back to the defaults.
  lemma {:induction false} ObjectEntry(lib: Lib, v: Value, scope: Scope)
    requires v.Obj?
    ensures ParseRequirement(lib, v).Some? <==>
              exists raw :: (v.GetStr("key") == Some(raw) || (v.Get("key").None? && v.GetStr("name") == Some(raw)))
                            && lib.newKey(raw).Some?
    ensures ParseRequirement(lib, v).Some? ==>
              var r := ParseRequirement(lib, v).value;
              && (v.GetStr("key").Some? ==> lib.newKey(v.GetStr("key").value) == Some(r.key))
              && (r.required <==>
                    v.GetBool("required") == Some(true) ||
                    (v.GetBool("required").None? && v.GetBool("optional") != Some(true)))
              && (SpellsScope(v.Get("scope"), scope) ==> r.scope == Some(scope))
              && (SpellsNoScope(v.Get("scope")) && SpellsScope(Some(v), scope) ==> r.scope == Some(scope))
              && (SpellsNoScope(v.Get("scope")) && SpellsNoScope(Some(v)) ==>
                    r.scope == Some(Scope("runtime", "runtime", None)))
              && (v.Get("key").None? ==> lib.newKey(v.GetStr("name").value) == Some(r.key))
              && r.description == v.GetStr("description") && r.schema == v.Get("schema")
              && (v.GetStr("format").Some? && ParseFormat(v.GetStr("format").value).Some? ==>
                    r.format == ParseFormat(v.GetStr("format").value))
              && (v.GetStr("format").None? || ParseFormat(v.GetStr("format").value).None? ==>
                    r.format == Some(TextFormat))
  {
    if ParseRequirement(lib, v).Some? {
      var raw := KeyText(v).value;
      assert lib.newKey(raw).Some?;
    }
  }

  // The examples are the entries of an array, a text as it is, anything else printed.
  lemma {:induction false} EntryExamples(lib: Lib, v: Value)
    requires v.Obj? && ParseRequirement(lib, v).Some?
    ensures
      var r := ParseRequirement(lib, v).value;
      match v.Get("examples")
      case Some(Arr(items)) =>
        && |r.examples| == |items|
        && forall i :: 0 <= i < |items| ==>
             r.examples[i] == if items[i].Str? then items[i].s else lib.print_(items[i])
      case _ => r.examples == []
  {
  }

  lemma {:induction false} IsFormatWord(w: string)
    requires w in {"json", "text", "opaque", "binary", "bytes", "byte", "bin"}
    ensures w != "" && IsLowerCase(w) && !IsSpace(w[0]) && !IsSpace(w[|w| - 1])
  {
  }

  // The words for a format, in any case, between any white space.
  lemma {:induction false} FormatWords(s: string)
    ensures ParseFormat(s) == Some(JsonFormat) <==> IsWord(s, "json")
    ensures ParseFormat(s) == Some(TextFormat) <==> IsWord(s, "text")
    ensures ParseFormat(s) == Some(BytesFormat) <==>
              || IsWord(s, "opaque") || IsWord(s, "binary") || IsWord(s, "bytes") || IsWord(s, "byte")
              || IsWord(s, "bin")
  {
    forall w | w in {"json", "text", "opaque", "binary", "bytes", "byte", "bin"}
      ensures Lower(Trim(s)) == w <==> IsWord(s, w)
    {
      IsFormatWord(w);
      WordIff(s, w);
    }
    WordsDiffer();
  }

  lemma {:induction false} WordsDiffer()
    ensures "json" != "text" && "json" !in {"opaque", "binary", "bytes", "byte", "bin"}
    ensures "text" !in {"opaque", "binary", "bytes", "byte", "bin"}
  {
    assert "json"[0] == 'j' && "text"[0] == 't' && "opaque"[0] == 'o' && "binary"[0] == 'b' && "bytes"[0] == 'b';
    assert "byte"[0] == 'b' && "bin"[0] == 'b';
  }

  predicate IsComplete(r: Requirement) {
    r.scope.Some? && r.format.Some?
  }

  lemma {:induction false} ParsedIsComplete(lib: Lib, v: Value)
    ensures ParseRequirement(lib, v).Some? ==> IsComplete(ParseRequirement(lib, v).value)
  {
  }

  lemma {:induction false} StringIsKeyObject(lib: Lib, s: string)
    ensures ParseRequirement(lib, Obj(map["key" := Str(s)])) == ParseRequirement(lib, Str(s))
  {
    var o := Obj(map["key" := Str(s)]);
    assert |"key"| == 3 && "env"[0] == 'e' && "key"[0] == 'k';
    assert |"name"| == 4 && |"required"| == 8 && |"optional"| == 8 && |"scope"| == 5 && |"format"| == 6;
    assert |"description"| == 11 && |"schema"| == 6 && |"examples"| == 8;
    assert o.Get("required") == o.Get("optional") == o.Get("scope") == o.Get("format") == None;
    assert o.Get("env") == o.Get("description") == o.Get("schema") == o.Get("examples") == None;
  }

  // ----- The list of entries -----

  function ParseAll(lib: Lib, items: seq<Value>): (parsed: seq<Option<Requirement>>)
    ensures |parsed| == |items|
  {
    seq(|items|, i requires 0 <= i < |items| => ParseRequirement(lib, items[i]))
  }

  function Present(parsed: seq<Option<Requirement>>): seq<Requirement> {
    if parsed == [] then []
    else
      var before := Present(parsed[..|parsed| - 1]);
      match parsed[|parsed| - 1] case Some(r) => before + [r] case None => before
  }

  // The entries of a descriptor: the array itself, or the one under a known key.
  function Entries(v: Value): seq<Value> {
    match v
    case Arr(items) => items
    case _ =>
      match OrElse(v.GetArr("secret_requirements"), v.GetArr("secrets"))
      case Some(items) => items
      case None => []
  }

  // An array's entries are its items; an object's are those of the array under
  // `secret_requirements`, or else under `secrets`; nothing else has any.
  lemma {:induction false} EntriesAre(v: Value)
    ensures v.Arr? ==> Entries(v) == v.items
    ensures v.GetArr("secret_requirements").Some? ==> Some(Entries(v)) == v.GetArr("secret_requirements")
    ensures v.GetArr("secret_requirements").None? && v.GetArr("secrets").Some? ==>
              Some(Entries(v)) == v.GetArr("secrets")
    ensures !v.Arr? && v.GetArr("secret_requirements").None? && v.GetArr("secrets").None? ==> Entries(v) == []
  {
  }

  function NormalizeRequirements(lib: Lib, v: Value): seq<Requirement> {
    Present(ParseAll(lib, Entries(v)))
  }

  // ----- Keeping the first of each identity -----

  type Identity = (string, Option<Scope>)

  function IdentityOf(r: Requirement): Identity {
    (r.key, r.scope)
  }

  function Identities(rs: seq<Requirement>): set<Identity> {
    if rs == [] then {} else Identities(rs[..|rs| - 1]) + {IdentityOf(rs[|rs| - 1])}
  }

  predicate Distinct(rs: seq<Requirement>) {
    forall i, j :: 0 <= i < j < |rs| ==> IdentityOf(rs[i]) != IdentityOf(rs[j])
  }

  lemma {:induction false} IdentitiesSnoc(rs: seq<Requirement>, r: Requirement)
    ensures Identities(rs + [r]) == Identities(rs) + {IdentityOf(r)}
  {
    assert (rs + [r])[..|rs|] == rs;
  }

  lemma {:induction false} IdentitiesHas(rs: seq<Requirement>, i: nat)
    requires i < |rs|
    ensures IdentityOf(rs[i]) in Identities(rs)
  {
    if i < |rs| - 1 {
      IdentitiesHas(rs[..|rs| - 1], i);
    }
  }

  lemma {:induction false} IdentitiesFrom(rs: seq<Requirement>, id: Identity) returns (i: nat)
    requires id in Identities(rs)
    ensures i < |rs| && IdentityOf(rs[i]) == id
  {
    i := |rs| - 1;
    if IdentityOf(rs[i]) != id {
      i := IdentitiesFrom(rs[..i], id);
    }
  }

  // Two requirements are the same if their keys are and their scopes are.
  lemma {:induction false} IdentityIs(a: Requirement, b: Requirement)
    ensures IdentityOf(a) == IdentityOf(b) <==> a.key == b.key && a.scope == b.scope
  {
  }

  // The requirements whose identity is not among `ids`, in order.
  function Without(rs: seq<Requirement>, ids: set<Identity>): seq<Requirement> {
    if rs == [] then []
    else
      var before := Without(rs[..|rs| - 1], ids);
      if IdentityOf(rs[|rs| - 1]) in ids then before else before + [rs[|rs| - 1]]
  }

  function Deduped(rs: seq<Requirement>): seq<Requirement> {
    if rs == [] then []
    else
      var init := rs[..|rs| - 1];
      var last := rs[|rs| - 1];
      if IdentityOf(last) in Identities(init) then Deduped(init) else Deduped(init) + [last]
  }

  method Dedup(rs: seq<Requirement>) returns (out: seq<Requirement>)
    ensures out == Deduped(rs)
  {
    var seen: set<Identity> := {};
    out := [];
    for k := 0 to |rs|
      invariant seen == Identities(rs[..k])
      invariant out == Deduped(rs[..k])
    {
      assert rs[..k + 1][..k] == rs[..k];
      var id := IdentityOf(rs[k]);
      if id !in seen {
        out := out + [rs[k]];
      }
      seen := seen + {id};
    }
    assert rs[..|rs|] == rs;
  }

  lemma {:induction false} DedupedSnoc(rs: seq<Requirement>, r: Requirement)
    ensures Deduped(rs + [r]) == if IdentityOf(r) in Identities(rs) then Deduped(rs) else Deduped(rs) + [r]
  {
    assert (rs + [r])[..|rs|] == rs;
  }

  // Nothing is lost,
  lemma {:induction false} DedupedKeepsIdentities(rs: seq<Requirement>)
    ensures Identities(Deduped(rs)) == Identities(rs)
  {
    if rs != [] {
      var init := rs[..|rs| - 1];
      DedupedKeepsIdentities(init);
      IdentitiesSnoc(Deduped(init), rs[|rs| - 1]);
    }
  }

  // and no identity appears twice.
  lemma {:induction false} DedupedIsDistinct(rs: seq<Requirement>)
    ensures Distinct(Deduped(rs))
  {
    if rs != [] {
      var init := rs[..|rs| - 1];
      var last := rs[|rs| - 1];
      DedupedIsDistinct(init);
      DedupedKeepsIdentities(init);
      if IdentityOf(last) !in Identities(init) {
        SnocKeepsDistinct(Deduped(init), last);
      }
    }
  }

  lemma {:induction false} SnocKeepsDistinct(rs: seq<Requirement>, r: Requirement)
    requires Distinct(rs) && IdentityOf(r) !in Identities(rs)
    ensures Distinct(rs + [r])
  {
    forall i | 0 <= i < |rs|
      ensures IdentityOf(rs[i]) != IdentityOf(r)
    {
      IdentitiesHas(rs, i);
    }
  }

  lemma {:induction false} LastIsNew(rs: seq<Requirement>, r: Requirement)
    requires Distinct(rs + [r])
    ensures Distinct(rs) && IdentityOf(r) !in Identities(rs)
  {
    var all := rs + [r];
    assert forall i :: 0 <= i < |rs| ==> IdentityOf(all[i]) != IdentityOf(all[|rs|]);
    assert forall i :: 0 <= i < |rs| ==> all[i] == rs[i];
    if IdentityOf(r) in Identities(rs) {
      var i := IdentitiesFrom(rs, IdentityOf(r));
      assert false;
    }
  }

  lemma {:induction false} DistinctIsKept(rs: seq<Requirement>)
    requires Distinct(rs)
    ensures Deduped(rs) == rs
  {
    if rs != [] {
      var init, last := rs[..|rs| - 1], rs[|rs| - 1];
      assert rs == init + [last];
      LastIsNew(init, last);
      DistinctIsKept(init);
      DedupedSnoc(init, last);
    }
  }

  lemma {:induction false} DedupIdempotent(rs: seq<Requirement>)
    ensures Deduped(Deduped(rs)) == Deduped(rs)
  {
    DedupedIsDistinct(rs);
    DistinctIsKept(Deduped(rs));
  }

  lemma {:induction false} IdentitiesConcat(a: seq<Requirement>, b: seq<Requirement>)
    ensures Identities(a + b) == Identities(a) + Identities(b)
  {
    if b == [] {
      assert a + b == a;
    } else {
      var init := b[..|b| - 1];
      IdentitiesConcat(a, init);
      assert a + b == (a + init) + [b[|b| - 1]];
      IdentitiesSnoc(a + init, b[|b| - 1]);
    }
  }

  lemma {:induction false} WithoutSnoc(rs: seq<Requirement>, r: Requirement, ids: set<Identity>)
    ensures Without(rs + [r], ids) == if IdentityOf(r) in ids then Without(rs, ids) else Without(rs, ids) + [r]
  {
    assert (rs + [r])[..|rs|] == rs;
  }

  lemma {:induction false} DedupConcatSnoc(a: seq<Requirement>, b: seq<Requirement>, r: Requirement)
    requires Deduped(a + b) == Deduped(a) + Without(Deduped(b), Identities(a))
    ensures Deduped((a + b) + [r]) == Deduped(a) + Without(Deduped(b + [r]), Identities(a))
  {
    var kept := Without(Deduped(b), Identities(a));
    assert (Deduped(a) + kept) + [r] == Deduped(a) + (kept + [r]);
    IdentitiesConcat(a, b);
    DedupedSnoc(a + b, r);
    DedupedSnoc(b, r);
    if IdentityOf(r) !in Identities(b) {
      WithoutSnoc(Deduped(b), r, Identities(a));
    }
  }

  lemma {:induction false} SplitLast(a: seq<Requirement>, b: seq<Requirement>)
    requires b != []
    ensures b[..|b| - 1] + [b[|b| - 1]] == b
    ensures (a + b[..|b| - 1]) + [b[|b| - 1]] == a + b
  {
  }

  // Deduplicating a longer list only appends what is new.
  lemma {:induction false} DedupConcat(a: seq<Requirement>, b: seq<Requirement>)
    ensures Deduped(a + b) == Deduped(a) + Without(Deduped(b), Identities(a))
    decreases |b|
  {
    if b == [] {
      assert a + b == a;
      assert Deduped(b) == [];
    } else {
      DedupConcat(a, b[..|b| - 1]);
      DedupConcatSnoc(a, b[..|b| - 1], b[|b| - 1]);
      SplitLast(a, b);
    }
  }

  // ----- The whole reading, entry by entry -----

  predicate HasIdentity(entry: Option<Requirement>, id: Identity) {
    entry.Some? && IdentityOf(entry.value) == id
  }

  // `out` holds, in order, the readable entries at positions `ps`, which are
  // the first of their identity; and every readable entry's identity is there.
  ghost predicate AreFirstEntries(parsed: seq<Option<Requirement>>, out: seq<Requirement>, ps: seq<nat>) {
    && |ps| == |out|
    && Increasing(ps)
    && (forall k :: 0 <= k < |ps| ==> IsFirstEntry(parsed, out[k], ps[k]))
    && (forall i :: 0 <= i < |parsed| && parsed[i].Some? ==> IdentityOf(parsed[i].value) in Identities(out))
  }

  ghost predicate IsFirstEntry(parsed: seq<Option<Requirement>>, r: Requirement, p: nat) {
    p < |parsed| && parsed[p] == Some(r) && forall j :: 0 <= j < p ==> !HasIdentity(parsed[j], IdentityOf(r))
  }

  predicate Increasing(ps: seq<nat>) {
    forall k, l :: 0 <= k < l < |ps| ==> ps[k] < ps[l]
  }

  // One more entry at the end.
  lemma {:induction false} FirstEntriesSnoc(parsed: seq<Option<Requirement>>, e: Option<Requirement>,
                                            out: seq<Requirement>, ps: seq<nat>)
    requires AreFirstEntries(parsed, out, ps)
    ensures e.None? || IdentityOf(e.value) in Identities(out) ==> AreFirstEntries(parsed + [e], out, ps)
    ensures e.Some? && IdentityOf(e.value) !in Identities(out) ==>
              AreFirstEntries(parsed + [e], out + [e.value], ps + [|parsed|])
  {
    if e.Some? {
      IdentitiesSnoc(out, e.value);
    }
  }

  lemma {:induction false} DedupedAreFirstEntries(parsed: seq<Option<Requirement>>) returns (ps: seq<nat>)
    ensures AreFirstEntries(parsed, Deduped(Present(parsed)), ps)
  {
    if parsed == [] {
      return [];
    }
    var n := |parsed| - 1;
    var rs := Present(parsed[..n]);
    ps := DedupedAreFirstEntries(parsed[..n]);
    FirstEntriesSnoc(parsed[..n], parsed[n], Deduped(rs), ps);
    assert parsed == parsed[..n] + [parsed[n]];
    DedupedKeepsIdentities(rs);
    if parsed[n].Some? {
      DedupedSnoc(rs, parsed[n].value);
      if IdentityOf(parsed[n].value) !in Identities(rs) {
        ps := ps + [n];
      }
    }
  }

  // First positions are the same in any two such readings.
  lemma {:induction false} FirstEntriesAgree(parsed: seq<Option<Requirement>>, a: seq<Requirement>, pa: seq<nat>,
                                             b: seq<Requirement>, pb: seq<nat>)
    requires AreFirstEntries(parsed, a, pa) && AreFirstEntries(parsed, b, pb)
    ensures forall k :: 0 <= k < |pa| ==> pa[k] in pb
  {
    forall k | 0 <= k < |pa|
      ensures pa[k] in pb
    {
      var id := IdentityOf(a[k]);
      assert IsFirstEntry(parsed, a[k], pa[k]);
      var l := IdentitiesFrom(b, id);
      assert IsFirstEntry(parsed, b[l], pb[l]);
      assert HasIdentity(parsed[pa[k]], id) && HasIdentity(parsed[pb[l]], id);
    }
  }

  lemma {:induction false} LastIsLargest(p: seq<nat>, x: nat)
    requires Increasing(p) && x in p
    ensures x <= p[|p| - 1] && (x != p[|p| - 1] ==> x in p[..|p| - 1])
  {
    var k :| 0 <= k < |p| && p[k] == x;
    if k < |p| - 1 {
      assert p[..|p| - 1][k] == x;
    }
  }

  lemma {:induction false} IncreasingAreEqual(p: seq<nat>, q: seq<nat>)
    requires Increasing(p) && Increasing(q)
    requires forall x :: x in p <==> x in q
    ensures p == q
  {
    assert p == [] <==> q == [] by {
      assert p != [] ==> p[0] in p;
      assert q != [] ==> q[0] in q;
    }
    if p != [] {
      var m, n := |p| - 1, |q| - 1;
      assert p[m] in q && q[n] in p;
      LastIsLargest(p, q[n]);
      LastIsLargest(q, p[m]);
      forall x
        ensures x in p[..m] <==> x in q[..n]
      {
        if x in p[..m] {
          LastIsLargest(q, x);
        }
        if x in q[..n] {
          LastIsLargest(p, x);
        }
      }
      IncreasingAreEqual(p[..m], q[..n]);
      assert p == p[..m] + [p[m]] && q == q[..n] + [q[n]];
    }
  }

  // There is only one list of first entries.
  lemma {:induction false} FirstEntriesAreUnique(parsed: seq<Option<Requirement>>, a: seq<Requirement>, pa: seq<nat>,
                                                 b: seq<Requirement>, pb: seq<nat>)
    requires AreFirstEntries(parsed, a, pa) && AreFirstEntries(parsed, b, pb)
    ensures a == b
  {
    FirstEntriesAgree(parsed, a, pa, b, pb);
    FirstEntriesAgree(parsed, b, pb, a, pa);
    IncreasingAreEqual(pa, pb);
    assert forall k :: 0 <= k < |a| ==> IsFirstEntry(parsed, a[k], pa[k]) && IsFirstEntry(parsed, b[k], pb[k]);
  }

  // The descriptor read: the component's own document, else the legacy list.
  ghost function Chosen(describeV1: Option<Value>, secrets: Maybe): Option<Value> {
    if describeV1.Some? && describeV1.value.Get("secret_requirements").Some?
    then describeV1.value.Get("secret_requirements")
    else match secrets case Data(v) => Some(v) case Unsupported => None
  }

  method SecretRequirements(lib: Lib, describeV1: Option<Value>, secrets: Maybe)
    returns (requirements: seq<Requirement>, legacy: bool)
    ensures legacy <==> secrets.Data? && (describeV1.None? || describeV1.value.Get("secret_requirements").None?)
    ensures match Chosen(describeV1, secrets)
            case None => requirements == []
            case Some(v) => requirements == Deduped(NormalizeRequirements(lib, v))
    ensures match Chosen(describeV1, secrets)
            case None => true
            case Some(v) => exists ps :: AreFirstEntries(ParseAll(lib, Entries(v)), requirements, ps)
    ensures forall i :: 0 <= i < |requirements| ==> IsComplete(requirements[i])
    ensures Distinct(requirements)
  {
    var doc := match describeV1 case Some(d) => d.Get("secret_requirements") case None => None;
    if doc.Some? {
      requirements := FromDescriptor(lib, doc.value);
      return requirements, false;
    }
    if secrets.Data? {
      requirements := FromDescriptor(lib, secrets.value);
      return requirements, true;
    }
    return [], false;
  }

  method FromDescriptor(lib: Lib, v: Value) returns (requirements: seq<Requirement>)
    ensures requirements == Deduped(NormalizeRequirements(lib, v))
    ensures exists ps :: AreFirstEntries(ParseAll(lib, Entries(v)), requirements, ps)
    ensures forall i :: 0 <= i < |requirements| ==> IsComplete(requirements[i])
    ensures Distinct(requirements)
  {
    var normalized := NormalizeRequirements(lib, v);
    requirements := Dedup(normalized);
    ghost var parsed := ParseAll(lib, Entries(v));
    ghost var ps := DedupedAreFirstEntries(parsed);
    DedupedIsDistinct(normalized);
    forall i | 0 <= i < |requirements|
      ensures IsComplete(requirements[i])
    {
      assert IsFirstEntry(parsed, requirements[i], ps[i]);
      ParsedIsComplete(lib, Entries(v)[ps[i]]);
    }
  }

  // ----- Equivalent descriptors -----

  // A text entry stands for the object with just that key.
  lemma {:induction false} StringEntryIsKeyObject(lib: Lib, items: seq<Value>, i: nat)
    requires i < |items| && items[i].Str?
    ensures NormalizeRequirements(lib, Arr(items[i := Obj(map["key" := items[i]])])) ==
            NormalizeRequirements(lib, Arr(items))
  {
    StringIsKeyObject(lib, items[i].s);
    var changed := items[i := Obj(map["key" := items[i]])];
    assert ParseAll(lib, changed) == ParseAll(lib, items);
  }

  // The array may stand alone or under either key; the first key wins when both
  // hold arrays.
  lemma {:induction false} WrappingChangesNothing(lib: Lib, items: seq<Value>, fields: map<string, Value>)
    requires Obj(fields).GetArr("secret_requirements") == Some(items)
             || (Obj(fields).GetArr("secret_requirements").None? && Obj(fields).GetArr("secrets") == Some(items))
    ensures NormalizeRequirements(lib, Obj(fields)) == NormalizeRequirements(lib, Arr(items))
  {
  }
}
