// The string operations the classifiers and parsers rely on.
module Text {

  predicate OccursAt(s: string, w: string, i: int) {
    0 <= i && i + |w| <= |s| && s[i..i + |w|] == w
  }

  predicate Contains(s: string, w: string) {
    exists i :: 0 <= i <= |s| && OccursAt(s, w, i)
  }

  predicate EndsWith(s: string, w: string) {
    OccursAt(s, w, |s| - |w|)
  }

  lemma {:induction false} ContainsMiddle(a: string, w: string, b: string)
    ensures Contains(a + w + b, w)
  {
    assert OccursAt(a + w + b, w, |a|);
  }

  // A text whose middle contains `w` contains `w`.
  lemma {:induction false} ContainsWithin(a: string, m: string, b: string, w: string)
    requires Contains(m, w)
    ensures Contains(a + m + b, w)
  {
    var i :| 0 <= i <= |m| && OccursAt(m, w, i);
    assert (a + m + b)[|a| + i..|a| + i + |w|] == m[i..i + |w|];
    assert OccursAt(a + m + b, w, |a| + i);
  }

  function LowerChar(c: char): char {
    if 'A' <= c <= 'Z' then c - 'A' + 'a' else c
  }

  function Lower(s: string): (r: string)
    ensures |r| == |s|
  {
    seq(|s|, i requires 0 <= i < |s| => LowerChar(s[i]))
  }

  // The case-insensitive test behind every "is this trap transient" decision.
  predicate MentionsTransient(s: string) {
    Contains(Lower(s), "transient")
  }

  lemma {:induction false} LowerKeepsLowerCase(s: string)
    requires forall i :: 0 <= i < |s| ==> !('A' <= s[i] <= 'Z')
    ensures Lower(s) == s
  {
  }

  lemma {:induction false} ContainsImpliesMentions(s: string)
    requires Contains(s, "transient")
    ensures MentionsTransient(s)
  {
    var w := "transient";
    var i :| 0 <= i <= |s| && OccursAt(s, w, i);
    LowerKeepsLowerCase(w);
    assert Lower(s)[i..i + |w|] == Lower(s[i..i + |w|]);
    assert OccursAt(Lower(s), w, i);
  }

  // Unicode White_Space, as used by trimming.
  predicate IsSpace(c: char) {
    || '\t' <= c <= '\r' || c == ' ' || c == '\U{85}' || c == '\U{A0}' || c == '\U{1680}'
    || '\U{2000}' <= c <= '\U{200A}' || c == '\U{2028}' || c == '\U{2029}'
    || c == '\U{202F}' || c == '\U{205F}' || c == '\U{3000}'
  }

  // How many characters to drop at the front, and to keep at the end.
  function LeadingSpaces(s: string, i: nat): (n: nat)
    requires i <= |s|
    ensures i <= n <= |s| && (n == |s| || !IsSpace(s[n]))
    decreases |s| - i
  {
    if i < |s| && IsSpace(s[i]) then LeadingSpaces(s, i + 1) else i
  }

  function WithoutTrailingSpaces(s: string, from: nat, i: nat): (n: nat)
    requires from <= i <= |s|
    ensures from <= n <= i && (n == from || !IsSpace(s[n - 1]))
  {
    if from < i && IsSpace(s[i - 1]) then WithoutTrailingSpaces(s, from, i - 1) else i
  }

  function Trim(s: string): (r: string)
    ensures r == [] || (!IsSpace(r[0]) && !IsSpace(r[|r| - 1]))
  {
    var from := LeadingSpaces(s, 0);
    s[from..WithoutTrailingSpaces(s, from, |s|)]
  }

  lemma {:induction false} TrimOfTrimmed(s: string)
    requires s == [] || (!IsSpace(s[0]) && !IsSpace(s[|s| - 1]))
    ensures Trim(s) == s
  {
    assert s[0..|s|] == s;
  }

  lemma {:induction false} TrimIdempotent(s: string)
    ensures Trim(Trim(s)) == Trim(s)
  {
    TrimOfTrimmed(Trim(s));
  }

  // Byte-wise order of strings, used to sort tool listings.
  predicate StrLe(a: string, b: string) {
    a == [] || (b != [] && (a[0] < b[0] || (a[0] == b[0] && StrLe(a[1..], b[1..]))))
  }

  lemma {:induction false} StrLeTotal(a: string, b: string)
    ensures StrLe(a, b) || StrLe(b, a)
  {
    if a != [] && b != [] {
      StrLeTotal(a[1..], b[1..]);
    }
  }

  lemma {:induction false} StrLeAntisymmetric(a: string, b: string)
    requires StrLe(a, b) && StrLe(b, a)
    ensures a == b
  {
    if a != [] && b != [] {
      StrLeAntisymmetric(a[1..], b[1..]);
      assert a == [a[0]] + a[1..] && b == [b[0]] + b[1..];
    }
  }

  lemma {:induction false} StrLeTransitive(a: string, b: string, c: string)
    requires StrLe(a, b) && StrLe(b, c)
    ensures StrLe(a, c)
  {
    if a != [] && a[0] == b[0] == c[0] {
      StrLeTransitive(a[1..], b[1..], c[1..]);
    }
  }
}
