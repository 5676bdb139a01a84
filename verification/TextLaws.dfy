// What the string operations compute, in terms of the characters alone.
module TextLaws {
  import opened Text

  lemma {:induction false} ContainsIff(s: string, w: string)
    ensures Contains(s, w) <==> exists a, b :: s == a + w + b
  {
    if Contains(s, w) {
      var i :| 0 <= i <= |s| && OccursAt(s, w, i);
      assert s == s[..i] + w + s[i + |w|..];
    }
    if exists a, b :: s == a + w + b {
      var a, b :| s == a + w + b;
      ContainsMiddle(a, w, b);
    }
  }

  lemma {:induction false} EndsWithIff(s: string, w: string)
    ensures EndsWith(s, w) <==> exists a :: s == a + w
  {
    if EndsWith(s, w) {
      assert s == s[..|s| - |w|] + w;
    }
  }

  // ----- Letter case -----

  // `s` is the lower-case word `w`, but for the case of its ASCII letters.
  predicate Alike(s: string, w: string) {
    && |s| == |w|
    && forall i :: 0 <= i < |s| ==> s[i] == w[i] || ('A' <= s[i] <= 'Z' && w[i] as int == s[i] as int + 32)
  }

  predicate IsLowerCase(w: string) {
    forall i :: 0 <= i < |w| ==> !('A' <= w[i] <= 'Z')
  }

  lemma {:induction false} LowerIff(s: string, w: string)
    requires IsLowerCase(w)
    ensures Lower(s) == w <==> Alike(s, w)
  {
    if Lower(s) == w {
      forall i | 0 <= i < |s|
        ensures s[i] == w[i] || ('A' <= s[i] <= 'Z' && w[i] as int == s[i] as int + 32)
      {
        assert Lower(s)[i] == w[i];
      }
    }
  }

  // A stretch of the text is the word, but for case.
  ghost predicate HasWord(s: string, w: string) {
    exists i :: AlikeAt(s, w, i)
  }

  predicate AlikeAt(s: string, w: string, i: int) {
    0 <= i && i + |w| <= |s| && Alike(s[i..i + |w|], w)
  }

  lemma {:induction false} LowerAt(s: string, w: string, i: nat)
    requires IsLowerCase(w) && i + |w| <= |s|
    ensures OccursAt(Lower(s), w, i) <==> AlikeAt(s, w, i)
  {
    LowerIff(s[i..i + |w|], w);
    assert Lower(s[i..i + |w|]) == Lower(s)[i..i + |w|];
  }

  lemma {:induction false} ContainsLowerIff(s: string, w: string)
    requires IsLowerCase(w)
    ensures Contains(Lower(s), w) <==> HasWord(s, w)
  {
    if i :| 0 <= i <= |Lower(s)| && OccursAt(Lower(s), w, i) {
      LowerAt(s, w, i);
    }
    if i :| AlikeAt(s, w, i) {
      LowerAt(s, w, i);
    }
  }

  // Whatever the case: some stretch of the text is the word "transient".
  lemma {:induction false} MentionsIff(s: string)
    ensures MentionsTransient(s) <==> HasWord(s, "transient")
  {
    ContainsLowerIff(s, "transient");
  }

  // ----- White space -----

  lemma {:induction false} AsciiSpaces(c: char)
    requires c as int < 128
    ensures IsSpace(c) <==> c in {' ', '\t', '\n', '\U{B}', '\U{C}', '\r'}
  {
  }

  predicate Blank(s: string) {
    forall i :: 0 <= i < |s| ==> IsSpace(s[i])
  }

  lemma {:induction false} LeadingAreSpaces(s: string, i: nat)
    requires i <= |s|
    ensures Blank(s[i..LeadingSpaces(s, i)])
    decreases |s| - i
  {
    if i < |s| && IsSpace(s[i]) {
      LeadingAreSpaces(s, i + 1);
      var n := LeadingSpaces(s, i);
      assert s[i..n] == [s[i]] + s[i + 1..n];
    }
  }

  lemma {:induction false} TrailingAreSpaces(s: string, from: nat, i: nat)
    requires from <= i <= |s|
    ensures Blank(s[WithoutTrailingSpaces(s, from, i)..i])
  {
    if from < i && IsSpace(s[i - 1]) {
      TrailingAreSpaces(s, from, i - 1);
      var n := WithoutTrailingSpaces(s, from, i);
      assert s[n..i] == s[n..i - 1] + [s[i - 1]];
    }
  }

  // Trimming takes away white space at both ends and nothing else.
  lemma {:induction false} TrimSplits(s: string) returns (a: string, b: string)
    ensures s == a + Trim(s) + b && Blank(a) && Blank(b)
  {
    var from := LeadingSpaces(s, 0);
    var to := WithoutTrailingSpaces(s, from, |s|);
    a, b := s[..from], s[to..];
    LeadingAreSpaces(s, 0);
    TrailingAreSpaces(s, from, |s|);
    assert s[0..from] == a && s[to..|s|] == b;
    assert s == a + s[from..to] + b;
  }

  // `from` and `to` enclose everything that is not white space at the ends.
  predicate Encloses(s: string, from: nat, to: nat) {
    && from < to <= |s| && !IsSpace(s[from]) && !IsSpace(s[to - 1])
    && (forall i :: 0 <= i < from ==> IsSpace(s[i])) && (forall i :: to <= i < |s| ==> IsSpace(s[i]))
  }

  lemma {:induction false} EnclosureIsUnique(s: string, from: nat, to: nat, from': nat, to': nat)
    requires Encloses(s, from, to) && Encloses(s, from', to')
    ensures from == from' && to == to'
  {
  }

  lemma {:induction false} SplitEncloses(a: string, x: string, b: string)
    requires Blank(a) && Blank(b) && x != [] && !IsSpace(x[0]) && !IsSpace(x[|x| - 1])
    ensures Encloses(a + x + b, |a|, |a| + |x|)
  {
    var s := a + x + b;
    assert s[|a|] == x[0] && s[|a| + |x| - 1] == x[|x| - 1];
    assert forall i :: 0 <= i < |a| ==> s[i] == a[i];
    assert forall i :: |a| + |x| <= i < |s| ==> s[i] == b[i - |a| - |x|];
  }

  lemma {:induction false} TrimIs(a: string, x: string, b: string)
    requires Blank(a) && Blank(b) && x != [] && !IsSpace(x[0]) && !IsSpace(x[|x| - 1])
    ensures Trim(a + x + b) == x
  {
    var s := a + x + b;
    SplitEncloses(a, x, b);
    NotBlankIff(s);
    assert !IsSpace(s[|a|]);
    var c, d := TrimSplits(s);
    SplitEncloses(c, Trim(s), d);
    EnclosureIsUnique(s, |a|, |a| + |x|, |c|, |c| + |Trim(s)|);
    MiddleOf(a, x, b);
    MiddleOf(c, Trim(s), d);
  }

  lemma {:induction false} MiddleOf(a: string, x: string, b: string)
    ensures (a + x + b)[|a|..|a| + |x|] == x
  {
  }

  lemma {:induction false} NotBlankIff(s: string)
    ensures Trim(s) != "" <==> !Blank(s)
  {
    var a, b := TrimSplits(s);
    if Trim(s) != "" {
      assert s[|a|] == Trim(s)[0];
    }
  }

  // ----- Words -----

  // The text is the word, in any case, between any white space.
  ghost predicate IsWord(s: string, w: string) {
    exists a, x, b :: s == a + x + b && Blank(a) && Blank(b) && Alike(x, w)
  }

  lemma {:induction false} WordTrims(a: string, x: string, b: string, w: string)
    requires Blank(a) && Blank(b) && Alike(x, w)
    requires w != "" && IsLowerCase(w) && !IsSpace(w[0]) && !IsSpace(w[|w| - 1])
    ensures Lower(Trim(a + x + b)) == w
  {
    TrimIs(a, x, b);
    LowerIff(x, w);
  }

  lemma {:induction false} WordIff(s: string, w: string)
    requires w != "" && IsLowerCase(w) && !IsSpace(w[0]) && !IsSpace(w[|w| - 1])
    ensures Lower(Trim(s)) == w <==> IsWord(s, w)
  {
    if IsWord(s, w) {
      var a, x, b :| s == a + x + b && Blank(a) && Blank(b) && Alike(x, w);
      WordTrims(a, x, b, w);
    } else if Lower(Trim(s)) == w {
      var a, b := TrimSplits(s);
      LowerIff(Trim(s), w);
    }
  }

  // A text is not two words.
  lemma {:induction false} WordIsUnique(s: string, v: string, w: string)
    requires v != "" && IsLowerCase(v) && !IsSpace(v[0]) && !IsSpace(v[|v| - 1])
    requires w != "" && IsLowerCase(w) && !IsSpace(w[0]) && !IsSpace(w[|w| - 1])
    requires IsWord(s, v) && IsWord(s, w)
    ensures v == w
  {
    WordIff(s, v);
    WordIff(s, w);
  }

  // ----- Order -----

  // `i` is the first place where the texts differ, and `a` has the smaller character.
  predicate SmallerAt(a: string, b: string, i: nat) {
    i < |a| && i < |b| && a[..i] == b[..i] && a[i] < b[i]
  }

  lemma {:induction false} SmallerAtStart(a: string, b: string, i: nat)
    requires SmallerAt(a, b, i)
    ensures a[0] <= b[0] && (a[0] == b[0] ==> i > 0)
  {
    assert i > 0 ==> a[..i][0] == b[..i][0];
  }

  // The order is that of the first difference, a text coming after its prefixes.
  lemma {:induction false} StrLeIff(a: string, b: string)
    ensures StrLe(a, b) <==> a <= b || exists i: nat :: SmallerAt(a, b, i)
  {
    if a != [] && b != [] && a[0] == b[0] {
      StrLeIff(a[1..], b[1..]);
      assert a == [a[0]] + a[1..] && b == [b[0]] + b[1..];
      if i: nat :| SmallerAt(a, b, i) {
        assert a[1..][..i - 1] == a[..i][1..] && b[1..][..i - 1] == b[..i][1..];
        assert SmallerAt(a[1..], b[1..], i - 1);
      }
      if i: nat :| SmallerAt(a[1..], b[1..], i) {
        assert a[..i + 1] == [a[0]] + a[1..][..i] && b[..i + 1] == [b[0]] + b[1..][..i];
        assert SmallerAt(a, b, i + 1);
      }
    } else if a != [] && b != [] && a[0] < b[0] {
      assert SmallerAt(a, b, 0);
    } else if i: nat :| SmallerAt(a, b, i) {
      SmallerAtStart(a, b, i);
    }
  }
}
