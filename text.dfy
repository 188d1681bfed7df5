/** Python string operations the model needs, on `string` = `seq<char>`
    (one `char` per Unicode code point, as in Python 3). */
module Text {

  /** `c.isspace()`; also what the regular-expression class `\s` matches. */
  predicate IsSpace(c: char) {
    || c == ' ' || '\t' <= c <= '\r' || '\U{1C}' <= c <= '\U{1F}'
    || c == '\U{85}' || c == '\U{A0}' || c == '\U{1680}' || '\U{2000}' <= c <= '\U{200A}'
    || c == '\U{2028}' || c == '\U{2029}' || c == '\U{202F}' || c == '\U{205F}' || c == '\U{3000}'
  }

  predicate AllSpace(s: string) { forall i | 0 <= i < |s| :: IsSpace(s[i]) }

  /** No white space and no line break anywhere in `w`. */
  predicate Plain(w: string) { forall i | 0 <= i < |w| :: !IsSpace(w[i]) }

  /** `s[i..j]` is all white space. */
  predicate SpaceIn(s: string, i: nat, j: nat)
    requires i <= j <= |s|
  {
    forall k | i <= k < j :: IsSpace(s[k])
  }

  /** `s[i..j]` holds no line break. */
  predicate NoBreakIn(s: string, i: nat, j: nat)
    requires i <= j <= |s|
  {
    forall k | i <= k < j :: s[k] != '\n'
  }

  /** The end of the run of white space that starts at `i`. */
  function SpaceEnd(s: string, i: nat): (k: nat)
    requires i <= |s|
    ensures i <= k <= |s| && SpaceIn(s, i, k)
    ensures k < |s| ==> !IsSpace(s[k])
    decreases |s| - i
  {
    if i < |s| && IsSpace(s[i]) then SpaceEnd(s, i + 1) else i
  }

  /** The start of the run of white space that ends at `j`. */
  function SpaceStart(s: string, j: nat): (k: nat)
    requires j <= |s|
    ensures k <= j && SpaceIn(s, k, j)
    ensures k > 0 ==> !IsSpace(s[k - 1])
    decreases j
  {
    if j > 0 && IsSpace(s[j - 1]) then SpaceStart(s, j - 1) else j
  }

  /** `s.strip()`: `s` without its leading and trailing white space. */
  function Strip(s: string): (r: string)
    ensures |r| <= |s|
    ensures r != [] ==> !IsSpace(r[0]) && !IsSpace(r[|r| - 1])
  {
    var i := SpaceEnd(s, 0);
    if i == |s| then [] else s[i..SpaceStart(s, |s|)]
  }

  /** A string that neither starts nor ends with white space is its own `strip`. */
  lemma StripUnchanged(s: string)
    requires s != [] && !IsSpace(s[0]) && !IsSpace(s[|s| - 1])
    ensures Strip(s) == s
  {
    assert SpaceEnd(s, 0) == 0;
    assert SpaceStart(s, |s|) == |s|;
  }

  /** What `strip` removes is white space at either end. */
  lemma StripShape(s: string)
    ensures exists i, j | 0 <= i <= j <= |s| :: Strip(s) == s[i..j] && AllSpace(s[..i]) && AllSpace(s[j..])
  {
    var i := SpaceEnd(s, 0);
    assert AllSpace(s[..i]) by {
      forall k | 0 <= k < i ensures IsSpace(s[..i][k]) { assert s[..i][k] == s[k]; }
    }
    if i == |s| {
      assert Strip(s) == s[i..i] && AllSpace(s[i..]);
    } else {
      var j := SpaceStart(s, |s|);
      assert AllSpace(s[j..]) by {
        forall k | 0 <= k < |s| - j ensures IsSpace(s[j..][k]) { assert s[j..][k] == s[j + k]; }
      }
      assert Strip(s) == s[i..j];
    }
  }

  /** The first line break at or after `i`, or the end of `s`. */
  function LineEnd(s: string, i: nat): (k: nat)
    requires i <= |s|
    ensures i <= k <= |s| && NoBreakIn(s, i, k)
    ensures k < |s| ==> s[k] == '\n'
    decreases |s| - i
  {
    if i < |s| && s[i] != '\n' then LineEnd(s, i + 1) else i
  }

  /** `w` occurs in `s` at position `i`. */
  predicate HasAt(s: string, i: nat, w: string) {
    i + |w| <= |s| && s[i..i + |w|] == w
  }

  predicate StartsWith(s: string, prefix: string) { HasAt(s, 0, prefix) }

  /** `s.split(",")[0]`: the text before the first comma. */
  function BeforeComma(s: string): (r: string)
    ensures ',' !in r
    ensures |r| <= |s| && r == s[..|r|]
    ensures r == s || s[|r|] == ','
  {
    if s == [] then []
    else if s[0] == ',' then []
    else
      var rest := BeforeComma(s[1..]);
      assert [s[0]] + rest == s[..1 + |rest|];
      [s[0]] + rest
  }

  /** `sep.join(parts)`. */
  function Join(sep: string, parts: seq<string>): string
  {
    if |parts| == 0 then ""
    else if |parts| == 1 then parts[0]
    else Join(sep, parts[..|parts| - 1]) + sep + parts[|parts| - 1]
  }

  lemma JoinSnoc(sep: string, parts: seq<string>, last: string)
    ensures Join(sep, parts + [last]) == if parts == [] then last else Join(sep, parts) + sep + last
  {
    assert (parts + [last])[..|parts|] == parts;
  }

  /** Text found in a prefix is found at the same place in the whole. */
  lemma HasAtAppend(a: string, b: string, k: nat, w: string)
    requires HasAt(a, k, w)
    ensures HasAt(a + b, k, w)
  {
    assert (a + b)[k..k + |w|] == a[k..k + |w|];
  }

  /** Text found in a suffix is found in the whole, shifted by the prefix. */
  lemma HasAtPrepend(a: string, b: string, k: nat, w: string)
    requires HasAt(b, k, w)
    ensures HasAt(a + b, |a| + k, w)
  {
    assert (a + b)[|a| + k..|a| + k + |w|] == b[k..k + |w|];
  }

  /** Every text starts with itself, whatever follows. */
  lemma StartsWithPrefix(a: string, b: string)
    ensures StartsWith(a + b, a)
  {
    assert (a + b)[0..|a|] == a;
  }

  /** Each part occurs in the joined text. */
  lemma {:induction false} JoinHas(sep: string, parts: seq<string>, i: nat)
    requires i < |parts|
    ensures exists k: nat :: HasAt(Join(sep, parts), k, parts[i])
    decreases |parts|
  {
    var n := |parts| - 1;
    if n == 0 {
      assert Join(sep, parts)[0..|parts[0]|] == parts[0];
      assert HasAt(Join(sep, parts), 0, parts[i]);
    } else {
      var init := parts[..n];
      var j := Join(sep, init);
      assert Join(sep, parts) == (j + sep) + parts[n];
      if i < n {
        JoinHas(sep, init, i);
        var k: nat :| HasAt(j, k, init[i]);
        HasAtAppend(j, sep + parts[n], k, parts[i]);
        assert j + (sep + parts[n]) == Join(sep, parts);
      } else {
        var s := (j + sep) + parts[n];
        assert s[|j + sep|..|j + sep| + |parts[n]|] == parts[n];
        assert HasAt(Join(sep, parts), |j + sep|, parts[i]);
      }
    }
  }

  lemma JoinEmpty(sep: string, parts: seq<string>)
    requires sep != []
    ensures Join(sep, parts) == "" <==> parts == [] || parts == [""]
  {
    if |parts| > 1 {
      assert |Join(sep, parts)| >= |sep|;
    }
  }

  // ---------------------------------------------------------------------
  // Ordering of strings, as Python's `<` on `str`: lexicographic by code point.

  predicate Lt(a: string, b: string)
    decreases |a|
  {
    if |a| == 0 then |b| > 0
    else if |b| == 0 then false
    else if a[0] < b[0] then true
    else a[0] == b[0] && Lt(a[1..], b[1..])
  }

  predicate Le(a: string, b: string) { a == b || Lt(a, b) }

  lemma {:induction false} LtIrreflexive(a: string)
    ensures !Lt(a, a)
    decreases |a|
  {
    if |a| > 0 { LtIrreflexive(a[1..]); }
  }

  lemma {:induction false} LtAsymmetric(a: string, b: string)
    ensures Lt(a, b) ==> !Lt(b, a)
    decreases |a|
  {
    if |a| > 0 && |b| > 0 && a[0] == b[0] { LtAsymmetric(a[1..], b[1..]); }
  }

  lemma {:induction false} LtTransitive(a: string, b: string, c: string)
    requires Lt(a, b) && Lt(b, c)
    ensures Lt(a, c)
    decreases |a|
  {
    if |a| > 0 && a[0] == b[0] && b[0] == c[0] {
      LtTransitive(a[1..], b[1..], c[1..]);
    }
  }

  lemma {:induction false} LtTotal(a: string, b: string)
    ensures a == b || Lt(a, b) || Lt(b, a)
    decreases |a|
  {
    if |a| > 0 && |b| > 0 && a[0] == b[0] {
      LtTotal(a[1..], b[1..]);
      if a[1..] == b[1..] {
        assert a == [a[0]] + a[1..];
        assert b == [b[0]] + b[1..];
      }
    }
  }

  predicate Ascending(xs: seq<string>) {
    forall i, j | 0 <= i < j < |xs| :: Lt(xs[i], xs[j])
  }

  predicate IsLeast(m: string, s: set<string>) {
    m in s && forall y | y in s :: Le(m, y)
  }

  lemma {:induction false} LeastExists(s: set<string>)
    requires s != {}
    ensures exists m :: IsLeast(m, s)
    decreases |s|
  {
    var x :| x in s;
    if s != {x} {
      LeastExists(s - {x});
      var m :| IsLeast(m, s - {x});
      LtTotal(m, x);
      if Lt(x, m) {
        forall y | y in s ensures Le(x, y) {
          if y != x { assert Le(m, y); if Lt(m, y) { LtTransitive(x, m, y); } }
        }
        assert IsLeast(x, s);
      } else {
        assert IsLeast(m, s);
      }
    } else {
      assert IsLeast(x, s);
    }
  }

  lemma LeastUnique(s: set<string>)
    ensures forall m1, m2 | IsLeast(m1, s) && IsLeast(m2, s) :: m1 == m2
  {
    forall m1, m2 | IsLeast(m1, s) && IsLeast(m2, s) ensures m1 == m2 {
      assert Le(m1, m2) && Le(m2, m1);
      LtAsymmetric(m1, m2);
    }
  }

  /** `sorted(s)` for a set of strings: its elements, each once
      (SortedSetDistinct), in ascending order (SortedSetAscending). */
  function SortedSet(s: set<string>): (r: seq<string>)
    ensures |r| == |s| && (forall x :: x in r <==> x in s)
    decreases |s|
  {
    if s == {} then []
    else
      LeastExists(s);
      LeastUnique(s);
      var m :| IsLeast(m, s);
      [m] + SortedSet(s - {m})
  }

  lemma SortedSetDistinct(s: set<string>)
    ensures forall i, j | 0 <= i < j < |SortedSet(s)| :: SortedSet(s)[i] != SortedSet(s)[j]
  {
    SortedSetAscending(s);
    forall i | 0 <= i < |SortedSet(s)| ensures !Lt(SortedSet(s)[i], SortedSet(s)[i]) {
      LtIrreflexive(SortedSet(s)[i]);
    }
  }

  lemma {:induction false} SortedSetAscending(s: set<string>)
    ensures Ascending(SortedSet(s))
    decreases |s|
  {
    if s != {} {
      LeastExists(s);
      LeastUnique(s);
      var m :| IsLeast(m, s);
      var rest := SortedSet(s - {m});
      assert SortedSet(s) == [m] + rest;
      SortedSetAscending(s - {m});
      forall j | 0 <= j < |rest| ensures Lt(m, rest[j]) {
        assert rest[j] in s - {m};
      }
    }
  }

  /** A strictly ascending sequence is determined by its elements, so `sorted`
      has one possible result. */
  lemma {:induction false} AscendingUnique(a: seq<string>, b: seq<string>)
    requires Ascending(a) && Ascending(b)
    requires forall x :: x in a <==> x in b
    ensures a == b
    decreases |a|
  {
    if |a| > 0 { assert a[0] in b; }
    if |b| > 0 { assert b[0] in a; }
    if |a| > 0 && |b| > 0 {
      LeastOfAscending(a);
      LeastOfAscending(b);
      assert a[0] == b[0] by {
        LtTotal(a[0], b[0]);
        if Lt(a[0], b[0]) { assert a[0] in b; LeastOfAscending(b); LtAsymmetric(a[0], b[0]); }
        if Lt(b[0], a[0]) { assert b[0] in a; LtAsymmetric(b[0], a[0]); }
      }
      forall x ensures x in a[1..] <==> x in b[1..] {
        AscendingHeadNotInTail(a);
        AscendingHeadNotInTail(b);
        assert x in a <==> x == a[0] || x in a[1..];
        assert x in b <==> x == b[0] || x in b[1..];
      }
      AscendingUnique(a[1..], b[1..]);
      assert a == [a[0]] + a[1..] && b == [b[0]] + b[1..];
    }
  }

  lemma LeastOfAscending(a: seq<string>)
    requires Ascending(a) && |a| > 0
    ensures forall x | x in a :: Le(a[0], x)
  {
    forall x | x in a ensures Le(a[0], x) {
      var i :| 0 <= i < |a| && a[i] == x;
      if i > 0 { assert Lt(a[0], a[i]); }
    }
  }

  lemma AscendingHeadNotInTail(a: seq<string>)
    requires Ascending(a) && |a| > 0
    ensures a[0] !in a[1..]
  {
    if a[0] in a[1..] {
      var i :| 0 <= i < |a[1..]| && a[1..][i] == a[0];
      assert Lt(a[0], a[i + 1]);
      LtIrreflexive(a[0]);
    }
  }
}
