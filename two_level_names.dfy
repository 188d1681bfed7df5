/** Recognising the legacy two-level collection names, "<emoji> <Season> >
    <DishType>", by the fixed regular expression
    `^.+\s+(Primavera|Verano|Otoño|Invierno)\s+>\s+(.+)$` (Python `re.match`,
    no flags: `.` is anything but a line break, `$` is the end or a final line
    break). The search below is the one Python's backtracking engine performs;
    `Matches` says declaratively what a match is. The search is written for
    any alternation `(w0|w1|...)` whose words start with distinct characters
    that are neither white space nor `>`, which the season words do. */
module TwoLevelNames {
  import opened Wrappers
  import opened Text
  import opened Json
  import opened Models

  /** The alternation's words, in the order the engine tries them. */
  const SeasonWords: seq<string> := ["Primavera", "Verano", "Otoño", "Invierno"]

  /** The season each word of the alternation names. */
  const SeasonAlternatives: seq<Season> := [Spring, Summer, Autumn, Winter]

  /** Words the search can tell apart by their first character. */
  predicate Distinguishable(words: seq<string>) {
    && (forall i | 0 <= i < |words| :: |words[i]| > 0 && !IsSpace(words[i][0]) && words[i][0] != '>')
    && (forall i, j | 0 <= i < j < |words| :: words[i][0] != words[j][0])
  }

  /** One way the pattern can match a name `s`: the leading `.+` is `s[..a]`,
      the alternation's word number `alt` starts at `b`, the `>` is `s[d]`,
      and the second group is `s[g..r]`. */
  datatype Match = Match(a: nat, b: nat, alt: nat, d: nat, g: nat, r: nat)

  /** `m` is a match of the whole pattern, alternation `words`, in `s`. */
  predicate Matches(s: string, words: seq<string>, m: Match) {
    && m.alt < |words|
    && var c := m.b + |words[m.alt]|;
    && 0 < m.a < m.b && c < m.d && m.d + 1 < m.g < m.r <= |s|
    && NoBreakIn(s, 0, m.a)
    && SpaceIn(s, m.a, m.b)
    && s[m.b..c] == words[m.alt]
    && SpaceIn(s, c, m.d)
    && s[m.d] == '>'
    && SpaceIn(s, m.d + 1, m.g)
    && NoBreakIn(s, m.g, m.r)
    && (m.r == |s| || (m.r + 1 == |s| && s[m.r] == '\n'))
  }

  /** The backtracking engine tries longer leading `.+` first, then longer
      `\s+` before the second group: `m1` is tried before `m2`. */
  predicate TriedBefore(m1: Match, m2: Match) {
    m1.a > m2.a || (m1.a == m2.a && m1.g > m2.g)
  }

  // ---------------------------------------------------------------------
  // The search

  /** The alternation at `b`: the first of `words[i..]` that occurs there. */
  function AlternativeAt(s: string, b: nat, words: seq<string>, i: nat): (r: Option<nat>)
    requires i <= |words|
    ensures r.Some? ==> i <= r.value < |words| && HasAt(s, b, words[r.value])
    decreases |words| - i
  {
    if i == |words| then None
    else if HasAt(s, b, words[i]) then Some(i)
    else AlternativeAt(s, b, words, i + 1)
  }

  /** `\s+(.+)$` after the `>` at `lo - 1`, where the run of white space ends
      at `g`: the greedy `\s+` gives back one character at a time, and the
      first start of `.+` that reaches `$` wins. */
  function GroupStart(s: string, lo: nat, g: nat): (r: Option<nat>)
    requires lo <= g <= |s|
    ensures r.Some? ==> lo < r.value <= g && r.value < LineEnd(s, r.value) && LineEnd(s, r.value) + 1 >= |s|
    decreases g
  {
    if g <= lo then None
    else if g < LineEnd(s, g) && LineEnd(s, g) + 1 >= |s| then Some(g)
    else GroupStart(s, lo, g - 1)
  }

  /** The rest of the pattern, `\s+(w0|w1|...)\s+>\s+(.+)$`, after a leading
      `.+` that ends at `a`. */
  function RestAt(s: string, words: seq<string>, a: nat): (r: Option<Match>)
    requires a <= |s|
    ensures r.Some? ==> r.value.a == a && r.value.alt < |words|
  {
    var b := SpaceEnd(s, a);
    if b == a then None
    else match AlternativeAt(s, b, words, 0)
      case None => None
      case Some(alt) => ArrowAt(s, a, b, alt, b + |words[alt]|)
  }

  /** `\s+>\s+(.+)$` after the word `alt`, which ends at `c`. */
  function ArrowAt(s: string, a: nat, b: nat, alt: nat, c: nat): (r: Option<Match>)
    requires c <= |s|
    ensures r.Some? ==> r.value.a == a && r.value.alt == alt
  {
    var d := SpaceEnd(s, c);
    if d == c || d == |s| || s[d] != '>' then None
    else match GroupStart(s, d + 1, SpaceEnd(s, d + 1))
      case None => None
      case Some(g) => Some(Match(a, b, alt, d, g, LineEnd(s, g)))
  }

  /** The greedy leading `.+`: ends at `a`, then at `a - 1`, ... down to 1. */
  function MatchFrom(s: string, words: seq<string>, a: nat): (r: Option<Match>)
    requires a <= |s|
    ensures r.Some? ==> 0 < r.value.a <= a && r.value.alt < |words|
    decreases a
  {
    if a == 0 then None
    else match RestAt(s, words, a)
      case Some(m) => Some(m)
      case None => MatchFrom(s, words, a - 1)
  }

  /** `re.match` of the pattern with alternation `words`. */
  function FindMatch(s: string, words: seq<string>): (r: Option<Match>)
    ensures r.Some? ==> r.value.alt < |words|
  {
    MatchFrom(s, words, LineEnd(s, 0))
  }

  /** `_parse_two_level_name`: the season word and the dish type of a legacy
      name; `None` when the pattern does not match or the second group is not
      a dish type's value. */
  function ParseTwoLevelName(s: string): (r: Option<(string, DishType)>)
    ensures FindMatch(s, SeasonWords).Some? ==> Matches(s, SeasonWords, FindMatch(s, SeasonWords).value)
    ensures r.Some? <==> (FindMatch(s, SeasonWords).Some? &&
      DishTypeOf(Str(s[FindMatch(s, SeasonWords).value.g..FindMatch(s, SeasonWords).value.r])).Some?)
    ensures r.Some? ==> r.value.0 == SeasonWords[FindMatch(s, SeasonWords).value.alt]
    ensures r.Some? ==> s[FindMatch(s, SeasonWords).value.g..FindMatch(s, SeasonWords).value.r] == r.value.1.Value()
  {
    match FindMatch(s, SeasonWords)
    case None => None
    case Some(m) =>
      FindMatchSound(s, SeasonWords);
      match DishTypeOf(Str(s[m.g..m.r]))
      case None => None
      case Some(d) => Some((SeasonWords[m.alt], d))
  }

  // ---------------------------------------------------------------------
  // The search finds the first match in the engine's order

  lemma {:induction false} SpaceEndIs(s: string, i: nat, j: nat)
    requires i <= j <= |s| && SpaceIn(s, i, j) && (j == |s| || !IsSpace(s[j]))
    ensures SpaceEnd(s, i) == j
    decreases j - i
  {
    if i < j {
      SpaceEndIs(s, i + 1, j);
    }
  }

  lemma {:induction false} SpaceEndAtLeast(s: string, i: nat, j: nat)
    requires i <= j <= |s| && SpaceIn(s, i, j)
    ensures SpaceEnd(s, i) >= j
    decreases j - i
  {
    if i < j {
      SpaceEndAtLeast(s, i + 1, j);
    }
  }

  lemma {:induction false} LineEndAtLeast(s: string, i: nat, j: nat)
    requires i <= j <= |s| && NoBreakIn(s, i, j)
    ensures LineEnd(s, i) >= j
    decreases j - i
  {
    if i < j {
      LineEndAtLeast(s, i + 1, j);
    }
  }

  lemma {:induction false} LineEndIs(s: string, i: nat, j: nat)
    requires i <= j <= |s| && NoBreakIn(s, i, j) && (j == |s| || s[j] == '\n')
    ensures LineEnd(s, i) == j
    decreases j - i
  {
    if i < j {
      LineEndIs(s, i + 1, j);
    }
  }

  /** Only the word that is there can be found there. */
  lemma {:induction false} AlternativeAtIs(s: string, b: nat, words: seq<string>, i: nat, k: nat)
    requires Distinguishable(words) && i <= k < |words| && HasAt(s, b, words[k])
    ensures AlternativeAt(s, b, words, i) == Some(k)
    decreases k - i
  {
    if HasAt(s, b, words[i]) {
      assert s[b] == words[i][0] && s[b] == words[k][0];
    } else {
      AlternativeAtIs(s, b, words, i + 1, k);
    }
  }

  lemma {:induction false} GroupStartComplete(s: string, lo: nat, g: nat, g0: nat)
    requires lo < g0 <= g <= |s|
    requires g0 < LineEnd(s, g0) && LineEnd(s, g0) + 1 >= |s|
    ensures GroupStart(s, lo, g).Some? && GroupStart(s, lo, g).value >= g0
    decreases g
  {
    if g > g0 && !(g < LineEnd(s, g) && LineEnd(s, g) + 1 >= |s|) {
      GroupStartComplete(s, lo, g - 1, g0);
    }
  }

  /** Every position of a match but `a` and `g` is forced: each run of white
      space is as long as it can be, the word is the only one of the
      alternation at its place, and the second group runs to the end of its
      line. */
  lemma MatchParts(s: string, words: seq<string>, m: Match)
    requires Distinguishable(words) && Matches(s, words, m)
    ensures m.b == SpaceEnd(s, m.a) && AlternativeAt(s, m.b, words, 0) == Some(m.alt)
    ensures m.d == SpaceEnd(s, m.b + |words[m.alt]|) && m.r == LineEnd(s, m.g)
  {
    var c := m.b + |words[m.alt]|;
    assert s[m.b] == s[m.b..c][0];
    SpaceEndIs(s, m.a, m.b);
    AlternativeAtIs(s, m.b, words, 0, m.alt);
    SpaceEndIs(s, c, m.d);
    LineEndIs(s, m.g, m.r);
  }

  /** The search steps of `RestAt`, each one taken. */
  lemma RestAtFound(s: string, words: seq<string>, a: nat, alt: nat, d: nat, g0: nat)
    requires a <= |s| && a < SpaceEnd(s, a) && AlternativeAt(s, SpaceEnd(s, a), words, 0) == Some(alt)
    requires d == SpaceEnd(s, SpaceEnd(s, a) + |words[alt]|)
    requires SpaceEnd(s, a) + |words[alt]| < d < |s| && s[d] == '>'
    requires d + 1 < g0 <= SpaceEnd(s, d + 1) && g0 < LineEnd(s, g0) && LineEnd(s, g0) + 1 >= |s|
    ensures RestAt(s, words, a).Some? && RestAt(s, words, a).value.g >= g0
  {
    var b := SpaceEnd(s, a);
    ArrowAtFound(s, a, b, alt, b + |words[alt]|, g0);
  }

  lemma ArrowAtFound(s: string, a: nat, b: nat, alt: nat, c: nat, g0: nat)
    requires c <= |s| && c < SpaceEnd(s, c) < |s| && s[SpaceEnd(s, c)] == '>'
    requires SpaceEnd(s, c) + 1 < g0 <= SpaceEnd(s, SpaceEnd(s, c) + 1)
    requires g0 < LineEnd(s, g0) && LineEnd(s, g0) + 1 >= |s|
    ensures ArrowAt(s, a, b, alt, c).Some? && ArrowAt(s, a, b, alt, c).value.g >= g0
  {
    var d := SpaceEnd(s, c);
    GroupStartComplete(s, d + 1, SpaceEnd(s, d + 1), g0);
  }

  /** The leading `.+` fixed, the rest of the search finds a match at least
      as early in the engine's order as any match `m` with that `.+`. */
  lemma RestAtComplete(s: string, words: seq<string>, m: Match)
    requires Distinguishable(words) && Matches(s, words, m)
    ensures RestAt(s, words, m.a).Some? && RestAt(s, words, m.a).value.g >= m.g
  {
    MatchParts(s, words, m);
    SpaceEndAtLeast(s, m.d + 1, m.g);
    LineEndAtLeast(s, m.g, m.r);
    RestAtFound(s, words, m.a, m.alt, m.d, m.g);
  }

  lemma {:induction false} MatchFromComplete(s: string, words: seq<string>, a: nat, m: Match)
    requires Distinguishable(words) && Matches(s, words, m) && m.a <= a <= |s|
    ensures MatchFrom(s, words, a).Some? && !TriedBefore(m, MatchFrom(s, words, a).value)
    decreases a
  {
    if a == m.a {
      RestAtComplete(s, words, m);
    } else if RestAt(s, words, a).None? {
      MatchFromComplete(s, words, a - 1, m);
    }
  }

  lemma RestAtSound(s: string, words: seq<string>, a: nat)
    requires a <= |s| && a > 0 && NoBreakIn(s, 0, a) && RestAt(s, words, a).Some?
    ensures Matches(s, words, RestAt(s, words, a).value)
  {
    var m := RestAt(s, words, a).value;
    var c := m.b + |words[m.alt]|;
    assert m.b == SpaceEnd(s, a);
    assert HasAt(s, m.b, words[m.alt]);
    assert m.d == SpaceEnd(s, c);
    assert m.g <= SpaceEnd(s, m.d + 1);
    assert m.r == LineEnd(s, m.g);
  }

  /** What the search returns is what the rest of the pattern gave for the
      leading `.+` it settled on. */
  lemma {:induction false} MatchFromIsRestAt(s: string, words: seq<string>, a: nat)
    requires a <= |s| && MatchFrom(s, words, a).Some?
    ensures MatchFrom(s, words, a) == RestAt(s, words, MatchFrom(s, words, a).value.a)
    decreases a
  {
    if RestAt(s, words, a).None? {
      MatchFromIsRestAt(s, words, a - 1);
    }
  }

  /** What the search finds is a match. */
  lemma FindMatchSound(s: string, words: seq<string>)
    ensures FindMatch(s, words).Some? ==> Matches(s, words, FindMatch(s, words).value)
  {
    if FindMatch(s, words).Some? {
      var k := LineEnd(s, 0);
      var a := FindMatch(s, words).value.a;
      MatchFromIsRestAt(s, words, k);
      RestAtSound(s, words, a);
    }
  }

  /** The search finds a match whenever there is one, and no match comes
      before the one it finds in the engine's order. */
  lemma FindMatchFirst(s: string, words: seq<string>, m: Match)
    requires Distinguishable(words) && Matches(s, words, m)
    ensures FindMatch(s, words).Some? && !TriedBefore(m, FindMatch(s, words).value)
  {
    LineEndAtLeast(s, 0, m.a);
    MatchFromComplete(s, words, LineEnd(s, 0), m);
  }

  /** A match is fixed by where its leading `.+` ends and where its second
      group starts, so the engine's order leaves exactly one answer. */
  lemma MatchDetermined(s: string, words: seq<string>, m1: Match, m2: Match)
    requires Distinguishable(words) && Matches(s, words, m1) && Matches(s, words, m2)
    requires m1.a == m2.a && m1.g == m2.g
    ensures m1 == m2
  {
    MatchParts(s, words, m1);
    MatchParts(s, words, m2);
  }

  // ---------------------------------------------------------------------
  // The names `GetCollectionName` builds are recognised

  lemma HasAtHead(s: string, i: nat, w: string)
    requires |w| > 0
    ensures HasAt(s, i, w) ==> i < |s| && s[i] == w[0]
  {
    if HasAt(s, i, w) {
      assert s[i..i + |w|][0] == s[i];
    }
  }

  /** A word occurs in `x + y` beyond `x` exactly where it occurs in `y`. */
  lemma HasAtShift(x: string, y: string, i: nat, w: string)
    ensures HasAt(x + y, |x| + i, w) <==> HasAt(y, i, w)
  {
    if i + |w| <= |y| {
      assert (x + y)[|x| + i..|x| + i + |w|] == y[i..i + |w|];
    }
  }

  /** No word of the alternation occurs at `b`. */
  lemma {:induction false} AlternativeAtNone(s: string, b: nat, words: seq<string>, i: nat)
    requires i <= |words| && forall t | i <= t < |words| :: !HasAt(s, b, words[t])
    ensures AlternativeAt(s, b, words, i) == None
    decreases |words| - i
  {
    if i < |words| {
      AlternativeAtNone(s, b, words, i + 1);
    }
  }

  lemma MatchFromStep(s: string, words: seq<string>, a: nat)
    requires 0 < a <= |s| && RestAt(s, words, a) == None
    ensures MatchFrom(s, words, a) == MatchFrom(s, words, a - 1)
  {
  }

  /** While the rest of the pattern fails, the greedy `.+` keeps giving back. */
  lemma {:induction false} MatchFromSkips(s: string, words: seq<string>, lo: nat, a: nat)
    requires lo <= a <= |s|
    requires forall j | lo < j <= a :: MatchFrom(s, words, j) == MatchFrom(s, words, j - 1)
    ensures MatchFrom(s, words, a) == MatchFrom(s, words, lo)
    decreases a
  {
    if a > lo {
      MatchFromSkips(s, words, lo, a - 1);
    }
  }

  /** Where the characters of `e + " " + w + " > " + t` come from. */
  lemma NameAt(e: string, w: string, t: string, j: nat)
    requires j < |e| + |w| + |t| + 4
    ensures var s := e + " " + w + " > " + t; var p := |e| + 1 + |w|;
      && |s| == |e| + |w| + |t| + 4
      && s[j] == if j < |e| then e[j] else if j == |e| then ' ' else if j < p then w[j - |e| - 1]
                 else if j == p then ' ' else if j == p + 1 then '>' else if j == p + 2 then ' '
                 else t[j - p - 3]
  {
  }

  /** The name's parts, the way the search walks through them. */
  lemma NameParts(e: string, w: string, t: string)
    ensures var s := e + " " + w + " > " + t; var p := |e| + 1 + |w|;
      && s == (e + " ") + (w + " > " + t)
      && s == (e + " " + w + " > ") + t
      && HasAt(s, |e| + 1, w)
  {
    var s := e + " " + w + " > " + t;
    assert s == (e + " ") + (w + " > " + t);
    assert (w + " > " + t)[..|w|] == w;
    HasAtShift(e + " ", w + " > " + t, 0, w);
  }

  /** For a leading `.+` that ends inside the name past its first space, the
      rest of the pattern fails. */
  lemma NameRestAtNone(e: string, words: seq<string>, k: nat, t: string, j: nat)
    requires Distinguishable(words) && k < |words|
    requires Plain(e) && Plain(words[k]) && Plain(t) && t != []
    requires forall i | 0 <= i < |words| :: !HasAt(t, 0, words[i])
    requires |e| < j <= |e| + |words[k]| + |t| + 4
    ensures RestAt(e + " " + words[k] + " > " + t, words, j) == None
  {
    var s := e + " " + words[k] + " > " + t;
    var p := |e| + 1 + |words[k]|;
    if j < |s| { NameAt(e, words[k], t, j); }
    if j == p {
      NameAt(e, words[k], t, p + 1);
      forall i | 0 <= i < |words| ensures !HasAt(s, p + 1, words[i]) {
        HasAtHead(s, p + 1, words[i]);
      }
      RestAtNoWord(s, words, p);
    } else if j == p + 2 {
      NameAt(e, words[k], t, p + 3);
      NameParts(e, words[k], t);
      forall i | 0 <= i < |words| ensures !HasAt(s, p + 3, words[i]) {
        HasAtShift(e + " " + words[k] + " > ", t, 0, words[i]);
      }
      RestAtNoWord(s, words, p + 2);
    } else {
      RestAtNoSpace(s, words, j);
    }
  }

  /** The rest of the pattern needs white space first. */
  lemma RestAtNoSpace(s: string, words: seq<string>, j: nat)
    requires j <= |s| && (j == |s| || !IsSpace(s[j]))
    ensures RestAt(s, words, j) == None
  {
  }

  /** ... and then a word of the alternation. */
  lemma RestAtNoWord(s: string, words: seq<string>, j: nat)
    requires j + 1 <= |s| && IsSpace(s[j]) && (j + 1 == |s| || !IsSpace(s[j + 1]))
    requires forall i | 0 <= i < |words| :: !HasAt(s, j + 1, words[i])
    ensures RestAt(s, words, j) == None
  {
    SpaceEndIs(s, j, j + 1);
    AlternativeAtNone(s, j + 1, words, 0);
  }

  /** After `.+` = `e`, the rest of the pattern takes `w` and `t`. */
  lemma NameRestAt(e: string, words: seq<string>, k: nat, t: string)
    requires Distinguishable(words) && k < |words|
    requires Plain(e) && Plain(words[k]) && Plain(t) && t != []
    ensures var s := e + " " + words[k] + " > " + t; var p := |e| + 1 + |words[k]|;
      RestAt(s, words, |e|) == Some(Match(|e|, |e| + 1, k, p + 1, p + 3, |s|))
  {
    var w := words[k];
    var s := e + " " + w + " > " + t;
    var p := |e| + 1 + |w|;
    NameParts(e, w, t);
    NameAt(e, w, t, |e|);
    NameAt(e, w, t, |e| + 1);
    SpaceEndIs(s, |e|, |e| + 1);
    AlternativeAtIs(s, |e| + 1, words, 0, k);
    NameAt(e, w, t, p);
    NameAt(e, w, t, p + 1);
    SpaceEndIs(s, p, p + 1);
    NameAt(e, w, t, p + 2);
    NameAt(e, w, t, p + 3);
    SpaceEndIs(s, p + 2, p + 3);
    NameLineEnd(e, w, t, p + 3);
    assert GroupStart(s, p + 2, p + 3) == Some(p + 3);
  }

  /** The name is a single line. */
  lemma NameLineEnd(e: string, w: string, t: string, i: nat)
    requires Plain(e) && Plain(w) && Plain(t) && i <= |e| + |w| + |t| + 4
    ensures LineEnd(e + " " + w + " > " + t, i) == |e| + |w| + |t| + 4
  {
    var s := e + " " + w + " > " + t;
    forall j | i <= j < |s| ensures s[j] != '\n' { NameAt(e, w, t, j); }
    LineEndIs(s, i, |s|);
  }

  /** The search on a name built as `e + " " + w + " > " + t`, with `w` a word
      of the alternation and no white space in `e`, `w` and `t`, finds `w` and
      `t`, provided `t` does not start with a word of the alternation. */
  lemma FindMatchOfName(e: string, words: seq<string>, k: nat, t: string)
    requires Distinguishable(words) && k < |words|
    requires e != [] && Plain(e) && Plain(words[k]) && Plain(t) && t != []
    requires forall i | 0 <= i < |words| :: !HasAt(t, 0, words[i])
    ensures var s := e + " " + words[k] + " > " + t; var p := |e| + 1 + |words[k]|;
      FindMatch(s, words) == Some(Match(|e|, |e| + 1, k, p + 1, p + 3, |s|))
  {
    var s := e + " " + words[k] + " > " + t;
    NameLineEnd(e, words[k], t, 0);
    forall j | |e| < j <= |s| ensures MatchFrom(s, words, j) == MatchFrom(s, words, j - 1) {
      NameRestAtNone(e, words, k, t, j);
      MatchFromStep(s, words, j);
    }
    MatchFromSkips(s, words, |e|, |s|);
    NameRestAt(e, words, k, t);
  }

  /** The season words start with "P", "V", "O" and "I". */
  lemma SeasonWordsDistinguishable()
    ensures Distinguishable(SeasonWords)
  {
    assert SeasonWords[0][0] == 'P' && SeasonWords[1][0] == 'V';
    assert SeasonWords[2][0] == 'O' && SeasonWords[3][0] == 'I';
  }

  /** The place of a season's word in the alternation. */
  function SeasonIndex(season: Season): (k: nat)
    ensures k < |SeasonWords| && SeasonWords[k] == season.Value() && SeasonAlternatives[k] == season
  {
    match season
    case Spring => 0
    case Summer => 1
    case Autumn => 2
    case Winter => 3
  }

  lemma EmojiPlain(season: Season)
    ensures season.Emoji() != [] && Plain(season.Emoji())
  {
  }

  lemma SeasonWordPlain(season: Season)
    ensures Plain(season.Value())
  {
  }

  lemma DishValuePlain(d: DishType)
    ensures d.Value() != [] && Plain(d.Value())
  {
  }

  /** No dish type's value starts with a season word ("Pescados", "Postres",
      "Pastas" and "Panes" are shorter than "Primavera"). */
  lemma NoSeasonPrefix(d: DishType)
    ensures forall i | 0 <= i < |SeasonWords| :: !HasAt(d.Value(), 0, SeasonWords[i])
  {
    forall i | 0 <= i < |SeasonWords| ensures !HasAt(d.Value(), 0, SeasonWords[i]) {
      HasAtHead(d.Value(), 0, SeasonWords[i]);
    }
  }

  /** A name of the importer's shape, with season word number `k` and a dish
      type's value `t`, parses to that word and dish type. */
  lemma ParseOfName(e: string, k: nat, t: string)
    requires k < |SeasonWords| && e != [] && Plain(e) && Plain(SeasonWords[k]) && Plain(t) && t != []
    requires forall i | 0 <= i < |SeasonWords| :: !HasAt(t, 0, SeasonWords[i])
    requires DishTypeOf(Str(t)).Some?
    ensures ParseTwoLevelName(e + " " + SeasonWords[k] + " > " + t) == Some((SeasonWords[k], DishTypeOf(Str(t)).value))
  {
    SeasonWordsDistinguishable();
    FindMatchOfName(e, SeasonWords, k, t);
    var s := e + " " + SeasonWords[k] + " > " + t;
    NameParts(e, SeasonWords[k], t);
    assert s[|e| + |SeasonWords[k]| + 4..|s|] == t;
  }

  /** Every name the importer creates is recognised as a legacy name with its
      own season word and dish type. */
  lemma ParseCollectionName(season: Season, d: DishType)
    ensures ParseTwoLevelName(GetCollectionName(season, d)) == Some((season.Value(), d))
  {
    var k := SeasonIndex(season);
    EmojiPlain(season);
    SeasonWordPlain(season);
    DishValuePlain(d);
    NoSeasonPrefix(d);
    EnumValuesRoundTrip(season, d);
    ParseOfName(season.Emoji(), k, d.Value());
  }
}
