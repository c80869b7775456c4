/** Message patterns: the wildcard matcher and the specificity order.

    A Go string is a sequence of bytes; here it is a `string` in which one `char` stands for
    one byte. Nothing below depends on the size of the alphabet.
 */
module Patterns {
  import opened TextOrder

  predicate IsWildcardChar(c: char) {
    c == '*' || c == '?'
  }

  predicate IsWildcard(p: string) {
    exists i :: 0 <= i < |p| && IsWildcardChar(p[i])
  }

  /** What a pattern means: `*` is any run of characters, `?` any one character. */
  ghost predicate Matches(p: string, s: string)
    decreases |p|, |s|
  {
    if p == "" then s == ""
    else if p[0] == '*' then Matches(p[1..], s) || (s != "" && Matches(p, s[1..]))
    else s != "" && (p[0] == '?' || p[0] == s[0]) && Matches(p[1..], s[1..])
  }

  /** A way to cut `s` into one piece per pattern character: any piece for `*`, one arbitrary
      character for `?`, and the character itself otherwise. `cuts[i]` is where piece `i` starts. */
  ghost predicate IsCut(p: string, s: string, cuts: seq<nat>) {
    && |cuts| == |p| + 1 && cuts[0] == 0 && cuts[|p|] == |s|
    && forall i :: 0 <= i < |p| ==> PieceFits(p, s, cuts, i)
  }

  ghost predicate PieceFits(p: string, s: string, cuts: seq<nat>, i: nat)
    requires i < |p| && |cuts| == |p| + 1
  {
    && cuts[i] <= cuts[i + 1] <= |s|
    && (p[i] != '*' ==> cuts[i + 1] == cuts[i] + 1 && (p[i] == '?' || s[cuts[i]] == p[i]))
  }

  lemma {:induction false} MatchesHasCut(p: string, s: string) returns (cuts: seq<nat>)
    requires Matches(p, s)
    ensures IsCut(p, s, cuts)
    decreases |p|, |s|
  {
    if p == "" {
      cuts := [0];
    } else if p[0] == '*' && !Matches(p[1..], s) {
      var rest := MatchesHasCut(p, s[1..]);
      cuts := [0] + seq(|p|, i requires 0 <= i < |p| => rest[i + 1] + 1);
      forall i | 0 <= i < |p|
        ensures PieceFits(p, s, cuts, i)
      {
        assert PieceFits(p, s[1..], rest, i);
      }
    } else {
      var n := if p[0] == '*' then 0 else 1;
      var rest := MatchesHasCut(p[1..], s[n..]);
      cuts := [0] + seq(|p|, i requires 0 <= i < |p| => rest[i] + n);
      forall i | 0 <= i < |p|
        ensures PieceFits(p, s, cuts, i)
      {
        if i > 0 {
          assert PieceFits(p[1..], s[n..], rest, i - 1);
        }
      }
    }
  }

  lemma {:induction false} CutMatches(p: string, s: string, cuts: seq<nat>)
    requires IsCut(p, s, cuts)
    ensures Matches(p, s)
    decreases |p|
  {
    if p != "" {
      var n := cuts[1];
      assert PieceFits(p, s, cuts, 0);
      CutsGrow(p, s, cuts);
      var rest := seq(|p|, i requires 0 <= i < |p| => (cuts[i + 1] - n) as nat);
      forall i | 0 <= i < |p[1..]|
        ensures PieceFits(p[1..], s[n..], rest, i)
      {
        assert PieceFits(p, s, cuts, i + 1);
      }
      CutMatches(p[1..], s[n..], rest);
      if p[0] == '*' {
        StarSwallows(p, s, n);
      }
    }
  }

  lemma {:induction false} CutsGrow(p: string, s: string, cuts: seq<nat>)
    requires p != "" && IsCut(p, s, cuts)
    ensures forall i :: 1 <= i <= |p| ==> cuts[1] <= cuts[i]
  {
    var k := 1;
    while k < |p|
      invariant 1 <= k <= |p|
      invariant forall i :: 1 <= i <= k ==> cuts[1] <= cuts[i]
    {
      assert PieceFits(p, s, cuts, k);
      k := k + 1;
    }
  }

  lemma {:induction false} StarSwallows(p: string, s: string, n: nat)
    requires p != "" && p[0] == '*' && n <= |s| && Matches(p[1..], s[n..])
    ensures Matches(p, s)
    decreases n
  {
    if n == 0 {
      assert s[0..] == s;
    } else {
      assert s[1..][n - 1..] == s[n..];
      StarSwallows(p, s[1..], n - 1);
    }
  }

  /** The recursive relation and the cuts say the same thing. */
  lemma {:induction false} MatchesIffCut(p: string, s: string)
    ensures Matches(p, s) <==> exists cuts :: IsCut(p, s, cuts)
  {
    if Matches(p, s) {
      var cuts := MatchesHasCut(p, s);
    }
    if cuts :| IsCut(p, s, cuts) {
      CutMatches(p, s, cuts);
    }
  }

  /** A pattern without wildcards matches itself and nothing else. */
  lemma {:induction false} LiteralMatches(p: string, s: string)
    requires !IsWildcard(p)
    ensures Matches(p, s) <==> p == s
  {
    if p != "" && s != "" {
      assert !IsWildcard(p[1..]) by {
        forall i | 0 <= i < |p| - 1
          ensures !IsWildcardChar(p[1..][i])
        {
          assert p[1..][i] == p[i + 1];
        }
      }
      assert !IsWildcardChar(p[0]);
      LiteralMatches(p[1..], s[1..]);
      assert p == [p[0]] + p[1..] && s == [s[0]] + s[1..];
    } else if p != "" {
      assert !IsWildcardChar(p[0]);
    }
  }

  // ---------------------------------------------------------------- the iterative matcher

  /** `p[a..b]` has no star and agrees with `s` from position `j` on, character by character. */
  ghost predicate Agrees(p: string, a: nat, b: nat, s: string, j: nat)
    requires a <= b <= |p|
  {
    && j + (b - a) <= |s|
    && forall k :: a <= k < b ==> p[k] != '*' && (p[k] == '?' || p[k] == s[j + k - a])
  }

  /** `Matches` on what is left of the pattern from `i` and of the subject from `j`. */
  ghost predicate From(p: string, i: nat, s: string, j: nat)
    requires i <= |p| && j <= |s|
    decreases |p| - i, |s| - j
  {
    if i == |p| then j == |s|
    else if p[i] == '*' then From(p, i + 1, s, j) || (j < |s| && From(p, i, s, j + 1))
    else j < |s| && (p[i] == '?' || p[i] == s[j]) && From(p, i + 1, s, j + 1)
  }

  lemma {:induction false} FromIsMatches(p: string, i: nat, s: string, j: nat)
    requires i <= |p| && j <= |s|
    ensures From(p, i, s, j) <==> Matches(p[i..], s[j..])
    decreases |p| - i, |s| - j
  {
    if i < |p| {
      assert p[i..][1..] == p[i + 1..];
      if p[i] == '*' {
        FromIsMatches(p, i + 1, s, j);
      }
      if j < |s| {
        assert s[j..][1..] == s[j + 1..];
        if p[i] == '*' {
          FromIsMatches(p, i, s, j + 1);
        } else {
          FromIsMatches(p, i + 1, s, j + 1);
        }
      }
    }
  }

  /** A star-free block that agrees with the subject can be dropped from both. */
  lemma {:induction false} DropAgreed(p: string, a: nat, b: nat, s: string, j: nat)
    requires a <= b <= |p| && Agrees(p, a, b, s, j)
    ensures From(p, a, s, j) <==> From(p, b, s, j + (b - a))
    decreases b - a
  {
    if a < b {
      DropAgreed(p, a + 1, b, s, j + 1);
    }
  }

  /** A match of a star-free block forces the block to agree where it starts. */
  lemma {:induction false} BlockMustAgree(p: string, a: nat, b: nat, s: string, j: nat)
    requires a <= b <= |p| && j <= |s|
    requires forall k :: a <= k < b ==> p[k] != '*'
    requires From(p, a, s, j)
    ensures j + (b - a) <= |s| && From(p, b, s, j + (b - a))
    decreases b - a
  {
    if a < b {
      BlockMustAgree(p, a + 1, b, s, j + 1);
    }
  }

  /** A star at `i` may stop swallowing earlier or later: it matches from `j` if it matches
      from a later `k`. */
  lemma {:induction false} StarFromEarlier(p: string, i: nat, s: string, j: nat, k: nat)
    requires i < |p| && p[i] == '*' && j <= k <= |s| && From(p, i, s, k)
    ensures From(p, i, s, j)
    decreases k - j
  {
    if j < k {
      StarFromEarlier(p, i, s, j + 1, k);
    }
  }

  /** Where a star stops swallowing. */
  lemma {:induction false} StarStops(p: string, i: nat, s: string, j: nat) returns (k: nat)
    requires i < |p| && p[i] == '*' && j <= |s| && From(p, i, s, j)
    ensures j <= k <= |s| && From(p, i + 1, s, k)
    decreases |s| - j
  {
    if From(p, i + 1, s, j) {
      k := j;
    } else {
      k := StarStops(p, i, s, j + 1);
    }
  }

  /** Forgetting every star but the last loses no match: once a second star is reached, the
      first one need not be extended any further. */
  lemma {:induction false} LastStarSuffices(p: string, star: nat, next: nat, s: string, j: nat)
    requires star < next < |p| && p[star] == '*' && p[next] == '*'
    requires Agrees(p, star + 1, next, s, j)
    ensures From(p, star, s, j) <==> From(p, next, s, j + (next - star - 1))
  {
    var n := next - star - 1;
    if From(p, star, s, j) {
      var k := StarStops(p, star, s, j);
      BlockMustAgree(p, star + 1, next, s, k);
      StarFromEarlier(p, next, s, j + n, k + n);
    }
    if From(p, next, s, j + n) {
      DropAgreed(p, star + 1, next, s, j);
    }
  }

  /** What the main loop knows: the remembered star (if any) still decides the match, and the
      block between it and `pi` agrees with the subject up to `si`. */
  ghost predicate Scanning(p: string, s: string, pi: int, si: int, starPi: int, starSi: int) {
    && 0 <= pi <= |p| && 0 <= si <= |s|
    && if starPi < 0 then
         starPi == -1 && starSi == -1 && pi == si && (From(p, 0, s, 0) <==> From(p, pi, s, si))
       else
         && starPi < pi && p[starPi] == '*'
         && 0 <= starSi && si == starSi + (pi - starPi - 1)
         && Agrees(p, starPi + 1, pi, s, starSi)
         && (From(p, 0, s, 0) <==> From(p, starPi, s, starSi))
  }

  lemma {:induction false} ScanForward(p: string, s: string, pi: int, si: int, starPi: int, starSi: int)
    requires Scanning(p, s, pi, si, starPi, starSi)
    requires pi < |p| && si < |s| && p[pi] != '*' && (p[pi] == '?' || p[pi] == s[si])
    ensures Scanning(p, s, pi + 1, si + 1, starPi, starSi)
  {
  }

  lemma {:induction false} ScanStar(p: string, s: string, pi: int, si: int, starPi: int, starSi: int)
    requires Scanning(p, s, pi, si, starPi, starSi)
    requires pi < |p| && si < |s| && p[pi] == '*'
    ensures Scanning(p, s, pi + 1, si, pi, si)
  {
    if starPi >= 0 {
      LastStarSuffices(p, starPi, pi, s, starSi);
    }
  }

  lemma {:induction false} ScanMismatch(p: string, s: string, pi: int, si: int, starPi: int, starSi: int)
    requires Scanning(p, s, pi, si, starPi, starSi)
    requires si < |s|
    requires pi < |p| ==> p[pi] != '*' && p[pi] != '?' && p[pi] != s[si]
    ensures starPi >= 0 ==> Scanning(p, s, starPi + 1, starSi + 1, starPi, starSi + 1)
    ensures starPi < 0 ==> !From(p, 0, s, 0)
  {
    if starPi >= 0 {
      DropAgreed(p, starPi + 1, pi, s, starSi);
    }
  }

  /** With the subject consumed, extending the remembered star further cannot help. */
  lemma {:induction false} ScanEnd(p: string, s: string, pi: int, starPi: int, starSi: int)
    requires Scanning(p, s, pi, |s|, starPi, starSi)
    ensures From(p, 0, s, 0) <==> From(p, pi, s, |s|)
  {
    if starPi >= 0 {
      DropAgreed(p, starPi + 1, pi, s, starSi);
      if From(p, starPi, s, starSi) {
        var k := StarStops(p, starPi, s, starSi);
        BlockMustAgree(p, starPi + 1, pi, s, k);
      }
    }
  }

  /** `n` added up `k` times. */
  ghost function Times(n: nat, k: nat): nat {
    if k == 0 then 0 else Times(n, k - 1) + n
  }

  lemma {:induction false} TimesIsProduct(n: nat, k: nat)
    ensures Times(n, k) == n * k
  {
    if k > 0 {
      TimesIsProduct(n, k - 1);
    }
  }

  lemma {:induction false} TimesGrows(n: nat, j: nat, k: nat)
    requires j <= k
    ensures Times(n, j) <= Times(n, k)
  {
    if j < k {
      TimesGrows(n, j, k - 1);
    }
  }

  /** `Pattern.Match`: agrees with `Matches`, and the main loop runs at most
      (|p|+1)·(|s|+1) times. */
  method Match(p: string, s: string) returns (ok: bool, ghost steps: nat)
    ensures ok <==> Matches(p, s)
    ensures steps <= (|p| + 1) * (|s| + 1)
  {
    var pi, si := 0, 0;
    var starPi, starSi := -1, -1;
    steps := 0;
    FromIsMatches(p, 0, s, 0);
    assert p[0..] == p && s[0..] == s;

    while si < |s|
      invariant Scanning(p, s, pi, si, starPi, starSi)
      invariant steps <= pi + if starSi < 0 then 0 else Times(|p| + 1, starSi)
      decreases |s| - starSi, |p| - pi
    {
      steps := steps + 1;
      if pi < |p| && p[pi] == '?' {
        ScanForward(p, s, pi, si, starPi, starSi);
        pi, si := pi + 1, si + 1;
      } else if pi < |p| && p[pi] == '*' {
        ScanStar(p, s, pi, si, starPi, starSi);
        TimesGrows(|p| + 1, if starSi < 0 then 0 else starSi, si);
        starPi, starSi := pi, si;
        pi := pi + 1;
      } else if pi < |p| && p[pi] == s[si] {
        ScanForward(p, s, pi, si, starPi, starSi);
        pi, si := pi + 1, si + 1;
      } else if starPi >= 0 {
        ScanMismatch(p, s, pi, si, starPi, starSi);
        starSi := starSi + 1;
        pi, si := starPi + 1, starSi;
      } else {
        ScanMismatch(p, s, pi, si, starPi, starSi);
        TimesGrows(|p| + 1, 0, |s|);
        TimesIsProduct(|p| + 1, |s| + 1);
        return false, steps;
      }
    }
    ScanEnd(p, s, pi, starPi, starSi);
    TimesGrows(|p| + 1, if starSi < 0 then 0 else starSi, |s|);

    pi := SkipStars(p, pi, s);
    TimesIsProduct(|p| + 1, |s| + 1);
    ok := pi == |p|;
  }

  /** Trailing stars match nothing. */
  method SkipStars(p: string, start: nat, s: string) returns (pi: nat)
    requires start <= |p|
    ensures pi <= |p| && (From(p, start, s, |s|) <==> pi == |p|)
  {
    pi := start;
    while pi < |p| && p[pi] == '*'
      invariant pi <= |p|
      invariant From(p, start, s, |s|) <==> From(p, pi, s, |s|)
    {
      pi := pi + 1;
    }
  }

  // ---------------------------------------------------------------- specificity

  datatype Specificity = Specificity(wildcard: bool, literals: nat, stars: nat, text: string)

  /** How many characters of `p` are wildcards. */
  function Wildcards(p: string): (n: nat)
    ensures n <= |p|
  {
    if p == "" then 0
    else Wildcards(p[..|p| - 1]) + if IsWildcardChar(p[|p| - 1]) then 1 else 0
  }

  lemma {:induction false} HasWildcards(p: string)
    ensures Wildcards(p) > 0 <==> IsWildcard(p)
  {
    if p != "" {
      var q := p[..|p| - 1];
      HasWildcards(q);
      assert forall i :: 0 <= i < |q| ==> q[i] == p[i];
      if IsWildcard(q) {
        var i :| 0 <= i < |q| && IsWildcardChar(q[i]);
        assert IsWildcardChar(p[i]);
      }
    }
  }

  function RankOf(p: string): Specificity {
    Specificity(IsWildcard(p), |p| - Wildcards(p), Wildcards(p), p)
  }

  /** `rank`: one pass over the pattern. */
  method Rank(p: string) returns (spec: Specificity)
    ensures spec == RankOf(p)
  {
    var wildcard, literals, stars := false, 0, 0;
    for i := 0 to |p|
      invariant literals + stars == i
      invariant stars == Wildcards(p[..i])
      invariant wildcard <==> stars > 0
    {
      assert p[..i + 1][..i] == p[..i];
      if IsWildcardChar(p[i]) {
        stars := stars + 1;
        wildcard := true;
      } else {
        literals := literals + 1;
      }
    }
    assert p[..|p|] == p;
    HasWildcards(p);
    spec := Specificity(wildcard, literals, stars, p);
  }

  predicate MoreSpecificThan(a: Specificity, b: Specificity) {
    if a.wildcard != b.wildcard then !a.wildcard
    else if a.literals != b.literals then a.literals > b.literals
    else if a.stars != b.stars then a.stars < b.stars
    else TextLess(a.text, b.text)
  }

  /** Pattern `a` is preferred over pattern `b`. */
  predicate Beats(a: string, b: string) {
    MoreSpecificThan(RankOf(a), RankOf(b))
  }

  /** The order is a strict total order on patterns. */
  lemma {:induction false} BeatsIsTotal(a: string, b: string)
    ensures a == b || Beats(a, b) || Beats(b, a)
    ensures !(Beats(a, b) && Beats(b, a))
    ensures !Beats(a, a)
  {
    TextLessTotal(a, b);
    TextLessIrreflexive(a);
    if TextLess(a, b) && TextLess(b, a) {
      TextLessTransitive(a, b, a);
    }
  }

  lemma {:induction false} BeatsTransitive(a: string, b: string, c: string)
    requires Beats(a, b) && Beats(b, c)
    ensures Beats(a, c)
  {
    if TextLess(a, b) && TextLess(b, c) {
      TextLessTransitive(a, b, c);
    }
  }

  /** The positions that hold a wildcard, and those that hold anything else. */
  ghost function WildcardsOf(p: string): set<nat> {
    set i: nat | i < |p| && (p[i] == '*' || p[i] == '?')
  }

  ghost function LiteralsOf(p: string): set<nat> {
    set i: nat | i < |p| && p[i] != '*' && p[i] != '?'
  }

  lemma {:induction false} RankCounts(p: string)
    ensures |WildcardsOf(p)| == Wildcards(p) && |LiteralsOf(p)| == |p| - Wildcards(p)
  {
    if p != "" {
      var n := |p| - 1;
      RankCounts(p[..n]);
      OnePositionMore(p);
      assert n !in WildcardsOf(p[..n]) && n !in LiteralsOf(p[..n]);
    }
  }

  lemma {:induction false} OnePositionMore(p: string)
    requires p != ""
    ensures var n: nat := |p| - 1;
      && WildcardsOf(p) == WildcardsOf(p[..n]) + (if p[n] == '*' || p[n] == '?' then {n} else {})
      && LiteralsOf(p) == LiteralsOf(p[..n]) + (if p[n] == '*' || p[n] == '?' then {} else {n})
  {
    var n := |p| - 1;
    assert forall i :: 0 <= i < n ==> p[..n][i] == p[i];
  }

  /** Exact before wildcards; then more literal characters, fewer wildcards, and byte order. */
  ghost predicate Preferred(p: string, q: string) {
    || (WildcardsOf(p) == {} && WildcardsOf(q) != {})
    || (&& (WildcardsOf(p) == {} <==> WildcardsOf(q) == {})
        && (|| |LiteralsOf(p)| > |LiteralsOf(q)|
            || (|LiteralsOf(p)| == |LiteralsOf(q)| && |WildcardsOf(p)| < |WildcardsOf(q)|)
            || (|LiteralsOf(p)| == |LiteralsOf(q)| && |WildcardsOf(p)| == |WildcardsOf(q)| && LeadsInBytes(p, q))))
  }

  lemma {:induction false} IsWildcardIff(p: string)
    ensures IsWildcard(p) <==> WildcardsOf(p) != {}
  {
    if IsWildcard(p) {
      var i: nat :| i < |p| && IsWildcardChar(p[i]);
      assert i in WildcardsOf(p);
    }
  }

  /** The comparison of ranks prefers as it should. */
  lemma {:induction false} BeatsIffPreferred(p: string, q: string)
    ensures Beats(p, q) <==> Preferred(p, q)
  {
    RankCounts(p);
    RankCounts(q);
    IsWildcardIff(p);
    IsWildcardIff(q);
    TextLessIff(p, q);
  }

  /** A pattern with one wildcard replaced by a literal character is preferred to it. */
  lemma {:induction false} RefinementIsPreferred(q: string, i: nat, c: char)
    requires i < |q| && (q[i] == '*' || q[i] == '?') && c != '*' && c != '?'
    ensures Beats(q[i := c], q)
  {
    var p := q[i := c];
    assert i in WildcardsOf(q) && LiteralsOf(p) == LiteralsOf(q) + {i} && i !in LiteralsOf(q);
    BeatsIffPreferred(p, q);
  }

  // ---------------------------------------------------------------- validation

  const MaxPatternLen := 512

  predicate IsSpace(c: char) {
    c == ' ' || '\t' <= c <= '\r'
  }

  /** `strings.TrimSpace(s) == s`, for ASCII white space. */
  predicate IsTrimmed(s: string) {
    s == "" || (!IsSpace(s[0]) && !IsSpace(s[|s| - 1]))
  }

  predicate ValidPattern(p: string) {
    && p != ""
    && |p| <= MaxPatternLen
    && (forall i :: 0 <= i < |p| ==> p[i] != '\0' && p[i] != '\r' && p[i] != '\n')
    && IsTrimmed(p)
  }
}
