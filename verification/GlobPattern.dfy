/**
 The glob matcher match_prefix of client-ld-preload/Mongoose_Aget/mongoose/mongoose.c:
 `?` is any character, `*` any run without a slash, `**` any run, `$` the end of
 the string, `|` separates alternatives.
 */
module GlobPattern {

  const NUL: char := '\0'

  /** A C string is read up to and including its terminator. */
  function At(s: string, i: nat): char {
    if i < |s| then s[i] else NUL
  }

  predicate NulFree(s: string) {
    forall i :: 0 <= i < |s| ==> s[i] != NUL
  }

  /** strcspn(s, "/") */
  function Span(s: string): (n: nat)
    ensures n <= |s|
  {
    if s == "" || s[0] == '/' then 0 else 1 + Span(s[1..])
  }

  lemma {:induction false} SpanMeaning(s: string)
    ensures forall i :: 0 <= i < Span(s) ==> s[i] != '/'
    ensures Span(s) < |s| ==> s[Span(s)] == '/'
  {
    if s != "" && s[0] != '/' {
      SpanMeaning(s[1..]);
      assert forall i :: 1 <= i < |s| ==> s[i] == s[1..][i - 1];
    }
  }

  // ---------- what a pattern without alternatives means ----------

  /** How long the leading star of a pattern is, and how far it can reach into s. */
  function StarWidth(p: string): (w: nat)
    requires p != "" && p[0] == '*'
    ensures 1 <= w <= |p|
  {
    if At(p, 1) == '*' then 2 else 1
  }

  function Reach(p: string, s: string): (n: nat)
    requires p != "" && p[0] == '*'
    ensures n <= |s|
  {
    if At(p, 1) == '*' then |s| else Span(s)
  }

  /** The same without counting: a single star reaches over no slash, a double one over anything. */
  lemma ReachMeaning(p: string, s: string, l: nat)
    requires p != "" && p[0] == '*'
    ensures l <= Reach(p, s) <==> l <= |s| && (At(p, 1) == '*' || forall i :: 0 <= i < l ==> s[i] != '/')
  {
    SpanMeaning(s);
  }

  /** p matches exactly the first k characters of s. */
  ghost predicate Matches(p: string, s: string, k: int)
    decreases |p|
  {
    if p == "" then k == 0
    else if p[0] == '$' then s == "" && k == 0
    else if p[0] == '*' then
      exists l :: 0 <= l <= Reach(p, s) && Matches(p[StarWidth(p)..], s[l..], k - l)
    else
      s != "" && (p[0] == '?' || p[0] == s[0]) && Matches(p[1..], s[1..], k - 1)
  }

  predicate NoSlash(s: string, l: nat) {
    l <= |s| && forall i :: 0 <= i < l ==> s[i] != '/'
  }

  /** The pattern language, by its first character; these laws determine Matches. */
  lemma PatternLaws(c: char, q: string, s: string, k: int)
    ensures Matches("", s, k) <==> k == 0
    ensures Matches("$" + q, s, k) <==> s == "" && k == 0
    ensures Matches("?" + q, s, k) <==> s != "" && Matches(q, s[1..], k - 1)
    ensures c !in "$?*" ==> (Matches([c] + q, s, k) <==> s != "" && s[0] == c && Matches(q, s[1..], k - 1))
    ensures Matches("**" + q, s, k) <==> exists l :: 0 <= l <= |s| && Matches(q, s[l..], k - l)
    ensures q == "" || q[0] != '*' ==>
      (Matches("*" + q, s, k) <==>
       exists l: nat :: NoSlash(s, l) && Matches(q, s[l..], k - l))
  {
    PlainLaw('$', q, s, k);
    PlainLaw('?', q, s, k);
    if c != '*' {
      PlainLaw(c, q, s, k);
    }
    StarLaw("**" + q, q, s, k);
    if q == "" || q[0] != '*' {
      StarLaw("*" + q, q, s, k);
    }
  }

  lemma PlainLaw(c: char, q: string, s: string, k: int)
    requires c != '*'
    ensures Matches([c] + q, s, k) <==>
      if c == '$' then s == "" && k == 0 else s != "" && (c == '?' || c == s[0]) && Matches(q, s[1..], k - 1)
  {
    assert ([c] + q)[1..] == q;
  }

  lemma StarLaw(p: string, q: string, s: string, k: int)
    requires p == "**" + q || (p == "*" + q && (q == "" || q[0] != '*'))
    ensures Matches(p, s, k) <==>
      exists l: nat :: l <= |s| && (p == "**" + q || NoSlash(s, l)) && Matches(q, s[l..], k - l)
  {
    assert p[StarWidth(p)..] == q;
    forall l: nat {:trigger NoSlash(s, l)} ensures l <= Reach(p, s) <==> l <= |s| && (p == "**" + q || NoSlash(s, l)) {
      ReachMeaning(p, s, l);
    }
  }

  lemma {:induction false} MatchesInRange(p: string, s: string, k: int)
    requires Matches(p, s, k)
    ensures 0 <= k <= |s|
    decreases |p|
  {
    if p == "" || p[0] == '$' {
    } else if p[0] == '*' {
      var l :| 0 <= l <= Reach(p, s) && Matches(p[StarWidth(p)..], s[l..], k - l);
      MatchesInRange(p[StarWidth(p)..], s[l..], k - l);
    } else {
      MatchesInRange(p[1..], s[1..], k - 1);
    }
  }

  lemma ReachFrom(p: string, s: string, d: nat)
    requires p != "" && p[0] == '*' && d <= Reach(p, s)
    ensures Reach(p, s[d..]) == Reach(p, s) - d
  {
    if At(p, 1) != '*' {
      SpanFrom(s, d);
    }
  }

  lemma {:induction false} SpanFrom(s: string, d: nat)
    requires d <= Span(s)
    ensures Span(s[d..]) == Span(s) - d
  {
    if d > 0 {
      SpanFrom(s[1..], d - 1);
      assert s[1..][d - 1..] == s[d..];
    } else {
      assert s[0..] == s;
    }
  }

  /** Two matches of p, the second starting d later but ending earlier: they cross inside a star,
      so p also matches from the later start to the later end. */
  lemma {:induction false} Crossing(p: string, s: string, k1: int, d: nat, k2: int)
    requires Matches(p, s, k1) && d <= |s| && Matches(p, s[d..], k2) && d + k2 < k1
    ensures Matches(p, s[d..], k1 - d)
    decreases |p|, 1
  {
    hide Matches;
    MatchesInRange(p, s[d..], k2);
    if p == "" || p[0] == '$' {
      MatchesEnd(p, s, k1);
    } else if p[0] == '*' {
      var l1 := StarSplit(p, s, k1);
      var l2 := StarSplit(p, s[d..], k2);
      CrossingStar(p, p[StarWidth(p)..], s, l1, k1 - l1, d, l2, k2 - l2);
    } else {
      MatchesStep(p, s, k1);
      MatchesStep(p, s[d..], k2);
      MatchesStep(p, s[d..], k1 - d);
      assert s[1..][d..] == s[d..][1..];
      Crossing(p[1..], s[1..], k1 - 1, d, k2 - 1);
    }
  }

  lemma MatchesEnd(p: string, s: string, k: int)
    requires (p == "" || p[0] == '$') && Matches(p, s, k)
    ensures k == 0
  {
  }

  lemma MatchesStep(p: string, s: string, k: int)
    requires p != "" && p[0] != '$' && p[0] != '*'
    ensures Matches(p, s, k) <==> s != "" && (p[0] == '?' || p[0] == s[0]) && Matches(p[1..], s[1..], k - 1)
  {
  }

  lemma StarSplit(p: string, s: string, k: int) returns (l: nat)
    requires p != "" && p[0] == '*' && Matches(p, s, k)
    ensures l <= Reach(p, s) && Matches(p[StarWidth(p)..], s[l..], k - l)
  {
    l :| 0 <= l <= Reach(p, s) && Matches(p[StarWidth(p)..], s[l..], k - l);
  }

  lemma {:induction false} CrossingStar(p: string, q: string, s: string, l1: nat, k1: int, d: nat, l2: nat, k2: int)
    requires p != "" && p[0] == '*' && q == p[StarWidth(p)..]
    requires d <= |s| && l1 <= Reach(p, s) && l2 <= Reach(p, s[d..])
    requires Matches(q, s[l1..], k1) && Matches(q, s[d..][l2..], k2) && d + l2 + k2 < l1 + k1
    ensures Matches(p, s[d..], l1 + k1 - d)
    decreases |p|, 0
  {
    hide Matches;
    assert s[d..][l2..] == s[d + l2..];
    if l1 >= d + l2 {
      ReachFrom(p, s, d);
      assert s[d..][l1 - d..] == s[l1..];
      StarMatches(p, s[d..], l1 - d, k1);
    } else {
      var d' := d + l2 - l1;
      assert s[l1..][d'..] == s[d + l2..];
      Crossing(q, s[l1..], k1, d', k2);
      StarMatches(p, s[d..], l2, k1 - d');
    }
  }

  lemma StarMatches(p: string, s: string, l: nat, k: int)
    requires p != "" && p[0] == '*' && l <= Reach(p, s) && Matches(p[StarWidth(p)..], s[l..], k)
    ensures Matches(p, s, l + k)
  {
    assert k == l + k - l;
  }

  /** r is the length of the longest prefix of s that p matches, -1 if there is none. */
  ghost predicate Longest(p: string, s: string, r: int) {
    if r == -1 then forall k :: !Matches(p, s, k)
    else Matches(p, s, r) && forall k :: Matches(p, s, k) ==> k <= r
  }

  lemma LongestIsUnique(p: string, s: string, r: int, r': int)
    requires Longest(p, s, r) && Longest(p, s, r')
    ensures r == r' >= -1
  {
    if r != -1 {
      MatchesInRange(p, s, r);
    }
  }

  /** The first success from the far end of a star is the longest match. */
  lemma FarthestIsLongest(p: string, s: string, l: nat, r: int)
    requires p != "" && p[0] == '*' && l <= Reach(p, s) && r != -1 && Longest(p[StarWidth(p)..], s[l..], r)
    requires forall m :: l < m <= Reach(p, s) ==> Longest(p[StarWidth(p)..], s[m..], -1)
    ensures Longest(p, s, l + r)
  {
    var q := p[StarWidth(p)..];
    StarMatches(p, s, l, r);
    MatchesInRange(q, s[l..], r);
    forall k | Matches(p, s, k) ensures k <= l + r {
      var m :| 0 <= m <= Reach(p, s) && Matches(q, s[m..], k - m);
      assert m <= l;
      if k > l + r {
        assert s[m..][l - m..] == s[l..];
        Crossing(q, s[m..], k - m, l - m, r);
      }
    }
  }

  // ---------- the matcher ----------

  /** memchr(pattern, '|', ...): where the first alternative ends. */
  function Bar(p: string): (n: nat)
    ensures n <= |p| && (n < |p| ==> p[n] == '|')
    ensures forall i :: 0 <= i < n ==> p[i] != '|'
  {
    if p == "" || p[0] == '|' then 0
    else
      var n := Bar(p[1..]);
      assert forall i :: 1 <= i < n + 1 ==> p[i] == p[1..][i - 1];
      1 + n
  }

  /** The alternatives of a pattern. */
  function Alternatives(p: string): (r: seq<string>)
    ensures r != []
    decreases |p|
  {
    var b := Bar(p);
    if b == |p| then [p] else [p[..b]] + Alternatives(p[b + 1..])
  }

  /** The first alternative that matches something, else the last alternative decides. */
  ghost predicate Result(p: string, s: string, r: int)
    decreases |p|
  {
    var b := Bar(p);
    if b == |p| then Longest(p, s, r)
    else exists ra :: Longest(p[..b], s, ra) && if ra > 0 then r == ra else Result(p[b + 1..], s, r)
  }

  /** The first i characters of p and s agree: what p matches in s is what the rest matches in the rest. */
  ghost predicate Agree(p: string, s: string, i: nat) {
    i <= |p| && i <= |s| && forall k :: Matches(p, s, k) <==> Matches(p[i..], s[i..], k - i)
  }

  lemma AgreeStart(p: string, s: string)
    ensures Agree(p, s, 0)
  {
    assert p[0..] == p && s[0..] == s;
  }

  lemma AgreeNext(p: string, s: string, i: nat)
    requires Agree(p, s, i) && i < |p| && i < |s| && p[i] != '$' && p[i] != '*' && (p[i] == '?' || p[i] == s[i])
    ensures Agree(p, s, i + 1)
  {
    assert p[i..][1..] == p[i + 1..] && s[i..][1..] == s[i + 1..];
    forall k ensures Matches(p, s, k) <==> Matches(p[i + 1..], s[i + 1..], k - (i + 1)) {
      MatchesStep(p[i..], s[i..], k - i);
      assert k - i - 1 == k - (i + 1);
    }
  }

  lemma LongestAfter(p: string, s: string, i: nat, r: int)
    requires Agree(p, s, i) && r >= -1 && Longest(p[i..], s[i..], r)
    ensures Longest(p, s, if r == -1 then -1 else i + r)
  {
    hide Matches;
    if r != -1 {
      MatchesInRange(p[i..], s[i..], r);
      assert i + r - i == r;
      assert Matches(p, s, i + r);
    }
  }

  method MatchPrefix(pattern: string, str: string) returns (r: int)
    requires NulFree(pattern) && NulFree(str)
    ensures r >= -1 && Result(pattern, str, r)
    decreases |pattern|, 2
  {
    var bar := Bar(pattern);
    if bar < |pattern| {
      var res := MatchPrefix(pattern[..bar], str);
      assert Longest(pattern[..bar], str, res);
      if res > 0 {
        return res;
      }
      r := MatchPrefix(pattern[bar + 1..], str);
    } else {
      r := MatchOne(pattern, str);
    }
  }

  lemma EndLongest(p: string, s: string, i: nat)
    requires Agree(p, s, i) && i < |p| && i <= |s| && p[i] == '$'
    ensures Longest(p, s, if i == |s| then i else -1)
  {
    hide Agree;
    assert Longest(p[i..], s[i..], if i == |s| then 0 else -1);
    LongestAfter(p, s, i, if i == |s| then 0 else -1);
  }

  lemma MismatchLongest(p: string, s: string, i: nat)
    requires Agree(p, s, i) && i < |p| && i <= |s| && p[i] != '$' && p[i] != '*' && (i == |s| || (p[i] != '?' && p[i] != s[i]))
    ensures Longest(p, s, -1)
  {
    hide Agree;
    assert Longest(p[i..], s[i..], -1);
    LongestAfter(p, s, i, -1);
  }

  lemma AllCompared(p: string, s: string)
    requires Agree(p, s, |p|) && |p| <= |s|
    ensures Longest(p, s, |p|)
  {
    hide Agree;
    assert p[|p|..] == "" && Longest("", s[|p|..], 0);
    LongestAfter(p, s, |p|, 0);
  }

  /** match_prefix on a pattern without alternatives. */
  method MatchOne(pattern: string, str: string) returns (r: int)
    requires NulFree(pattern) && NulFree(str) && Bar(pattern) == |pattern|
    ensures r >= -1 && Longest(pattern, str, r)
    decreases |pattern|, 1
  {
    hide Longest, Agree;
    var i, j := 0, 0;
    AgreeStart(pattern, str);
    while i < |pattern|
      invariant i == j && i <= |pattern| && j <= |str| && Agree(pattern, str, i)
    {
      if pattern[i] == '?' && At(str, j) != NUL {
        AgreeNext(pattern, str, i);
      } else if pattern[i] == '$' {
        EndLongest(pattern, str, i);
        return if At(str, j) == NUL then j else -1;
      } else if pattern[i] == '*' {
        r := MatchStar(pattern[i..], str[j..]);
        LongestAfter(pattern, str, i, r);
        return if r == -1 then -1 else j + r;
      } else if pattern[i] != At(str, j) {
        MismatchLongest(pattern, str, i);
        return -1;
      } else {
        AgreeNext(pattern, str, i);
      }
      i, j := i + 1, j + 1;
    }
    AllCompared(pattern, str);
    return j;
  }

  /** The branch of match_prefix for a star: what follows is tried from the far end of its reach. */
  method MatchStar(pattern: string, str: string) returns (r: int)
    requires NulFree(pattern) && NulFree(str) && Bar(pattern) == |pattern|
    requires pattern != "" && pattern[0] == '*'
    ensures r >= -1 && Longest(pattern, str, r)
    decreases |pattern|, 0
  {
    var i, len := 1, 0;
    if At(pattern, i) == '*' {
      i := i + 1;
      len := |str|;
    } else {
      len := Span(str);
    }
    if i == |pattern| {
      FarthestIsLongest(pattern, str, len, 0);
      return len;
    }
    var res := MatchPrefix(pattern[i..], str[len..]);
    while res == -1 && len > 0
      invariant len <= Reach(pattern, str) && res >= -1 && Longest(pattern[i..], str[len..], res)
      invariant forall m :: len < m <= Reach(pattern, str) ==> Longest(pattern[i..], str[m..], -1)
    {
      len := len - 1;
      res := MatchPrefix(pattern[i..], str[len..]);
    }
    if res == -1 {
      return -1;
    }
    FarthestIsLongest(pattern, str, len, res);
    return res + len;
  }

  // ---------- what the result says ----------

  ghost predicate MatchesSome(p: string, s: string) {
    exists k :: k > 0 && Matches(p, s, k)
  }

  lemma LongestSome(p: string, s: string, r: int)
    requires Longest(p, s, r)
    ensures r > 0 <==> MatchesSome(p, s)
  {
  }

  /** r is positive if and only if one of the alternatives matches a non-empty prefix; it is then the
      longest match of the first that does, and otherwise what the last alternative says. */
  ghost predicate Decides(alts: seq<string>, s: string, r: int) {
    && alts != []
    && (r > 0 <==> exists i :: 0 <= i < |alts| && MatchesSome(alts[i], s))
    && (r > 0 ==> exists i :: 0 <= i < |alts| && FirstToMatch(alts, s, r, i))
    && (r <= 0 ==> Longest(alts[|alts| - 1], s, r))
  }

  ghost predicate FirstToMatch(alts: seq<string>, s: string, r: int, i: nat)
    requires i < |alts|
  {
    Longest(alts[i], s, r) && forall j :: 0 <= j < i ==> !MatchesSome(alts[j], s)
  }

  lemma DecidesFirst(first: string, others: seq<string>, s: string, r: int)
    requires Longest(first, s, r) && r > 0
    ensures Decides([first] + others, s, r)
  {
    LongestSome(first, s, r);
    assert FirstToMatch([first] + others, s, r, 0);
  }

  lemma DecidesLater(first: string, others: seq<string>, s: string, r: int)
    requires !MatchesSome(first, s) && Decides(others, s, r)
    ensures Decides([first] + others, s, r)
  {
    hide MatchesSome, Longest;
    var alts := [first] + others;
    assert forall j :: 0 <= j < |others| ==> alts[j + 1] == others[j];
    if r > 0 {
      var i :| 0 <= i < |others| && FirstToMatch(others, s, r, i);
      assert FirstToMatch(alts, s, r, i + 1);
      var m :| 0 <= m < |others| && MatchesSome(others[m], s);
      assert MatchesSome(alts[m + 1], s);
    }
  }

  lemma {:induction false} ResultMeaning(p: string, s: string, r: int)
    requires Result(p, s, r)
    ensures Decides(Alternatives(p), s, r)
    decreases |p|
  {
    hide Matches, Longest, MatchesSome;
    var b := Bar(p);
    if b == |p| {
      LongestSome(p, s, r);
      assert r > 0 ==> FirstToMatch([p], s, r, 0);
      assert Alternatives(p)[0] == p;
    } else {
      var first, rest := p[..b], p[b + 1..];
      var ra :| Longest(first, s, ra) && if ra > 0 then r == ra else Result(rest, s, r);
      LongestSome(first, s, ra);
      if ra > 0 {
        DecidesFirst(first, Alternatives(rest), s, r);
      } else {
        ResultMeaning(rest, s, r);
        DecidesLater(first, Alternatives(rest), s, r);
      }
    }
  }
}
