/** Searching stored log lines: a typed term is escaped and matched with LIKE. */
module LikeSearch {
  const ESCAPE := '\\'

  // ---------- escaping ----------

  /** Every occurrence of one character replaced. */
  function Replace(s: string, c: char, with: string): string {
    if s == "" then "" else (if s[0] == c then with else [s[0]]) + Replace(s[1..], c, with)
  }

  /** Three passes, the escape character first. */
  function EscapeLike(s: string): string {
    Replace(Replace(Replace(s, ESCAPE, "\\\\"), '%', "\\%"), '_', "\\_")
  }

  predicate Special(c: char) {
    c == ESCAPE || c == '%' || c == '_'
  }

  /** The reference: one pass, each special character behind an escape. */
  function Quoted(s: string): string {
    if s == "" then "" else (if Special(s[0]) then [ESCAPE, s[0]] else [s[0]]) + Quoted(s[1..])
  }

  lemma {:induction false} ReplaceConcat(a: string, b: string, c: char, with: string)
    ensures Replace(a + b, c, with) == Replace(a, c, with) + Replace(b, c, with)
  {
    if a == "" {
      assert a + b == b;
    } else {
      assert (a + b)[1..] == a[1..] + b;
      ReplaceConcat(a[1..], b, c, with);
    }
  }

  lemma ReplaceOne(x: char, c: char, with: string)
    ensures Replace([x], c, with) == if x == c then with else [x]
  {
    assert [x][1..] == "" && Replace("", c, with) == "";
    assert with + "" == with && [x] + "" == [x];
  }

  lemma EscapeOne(x: char)
    ensures EscapeLike([x]) == if Special(x) then [ESCAPE, x] else [x]
  {
    ReplaceOne(x, ESCAPE, "\\\\");
    ReplaceOne(x, '%', "\\%");
    ReplaceOne(x, '_', "\\_");
    ReplacePair(ESCAPE, ESCAPE, '%', "\\%");
    ReplacePair(ESCAPE, ESCAPE, '_', "\\_");
    ReplacePair(ESCAPE, '%', '_', "\\_");
    assert "\\\\" == [ESCAPE, ESCAPE] && "\\%" == [ESCAPE, '%'] && "\\_" == [ESCAPE, '_'];
  }

  lemma ReplacePair(x: char, y: char, c: char, with: string)
    requires x != c && y != c
    ensures Replace([x, y], c, with) == [x, y]
  {
    ReplaceOne(x, c, with);
    ReplaceOne(y, c, with);
    ReplaceConcat([x], [y], c, with);
    assert [x] + [y] == [x, y];
  }

  /** The passes do not disturb one another: together they quote each character once. */
  lemma {:induction false} ThreePassesAreOne(s: string)
    ensures EscapeLike(s) == Quoted(s)
  {
    if s != "" {
      ThreePassesAreOne(s[1..]);
      EscapeOne(s[0]);
      assert s == [s[0]] + s[1..];
      ReplaceConcat([s[0]], s[1..], ESCAPE, "\\\\");
      ReplaceConcat(Replace([s[0]], ESCAPE, "\\\\"), Replace(s[1..], ESCAPE, "\\\\"), '%', "\\%");
      ReplaceConcat(Replace(Replace([s[0]], ESCAPE, "\\\\"), '%', "\\%"),
                    Replace(Replace(s[1..], ESCAPE, "\\\\"), '%', "\\%"), '_', "\\_");
    }
  }

  // ---------- LIKE ... ESCAPE '\' ----------

  /** Section 9.7.1 of the PostgreSQL manual; a pattern that ends in a lone escape character is an error there and
      matches nothing here. */
  predicate Like(s: string, pattern: string)
    decreases |pattern| + |s|
  {
    if pattern == "" then s == ""
    else if pattern[0] == ESCAPE then
      |pattern| > 1 && s != "" && s[0] == pattern[1] && Like(s[1..], pattern[2..])
    else if pattern[0] == '%' then
      Like(s, pattern[1..]) || (s != "" && Like(s[1..], pattern))
    else if pattern[0] == '_' then
      s != "" && Like(s[1..], pattern[1..])
    else
      s != "" && s[0] == pattern[0] && Like(s[1..], pattern[1..])
  }

  function Pattern(q: string): string {
    "%" + EscapeLike(q) + "%"
  }

  ghost predicate OccursIn(q: string, s: string) {
    exists i :: 0 <= i <= |s| && q <= s[i..]
  }

  lemma QuotedHead(s: string, c: char, more: string)
    ensures Like(s, (if Special(c) then [ESCAPE, c] else [c]) + more) <==> s != "" && s[0] == c && Like(s[1..], more)
  {
    var p := (if Special(c) then [ESCAPE, c] else [c]) + more;
    assert if Special(c) then p[0] == ESCAPE && p[1] == c && p[2..] == more else p[0] == c && p[1..] == more;
  }

  /** A quoted term in front of a pattern stands for exactly itself. */
  lemma {:induction false} QuotedMatches(s: string, q: string, rest: string)
    ensures Like(s, Quoted(q) + rest) <==> q <= s && Like(s[|q|..], rest)
  {
    if q == "" {
      assert Quoted(q) + rest == rest && s[|q|..] == s;
    } else {
      QuotedHead(s, q[0], Quoted(q[1..]) + rest);
      assert Quoted(q) + rest == (if Special(q[0]) then [ESCAPE, q[0]] else [q[0]]) + (Quoted(q[1..]) + rest);
      hide Like, Quoted;
      if s != "" && s[0] == q[0] {
        QuotedMatches(s[1..], q[1..], rest);
        assert |q| <= |s| ==> s[1..][|q[1..]|..] == s[|q|..];
        assert q <= s <==> q[1..] <= s[1..];
      }
    }
  }

  lemma {:induction false} PercentMatchesAll(s: string)
    ensures Like(s, "%")
  {
    assert "%"[1..] == "";
    if s != "" {
      PercentMatchesAll(s[1..]);
    }
  }

  /** A leading percent sign tries every suffix. */
  lemma {:induction false} PercentTriesSuffixes(s: string, rest: string)
    ensures Like(s, "%" + rest) <==> exists i :: 0 <= i <= |s| && Like(s[i..], rest)
  {
    var p := "%" + rest;
    assert p[1..] == rest && s[0..] == s;
    if s != "" {
      PercentTriesSuffixes(s[1..], rest);
      if i :| 0 <= i <= |s| && Like(s[i..], rest) {
        if i > 0 { assert s[1..][i - 1..] == s[i..]; }
      }
      if i :| 0 <= i <= |s[1..]| && Like(s[1..][i..], rest) {
        assert s[1..][i..] == s[i + 1..];
      }
    }
  }

  /** The search is exact: a stored value matches if and only if the typed term occurs in it, whatever wildcards or
      escape characters either contains. */
  lemma SearchIsSubstring(s: string, q: string)
    ensures Like(s, Pattern(q)) <==> OccursIn(q, s)
  {
    ThreePassesAreOne(q);
    assert Pattern(q) == "%" + (Quoted(q) + "%");
    PercentTriesSuffixes(s, Quoted(q) + "%");
    forall i | 0 <= i <= |s|
      ensures Like(s[i..], Quoted(q) + "%") <==> q <= s[i..]
    {
      QuotedMatches(s[i..], q, "%");
      if q <= s[i..] { PercentMatchesAll(s[i..][|q|..]); }
    }
  }
}
