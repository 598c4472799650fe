/** Free-text search: `escapeLike` against the LIKE of section 9.7.1 of the
    PostgreSQL manual (packages/engine/src/query/conditions.ts). */
module Search {

  /** The characters LIKE reads as something other than themselves. */
  predicate Meta(c: char) {
    c == '\\' || c == '%' || c == '_'
  }

  /** One character escaped. */
  function Escaped(c: char): string {
    if Meta(c) then ['\\', c] else [c]
  }

  function EscapeLike(term: string): string {
    if term == "" then ""
    else Escaped(term[0]) + EscapeLike(term[1..])
  }

  /** `s like pattern`, with backslash as the escape character. */
  predicate Like(s: string, pattern: string)
    decreases |s| + |pattern|
  {
    if pattern == "" then s == ""
    else if pattern[0] == '%' then
      Like(s, pattern[1..]) || (s != "" && Like(s[1..], pattern))
    else if pattern[0] == '_' then
      s != "" && Like(s[1..], pattern[1..])
    else if pattern[0] == '\\' then
      |pattern| > 1 && s != "" && s[0] == pattern[1] && Like(s[1..], pattern[2..])
    else
      s != "" && s[0] == pattern[0] && Like(s[1..], pattern[1..])
  }

  function Folded(fold: char -> char, s: string): (r: string)
    ensures |r| == |s|
    ensures forall i :: 0 <= i < |s| ==> r[i] == fold(s[i])
  {
    if s == "" then "" else [fold(s[0])] + Folded(fold, s[1..])
  }

  /** ILIKE folds both operands and then compares them as LIKE does. */
  predicate ILike(fold: char -> char, s: string, pattern: string) {
    Like(Folded(fold, s), Folded(fold, pattern))
  }

  /** No letter folds to a metacharacter, and no metacharacter folds away. */
  ghost predicate KeepsMeta(fold: char -> char) {
    forall c :: Meta(c) || Meta(fold(c)) ==> fold(c) == c
  }

  ghost predicate Contains(s: string, t: string) {
    exists k :: 0 <= k <= |s| && t <= s[k..]
  }

  /** What the search box binds (conditions.ts:38, options.ts:40). */
  function SearchPattern(term: string): string {
    "%" + EscapeLike(term) + "%"
  }

  lemma {:induction false} FoldedAppends(fold: char -> char, a: string, b: string)
    ensures Folded(fold, a + b) == Folded(fold, a) + Folded(fold, b)
  {
    hide Folded;
  }

  lemma EscapedFolds(fold: char -> char, c: char)
    requires KeepsMeta(fold)
    ensures Folded(fold, Escaped(c)) == Escaped(fold(c))
  {
    assert Meta('\\');
    assert [fold(c)][1..] == "" && ['\\', c][1..] == [c] && [c][1..] == "";
  }

  lemma {:induction false} FoldCommutesWithEscape(fold: char -> char, term: string)
    requires KeepsMeta(fold)
    ensures Folded(fold, EscapeLike(term)) == EscapeLike(Folded(fold, term))
  {
    if term != "" {
      FoldCommutesWithEscape(fold, term[1..]);
      FoldedAppends(fold, Escaped(term[0]), EscapeLike(term[1..]));
      EscapedFolds(fold, term[0]);
      var folded := Folded(fold, term);
      assert folded[0] == fold(term[0]) && folded[1..] == Folded(fold, term[1..]);
      hide KeepsMeta, Folded, Escaped;
    }
  }

  /** A character escaped matches itself. */
  lemma OneMatches(s: string, c: char, rest: string)
    ensures Like(s, Escaped(c) + rest) <==> s != "" && s[0] == c && Like(s[1..], rest)
  {
    if Meta(c) {
      assert (Escaped(c) + rest)[2..] == rest;
    } else {
      assert (Escaped(c) + rest)[1..] == rest;
    }
  }

  /** An escaped term matches itself and nothing else. */
  lemma {:induction false} EscapedMatchesLiterally(s: string, term: string, rest: string)
    ensures Like(s, EscapeLike(term) + rest) <==> term <= s && Like(s[|term|..], rest)
  {
    hide Like, Escaped;
    if term == "" {
      assert EscapeLike(term) + rest == rest && s[0..] == s;
    } else {
      var tail := EscapeLike(term[1..]) + rest;
      assert EscapeLike(term) + rest == Escaped(term[0]) + tail;
      OneMatches(s, term[0], tail);
      if s != "" && s[0] == term[0] {
        EscapedMatchesLiterally(s[1..], term[1..], rest);
        PrefixesAlike(s, term);
      }
    }
  }

  lemma PrefixesAlike(s: string, term: string)
    requires s != "" && term != "" && s[0] == term[0]
    ensures term <= s <==> term[1..] <= s[1..]
    ensures |term| <= |s| ==> s[1..][|term| - 1..] == s[|term|..]
  {
    assert s == [s[0]] + s[1..] && term == [term[0]] + term[1..];
  }

  lemma {:induction false} PercentMatchesAnySuffix(s: string, rest: string)
    ensures Like(s, "%" + rest) <==> exists k :: 0 <= k <= |s| && Like(s[k..], rest)
    decreases |s|
  {
    assert ("%" + rest)[1..] == rest;
    assert s[0..] == s;
    if s != "" {
      PercentMatchesAnySuffix(s[1..], rest);
      forall k | 0 <= k <= |s| - 1 ensures s[1..][k..] == s[k + 1..] {}
      if k :| 0 <= k <= |s| && Like(s[k..], rest) {
        if k > 0 {
          assert s[1..][k - 1..] == s[k..];
        }
      }
    }
  }

  lemma PrefixThenAnything(s: string, term: string)
    ensures Like(s, EscapeLike(term) + "%") <==> term <= s
  {
    EscapedMatchesLiterally(s, term, "%");
    if term <= s {
      var left := s[|term|..];
      assert left[|left|..] == "";
      PercentMatchesAnySuffix(left, "");
      assert "%" + "" == "%";
    }
  }

  lemma PatternFolds(fold: char -> char, term: string)
    requires KeepsMeta(fold)
    ensures Folded(fold, SearchPattern(term)) == "%" + (EscapeLike(Folded(fold, term)) + "%")
  {
    FoldCommutesWithEscape(fold, term);
    assert Meta('%');
  }

  /** The search box finds exactly the text that holds the term, case aside. */
  lemma SearchIsSubstringSearch(fold: char -> char, s: string, term: string)
    requires KeepsMeta(fold)
    ensures ILike(fold, s, SearchPattern(term)) <==> Contains(Folded(fold, s), Folded(fold, term))
  {
    var text, wanted := Folded(fold, s), Folded(fold, term);
    PatternFolds(fold, term);
    PercentMatchesAnySuffix(text, EscapeLike(wanted) + "%");
    forall k | 0 <= k <= |text|
      ensures Like(text[k..], EscapeLike(wanted) + "%") <==> wanted <= text[k..]
    {
      PrefixThenAnything(text[k..], wanted);
    }
  }
}
