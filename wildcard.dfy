/** The shell-style name patterns used to recognise test projects: `*`
    matches any run of characters, `?` exactly one character, and every other
    character itself. This is the part of Sonar's WildcardPattern that applies
    to assembly names and patterns containing no directory separator. */
module Wildcard {
  import opened Text

  predicate IsWildcard(c: char) {
    c == '*' || c == '?'
  }

  /** `p` is a pattern without wildcards. */
  predicate Literal(p: string) {
    forall k :: 0 <= k < |p| ==> !IsWildcard(p[k])
  }

  /** The whole of `s` matches the pattern `p`. */
  predicate Glob(p: string, s: string)
    decreases |p| + |s|
  {
    if p == [] then s == []
    else if p[0] == '*' then Glob(p[1..], s) || (s != [] && Glob(p, s[1..]))
    else s != [] && (p[0] == '?' || p[0] == s[0]) && Glob(p[1..], s[1..])
  }

  /** A pattern without wildcards matches exactly itself. */
  lemma {:induction false} GlobLiteral(p: string, s: string)
    requires Literal(p)
    ensures Glob(p, s) <==> s == p
  {
    if p != [] && s != [] {
      assert Literal(p[1..]);
      GlobLiteral(p[1..], s[1..]);
      assert s == [s[0]] + s[1..] && p == [p[0]] + p[1..];
    }
  }

  /** `*` followed by a literal matches exactly the names ending in that
      literal: `*Test` accepts `MyProjectTest` and refuses `MyProject.IT`. */
  lemma {:induction false} GlobStarLiteral(t: string, s: string)
    requires Literal(t)
    ensures Glob(['*'] + t, s) <==> EndsWith(s, t)
  {
    var p := ['*'] + t;
    assert p[1..] == t;
    GlobLiteral(t, s);
    if s != [] {
      GlobStarLiteral(t, s[1..]);
      if |t| < |s| {
        assert s[1..][|s[1..]| - |t|..] == s[|s| - |t|..];
      } else if |t| == |s| {
        assert s[|s| - |t|..] == s;
      }
    }
  }

  /** `?` consumes exactly one character. */
  lemma QuestionMatchesOne(t: string, c: char, s: string)
    ensures Glob(['?'] + t, [c] + s) <==> Glob(t, s)
  {
    assert (['?'] + t)[1..] == t;
    assert ([c] + s)[1..] == s;
  }
}
