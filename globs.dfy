/** Shell-style pattern matching as `fnmatch.fnmatch` does it on POSIX paths,
    reduced to `*` (any run of characters, `'/'` included), `?` (any one
    character) and literal characters. Bracket classes `[...]` are matched
    literally. */
module Globs {

  predicate Match(pat: string, s: string)
    decreases |pat| + |s|
  {
    if pat == [] then s == []
    else if pat[0] == '*' then Match(pat[1..], s) || (s != [] && Match(pat, s[1..]))
    else s != [] && (pat[0] == '?' || pat[0] == s[0]) && Match(pat[1..], s[1..])
  }

  /** A pattern without wildcards matches exactly itself. */
  predicate Literal(pat: string) {
    '*' !in pat && '?' !in pat
  }

  /** `'*'` matches every path. */
  lemma {:induction false} StarMatchesAll(s: string)
    ensures Match("*", s)
    decreases |s|
  {
    if s != [] {
      StarMatchesAll(s[1..]);
    }
  }

  /** A literal pattern matches a string exactly when the two are equal. */
  lemma {:induction false} LiteralMatch(pat: string, s: string)
    requires Literal(pat)
    ensures Match(pat, s) <==> s == pat
    decreases |pat|
  {
    if pat != [] {
      assert pat[0] != '*' && pat[0] != '?' by { assert pat[0] in pat; }
      assert Literal(pat[1..]) by {
        forall i | 0 <= i < |pat[1..]| ensures pat[1..][i] != '*' && pat[1..][i] != '?' {
          assert pat[1..][i] == pat[i + 1];
        }
      }
      if s != [] {
        LiteralMatch(pat[1..], s[1..]);
        if s[0] == pat[0] && s[1..] == pat[1..] {
          assert s == [s[0]] + s[1..] && pat == [pat[0]] + pat[1..];
        }
      }
    }
  }

  /** A pattern that starts with literal characters only matches strings
      that start with them. */
  lemma {:induction false} LiteralPrefix(pre: string, rest: string, s: string)
    requires Literal(pre) && Match(pre + rest, s)
    ensures |pre| <= |s| && s[..|pre|] == pre
    decreases |pre|
  {
    if pre != [] {
      var pat := pre + rest;
      assert pat[0] == pre[0] && pat[1..] == pre[1..] + rest;
      assert pre[0] != '*' && pre[0] != '?' by { assert pre[0] in pre; }
      assert Literal(pre[1..]) by {
        forall i | 0 <= i < |pre[1..]| ensures pre[1..][i] != '*' && pre[1..][i] != '?' {
          assert pre[1..][i] == pre[i + 1];
        }
      }
      assert s != [] && pre[0] == s[0] && Match(pat[1..], s[1..]);
      LiteralPrefix(pre[1..], rest, s[1..]);
      assert s[..|pre|] == [s[0]] + s[1..][..|pre| - 1];
      assert pre == [pre[0]] + pre[1..];
    }
  }

  // The glob an empty selection path falls back to (two slashes, two stars,
  // a slash and a star) matches only strings that start with two slashes;
  // prim paths start with a single slash, so it matches none of them.
  lemma DefaultGlobNeedsDoubleSlash(s: string)
    requires Match("//**/*", s)
    ensures |s| >= 2 && s[0] == '/' && s[1] == '/'
  {
    assert "//**/*" == "//" + "**/*";
    LiteralPrefix("//", "**/*", s);
    assert s[..2][0] == s[0] && s[..2][1] == s[1];
  }
}
