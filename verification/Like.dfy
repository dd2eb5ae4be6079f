/**
  The LIKE patterns that `RepoIndexDb` builds (src/core/cache/RepoIndexDb.cpp), against a model of
  SQLite's `LIKE ... ESCAPE '\'`: `%` matches any run of characters, `_` any one character, the
  escape character makes the next pattern character literal, and letters compare without ASCII case.
*/
module Like {
  function FoldChar(c: char): char {
    if 'A' <= c <= 'Z' then (c as int + 32) as char else c
  }

  ghost function Fold(s: string): string {
    seq(|s|, i requires 0 <= i < |s| => FoldChar(s[i]))
  }

  predicate Matches(p: string, s: string)
    decreases |p|, |s|
  {
    if p == [] then s == []
    else if p[0] == '%' then Matches(p[1..], s) || (s != [] && Matches(p, s[1..]))
    else if p[0] == '_' then s != [] && Matches(p[1..], s[1..])
    else if p[0] == '\\' then
      |p| > 1 && s != [] && FoldChar(p[1]) == FoldChar(s[0]) && Matches(p[2..], s[1..])
    else s != [] && FoldChar(p[0]) == FoldChar(s[0]) && Matches(p[1..], s[1..])
  }

  predicate IsMeta(c: char) {
    c == '%' || c == '_' || c == '\\'
  }

  function EscapedChar(c: char): string {
    if IsMeta(c) then ['\\', c] else [c]
  }

  function Escaped(s: string): string {
    if s == [] then [] else EscapedChar(s[0]) + Escaped(s[1..])
  }

  lemma {:induction false} EscapedAppend(s: string, c: char)
    ensures Escaped(s + [c]) == Escaped(s) + EscapedChar(c)
  {
    if s == [] {
      assert s + [c] == [c];
    } else {
      EscapedAppend(s[1..], c);
      assert (s + [c])[1..] == s[1..] + [c];
    }
  }

  /** The loop that both `touchReposUnder` and `search` run over their argument. */
  method EscapeLike(text: string) returns (escaped: string)
    ensures escaped == Escaped(text)
  {
    escaped := [];
    for i := 0 to |text|
      invariant escaped == Escaped(text[..i])
    {
      EscapedAppend(text[..i], text[i]);
      assert text[..i + 1] == text[..i] + [text[i]];
      if IsMeta(text[i]) {
        escaped := escaped + ['\\'];
      }
      escaped := escaped + [text[i]];
    }
    assert text[..|text|] == text;
  }

  /** `q` occurs at the start of `s`, up to ASCII case. */
  ghost predicate HasPrefix(q: string, s: string) {
    |q| <= |s| && Fold(s[..|q|]) == Fold(q)
  }

  /** `q` occurs somewhere in `s`, up to ASCII case. */
  ghost predicate Contains(q: string, s: string) {
    exists i :: 0 <= i <= |s| && HasPrefix(q, s[i..])
  }

  lemma {:induction false} PercentMatchesAll(s: string)
    ensures Matches("%", s)
  {
    if s == [] {
      assert Matches("%"[1..], s);
    } else {
      PercentMatchesAll(s[1..]);
    }
  }

  lemma HasPrefixStep(q: string, s: string)
    requires q != []
    ensures HasPrefix(q, s) <==> s != [] && FoldChar(q[0]) == FoldChar(s[0]) && HasPrefix(q[1..], s[1..])
  {
    if s != [] && |q| <= |s| {
      var a, b := s[..|q|], q;
      assert s[1..][..|q| - 1] == a[1..];
      assert Fold(a) == [FoldChar(a[0])] + Fold(a[1..]);
      assert Fold(b) == [FoldChar(b[0])] + Fold(b[1..]);
      assert Fold(a)[0] == FoldChar(a[0]) && Fold(b)[0] == FoldChar(b[0]);
      assert Fold(a)[1..] == Fold(a[1..]) && Fold(b)[1..] == Fold(b[1..]);
    }
  }

  lemma EscapedCharIsLiteral(c: char, rest: string, s: string)
    ensures Matches(EscapedChar(c) + rest, s) <==> s != [] && FoldChar(c) == FoldChar(s[0]) && Matches(rest, s[1..])
  {
    var p := EscapedChar(c) + rest;
    if IsMeta(c) {
      assert p[0] == '\\' && p[1] == c && p[2..] == rest;
    } else {
      assert p[0] == c && p[1..] == rest;
    }
  }

  /** An escaped prefix followed by `%` matches exactly the strings that start with the prefix,
      whatever metacharacters the prefix contains. */
  lemma {:induction false} PrefixPattern(q: string, s: string)
    ensures Matches(Escaped(q) + "%", s) <==> HasPrefix(q, s)
    decreases |q|
  {
    if q == [] {
      PercentMatchesAll(s);
      assert Escaped(q) + "%" == "%";
      assert s[..0] == q;
    } else {
      HasPrefixStep(q, s);
      var rest := Escaped(q[1..]) + "%";
      assert Escaped(q) + "%" == EscapedChar(q[0]) + rest;
      EscapedCharIsLiteral(q[0], rest, s);
      if s != [] {
        PrefixPattern(q[1..], s[1..]);
      }
    }
  }

  /** An escaped query between two `%` matches exactly the strings that contain the query. */
  lemma {:induction false} SubstringPattern(q: string, s: string)
    ensures Matches("%" + Escaped(q) + "%", s) <==> Contains(q, s)
    decreases |s|
  {
    var p := "%" + Escaped(q) + "%";
    assert p[1..] == Escaped(q) + "%";
    PrefixPattern(q, s);
    if s == [] {
      assert s[0..] == s;
    } else {
      SubstringPattern(q, s[1..]);
      if Contains(q, s[1..]) {
        var i :| 0 <= i <= |s[1..]| && HasPrefix(q, s[1..][i..]);
        assert s[1..][i..] == s[i + 1..];
      }
      if Contains(q, s) {
        var i :| 0 <= i <= |s| && HasPrefix(q, s[i..]);
        if i == 0 {
          assert s[0..] == s;
        } else {
          assert s[i..] == s[1..][i - 1..];
        }
      }
      assert HasPrefix(q, s) ==> Contains(q, s) by {
        assert s[0..] == s;
      }
    }
  }

  /** What the patterns mean, letter by letter: letters compare up to ASCII case, `_` stands for one
      character, `%` for any, and the escape character makes the next one literal. */
  lemma PatternsByLetters(c: char, d: char, s: string)
    ensures Matches("_", [d]) && !Matches("_", "") && Matches("%", s) && (Matches("", s) <==> s == "")
    ensures c != '%' && c != '_' && c != '\\' ==> (Matches([c], [d]) <==> SameLetter(c, d))
    ensures Matches(['\\', c], [d]) <==> SameLetter(c, d)
  {
    PercentMatchesAll(s);
    assert "_"[1..] == "" && [d][1..] == [] && [c][1..] == [] && ['\\', c][2..] == [];
    SameLetterFolds(c, d);
  }

  /** Equal, or the two cases of one ASCII letter. */
  predicate SameLetter(c: char, d: char) {
    || c == d
    || ('A' <= c <= 'Z' && d as int == c as int + 32)
    || ('A' <= d <= 'Z' && c as int == d as int + 32)
  }

  lemma SameLetterFolds(c: char, d: char)
    ensures FoldChar(c) == FoldChar(d) <==> SameLetter(c, d)
  {
  }

  /** A prefix up to case, letter by letter. */
  lemma HasPrefixByLetters(q: string, s: string)
    ensures HasPrefix(q, s) <==> |q| <= |s| && forall i :: 0 <= i < |q| ==> SameLetter(q[i], s[i])
  {
    if |q| <= |s| {
      forall i | 0 <= i < |q|
        ensures Fold(s[..|q|])[i] == Fold(q)[i] <==> SameLetter(q[i], s[i])
      {
        SameLetterFolds(q[i], s[i]);
      }
      if HasPrefix(q, s) {
        assert forall i :: 0 <= i < |q| ==> Fold(s[..|q|])[i] == Fold(q)[i];
      }
    }
  }
}
