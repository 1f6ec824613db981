// The part of Redis's glob patterns that the key patterns of this system use: '*' and '?', every other
// character standing for itself.
module GlobPatterns {

  predicate Glob(p: string, t: string)
    decreases |p| + |t|
  {
    if p == "" then t == ""
    else if p[0] == '*' then Glob(p[1..], t) || (t != "" && Glob(p, t[1..]))
    else t != "" && (p[0] == '?' || p[0] == t[0]) && Glob(p[1..], t[1..])
  }

  predicate Literal(s: string) { forall i :: 0 <= i < |s| ==> s[i] !in "*?[]\\" }

  predicate EndsWith(t: string, s: string) { |s| <= |t| && t[|t| - |s|..] == s }

  predicate HasAt(t: string, s: string, i: int) { 0 <= i <= |t| && s <= t[i..] }

  predicate Contains(t: string, s: string) { exists i :: 0 <= i <= |t| && HasAt(t, s, i) }

  lemma {:induction false} GlobLiteral(s: string, t: string)
    requires Literal(s)
    ensures Glob(s, t) <==> s == t
  {
    if s != "" && t != "" {
      GlobLiteral(s[1..], t[1..]);
      assert s == [s[0]] + s[1..] && t == [t[0]] + t[1..];
      assert s[0] != '*' && s[0] != '?';
    }
  }

  lemma {:induction false} GlobAll(t: string)
    ensures Glob("*", t)
  {
    if t != "" {
      GlobAll(t[1..]);
    }
  }

  lemma {:induction false} GlobPrefix(s: string, t: string)
    requires Literal(s)
    ensures Glob(s + "*", t) <==> s <= t
  {
    if s == "" {
      assert s + "*" == "*";
      GlobAll(t);
    } else {
      assert (s + "*")[1..] == s[1..] + "*" && (s + "*")[0] == s[0];
      assert s[0] != '*' && s[0] != '?';
      if t != "" {
        GlobPrefix(s[1..], t[1..]);
        assert s == [s[0]] + s[1..] && t == [t[0]] + t[1..];
      }
    }
  }

  lemma {:induction false} GlobStar(p: string, t: string)
    ensures Glob("*" + p, t) <==> exists i :: 0 <= i <= |t| && Glob(p, t[i..])
    decreases |t|
  {
    assert ("*" + p)[1..] == p && t[0..] == t;
    if t != "" {
      GlobStar(p, t[1..]);
      assert forall i :: 0 <= i < |t| ==> t[1..][i..] == t[i + 1..];
      if i :| 0 <= i <= |t| && Glob(p, t[i..]) {
        assert i > 0 ==> t[1..][i - 1..] == t[i..];
      }
      if i :| 0 <= i <= |t| - 1 && Glob(p, t[1..][i..]) {
        assert t[i + 1..] == t[1..][i..];
      }
    } else {
      assert forall i :: 0 <= i <= |t| ==> t[i..] == t;
    }
  }

  // The pattern of deleteKeysBySuffix.
  lemma GlobSuffix(s: string, t: string)
    requires Literal(s)
    ensures Glob("*" + s, t) <==> EndsWith(t, s)
  {
    GlobStar(s, t);
    forall i | 0 <= i <= |t|
      ensures Glob(s, t[i..]) <==> t[i..] == s
    {
      GlobLiteral(s, t[i..]);
    }
    if EndsWith(t, s) {
      assert Glob(s, t[|t| - |s|..]);
    }
  }

  // A second star in front changes nothing.
  lemma GlobTwoStars(s: string, t: string)
    requires Literal(s)
    ensures Glob("**" + s, t) <==> EndsWith(t, s)
  {
    assert "**" + s == "*" + ("*" + s);
    GlobStar("*" + s, t);
    forall i | 0 <= i <= |t|
      ensures Glob("*" + s, t[i..]) <==> EndsWith(t[i..], s)
    {
      GlobSuffix(s, t[i..]);
    }
    assert t[0..] == t;
  }

  lemma GlobContains(s: string, t: string)
    requires Literal(s)
    ensures Glob("*" + (s + "*"), t) <==> Contains(t, s)
  {
    GlobStar(s + "*", t);
    forall i | 0 <= i <= |t|
      ensures Glob(s + "*", t[i..]) <==> HasAt(t, s, i)
    {
      GlobPrefix(s, t[i..]);
    }
  }
}
