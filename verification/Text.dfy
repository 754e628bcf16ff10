/** Trimming white space, for pet names and for the names of emergency-stop rules. */
module Text {

  /** The Unicode white space of strings.TrimSpace. */
  predicate IsSpace(c: char) {
    || '\U{09}' <= c <= '\U{0D}'
    || c == ' ' || c == '\U{85}' || c == '\U{A0}' || c == '\U{1680}'
    || '\U{2000}' <= c <= '\U{200A}'
    || c == '\U{2028}' || c == '\U{2029}' || c == '\U{202F}' || c == '\U{205F}' || c == '\U{3000}'
  }

  function Trim(s: string): (t: string)
    ensures t != "" ==> !IsSpace(t[0]) && !IsSpace(t[|t| - 1])
    ensures |t| <= |s|
    decreases |s|
  {
    if s == "" then ""
    else if IsSpace(s[0]) then Trim(s[1..])
    else if IsSpace(s[|s| - 1]) then Trim(s[..|s| - 1])
    else s
  }

  /** White_Space in the Unicode character database, one by one. */
  const WHITE_SPACE :=
    "\t\n\U{0B}\U{0C}\r \U{85}\U{A0}\U{1680}\U{2000}\U{2001}\U{2002}\U{2003}\U{2004}\U{2005}\U{2006}"
    + "\U{2007}\U{2008}\U{2009}\U{200A}\U{2028}\U{2029}\U{202F}\U{205F}\U{3000}"

  lemma SpacesAreWhiteSpace(c: char)
    ensures IsSpace(c) <==> c in WHITE_SPACE
  {
  }

  predicate AllSpace(s: string) {
    forall i | 0 <= i < |s| :: IsSpace(s[i])
  }

  /** t is what is left of s once the white space at both ends is gone. */
  ghost predicate IsTrimmed(s: string, t: string) {
    && (exists before, after :: s == before + t + after && AllSpace(before) && AllSpace(after))
    && (t != "" ==> !IsSpace(t[0]) && !IsSpace(t[|t| - 1]))
  }

  /** Trim takes away white space at the ends, all of it, and nothing else; no other string is s
      without the white space at its ends. */
  lemma TrimIsTheMiddle(s: string, t: string)
    ensures IsTrimmed(s, t) <==> t == Trim(s)
  {
    var before, after := TrimCuts(s);
    if IsTrimmed(s, t) {
      var b, a :| s == b + t + a && AllSpace(b) && AllSpace(a);
      OneMiddle(before, Trim(s), after, b, t, a);
    }
  }

  lemma {:induction false} TrimCuts(s: string) returns (before: string, after: string)
    ensures s == before + Trim(s) + after && AllSpace(before) && AllSpace(after)
    decreases |s|
  {
    hide IsSpace;
    before, after := "", "";
    if s != "" && IsSpace(s[0]) {
      var b;
      b, after := TrimCuts(s[1..]);
      before := [s[0]] + b;
      assert s == [s[0]] + s[1..] && before + Trim(s) + after == [s[0]] + (b + Trim(s) + after);
    } else if s != "" && IsSpace(s[|s| - 1]) {
      var a;
      before, a := TrimCuts(s[..|s| - 1]);
      after := a + [s[|s| - 1]];
      assert s == s[..|s| - 1] + [s[|s| - 1]] && before + Trim(s) + after == (before + Trim(s) + a) + [s[|s| - 1]];
    }
  }

  lemma BlankMiddle(before: string, t: string, after: string)
    requires AllSpace(before) && AllSpace(after) && (t != "" ==> !IsSpace(t[0]))
    ensures t == "" <==> AllSpace(before + t + after)
  {
    if t != "" {
      assert (before + t + after)[|before|] == t[0];
    }
  }

  /** Two ways of cutting the same string leave the same middle. */
  lemma OneMiddle(b: string, t: string, a: string, c: string, u: string, d: string)
    requires b + t + a == c + u + d && AllSpace(b) && AllSpace(a) && AllSpace(c) && AllSpace(d)
    requires t != "" ==> !IsSpace(t[0]) && !IsSpace(t[|t| - 1])
    requires u != "" ==> !IsSpace(u[0]) && !IsSpace(u[|u| - 1])
    ensures t == u
  {
    var s := b + t + a;
    BlankMiddle(b, t, a);
    BlankMiddle(c, u, d);
    if t != "" {
      assert s[|b|] == t[0] && s[|b| + |t| - 1] == t[|t| - 1];
      assert s[|c|] == u[0] && s[|c| + |u| - 1] == u[|u| - 1];
      assert |b| == |c|;
      assert |b| + |t| == |c| + |u|;
      assert t == s[|b|..|b| + |t|] && u == s[|c|..|c| + |u|];
    }
  }

  lemma BlankIffAllSpace(s: string)
    ensures Trim(s) == "" <==> AllSpace(s)
  {
    var before, after := TrimCuts(s);
    BlankMiddle(before, Trim(s), after);
  }

  lemma TrimTwice(s: string)
    ensures Trim(Trim(s)) == Trim(s)
  {
  }
}
