/** Strings in the order `<` compares them: by the first character that differs, a prefix first. */
module TextOrder {
  predicate Before(s: string, t: string) {
    t != "" && (s == "" || s[0] < t[0] || (s[0] == t[0] && Before(s[1..], t[1..])))
  }

  /** Exactly one of: before, the same, after. */
  lemma {:induction false} Total(s: string, t: string)
    ensures s == t <==> !Before(s, t) && !Before(t, s)
    ensures !(Before(s, t) && Before(t, s))
    decreases |s|
  {
    if s != "" && t != "" {
      Total(s[1..], t[1..]);
      assert s == [s[0]] + s[1..] && t == [t[0]] + t[1..];
    }
  }

  lemma {:induction false} Transitive(s: string, t: string, u: string)
    requires Before(s, t) && Before(t, u)
    ensures Before(s, u)
    decreases |s|
  {
    if s != "" && s[0] == t[0] && t[0] == u[0] {
      Transitive(s[1..], t[1..], u[1..]);
    }
  }

  /** Heads of one length decide first, and only equal heads leave it to the tails. */
  lemma {:induction false} HeadFirst(p: string, q: string, r: string, s: string)
    requires |p| == |r|
    ensures Before(p + q, r + s) <==> Before(p, r) || (p == r && Before(q, s))
    decreases |p|
  {
    if p == "" {
      assert p + q == q && r + s == s;
    } else {
      HeadFirst(p[1..], q, r[1..], s);
      assert (p + q)[1..] == p[1..] + q && (r + s)[1..] == r[1..] + s;
      assert p == [p[0]] + p[1..] && r == [r[0]] + r[1..];
    }
  }

  lemma OneCharacter(c: char, d: char)
    ensures Before([c], [d]) <==> c < d
  {
    assert [c][1..] == "" && [d][1..] == "";
  }
}
