/** The order in which Go sorts strings, and how it treats digits. */
module StringOrder {
  import opened Ordering
  import opened Decimal

  predicate StringLess(s: string, t: string)
    decreases |s|
  {
    t != [] && (s == [] || s[0] < t[0] || (s[0] == t[0] && StringLess(s[1..], t[1..])))
  }

  const LEXICOGRAPHIC: (string, string) -> bool := (s, t) => StringLess(s, t)

  lemma {:induction false} Irreflexive(s: string)
    ensures !StringLess(s, s)
    decreases |s|
  {
    if s != [] { Irreflexive(s[1..]); }
  }

  lemma {:induction false} Total(s: string, t: string)
    requires s != t
    ensures StringLess(s, t) || StringLess(t, s)
    decreases |s|
  {
    if s != [] && t != [] && s[0] == t[0] {
      assert s == [s[0]] + s[1..] && t == [t[0]] + t[1..];
      Total(s[1..], t[1..]);
    }
  }

  lemma {:induction false} Transitive(s: string, t: string, u: string)
    requires StringLess(s, t) && StringLess(t, u)
    ensures StringLess(s, u)
    decreases |s|
  {
    if s != [] && s[0] == t[0] && t[0] == u[0] {
      Transitive(s[1..], t[1..], u[1..]);
    }
  }

  lemma LexicographicIsLinear()
    ensures Linear(LEXICOGRAPHIC)
  {
    forall s, t, u
      ensures !LEXICOGRAPHIC(s, s)
      ensures s != t ==> LEXICOGRAPHIC(s, t) || LEXICOGRAPHIC(t, s)
      ensures LEXICOGRAPHIC(s, t) && LEXICOGRAPHIC(t, u) ==> LEXICOGRAPHIC(s, u)
    {
      Irreflexive(s);
      if s != t { Total(s, t); }
      if StringLess(s, t) && StringLess(t, u) { Transitive(s, t, u); }
    }
    assert TotalOrder(LEXICOGRAPHIC);
    TotalIsLinear(LEXICOGRAPHIC);
  }

  /** A common beginning does not matter. */
  lemma {:induction false} CommonPrefix(a: string, s: string, t: string)
    ensures StringLess(a + s, a + t) <==> StringLess(s, t)
    decreases |a|
  {
    if a == [] {
      assert a + s == s && a + t == t;
    } else {
      assert (a + s)[1..] == a[1..] + s && (a + t)[1..] == a[1..] + t;
      CommonPrefix(a[1..], s, t);
    }
  }

  lemma {:induction false} LessExtends(s: string, t: string, c: char, d: char)
    requires |s| == |t| && StringLess(s, t)
    ensures StringLess(s + [c], t + [d])
    decreases |s|
  {
    assert (s + [c])[1..] == s[1..] + [c] && (t + [d])[1..] == t[1..] + [d];
    if s[0] == t[0] {
      LessExtends(s[1..], t[1..], c, d);
    }
  }

  predicate AllDigits(s: string) {
    forall c :: c in s ==> IsDigit(c)
  }

  lemma ValueOfLast(s: string, c: char)
    ensures ValueOf(s + [c]) == 10 * ValueOf(s) + (if IsDigit(c) then (c - '0') as int else 0)
  {
    assert (s + [c])[..|s|] == s;
  }

  /** Digit strings of one length are ordered as their values. */
  lemma {:induction false} DigitsOrder(s: string, t: string)
    requires |s| == |t| && AllDigits(s) && AllDigits(t)
    ensures ValueOf(s) == ValueOf(t) ==> s == t
    ensures ValueOf(s) < ValueOf(t) ==> StringLess(s, t)
    decreases |s|
  {
    if s != [] {
      var n := |s| - 1;
      var (s', t', c, d) := (s[..n], t[..n], s[n], t[n]);
      assert s == s' + [c] && t == t' + [d];
      assert c in s && d in t;
      ValueOfLast(s', c);
      ValueOfLast(t', d);
      DigitsOrder(s', t');
      if ValueOf(s') < ValueOf(t') {
        LessExtends(s', t', c, d);
      } else if s' == t' {
        CommonPrefix(s', [c], [d]);
      }
    }
  }
}
