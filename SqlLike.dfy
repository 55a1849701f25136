/**
 * SQLite's `x LIKE pattern` without an ESCAPE clause and with the default
 * `case_sensitive_like = OFF`: `%` matches any run of characters (also the
 * empty one), `_` matches exactly one character, every other pattern
 * character matches itself up to ASCII case.
 */
module SqlLike {
  import opened Text

  predicate IsWildcard(c: char) {
    c == '%' || c == '_'
  }

  /** A pattern in which every character stands for itself. */
  predicate NoWildcards(p: string) {
    forall i :: 0 <= i < |p| ==> !IsWildcard(p[i])
  }

  /** `s LIKE p`. */
  function Like(s: string, p: string): bool
    decreases |p| + |s|
  {
    if |p| == 0 then |s| == 0
    else if p[0] == '%' then Like(s, p[1..]) || (|s| > 0 && Like(s[1..], p))
    else |s| > 0 && (p[0] == '_' || SameLetterIgnoringCase(p[0], s[0])) && Like(s[1..], p[1..])
  }

  /** Without wildcards, LIKE is equality up to ASCII case, in both directions. */
  lemma {:induction false} LikeWithoutWildcards(s: string, p: string)
    requires NoWildcards(p)
    ensures Like(s, p) <==> EqualsIgnoreCase(s, p)
    decreases |p|
  {
    if |p| > 0 && |s| > 0 {
      LikeWithoutWildcards(s[1..], p[1..]);
      if EqualsIgnoreCase(s, p) {
        assert EqualsIgnoreCase(s[1..], p[1..]) by {
          forall i | 0 <= i < |s| - 1 ensures SameLetterIgnoringCase(s[1..][i], p[1..][i]) {
            assert SameLetterIgnoringCase(s[i + 1], p[i + 1]);
          }
        }
      }
      if Like(s, p) {
        forall i | 0 <= i < |s| ensures SameLetterIgnoringCase(s[i], p[i]) {
          if i > 0 {
            assert s[1..][i - 1] == s[i] && p[1..][i - 1] == p[i];
          }
        }
      }
    }
  }

  /** Every string matches itself taken as a pattern, wildcards included. */
  lemma {:induction false} LikeItself(s: string)
    ensures Like(s, s)
    decreases |s|
  {
    if |s| > 0 {
      LikeItself(s[1..]);
      if s[0] == '%' {
        assert Like(s[1..], s);
      }
    }
  }

  /** A leading `%` may swallow any prefix of the subject. */
  lemma {:induction false} PercentSkipsPrefix(x: string, y: string, rest: string)
    requires Like(y, rest)
    ensures Like(x + y, ['%'] + rest)
    decreases |x|
  {
    var p := ['%'] + rest;
    assert p[1..] == rest;
    if |x| > 0 {
      PercentSkipsPrefix(x[1..], y, rest);
      assert (x + y)[1..] == x[1..] + y;
    } else {
      assert x + y == y;
    }
  }

  /** A pattern without wildcards consumes a prefix equal to it up to case. */
  lemma {:induction false} LiteralPrefix(t: string, y: string, q: string, rest: string)
    requires NoWildcards(q) && EqualsIgnoreCase(t, q)
    requires Like(y, rest)
    ensures Like(t + y, q + rest)
    decreases |q|
  {
    if |q| > 0 {
      assert SameLetterIgnoringCase(q[0], t[0]);
      LiteralPrefix(t[1..], y, q[1..], rest) by {
        forall i | 0 <= i < |t| - 1 ensures SameLetterIgnoringCase(t[1..][i], q[1..][i]) {
          assert SameLetterIgnoringCase(t[i + 1], q[i + 1]);
        }
      }
      assert (t + y)[1..] == t[1..] + y;
      assert (q + rest)[1..] == q[1..] + rest;
    } else {
      assert t + y == y && q + rest == rest;
    }
  }

  /** `%` alone matches every string. */
  lemma {:induction false} PercentMatchesAll(s: string)
    ensures Like(s, "%")
    decreases |s|
  {
    if |s| > 0 {
      PercentMatchesAll(s[1..]);
    }
  }

  /**
   * A caller that wraps a plain query in `%` gets substring search: the
   * subject matches whenever some infix of it equals the query up to case.
   */
  lemma ContainsMatchesWrappedPattern(a: string, t: string, b: string, q: string)
    requires NoWildcards(q) && EqualsIgnoreCase(t, q)
    ensures Like(a + t + b, "%" + q + "%")
  {
    PercentMatchesAll(b);
    LiteralPrefix(t, b, q, "%");
    PercentSkipsPrefix(a, t + b, q + "%");
    assert a + t + b == a + (t + b);
    assert "%" + q + "%" == ['%'] + (q + "%");
  }
}
