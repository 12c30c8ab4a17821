/** The SQL `LIKE` operator as the task table's queries use it: `%` matches
    any run of characters, `_` any single character, and any other pattern
    character matches itself ignoring the case of ASCII letters (no ESCAPE
    clause, so `%` and `_` are always wildcards). */
module SqlLike {

  /** Upper-case ASCII letters fold to lower case; everything else is kept. */
  function FoldChar(c: char): (r: char)
    ensures 'A' <= c <= 'Z' ==> 'a' <= r <= 'z' && r as int == c as int + 32
    ensures !('A' <= c <= 'Z') ==> r == c
  {
    if 'A' <= c <= 'Z' then (c as int + 32) as char else c
  }

  predicate IsWildcard(c: char)
  {
    c == '%' || c == '_'
  }

  predicate NoWildcards(q: string)
  {
    forall i :: 0 <= i < |q| ==> !IsWildcard(q[i])
  }

  /** How many characters a string must have to match `p`: one for each
      pattern character other than `%`. */
  function FixedLength(p: string): nat
  {
    if p == [] then 0 else (if p[0] == '%' then 0 else 1) + FixedLength(p[1..])
  }

  /** `s LIKE p`. Every pattern character other than `%` consumes exactly
      one character of `s`, so a match is at least that long, and exactly
      that long when `p` holds no `%`. */
  function Like(p: string, s: string): (r: bool)
    ensures r ==> FixedLength(p) <= |s|
    ensures r && '%' !in p ==> |s| == |p|
    decreases |p| + |s|
  {
    if p == [] then s == []
    else if p[0] == '%' then Like(p[1..], s) || (s != [] && Like(p, s[1..]))
    else s != [] && (p[0] == '_' || FoldChar(p[0]) == FoldChar(s[0])) && Like(p[1..], s[1..])
  }

  /** `q` agrees with the first |q| characters of `s`, ignoring ASCII case. */
  predicate PrefixIgnoringCase(q: string, s: string)
  {
    |q| <= |s| && forall i :: 0 <= i < |q| ==> FoldChar(q[i]) == FoldChar(s[i])
  }

  /** `q` occurs somewhere in `s`, ignoring ASCII case. */
  predicate ContainsIgnoringCase(s: string, q: string)
  {
    exists k :: 0 <= k <= |s| && PrefixIgnoringCase(q, s[k..])
  }

  /** A lone `%` matches every string. */
  lemma {:induction false} PercentMatchesAll(s: string)
    ensures Like("%", s)
    decreases |s|
  {
    assert "%"[1..] == [];
    if s != [] {
      PercentMatchesAll(s[1..]);
    }
  }

  /** A leading `%` lets the rest of the pattern match any suffix. */
  lemma {:induction false} LeadingPercent(r: string, s: string)
    ensures Like(['%'] + r, s) <==> exists k :: 0 <= k <= |s| && Like(r, s[k..])
    decreases |s|
  {
    var p := ['%'] + r;
    assert p[1..] == r;
    assert s[0..] == s;
    if s == [] {
      assert Like(p, s) == Like(r, s);
    } else {
      LeadingPercent(r, s[1..]);
      if Like(p, s) {
        if !Like(r, s) {
          assert Like(p, s[1..]);
          var k :| 0 <= k <= |s[1..]| && Like(r, s[1..][k..]);
          assert s[1..][k..] == s[k + 1..];
        }
      }
      if exists k :: 0 <= k <= |s| && Like(r, s[k..]) {
        var k :| 0 <= k <= |s| && Like(r, s[k..]);
        if k > 0 {
          assert s[1..][k - 1..] == s[k..];
          assert Like(p, s[1..]);
        }
      }
    }
  }

  /** A wildcard-free pattern followed by `%` matches exactly the strings it
      prefixes. */
  lemma {:induction false} LiteralThenPercent(q: string, s: string)
    requires NoWildcards(q)
    ensures Like(q + "%", s) <==> PrefixIgnoringCase(q, s)
    decreases |q|
  {
    if q == [] {
      assert q + "%" == "%";
      PercentMatchesAll(s);
    } else {
      var p := q + "%";
      assert p[0] == q[0] && p[1..] == q[1..] + "%";
      if s != [] {
        LiteralThenPercent(q[1..], s[1..]);
        if PrefixIgnoringCase(q[1..], s[1..]) && FoldChar(q[0]) == FoldChar(s[0]) {
          forall i | 0 <= i < |q| ensures FoldChar(q[i]) == FoldChar(s[i]) {
            if i > 0 {
              assert q[i] == q[1..][i - 1] && s[i] == s[1..][i - 1];
            }
          }
        }
        if PrefixIgnoringCase(q, s) {
          forall i | 0 <= i < |q[1..]| ensures FoldChar(q[1..][i]) == FoldChar(s[1..][i]) {
            assert q[1..][i] == q[i + 1] && s[1..][i] == s[i + 1];
          }
        }
      }
    }
  }

  /** Any pattern followed by `%` matches every string it prefixes: each
      pattern character, wildcard or not, matches itself. */
  lemma {:induction false} PrefixMatches(q: string, s: string)
    requires PrefixIgnoringCase(q, s)
    ensures Like(q + "%", s)
    decreases |q|
  {
    if q == [] {
      assert q + "%" == "%";
      PercentMatchesAll(s);
    } else {
      var p := q + "%";
      assert p[0] == q[0] && p[1..] == q[1..] + "%";
      forall i | 0 <= i < |q[1..]| ensures FoldChar(q[1..][i]) == FoldChar(s[1..][i]) {
        assert q[1..][i] == q[i + 1] && s[1..][i] == s[i + 1];
      }
      PrefixMatches(q[1..], s[1..]);
      if q[0] == '%' {
        // the `%` consumes exactly the one character s[0]
        assert Like(p[1..], s[1..]);
        assert Like(p, s[1..]);
      }
    }
  }

  /** The search pattern `%q%` for a wildcard-free `q` means case-insensitive
      substring containment. */
  lemma SubstringPattern(q: string, s: string)
    requires NoWildcards(q)
    ensures Like("%" + q + "%", s) <==> ContainsIgnoringCase(s, q)
  {
    assert "%" + q + "%" == ['%'] + (q + "%");
    LeadingPercent(q + "%", s);
    forall k | 0 <= k <= |s|
      ensures Like(q + "%", s[k..]) <==> PrefixIgnoringCase(q, s[k..])
    {
      LiteralThenPercent(q, s[k..]);
    }
  }

  /** Whatever `q` holds, every string containing it matches `%q%`. */
  lemma ContainedIsMatched(q: string, s: string)
    requires ContainsIgnoringCase(s, q)
    ensures Like("%" + q + "%", s)
  {
    assert "%" + q + "%" == ['%'] + (q + "%");
    var k :| 0 <= k <= |s| && PrefixIgnoringCase(q, s[k..]);
    PrefixMatches(q, s[k..]);
    LeadingPercent(q + "%", s);
  }

  /** `s LIKE 'c%'` for a letter `c` tests the first character of `s`. */
  lemma LetterThenPercent(c: char, s: string)
    requires !IsWildcard(c)
    ensures Like([c, '%'], s) <==> s != [] && FoldChar(c) == FoldChar(s[0])
  {
    var p := [c, '%'];
    assert p[1..] == "%";
    if s != [] {
      PercentMatchesAll(s[1..]);
    }
  }
}
