/**
 * LIKE patterns: the escaping done by the filter compiler, and the matching
 * rules of section 9.7.1 of the PostgreSQL documentation.
 */
module LikePattern {
  predicate IsWildcard(c: char) {
    c == '\\' || c == '%' || c == '_'
  }

  // value.replace(/c/g, '\\c'): every occurrence of c gets a backslash in front.
  function PrefixEach(s: string, c: char): string {
    if s == "" then ""
    else (if s[0] == c then ['\\', c] else [s[0]]) + PrefixEach(s[1..], c)
  }

  // Three successive replaces, the backslash first.
  function EscapeLike(value: string): string {
    PrefixEach(PrefixEach(PrefixEach(value, '\\'), '%'), '_')
  }

  // The same escape in a single pass.
  function EscapeOnce(value: string): string {
    if value == "" then ""
    else (if IsWildcard(value[0]) then ['\\', value[0]] else [value[0]]) + EscapeOnce(value[1..])
  }

  lemma {:induction false} PrefixEachConcat(a: string, b: string, c: char)
    ensures PrefixEach(a + b, c) == PrefixEach(a, c) + PrefixEach(b, c)
  {
    if a == "" {
      assert a + b == b;
    } else {
      assert (a + b)[1..] == a[1..] + b;
      PrefixEachConcat(a[1..], b, c);
    }
  }

  lemma PrefixEachChar(x: char, c: char)
    ensures PrefixEach([x], c) == if x == c then ['\\', c] else [x]
  {
    assert [x][1..] == "";
  }

  lemma PrefixEachPair(x: char, c: char)
    requires c != '\\'
    ensures PrefixEach(['\\', x], c) == ['\\'] + PrefixEach([x], c)
  {
    PrefixEachConcat(['\\'], [x], c);
    assert ['\\', x] == ['\\'] + [x];
    PrefixEachChar('\\', c);
  }

  // The order of the replaces does not matter to the result only because the
  // backslash goes first: later passes never touch a backslash.
  lemma {:induction false} ReplacesAreOnePass(value: string)
    ensures EscapeLike(value) == EscapeOnce(value)
  {
    if value != "" {
      var x, rest := value[0], value[1..];
      assert value == [x] + rest;
      PrefixEachConcat([x], rest, '\\');
      var a, a' := PrefixEach([x], '\\'), PrefixEach(rest, '\\');
      PrefixEachConcat(a, a', '%');
      var b, b' := PrefixEach(a, '%'), PrefixEach(a', '%');
      PrefixEachConcat(b, b', '_');
      PrefixEachChar(x, '\\');
      PrefixEachChar(x, '%');
      PrefixEachChar(x, '_');
      PrefixEachPair('\\', '%');
      PrefixEachPair('\\', '_');
      PrefixEachPair('%', '_');
      PrefixEachChar('\\', '%');
      PrefixEachChar('\\', '_');
      PrefixEachChar('%', '_');
      assert PrefixEach(b, '_') == if IsWildcard(x) then ['\\', x] else [x];
      ReplacesAreOnePass(rest);
    }
  }

  // Does s match the pattern p? A pattern that ends in a lone backslash matches nothing.
  predicate Like(s: string, p: string)
    decreases |s| + |p|
  {
    if p == "" then s == ""
    else if p[0] == '%' then Like(s, p[1..]) || (s != "" && Like(s[1..], p))
    else if p[0] == '_' then s != "" && Like(s[1..], p[1..])
    else if p[0] == '\\' then |p| >= 2 && s != "" && s[0] == p[1] && Like(s[1..], p[2..])
    else s != "" && s[0] == p[0] && Like(s[1..], p[1..])
  }

  predicate OccursAt(v: string, s: string, i: nat) {
    i <= |s| && v <= s[i..]
  }

  ghost predicate Occurs(v: string, s: string) {
    exists i: nat :: OccursAt(v, s, i)
  }

  lemma {:induction false} EscapedMatchesLiterally(s: string, v: string, p: string)
    ensures Like(s, EscapeOnce(v) + p) <==> v <= s && Like(s[|v|..], p)
    decreases |v|
  {
    if v == "" {
      assert EscapeOnce(v) + p == p;
    } else {
      var q := EscapeOnce(v[1..]) + p;
      if IsWildcard(v[0]) {
        assert EscapeOnce(v) + p == ['\\', v[0]] + q;
      } else {
        assert EscapeOnce(v) + p == [v[0]] + q;
      }
      if s != "" && s[0] == v[0] {
        EscapedMatchesLiterally(s[1..], v[1..], p);
        assert v <= s <==> v[1..] <= s[1..];
        assert v <= s ==> s[1..][|v[1..]|..] == s[|v|..];
      }
    }
  }

  lemma {:induction false} PercentMatchesAll(s: string)
    ensures Like(s, "%")
  {
    if s != "" {
      PercentMatchesAll(s[1..]);
    }
  }

  lemma {:induction false} PercentSkips(s: string, v: string)
    ensures Like(s, "%" + (EscapeOnce(v) + "%")) <==> Occurs(v, s)
  {
    var p := EscapeOnce(v) + "%";
    assert ("%" + p)[1..] == p;
    EscapedMatchesLiterally(s, v, "%");
    if v <= s {
      PercentMatchesAll(s[|v|..]);
      assert OccursAt(v, s, 0);
    } else if s != "" {
      PercentSkips(s[1..], v);
      forall i: nat
        ensures OccursAt(v, s[1..], i) <==> OccursAt(v, s, i + 1)
      {
        if i <= |s[1..]| {
          assert s[1..][i..] == s[i + 1..];
        }
      }
      assert !OccursAt(v, s, 0);
      assert forall i: nat :: OccursAt(v, s, i) ==> OccursAt(v, s[1..], i - 1);
    }
  }

  // What the compiler binds for `contains`.
  function ContainsPattern(value: string): string {
    "%" + EscapeLike(value) + "%"
  }

  lemma ContainsPatternFindsText(s: string, value: string)
    ensures Like(s, ContainsPattern(value)) <==> Occurs(value, s)
  {
    ReplacesAreOnePass(value);
    assert ContainsPattern(value) == "%" + (EscapeOnce(value) + "%");
    PercentSkips(s, value);
  }

  // ILIKE compares after case folding. A fold must leave the three pattern
  // characters, and only those, where they are.
  ghost predicate KeepsWildcards(fold: char -> char) {
    forall c :: (IsWildcard(c) ==> fold(c) == c) && (IsWildcard(fold(c)) ==> fold(c) == c)
  }

  function Fold(fold: char -> char, s: string): (r: string)
    ensures |r| == |s| && forall i :: 0 <= i < |s| ==> r[i] == fold(s[i])
  {
    seq(|s|, i requires 0 <= i < |s| => fold(s[i]))
  }

  predicate ILike(fold: char -> char, s: string, p: string) {
    Like(Fold(fold, s), Fold(fold, p))
  }

  lemma {:induction false} FoldEscape(fold: char -> char, v: string)
    requires KeepsWildcards(fold)
    ensures Fold(fold, EscapeOnce(v)) == EscapeOnce(Fold(fold, v))
  {
    if v != "" {
      FoldEscape(fold, v[1..]);
      var head := if IsWildcard(v[0]) then ['\\', v[0]] else [v[0]];
      assert Fold(fold, EscapeOnce(v)) == Fold(fold, head) + Fold(fold, EscapeOnce(v[1..]));
      assert Fold(fold, v)[1..] == Fold(fold, v[1..]);
      assert IsWildcard(v[0]) <==> IsWildcard(fold(v[0]));
    }
  }

  lemma ContainsPatternFindsFoldedText(fold: char -> char, s: string, value: string)
    requires KeepsWildcards(fold)
    ensures ILike(fold, s, ContainsPattern(value)) <==> Occurs(Fold(fold, value), Fold(fold, s))
  {
    ReplacesAreOnePass(value);
    ReplacesAreOnePass(Fold(fold, value));
    FoldEscape(fold, value);
    assert IsWildcard('%');
    assert Fold(fold, ContainsPattern(value)) == ContainsPattern(Fold(fold, value));
    ContainsPatternFindsText(Fold(fold, s), Fold(fold, value));
  }
}
