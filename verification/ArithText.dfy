/**
 What _canonicalize_arith does to any text at all, well-formed or not: it
 deletes matched pairs outside literals and nothing else, and when it stops.
 */
module ArithText {
  import opened Lex
  import opened Splitter
  import opened ArithCanon

  /** The parentheses at i and c are outside literals and match. */
  ghost predicate Matched(s: string, i: nat, c: nat) {
    && i < c < |s| && s[i] == '(' && s[c] == ')'
    && !At(s, i).inStr && !At(s, c).inStr
    && At(s, c + 1).depth == At(s, i).depth
    && forall k {:trigger At(s, k)} :: i < k <= c ==> At(s, k).depth > At(s, i).depth
  }

  // ------------------------------------------------- the scanners find matches

  /** Skipping a literal leaves the depth alone and passes no parenthesis that
      is outside literals. */
  lemma {:induction false} SkipState(s: string, j: nat)
    requires j <= |s| && At(s, j).inStr
    ensures var r := SkipFrom(s, j);
            && At(s, r).depth == At(s, j).depth
            && (r < |s| ==> !At(s, r).inStr)
            && forall k {:trigger At(s, k)} :: j <= k < r ==>
                 At(s, k).depth == At(s, j).depth && (At(s, k).inStr || s[k] == '\'')
    decreases |s| - j
  {
    if j < |s| {
      assert At(s, j + 1) == Step(At(s, j), s[j]);
      if s[j] != '\'' {
        SkipState(s, j + 1);
      } else if j + 1 < |s| && s[j + 1] == '\'' {
        assert At(s, j + 2) == Step(At(s, j + 1), s[j + 1]);
        SkipState(s, j + 2);
      }
    }
  }

  lemma {:induction false} MatchSpec(s: string, j: nat, depth: nat, d0: int)
    requires j <= |s| && depth >= 1 && At(s, j).depth == d0 + depth
    requires j < |s| ==> !At(s, j).inStr
    ensures var r := MatchFrom(s, j, depth);
            r != -1 ==>
              && s[r] == ')' && At(s, r) == State(d0 + 1, false)
              && forall k {:trigger At(s, k)} :: j <= k <= r ==> At(s, k).depth > d0
    decreases |s| - j
  {
    if j < |s| {
      assert At(s, j + 1) == Step(At(s, j), s[j]);
      if s[j] == '\'' {
        SkipState(s, j + 1);
        MatchSpec(s, SkipFrom(s, j + 1), depth, d0);
      } else if s[j] == '(' {
        MatchSpec(s, j + 1, depth + 1, d0);
      } else if s[j] == ')' {
        if depth != 1 {
          MatchSpec(s, j + 1, depth - 1, d0);
        }
      } else {
        MatchSpec(s, j + 1, depth, d0);
      }
    }
  }

  /** _matching_paren_str returns a match ... */
  lemma {:induction false} MatchFound(s: string, i: nat)
    requires i < |s| && s[i] == '(' && !At(s, i).inStr && MatchFrom(s, i, 0) != -1
    ensures Matched(s, i, MatchFrom(s, i, 0))
  {
    assert At(s, i + 1) == Step(At(s, i), s[i]);
    MatchSpec(s, i + 1, 1, At(s, i).depth);
    var c := MatchFrom(s, i, 0);
    assert At(s, c + 1) == Step(At(s, c), s[c]);
  }

  /** ... and the only one there is. */
  lemma {:induction false} MatchUnique(s: string, i: nat, c: nat)
    requires Matched(s, i, c)
    ensures MatchFrom(s, i, 0) == c
  {
    assert At(s, i + 1) == Step(At(s, i), s[i]);
    MatchReaches(s, i + 1, 1, At(s, i).depth, c);
  }

  lemma {:induction false} MatchReaches(s: string, j: nat, depth: nat, d0: int, c: nat)
    requires j <= c < |s| && depth >= 1 && At(s, j) == State(d0 + depth, false)
    requires s[c] == ')' && !At(s, c).inStr && At(s, c + 1).depth == d0
    requires forall k {:trigger At(s, k)} :: j <= k <= c ==> At(s, k).depth > d0
    ensures MatchFrom(s, j, depth) == c
    decreases |s| - j
  {
    assert At(s, j + 1) == Step(At(s, j), s[j]);
    if s[j] == '\'' {
      SkipState(s, j + 1);
      SkipStops(s, j + 1, c);
      MatchReaches(s, SkipFrom(s, j + 1), depth, d0, c);
    } else if s[j] == '(' {
      MatchReaches(s, j + 1, depth + 1, d0, c);
    } else if s[j] == ')' {
      if j < c {
        assert At(s, j + 1).depth > d0;
        MatchReaches(s, j + 1, depth - 1, d0, c);
      } else {
        assert At(s, c + 1) == Step(At(s, c), s[c]);
      }
    } else {
      MatchReaches(s, j + 1, depth, d0, c);
    }
  }

  /** A literal ends before any parenthesis that is outside literals. */
  lemma {:induction false} SkipStops(s: string, j: nat, c: nat)
    requires j <= c < |s| && At(s, j).inStr && !At(s, c).inStr && s[c] == ')'
    ensures SkipFrom(s, j) <= c && !At(s, SkipFrom(s, j)).inStr
  {
    SkipState(s, j);
    var r := SkipFrom(s, j);
    assert forall k {:trigger At(s, k)} :: j <= k < r ==> At(s, k).inStr || s[k] == '\'';
    var e := At(s, c);
  }

  /** The pair deleted by a pass is a matched grouping pair. */
  lemma {:induction false} FindSpec(s: string, i: nat)
    requires i <= |s| && (i < |s| ==> !At(s, i).inStr)
    ensures var p := FindFrom(s, i);
            p.Some? ==> Matched(s, p.value.open, p.value.close)
                        && Grouping(s, p.value.open) && Redundant(s, p.value.open, p.value.close)
    decreases |s| - i
  {
    if i < |s| {
      assert At(s, i + 1) == Step(At(s, i), s[i]);
      if s[i] == '\'' {
        SkipState(s, i + 1);
        FindSpec(s, SkipFrom(s, i + 1));
      } else {
        FindSpec(s, i + 1);
        if Grouping(s, i) && MatchFrom(s, i, 0) != -1 {
          MatchFound(s, i);
        }
      }
    }
  }

  /** A pass overlooks none: it deletes the first matched grouping pair that passes
      the test. */
  lemma {:induction false} FindComplete(s: string, i: nat, j: nat, c: nat)
    requires i <= j && (i < |s| ==> !At(s, i).inStr)
    requires Matched(s, j, c) && Grouping(s, j) && Redundant(s, j, c)
    ensures FindFrom(s, i).Some? && FindFrom(s, i).value.open <= j
    decreases |s| - i
  {
    assert At(s, i + 1) == Step(At(s, i), s[i]);
    if i == j {
      MatchUnique(s, j, c);
    } else if s[i] == '\'' {
      SkipState(s, i + 1);
      assert j >= SkipFrom(s, i + 1);
      FindComplete(s, SkipFrom(s, i + 1), j, c);
    } else {
      FindComplete(s, i + 1, j, c);
    }
  }

  // ------------------------------------------------------- matches and deletion

  /** Matched pairs are nested or disjoint. */
  lemma {:induction false} NestedOrDisjoint(s: string, i: nat, c: nat, j: nat, d: nat)
    requires Matched(s, i, c) && Matched(s, j, d) && i < j
    ensures c < j || d < c
  {
    var x, y := At(s, j), At(s, c + 1);
  }

  /** Where a position of s goes when the pair is deleted. */
  function New(p: Pair, k: nat): (n: nat)
    requires p.open < p.close
  {
    if k <= p.open then k else if k <= p.close then k - 1 else k - 2
  }

  /** Two parentheses outside literals, in order. */
  predicate Deletable(s: string, p: Pair) {
    && p.open < p.close < |s| && s[p.open] == '(' && s[p.close] == ')'
    && !At(s, p.open).inStr && !At(s, p.close).inStr
  }

  /** After deletion: one level less inside the pair, the same everywhere else;
      every other character is in place. */
  lemma {:induction false} DeleteState(s: string, p: Pair, k: nat)
    requires Deletable(s, p) && k <= |s|
    ensures New(p, k) <= |s| - 2
    ensures At(Delete(s, p), New(p, k)) ==
            State(At(s, k).depth - (if p.open < k <= p.close then 1 else 0), At(s, k).inStr)
    decreases k
  {
    if k > 0 {
      DeleteState(s, p, k - 1);
      assert At(s, k) == Step(At(s, k - 1), s[k - 1]);
      if k - 1 != p.open && k - 1 != p.close {
        DeleteChar(s, p, k - 1);
        assert New(p, k) == New(p, k - 1) + 1;
        assert At(Delete(s, p), New(p, k)) ==
               Step(At(Delete(s, p), New(p, k - 1)), Delete(s, p)[New(p, k - 1)]);
      }
    }
  }

  lemma {:induction false} DeleteChar(s: string, p: Pair, k: nat)
    requires p.open < p.close < |s| && k < |s| && k != p.open && k != p.close
    ensures New(p, k) < |s| - 2 && Delete(s, p)[New(p, k)] == s[k]
  {
  }

  /** The position of s that New sends to k. */
  function Old(p: Pair, k: nat): nat
    requires p.open < p.close
  {
    if k <= p.open then k else if k < p.close then k + 1 else k + 2
  }

  /** The matches of the text after deletion are exactly the other matches of the
      text before. */
  lemma {:induction false} MatchesIntact(s: string, p: Pair, j: nat, d: nat)
    requires Matched(s, p.open, p.close) && j < d < |s|
    requires j != p.open && j != p.close && d != p.open && d != p.close
    ensures Matched(s, j, d) <==> Matched(Delete(s, p), New(p, j), New(p, d))
  {
    var t := Delete(s, p);
    DeleteChar(s, p, j);
    DeleteChar(s, p, d);
    DeleteState(s, p, j);
    DeleteState(s, p, d);
    DeleteState(s, p, d + 1);
    assert New(p, d + 1) == New(p, d) + 1;
    if Matched(s, j, d) {
      StaysMatched(s, p, j, d);
    }
    if Matched(t, New(p, j), New(p, d)) {
      WasMatched(s, p, j, d);
    }
  }

  lemma {:induction false} StaysMatched(s: string, p: Pair, j: nat, d: nat)
    requires Matched(s, p.open, p.close) && Matched(s, j, d) && j != p.open
    ensures d != p.close && j != p.close && d != p.open
    ensures Matched(Delete(s, p), New(p, j), New(p, d))
  {
    var t, i, c := Delete(s, p), p.open, p.close;
    if j < i {
      NestedOrDisjoint(s, j, d, i, c);
    } else {
      NestedOrDisjoint(s, i, c, j, d);
    }
    DeleteChar(s, p, j);
    DeleteChar(s, p, d);
    DeleteState(s, p, j);
    DeleteState(s, p, d);
    DeleteState(s, p, d + 1);
    assert New(p, d + 1) == New(p, d) + 1;
    forall k {:trigger At(t, k)} | New(p, j) < k <= New(p, d)
      ensures At(t, k).depth > At(t, New(p, j)).depth
    {
      DeleteState(s, p, Old(p, k));
      assert At(s, Old(p, k)).depth > At(s, j).depth;
      if j < i && Old(p, k) > i && Old(p, k) <= c {
        assert At(s, Old(p, k)).depth > At(s, i).depth > At(s, j).depth;
      }
    }
  }

  lemma {:induction false} WasMatched(s: string, p: Pair, j: nat, d: nat)
    requires Matched(s, p.open, p.close) && j < d < |s|
    requires j != p.open && j != p.close && d != p.open && d != p.close
    requires Matched(Delete(s, p), New(p, j), New(p, d))
    ensures Matched(s, j, d)
  {
    var t, i, c := Delete(s, p), p.open, p.close;
    DeleteChar(s, p, j);
    DeleteChar(s, p, d);
    DeleteState(s, p, j);
    DeleteState(s, p, d);
    DeleteState(s, p, d + 1);
    assert New(p, d + 1) == New(p, d) + 1;
    DeleteState(s, p, i);
    DeleteState(s, p, c + 1);
    if j < i < d {
      assert At(t, i).depth > At(t, j).depth;
    }
    if j < c < d {
      assert At(t, New(p, c + 1)).depth > At(t, New(p, j)).depth;
    }
    forall k {:trigger At(s, k)} | j < k <= d
      ensures At(s, k).depth > At(s, j).depth
    {
      DeleteState(s, p, k);
      if New(p, j) < New(p, k) {
        assert At(t, New(p, k)).depth > At(t, New(p, j)).depth;
      }
    }
  }

  // ----------------------------------------------------------- what is kept

  /** The first k characters without the parentheses outside literals. */
  function Skeleton(s: string, k: nat): string
    requires k <= |s|
    decreases k
  {
    if k == 0 then ""
    else Skeleton(s, k - 1) +
         if At(s, k - 1).inStr || (s[k - 1] != '(' && s[k - 1] != ')') then [s[k - 1]] else ""
  }

  lemma {:induction false} DeleteSkeleton(s: string, p: Pair, k: nat)
    requires Deletable(s, p) && k <= |s|
    ensures New(p, k) <= |s| - 2
    ensures Skeleton(Delete(s, p), New(p, k)) == Skeleton(s, k)
    decreases k
  {
    if k > 0 {
      DeleteSkeleton(s, p, k - 1);
      DeleteState(s, p, k - 1);
      if k - 1 != p.open && k - 1 != p.close {
        DeleteChar(s, p, k - 1);
        assert New(p, k) == New(p, k - 1) + 1;
      }
    }
  }

  /** The depth at a position of the text without the pair. */
  lemma {:induction false} DeleteDepth(s: string, p: Pair, k: nat)
    requires Balanced(s) && Matched(s, p.open, p.close) && k <= |s| - 2
    ensures At(Delete(s, p), k).depth >= 0
  {
    DeleteState(s, p, Old(p, k));
    assert At(s, Old(p, k)).depth >= 0 && At(s, p.open).depth >= 0;
    if p.open < Old(p, k) <= p.close {
      assert At(s, Old(p, k)).depth > At(s, p.open).depth;
    }
  }

  /** How many pairs n passes delete. */
  function Removed(s: string, n: nat): (r: nat)
    ensures r <= n
    decreases n
  {
    if n == 0 || FindFrom(s, 0).None? then 0
    else 1 + Removed(Delete(s, FindFrom(s, 0).value), n - 1)
  }

  lemma {:induction false} PassesKeep(s: string, n: nat)
    ensures var r := Passes(s, n);
            && Skeleton(r, |r|) == Skeleton(s, |s|)
            && |s| - |r| == 2 * Removed(s, n)
            && (Removed(s, n) < n ==> FindFrom(r, 0).None?)
    decreases n
  {
    if n > 0 && FindFrom(s, 0).Some? {
      DeleteKeeps(s);
      PassesKeep(Delete(s, FindFrom(s, 0).value), n - 1);
    }
  }

  lemma {:induction false} PassesBalanced(s: string, n: nat)
    requires Balanced(s)
    ensures Balanced(Passes(s, n))
    decreases n
  {
    if n > 0 && FindFrom(s, 0).Some? {
      var p := FindFrom(s, 0).value;
      var t := Delete(s, p);
      FindSpec(s, 0);
      DeleteState(s, p, |s|);
      forall k {:trigger At(t, k)} | 0 <= k <= |t|
        ensures At(t, k).depth >= 0
      {
        DeleteDepth(s, p, k);
      }
      PassesBalanced(t, n - 1);
    }
  }

  lemma {:induction false} DeleteKeeps(s: string)
    requires FindFrom(s, 0).Some?
    ensures var r := Delete(s, FindFrom(s, 0).value); Skeleton(r, |r|) == Skeleton(s, |s|)
  {
    var p := FindFrom(s, 0).value;
    FindSpec(s, 0);
    DeleteSkeleton(s, p, |s|);
    assert New(p, |s|) == |s| - 2;
  }

  /** For every text: literals and all characters other than grouping
      parentheses stay, in order; each deletion takes two characters; the result
      has no deletable pair, or exactly 64 were deleted. */
  lemma {:induction false} ArithKeeps(text: string)
    ensures var s, r := Strip(text), CanonArith(text);
            && Skeleton(r, |r|) == Skeleton(s, |s|)
            && |s| - |r| == 2 * Removed(s, MAX_PASSES) <= 2 * MAX_PASSES
            && (FindFrom(r, 0).None? || |s| - |r| == 2 * MAX_PASSES)
  {
    PassesKeep(Strip(text), MAX_PASSES);
  }

  /** For every text: balance stays. */
  lemma {:induction false} ArithKeepsBalance(text: string)
    requires Balanced(Strip(text))
    ensures Balanced(CanonArith(text))
  {
    PassesBalanced(Strip(text), MAX_PASSES);
  }

  // -------------------------------------------------------------- idempotence

  lemma {:induction false} StripShorter(s: string)
    ensures |Strip(s)| == |s| <==> Trimmed(s)
    ensures Trimmed(s) ==> Strip(s) == s
  {
    if Trimmed(s) {
      StripTrimmed(s);
    }
    var w1, w2 := StripParts(s);
    if |Strip(s)| == |s| {
      assert w1 == "" && w2 == "";
      assert s == Strip(s);
    }
  }

  /** A second run changes nothing exactly when the first left no outer white
      space and no deletable pair. */
  lemma {:induction false} IdempotentExactly(text: string)
    ensures var r := CanonArith(text);
            CanonArith(r) == r <==> Trimmed(r) && FindFrom(r, 0).None?
  {
    var r := CanonArith(text);
    StripShorter(r);
    PassesKeep(Strip(r), MAX_PASSES);
  }

  /** No white space just inside a parenthesis or at the ends, as normalize_sql
      leaves it before this step. */
  ghost predicate Tight(s: string) {
    && Trimmed(s)
    && forall k {:trigger s[k]} :: 0 <= k < |s| ==>
         && (s[k] == '(' && k + 1 < |s| ==> !IsSpace(s[k + 1]))
         && (s[k] == ')' && k > 0 ==> !IsSpace(s[k - 1]))
  }

  lemma {:induction false} DeleteTight(s: string, p: Pair)
    requires Matched(s, p.open, p.close) && Tight(s) && p.open + 1 < p.close
    ensures Tight(Delete(s, p))
  {
    var t, i, c := Delete(s, p), p.open, p.close;
    assert s[i] == '(' && s[c] == ')';
    assert !IsSpace(s[i + 1]) && !IsSpace(s[c - 1]);
    EdgesOfMatch(s, i, c);
    forall k {:trigger t[k]} | 0 <= k < |t|
      ensures t[k] == '(' && k + 1 < |t| ==> !IsSpace(t[k + 1])
      ensures t[k] == ')' && k > 0 ==> !IsSpace(t[k - 1])
    {
      CharBefore(s, p, k);
      if k + 1 < |t| {
        CharBefore(s, p, k + 1);
      }
      if k > 0 {
        CharBefore(s, p, k - 1);
      }
    }
    CharBefore(s, p, 0);
    CharBefore(s, p, |t| - 1);
  }

  lemma {:induction false} CharBefore(s: string, p: Pair, k: nat)
    requires p.open < p.close < |s| && k < |s| - 2
    ensures OldChar(p, k) < |s| && Delete(s, p)[k] == s[OldChar(p, k)]
  {
  }

  /** A pair with content does not close or open right at its edges. */
  lemma {:induction false} EdgesOfMatch(s: string, i: nat, c: nat)
    requires Matched(s, i, c) && i + 1 < c
    ensures s[i + 1] != ')' && s[c - 1] != '('
  {
    assert At(s, i + 1) == Step(At(s, i), s[i]);
    assert At(s, i + 2) == Step(At(s, i + 1), s[i + 1]);
    assert At(s, c) == Step(At(s, c - 1), s[c - 1]);
    assert At(s, c + 1) == Step(At(s, c), s[c]);
    assert At(s, c - 1).depth > At(s, i).depth;
    assert At(s, i + 2).depth > At(s, i).depth;
  }

  /** The character of s that lands at k. */
  function OldChar(p: Pair, k: nat): nat
    requires p.open < p.close
  {
    if k < p.open then k else if k + 1 < p.close then k + 1 else k + 2
  }

  lemma {:induction false} PassesTight(s: string, n: nat)
    requires Tight(s)
    ensures Tight(Passes(s, n))
    decreases n
  {
    if n > 0 && FindFrom(s, 0).Some? {
      var p := FindFrom(s, 0).value;
      FindSpec(s, 0);
      NotEmptyInside(s, p);
      DeleteTight(s, p);
      PassesTight(Delete(s, p), n - 1);
    }
  }

  lemma {:induction false} NotEmptyInside(s: string, p: Pair)
    requires p.open < p.close < |s| && Redundant(s, p.open, p.close)
    ensures p.open + 1 < p.close
  {
    assert |Strip(s[p.open + 1..p.close])| > 0;
  }

  /** On text as normalize_sql hands it over, the step is idempotent whenever
      fewer than 64 pairs were deleted. */
  lemma {:induction false} IdempotentBelowLimit(text: string)
    requires Tight(Strip(text)) && Removed(Strip(text), MAX_PASSES) < MAX_PASSES
    ensures CanonArith(CanonArith(text)) == CanonArith(text)
  {
    PassesTight(Strip(text), MAX_PASSES);
    PassesKeep(Strip(text), MAX_PASSES);
    IdempotentExactly(text);
  }
}
