/** _canonicalize_arith on the text itself. */
module ArithCanon {
  // A grouping pair is deleted when a precedence test on its content and on one
  // neighbouring operator says so; one pair is deleted per pass, for at most 64
  // passes.

  import opened Lex
  import opened Splitter

  const PREC_MIN := 4
  const ATOM := 7
  const BLOCKED := -1
  const MAX_PASSES := 64

  /** The two-character operators the scanners look for. */
  predicate IsTwo(two: string) {
    two == "||" || two == "<>" || two == "!=" || two == "<=" || two == ">="
  }

  predicate IsOne(c: char) {
    c == '=' || c == '<' || c == '>' || c == '+' || c == '-' || c == '*' || c == '/' || c == '%'
  }

  /** _ARITH_OP_PREC. */
  function TablePrec(op: string): int {
    if op == "+" || op == "-" then 4
    else if op == "*" || op == "/" || op == "%" then 5
    else 3
  }

  function Min(a: int, b: int): int {
    if a <= b then a else b
  }

  // --------------------------------------------------------- string literals

  /** Just past the literal whose body continues at j. */
  function SkipFrom(s: string, j: nat): (r: nat)
    requires j <= |s|
    ensures j <= r <= |s|
    decreases |s| - j
  {
    if j == |s| then j
    else if s[j] != '\'' then SkipFrom(s, j + 1)
    else if j + 1 < |s| && s[j + 1] == '\'' then SkipFrom(s, j + 2)
    else j + 1
  }

  /** _skip_string_literal. */
  method SkipStringLiteral(s: string, i: nat) returns (r: nat)
    requires i < |s|
    ensures r == SkipFrom(s, i + 1)
  {
    var j := i + 1;
    while j < |s|
      invariant i + 1 <= j <= |s|
      invariant SkipFrom(s, i + 1) == SkipFrom(s, j)
    {
      if s[j] == '\'' {
        if j + 1 < |s| && s[j + 1] == '\'' {
          j := j + 2;
        } else {
          return j + 1;
        }
      } else {
        j := j + 1;
      }
    }
    return |s|;
  }

  /** The ")" that brings the depth to zero, skipping literals; -1 when none. */
  function MatchFrom(s: string, j: nat, depth: int): (r: int)
    requires j <= |s|
    ensures r == -1 || j <= r < |s|
    decreases |s| - j
  {
    if j == |s| then -1
    else if s[j] == '\'' then MatchFrom(s, SkipFrom(s, j + 1), depth)
    else if s[j] == '(' then MatchFrom(s, j + 1, depth + 1)
    else if s[j] == ')' then if depth == 1 then j else MatchFrom(s, j + 1, depth - 1)
    else MatchFrom(s, j + 1, depth)
  }

  /** _matching_paren_str. */
  method MatchingParenStr(s: string, i: nat) returns (r: int)
    requires i <= |s|
    ensures r == MatchFrom(s, i, 0)
  {
    var depth, j := 0, i;
    while j < |s|
      invariant i <= j <= |s|
      invariant MatchFrom(s, i, 0) == MatchFrom(s, j, depth)
    {
      var c := s[j];
      if c == '\'' {
        j := SkipStringLiteral(s, j);
      } else {
        if c == '(' {
          depth := depth + 1;
        } else if c == ')' {
          depth := depth - 1;
          if depth == 0 {
            return j;
          }
        }
        j := j + 1;
      }
    }
    return -1;
  }

  // ----------------------------------------------------- the weakest operator

  predicate IsLowerOrUnderscore(c: char) {
    'a' <= c <= 'z' || c == '_'
  }

  predicate IsLowerIdent(c: char) {
    IsLowerOrUnderscore(c) || '0' <= c <= '9'
  }

  /** One of the words and, or, not at the front, ending on a boundary. */
  predicate Keyword(x: string) {
    KeywordIs(x, "and") || KeywordIs(x, "or") || KeywordIs(x, "not")
  }

  predicate KeywordIs(x: string, w: string) {
    StartsAt(x, w, 0) && (|x| == |w| || !IsIdent(x[|w|]))
  }

  /** Length of the run of lower-case identifier characters at the front. */
  function Run(x: string): (n: nat)
    ensures n <= |x|
  {
    if x == "" || !IsLowerIdent(x[0]) then 0 else 1 + Run(x[1..])
  }

  /** How far the scanner moves over a word: the identifier, or one character. */
  function WordLength(x: string): (n: nat)
    requires x != ""
    ensures 1 <= n <= |x|
  {
    if IsLowerOrUnderscore(x[0]) then 1 + Run(x[1..]) else 1
  }

  /** The weakest depth-zero operator of x, begun at the given depth with the
      weakest seen so far; BLOCKED at a boolean word or a comma. */
  function TopScan(x: string, depth: int, weakest: int): int
    decreases |x|
  {
    if x == "" then weakest
    else if x[0] == '\'' then TopScan(x[SkipFrom(x, 1)..], depth, weakest)
    else if x[0] == '(' then TopScan(x[1..], depth + 1, weakest)
    else if x[0] == ')' then TopScan(x[1..], depth - 1, weakest)
    else if depth != 0 then TopScan(x[1..], depth, weakest)
    else if x[0] == ',' then BLOCKED
    else if |x| >= 2 && IsTwo(x[..2]) then TopScan(x[2..], depth, Min(weakest, TablePrec(x[..2])))
    else if IsOne(x[0]) then TopScan(x[1..], depth, Min(weakest, TablePrec(x[..1])))
    else if IsAlpha(x[0]) || x[0] == '_' then
      if Keyword(x) then BLOCKED else TopScan(x[WordLength(x)..], depth, weakest)
    else TopScan(x[1..], depth, weakest)
  }

  function TopOp(s: string): int {
    TopScan(s, 0, ATOM)
  }

  /** _arith_top_op. */
  method ArithTopOp(s: string) returns (r: int)
    ensures r == TopOp(s)
  {
    var depth, i, weakest := 0, 0, ATOM;
    while i < |s|
      invariant 0 <= i <= |s|
      invariant TopOp(s) == TopScan(s[i..], depth, weakest)
    {
      var c := s[i];
      SkipSuffix(s, i);
      if c == '\'' {
        var j := SkipStringLiteral(s, i);
        assert s[i..][j - i..] == s[j..];
        i := j;
        continue;
      }
      assert s[i..][1..] == s[i + 1..];
      if c == '(' {
        depth := depth + 1;
        i := i + 1;
        continue;
      }
      if c == ')' {
        depth := depth - 1;
        i := i + 1;
        continue;
      }
      if depth == 0 {
        if c == ',' {
          return BLOCKED;
        }
        if i + 2 <= |s| {
          assert s[i..][..2] == s[i..i + 2] && s[i..][2..] == s[i + 2..];
        }
        if i + 2 <= |s| && IsTwo(s[i..i + 2]) {
          weakest := Min(weakest, TablePrec(s[i..i + 2]));
          i := i + 2;
          continue;
        }
        if IsOne(c) {
          assert s[i..][..1] == [c];
          weakest := Min(weakest, TablePrec([c]));
          i := i + 1;
          continue;
        }
        if IsAlpha(c) || c == '_' {
          if Keyword(s[i..]) {
            return BLOCKED;
          }
          var n := WordLength(s[i..]);
          assert s[i..][n..] == s[i + n..];
          i := i + n;
          continue;
        }
      }
      i := i + 1;
    }
    return weakest;
  }

  /** Skipping a literal depends only on the text from there on. */
  lemma {:induction false} SkipShift(s: string, i: nat, j: nat)
    requires i <= j <= |s|
    ensures SkipFrom(s, j) == i + SkipFrom(s[i..], j - i)
    decreases |s| - j
  {
    if j < |s| && s[j] != '\'' {
      SkipShift(s, i, j + 1);
    } else if j + 1 < |s| && s[j + 1] == '\'' {
      SkipShift(s, i, j + 2);
    }
  }

  lemma {:induction false} SkipSuffix(s: string, i: nat)
    requires i < |s|
    ensures SkipFrom(s, i + 1) == i + SkipFrom(s[i..], 1)
  {
    SkipShift(s, i, i + 1);
  }

  // ----------------------------------------------------- neighbouring operators

  function TrimSpacesRight(p: string): (r: string)
    ensures |r| <= |p|
  {
    if p != "" && p[|p| - 1] == ' ' then TrimSpacesRight(p[..|p| - 1]) else p
  }

  function TrimSpacesLeft(q: string): (r: string)
    ensures |r| <= |q|
  {
    if q != "" && q[0] == ' ' then TrimSpacesLeft(q[1..]) else q
  }

  /** The table operator a text ends with, spaces aside. */
  function EndingOp(p: string): Option<string> {
    var r := TrimSpacesRight(p);
    if r == "" || IsIdent(r[|r| - 1]) then None
    else if |r| >= 2 && IsTwo(r[|r| - 2..]) then Some(r[|r| - 2..])
    else if IsOne(r[|r| - 1]) then Some(r[|r| - 1..])
    else None
  }

  /** The table operator a text begins with, spaces aside. */
  function StartingOp(q: string): Option<string> {
    var r := TrimSpacesLeft(q);
    if r == "" then None
    else if |r| >= 2 && IsTwo(r[..2]) then Some(r[..2])
    else if IsOne(r[0]) then Some(r[..1])
    else None
  }

  /** _prev_op. */
  method PrevOp(s: string, i: nat) returns (op: Option<string>)
    requires i <= |s|
    ensures op == EndingOp(s[..i])
  {
    var k := i as int - 1;
    while k >= 0 && s[k] == ' '
      invariant -1 <= k < i
      invariant TrimSpacesRight(s[..i]) == TrimSpacesRight(s[..k + 1])
    {
      assert s[..k + 1][..k] == s[..k];
      k := k - 1;
    }
    if k < 0 {
      return None;
    }
    assert TrimSpacesRight(s[..k + 1]) == s[..k + 1];
    EndingAt(s[..i], s, k);
    if IsIdent(s[k]) {
      return None;
    }
    if k >= 1 && IsTwo(s[k - 1..k + 1]) {
      return Some(s[k - 1..k + 1]);
    }
    if IsOne(s[k]) {
      return Some([s[k]]);
    }
    return None;
  }

  /** The operator that ends at k, when only spaces follow it in p. */
  lemma {:induction false} EndingAt(p: string, s: string, k: nat)
    requires k < |s| && TrimSpacesRight(p) == s[..k + 1]
    ensures EndingOp(p) ==
            if IsIdent(s[k]) then None
            else if k >= 1 && IsTwo(s[k - 1..k + 1]) then Some(s[k - 1..k + 1])
            else if IsOne(s[k]) then Some([s[k]])
            else None
  {
    var r := s[..k + 1];
    assert r[k..] == [s[k]] && r[k] == s[k];
    if k >= 1 {
      assert r[k - 1..] == s[k - 1..k + 1];
    }
  }

  /** _next_op: s[i] is the closing parenthesis. */
  method NextOp(s: string, i: nat) returns (op: Option<string>)
    requires i < |s|
    ensures op == StartingOp(s[i + 1..])
  {
    var k := i + 1;
    while k < |s| && s[k] == ' '
      invariant i + 1 <= k <= |s|
      invariant TrimSpacesLeft(s[i + 1..]) == TrimSpacesLeft(s[k..])
    {
      assert s[k..][1..] == s[k + 1..];
      k := k + 1;
    }
    if k >= |s| {
      return None;
    }
    if k + 2 <= |s| {
      assert s[k..][..2] == s[k..k + 2];
    }
    if k + 2 <= |s| && IsTwo(s[k..k + 2]) {
      return Some(s[k..k + 2]);
    }
    assert s[k..][..1] == [s[k]];
    if IsOne(s[k]) {
      return Some([s[k]]);
    }
    return None;
  }

  // --------------------------------------------------------- deleting a pair

  /** The precedence test: with an operator on the left, only that one is asked. */
  predicate Accept(child: int, left: Option<int>, right: Option<int>) {
    && child >= PREC_MIN
    && (if left.Some? then child > left.value
        else if right.Some? then child >= right.value
        else true)
  }

  function PrecOf(op: Option<string>): Option<int> {
    if op.Some? then Some(TablePrec(op.value)) else None
  }

  /** _arith_paren_redundant. */
  predicate Redundant(s: string, open: nat, close: nat)
    requires open < close < |s|
  {
    var inner := Strip(s[open + 1..close]);
    && inner != ""
    && Accept(TopOp(inner), PrecOf(EndingOp(s[..open])), PrecOf(StartingOp(s[close + 1..])))
  }

  /** A parenthesis preceded by an identifier character is not grouping. */
  predicate Grouping(s: string, i: nat)
    requires i < |s|
  {
    s[i] == '(' && !(i > 0 && IsIdent(s[i - 1]))
  }

  datatype Pair = Pair(open: nat, close: nat)

  /** The first deletable pair at or after i, as the inner loop finds it. */
  function FindFrom(s: string, i: nat): (r: Option<Pair>)
    requires i <= |s|
    ensures r.Some? ==> i <= r.value.open < r.value.close < |s|
    decreases |s| - i
  {
    if i == |s| then None
    else if s[i] == '\'' then FindFrom(s, SkipFrom(s, i + 1))
    else if !Grouping(s, i) then FindFrom(s, i + 1)
    else
      var close := MatchFrom(s, i, 0);
      if close > i && Redundant(s, i, close) then Some(Pair(i, close)) else FindFrom(s, i + 1)
  }

  function Delete(s: string, p: Pair): (r: string)
    requires p.open < p.close < |s|
    ensures |r| == |s| - 2
  {
    s[..p.open] + s[p.open + 1..p.close] + s[p.close + 1..]
  }

  /** At most n passes, each deleting the first deletable pair. */
  function Passes(s: string, n: nat): string
    decreases n
  {
    if n == 0 then s
    else match FindFrom(s, 0)
      case None => s
      case Some(p) => Passes(Delete(s, p), n - 1)
  }

  function CanonArith(s: string): string {
    Passes(Strip(s), MAX_PASSES)
  }

  /** The scan of one pass, up to the pair it deletes. */
  method FindPair(s: string) returns (p: Option<Pair>)
    ensures p == FindFrom(s, 0)
  {
    var i := 0;
    while i < |s|
      invariant 0 <= i <= |s|
      invariant FindFrom(s, 0) == FindFrom(s, i)
    {
      if s[i] == '\'' {
        i := SkipStringLiteral(s, i);
        continue;
      }
      if !Grouping(s, i) {
        i := i + 1;
        continue;
      }
      var close := MatchingParenStr(s, i);
      assert close == MatchFrom(s, i + 1, 1);
      if close != -1 {
        var redundant := ArithParenRedundant(s, i, close);
        if redundant {
          return Some(Pair(i, close));
        }
      }
      i := i + 1;
    }
    return None;
  }

  /** _canonicalize_arith: the text is rebuilt pass by pass. */
  method CanonicalizeArith(text: string) returns (s: string)
    ensures s == CanonArith(text)
  {
    s := Strip(text);
    ghost var left: nat := MAX_PASSES;
    for pass := 0 to MAX_PASSES
      invariant left == MAX_PASSES - pass && CanonArith(text) == Passes(s, left)
    {
      var p := FindPair(s);
      if p.None? {
        return;
      }
      PassesStep(s, p.value, left);
      s := Delete(s, p.value);
      left := left - 1;
    }
  }

  lemma {:induction false} PassesStep(s: string, p: Pair, n: nat)
    requires n > 0 && FindFrom(s, 0) == Some(p)
    ensures Passes(s, n) == Passes(Delete(s, p), n - 1)
  {
  }

  method ArithParenRedundant(s: string, open: nat, close: nat) returns (b: bool)
    requires open < close < |s|
    ensures b == Redundant(s, open, close)
  {
    var inner := Strip(s[open + 1..close]);
    if inner == "" {
      return false;
    }
    var child := ArithTopOp(inner);
    if child < PREC_MIN {
      return false;
    }
    var left := PrevOp(s, open);
    if left.Some? {
      return child > TablePrec(left.value);
    }
    var right := NextOp(s, close);
    if right.Some? {
      return child >= TablePrec(right.value);
    }
    return true;
  }
}
