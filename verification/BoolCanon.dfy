/** _canonicalize_bool on the text itself. */
module BoolCanon {
  // Outer parentheses are peeled, the text is split at "or", then at "and", then a
  // leading "not" is handled; operands keep their parentheses only when precedence
  // needs them.

  import opened Lex
  import opened Splitter

  const OR_PREC := 1
  const AND_PREC := 2
  const NOT_PREC := 3
  const ATOM_PREC := 4

  /** One matched pair encloses the whole text. */
  predicate Wrapped(s: string) {
    && |s| >= 2 && s[0] == '(' && s[|s| - 1] == ')'
    && (forall i :: 0 < i < |s| ==> Raw(s, i) > 0)
    && Raw(s, |s|) == 0
  }

  /** _outer_parens_wrap: one pass with a depth counter. */
  method OuterParensWrap(s: string) returns (b: bool)
    ensures b == Wrapped(s)
  {
    if s == "" || s[0] != '(' || s[|s| - 1] != ')' {
      return false;
    }
    var depth := 0;
    for i := 0 to |s|
      invariant depth == Raw(s, i)
      invariant forall j :: 0 < j <= i && j < |s| ==> Raw(s, j) > 0
    {
      assert Raw(s, i + 1) == Raw(s, i) + if s[i] == '(' then 1 else if s[i] == ')' then -1 else 0;
      if s[i] == '(' {
        depth := depth + 1;
      } else if s[i] == ')' {
        depth := depth - 1;
        if depth == 0 && i != |s| - 1 {
          return false;
        }
      }
    }
    return depth == 0;
  }

  /** Peel matched outer pairs, stripping after each. */
  function Unwrap(s: string): (r: string)
    ensures |r| <= |s| && !Wrapped(r)
    ensures Wrapped(s) ==> |r| < |s|
    decreases |s|
  {
    if Wrapped(s) then Unwrap(Strip(s[1..|s| - 1])) else s
  }

  /** The first index at or after i whose ")" brings the depth to zero. */
  function CloseFrom(s: string, i: nat, depth: int): (r: int)
    requires i <= |s|
    ensures r == -1 || i <= r < |s|
    decreases |s| - i
  {
    if i == |s| then -1
    else if s[i] == '(' then CloseFrom(s, i + 1, depth + 1)
    else if s[i] == ')' then if depth == 1 then i else CloseFrom(s, i + 1, depth - 1)
    else CloseFrom(s, i + 1, depth)
  }

  /** _matching_paren. */
  method MatchingParen(s: string, open: nat) returns (r: int)
    requires open <= |s|
    ensures r == CloseFrom(s, open, 0)
  {
    var depth := 0;
    for i := open to |s|
      invariant CloseFrom(s, open, 0) == CloseFrom(s, i, depth)
    {
      if s[i] == '(' {
        depth := depth + 1;
      } else if s[i] == ')' {
        depth := depth - 1;
        if depth == 0 {
          return i;
        }
      }
    }
    return -1;
  }

  predicate StartsWith(s: string, p: string) {
    p <= s
  }

  /** _top_level_prec. */
  function TopPrec(s: string): int {
    var t := Unwrap(Strip(s));
    if |Split(t, "or")| > 1 then OR_PREC
    else if |Split(t, "and")| > 1 then AND_PREC
    else if StartsWith(t, "not ") || StartsWith(t, "not(") then NOT_PREC
    else ATOM_PREC
  }

  /** _canonicalize_bool. It terminates on every text: the measure is the length
      of the text, and every operand handed on is shorter. */
  function CanonBool(text: string): string
    decreases |text|, 2, 0
  {
    CanonBare(Unwrap(Strip(text)))
  }

  /** What follows the peeling of outer parentheses: OR, then AND, then NOT. */
  function CanonBare(s: string): string
    decreases |s|, 1, 0
  {
    PartsLength(s, "or");
    PartsLength(s, "and");
    var ors := Split(s, "or");
    var ands := Split(s, "and");
    if |ors| > 1 then Rejoin(CanonAll(ors, OR_PREC, |s|), " or ")
    else if |ands| > 1 then Rejoin(CanonAll(ands, AND_PREC, |s|), " and ")
    else if StartsWith(s, "not ") then Negate(CanonBool(s[4..]))
    else if StartsWith(s, "not(") then
      var close := CloseFrom(s, 3, 0);
      assert close == CloseFrom(s, 4, 1);
      Negate(CanonBool(if close != -1 then s[4..close] else s[4..]))
    else s
  }

  /** The printer for a negated operand, already canonical. */
  function Negate(operand: string): string {
    if TopPrec(operand) < NOT_PREC then "not (" + operand + ")" else "not " + operand
  }

  /** _canonicalize_operand. */
  function CanonOperand(text: string, parent: int): string
    decreases |text|, 3, 0
  {
    var t := Strip(text);
    if Wrapped(t) then
      var inner := Strip(t[1..|t| - 1]);
      if TopPrec(inner) >= parent then CanonBool(inner) else "(" + CanonBool(inner) + ")"
    else CanonBool(t)
  }

  function CanonAll(parts: seq<string>, parent: int, ghost n: nat): (r: seq<string>)
    requires forall p :: p in parts ==> |p| < n
    ensures |r| == |parts|
    decreases n, 0, |parts|
  {
    if parts == [] then []
    else [CanonOperand(parts[0], parent)] + CanonAll(parts[1..], parent, n)
  }
}
