/**
 Characters and the lexical state shared by every scanner of
 scripts/sync_check_constraints.py: parenthesis depth outside single-quoted
 literals, and whether a position lies inside a literal.
 */
module Lex {
  datatype Option<+T> = None | Some(value: T)

  /** ASCII part of Python's str.isspace. */
  predicate IsSpace(c: char) {
    var k := c as int;
    9 <= k <= 13 || 28 <= k <= 32
  }

  predicate IsAlpha(c: char) {
    'a' <= c <= 'z' || 'A' <= c <= 'Z'
  }

  predicate IsAlnum(c: char) {
    IsAlpha(c) || '0' <= c <= '9'
  }

  predicate IsIdent(c: char) {
    IsAlnum(c) || c == '_'
  }

  const SMALL := "abcdefghijklmnopqrstuvwxyz"
  const CAPITAL := "ABCDEFGHIJKLMNOPQRSTUVWXYZ"
  const DECIMAL := "0123456789"
  const SPACES := "\t\n\U{b}\U{c}\r\U{1c}\U{1d}\U{1e}\U{1f} "

  /** A character of a name, letter by letter. */
  predicate NameChar(c: char) {
    c in SMALL || c in CAPITAL || c in DECIMAL || c == '_'
  }

  lemma {:induction false} IdentIs(c: char)
    ensures IsIdent(c) <==> NameChar(c)
  {
    SmallIs(c);
    CapitalIs(c);
    DecimalIs(c);
  }

  lemma {:induction false} SmallIs(c: char)
    ensures c in SMALL <==> 'a' <= c <= 'z'
  {
  }

  lemma {:induction false} CapitalIs(c: char)
    ensures c in CAPITAL <==> 'A' <= c <= 'Z'
  {
  }

  lemma {:induction false} DecimalIs(c: char)
    ensures c in DECIMAL <==> '0' <= c <= '9'
  {
  }

  lemma {:induction false} SpaceIs(c: char)
    ensures IsSpace(c) <==> c in SPACES
  {
  }

  predicate Blank(s: string) {
    forall i :: 0 <= i < |s| ==> IsSpace(s[i])
  }

  predicate AllIdent(s: string) {
    forall i :: 0 <= i < |s| ==> IsIdent(s[i])
  }

  function LowerChar(c: char): char {
    if 'A' <= c <= 'Z' then (c as int + 32) as char else c
  }

  /** Python's s.lower(). */
  function Lower(s: string): string {
    seq(|s|, i requires 0 <= i < |s| => LowerChar(s[i]))
  }

  function TrimLeft(s: string): (r: string)
    ensures |r| <= |s|
  {
    if s != "" && IsSpace(s[0]) then TrimLeft(s[1..]) else s
  }

  function TrimRight(s: string): (r: string)
    ensures |r| <= |s|
  {
    if s != "" && IsSpace(s[|s| - 1]) then TrimRight(s[..|s| - 1]) else s
  }

  /** Python's s.strip(). */
  function Strip(s: string): (r: string)
    ensures |r| <= |s|
  {
    TrimRight(TrimLeft(s))
  }

  /** No white space at either end. */
  predicate Trimmed(s: string) {
    s != "" ==> !IsSpace(s[0]) && !IsSpace(s[|s| - 1])
  }

  lemma {:induction false} TrimLeftOf(w: string, x: string)
    requires Blank(w) && (x == "" || !IsSpace(x[0]))
    ensures TrimLeft(w + x) == x
  {
    if w == "" {
      assert w + x == x;
    } else {
      assert (w + x)[0] == w[0] && (w + x)[1..] == w[1..] + x;
      TrimLeftOf(w[1..], x);
    }
  }

  lemma {:induction false} TrimRightOf(x: string, w: string)
    requires Blank(w) && (x == "" || !IsSpace(x[|x| - 1]))
    ensures TrimRight(x + w) == x
  {
    if w == "" {
      assert x + w == x;
    } else {
      var s := x + w;
      assert s[|s| - 1] == w[|w| - 1] && s[..|s| - 1] == x + w[..|w| - 1];
      TrimRightOf(x, w[..|w| - 1]);
    }
  }

  /** Stripping removes exactly the blank margins of a trimmed text. */
  lemma {:induction false} StripOf(w1: string, x: string, w2: string)
    requires Blank(w1) && Blank(w2) && Trimmed(x)
    ensures Strip(w1 + x + w2) == x
  {
    if x == "" {
      assert w1 + x + w2 == (w1 + w2) + "";
      TrimLeftOf(w1 + w2, "");
    } else {
      assert w1 + x + w2 == w1 + (x + w2);
      TrimLeftOf(w1, x + w2);
      TrimRightOf(x, w2);
    }
  }

  lemma {:induction false} StripTrimmed(x: string)
    requires Trimmed(x)
    ensures Strip(x) == x
  {
    StripOf("", x, "");
    assert "" + x + "" == x;
  }

  /** Every text is its strip between two blank margins. */
  lemma {:induction false} StripParts(s: string) returns (w1: string, w2: string)
    ensures Blank(w1) && Blank(w2) && Trimmed(Strip(s)) && s == w1 + Strip(s) + w2
  {
    var l := TrimLeft(s);
    var x := TrimRight(l);
    TrimLeftShape(s);
    TrimRightShape(l);
    w1 := s[..|s| - |l|];
    w2 := l[|x|..];
    assert x != "" ==> x[0] == l[0];
    assert s == w1 + l && l == x + w2;
  }

  lemma {:induction false} TrimLeftShape(s: string)
    ensures TrimLeft(s) == s[|s| - |TrimLeft(s)|..]
    ensures Blank(s[..|s| - |TrimLeft(s)|])
    ensures TrimLeft(s) != "" ==> !IsSpace(TrimLeft(s)[0])
  {
    if s != "" && IsSpace(s[0]) {
      TrimLeftShape(s[1..]);
      var k := |s| - |TrimLeft(s)|;
      assert s[..k] == [s[0]] + s[1..][..k - 1];
    }
  }

  lemma {:induction false} TrimRightShape(s: string)
    ensures TrimRight(s) == s[..|TrimRight(s)|]
    ensures Blank(s[|TrimRight(s)|..])
    ensures TrimRight(s) != "" ==> !IsSpace(TrimRight(s)[|TrimRight(s)| - 1])
  {
    if s != "" && IsSpace(s[|s| - 1]) {
      var t := s[..|s| - 1];
      TrimRightShape(t);
      assert s[|TrimRight(s)|..] == t[|TrimRight(s)|..] + [s[|s| - 1]];
    }
  }

  // ------------------------------------------------------------ lexical state

  datatype State = State(depth: int, inStr: bool)

  const START := State(0, false)

  function Step(st: State, c: char): State {
    if c == '\'' then st.(inStr := !st.inStr)
    else if st.inStr then st
    else if c == '(' then st.(depth := st.depth + 1)
    else if c == ')' then st.(depth := st.depth - 1)
    else st
  }

  /** The state after the first i characters of s, begun in st. */
  function From(st: State, s: string, i: nat): State
    requires i <= |s|
    decreases i
  {
    if i == 0 then st else Step(From(st, s, i - 1), s[i - 1])
  }

  function At(s: string, i: nat): State
    requires i <= |s|
  {
    From(START, s, i)
  }

  /** Depth counting every parenthesis, inside literals too. */
  function Raw(s: string, i: nat): int
    requires i <= |s|
    decreases i
  {
    if i == 0 then 0
    else Raw(s, i - 1) + if s[i - 1] == '(' then 1 else if s[i - 1] == ')' then -1 else 0
  }

  lemma {:induction false} FromConcat(st: State, a: string, b: string, i: nat)
    requires i <= |a| + |b|
    ensures From(st, a + b, i) ==
            if i <= |a| then From(st, a, i) else From(From(st, a, |a|), b, i - |a|)
    decreases i
  {
    if i > 0 {
      FromConcat(st, a, b, i - 1);
    }
  }

  /** Starting one level deeper only shifts the depth. */
  lemma {:induction false} FromShift(d: int, s: string, i: nat)
    requires i <= |s|
    ensures From(State(d, false), s, i) == State(d + At(s, i).depth, At(s, i).inStr)
    decreases i
  {
    if i > 0 {
      FromShift(d, s, i - 1);
    }
  }

  lemma {:induction false} RawConcat(a: string, b: string, i: nat)
    requires i <= |a| + |b|
    ensures Raw(a + b, i) == if i <= |a| then Raw(a, i) else Raw(a, |a|) + Raw(b, i - |a|)
    decreases i
  {
    if i > 0 {
      RawConcat(a, b, i - 1);
    }
  }

  /** Balanced outside literals, and never below zero. */
  ghost predicate Balanced(s: string) {
    && At(s, |s|) == START
    && forall i {:trigger At(s, i)} :: 0 <= i <= |s| ==> At(s, i).depth >= 0
  }

  lemma {:induction false} BalancedConcat(a: string, b: string)
    requires Balanced(a) && Balanced(b)
    ensures Balanced(a + b)
  {
    forall i {:trigger At(a + b, i)} | 0 <= i <= |a + b|
      ensures At(a + b, i).depth >= 0
      ensures i == |a + b| ==> At(a + b, i) == START
    {
      FromConcat(START, a, b, i);
      if i > |a| {
        assert At(b, i - |a|).depth >= 0;
      } else {
        assert At(a, i).depth >= 0;
      }
    }
  }

  /** State inside "(" + x + ")". */
  lemma {:induction false} InsideParens(x: string, i: nat)
    requires Balanced(x) && i <= |x|
    ensures At("(" + x + ")", i + 1) == State(1 + At(x, i).depth, At(x, i).inStr)
    ensures At("(" + x + ")", |x| + 2) == START
  {
    var s := "(" + x + ")";
    InsideAt(x, i);
    InsideAt(x, |x|);
    assert s[|x| + 1] == ')';
    assert At(s, |x| + 2) == Step(At(s, |x| + 1), s[|x| + 1]);
  }

  lemma {:induction false} InsideAt(x: string, i: nat)
    requires i <= |x|
    ensures At("(" + x + ")", i + 1) == State(1 + At(x, i).depth, At(x, i).inStr)
  {
    assert "(" + x + ")" == "(" + (x + ")");
    FromConcat(START, "(", x + ")", i + 1);
    assert From(START, "(", 1) == Step(From(START, "(", 0), '(');
    FromConcat(State(1, false), x, ")", i);
    FromShift(1, x, i);
  }

  lemma {:induction false} BalancedParens(x: string)
    requires Balanced(x)
    ensures Balanced("(" + x + ")")
  {
    var s := "(" + x + ")";
    forall i {:trigger At(s, i)} | 0 <= i <= |s|
      ensures At(s, i).depth >= 0
    {
      if 0 < i <= |x| + 1 {
        InsideParens(x, i - 1);
        assert At(x, i - 1).depth >= 0;
      } else {
        InsideParens(x, 0);
      }
    }
    InsideParens(x, 0);
  }

  /** A text without quotes or parentheses never leaves the starting state. */
  lemma {:induction false} Flat(s: string, i: nat)
    requires i <= |s|
    requires forall k :: 0 <= k < |s| ==> s[k] != '\'' && s[k] != '(' && s[k] != ')'
    ensures At(s, i) == START && Raw(s, i) == 0
    decreases i
  {
    if i > 0 {
      Flat(s, i - 1);
    }
  }

  lemma {:induction false} FlatBalanced(s: string)
    requires forall k :: 0 <= k < |s| ==> s[k] != '\'' && s[k] != '(' && s[k] != ')'
    ensures Balanced(s)
  {
    forall i {:trigger At(s, i)} | 0 <= i <= |s|
      ensures At(s, i) == START
    {
      Flat(s, i);
    }
  }
}
