/** Literals that hold parentheses, and the groups that are not recognised for them. */
module BoolGroups {
  // Exactly when a group comes out right that stands alone, as an operand or after a
  // spaced "not"; what else goes wrong; and that two errors may cancel.

  import opened Lex
  import opened Splitter
  import opened BoolCanon
  import opened BoolGrammar
  import opened BoolForms
  import opened BoolPeel
  import opened BoolCorrect
  import opened BoolTheorems

  // --------------------------------------- groups the code does not recognise

  /** A group is recognised exactly when its content balances with the parentheses
      of its literals counted; one that is not is left as it stands. */
  lemma {:induction false} Verbatim(t: Src)
    requires Wf(t) && t.Group?
    ensures Wrapped(Spell(t)) <==> RawBalanced(Spell(t.inner))
    ensures !Wrapped(Spell(t)) ==>
              CanonBool(Spell(t)) == Spell(t) && TopPrec(Spell(t)) == ATOM_PREC
    ensures !Wrapped(Spell(t)) ==> forall parent :: CanonOperand(Spell(t), parent) == Spell(t)
  {
    var s := Spell(t);
    PeeledExactly(t.g1 + Spell(t.inner) + t.g2);
    RawPadded(t.g1, Spell(t.inner), t.g2);
    SpellShape(t);
    StripTrimmed(s);
    SpellNoOr(t);
    SpellNoAnd(t);
    SplitWhole(s, "or");
    SplitWhole(s, "and");
    assert s[0] == '(' && "not "[0] == 'n' && "not("[0] == 'n';
  }

  lemma {:induction false} RecognisedClean(t: Src)
    requires t.Group? && Wf(t) && Clean(t.inner) && RawBalanced(Spell(t.inner))
    ensures Clean(t)
  {
    Verbatim(t);
  }

  /** At the top of a predicate: a group is canonicalised rightly exactly when its
      content balances with the parentheses of its literals counted. */
  lemma {:induction false} GroupExactly(t: Src)
    requires Wf(t) && t.Group? && Clean(t.inner) && Faithful(t)
    ensures CanonBool(Spell(t)) == Print(Flatten(t)) <==> RawBalanced(Spell(t.inner))
  {
    Verbatim(t);
    if RawBalanced(Spell(t.inner)) {
      RecognisedClean(t);
      FaithfulExactly(t);
    } else {
      FewestParens(t);
    }
  }

  /** As an operand of "and" or "or" there is one more case: the group may be one that
      the canonical form needs, and be spelled as the canonical form prints it. */
  lemma {:induction false} OperandExactly(t: Src, parent: int)
    requires Wf(t) && t.Group? && Clean(t.inner) && Faithful(t) && (parent == OR_PREC || parent == AND_PREC)
    ensures var f := Flatten(t);
            CanonOperand(Spell(t), parent) == PrintOperand(f, parent == AND_PREC) <==>
            || RawBalanced(Spell(t.inner))
            || (parent == AND_PREC && f.Disj? && Spell(t) == "(" + Print(f) + ")")
  {
    Verbatim(t);
    ReadSize(t);
    FewestParens(t);
    if RawBalanced(Spell(t.inner)) {
      RecognisedClean(t);
      CanonicalOperand(t, parent);
    }
  }

  /** The same for the operand of a "not" with a gap. */
  lemma {:induction false} NegatedExactly(t: Src, gap: string)
    requires Wf(t) && t.Group? && Clean(t.inner) && Faithful(t) && Blank(gap) && gap != "" && gap[0] == ' '
    ensures var f := Flatten(t);
            CanonBool(Spell(Not(gap, t))) == Print(Neg(f)) <==>
            || RawBalanced(Spell(t.inner))
            || ((f.Conj? || f.Disj?) && Spell(t) == "(" + Print(f) + ")")
  {
    var n, f := Not(gap, t), Flatten(t);
    Verbatim(t);
    NegPrints(f);
    NotPeels(gap + Spell(t));
    if RawBalanced(Spell(t.inner)) {
      RecognisedClean(t);
      FaithfulExactly(n);
    } else {
      FewestParens(t);
      SpacedNot(gap, t);
      assert forall x: string, y: string :: "not " + x == "not " + y ==> x == ("not " + x)[4..] == y;
    }
  }

  lemma {:induction false} SpacedNot(gap: string, t: Src)
    requires Wf(t) && t.Group? && !Wrapped(Spell(t)) && Blank(gap) && gap != "" && gap[0] == ' '
    ensures CanonBool(Spell(Not(gap, t))) == "not " + Spell(t)
  {
    var n := Not(gap, t);
    var s := Spell(n);
    Verbatim(t);
    NotPeels(gap + Spell(t));
    SpellShape(n);
    SpellShape(t);
    StripTrimmed(s);
    StripTrimmed(Spell(t));
    CoreSplit(n);
    NotPrefix(n);
    BareNot(s);
    AfterNot(gap, Spell(t));
    StripOf(gap[1..], Spell(t), "");
    assert CanonBool(s[4..]) == CanonBare(Unwrap(Strip(s[4..])));
  }

  /** So being clean is not necessary: a conjunction whose one group is not recognised
      is printed rightly when the group is needed and spelled as it is printed. */
  lemma {:induction false} KeptGroup(t: Src)
    requires Wf(t) && t.And? && !Wrapped(Spell(t))
    requires t.left.Group? && Clean(t.left.inner) && !RawBalanced(Spell(t.left.inner))
    requires Flatten(t.left).Disj? && Spell(t.left) == "(" + Print(Flatten(t.left)) + ")"
    requires Clean(t.right) && !t.right.And? && Faithful(t)
    ensures !Clean(t) && CanonBool(Spell(t)) == Print(Flatten(t))
  {
    var g, s := t.left, Spell(t);
    var n := |s|;
    Verbatim(g);
    OperandExactly(g, AND_PREC);
    ReadSize(t);
    ReadSize(g);
    CoreSplit(t);
    PartsLength(s, "and");
    SpellAllConcat(AndOperands(g), AndOperands(t.right));
    SpellOne(g);
    assert Spell(g) in SpellAll(AndOperands(t));
    CanonAllOne(Spell(g), 2, n);
    PrintOne(Read(g), true);
    AndJoin(t.right, n);
    AndJoined(t, n);
    SpellShape(t);
    StripTrimmed(s);
    BareAnd(t);
  }

  // ------------------------------------------- literals that hold parentheses

  lemma {:induction false} Untouched(s: string)
    requires s != "" && Trimmed(s) && !Wrapped(s) && NoCut(s, "or") && NoCut(s, "and") && s[0] != 'n'
    ensures CanonBool(s) == s
  {
    StripTrimmed(s);
    SplitWhole(s, "or");
    SplitWhole(s, "and");
  }

  lemma {:induction false} NoLetter(s: string, op: string, k: nat)
    requires k < |op| && op[k] !in s
    ensures NoCut(s, op)
  {
    forall i: nat | i <= |s|
      ensures !StartsAt(s, op, i)
    {
      assert i + |op| <= |s| ==> s[i + k] in s;
    }
  }

  /** A text, then a literal that may hold parentheses, at the end. */
  lemma {:induction false} LiteralAtom(p: string, body: string)
    requires p != "" && IsAlpha(p[0]) && p[0] != 'n'
    requires forall c :: c in p ==> c != '(' && c != ')' && c != '\''
    requires '\'' !in body && 'r' !in p + body && 'd' !in p + body
    ensures AtomText(p + "'" + body + "'")
  {
    var a := p + "'" + body + "'";
    LiteralBalanced(p, body);
    assert a == (p + "'") + (body + "'");
    forall c | c in a
      ensures c != 'r' && c != 'd'
    {
    }
    LetterAtom(a);
  }

  /** A balanced text that begins with a letter and holds no "r" and no "d". */
  lemma {:induction false} LetterAtom(a: string)
    requires a != "" && IsAlpha(a[0]) && a[0] != 'n' && !IsSpace(a[|a| - 1])
    requires Balanced(a) && 'r' !in a && 'd' !in a
    ensures AtomText(a)
  {
    assert "or"[1] == 'r' && "and"[2] == 'd' && "not "[0] == 'n' && "not("[0] == 'n';
    NoLetter(a, "or", 1);
    NoLetter(a, "and", 2);
  }

  lemma {:induction false} LiteralBalanced(p: string, body: string)
    requires forall c :: c in p ==> c != '(' && c != ')' && c != '\''
    requires '\'' !in body
    ensures Balanced(p + "'" + body + "'")
  {
    var a := p + "'" + body + "'";
    forall i {:trigger At(a, i)} | 0 <= i <= |a|
      ensures At(a, i).depth == 0 && (i == |a| ==> At(a, i) == START)
    {
      LiteralState(p, body, i);
    }
  }

  lemma {:induction false} LiteralState(p: string, body: string, i: nat)
    requires i <= |p| + |body| + 2 && '\'' !in body
    requires forall c :: c in p ==> c != '(' && c != ')' && c != '\''
    ensures At(p + "'" + body + "'", i) == State(0, |p| < i < |p| + |body| + 2)
    decreases i
  {
    var a := p + "'" + body + "'";
    if i > 0 {
      LiteralState(p, body, i - 1);
      var c := a[i - 1];
      if i - 1 < |p| {
        assert c == p[i - 1] && c in p;
      } else if |p| < i - 1 < |p| + 1 + |body| {
        assert c == body[i - 2 - |p|] && c in body;
      }
    }
  }

  /** A parenthesis inside a literal keeps a redundant group: two spellings of one
      predicate get different canonical forms. */
  lemma {:induction false} LiteralKeepsGroup(x: string, y: string)
    requires x == "(a='(')" && y == "a='('"
    ensures var t, u := Group("", Atom(y), ""), Atom(y);
            Wf(t) && Wf(u) && Spell(t) == x && Spell(u) == y && Flatten(t) == Flatten(u)
    ensures CanonBool(x) == x != y == CanonBool(y)
  {
    UnclosedExample(y);
    UnclosedGroup(y);
    LongerGroup(x, y);
  }

  lemma {:induction false} LongerGroup(x: string, y: string)
    requires x == "(a='(')" && y == "a='('"
    ensures x == "(" + y + ")" != y
  {
    assert |x| == |y| + 2;
  }

  lemma {:induction false} UnclosedGroup(p: string)
    requires Unclosed(p)
    ensures var t := Group("", Atom(p), "");
            && Wf(t) && Spell(t) == "(" + p + ")" && Flatten(t) == Lit(p)
            && CanonBool(Spell(t)) == Spell(t) && CanonBool(p) == p
  {
    BareGroup(p);
    Verbatim(Group("", Atom(p), ""));
    CanonicalForm(Atom(p));
  }

  lemma {:induction false} OpenLiteral(y: string)
    requires y == "a='('"
    ensures Net(y) == 1
  {
    assert Raw(y, 1) == 0 && Raw(y, 2) == 0 && Raw(y, 3) == 0 && Raw(y, 4) == 1 && Raw(y, 5) == 1;
  }

  /** "(p)" and "(q)" joined by "and". */
  function TwoGroups(p: string, q: string): Src {
    And(Group("", Atom(p), ""), " ", " ", Group("", Atom(q), ""))
  }

  /** Two groups can look like one: their outer parentheses are peeled, and the
      output does not even balance. */
  lemma {:induction false} TwoGroupsPeeled(p: string, q: string)
    requires AtomText(p) && AtomText(q) && p[0] != '(' && p[0] != 'n' && RawBalanced(p + ") and (" + q)
    ensures var t := TwoGroups(p, q);
            && Wf(t) && Spell(t) == "(" + (p + ") and (" + q) + ")" && !Clean(t)
            && CanonBool(Spell(t)) == p + ") and (" + q && !Balanced(p + ") and (" + q)
  {
    var y := p + ") and (" + q;
    BareGroup(p);
    BareGroup(q);
    AndOfIs(Group("", Atom(p), ""), Group("", Atom(q), ""));
    assert "(" + p + ")" + " and " + ("(" + q + ")") == "(" + y + ")";
    PeeledExactly(y);
    InnerText(p, q, y);
    PeeledOutput("(" + y + ")", y);
  }

  lemma {:induction false} AndOfIs(l: Src, r: Src)
    requires Wf(l) && Wf(r) && !l.Or? && !r.Or?
    ensures var t := And(l, " ", " ", r); Wf(t) && Spell(t) == Spell(l) + " and " + Spell(r)
  {
    Infix(Spell(l), Spell(r));
  }

  lemma {:induction false} BareGroup(p: string)
    requires AtomText(p)
    ensures var g := Group("", Atom(p), ""); Wf(g) && Spell(g) == "(" + p + ")" && Flatten(g) == Lit(p)
  {
    GroupBare(p);
    assert Wf(Atom(p)) && Spell(Atom(p)) == p && Flatten(Atom(p)) == Lit(p);
  }

  lemma {:induction false} PeeledOutput(x: string, y: string)
    requires x == "(" + y + ")" && Wrapped(x) && y != "" && Trimmed(y) && y[0] != '(' && y[0] != 'n'
    requires NoCut(y, "or") && NoCut(y, "and")
    ensures CanonBool(x) == y
  {
    assert x[1..|x| - 1] == y;
    StripTrimmed(x);
    StripTrimmed(y);
    Untouched(y);
    assert Unwrap(x) == Unwrap(y);
  }

  /** Between two groups the depth is below that outside them. */
  lemma {:induction false} InnerText(p: string, q: string, y: string)
    requires AtomText(p) && AtomText(q) && y == p + ") and (" + q
    ensures NoCut(y, "or") && NoCut(y, "and") && !Balanced(y) && Trimmed(y)
  {
    var m := ") and (";
    Middle(m);
    InnerState(p, m, q);
    InnerNoCut(p, m, q, "or");
    InnerNoCut(p, m, q, "and");
    assert y[0] == p[0] && y[|y| - 1] == q[|q| - 1];
  }

  lemma {:induction false} InnerState(p: string, m: string, q: string)
    requires At(p, |p|) == START && |m| == 7 && At(m, 1) == State(-1, false) && At(m, 7) == START
    ensures At(p + m, |p + m|) == START && !Balanced(p + m + q)
  {
    FromConcat(START, p, m, |p| + 1);
    FromConcat(START, p, m, |p| + 7);
    FromConcat(START, p + m, q, |p| + 1);
    assert At(p + m + q, |p| + 1).depth == -1;
  }

  lemma {:induction false} InnerNoCut(p: string, m: string, q: string, op: string)
    requires IsWord(op) && NoCut(p, op) && NoCut(m, op) && NoCut(q, op)
    requires At(p, |p|) == START && At(p + m, |p + m|) == START
    requires |m| == 7 && m[0] == ')' && m[6] == '('
    ensures NoCut(p + m + q, op)
  {
    NoCutConcat(p, m, op);
    assert (p + m)[|p + m| - 1] == '(';
    NoCutConcat(p + m, q, op);
  }

  lemma {:induction false} Middle(m: string)
    requires m == ") and ("
    ensures At(m, 1) == State(-1, false) && At(m, 7) == START && NoCut(m, "or") && NoCut(m, "and")
    ensures IsWord("or") && IsWord("and")
  {
    WordsNoCut();
    assert At(m, 1) == State(-1, false) && At(m, 2) == State(-1, false) && At(m, 3) == State(-1, false);
    assert At(m, 4) == State(-1, false) && At(m, 5) == State(-1, false) && At(m, 6) == State(-1, false);
    forall i: nat | i <= |m|
      ensures !IsCut(m, "or", i) && !IsCut(m, "and", i)
    {
      if i == 0 {
        assert "or"[0] == 'o' && "and"[0] == 'a';
        Mismatch(m, "or", 0, 0);
        Mismatch(m, "and", 0, 0);
      }
    }
  }

  /** Such a pair: a='(' and b=f(1)||')'. */
  lemma {:induction false} TwoGroupsExample(p: string, q: string)
    requires p == "a='('" && q == "b=f(1)||')'"
    ensures AtomText(p) && AtomText(q) && p[0] == 'a' && RawBalanced(p + ") and (" + q)
  {
    LiteralAtom("a=", "(");
    assert p == "a=" + "'" + "(" + "'";
    CallAtom(q);
    LooksBalanced(p + ") and (" + q);
  }

  lemma {:induction false} CallAtom(q: string)
    requires q == "b=f(1)||')'"
    ensures AtomText(q)
  {
    FlatBalanced("b=f");
    FlatBalanced("1");
    BalancedParens("1");
    BalancedConcat("b=f", "(" + "1" + ")");
    LiteralBalanced("||", ")");
    BalancedConcat("b=f" + ("(" + "1" + ")"), "||" + "'" + ")" + "'");
    assert q == "b=f" + ("(" + "1" + ")") + ("||" + "'" + ")" + "'");
    assert 'r' !in q && 'd' !in q && q[0] == 'b' && q[|q| - 1] == '\'';
    LetterAtom(q);
  }

  lemma {:induction false} LooksBalanced(y: string)
    requires y == "a='(') and (b=f(1)||')'"
    ensures RawBalanced(y)
  {
    var g := "b=f" + ("(" + "1" + ")") + "||'";
    NoParensRaw("1", 1);
    NoParensRaw("'", 1);
    RawAround("b=f", "1", "||'");
    RawAround("a='", "'", " and ");
    RawAround("a='" + ("(" + "'" + ")") + " and ", g, "'");
    ExampleText(y, g);
  }

  lemma {:induction false} ExampleText(y: string, g: string)
    requires y == "a='(') and (b=f(1)||')'" && g == "b=f" + ("(" + "1" + ")") + "||'"
    ensures y == "a='" + ("(" + "'" + ")") + " and " + ("(" + g + ")") + "'"
  {
    assert g == "b=f(1)||'";
  }

  lemma {:induction false} RawAround(a: string, x: string, b: string)
    requires RawBalanced(x) && (NoParens(a) || RawBalanced(a)) && NoParens(b)
    ensures RawBalanced(a + ("(" + x + ")") + b)
  {
    if NoParens(a) {
      NoParensRaw(a, 1);
    }
    NoParensRaw(b, 1);
    RawGroup(x);
    RawBalancedConcat(a, "(" + x + ")");
    RawBalancedConcat(a + ("(" + x + ")"), b);
  }

  /** A closing parenthesis inside a literal ends what is read after "not(": two
      predicates that differ behind it get one canonical form, a false "equal". */
  lemma {:induction false} LiteralHidesRest(w: string, x: string, y: string)
    requires RawBalanced(w) && AtomText(w + ")" + x) && AtomText(w + ")" + y) && x != y
    ensures var t, u := NotOf(w + ")" + x), NotOf(w + ")" + y);
            && Wf(t) && Wf(u) && Flatten(t) != Flatten(u)
            && Spell(t) == "not(" + (w + ")" + x) + ")" && Spell(u) == "not(" + (w + ")" + y) + ")"
            && CanonBool(Spell(t)) == CanonBool(Spell(u))
  {
    HiddenRest(w, x);
    HiddenRest(w, y);
    assert (w + ")" + x)[|w| + 1..] == x && (w + ")" + y)[|w| + 1..] == y;
  }

  lemma {:induction false} HiddenRest(w: string, x: string)
    requires RawBalanced(w) && AtomText(w + ")" + x)
    ensures var a := w + ")" + x;
            && Wf(NotOf(a)) && Flatten(NotOf(a)) == Neg(Lit(a)) && Spell(NotOf(a)) == "not(" + a + ")"
            && CanonBool("not(" + a + ")") == Negate(CanonBool(w))
  {
    var a := w + ")" + x;
    TightAtom(a);
    TightNoCut(NotOf(a));
    assert "not(" + a + ")" == "not(" + w + ")" + (x + ")");
    assert (x + ")")[|x + ")"| - 1] == ')';
    CutShort(w, x + ")");
  }

  /** "not(b)". */
  function NotOf(b: string): Src {
    Not("", Group("", Atom(b), ""))
  }

  lemma {:induction false} TightAtom(a: string)
    requires AtomText(a)
    ensures Wf(NotOf(a)) && Spell(NotOf(a)) == "not(" + a + ")" && Flatten(NotOf(a)) == Neg(Lit(a))
  {
    BareGroup(a);
    assert "not(" + a + ")" == "not" + ("" + ("(" + a + ")"));
  }

  /** Such texts: a like ')x' and a like ')y'. */
  lemma {:induction false} HiddenExample(w: string, c: string)
    requires w == "a like '" && (c == "x" || c == "y")
    ensures RawBalanced(w) && AtomText(w + ")" + (c + "'"))
  {
    NoParensRaw(w, 1);
    LiteralAtom("a like ", ")" + c);
    assert w + ")" + (c + "'") == "a like " + "'" + (")" + c) + "'";
  }

  // ------------------------------- right in spite of a group not recognised

  /** An opaque text that opens one parenthesis more than it closes, in a literal. */
  ghost predicate Unclosed(p: string) {
    AtomText(p) && p[0] != '(' && Stays(p, 1) && Net(p) == 1
  }

  lemma {:induction false} UnclosedExample(p: string)
    requires p == "a='('"
    ensures Unclosed(p)
  {
    LiteralAtom("a=", "(");
    assert p == "a=" + "'" + "(" + "'" && p[0] == 'a';
    OpenLiteral(p);
    assert Raw(p, 0) == 0 && Raw(p, 1) == 0 && Raw(p, 2) == 0 && Raw(p, 3) == 0 && Raw(p, 4) == 1 && Raw(p, 5) == 1;
  }

  ghost predicate TameAtom(b: string) {
    AtomText(b) && RawBalanced(b) && !Wrapped(b)
  }

  /** "p or e". */
  function OrOf(p: string, e: Src): Src {
    Or(Atom(p), " ", " ", e)
  }

  lemma {:induction false} OrOfIs(p: string, e: Src)
    requires Unclosed(p) && Wf(e) && Clean(e) && !e.Or? && Faithful(e) && RawBalanced(Spell(e))
    ensures var t := OrOf(p, e);
            && Wf(t) && Clean(t) && Faithful(t) && Spell(t) == p + " or " + Spell(e)
            && Flatten(t).Disj? && Print(Flatten(t)) == p + " or " + Print(Flatten(e))
            && Stays(Spell(t), 1) && Net(Spell(t)) == 1
  {
    var t := OrOf(p, e);
    Infix(p, Spell(e));
    assert Spell(t) == p + (" or " + Spell(e)) && Spell(t)[0] == p[0];
    FlattenOk(e);
    JoinPrints(Lit(p), Flatten(e));
    assert Flatten(Atom(p)) == Lit(p) && Print(Lit(p)) == p;
    NoParensRaw(" or ", 1);
    RawBalancedConcat(" or ", Spell(e));
    BalancedStays(" or " + Spell(e));
    StaysConcat(p, " or " + Spell(e), 1);
    NetConcat(p, " or " + Spell(e));
  }

  /** "(p or b) and c": the group is not recognised, so it is kept; and it is needed. */
  lemma {:induction false} KeptGroupIsRight(p: string, b: string, c: string)
    requires Unclosed(p) && TameAtom(b) && TameAtom(c)
    ensures var t := And(Group("", OrOf(p, Atom(b)), ""), " ", " ", Atom(c));
            && Wf(t) && Spell(t) == "(" + (p + " or " + b) + ") and " + c
            && !Clean(t) && CanonBool(Spell(t)) == Print(Flatten(t))
  {
    OrOfIs(p, Atom(b));
    KeptAnd(OrOf(p, Atom(b)), c);
  }

  lemma {:induction false} KeptAnd(o: Src, c: string)
    requires Wf(o) && Clean(o) && Faithful(o) && Flatten(o).Disj? && Net(Spell(o)) == 1 && TameAtom(c)
    requires Spell(o) == Print(Flatten(o))
    ensures var t := And(Group("", o, ""), " ", " ", Atom(c));
            && Wf(t) && Spell(t) == "(" + Spell(o) + ") and " + c
            && !Clean(t) && CanonBool(Spell(t)) == Print(Flatten(t))
  {
    var g := Group("", o, "");
    GroupOf(o, g);
    AndOfIs(g, Atom(c));
    TameAtomIs(c);
    AndText(Spell(o), c);
    KeptNotWrapped(Spell(o), c, Spell(And(g, " ", " ", Atom(c))));
    KeptAndGroup(o, g, Atom(c), And(g, " ", " ", Atom(c)));
  }

  lemma {:induction false} AndText(w: string, c: string)
    ensures "(" + w + ")" + " and " + c == "(" + w + ") and " + c
  {
  }

  lemma {:induction false} NotText(w: string)
    ensures "not" + ("(" + w + ")") == "not(" + w + ")" == "not(" + (w + ")")
  {
  }

  lemma {:induction false} TameAtomIs(c: string)
    requires TameAtom(c)
    ensures var a := Atom(c); Wf(a) && Clean(a) && Faithful(a) && Spell(a) == c
  {
  }

  lemma {:induction false} KeptAndGroup(o: Src, g: Src, a: Src, t: Src)
    requires g.Group? && g.inner == o && Clean(o) && Faithful(g) && Flatten(g).Disj? && !RawBalanced(Spell(o))
    requires Spell(g) == "(" + Print(Flatten(g)) + ")"
    requires Clean(a) && Faithful(a) && a.Atom?
    requires t == And(g, " ", " ", a) && Wf(t) && !Wrapped(Spell(t))
    ensures !Clean(t) && CanonBool(Spell(t)) == Print(Flatten(t))
  {
    KeptGroup(t);
  }

  lemma {:induction false} GroupOf(o: Src, g: Src)
    requires Wf(o) && g == Group("", o, "")
    ensures Wf(g) && Spell(g) == "(" + Spell(o) + ")" && Flatten(g) == Flatten(o) && (Faithful(g) <==> Faithful(o))
    ensures Peels(g) <==> RawBalanced(Spell(o))
  {
    GroupBare(Spell(o));
    PeeledExactly(Spell(o));
  }

  lemma {:induction false} KeptNotWrapped(w: string, c: string, s: string)
    requires Net(w) == 1 && RawBalanced(c) && s == "(" + w + ")" + " and " + c
    ensures !Wrapped(s)
  {
    assert s == ("(" + w + ")") + (" and " + c);
    RawInside(w, 0);
    NoParensRaw(" and ", 1);
    NetConcat(" and ", c);
    NetConcat("(" + w + ")", " and " + c);
  }

  /** "not(p or not(b))": the parenthesis after the first "not" finds no partner,
      because the literal opens one more; and the one that is left over is dropped
      after the inner "not(b)". The two errors cancel. */
  lemma {:induction false} ErrorsCancel(p: string, b: string)
    requires Unclosed(p) && TameAtom(b)
    ensures var t := Not("", Group("", OrOf(p, NotOf(b)), ""));
            && Wf(t) && Spell(t) == "not(" + (p + " or not(" + b + ")") + ")"
            && !Clean(t) && CanonBool(Spell(t)) == Print(Flatten(t))
  {
    var e := NotOf(b);
    NotOfIs(b);
    OrOfIs(p, e);
    assert p + " or " + ("not(" + b + ")") == p + " or not(" + b + ")";
    CancelRead(p, b, Spell(OrOf(p, e)) + ")");
    CancelNot(OrOf(p, e));
  }

  lemma {:induction false} CancelNot(o: Src)
    requires Wf(o) && Clean(o) && Faithful(o) && Flatten(o).Disj? && Stays(Spell(o), 1) && Net(Spell(o)) == 1
    requires CanonBool(Spell(o) + ")") == Print(Flatten(o))
    ensures var t := Not("", Group("", o, ""));
            && Wf(t) && Spell(t) == "not(" + Spell(o) + ")"
            && !Clean(t) && CanonBool(Spell(t)) == Print(Flatten(t))
  {
    var g := Group("", o, "");
    GroupOf(o, g);
    CancelNotGroup(o, g, Not("", g));
  }

  lemma {:induction false} CancelNotGroup(o: Src, g: Src, t: Src)
    requires Wf(o) && Clean(o) && Faithful(o) && Flatten(o).Disj? && Stays(Spell(o), 1) && Net(Spell(o)) == 1
    requires CanonBool(Spell(o) + ")") == Print(Flatten(o))
    requires t == Not("", g) && g.Group? && Wf(g) && !Peels(g) && Flatten(g) == Flatten(o) && Spell(g) == "(" + Spell(o) + ")"
    ensures Wf(t) && Spell(t) == "not(" + Spell(o) + ")" && !Clean(t) && CanonBool(Spell(t)) == Print(Flatten(t))
  {
    NotGroupIs(g, t);
    NotText(Spell(o));
    TightNoCut(t);
    CancelOutput(o, Spell(t));
    NegPrints(Flatten(o));
  }

  lemma {:induction false} NotGroupIs(g: Src, t: Src)
    requires t == Not("", g) && g.Group? && Wf(g)
    ensures t.Not? && Wf(t) && Spell(t) == "not" + Spell(g) && Flatten(t) == Neg(Flatten(g)) && (Clean(t) ==> Peels(g))
  {
    assert "" + Spell(g) == Spell(g);
  }

  lemma {:induction false} NotOfIs(b: string)
    requires TameAtom(b)
    ensures var e := NotOf(b);
            && Wf(e) && Clean(e) && Faithful(e) && Spell(e) == "not(" + b + ")" && RawBalanced(Spell(e))
            && Flatten(e) == Neg(Lit(b)) && Print(Flatten(e)) == "not " + b
  {
    var e := NotOf(b);
    TightAtom(b);
    GroupBare(b);
    PeeledExactly(b);
    NotPeels("" + Spell(e.operand));
    assert Clean(Atom(b)) && Faithful(Atom(b));
    NegPrints(Lit(b));
    TameBalanced(e);
  }

  lemma {:induction false} CancelOutput(o: Src, x: string)
    requires Wf(o) && Clean(o) && Faithful(o) && Flatten(o).Disj? && Stays(Spell(o), 1) && Net(Spell(o)) == 1
    requires x == "not(" + (Spell(o) + ")") && NoCut(x, "or") && NoCut(x, "and")
    requires CanonBool(Spell(o) + ")") == Print(Flatten(o))
    ensures CanonBool(x) == "not (" + Print(Flatten(o)) + ")"
  {
    NoPartner(Spell(o));
    ReadToEnd(x, Spell(o) + ")");
    FlattenOk(o);
    ReadSize(o);
    ReadClean(o);
    PrecPrint(Read(o));
  }

  lemma {:induction false} ReadToEnd(x: string, u: string)
    requires x == "not(" + u && u != "" && !IsSpace(u[|u| - 1]) && CloseFrom(x, 3, 0) == -1
    requires NoCut(x, "or") && NoCut(x, "and")
    ensures CanonBool(x) == Negate(CanonBool(u))
  {
    assert x[0] == 'n' && x[4..] == u && x[|x| - 1] == u[|u| - 1];
    StripTrimmed(x);
    SplitWhole(x, "or");
    SplitWhole(x, "and");
    assert StartsWith(x, "not(") && !StartsWith(x, "not ");
  }

  lemma {:induction false} NoPartner(w: string)
    requires Stays(w, 1) && Net(w) >= 1
    ensures CloseFrom("not(" + (w + ")"), 3, 0) == -1
  {
    var s, u := "not(" + (w + ")"), w + ")";
    NoParensAt("not", 3);
    assert "not(" == "not" + "(";
    RawConcat("not", "(", 3);
    assert Raw("not(", 4) == Raw("not(", 3) + 1;
    RawConcat("not(", u, 3);
    forall k | 4 <= k <= |s|
      ensures Raw(s, k) > 0
    {
      RawConcat("not(", u, k);
      RawConcat(w, ")", k - 4);
      assert k - 4 <= |w| ==> 1 + Raw(w, k - 4) > 0;
      assert Raw(")", 1) == Raw(")", 0) - 1;
    }
    CloseNone(s, 3, 0);
  }

  lemma {:induction false} CloseNone(s: string, i: nat, d: int)
    requires i <= |s| && forall k :: i < k <= |s| ==> d + Raw(s, k) - Raw(s, i) > 0
    ensures CloseFrom(s, i, d) == -1
    decreases |s| - i
  {
    if i < |s| {
      assert d + Raw(s, i + 1) - Raw(s, i) > 0;
      CloseNone(s, i + 1, d + Raw(s, i + 1) - Raw(s, i));
    }
  }

  lemma {:induction false} CancelRead(p: string, b: string, u: string)
    requires Unclosed(p) && TameAtom(b) && u == Spell(OrOf(p, NotOf(b))) + ")"
    ensures CanonBool(u) == p + " or " + ("not " + b)
  {
    var q, n := "not(" + b + ")" + ")", |u|;
    NotOfIs(b);
    CancelSplit(p, b, q, u);
    CancelRest(b, q);
    CanonicalForm(Atom(p));
    StripTrimmed(p);
    assert q[0] == 'n' && q[|q| - 1] == ')' && u[0] == p[0] && u[|u| - 1] == ')';
    StripTrimmed(q);
    StripTrimmed(u);
    CanonAllOne(p, 1, n);
    CanonAllOne(q, 1, n);
    CanonAllConcat([p], [q], 1, n);
    RejoinConcat([p], ["not " + b], " or ");
  }

  lemma {:induction false} CancelSplit(p: string, b: string, q: string, u: string)
    requires Unclosed(p) && TameAtom(b) && q == "not(" + b + ")" + ")" && u == Spell(OrOf(p, NotOf(b))) + ")"
    ensures Split(u, "or") == [p] + [q] && |p| < |u| && |q| < |u|
    ensures NoCut(q, "or") && NoCut(q, "and")
  {
    CancelNoCut(b, q);
    NotOfIs(b);
    Infix(p, "not(" + b + ")");
    assert Apart(p + " ", "or") && Apart("or", " " + q);
    assert u == "" + ((p + " ") + "or" + (" " + q)) + "";
    SplitJoined("", p, " ", "or", " ", q, "");
    SplitWhole(" " + q + "", "or");
    assert q[0] == 'n' && q[|q| - 1] == ')';
    StripOf(" ", q, "");
    OnePart("", p, " ", "or");
  }

  lemma {:induction false} CancelNoCut(b: string, q: string)
    requires TameAtom(b) && q == "not(" + b + ")" + ")"
    ensures NoCut(q, "or") && NoCut(q, "and") && NoCut(" " + q + "", "or") && IsWord("or")
  {
    var e := NotOf(b);
    NotOfIs(b);
    WordsNoCut();
    TightNoCut(e);
    SpellShape(e);
    NoCutConcat(Spell(e), ")", "or");
    NoCutConcat(Spell(e), ")", "and");
    BlankNoCut(" ", "or");
    NoCutConcat(" ", q, "or");
    assert " " + q + "" == " " + q;
  }

  lemma {:induction false} CancelRest(b: string, q: string)
    requires TameAtom(b) && q == "not(" + b + ")" + ")" && NoCut(q, "or") && NoCut(q, "and")
    ensures CanonBool(q) == "not " + b
  {
    CutShort(b, ")");
    CanonicalForm(Atom(b));
    PrecPrint(Lit(b));
  }
}
