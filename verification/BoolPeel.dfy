/**
 The peeling of outer parentheses counts every parenthesis, those inside literals
 too. Clean says that the peeling is right at each text the code looks at; then it is
 also right on what the code prints.
 */
module BoolPeel {
  import opened Lex
  import opened Splitter
  import opened BoolCanon
  import opened BoolGrammar
  import opened BoolForms

  // ------------------------------------------------ counting every parenthesis

  function Net(x: string): int {
    Raw(x, |x|)
  }

  /** Begun at depth d the count stays above zero. */
  ghost predicate Stays(x: string, d: int) {
    forall i {:trigger Raw(x, i)} :: 0 <= i <= |x| ==> d + Raw(x, i) > 0
  }

  /** Balanced when the parentheses inside literals are counted. */
  ghost predicate RawBalanced(x: string) {
    Stays(x, 1) && Net(x) == 0
  }

  /** The beginning of a wrapped text: "(" and no return to zero. */
  ghost predicate Opened(x: string) {
    x != "" && x[0] == '(' && forall i {:trigger Raw(x, i)} :: 0 < i <= |x| ==> Raw(x, i) > 0
  }

  /** The end of a wrapped text, begun at depth d. */
  ghost predicate Closed(x: string, d: int) {
    && x != "" && x[|x| - 1] == ')' && d + Net(x) == 0
    && forall i {:trigger Raw(x, i)} :: 0 <= i < |x| ==> d + Raw(x, i) > 0
  }

  lemma {:induction false} NetConcat(a: string, b: string)
    ensures Net(a + b) == Net(a) + Net(b)
  {
    RawConcat(a, b, |a| + |b|);
  }

  lemma {:induction false} StaysConcat(a: string, b: string, d: int)
    ensures Stays(a + b, d) <==> Stays(a, d) && Stays(b, d + Net(a))
  {
    forall i {:trigger Raw(a, i)} | 0 <= i <= |a|
      ensures Raw(a + b, i) == Raw(a, i)
    {
      RawConcat(a, b, i);
    }
    forall i {:trigger Raw(b, i)} | 0 <= i <= |b|
      ensures Raw(a + b, |a| + i) == Net(a) + Raw(b, i)
    {
      RawConcat(a, b, |a| + i);
    }
    if Stays(a, d) && Stays(b, d + Net(a)) {
      forall i {:trigger Raw(a + b, i)} | 0 <= i <= |a + b|
        ensures d + Raw(a + b, i) > 0
      {
        if i <= |a| {
          assert d + Raw(a, i) > 0;
        } else {
          assert d + Net(a) + Raw(b, i - |a|) > 0;
        }
      }
    }
  }

  lemma {:induction false} ClosedConcat(a: string, b: string, d: int)
    requires b != ""
    ensures Closed(a + b, d) <==> Stays(a, d) && Closed(b, d + Net(a))
  {
    NetConcat(a, b);
    forall i {:trigger Raw(a, i)} | 0 <= i <= |a|
      ensures Raw(a + b, i) == Raw(a, i)
    {
      RawConcat(a, b, i);
    }
    forall i {:trigger Raw(b, i)} | 0 <= i <= |b|
      ensures Raw(a + b, |a| + i) == Net(a) + Raw(b, i)
    {
      RawConcat(a, b, |a| + i);
    }
    if Stays(a, d) && Closed(b, d + Net(a)) {
      forall i {:trigger Raw(a + b, i)} | 0 <= i < |a + b|
        ensures d + Raw(a + b, i) > 0
      {
        if i <= |a| {
          assert d + Raw(a, i) > 0;
        } else {
          assert d + Net(a) + Raw(b, i - |a|) > 0;
        }
      }
    }
  }

  lemma {:induction false} OpenedConcat(a: string, b: string)
    requires a != ""
    ensures Opened(a + b) <==> Opened(a) && Stays(b, Net(a))
  {
    forall i {:trigger Raw(a, i)} | 0 <= i <= |a|
      ensures Raw(a + b, i) == Raw(a, i)
    {
      RawConcat(a, b, i);
    }
    forall i {:trigger Raw(b, i)} | 0 <= i <= |b|
      ensures Raw(a + b, |a| + i) == Net(a) + Raw(b, i)
    {
      RawConcat(a, b, |a| + i);
    }
    if Opened(a) && Stays(b, Net(a)) {
      forall i {:trigger Raw(a + b, i)} | 0 < i <= |a + b|
        ensures Raw(a + b, i) > 0
      {
        if i <= |a| {
          assert Raw(a, i) > 0;
        } else {
          assert Net(a) + Raw(b, i - |a|) > 0;
        }
      }
    }
  }

  lemma {:induction false} WrappedConcat(a: string, b: string)
    requires a != "" && b != ""
    ensures Wrapped(a + b) <==> Opened(a) && Closed(b, Net(a))
  {
    NetConcat(a, b);
    forall i {:trigger Raw(a, i)} | 0 <= i <= |a|
      ensures Raw(a + b, i) == Raw(a, i)
    {
      RawConcat(a, b, i);
    }
    forall i {:trigger Raw(b, i)} | 0 <= i <= |b|
      ensures Raw(a + b, |a| + i) == Net(a) + Raw(b, i)
    {
      RawConcat(a, b, |a| + i);
    }
    if Opened(a) && Closed(b, Net(a)) {
      forall i | 0 < i < |a + b|
        ensures Raw(a + b, i) > 0
      {
        if i <= |a| {
          assert Raw(a, i) > 0;
        } else {
          assert Net(a) + Raw(b, i - |a|) > 0;
        }
      }
    }
  }

  predicate NoParens(x: string) {
    forall k :: 0 <= k < |x| ==> x[k] != '(' && x[k] != ')'
  }

  lemma {:induction false} NoParensAt(x: string, i: nat)
    requires NoParens(x) && i <= |x|
    ensures Raw(x, i) == 0
    decreases i
  {
    if i > 0 {
      NoParensAt(x, i - 1);
    }
  }

  lemma {:induction false} NoParensRaw(x: string, d: int)
    requires NoParens(x)
    ensures Net(x) == 0 && (Stays(x, d) <==> d > 0) && !Opened(x) && !Closed(x, d) && RawBalanced(x)
  {
    forall i {:trigger Raw(x, i)} | 0 <= i <= |x|
      ensures Raw(x, i) == 0
    {
      NoParensAt(x, i);
    }
    assert Raw(x, 0) == 0;
  }

  lemma {:induction false} RawInside(x: string, i: nat)
    requires i <= |x|
    ensures Raw("(" + x + ")", i + 1) == 1 + Raw(x, i)
    ensures Raw("(" + x + ")", |x| + 2) == Raw(x, |x|)
  {
    var s := "(" + x + ")";
    assert s == "(" + (x + ")");
    RawConcat("(", x + ")", i + 1);
    RawConcat("(", x + ")", |x| + 1);
    RawConcat("(", x + ")", |x| + 2);
    assert Raw("(", 1) == Raw("(", 0) + 1;
    RawConcat(x, ")", i);
    RawConcat(x, ")", |x|);
    RawConcat(x, ")", |x| + 1);
    assert Raw(")", 1) == Raw(")", 0) - 1;
  }

  /** A group around x is recognised exactly when the parentheses of x balance,
      those inside its literals counted. */
  lemma {:induction false} PeeledExactly(x: string)
    ensures Wrapped("(" + x + ")") <==> RawBalanced(x)
  {
    var s := "(" + x + ")";
    RawInside(x, 0);
    forall i {:trigger Raw(x, i)} | 0 <= i <= |x|
      ensures Raw(s, i + 1) == 1 + Raw(x, i)
    {
      RawInside(x, i);
    }
    if Stays(x, 1) {
      forall i | 0 < i < |s|
        ensures Raw(s, i) > 0
      {
        assert 1 + Raw(x, i - 1) > 0;
      }
    } else {
      var i: nat :| i <= |x| && 1 + Raw(x, i) <= 0;
      RawInside(x, i);
      assert 0 < i + 1 < |s| && !(Raw(s, i + 1) > 0);
    }
  }

  lemma {:induction false} RawGroup(x: string)
    requires RawBalanced(x)
    ensures RawBalanced("(" + x + ")")
  {
    var s := "(" + x + ")";
    PeeledExactly(x);
    assert Raw(s, 0) == 0;
    forall i {:trigger Raw(s, i)} | 0 <= i <= |s|
      ensures 1 + Raw(s, i) > 0
    {
      assert 0 < i < |s| ==> Raw(s, i) > 0;
    }
  }

  lemma {:induction false} RawBalancedConcat(a: string, b: string)
    requires RawBalanced(a) && RawBalanced(b)
    ensures RawBalanced(a + b)
  {
    StaysConcat(a, b, 1);
    NetConcat(a, b);
  }

  /** Blank margins do not count. */
  lemma {:induction false} RawPadded(w1: string, x: string, w2: string)
    requires Blank(w1) && Blank(w2)
    ensures RawBalanced(w1 + x + w2) <==> RawBalanced(x)
  {
    NoParensRaw(w1, 1);
    StaysConcat(w1, x, 1);
    NetConcat(w1, x);
    StaysConcat(w1 + x, w2, 1);
    NetConcat(w1 + x, w2);
    NoParensRaw(w2, 1 + Net(w1 + x));
    if RawBalanced(x) {
      NoParensRaw(w2, 1);
    }
  }

  // --------------------------------------------------- where peeling is right

  /** The peeling test is right on this text: groups pass it, and nothing else. */
  ghost predicate Peels(t: Src) {
    Wrapped(Spell(t)) <==> t.Group?
  }

  /** It is right on every text below this one that the code looks at. A run of one
      operator is looked at as a whole and at its operands. */
  ghost predicate Inside(t: Src) {
    match t
    case Atom(_) => true
    case Tail(_, _, _, _) => true
    case Group(_, inner, _) => Peels(inner) && Inside(inner)
    case Not(gap, e) =>
      if gap == "" && e.Tail?
      then RawBalanced(Spell(e.head)) && RawBalanced(e.rest) && Peels(e.head) && Inside(e.head)
      else Peels(e) && Inside(e)
    case And(l, _, _, r) => (l.And? || Peels(l)) && Inside(l) && (r.And? || Peels(r)) && Inside(r)
    case Or(l, _, _, r) => (l.Or? || Peels(l)) && Inside(l) && (r.Or? || Peels(r)) && Inside(r)
  }

  ghost predicate Clean(t: Src) {
    Peels(t) && Inside(t)
  }

  /** Every opaque text balances with its literals counted, and none looks like a
      group then. */
  ghost predicate Tame(t: Src) {
    match t
    case Atom(text) => RawBalanced(text) && !Wrapped(text)
    case Tail(_, head, _, rest) => Tame(head) && RawBalanced(rest)
    case Group(_, inner, _) => Tame(inner)
    case Not(_, e) => Tame(e)
    case And(l, _, _, r) => Tame(l) && Tame(r)
    case Or(l, _, _, r) => Tame(l) && Tame(r)
  }

  lemma {:induction false} TameBalanced(t: Src)
    requires Wf(t) && Tame(t)
    ensures RawBalanced(Spell(t))
  {
    match t
    case Atom(_) =>
    case Tail(t1, head, t2, rest) =>
      TameBalanced(head);
      RawPadded(t1, Spell(head), t2);
      RawGroup(t1 + Spell(head) + t2);
      RawBalancedConcat("(" + (t1 + Spell(head) + t2) + ")", rest);
    case Group(g1, inner, g2) =>
      TameBalanced(inner);
      RawPadded(g1, Spell(inner), g2);
      RawGroup(g1 + Spell(inner) + g2);
    case Not(gap, e) =>
      TameBalanced(e);
      NoParensRaw(gap, 1);
      NoParensRaw("not", 1);
      RawBalancedConcat(gap, Spell(e));
      RawBalancedConcat("not", gap + Spell(e));
    case And(l, w1, w2, r) =>
      TameBalanced(l);
      TameBalanced(r);
      RawJoin(Spell(l), w1, "and", w2, Spell(r));
    case Or(l, w1, w2, r) =>
      TameBalanced(l);
      TameBalanced(r);
      RawJoin(Spell(l), w1, "or", w2, Spell(r));
  }

  lemma {:induction false} RawJoin(a: string, w1: string, op: string, w2: string, b: string)
    requires RawBalanced(a) && RawBalanced(b) && Blank(w1) && Blank(w2) && NoParens(op)
    ensures RawBalanced((a + w1) + op + (w2 + b))
  {
    NoParensRaw(w1, 1);
    NoParensRaw(w2, 1);
    NoParensRaw(op, 1);
    RawBalancedConcat(a, w1);
    RawBalancedConcat(a + w1, op);
    RawBalancedConcat(w2, b);
    RawBalancedConcat((a + w1) + op, w2 + b);
  }

  lemma {:induction false} NotWrapped(a: string, b: string)
    requires a != "" && b != "" && RawBalanced(a)
    ensures !Wrapped(a + b)
  {
    RawConcat(a, b, |a|);
  }

  lemma {:induction false} NotPeels(x: string)
    ensures !Wrapped("not" + x)
  {
    assert ("not" + x)[0] == 'n';
  }

  /** Without unbalanced parentheses in its literals a spelling is clean. */
  lemma {:induction false} TameClean(t: Src)
    requires Wf(t) && Tame(t)
    ensures Clean(t)
    decreases t
  {
    match t
    case Atom(_) =>
    case Tail(t1, head, t2, rest) =>
      TameBalanced(head);
      RawPadded(t1, Spell(head), t2);
      RawGroup(t1 + Spell(head) + t2);
      NotWrapped("(" + (t1 + Spell(head) + t2) + ")", rest);
    case Group(g1, inner, g2) =>
      TameClean(inner);
      TameBalanced(inner);
      RawPadded(g1, Spell(inner), g2);
      PeeledExactly(g1 + Spell(inner) + g2);
    case Not(gap, e) =>
      NotPeels(gap + Spell(e));
      TameClean(e);
      if e.Tail? {
        TameClean(e.head);
        TameBalanced(e.head);
      }
    case And(l, w1, w2, r) =>
      TameClean(l);
      TameClean(r);
      TameBalanced(l);
      SpellShape(l);
      JoinPeels(Spell(l), w1, "and", w2 + Spell(r));
    case Or(l, w1, w2, r) =>
      TameClean(l);
      TameClean(r);
      TameBalanced(l);
      SpellShape(l);
      JoinPeels(Spell(l), w1, "or", w2 + Spell(r));
  }

  lemma {:induction false} JoinPeels(a: string, w1: string, op: string, b: string)
    requires a != "" && RawBalanced(a) && op != ""
    ensures !Wrapped((a + w1) + op + b)
  {
    assert (a + w1) + op + b == a + (w1 + op + b);
    NotWrapped(a, w1 + op + b);
  }

  // ------------------------------------------- from a spelling to what is printed

  /** p is s with some balanced pairs and blanks gone, or added: the counts agree as
      far as the peeling test can tell. */
  ghost predicate Alike(p: string, s: string) {
    && Net(p) == Net(s)
    && (forall d: int :: Stays(p, d) <==> Stays(s, d))
    && (Opened(p) ==> Opened(s))
    && (forall d: int :: d > 0 && Closed(p, d) ==> Closed(s, d))
  }

  lemma {:induction false} BalancedAlike(p: string, s: string)
    requires RawBalanced(p) && RawBalanced(s)
    ensures Alike(p, s)
  {
    BalancedStays(p);
    BalancedStays(s);
  }

  lemma {:induction false} BalancedStays(x: string)
    requires RawBalanced(x)
    ensures forall d: int :: Stays(x, d) <==> d > 0
    ensures !Opened(x) && forall d: int :: d > 0 ==> !Closed(x, d)
  {
    forall d: int
      ensures Stays(x, d) <==> d > 0
    {
      assert Raw(x, 0) == 0;
      if d > 0 {
        forall i {:trigger Raw(x, i)} | 0 <= i <= |x|
          ensures d + Raw(x, i) > 0
        {
          assert 1 + Raw(x, i) > 0;
        }
      }
    }
  }

  lemma {:induction false} AlikeBalanced(p: string, s: string)
    requires Alike(p, s)
    ensures RawBalanced(p) <==> RawBalanced(s)
  {
  }

  lemma {:induction false} ConcatAlike(p: string, s: string, q: string, t: string)
    requires Alike(p, s) && Alike(q, t) && p != "" && s != "" && q != "" && t != ""
    ensures Alike(p + q, s + t)
    ensures Wrapped(p + q) ==> Wrapped(s + t)
  {
    NetConcat(p, q);
    NetConcat(s, t);
    OpenedConcat(p, q);
    OpenedConcat(s, t);
    WrappedConcat(p, q);
    WrappedConcat(s, t);
    assert Opened(p) ==> Net(p) > 0;
    forall d: int
      ensures Stays(p + q, d) <==> Stays(s + t, d)
    {
      StaysConcat(p, q, d);
      StaysConcat(s, t, d);
    }
    forall d: int | d > 0 && Closed(p + q, d)
      ensures Closed(s + t, d)
    {
      ClosedConcat(p, q, d);
      ClosedConcat(s, t, d);
      assert Stays(p, d) ==> d + Raw(p, |p|) > 0;
    }
  }

  lemma {:induction false} JoinAlike(p: string, s: string, m: string, w1: string, op: string, w2: string, q: string, t: string,
                                     printed: string, spelled: string)
    requires Alike(p, s) && Alike(q, t) && p != "" && s != "" && q != "" && t != ""
    requires NoParens(m) && m != "" && Blank(w1) && Blank(w2) && NoParens(op) && op != ""
    requires printed == p + m + q && spelled == (s + w1) + op + (w2 + t)
    ensures Alike(printed, spelled) && (Wrapped(printed) ==> Wrapped(spelled))
  {
    var n := w1 + op + w2;
    NoParensRaw(m, 1);
    NoParensRaw(n, 1);
    BalancedAlike(m, n);
    ConcatAlike(m, n, q, t);
    ConcatAlike(p, s, m + q, n + t);
    assert p + m + q == p + (m + q);
    assert (s + w1) + op + (w2 + t) == s + (n + t);
  }

  lemma {:induction false} PrintNonempty(f: Form)
    requires FormOk(f)
    ensures Print(f) != ""
  {
    MinSpells(f);
    SpellShape(MinimalSrc(f));
  }

  /** What the code prints is alike to what it read. */
  lemma {:induction false} PrintAlike(t: Src)
    requires Wf(t) && Inside(t) && (t.Group? ==> Wrapped(Spell(t)))
    ensures Alike(Print(Read(t)), Spell(t))
    ensures !t.Group? && Wrapped(Print(Read(t))) ==> Wrapped(Spell(t))
    ensures !t.Or? ==> Alike(PrintOperand(Read(t), true), Spell(t))
    decreases t, 1
  {
    FormKind(t);
    match t
    case Atom(_) =>
    case Tail(_, _, _, _) =>
    case Group(g1, inner, g2) =>
      GroupAlike(t);
    case Not(gap, e) =>
      NotAlike(t);
    case And(l, w1, w2, r) =>
      PrintAlike(l);
      PrintAlike(r);
      AndAlike(t);
    case Or(l, w1, w2, r) =>
      PrintAlike(l);
      PrintAlike(r);
      OrAlike(t);
  }

  lemma {:induction false} AndAlike(t: Src)
    requires Wf(t) && t.And?
    requires Alike(PrintOperand(Read(t.left), true), Spell(t.left)) && Alike(PrintOperand(Read(t.right), true), Spell(t.right))
    ensures Alike(Print(Read(t)), Spell(t)) && (Wrapped(Print(Read(t))) ==> Wrapped(Spell(t)))
  {
    RunPrinted(t);
    JoinAlike(PrintOperand(Read(t.left), true), Spell(t.left), " and ", t.w1, "and", t.w2,
              PrintOperand(Read(t.right), true), Spell(t.right), Print(Read(t)), Spell(t));
  }

  lemma {:induction false} OrAlike(t: Src)
    requires Wf(t) && t.Or?
    requires Alike(Print(Read(t.left)), Spell(t.left)) && Alike(Print(Read(t.right)), Spell(t.right))
    ensures Alike(Print(Read(t)), Spell(t)) && (Wrapped(Print(Read(t))) ==> Wrapped(Spell(t)))
  {
    RunPrinted(t);
    JoinAlike(Print(Read(t.left)), Spell(t.left), " or ", t.w1, "or", t.w2,
              Print(Read(t.right)), Spell(t.right), Print(Read(t)), Spell(t));
  }

  lemma {:induction false} RunPrinted(t: Src)
    requires Wf(t) && (t.And? || t.Or?)
    ensures t.And? ==> Print(Read(t)) == PrintOperand(Read(t.left), true) + " and " + PrintOperand(Read(t.right), true)
    ensures t.Or? ==> Print(Read(t)) == Print(Read(t.left)) + " or " + Print(Read(t.right))
    ensures Print(Read(t.left)) != "" && Print(Read(t.right)) != ""
    ensures Spell(t.left) != "" && Spell(t.right) != ""
  {
    FlattenOk(t.left);
    FlattenOk(t.right);
    PrintNonempty(Read(t.left));
    PrintNonempty(Read(t.right));
    JoinPrints(Read(t.left), Read(t.right));
    SpellShape(t.left);
    SpellShape(t.right);
  }

  lemma {:induction false} GroupAlike(t: Src)
    requires Wf(t) && t.Group? && Clean(t)
    ensures RawBalanced(Print(Read(t))) && RawBalanced(Spell(t))
    ensures Alike(Print(Read(t)), Spell(t)) && Alike(PrintOperand(Read(t), true), Spell(t))
    decreases t, 0
  {
    var x := t.g1 + Spell(t.inner) + t.g2;
    PeeledExactly(x);
    RawPadded(t.g1, Spell(t.inner), t.g2);
    PrintAlike(t.inner);
    AlikeBalanced(Print(Read(t)), Spell(t.inner));
    RawGroup(x);
    RawGroup(Print(Read(t)));
    BalancedAlike(Print(Read(t)), Spell(t));
    BalancedAlike("(" + Print(Read(t)) + ")", Spell(t));
  }

  /** The operand of a negation as it is printed. */
  function NegOperand(a: Form): string {
    if a.Conj? || a.Disj? then "(" + Print(a) + ")" else Print(a)
  }

  lemma {:induction false} NegPrints(a: Form)
    ensures Print(Neg(a)) == "not " + NegOperand(a)
  {
    NotSpaced(Print(a));
  }

  lemma {:induction false} NotAlike(t: Src)
    requires Wf(t) && t.Not? && Inside(t)
    ensures Alike(Print(Read(t)), Spell(t)) && !Wrapped(Print(Read(t)))
    decreases t, 0
  {
    var e, a := t.operand, Read(t).arg;
    FormKind(e);
    if t.gap == "" && e.Tail? {
      LostAlike(e);
    } else if e.Group? {
      GroupAlike(e);
      RawGroup(Print(a));
      BalancedAlike(NegOperand(a), Spell(e));
    } else {
      PrintAlike(e);
    }
    FlattenOk(t);
    PrintNonempty(a);
    SpellShape(e);
    NegAlike(t.gap, a, Spell(e));
  }

  lemma {:induction false} NegAlike(gap: string, a: Form, s: string)
    requires Alike(NegOperand(a), s) && Print(a) != "" && s != "" && Blank(gap)
    ensures Alike(Print(Neg(a)), "not" + (gap + s)) && !Wrapped(Print(Neg(a)))
  {
    NegPrints(a);
    NoParensRaw("not ", 1);
    NoParensRaw("not" + gap, 1);
    assert Print(Neg(a))[0] == 'n';
    assert "not" + (gap + s) == ("not" + gap) + s;
    BalancedAlike("not ", "not" + gap);
    ConcatAlike("not ", "not" + gap, NegOperand(a), s);
  }

  lemma {:induction false} LostAlike(e: Src)
    requires Wf(e) && e.Tail? && RawBalanced(Spell(e.head)) && RawBalanced(e.rest) && Clean(e.head)
    ensures Alike(NegOperand(Read(e.head)), Spell(e))
    decreases e, 0
  {
    var x := e.t1 + Spell(e.head) + e.t2;
    var p := Print(Read(e.head));
    RawPadded(e.t1, Spell(e.head), e.t2);
    RawGroup(x);
    RawBalancedConcat("(" + x + ")", e.rest);
    PrintAlike(e.head);
    AlikeBalanced(p, Spell(e.head));
    RawGroup(p);
    BalancedAlike(NegOperand(Read(e.head)), Spell(e));
  }

  // ----------------------------------------------------- peeling what is printed

  /** Clean, for the printing of a flat form. */
  ghost predicate FormClean(f: Form)
    decreases f, 1
  {
    && !Wrapped(Print(f))
    && match f
       case Lit(_) => true
       case Neg(a) => FormClean(a) && (a.Conj? || a.Disj? ==> RawBalanced(Print(a)))
       case Conj(fs) => AllClean(fs, true)
       case Disj(fs) => AllClean(fs, false)
  }

  ghost predicate AllClean(fs: seq<Form>, conj: bool)
    decreases fs, 0
  {
    fs == [] ||
    (FormClean(fs[0]) && (conj && fs[0].Disj? ==> RawBalanced(Print(fs[0]))) && AllClean(fs[1..], conj))
  }

  lemma {:induction false} AllCleanConcat(fs: seq<Form>, gs: seq<Form>, conj: bool)
    requires AllClean(fs, conj) && AllClean(gs, conj)
    ensures AllClean(fs + gs, conj)
  {
    if fs == [] {
      assert fs + gs == gs;
    } else {
      AllCleanConcat(fs[1..], gs, conj);
      assert (fs + gs)[1..] == fs[1..] + gs;
    }
  }

  lemma {:induction false} OneClean(f: Form, conj: bool)
    requires FormClean(f) && (conj && f.Disj? ==> RawBalanced(Print(f)))
    ensures AllClean([f], conj)
  {
    assert [f][1..] == [];
  }

  lemma {:induction false} ReadClean(t: Src)
    requires Wf(t) && Clean(t)
    ensures FormClean(Read(t))
    decreases t, 1
  {
    if !t.Group? {
      PrintAlike(t);
    }
    match t
    case Atom(_) =>
    case Tail(_, _, _, _) =>
    case Group(_, inner, _) =>
      ReadClean(inner);
    case Not(gap, e) =>
      ReadCleanNot(t);
    case And(l, _, _, r) =>
      AndClean(l);
      AndClean(r);
      AllCleanConcat(Factors(Read(l)), Factors(Read(r)), true);
    case Or(l, _, _, r) =>
      OrClean(l);
      OrClean(r);
      AllCleanConcat(Terms(Read(l)), Terms(Read(r)), false);
  }

  lemma {:induction false} ReadCleanNot(t: Src)
    requires Wf(t) && t.Not? && Inside(t)
    ensures FormClean(Read(t).arg)
    ensures Read(t).arg.Conj? || Read(t).arg.Disj? ==> RawBalanced(Print(Read(t).arg))
    decreases t, 0
  {
    var e := t.operand;
    if t.gap == "" && e.Tail? {
      ReadClean(e.head);
      PrintAlike(e.head);
      AlikeBalanced(Print(Read(e.head)), Spell(e.head));
    } else {
      ReadClean(e);
      FormKind(e);
      if e.Group? {
        GroupAlike(e);
      }
    }
  }

  lemma {:induction false} AndClean(t: Src)
    requires Wf(t) && !t.Or? && (t.And? || Peels(t)) && Inside(t)
    ensures AllClean(Factors(Read(t)), true)
    decreases t, 2
  {
    if t.And? {
      AndClean(t.left);
      AndClean(t.right);
      AllCleanConcat(Factors(Read(t.left)), Factors(Read(t.right)), true);
    } else {
      ReadClean(t);
      FormKind(t);
      if t.Group? {
        GroupAlike(t);
      }
      if !Read(t).Conj? {
        OneClean(Read(t), true);
      }
    }
  }

  lemma {:induction false} OrClean(t: Src)
    requires Wf(t) && (t.Or? || Peels(t)) && Inside(t)
    ensures AllClean(Terms(Read(t)), false)
    decreases t, 2
  {
    if t.Or? {
      OrClean(t.left);
      OrClean(t.right);
      AllCleanConcat(Terms(Read(t.left)), Terms(Read(t.right)), false);
    } else {
      ReadClean(t);
      if !Read(t).Disj? {
        OneClean(Read(t), false);
      }
    }
  }

  /** The minimal spelling of a clean form is clean. */
  lemma {:induction false} MinClean(f: Form)
    requires FormOk(f) && FormClean(f)
    ensures Clean(MinimalSrc(f))
    decreases f, 1
  {
    MinSpells(f);
    match f
    case Lit(_) =>
    case Neg(a) =>
      MinClean(a);
      if a.Conj? || a.Disj? {
        BareGroupClean(a);
      }
    case Conj(fs) => ChainClean(fs, true);
    case Disj(fs) => ChainClean(fs, false);
  }

  lemma {:induction false} BareGroupClean(f: Form)
    requires FormOk(f) && Clean(MinimalSrc(f)) && RawBalanced(Print(f))
    ensures Clean(Group("", MinimalSrc(f), ""))
  {
    MinSpells(f);
    GroupBare(Print(f));
    PeeledExactly(Print(f));
  }

  lemma {:induction false} ChainClean(fs: seq<Form>, conj: bool)
    requires fs != [] && AllOk(fs) && AllClean(fs, conj)
    requires forall k :: 0 <= k < |fs| ==> if conj then !fs[k].Conj? else !fs[k].Disj?
    ensures var t := Chain(fs, conj); Inside(t) && (if conj then t.And? || Peels(t) else t.Or? || Peels(t))
    decreases fs, 0
  {
    MinSpells(fs[0]);
    MinClean(fs[0]);
    if conj && fs[0].Disj? {
      BareGroupClean(fs[0]);
    }
    if |fs| > 1 {
      ChainClean(fs[1..], conj);
    }
  }
}
