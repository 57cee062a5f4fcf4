/** What _canonicalize_bool computes. */
module BoolCorrect {
  // On every spelling of a predicate whose groups the code recognises, whatever its
  // grouping and white space, the output is the minimal printing of the syntax that
  // the code reads.

  import opened Lex
  import opened Splitter
  import opened BoolCanon
  import opened BoolGrammar
  import opened BoolForms
  import opened BoolPeel

  // ------------------------------------------------------------------- peeling

  /** Stripping and peeling a spelling leaves its core. */
  lemma {:induction false} UnwrapSpell(t: Src, m1: string, m2: string)
    requires Wf(t) && Clean(t) && Blank(m1) && Blank(m2)
    ensures Unwrap(Strip(m1 + Spell(t) + m2)) == Spell(Core(t))
  {
    SpellShape(t);
    StripOf(m1, Spell(t), m2);
    if t.Group? {
      var x := t.g1 + Spell(t.inner) + t.g2;
      assert Spell(t)[1..|Spell(t)| - 1] == x;
      UnwrapSpell(t.inner, t.g1, t.g2);
    }
  }

  lemma {:induction false} PrecSpell(t: Src, m1: string, m2: string)
    requires Wf(t) && Clean(t) && Blank(m1) && Blank(m2)
    ensures TopPrec(m1 + Spell(t) + m2) == PrecOf(t)
  {
    CoreWf(t);
    UnwrapSpell(t, m1, m2);
    var c := Core(t);
    CoreSplit(c);
    if !c.Or? && !c.And? {
      NotPrefix(c);
    }
  }

  // ------------------------------------------------------- closing parentheses

  /** The first return to depth zero is the match. */
  lemma {:induction false} CloseAt(s: string, i: nat, d: int, j: nat)
    requires i <= j < |s| && s[j] == ')'
    requires d + Raw(s, j + 1) - Raw(s, i) == 0
    requires forall k :: i < k <= j ==> d + Raw(s, k) - Raw(s, i) > 0
    ensures CloseFrom(s, i, d) == j
    decreases j - i
  {
    assert Raw(s, i + 1) == Raw(s, i) + if s[i] == '(' then 1 else if s[i] == ')' then -1 else 0;
    if i < j {
      assert d + Raw(s, i + 1) - Raw(s, i) > 0;
      CloseAt(s, i + 1, d + Raw(s, i + 1) - Raw(s, i), j);
    }
  }

  lemma {:induction false} CloseOfGroup(p: string, x: string, q: string)
    requires NoParens(p) && RawBalanced(x)
    ensures CloseFrom(p + ("(" + x + ")") + q, |p|, 0) == |p| + 1 + |x|
  {
    var g := "(" + x + ")";
    var s := p + g + q;
    var j := |p| + 1 + |x|;
    assert s == p + (g + q);
    NoParensRaw(p, 1);
    forall k | |p| < k <= j
      ensures Raw(s, k) > 0
    {
      RawConcat(p, g + q, k);
      RawConcat(g, q, k - |p|);
      RawInside(x, k - |p| - 1);
      assert 1 + Raw(x, k - |p| - 1) > 0;
    }
    RawConcat(p, g + q, |p|);
    RawConcat(p, g + q, j + 1);
    RawConcat(g, q, |g|);
    RawInside(x, 0);
    CloseAt(s, |p|, 0, j);
  }

  // ----------------------------------------------------------- main theorem

  lemma {:induction false} PrecPrint(f: Form)
    requires FormOk(f) && FormClean(f)
    ensures TopPrec(Print(f)) < NOT_PREC <==> f.Conj? || f.Disj?
  {
    MinSpells(f);
    MinClean(f);
    assert "" + Spell(MinimalSrc(f)) + "" == Print(f);
    PrecSpell(MinimalSrc(f), "", "");
  }

  lemma {:induction false} CanonAllConcat(ps: seq<string>, qs: seq<string>, parent: int, n: nat)
    requires forall p :: p in ps + qs ==> |p| < n
    ensures (forall p :: p in ps ==> |p| < n) && (forall p :: p in qs ==> |p| < n)
    ensures CanonAll(ps + qs, parent, n) == CanonAll(ps, parent, n) + CanonAll(qs, parent, n)
  {
    if ps == [] {
      assert ps + qs == qs;
    } else {
      assert (ps + qs)[0] == ps[0] && ps[0] in ps + qs;
      assert (ps + qs)[1..] == ps[1..] + qs;
      CanonAllConcat(ps[1..], qs, parent, n);
    }
  }

  lemma {:induction false} CanonAllOne(p: string, parent: int, n: nat)
    requires |p| < n
    ensures CanonAll([p], parent, n) == [CanonOperand(p, parent)]
  {
    assert [p][1..] == [];
  }

  /** The canonicaliser prints the flattened syntax of what it reads, whatever
      the grouping and white space of the spelling. */
  lemma {:induction false} Canonical(t: Src, m1: string, m2: string)
    requires Wf(t) && Clean(t) && Blank(m1) && Blank(m2)
    ensures CanonBool(m1 + Spell(t) + m2) == Print(Read(t))
    decreases t, 3
  {
    UnwrapSpell(t, m1, m2);
    CoreWf(t);
    CoreForm(t);
    CoreClean(t);
    CanonicalCore(Core(t));
  }

  lemma {:induction false} CoreForm(t: Src)
    ensures Read(Core(t)) == Read(t) && (Core(t) == t || Core(t) < t)
  {
    if t.Group? {
      CoreForm(t.inner);
    }
  }

  lemma {:induction false} CoreClean(t: Src)
    requires Clean(t)
    ensures Clean(Core(t))
  {
    if t.Group? {
      CoreClean(t.inner);
    }
  }

  lemma {:induction false} CanonicalCore(c: Src)
    requires Wf(c) && Clean(c) && !c.Group?
    ensures CanonBare(Spell(c)) == Print(Read(c))
    decreases c, 2
  {
    var n := |Spell(c)|;
    CoreSplit(c);
    PartsLength(Spell(c), "or");
    PartsLength(Spell(c), "and");
    if c.Or? {
      SpellAllConcat(OrOperands(c.left), OrOperands(c.right));
      OrJoin(c.left, n);
      OrJoin(c.right, n);
      OrJoined(c, n);
      BareOr(c);
    } else if c.And? {
      SpellAllConcat(AndOperands(c.left), AndOperands(c.right));
      AndJoin(c.left, n);
      AndJoin(c.right, n);
      AndJoined(c, n);
      BareAnd(c);
    } else if c.Not? {
      CanonicalNot(c);
      NegatePrints(c);
    } else {
      BareAtom(c);
    }
  }

  lemma {:induction false} BareOr(c: Src)
    requires Wf(c) && c.Or? && OrJoins(c, |Spell(c)|)
    ensures CanonBare(Spell(c)) == Print(Read(c))
  {
    CoreSplit(c);
  }

  lemma {:induction false} BareAnd(c: Src)
    requires Wf(c) && c.And? && AndJoins(c, |Spell(c)|)
    ensures CanonBare(Spell(c)) == Print(Read(c))
  {
    CoreSplit(c);
  }

  lemma {:induction false} BareAtom(c: Src)
    requires Wf(c) && (c.Atom? || c.Tail?)
    ensures CanonBare(Spell(c)) == Print(Read(c))
  {
    CoreSplit(c);
    NotPrefix(c);
  }

  lemma {:induction false} NegatePrints(c: Src)
    requires Wf(c) && Clean(c) && c.Not?
    ensures Read(c).Neg? && Negate(Print(Read(c).arg)) == Print(Read(c))
  {
    FlattenOk(c);
    ReadClean(c);
    PrecPrint(Read(c).arg);
  }

  lemma {:induction false} BareNot(s: string)
    requires |Split(s, "or")| <= 1 && |Split(s, "and")| <= 1
    ensures StartsWith(s, "not ") ==> CanonBare(s) == Negate(CanonBool(s[4..]))
    ensures StartsWith(s, "not(") && 4 <= CloseFrom(s, 3, 0) ==>
              CanonBare(s) == Negate(CanonBool(s[4..CloseFrom(s, 3, 0)]))
  {
  }

  /** The canonical OR operands of x, joined. */
  ghost predicate OrJoins(x: Src, n: nat) {
    var ps := SpellAll(OrOperands(x));
    && (forall p :: p in ps ==> |p| < n)
    && Terms(Read(x)) != []
    && Rejoin(CanonAll(ps, 1, n), " or ") == Rejoin(PrintAll(Terms(Read(x)), false), " or ")
  }

  ghost predicate AndJoins(x: Src, n: nat) {
    var ps := SpellAll(AndOperands(x));
    && (forall p :: p in ps ==> |p| < n)
    && Factors(Read(x)) != []
    && Rejoin(CanonAll(ps, 2, n), " and ") == Rejoin(PrintAll(Factors(Read(x)), true), " and ")
  }

  lemma {:induction false} OrJoined(c: Src, n: nat)
    requires c.Or? && OrJoins(c.left, n) && OrJoins(c.right, n)
    ensures OrJoins(c, n)
  {
    var ls, rs := SpellAll(OrOperands(c.left)), SpellAll(OrOperands(c.right));
    SpellAllConcat(OrOperands(c.left), OrOperands(c.right));
    CanonAllConcat(ls, rs, 1, n);
    RejoinConcat(CanonAll(ls, 1, n), CanonAll(rs, 1, n), " or ");
    var fs, gs := Terms(Read(c.left)), Terms(Read(c.right));
    PrintAllConcat(fs, gs, false);
    RejoinConcat(PrintAll(fs, false), PrintAll(gs, false), " or ");
  }

  lemma {:induction false} AndJoined(c: Src, n: nat)
    requires c.And? && AndJoins(c.left, n) && AndJoins(c.right, n)
    ensures AndJoins(c, n)
  {
    var ls, rs := SpellAll(AndOperands(c.left)), SpellAll(AndOperands(c.right));
    SpellAllConcat(AndOperands(c.left), AndOperands(c.right));
    CanonAllConcat(ls, rs, 2, n);
    RejoinConcat(CanonAll(ls, 2, n), CanonAll(rs, 2, n), " and ");
    var fs, gs := Factors(Read(c.left)), Factors(Read(c.right));
    PrintAllConcat(fs, gs, true);
    RejoinConcat(PrintAll(fs, true), PrintAll(gs, true), " and ");
  }

  lemma {:induction false} CanonicalNot(t: Src)
    requires Wf(t) && Inside(t) && t.Not?
    ensures Read(t).Neg?
    ensures CanonBare(Spell(t)) == Negate(Print(Read(t).arg))
    decreases t, 1
  {
    CoreSplit(t);
    NotPrefix(t);
    BareNot(Spell(t));
    if t.gap != "" {
      AfterNot(t.gap, Spell(t.operand));
      Canonical(t.operand, t.gap[1..], "");
    } else if t.operand.Group? {
      TightGroup(t.operand);
      Canonical(t.operand.inner, t.operand.g1, t.operand.g2);
    } else {
      TightTail(t.operand);
      Canonical(t.operand.head, t.operand.t1, t.operand.t2);
    }
  }

  lemma {:induction false} TightGroup(e: Src)
    requires e.Group? && Peels(e)
    ensures var s, x := "not" + ("" + Spell(e)), e.g1 + Spell(e.inner) + e.g2;
            CloseFrom(s, 3, 0) == 4 + |x| && s[4..4 + |x|] == x
  {
    var x := e.g1 + Spell(e.inner) + e.g2;
    PeeledExactly(x);
    InsideNot(x, "");
  }

  lemma {:induction false} TightTail(e: Src)
    requires e.Tail? && Blank(e.t1) && Blank(e.t2) && RawBalanced(Spell(e.head))
    ensures var s, x := "not" + ("" + Spell(e)), e.t1 + Spell(e.head) + e.t2;
            CloseFrom(s, 3, 0) == 4 + |x| && s[4..4 + |x|] == x
  {
    var x := e.t1 + Spell(e.head) + e.t2;
    RawPadded(e.t1, Spell(e.head), e.t2);
    InsideNot(x, e.rest);
  }

  lemma {:induction false} AfterNot(gap: string, x: string)
    requires gap != ""
    ensures ("not" + (gap + x))[4..] == gap[1..] + x + ""
  {
  }

  lemma {:induction false} InsideNot(x: string, rest: string)
    requires RawBalanced(x)
    ensures var s := "not" + ("" + ("(" + x + ")" + rest));
            CloseFrom(s, 3, 0) == 4 + |x| && s[4..4 + |x|] == x
    ensures var s := "not" + ("" + ("(" + x + ")"));
            CloseFrom(s, 3, 0) == 4 + |x| && s[4..4 + |x|] == x
  {
    CloseOfGroup("not", x, rest);
    CloseOfGroup("not", x, "");
    assert "not" + ("" + ("(" + x + ")" + rest)) == "not" + ("(" + x + ")") + rest;
    assert "not" + ("" + ("(" + x + ")")) == "not" + ("(" + x + ")") + "";
  }

  /** An operand under parent precedence 1 or 2. */
  lemma {:induction false} CanonicalOperand(x: Src, parent: int)
    requires Wf(x) && Clean(x) && (parent == OR_PREC || parent == AND_PREC)
    requires !x.Or?
    ensures CanonOperand(Spell(x), parent) == PrintOperand(Read(x), parent == AND_PREC)
    decreases x, 4
  {
    SpellShape(x);
    StripTrimmed(Spell(x));
    FormKind(x);
    if x.Group? {
      var inner := x.g1 + Spell(x.inner) + x.g2;
      assert Spell(x)[1..|Spell(x)| - 1] == inner;
      SpellShape(x.inner);
      StripOf(x.g1, Spell(x.inner), x.g2);
      assert "" + Spell(x.inner) + "" == Spell(x.inner);
      Canonical(x.inner, "", "");
      PrecSpell(x.inner, "", "");
      FormKind(x.inner);
    } else {
      assert "" + Spell(x) + "" == Spell(x);
      Canonical(x, "", "");
    }
  }

  lemma {:induction false} OrJoin(x: Src, n: nat)
    requires Wf(x) && (x.Or? || Peels(x)) && Inside(x) && forall p :: p in SpellAll(OrOperands(x)) ==> |p| < n
    ensures OrJoins(x, n)
    decreases x, 5
  {
    if x.Or? {
      SpellAllConcat(OrOperands(x.left), OrOperands(x.right));
      CanonAllConcat(SpellAll(OrOperands(x.left)), SpellAll(OrOperands(x.right)), 1, n);
      OrJoin(x.left, n);
      OrJoin(x.right, n);
      OrJoined(x, n);
    } else {
      CanonicalOperand(x, 1);
      SpellOne(x);
      assert Spell(x) in [Spell(x)];
      CanonAllOne(Spell(x), 1, n);
      FlattenOk(x);
      if !Read(x).Disj? {
        PrintOne(Read(x), false);
      }
    }
  }

  lemma {:induction false} AndJoin(x: Src, n: nat)
    requires Wf(x) && !x.Or? && (x.And? || Peels(x)) && Inside(x)
    requires forall p :: p in SpellAll(AndOperands(x)) ==> |p| < n
    ensures AndJoins(x, n)
    decreases x, 5
  {
    if x.And? {
      SpellAllConcat(AndOperands(x.left), AndOperands(x.right));
      CanonAllConcat(SpellAll(AndOperands(x.left)), SpellAll(AndOperands(x.right)), 2, n);
      AndJoin(x.left, n);
      AndJoin(x.right, n);
      AndJoined(x, n);
    } else {
      CanonicalOperand(x, 2);
      SpellOne(x);
      assert Spell(x) in [Spell(x)];
      CanonAllOne(Spell(x), 2, n);
      FlattenOk(x);
      if !Read(x).Conj? {
        PrintOne(Read(x), true);
      }
    }
  }
}
