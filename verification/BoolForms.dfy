/**
 Flat forms: what a spelling says without its redundant grouping, what the code reads
 of it, and the spelling with the fewest groups. Everything here looks at parentheses
 outside literals only.
 */
module BoolForms {
  import opened Lex
  import opened Splitter
  import opened BoolCanon
  import opened BoolGrammar

  // ------------------------------------------------------------- outer groups

  /** The spelling under its outer groups. */
  function Core(t: Src): (r: Src)
    ensures !r.Group?
  {
    if t.Group? then Core(t.inner) else t
  }

  function PrecOf(t: Src): int {
    match t
    case Or(_, _, _, _) => OR_PREC
    case And(_, _, _, _) => AND_PREC
    case Not(_, _) => NOT_PREC
    case Group(_, inner, _) => PrecOf(inner)
    case _ => ATOM_PREC
  }

  lemma {:induction false} CoreWf(t: Src)
    requires Wf(t)
    ensures Wf(Core(t)) && PrecOf(Core(t)) == PrecOf(t)
  {
    if t.Group? {
      CoreWf(t.inner);
    }
  }

  lemma {:induction false} NotEnclosed(a: string, b: string)
    requires a != "" && b != "" && Balanced(a)
    ensures !Enclosed(a + b)
  {
    FromConcat(START, a, b, |a|);
    assert At(a + b, |a|) == START;
  }

  lemma {:induction false} GroupEnclosed(x: string)
    requires Balanced(x)
    ensures Enclosed("(" + x + ")")
  {
    var s := "(" + x + ")";
    forall i {:trigger At(s, i)} | 0 < i < |s|
      ensures At(s, i).depth > 0
    {
      InsideParens(x, i - 1);
      assert At(x, i - 1).depth >= 0;
    }
    InsideParens(x, 0);
  }

  /** Groups are the spellings that one pair encloses. */
  lemma {:induction false} EnclosedSpell(t: Src)
    requires Wf(t)
    ensures Enclosed(Spell(t)) <==> t.Group?
  {
    match t
    case Atom(text) =>
    case Tail(t1, head, t2, rest) =>
      SpellShape(head);
      GroupSolid(t1, Spell(head), t2);
      NotEnclosed("(" + (t1 + Spell(head) + t2) + ")", rest);
    case Group(g1, inner, g2) =>
      SpellShape(inner);
      Padded(g1, Spell(inner), g2);
      GroupEnclosed(g1 + Spell(inner) + g2);
    case Not(gap, e) =>
      assert Spell(t)[0] == "not"[0] == 'n';
    case And(l, w1, w2, r) =>
      SpellShape(l);
      JoinNotEnclosed(Spell(l), w1, "and", w2 + Spell(r));
    case Or(l, w1, w2, r) =>
      SpellShape(l);
      JoinNotEnclosed(Spell(l), w1, "or", w2 + Spell(r));
  }

  lemma {:induction false} JoinNotEnclosed(a: string, w1: string, op: string, b: string)
    requires Solid(a) && op != ""
    ensures !Enclosed((a + w1) + op + b)
  {
    assert (a + w1) + op + b == a + (w1 + op + b);
    NotEnclosed(a, w1 + op + b);
  }

  lemma {:induction false} NotPrefix(t: Src)
    requires Wf(t) && !t.Or? && !t.And? && !t.Group?
    ensures t.Not? ==> if t.gap == "" then StartsWith(Spell(t), "not(") && !StartsWith(Spell(t), "not ")
                       else StartsWith(Spell(t), "not ")
    ensures !t.Not? ==> !StartsWith(Spell(t), "not(") && !StartsWith(Spell(t), "not ")
  {
    var s := Spell(t);
    if t.Not? {
      assert s[3] == (t.gap + Spell(t.operand))[0];
    } else if t.Tail? {
      assert s[0] == '(';
      assert "not("[0] == 'n' && "not "[0] == 'n';
    }
  }

  /** Splitting a core spelling: several parts exactly at its own operator. */
  lemma {:induction false} CoreSplit(c: Src)
    requires Wf(c)
    ensures Split(Spell(c), "or") == SpellAll(OrOperands(c))
    ensures |Split(Spell(c), "or")| > 1 <==> c.Or?
    ensures !c.Or? ==> Split(Spell(c), "and") == SpellAll(AndOperands(c))
    ensures !c.Or? ==> (|Split(Spell(c), "and")| > 1 <==> c.And?)
  {
    assert "" + Spell(c) + "" == Spell(c);
    OrSplit(c, "", "");
    if !c.Or? {
      AndSplit(c, "", "");
    }
  }

  // ------------------------------------------- what the code reads of a text

  /** The syntax the code reads. It differs from Flatten in one place: after
      "not(" only the text up to the matching ")" is read, so a Tail directly
      after a gapless "not" loses what follows its group. */
  function Read(t: Src): Form {
    match t
    case Atom(text) => Lit(text)
    case Tail(_, _, _, _) => Lit(Spell(t))
    case Group(_, inner, _) => Read(inner)
    case Not(gap, e) => if gap == "" && e.Tail? then Neg(Read(e.head)) else Neg(Read(e))
    case And(l, _, _, r) => Conj(Factors(Read(l)) + Factors(Read(r)))
    case Or(l, _, _, r) => Disj(Terms(Read(l)) + Terms(Read(r)))
  }

  lemma {:induction false} AllOkConcat(fs: seq<Form>, gs: seq<Form>)
    requires AllOk(fs) && AllOk(gs)
    ensures AllOk(fs + gs)
  {
    if fs == [] {
      assert fs + gs == gs;
    } else {
      AllOkConcat(fs[1..], gs);
      assert (fs + gs)[1..] == fs[1..] + gs;
    }
  }

  lemma {:induction false} PartsOk(f: Form)
    requires FormOk(f)
    ensures AllOk(Factors(f)) && AllOk(Terms(f))
    ensures forall k :: 0 <= k < |Factors(f)| ==> !Factors(f)[k].Conj?
    ensures forall k :: 0 <= k < |Terms(f)| ==> !Terms(f)[k].Disj?
  {
    assert [f][1..] == [];
  }

  /** Flattened spellings are flat forms over opaque predicates. */
  lemma {:induction false} FlattenOk(t: Src)
    requires Wf(t)
    ensures FormOk(Flatten(t)) && FormOk(Read(t))
  {
    match t
    case Atom(_) =>
    case Tail(t1, head, t2, rest) =>
      TailIsAtom(t);
    case Group(_, inner, _) =>
      FlattenOk(inner);
    case Not(gap, e) =>
      FlattenOk(e);
      if gap == "" && e.Tail? {
        FlattenOk(e.head);
      }
    case And(l, _, _, r) =>
      FlattenOk(l);
      FlattenOk(r);
      ConjOk(Flatten(l), Flatten(r));
      ConjOk(Read(l), Read(r));
    case Or(l, _, _, r) =>
      FlattenOk(l);
      FlattenOk(r);
      DisjOk(Flatten(l), Flatten(r));
      DisjOk(Read(l), Read(r));
  }

  lemma {:induction false} ConjOk(f: Form, g: Form)
    requires FormOk(f) && FormOk(g)
    ensures FormOk(Conj(Factors(f) + Factors(g)))
  {
    PartsOk(f);
    PartsOk(g);
    AllOkConcat(Factors(f), Factors(g));
  }

  lemma {:induction false} DisjOk(f: Form, g: Form)
    requires FormOk(f) && FormOk(g)
    ensures FormOk(Disj(Terms(f) + Terms(g)))
  {
    PartsOk(f);
    PartsOk(g);
    AllOkConcat(Terms(f), Terms(g));
  }

  lemma {:induction false} TailIsAtom(t: Src)
    requires Wf(t) && t.Tail?
    ensures AtomText(Spell(t))
  {
    SpellShape(t);
    EnclosedSpell(t);
    SpellNoOr(t);
    SpellNoAnd(t);
    NotPrefix(t);
  }

  lemma {:induction false} FormKind(t: Src)
    ensures Read(t).Disj? <==> Core(t).Or?
    ensures Read(t).Conj? <==> Core(t).And?
    ensures PrecOf(t) == OR_PREC <==> Core(t).Or?
    ensures PrecOf(t) == AND_PREC <==> Core(t).And?
    ensures OR_PREC <= PrecOf(t) <= ATOM_PREC
  {
    if t.Group? {
      FormKind(t.inner);
    }
  }

  // ------------------------------------------------- the canonical spelling

  /** The spelling with the fewest groups. */
  function MinimalSrc(f: Form): Src
    decreases f, 1
  {
    match f
    case Lit(text) => Atom(text)
    case Neg(a) => if a.Conj? || a.Disj? then Not(" ", Group("", MinimalSrc(a), "")) else Not(" ", MinimalSrc(a))
    case Conj(fs) => Chain(fs, true)
    case Disj(fs) => Chain(fs, false)
  }

  function MinOperand(f: Form, conj: bool): Src
    decreases f, 2
  {
    if conj && f.Disj? then Group("", MinimalSrc(f), "") else MinimalSrc(f)
  }

  function Chain(fs: seq<Form>, conj: bool): Src
    decreases fs, 0
  {
    if fs == [] then Atom("")
    else if |fs| == 1 then MinOperand(fs[0], conj)
    else if conj then And(MinOperand(fs[0], conj), " ", " ", Chain(fs[1..], conj))
    else Or(MinOperand(fs[0], conj), " ", " ", Chain(fs[1..], conj))
  }

  function Word(conj: bool): string {
    if conj then " and " else " or "
  }

  lemma {:induction false} MinSpells(f: Form)
    requires FormOk(f)
    ensures Wf(MinimalSrc(f)) && Spell(MinimalSrc(f)) == Print(f) && Flatten(MinimalSrc(f)) == f
    ensures !MinimalSrc(f).Group? && (MinimalSrc(f).Or? <==> f.Disj?) && (MinimalSrc(f).And? <==> f.Conj?)
    decreases f, 1
  {
    match f
    case Lit(text) =>
    case Neg(a) =>
      MinSpells(a);
      MinNeg(a);
    case Conj(fs) =>
      ChainSpells(fs, true);
    case Disj(fs) =>
      ChainSpells(fs, false);
  }

  lemma {:induction false} MinNeg(a: Form)
    requires Wf(MinimalSrc(a)) && Spell(MinimalSrc(a)) == Print(a) && Flatten(MinimalSrc(a)) == a
    requires (MinimalSrc(a).Or? <==> a.Disj?) && (MinimalSrc(a).And? <==> a.Conj?)
    ensures var m := MinimalSrc(Neg(a)); m.Not? && Wf(m) && Spell(m) == Print(Neg(a)) && Flatten(m) == Neg(a)
  {
    NotSpaced(Print(a));
    GroupBare(Print(a));
    assert Wf(Group("", MinimalSrc(a), ""));
    var g := Group("", MinimalSrc(a), "");
    assert Spell(g) == "(" + Print(a) + ")";
    NotSpaced(Spell(g));
  }

  lemma {:induction false} MinOperandSpells(f: Form, conj: bool)
    requires FormOk(f) && if conj then !f.Conj? else !f.Disj?
    ensures var m := MinOperand(f, conj);
            && Wf(m) && Spell(m) == PrintOperand(f, conj) && Flatten(m) == f
            && !m.Or? && (conj ==> !m.And?)
    decreases f, 2
  {
    MinSpells(f);
    GroupBare(Print(f));
  }

  lemma {:induction false} NotSpaced(x: string)
    ensures "not" + (" " + x) == "not " + x
    ensures "not " + ("(" + x + ")") == "not (" + x + ")"
  {
  }

  lemma {:induction false} GroupBare(x: string)
    ensures "(" + ("" + x + "") + ")" == "(" + x + ")"
  {
    assert "" + x + "" == x;
  }

  lemma {:induction false} Infix(a: string, b: string)
    ensures (a + " ") + "and" + (" " + b) == a + " and " + b
    ensures (a + " ") + "or" + (" " + b) == a + " or " + b
    ensures Apart(a + " ", "and") && Apart("and", " " + b)
    ensures Apart(a + " ", "or") && Apart("or", " " + b)
  {
  }

  lemma {:induction false} ChainSpells(fs: seq<Form>, conj: bool)
    requires fs != [] && AllOk(fs)
    requires forall k :: 0 <= k < |fs| ==> if conj then !fs[k].Conj? else !fs[k].Disj?
    ensures Wf(Chain(fs, conj)) && Spell(Chain(fs, conj)) == Rejoin(PrintAll(fs, conj), Word(conj))
    ensures (if conj then Factors(Flatten(Chain(fs, conj))) else Terms(Flatten(Chain(fs, conj)))) == fs
    ensures conj ==> !Chain(fs, conj).Or?
    ensures |fs| > 1 ==> Flatten(Chain(fs, conj)) == if conj then Conj(fs) else Disj(fs)
    ensures |fs| > 1 ==> if conj then Chain(fs, conj).And? else Chain(fs, conj).Or?
    decreases fs, 0
  {
    MinOperandSpells(fs[0], conj);
    if |fs| > 1 {
      var m, rest := MinOperand(fs[0], conj), fs[1..];
      ChainSpells(rest, conj);
      RejoinCons(PrintOperand(fs[0], conj), PrintAll(rest, conj), Word(conj));
      assert fs == [fs[0]] + rest;
      LinkSpells(m, Chain(rest, conj), conj);
    } else {
      assert fs == [fs[0]];
      PrintOne(fs[0], conj);
    }
  }

  /** One more operand before a chain. */
  lemma {:induction false} LinkSpells(m: Src, c: Src, conj: bool)
    requires Wf(m) && Wf(c) && !m.Or? && (conj ==> !c.Or?)
    ensures var t := if conj then And(m, " ", " ", c) else Or(m, " ", " ", c);
            Wf(t) && Spell(t) == Spell(m) + Word(conj) + Spell(c)
  {
    Infix(Spell(m), Spell(c));
  }

  // ----------------------------------------------------------- printed runs

  lemma {:induction false} RejoinConcat(ps: seq<string>, qs: seq<string>, sep: string)
    requires ps != [] && qs != []
    ensures Rejoin(ps + qs, sep) == Rejoin(ps, sep) + sep + Rejoin(qs, sep)
  {
    if |ps| == 1 {
      assert ps + qs == [ps[0]] + qs;
      RejoinCons(ps[0], qs, sep);
    } else {
      RejoinConcat(ps[1..], qs, sep);
      assert ps + qs == [ps[0]] + (ps[1..] + qs);
      RejoinCons(ps[0], ps[1..] + qs, sep);
    }
  }

  /** The operands of a run, printed and joined. */
  lemma {:induction false} RunPrints(f: Form)
    ensures Rejoin(PrintAll(Factors(f), true), " and ") == PrintOperand(f, true)
    ensures Rejoin(PrintAll(Terms(f), false), " or ") == Print(f)
  {
    PrintOne(f, true);
    PrintOne(f, false);
  }

  lemma {:induction false} JoinPrints(f: Form, g: Form)
    requires Factors(f) != [] && Factors(g) != [] && Terms(f) != [] && Terms(g) != []
    ensures Print(Conj(Factors(f) + Factors(g))) == PrintOperand(f, true) + " and " + PrintOperand(g, true)
    ensures Print(Disj(Terms(f) + Terms(g))) == Print(f) + " or " + Print(g)
  {
    RunPrints(f);
    RunPrints(g);
    PrintAllConcat(Factors(f), Factors(g), true);
    PrintAllConcat(Terms(f), Terms(g), false);
    RejoinConcat(PrintAll(Factors(f), true), PrintAll(Factors(g), true), " and ");
    RejoinConcat(PrintAll(Terms(f), false), PrintAll(Terms(g), false), " or ");
  }
}
