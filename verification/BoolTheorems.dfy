/** What follows from the canonical form. */
module BoolTheorems {
  // Spellings are unambiguous; equality of canonical forms decides equality of
  // flattened syntax; the three-valued meaning survives; the result is a fixed point
  // with the fewest parentheses; and what a gapless "not" loses.

  import opened Lex
  import opened Splitter
  import opened BoolCanon
  import opened BoolGrammar
  import opened BoolForms
  import opened BoolPeel
  import opened BoolCorrect

  // ------------------------------------------------- a text has one flat syntax

  /** The flat operands of a run. */
  function FlatParts(ts: seq<Src>, conj: bool): seq<Form> {
    if ts == [] then []
    else (if conj then Factors(Flatten(ts[0])) else Terms(Flatten(ts[0]))) + FlatParts(ts[1..], conj)
  }

  /** Well-formed, and all shorter than n. */
  ghost predicate AllWf(ts: seq<Src>, n: nat) {
    ts == [] || (Wf(ts[0]) && |Spell(ts[0])| < n && AllWf(ts[1..], n))
  }

  lemma {:induction false} AllWfConcat(ts: seq<Src>, us: seq<Src>, n: nat)
    requires AllWf(ts, n) && AllWf(us, n)
    ensures AllWf(ts + us, n)
  {
    if ts == [] {
      assert ts + us == us;
    } else {
      AllWfConcat(ts[1..], us, n);
      assert (ts + us)[1..] == ts[1..] + us;
    }
  }

  lemma {:induction false} FlatPartsConcat(ts: seq<Src>, us: seq<Src>, conj: bool)
    ensures FlatParts(ts + us, conj) == FlatParts(ts, conj) + FlatParts(us, conj)
  {
    if ts == [] {
      assert ts + us == us;
    } else {
      assert (ts + us)[1..] == ts[1..] + us;
      FlatPartsConcat(ts[1..], us, conj);
    }
  }

  lemma {:induction false} OrFlat(t: Src, n: nat)
    requires Wf(t) && |Spell(t)| < n
    ensures AllWf(OrOperands(t), n) && FlatParts(OrOperands(t), false) == Terms(Flatten(t))
  {
    if t.Or? {
      OrFlat(t.left, n);
      OrFlat(t.right, n);
      AllWfConcat(OrOperands(t.left), OrOperands(t.right), n);
      FlatPartsConcat(OrOperands(t.left), OrOperands(t.right), false);
    } else {
      assert [t][1..] == [];
    }
  }

  lemma {:induction false} AndFlat(t: Src, n: nat)
    requires Wf(t) && |Spell(t)| < n
    ensures AllWf(AndOperands(t), n) && FlatParts(AndOperands(t), true) == Factors(Flatten(t))
  {
    if t.And? {
      AndFlat(t.left, n);
      AndFlat(t.right, n);
      AllWfConcat(AndOperands(t.left), AndOperands(t.right), n);
      FlatPartsConcat(AndOperands(t.left), AndOperands(t.right), true);
    } else {
      assert [t][1..] == [];
    }
  }

  /** The operands of a run, each shorter than the run. */
  lemma {:induction false} RunFlat(t: Src, n: nat)
    requires Wf(t) && n == |Spell(t)|
    ensures t.Or? ==> AllWf(OrOperands(t), n) && Flatten(t) == Disj(FlatParts(OrOperands(t), false))
    ensures t.And? ==> AllWf(AndOperands(t), n) && Flatten(t) == Conj(FlatParts(AndOperands(t), true))
  {
    if t.Or? {
      OrFlat(t.left, n);
      OrFlat(t.right, n);
      AllWfConcat(OrOperands(t.left), OrOperands(t.right), n);
      FlatPartsConcat(OrOperands(t.left), OrOperands(t.right), false);
    } else if t.And? {
      AndFlat(t.left, n);
      AndFlat(t.right, n);
      AllWfConcat(AndOperands(t.left), AndOperands(t.right), n);
      FlatPartsConcat(AndOperands(t.left), AndOperands(t.right), true);
    }
  }

  /** A text is the spelling of one flattened syntax at most. */
  lemma {:induction false} Unambiguous(t: Src, u: Src)
    requires Wf(t) && Wf(u) && Spell(t) == Spell(u)
    ensures Flatten(t) == Flatten(u)
    decreases |Spell(t)|, 2, 0
  {
    CoreSplit(t);
    CoreSplit(u);
    var n := |Spell(t)|;
    RunFlat(t, n);
    RunFlat(u, n);
    if t.Or? {
      SameAll(OrOperands(t), OrOperands(u), false, n);
    } else if t.And? {
      SameAll(AndOperands(t), AndOperands(u), true, n);
    } else {
      SameUnit(t, u);
    }
  }

  lemma {:induction false} SameUnit(t: Src, u: Src)
    requires Wf(t) && Wf(u) && Spell(t) == Spell(u) && !t.Or? && !u.Or? && !t.And? && !u.And?
    ensures Flatten(t) == Flatten(u)
    decreases |Spell(t)|, 1, 0
  {
    EnclosedSpell(t);
    EnclosedSpell(u);
    if t.Group? {
      GroupContent(t);
      GroupContent(u);
      Unambiguous(t.inner, u.inner);
    } else {
      NotPrefix(t);
      NotPrefix(u);
      if t.Not? {
        NotContent(t);
        NotContent(u);
        Unambiguous(t.operand, u.operand);
      }
    }
  }

  lemma {:induction false} GroupContent(t: Src)
    requires Wf(t) && t.Group?
    ensures |Spell(t)| >= 2 && Strip(Spell(t)[1..|Spell(t)| - 1]) == Spell(t.inner) && |Spell(t.inner)| < |Spell(t)|
  {
    SpellShape(t.inner);
    StripOf(t.g1, Spell(t.inner), t.g2);
    assert Spell(t)[1..|Spell(t)| - 1] == t.g1 + Spell(t.inner) + t.g2;
  }

  lemma {:induction false} NotContent(t: Src)
    requires Wf(t) && t.Not?
    ensures |Spell(t)| >= 3 && Strip(Spell(t)[3..]) == Spell(t.operand) && |Spell(t.operand)| < |Spell(t)|
  {
    SpellShape(t.operand);
    StripOf(t.gap, Spell(t.operand), "");
    assert Spell(t)[3..] == t.gap + Spell(t.operand) + "";
  }

  lemma {:induction false} SameAll(ts: seq<Src>, us: seq<Src>, conj: bool, n: nat)
    requires AllWf(ts, n) && AllWf(us, n) && SpellAll(ts) == SpellAll(us)
    ensures FlatParts(ts, conj) == FlatParts(us, conj)
    decreases n, 0, |ts|
  {
    if ts != [] {
      assert SpellAll(ts)[0] == Spell(ts[0]) && SpellAll(us)[0] == Spell(us[0]);
      assert SpellAll(ts)[1..] == SpellAll(ts[1..]) && SpellAll(us)[1..] == SpellAll(us[1..]);
      Unambiguous(ts[0], us[0]);
      SameAll(ts[1..], us[1..], conj, n);
    }
  }

  /** Two flat forms printed alike are the same form. */
  lemma {:induction false} PrintInjective(f: Form, g: Form)
    requires FormOk(f) && FormOk(g) && Print(f) == Print(g)
    ensures f == g
  {
    MinSpells(f);
    MinSpells(g);
    Unambiguous(MinimalSrc(f), MinimalSrc(g));
  }

  // ------------------------------------------------------ when text is lost

  /** No gapless "not" stands before a group that the predicate goes on after:
      the caller can see this in the text. */
  predicate Faithful(t: Src) {
    match t
    case Atom(_) => true
    case Tail(_, _, _, _) => true
    case Group(_, inner, _) => Faithful(inner)
    case Not(gap, e) => !(gap == "" && e.Tail?) && Faithful(e)
    case And(l, _, _, r) => Faithful(l) && Faithful(r)
    case Or(l, _, _, r) => Faithful(l) && Faithful(r)
  }

  function Size(f: Form): nat
    decreases f, 1
  {
    match f
    case Lit(text) => |text|
    case Neg(a) => Size(a)
    case Conj(fs) => SizeAll(fs)
    case Disj(fs) => SizeAll(fs)
  }

  function SizeAll(fs: seq<Form>): nat
    decreases fs, 0
  {
    if fs == [] then 0 else Size(fs[0]) + SizeAll(fs[1..])
  }

  lemma {:induction false} SizeConcat(fs: seq<Form>, gs: seq<Form>)
    ensures SizeAll(fs + gs) == SizeAll(fs) + SizeAll(gs)
  {
    if fs == [] {
      assert fs + gs == gs;
    } else {
      assert (fs + gs)[1..] == fs[1..] + gs;
      SizeConcat(fs[1..], gs);
    }
  }

  lemma {:induction false} SizeParts(f: Form)
    ensures SizeAll(Factors(f)) == Size(f) && SizeAll(Terms(f)) == Size(f)
  {
    assert [f][1..] == [];
  }

  lemma {:induction false} JoinSizes(f: Form, g: Form)
    ensures Size(Conj(Factors(f) + Factors(g))) == Size(f) + Size(g)
    ensures Size(Disj(Terms(f) + Terms(g))) == Size(f) + Size(g)
  {
    SizeConcat(Factors(f), Factors(g));
    SizeConcat(Terms(f), Terms(g));
    SizeParts(f);
    SizeParts(g);
  }

  lemma {:induction false} ReadSize(t: Src)
    ensures Size(Read(t)) <= Size(Flatten(t)) <= |Spell(t)|
    ensures Faithful(t) ==> Read(t) == Flatten(t)
    ensures !Faithful(t) ==> Size(Read(t)) < Size(Flatten(t))
  {
    match t
    case Atom(_) =>
    case Tail(_, head, _, _) =>
    case Group(_, inner, _) =>
      ReadSize(inner);
    case Not(gap, e) =>
      ReadSize(e);
      if e.Tail? {
        ReadSize(e.head);
        assert |Spell(e.head)| < |Spell(e)|;
      }
    case And(l, _, _, r) =>
      ReadSize(l);
      ReadSize(r);
      JoinSizes(Read(l), Read(r));
      JoinSizes(Flatten(l), Flatten(r));
    case Or(l, _, _, r) =>
      ReadSize(l);
      ReadSize(r);
      JoinSizes(Read(l), Read(r));
      JoinSizes(Flatten(l), Flatten(r));
  }

  lemma {:induction false} CanonicalForm(t: Src)
    requires Wf(t) && Clean(t)
    ensures CanonBool(Spell(t)) == Print(Read(t))
  {
    assert "" + Spell(t) + "" == Spell(t);
    Canonical(t, "", "");
  }

  /** The canonical form prints the predicate's own flattened syntax exactly when
      no text follows the group of a gapless "not". */
  lemma {:induction false} FaithfulExactly(t: Src)
    requires Wf(t) && Clean(t)
    ensures CanonBool(Spell(t)) == Print(Flatten(t)) <==> Faithful(t)
  {
    CanonicalForm(t);
    ReadSize(t);
    FlattenOk(t);
    if CanonBool(Spell(t)) == Print(Flatten(t)) {
      PrintInjective(Read(t), Flatten(t));
    }
  }

  /** Sound and complete for redundant grouping: equal canonical forms exactly
      when the flattened syntax is equal. */
  lemma {:induction false} SameCanonicalForm(t: Src, u: Src)
    requires Wf(t) && Clean(t) && Faithful(t) && Wf(u) && Clean(u) && Faithful(u)
    ensures CanonBool(Spell(t)) == CanonBool(Spell(u)) <==> Flatten(t) == Flatten(u)
  {
    CanonicalForm(t);
    CanonicalForm(u);
    ReadSize(t);
    ReadSize(u);
    FlattenOk(t);
    FlattenOk(u);
    if Print(Flatten(t)) == Print(Flatten(u)) {
      PrintInjective(Flatten(t), Flatten(u));
    }
  }

  /** After "not(" the code reads up to the parenthesis that closes when those inside
      literals are counted: of what follows it nothing reaches the output. */
  lemma {:induction false} CutShort(w: string, q: string)
    requires RawBalanced(w) && (q == "" || !IsSpace(q[|q| - 1]))
    requires var s := "not(" + w + ")" + q; NoCut(s, "or") && NoCut(s, "and")
    ensures CanonBool("not(" + w + ")" + q) == Negate(CanonBool(w))
  {
    var s := "not(" + w + ")" + q;
    TightShape(w, q, s);
    TightRead(s, w);
  }

  lemma {:induction false} TightRead(s: string, w: string)
    requires s != "" && s[0] == 'n' && !IsSpace(s[|s| - 1]) && NoCut(s, "or") && NoCut(s, "and")
    requires StartsWith(s, "not(") && CloseFrom(s, 3, 0) == 4 + |w| && s[4..4 + |w|] == w
    ensures CanonBool(s) == Negate(CanonBool(w))
  {
    StripTrimmed(s);
    SplitWhole(s, "or");
    SplitWhole(s, "and");
    BareNot(s);
  }

  lemma {:induction false} TightShape(w: string, q: string, s: string)
    requires RawBalanced(w) && (q == "" || !IsSpace(q[|q| - 1])) && s == "not(" + w + ")" + q
    ensures s[0] == 'n' && !IsSpace(s[|s| - 1]) && StartsWith(s, "not(")
    ensures CloseFrom(s, 3, 0) == 4 + |w| && s[4..4 + |w|] == w
  {
    assert s == "not" + ("(" + w + ")") + q;
    CloseOfGroup("not", w, q);
    TightEdges(w, q, s);
  }

  lemma {:induction false} TightEdges(w: string, q: string, s: string)
    requires s == "not(" + w + ")" + q
    ensures s[0] == 'n' && StartsWith(s, "not(") && s[4..4 + |w|] == w
    ensures s[|s| - 1] == if q == "" then ')' else q[|q| - 1]
  {
  }

  /** Predicates that differ after the group of a gapless "not" are not told apart,
      whatever follows: a false "equal". */
  lemma {:induction false} TrailingTextIsLost(h: Src, rest: string)
    requires Wf(h) && Clean(h) && RawBalanced(Spell(h)) && TailText(rest)
    ensures CanonBool("not(" + Spell(h) + ")" + rest) == CanonBool("not(" + Spell(h) + ")")
    ensures CanonBool("not (" + Spell(h) + ")" + rest) != CanonBool("not (" + Spell(h) + ")")
  {
    TightSpelled(h, rest);
    LostTight(h, rest);
    KeptSpaced(h, rest);
  }

  lemma {:induction false} LostTight(h: Src, rest: string)
    requires Wf(h) && RawBalanced(Spell(h)) && TailText(rest)
    ensures CanonBool("not(" + Spell(h) + ")" + rest) == CanonBool("not(" + Spell(h) + ")")
  {
    TightSpelled(h, rest);
    TightNoCut(Not("", Tail("", h, "", rest)));
    TightNoCut(Not("", Group("", h, "")));
    SameRead(Spell(h), rest, "not(" + Spell(h) + ")" + rest, "not(" + Spell(h) + ")");
  }

  lemma {:induction false} SameRead(w: string, q: string, x: string, y: string)
    requires RawBalanced(w) && q != "" && !IsSpace(q[|q| - 1])
    requires x == "not(" + w + ")" + q && y == "not(" + w + ")"
    requires NoCut(x, "or") && NoCut(x, "and") && NoCut(y, "or") && NoCut(y, "and")
    ensures CanonBool(x) == CanonBool(y)
  {
    assert y == y + "";
    CutShort(w, q);
    CutShort(w, "");
  }

  lemma {:induction false} TightNoCut(t: Src)
    requires t.Not? && Wf(t)
    ensures NoCut(Spell(t), "or") && NoCut(Spell(t), "and")
  {
    SpellNoOr(t);
    SpellNoAnd(t);
  }

  lemma {:induction false} KeptSpaced(h: Src, rest: string)
    requires Wf(h) && Clean(h) && RawBalanced(Spell(h)) && TailText(rest)
    ensures CanonBool(Spell(Not(" ", Tail("", h, "", rest)))) != CanonBool(Spell(Not(" ", Group("", h, ""))))
  {
    var t, u := Not(" ", Tail("", h, "", rest)), Not(" ", Group("", h, ""));
    SpacedClean(h, rest);
    CanonicalForm(t);
    CanonicalForm(u);
    FlattenOk(t);
    FlattenOk(u);
    ReadSize(h);
    assert Size(Read(t)) == |Spell(t.operand)| > |Spell(h)|;
    if Print(Read(t)) == Print(Read(u)) {
      PrintInjective(Read(t), Read(u));
    }
  }

  lemma {:induction false} SpacedClean(h: Src, rest: string)
    requires Clean(h) && RawBalanced(Spell(h)) && rest != ""
    ensures Clean(Not(" ", Tail("", h, "", rest))) && Clean(Not(" ", Group("", h, "")))
  {
    GroupBare(Spell(h));
    PeeledExactly(Spell(h));
    RawGroup(Spell(h));
    NotWrapped("(" + Spell(h) + ")", rest);
    NotPeels(" " + Spell(Tail("", h, "", rest)));
    NotPeels(" " + Spell(Group("", h, "")));
  }

  lemma {:induction false} TightSpelled(h: Src, rest: string)
    ensures Spell(Not("", Tail("", h, "", rest))) == "not(" + Spell(h) + ")" + rest
    ensures Spell(Not("", Group("", h, ""))) == "not(" + Spell(h) + ")"
    ensures Spell(Not(" ", Tail("", h, "", rest))) == "not (" + Spell(h) + ")" + rest
    ensures Spell(Not(" ", Group("", h, ""))) == "not (" + Spell(h) + ")"
  {
    var x := Spell(h);
    assert "not" + ("" + ("(" + ("" + x + "") + ")" + rest)) == "not(" + x + ")" + rest;
    assert "not" + ("" + ("(" + ("" + x + "") + ")")) == "not(" + x + ")";
    assert "not" + (" " + ("(" + ("" + x + "") + ")" + rest)) == "not (" + x + ")" + rest;
    assert "not" + (" " + ("(" + ("" + x + "") + ")")) == "not (" + x + ")";
  }

  /** The loss on a concrete pair: x and y differ in meaning, their canonical
      forms do not. */
  lemma {:induction false} NotAIsNull(x: string, y: string)
    requires x == "not(a) is null" && y == "not(a)"
    ensures CanonBool(x) == CanonBool(y)
  {
    NullText(x, y, "a", " is null");
    SmallAtom();
    NoParensRaw("a", 1);
    AtomLosesRest("a", " is null");
  }

  lemma {:induction false} NullText(x: string, y: string, a: string, rest: string)
    requires x == "not(a) is null" && y == "not(a)" && a == "a" && rest == " is null"
    ensures x == "not(" + a + ")" + rest && y == "not(" + a + ")"
  {
  }

  lemma {:induction false} AtomLosesRest(a: string, rest: string)
    requires AtomText(a) && RawBalanced(a) && TailText(rest)
    ensures CanonBool("not(" + a + ")" + rest) == CanonBool("not(" + a + ")")
  {
    LostTight(Atom(a), rest);
  }

  lemma {:induction false} SmallAtom()
    ensures AtomText("a") && TailText(" is null")
  {
    FlatBalanced("a");
    FlatBalanced(" is null");
    WordsNoCut();
    forall i: nat
      ensures !StartsAt("a", "or", i) && !StartsAt("a", "and", i)
      ensures !StartsAt(" is null", "or", i) && !StartsAt(" is null", "and", i)
    {
      assert "or"[0] == 'o' && "or"[1] == 'r' && "and"[0] == 'a';
      if i < 7 {
        Mismatch(" is null", "or", i, 0);
        Mismatch(" is null", "and", i, 0);
      }
    }
  }

  // ------------------------------------------------------- three-valued value

  datatype Truth = True | False | Null

  function Not3(a: Truth): Truth {
    match a
    case True => False
    case False => True
    case Null => Null
  }

  function And3(a: Truth, b: Truth): Truth {
    if a == False || b == False then False
    else if a == Null || b == Null then Null
    else True
  }

  function Or3(a: Truth, b: Truth): Truth {
    if a == True || b == True then True
    else if a == Null || b == Null then Null
    else False
  }

  /** SQL's value of a spelling when env gives the opaque predicates. */
  function Eval(t: Src, env: string -> Truth): Truth {
    match t
    case Atom(text) => env(text)
    case Tail(_, _, _, _) => env(Spell(t))
    case Group(_, inner, _) => Eval(inner, env)
    case Not(_, e) => Not3(Eval(e, env))
    case And(l, _, _, r) => And3(Eval(l, env), Eval(r, env))
    case Or(l, _, _, r) => Or3(Eval(l, env), Eval(r, env))
  }

  function EvalForm(f: Form, env: string -> Truth): Truth
    decreases f, 1
  {
    match f
    case Lit(text) => env(text)
    case Neg(a) => Not3(EvalForm(a, env))
    case Conj(fs) => EvalAll(fs, env, true)
    case Disj(fs) => EvalAll(fs, env, false)
  }

  function EvalAll(fs: seq<Form>, env: string -> Truth, conj: bool): Truth
    decreases fs, 0
  {
    if fs == [] then if conj then True else False
    else if conj then And3(EvalForm(fs[0], env), EvalAll(fs[1..], env, conj))
    else Or3(EvalForm(fs[0], env), EvalAll(fs[1..], env, conj))
  }

  lemma {:induction false} EvalConcat(fs: seq<Form>, gs: seq<Form>, env: string -> Truth, conj: bool)
    ensures EvalAll(fs + gs, env, conj) ==
            if conj then And3(EvalAll(fs, env, conj), EvalAll(gs, env, conj))
            else Or3(EvalAll(fs, env, conj), EvalAll(gs, env, conj))
  {
    if fs == [] {
      assert fs + gs == gs;
    } else {
      assert (fs + gs)[1..] == fs[1..] + gs;
      EvalConcat(fs[1..], gs, env, conj);
    }
  }

  lemma {:induction false} EvalParts(f: Form, env: string -> Truth)
    ensures EvalAll(Factors(f), env, true) == EvalForm(f, env)
    ensures EvalAll(Terms(f), env, false) == EvalForm(f, env)
  {
    assert [f][1..] == [];
  }

  lemma {:induction false} EvalFlatten(t: Src, env: string -> Truth)
    ensures EvalForm(Flatten(t), env) == Eval(t, env)
  {
    match t
    case Atom(_) =>
    case Tail(_, _, _, _) =>
    case Group(_, inner, _) =>
      EvalFlatten(inner, env);
    case Not(_, e) =>
      EvalFlatten(e, env);
    case And(l, _, _, r) =>
      EvalFlatten(l, env);
      EvalFlatten(r, env);
      EvalParts(Flatten(l), env);
      EvalParts(Flatten(r), env);
      EvalConcat(Factors(Flatten(l)), Factors(Flatten(r)), env, true);
    case Or(l, _, _, r) =>
      EvalFlatten(l, env);
      EvalFlatten(r, env);
      EvalParts(Flatten(l), env);
      EvalParts(Flatten(r), env);
      EvalConcat(Terms(Flatten(l)), Terms(Flatten(r)), env, false);
  }

  /** Every reading of the canonical text under NOT > AND > OR has the value the
      predicate had, for every assignment of true, false and NULL. */
  lemma {:induction false} ValuePreserved(t: Src, u: Src, env: string -> Truth)
    requires Wf(t) && Clean(t) && Faithful(t)
    requires Wf(u) && Spell(u) == CanonBool(Spell(t))
    ensures Eval(u, env) == Eval(t, env)
  {
    CanonicalForm(t);
    ReadSize(t);
    FlattenOk(t);
    MinSpells(Flatten(t));
    Unambiguous(u, MinimalSrc(Flatten(t)));
    EvalFlatten(t, env);
    EvalFlatten(u, env);
  }

  /** There is such a reading. */
  lemma {:induction false} CanonicalIsReadable(t: Src)
    requires Wf(t) && Clean(t)
    ensures exists u: Src :: Wf(u) && Clean(u) && Faithful(u) && Spell(u) == CanonBool(Spell(t))
  {
    CanonicalForm(t);
    FlattenOk(t);
    ReadClean(t);
    var u := MinimalSrc(Read(t));
    MinSpells(Read(t));
    MinClean(Read(t));
    MinFaithful(Read(t));
    assert Wf(u) && Clean(u) && Faithful(u) && Spell(u) == CanonBool(Spell(t));
  }

  lemma {:induction false} MinFaithful(f: Form)
    ensures Faithful(MinimalSrc(f))
    decreases f, 1
  {
    match f
    case Lit(_) =>
    case Neg(a) => MinFaithful(a);
    case Conj(fs) => ChainFaithful(fs, true);
    case Disj(fs) => ChainFaithful(fs, false);
  }

  lemma {:induction false} ChainFaithful(fs: seq<Form>, conj: bool)
    ensures Faithful(Chain(fs, conj))
    decreases fs, 0
  {
    if fs != [] {
      MinFaithful(fs[0]);
      ChainFaithful(fs[1..], conj);
    }
  }

  /** A second pass changes nothing. */
  lemma {:induction false} Idempotent(t: Src)
    requires Wf(t) && Clean(t)
    ensures CanonBool(CanonBool(Spell(t))) == CanonBool(Spell(t))
  {
    CanonicalForm(t);
    FlattenOk(t);
    ReadClean(t);
    var f := Read(t);
    MinSpells(f);
    MinClean(f);
    CanonicalForm(MinimalSrc(f));
    MinFaithful(f);
    ReadSize(MinimalSrc(f));
  }

  // ---------------------------------------------------------------- minimality

  /** The number of opening parentheses of a text. */
  function Opens(s: string): nat {
    if s == "" then 0 else (if s[0] == '(' then 1 else 0) + Opens(s[1..])
  }

  lemma {:induction false} OpensConcat(a: string, b: string)
    ensures Opens(a + b) == Opens(a) + Opens(b)
  {
    if a == "" {
      assert a + b == b;
    } else {
      assert (a + b)[1..] == a[1..] + b;
      OpensConcat(a[1..], b);
    }
  }

  lemma {:induction false} OpensNone(w: string)
    requires forall i :: 0 <= i < |w| ==> w[i] != '('
    ensures Opens(w) == 0
  {
    if w != "" {
      OpensNone(w[1..]);
    }
  }

  /** Parentheses of the printed operands. */
  function OpensAll(ps: seq<string>): nat {
    if ps == [] then 0 else Opens(ps[0]) + OpensAll(ps[1..])
  }

  lemma {:induction false} OpensRejoin(ps: seq<string>, sep: string)
    requires Opens(sep) == 0
    ensures Opens(Rejoin(ps, sep)) == OpensAll(ps)
  {
    if |ps| > 1 {
      OpensRejoin(ps[1..], sep);
      OpensConcat(ps[0] + sep, Rejoin(ps[1..], sep));
      OpensConcat(ps[0], sep);
    } else if |ps| == 1 {
      assert ps[1..] == [];
    }
  }

  lemma {:induction false} OpensAllConcat(ps: seq<string>, qs: seq<string>)
    ensures OpensAll(ps + qs) == OpensAll(ps) + OpensAll(qs)
  {
    if ps == [] {
      assert ps + qs == qs;
    } else {
      assert (ps + qs)[1..] == ps[1..] + qs;
      OpensAllConcat(ps[1..], qs);
    }
  }

  lemma {:induction false} GroupOpens(w1: string, x: string, w2: string)
    requires Blank(w1) && Blank(w2)
    ensures Opens("(" + (w1 + x + w2) + ")") == 1 + Opens(x)
  {
    OpensNone(w1);
    OpensNone(w2);
    OpensConcat(w1, x);
    OpensConcat(w1 + x, w2);
    assert "(" + (w1 + x + w2) + ")" == "(" + ((w1 + x + w2) + ")");
    OpensConcat(w1 + x + w2, ")");
    assert ("(" + ((w1 + x + w2) + ")"))[1..] == (w1 + x + w2) + ")";
    OpensNone(")");
  }

  lemma {:induction false} PlainGroupOpens(x: string)
    ensures Opens("(" + x + ")") == 1 + Opens(x)
  {
    GroupOpens("", x, "");
    assert "" + x + "" == x;
  }

  lemma {:induction false} WordOpens(op: string)
    requires AllIdent(op)
    ensures Opens(op) == 0
  {
    OpensNone(op);
  }

  lemma {:induction false} JoinOpens(a: string, w1: string, op: string, w2: string, b: string)
    requires Blank(w1) && Blank(w2) && AllIdent(op)
    ensures Opens((a + w1) + op + (w2 + b)) == Opens(a) + Opens(b)
  {
    OpensNone(w1);
    OpensNone(w2);
    WordOpens(op);
    OpensConcat(a, w1);
    OpensConcat(w2, b);
    OpensConcat(a + w1, op);
    OpensConcat((a + w1) + op, w2 + b);
  }

  /** Cost of an operand in a conjunction or disjunction. */
  function Cost(f: Form, conj: bool): nat {
    OpensAll(PrintAll(if conj then Factors(f) else Terms(f), conj))
  }

  lemma {:induction false} CostIs(f: Form)
    ensures Cost(f, false) == Opens(Print(f))
    ensures Cost(f, true) == Opens(Print(f)) + if f.Disj? then 1 else 0
  {
    OpensNone(" and ");
    OpensNone(" or ");
    PrintOne(f, false);
    PrintOne(f, true);
    PlainGroupOpens(Print(f));
    assert OpensAll([PrintOperand(f, false)]) == Opens(PrintOperand(f, false)) + OpensAll([PrintOperand(f, false)][1..]);
    assert OpensAll([PrintOperand(f, true)]) == Opens(PrintOperand(f, true)) + OpensAll([PrintOperand(f, true)][1..]);
    if f.Conj? {
      OpensRejoin(PrintAll(f.args, true), " and ");
    }
    if f.Disj? {
      OpensRejoin(PrintAll(f.args, false), " or ");
    }
  }

  lemma {:induction false} JoinCost(f: Form, g: Form)
    ensures Opens(Print(Conj(Factors(f) + Factors(g)))) == Cost(f, true) + Cost(g, true)
    ensures Opens(Print(Disj(Terms(f) + Terms(g)))) == Cost(f, false) + Cost(g, false)
  {
    OpensNone(" and ");
    OpensNone(" or ");
    PrintAllConcat(Factors(f), Factors(g), true);
    PrintAllConcat(Terms(f), Terms(g), false);
    OpensRejoin(PrintAll(Factors(f) + Factors(g), true), " and ");
    OpensRejoin(PrintAll(Terms(f) + Terms(g), false), " or ");
    OpensAllConcat(PrintAll(Factors(f), true), PrintAll(Factors(g), true));
    OpensAllConcat(PrintAll(Terms(f), false), PrintAll(Terms(g), false));
  }

  /** u has at least the opening parentheses of its printed form, and one more
      when u is a group. */
  ghost predicate Fewest(u: Src) {
    Opens(Spell(u)) >= Opens(Print(Flatten(u))) + if u.Group? then 1 else 0
  }

  /** No spelling of the same flattened syntax has fewer parentheses; one with an
      outer group around a run has at least one more. */
  lemma {:induction false} FewestParens(u: Src)
    requires Wf(u)
    ensures Fewest(u)
  {
    match u
    case Atom(_) =>
    case Tail(_, _, _, _) =>
    case Group(g1, inner, g2) =>
      FewestParens(inner);
      GroupOpens(g1, Spell(inner), g2);
    case Not(gap, e) =>
      FewestParens(e);
      NotOpens(gap, Spell(e));
      NegOpens(Flatten(e));
      FlatKind(e);
    case And(l, w1, w2, r) =>
      FewestParens(l);
      FewestParens(r);
      FewestAnd(u);
    case Or(l, w1, w2, r) =>
      FewestParens(l);
      FewestParens(r);
      FewestOr(u);
  }

  lemma {:induction false} FewestAnd(u: Src)
    requires Wf(u) && u.And? && Fewest(u.left) && Fewest(u.right)
    ensures Fewest(u)
  {
    JoinOpens(Spell(u.left), u.w1, "and", u.w2, Spell(u.right));
    JoinCost(Flatten(u.left), Flatten(u.right));
    CostIs(Flatten(u.left));
    CostIs(Flatten(u.right));
    FlatKind(u.left);
    FlatKind(u.right);
  }

  lemma {:induction false} FewestOr(u: Src)
    requires Wf(u) && u.Or? && Fewest(u.left) && Fewest(u.right)
    ensures Fewest(u)
  {
    JoinOpens(Spell(u.left), u.w1, "or", u.w2, Spell(u.right));
    JoinCost(Flatten(u.left), Flatten(u.right));
    CostIs(Flatten(u.left));
    CostIs(Flatten(u.right));
  }

  lemma {:induction false} FlatKind(t: Src)
    ensures !t.Group? ==> (Flatten(t).Disj? <==> t.Or?) && (Flatten(t).Conj? <==> t.And?)
  {
  }

  lemma {:induction false} NotOpens(gap: string, x: string)
    requires Blank(gap)
    ensures Opens("not" + (gap + x)) == Opens(x)
  {
    OpensNone(gap);
    OpensNone("not");
    OpensConcat(gap, x);
    OpensConcat("not", gap + x);
  }

  lemma {:induction false} NegOpens(f: Form)
    ensures Opens(Print(Neg(f))) == Opens(Print(f)) + if f.Conj? || f.Disj? then 1 else 0
  {
    OpensNone("not ");
    PlainGroupOpens(Print(f));
    NotSpaced(Print(f));
    OpensConcat("not ", Print(f));
    OpensConcat("not ", "(" + Print(f) + ")");
  }

  /** Minimality: any spelling of the same flattened syntax has at least as many
      parentheses as the canonical text. */
  lemma {:induction false} Minimal(t: Src, u: Src)
    requires Wf(t) && Clean(t) && Faithful(t) && Wf(u) && Flatten(u) == Flatten(t)
    ensures Opens(CanonBool(Spell(t))) <= Opens(Spell(u))
  {
    CanonicalForm(t);
    ReadSize(t);
    FewestParens(u);
  }
}
