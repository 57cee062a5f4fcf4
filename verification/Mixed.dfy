/**
 Predicates that mix both layers: comparisons and arithmetic under "and", "or" and
 "not". What the arithmetic step leaves is read as a spelling of the boolean layer.
 */
module Mixed {
  import opened Lex
  import opened Splitter
  import opened ArithCanon
  import opened ArithText
  import opened ArithGrammar
  import opened ArithScan
  import opened ArithCorrect
  import opened ArithMeaning
  import opened ArithReading
  import BoolCanon
  import B = BoolGrammar
  import BF = BoolForms
  import BP = BoolPeel
  import BT = BoolTheorems

  // ------------------------------------------------ from the one tree to the other

  predicate Boolean(op: Op) {
    op == And || op == Or
  }

  /** Under "and", "or" and "not" stand no lists. */
  predicate Condition(e: Exp) {
    match e
    case Leaf(_) => true
    case Call(name, arg) => name == "not" ==> Condition(arg)
    case Args(_) => false
    case Paren(inner) => Condition(inner)
    case Bin(l, _, op, _, r) => if Boolean(op) then Condition(l) && Condition(r) else !op.Comma? && !op.OfFrom?
  }

  /** The spelling the boolean layer sees; what is neither "and", "or", "not" nor a
      group is opaque. */
  function ToSrc(e: Exp): B.Src {
    match e
    case Call(name, arg) => if name == "not" then B.Not("", B.Group("", ToSrc(arg), "")) else B.Atom(Spell(e))
    case Paren(inner) => B.Group("", ToSrc(inner), "")
    case Bin(l, w1, op, w2, r) =>
      if op == And then B.And(ToSrc(l), w1, w2, ToSrc(r))
      else if op == Or then B.Or(ToSrc(l), w1, w2, ToSrc(r))
      else B.Atom(Spell(e))
    case _ => B.Atom(Spell(e))
  }

  /** Opaque to the boolean layer. */
  predicate Opaque(e: Exp) {
    match e
    case Leaf(_) => true
    case Call(name, _) => name != "not"
    case Args(_) => false
    case Paren(_) => false
    case Bin(_, _, op, _, _) => !Boolean(op)
  }

  // ---------------------------------------------------- no cut in an opaque text

  /** No "and" or "or" outside parentheses. */
  predicate Uncut(e: Exp) {
    match e
    case Bin(l, _, op, _, r) => !Boolean(op) && Uncut(l) && Uncut(r)
    case _ => true
  }

  lemma {:induction false} PrecUncut(e: Exp)
    requires PrecOk(e) && ArithGrammar.Prec(e) >= 4
    ensures Uncut(e)
  {
    if e.Bin? {
      PrecUncut(e.left);
      PrecUncut(e.right);
    }
  }

  predicate CutWord(op: string) {
    op == "or" || op == "and"
  }

  lemma {:induction false} CutIsKeyword(x: string, op: string)
    requires CutWord(op) && StartsAt(x, op, 0) && (|op| == |x| || !IsIdent(x[|op|]))
    ensures Keyword(x) && IsAlpha(x[0])
  {
    assert x[0] == x[0 + 0] == op[0];
  }

  /** A word that the arithmetic scan passes holds no "and" or "or". */
  lemma {:induction false} WordUncut(x: string, op: string)
    requires AllWord(x) && TopScan(x, 0, ATOM) != BLOCKED && CutWord(op)
    ensures NoCut(x, op)
    decreases |x|
  {
    if x != "" {
      var n := if IsAlpha(x[0]) || x[0] == '_' then WordLength(x) else 1;
      OneWord(x, n, ATOM);
      WordUncut(x[n..], op);
      forall i: nat | i <= |x|
        ensures !IsCut(x, op, i)
      {
        WordAtUncut(x, op, n, i);
      }
    }
  }

  lemma {:induction false} WordAtUncut(x: string, op: string, n: nat, i: nat)
    requires x != "" && AllWord(x) && CutWord(op) && i <= |x|
    requires n == if IsAlpha(x[0]) || x[0] == '_' then WordLength(x) else 1
    requires (IsAlpha(x[0]) || x[0] == '_') ==> !Keyword(x)
    requires NoCut(x[n..], op)
    ensures !IsCut(x, op, i)
  {
    if 0 < i < n {
      RunIdent(x[1..], i - 1);
      assert x[i - 1] == if i == 1 then x[0] else x[1..][i - 2];
    } else if WordAt(x, op, i) {
      if i == 0 {
        CutIsKeyword(x, op);
      } else {
        assert !IsCut(x[n..], op, i - n);
        Flat(x[n..], i - n);
        SuffixWord(x, op, n, i);
      }
    }
  }

  lemma {:induction false} RunIdent(x: string, k: nat)
    requires k < Run(x)
    ensures IsIdent(x[k]) && (k > 0 ==> IsIdent(x[k - 1]))
  {
    if k > 0 {
      RunIdent(x[1..], k - 1);
    }
  }

  lemma {:induction false} SuffixWord(x: string, op: string, n: nat, i: nat)
    requires n <= i <= |x| && WordAt(x, op, i) && op != ""
    ensures WordAt(x[n..], op, i - n)
  {
    var y := x[n..];
    assert forall k :: 0 <= k < |y| ==> y[k] == x[n + k];
  }
  lemma {:induction false} QuotedUncut(x: string, op: string)
    requires QuotedText(x) && CutWord(op)
    ensures NoCut(x, op)
  {
    assert At(x, 1) == Step(At(x, 0), x[0]);
    SkipState(x, 1);
    forall i: nat | i <= |x|
      ensures !IsCut(x, op, i)
    {
      assert 1 <= i < |x| ==> At(x, i).inStr || x[i] == '\'';
      if WordAt(x, op, i) {
        WordHead(x, op, i);
      }
    }
  }

  lemma {:induction false} NoFirst(s: string, op: string)
    requires op != "" && op[0] !in s
    ensures NoCut(s, op)
  {
    forall i: nat | i <= |s|
      ensures !StartsAt(s, op, i)
    {
      if i + |op| <= |s| {
        assert s[i + 0] in s;
      }
    }
  }

  lemma {:induction false} NoSecond(s: string, op: string)
    requires |op| >= 2 && op[1] !in s
    ensures NoCut(s, op)
  {
    forall i: nat | i <= |s|
      ensures !StartsAt(s, op, i)
    {
      if i + |op| <= |s| {
        assert s[i + 1] in s;
      }
    }
  }

  lemma {:induction false} OpUncut(o: Op, op: string)
    requires !Boolean(o) && CutWord(op)
    ensures NoCut(OpText(o), op)
  {
    assert "or"[0] == 'o' && "or"[1] == 'r' && "and"[0] == 'a' && "and"[1] == 'n';
    if o.OfFrom? && op == "or" {
      FromUncut("from");
    } else if op == "or" {
      assert 'r' !in OpText(o);
      NoSecond(OpText(o), op);
    } else {
      assert 'a' !in OpText(o);
      NoFirst(OpText(o), op);
    }
  }

  lemma {:induction false} FromUncut(s: string)
    requires s == "from"
    ensures NoCut(s, "or")
  {
    assert "or"[0] == 'o' && "or"[1] == 'r' && |"or"| == 2;
    forall i: nat | i <= 4
      ensures !StartsAt(s, "or", i)
    {
      if i <= 2 {
        B.Mismatch(s, "or", i, if i == 2 then 1 else 0);
      }
    }
  }

  /** The join of an operation, cut nowhere. */
  lemma {:induction false} JoinUncut(a: string, w1: string, o: Op, w2: string, b: string, op: string)
    requires Balanced(a) && Spaces(w1) && Spaces(w2) && b != "" && CutWord(op) && !Boolean(o)
    requires NoCut(a, op) && NoCut(b, op)
    requires IsWordOp(o) ==> w1 != "" && (w2 != "" || !IsIdent(b[0]))
    ensures NoCut(a + (w1 + (OpText(o) + (w2 + b))), op)
  {
    var t := OpText(o);
    B.WordsNoCut();
    OpUncut(o, op);
    OpPlain(o);
    SpacesUncut(w1, op);
    SpacesUncut(w2, op);
    OpEnds(o);
    NoCutConcat(w2, b, op);
    PlainBalanced(t);
    assert (w2 + b)[0] == if w2 == "" then b[0] else w2[0];
    NoCutConcat(t, w2 + b, op);
    var tail := t + (w2 + b);
    assert tail[0] == t[0];
    NoCutConcat(w1, tail, op);
    assert (w1 + tail)[0] == if w1 == "" then t[0] else w1[0];
    NoCutConcat(a, w1 + tail, op);
  }

  lemma {:induction false} SpacesUncut(w: string, op: string)
    requires Spaces(w) && CutWord(op)
    ensures Blank(w) && NoCut(w, op) && At(w, |w|) == START
  {
    B.WordsNoCut();
    B.BlankNoCut(w, op);
  }

  lemma {:induction false} OpEnds(o: Op)
    ensures var t := OpText(o); t != "" && (!IsWordOp(o) ==> !IsIdent(t[0]) && !IsIdent(t[|t| - 1]))
  {
  }

  lemma {:induction false} SpellUncut(e: Exp, op: string)
    requires LexOk(e) && Uncut(e) && CutWord(op)
    ensures NoCut(Spell(e), op)
    decreases e
  {
    B.WordsNoCut();
    match e
    case Leaf(text) =>
      if WordText(text) {
        WordUncut(text, op);
      } else {
        QuotedUncut(text, op);
      }
    case Call(name, arg) =>
      SpellBalanced(arg);
      B.ParensNoCut(Spell(arg), op);
      NameUncut(name, op);
      NoCutConcat(name, "(" + Spell(arg) + ")", op);
    case Args(list) =>
      SpellBalanced(list);
      B.ParensNoCut(Spell(list), op);
    case Paren(inner) =>
      SpellBalanced(inner);
      B.ParensNoCut(Spell(inner), op);
    case Bin(l, w1, o, w2, r) =>
      SpellUncut(l, op);
      SpellUncut(r, op);
      SpellBalanced(l);
      SpellEdges(r);
      JoinUncut(Spell(l), w1, o, w2, Spell(r), op);
  }

  lemma {:induction false} NameUncut(name: string, op: string)
    requires (name == "not" || WordText(name)) && CutWord(op)
    ensures NoCut(name, op) && At(name, |name|) == START
  {
    B.WordsNoCut();
    if name != "not" {
      WordUncut(name, op);
    }
    FlatBalanced(name);
  }
  // --------------------------------------------------------------- opaque texts

  lemma {:induction false} NotFirst(s: string, c: char)
    requires s != "" && s[0] == c && c != 'n'
    ensures !BoolCanon.StartsWith(s, "not ") && !BoolCanon.StartsWith(s, "not(")
  {
    assert "not "[0] == 'n' && "not("[0] == 'n';
  }

  /** An opaque condition does not begin with "not". */
  lemma {:induction false} NoNotFirst(e: Exp, q: string)
    requires LexOk(e) && Uncut(e) && PrecOk(e) && !(e.Call? && e.name == "not") && (e.Bin? ==> ArithGrammar.Prec(e) >= 4)
    requires Follows(q)
    ensures !BoolCanon.StartsWith(Spell(e) + q, "not ") && !BoolCanon.StartsWith(Spell(e) + q, "not(")
    decreases e
  {
    match e
    case Leaf(text) =>
      if WordText(text) {
        NoNotWord(text, q);
      } else {
        NotFirst(text + q, '\'');
      }
    case Call(name, arg) =>
      assert Spell(e) + q == name + ("(" + Spell(arg) + ")" + q);
      NoNotWord(name, "(" + Spell(arg) + ")" + q);
    case Args(_) => NotFirst(Spell(e) + q, '(');
    case Paren(_) => NotFirst(Spell(e) + q, '(');
    case Bin(l, w1, op, w2, r) =>
      BinShape(e, q);
      BinFollows(e, q);
      NoNotFirst(l, w1 + (OpText(op) + (w2 + (Spell(r) + q))));
  }

  lemma {:induction false} NoNotWord(x: string, q: string)
    requires x != "" && AllWord(x) && x != "not" && (Follows(q) || q[0] == '(')
    ensures !BoolCanon.StartsWith(x + q, "not ") && !BoolCanon.StartsWith(x + q, "not(")
  {
    var s := x + q;
    var v, w := "not ", "not(";
    assert v[0] == 'n' && v[1] == 'o' && v[2] == 't' && v[3] == ' ' && w[0] == 'n' && w[1] == 'o' && w[2] == 't' && w[3] == '(';
    assert |x| <= 3 && q != "" ==> s[|x|] == q[0];
    assert |x| == 3 ==> s[0] == x[0] && s[1] == x[1] && s[2] == x[2] && x == [x[0], x[1], x[2]];
    assert |x| >= 4 ==> s[3] == x[3];
    assert "not" == ['n', 'o', 't'];
  }

  lemma {:induction false} OpaqueText(e: Exp)
    requires LexOk(e) && !e.Args? && PrecOk(e) && Opaque(e) && Condition(e)
    ensures B.AtomText(Spell(e))
  {
    var s := Spell(e);
    if e.Bin? {
      assert Binding(e.op) >= 4;
      PrecUncut(e);
    }
    SpellBalanced(e);
    SpellEdges(e);
    SpellUncut(e, "or");
    SpellUncut(e, "and");
    NoNotFirst(e, "");
    assert s + "" == s;
    NotEnclosed(e);
  }

  lemma {:induction false} NotEnclosed(e: Exp)
    requires LexOk(e) && Opaque(e)
    ensures !B.Enclosed(Spell(e))
  {
    match e
    case Leaf(text) =>
    case Call(name, arg) => assert Spell(e)[0] == name[0];
    case Bin(l, w1, op, w2, r) =>
      SpellBalanced(l);
      SpellEdges(l);
      OpEnds(op);
      BF.NotEnclosed(Spell(l), w1 + (OpText(op) + (w2 + Spell(r))));
  }

  /** What the steps before leave is a spelling of the boolean layer. */
  lemma {:induction false} SrcOk(e: Exp)
    requires LexOk(e) && !e.Args? && PrecOk(e) && Condition(e)
    ensures var t := ToSrc(e);
            && B.Wf(t) && B.Spell(t) == Spell(e) && BT.Faithful(t)
            && (t.Or? <==> e.Bin? && e.op == Or) && (t.And? <==> e.Bin? && e.op == And)
            && (t.Tail? ==> false)
    decreases e
  {
    match e
    case Call(name, arg) =>
      if name == "not" {
        SrcOk(arg);
        NotSrc(ToSrc(arg), Spell(arg));
      } else {
        OpaqueText(e);
      }
    case Paren(inner) =>
      SrcOk(inner);
      BF.GroupBare(Spell(inner));
    case Bin(l, w1, op, w2, r) =>
      if Boolean(op) {
        SrcOk(l);
        SrcOk(r);
        RunSrc(e);
      } else {
        OpaqueText(e);
      }
    case Leaf(_) => OpaqueText(e);
  }

  lemma {:induction false} NotSrc(a: B.Src, x: string)
    requires B.Wf(a) && B.Spell(a) == x && BT.Faithful(a)
    ensures var t := B.Not("", B.Group("", a, ""));
            B.Wf(t) && B.Spell(t) == "not" + ("(" + x + ")") && BT.Faithful(t)
  {
    var g := B.Group("", a, "");
    BF.GroupBare(x);
    assert B.Wf(g) && B.Spell(g) == "(" + x + ")" && BT.Faithful(g);
    assert "" + B.Spell(g) == B.Spell(g);
  }

  lemma {:induction false} RunSrc(e: Exp)
    requires LexOk(e) && PrecOk(e) && e.Bin? && Boolean(e.op)
    requires B.Wf(ToSrc(e.left)) && B.Spell(ToSrc(e.left)) == Spell(e.left) && BT.Faithful(ToSrc(e.left))
    requires B.Wf(ToSrc(e.right)) && B.Spell(ToSrc(e.right)) == Spell(e.right) && BT.Faithful(ToSrc(e.right))
    requires ToSrc(e.left).Or? <==> e.left.Bin? && e.left.op == Or
    requires ToSrc(e.right).Or? <==> e.right.Bin? && e.right.op == Or
    ensures B.Wf(ToSrc(e)) && B.Spell(ToSrc(e)) == Spell(e) && BT.Faithful(ToSrc(e))
  {
    var a, w1, o, w2, b := Spell(e.left), e.w1, OpText(e.op), e.w2, Spell(e.right);
    B.WordsNoCut();
    B.BlankNoCut(w1, "or");
    B.BlankNoCut(w2, "or");
    assert (a + w1)[|a + w1| - 1] == w1[|w1| - 1] == ' ' && (w2 + b)[0] == w2[0] == ' ';
    Shifted(a, w1, o, w2, b);
  }

  lemma {:induction false} Shifted(a: string, w1: string, o: string, w2: string, b: string)
    ensures a + (w1 + (o + (w2 + b))) == (a + w1) + o + (w2 + b)
  {
  }
  // ------------------------------------------------------------- peeled rightly

  /** The literals hold no unbalanced parentheses. */
  ghost predicate LiteralsBalance(e: Exp) {
    match e
    case Leaf(text) => BP.RawBalanced(text)
    case Call(_, arg) => LiteralsBalance(arg)
    case Args(list) => LiteralsBalance(list)
    case Paren(inner) => LiteralsBalance(inner)
    case Bin(l, _, _, _, r) => LiteralsBalance(l) && LiteralsBalance(r)
  }

  lemma {:induction false} RawSpell(e: Exp)
    requires LexOk(e) && LiteralsBalance(e)
    ensures BP.RawBalanced(Spell(e))
  {
    match e
    case Leaf(_) =>
    case Call(name, arg) =>
      RawSpell(arg);
      BP.RawGroup(Spell(arg));
      BP.NoParensRaw(name, 1);
      BP.RawBalancedConcat(name, "(" + Spell(arg) + ")");
    case Args(list) =>
      RawSpell(list);
      BP.RawGroup(Spell(list));
    case Paren(inner) =>
      RawSpell(inner);
      BP.RawGroup(Spell(inner));
    case Bin(l, w1, op, w2, r) =>
      RawSpell(l);
      RawSpell(r);
      OpPlain(op);
      RawOp(Spell(l), w1, OpText(op), w2, Spell(r));
  }

  lemma {:induction false} RawOp(a: string, w1: string, o: string, w2: string, b: string)
    requires BP.RawBalanced(a) && BP.RawBalanced(b) && Spaces(w1) && Spaces(w2) && BP.NoParens(o)
    ensures BP.RawBalanced(a + (w1 + (o + (w2 + b))))
  {
    BP.RawJoin(a, w1, o, w2, b);
    Shifted(a, w1, o, w2, b);
  }

  lemma {:induction false} SrcTame(e: Exp)
    requires LexOk(e) && !e.Args? && LiteralsBalance(e)
    ensures BP.Tame(ToSrc(e))
  {
    RawSpell(e);
    match e
    case Leaf(_) =>
    case Call(name, arg) =>
      if name == "not" {
        SrcTame(arg);
      } else {
        assert Spell(e)[0] == name[0];
      }
    case Paren(inner) => SrcTame(inner);
    case Bin(l, w1, op, w2, r) =>
      SrcTame(l);
      if Boolean(op) {
        SrcTame(r);
      } else {
        RawSpell(l);
        SpellEdges(l);
        OpEnds(op);
        BP.NotWrapped(Spell(l), w1 + (OpText(op) + (w2 + Spell(r))));
      }
  }

  // ------------------------------------------------------------------- the sense

  /** A predicate as a parse tree, runs of "and" and of "or" flat. */
  datatype Sense =
    | Holds(e: Exp)
    | Fails(arg: Sense)
    | All(args: seq<Sense>)
    | Any(args: seq<Sense>)

  function AllArgs(x: Sense): seq<Sense> {
    if x.All? then x.args else [x]
  }

  function AnyArgs(x: Sense): seq<Sense> {
    if x.Any? then x.args else [x]
  }

  function SenseOf(e: Exp): Sense {
    match e
    case Call(name, arg) => if name == "not" then Fails(SenseOf(arg)) else Holds(Bare(e))
    case Paren(inner) => SenseOf(inner)
    case Bin(l, _, op, _, r) =>
      if op == And then All(AllArgs(SenseOf(l)) + AllArgs(SenseOf(r)))
      else if op == Or then Any(AnyArgs(SenseOf(l)) + AnyArgs(SenseOf(r)))
      else Holds(Bare(e))
    case _ => Holds(Bare(e))
  }

  /** The passes, which take grouping away, leave all this. */
  lemma {:induction false} BareKeeps(t: Exp)
    ensures Bare(Bare(t)) == Bare(t) && SenseOf(Bare(t)) == SenseOf(t)
    ensures (Condition(Bare(t)) <==> Condition(t)) && (LiteralsBalance(Bare(t)) <==> LiteralsBalance(t))
  {
    match t
    case Leaf(_) =>
    case Call(_, arg) => BareKeeps(arg);
    case Args(list) => BareKeeps(list);
    case Paren(inner) => BareKeeps(inner);
    case Bin(l, _, _, _, r) =>
      BareKeeps(l);
      BareKeeps(r);
  }

  /** The expression a text spells, if any. */
  ghost predicate Spells(e: Exp, text: string) {
    LexOk(e) && !e.Args? && PrecOk(e) && Spell(e) == text
  }

  ghost function ReadText(text: string): Exp {
    if e :| Spells(e, text) then e else Leaf("")
  }

  lemma {:induction false} ReadSpelled(e: Exp)
    requires LexOk(e) && !e.Args? && PrecOk(e)
    ensures ReadText(Spell(e)) == e
  {
    assert Spells(e, Spell(e));
    OneReading(ReadText(Spell(e)), e);
  }

  ghost function FormSense(f: B.Form): Sense
    decreases f, 1
  {
    match f
    case Lit(text) => Holds(Bare(ReadText(text)))
    case Neg(a) => Fails(FormSense(a))
    case Conj(fs) => All(FormSenses(fs))
    case Disj(fs) => Any(FormSenses(fs))
  }

  ghost function FormSenses(fs: seq<B.Form>): seq<Sense>
    decreases fs, 0
  {
    if fs == [] then [] else [FormSense(fs[0])] + FormSenses(fs[1..])
  }

  lemma {:induction false} SensesConcat(fs: seq<B.Form>, gs: seq<B.Form>)
    ensures FormSenses(fs + gs) == FormSenses(fs) + FormSenses(gs)
  {
    if fs == [] {
      assert fs + gs == gs;
    } else {
      assert (fs + gs)[1..] == fs[1..] + gs;
      SensesConcat(fs[1..], gs);
    }
  }

  lemma {:induction false} SenseParts(f: B.Form)
    ensures FormSenses(B.Factors(f)) == AllArgs(FormSense(f)) && FormSenses(B.Terms(f)) == AnyArgs(FormSense(f))
  {
    assert [f][1..] == [];
  }

  /** The flattened syntax of the boolean layer fixes the sense. */
  lemma {:induction false} FlatSense(e: Exp)
    requires LexOk(e) && !e.Args? && PrecOk(e) && Condition(e)
    ensures FormSense(B.Flatten(ToSrc(e))) == SenseOf(e)
    decreases e
  {
    match e
    case Leaf(_) => ReadSpelled(e);
    case Call(name, arg) =>
      if name == "not" {
        FlatSense(arg);
        FlatNot(ToSrc(arg));
      } else {
        ReadSpelled(e);
      }
    case Paren(inner) => FlatSense(inner);
    case Bin(l, w1, op, w2, r) =>
      if Boolean(op) {
        FlatSense(l);
        FlatSense(r);
        FlatRun(e);
      } else {
        ReadSpelled(e);
      }
  }

  lemma {:induction false} FlatNot(a: B.Src)
    ensures B.Flatten(B.Not("", B.Group("", a, ""))) == B.Neg(B.Flatten(a))
  {
    assert B.Flatten(B.Group("", a, "")) == B.Flatten(a);
  }

  lemma {:induction false} FlatRun(e: Exp)
    requires e.Bin? && Boolean(e.op)
    requires FormSense(B.Flatten(ToSrc(e.left))) == SenseOf(e.left) && FormSense(B.Flatten(ToSrc(e.right))) == SenseOf(e.right)
    ensures FormSense(B.Flatten(ToSrc(e))) == SenseOf(e)
  {
    var f, g := B.Flatten(ToSrc(e.left)), B.Flatten(ToSrc(e.right));
    SenseParts(f);
    SenseParts(g);
    SensesConcat(B.Factors(f), B.Factors(g));
    SensesConcat(B.Terms(f), B.Terms(g));
  }

  // ------------------------------------------------------------ the two layers

  /** What a caller can see of a predicate before the two steps: it is lexically one,
      obeys precedence, no accepted pair is out of place, and no literal holds an
      unbalanced parenthesis. */
  ghost predicate Proper(t: Exp) {
    LexOk(t) && !t.Args? && PrecOk(t) && Sound(t, None, None) && Condition(t) && LiteralsBalance(t)
  }

  /** The two steps, one after the other. */
  function Both(s: string): string {
    BoolCanon.CanonBool(Strip(CanonArith(s)))
  }

  /** After the first step the text is a clean spelling of the boolean layer, and its
      flattened syntax has the sense of the predicate. */
  lemma {:induction false} Handed(t: Exp, v: Exp, n: nat)
    requires Proper(t) && n == MAX_PASSES && v == Drops(t, n)
    ensures var u := ToSrc(v);
            && B.Wf(u) && BP.Clean(u) && BT.Faithful(u)
            && Strip(CanonArith(Spell(t))) == B.Spell(u) && FormSense(B.Flatten(u)) == SenseOf(t)
  {
    SoundKeepsMeaning(t, n);
    BareKeeps(t);
    BareKeeps(v);
    SrcOk(v);
    SrcTame(v);
    BP.TameClean(ToSrc(v));
    FlatSense(v);
    SpellEdges(v);
    StripTrimmed(Spell(v));
  }

  /** Equal results mean equal parse trees, up to the nesting of runs. */
  lemma {:induction false} EqualMixedEqualSense(t: Exp, u: Exp)
    requires Proper(t) && Proper(u) && Both(Spell(t)) == Both(Spell(u))
    ensures SenseOf(t) == SenseOf(u)
  {
    var n := MAX_PASSES;
    Handed(t, Drops(t, n), n);
    Handed(u, Drops(u, n), n);
    BT.SameCanonicalForm(ToSrc(Drops(t, n)), ToSrc(Drops(u, n)));
  }
}
