/** Exactly when a group directly after "not" comes out right. */
module BoolNot {
  // The code reads such a group up to the parenthesis that closes when those inside
  // literals are counted. When that is not the group's own, it reads too little, or the
  // group's own as well; all that differs is the end of the last operand.

  import opened Lex
  import opened Splitter
  import opened BoolCanon
  import opened BoolGrammar
  import opened BoolForms
  import opened BoolPeel
  import opened BoolCorrect
  import opened BoolTheorems
  import opened BoolGroups
  import opened BoolCounts

  // -------------------------------------------------------- the last operand

  /** What stands last in a spelling, under no group. */
  function Last(e: Src): Src {
    match e
    case Or(_, _, _, r) => Last(r)
    case And(_, _, _, r) => Last(r)
    case Not(gap, o) => if gap == "" then e else Last(o)
    case _ => e
  }

  /** What stands before it. */
  function Front(e: Src): string {
    match e
    case Or(l, w1, w2, r) => (Spell(l) + w1) + "or" + (w2 + Front(r))
    case And(l, w1, w2, r) => (Spell(l) + w1) + "and" + (w2 + Front(r))
    case Not(gap, o) => if gap == "" then "" else "not" + (gap + Front(o))
    case _ => ""
  }

  /** The spelling with q for its last operand. */
  function Swap(e: Src, q: string): string {
    Front(e) + q
  }

  lemma {:induction false} SwapIs(e: Src, q: string)
    ensures e.Or? ==> Swap(e, q) == (Spell(e.left) + e.w1) + "or" + (e.w2 + Swap(e.right, q))
    ensures e.And? ==> Swap(e, q) == (Spell(e.left) + e.w1) + "and" + (e.w2 + Swap(e.right, q))
    ensures e.Not? && e.gap != "" ==> Swap(e, q) == "not" + (e.gap + Swap(e.operand, q))
    ensures !e.Or? && !e.And? && !(e.Not? && e.gap != "") ==> Swap(e, q) == q && Last(e) == e
  {
  }

  lemma {:induction false} SwapBack(e: Src)
    ensures Swap(e, Spell(Last(e))) == Spell(e)
  {
    SwapIs(e, Spell(Last(e)));
    match e
    case Or(_, _, _, r) => SwapBack(r);
    case And(_, _, _, r) => SwapBack(r);
    case Not(gap, o) =>
      if gap != "" {
        SwapBack(o);
      }
    case _ =>
  }

  lemma {:induction false} LastKept(e: Src)
    requires Wf(e) && Inside(e) && Faithful(e) && (e.Or? || e.And? || Peels(e))
    ensures var l := Last(e);
            Wf(l) && Clean(l) && Faithful(l) && !l.Or? && !l.And? && (l.Not? ==> l.gap == "" && l.operand.Group?)
  {
    match e
    case Or(_, _, _, r) => LastKept(r);
    case And(_, _, _, r) => LastKept(r);
    case Not(gap, o) =>
      if gap != "" {
        LastKept(o);
      }
    case _ =>
  }

  /** q can stand for the operand l: it begins alike, holds the same ink and is not
      cut. */
  ghost predicate Stands(q: string, l: Src) {
    && q != "" && Spell(l) != "" && q[0] == Spell(l)[0] && !IsSpace(q[0]) && !IsSpace(q[|q| - 1])
    && NoCut(q, "or") && NoCut(q, "and") && Ink(q) == Ink(Spell(l))
  }

  lemma {:induction false} SwapEdges(e: Src, q: string)
    requires Wf(e) && Stands(q, Last(e))
    ensures Swap(e, q) != "" && Spell(e) != "" && Swap(e, q)[0] == Spell(e)[0]
    ensures Trimmed(Swap(e, q)) && Ink(Swap(e, q)) == Ink(Spell(e))
  {
    SwapBack(e);
    SpellShape(e);
    InkConcat(Front(e), q);
    InkConcat(Front(e), Spell(Last(e)));
  }

  lemma {:induction false} ApartKept(op: string, w: string, x: string, y: string)
    requires Apart(op, w + x) && x != "" && y != "" && x[0] == y[0]
    ensures Apart(op, w + y)
  {
    assert (w + x)[0] == (w + y)[0];
  }

  lemma {:induction false} SwapNoCut(e: Src, q: string)
    requires Wf(e) && Stands(q, Last(e))
    ensures !e.Or? ==> NoCut(Swap(e, q), "or")
    ensures !e.Or? && !e.And? ==> NoCut(Swap(e, q), "and")
  {
    SwapIs(e, q);
    WordsNoCut();
    match e
    case Or(_, _, _, _) =>
    case And(l, w1, w2, r) =>
      SwapNoCut(r, q);
      SwapEdges(r, q);
      ApartKept("and", w2, Spell(r), Swap(r, q));
      SpellShape(l);
      SpellNoOr(l);
      JoinNoCut(Spell(l), w1, "and", w2, Swap(r, q), "or");
    case Not(gap, o) =>
      if gap != "" {
        SwapNoCut(o, q);
        SwapEdges(o, q);
        NotNoCut(gap, Swap(o, q), "or");
        NotNoCut(gap, Swap(o, q), "and");
      }
    case _ =>
  }

  // ------------------------------------------------------------ ink and front

  /** Printing keeps the ink. */
  lemma {:induction false} PrintInk(e: Src)
    requires Wf(e)
    ensures Ink(Print(Flatten(e))) == Ink(Spell(e))
    decreases e
  {
    match e
    case Atom(_) =>
    case Tail(_, _, _, _) =>
    case Group(g1, inner, g2) =>
      PrintInk(inner);
      GroupInk(g1, Spell(inner), g2);
    case Not(gap, o) =>
      PrintInk(o);
      NegInk(Flatten(o));
      BlankCounts(gap);
      WordCounts("not");
      InkConcat(gap, Spell(o));
      InkConcat("not", gap + Spell(o));
    case And(l, w1, w2, r) =>
      PrintInk(l);
      PrintInk(r);
      RunInk(e);
    case Or(l, w1, w2, r) =>
      PrintInk(l);
      PrintInk(r);
      RunInk(e);
  }

  lemma {:induction false} GroupInk(g1: string, x: string, g2: string)
    requires Blank(g1) && Blank(g2)
    ensures Ink("(" + (g1 + x + g2) + ")") == Ink(x)
  {
    BlankCounts(g1);
    BlankCounts(g2);
    InkConcat(g1, x);
    InkConcat(g1 + x, g2);
    GroupCounts(g1 + x + g2);
  }

  lemma {:induction false} NegInk(f: Form)
    ensures Ink(Print(Neg(f))) == 3 + Ink(Print(f))
  {
    NegPrints(f);
    NotPrefixCounts(NegOperand(f));
    GroupCounts(Print(f));
  }

  lemma {:induction false} RunInk(e: Src)
    requires Wf(e) && (e.And? || e.Or?)
    requires Ink(Print(Flatten(e.left))) == Ink(Spell(e.left)) && Ink(Print(Flatten(e.right))) == Ink(Spell(e.right))
    ensures Ink(Print(Flatten(e))) == Ink(Spell(e))
  {
    var f, g := Flatten(e.left), Flatten(e.right);
    RunPrinting(e);
    GroupCounts(Print(f));
    GroupCounts(Print(g));
    WordsAre();
    if e.And? {
      SepCounts("and", " and ");
      JoinInk(PrintOperand(f, true), " and ", PrintOperand(g, true));
      SpellInk(Spell(e.left), e.w1, "and", e.w2, Spell(e.right));
    } else {
      SepCounts("or", " or ");
      JoinInk(Print(f), " or ", Print(g));
      SpellInk(Spell(e.left), e.w1, "or", e.w2, Spell(e.right));
    }
  }

  lemma {:induction false} RunPrinting(e: Src)
    requires Wf(e) && (e.And? || e.Or?)
    ensures e.And? ==> Print(Flatten(e)) == PrintOperand(Flatten(e.left), true) + " and " + PrintOperand(Flatten(e.right), true)
    ensures e.Or? ==> Print(Flatten(e)) == Print(Flatten(e.left)) + " or " + Print(Flatten(e.right))
  {
    FlattenOk(e.left);
    FlattenOk(e.right);
    JoinPrints(Flatten(e.left), Flatten(e.right));
  }

  lemma {:induction false} JoinInk(a: string, m: string, b: string)
    ensures Ink(a + m + b) == Ink(a) + Ink(m) + Ink(b)
  {
    InkConcat(a, m);
    InkConcat(a + m, b);
  }

  lemma {:induction false} SpellInk(a: string, w1: string, op: string, w2: string, b: string)
    requires Blank(w1) && Blank(w2) && IsWord(op)
    ensures Ink((a + w1) + op + (w2 + b)) == Ink(a) + |op| + Ink(b)
    ensures Lead((a + w1) + op + (w2 + b)) == Lead(a)
  {
    BlankCounts(w1);
    BlankCounts(w2);
    WordCounts(op);
    InkConcat(a, w1);
    InkConcat(w2, b);
    JoinInk(a + w1, op, w2 + b);
    LeadConcat(a, w1);
    LeadConcat(a + w1, op + (w2 + b));
    assert (a + w1) + op + (w2 + b) == (a + w1) + (op + (w2 + b));
  }

  /** A group stands first. */
  predicate GroupFirst(e: Src) {
    match e
    case Or(l, _, _, _) => GroupFirst(l)
    case And(l, _, _, _) => GroupFirst(l)
    case Group(_, _, _) => true
    case _ => false
  }

  /** Where no group stands first, printing keeps the parentheses in front. */
  lemma {:induction false} PrintLead(e: Src)
    requires Wf(e) && !GroupFirst(e)
    ensures Lead(Print(Flatten(e))) == Lead(Spell(e))
  {
    match e
    case Atom(_) =>
    case Tail(_, _, _, _) =>
    case Not(gap, o) =>
      NegPrints(Flatten(o));
      NotPrefixCounts(NegOperand(Flatten(o)));
      WordCounts("not");
    case And(l, w1, w2, r) =>
      PrintLead(l);
      RunPrinting(e);
      FlatKind(l);
      WordsAre();
      JoinLeads(Print(Flatten(l)), " and ", PrintOperand(Flatten(r), true));
      SpellInk(Spell(l), w1, "and", w2, Spell(r));
    case Or(l, w1, w2, r) =>
      PrintLead(l);
      RunPrinting(e);
      WordsAre();
      JoinLeads(Print(Flatten(l)), " or ", Print(Flatten(r)));
      SpellInk(Spell(l), w1, "or", w2, Spell(r));
  }

  /** A group that stands first balances, and the count returns to zero after it. */
  lemma {:induction false} FirstGroup(e: Src) returns (a: string, b: string)
    requires Inside(e) && GroupFirst(e) && (e.Or? || e.And? || Peels(e))
    ensures Spell(e) == a + b && a != "" && RawBalanced(a)
  {
    match e
    case Or(l, w1, w2, r) =>
      var c;
      a, c := FirstGroup(l);
      b := c + w1 + "or" + (w2 + Spell(r));
    case And(l, w1, w2, r) =>
      var c;
      a, c := FirstGroup(l);
      b := c + w1 + "and" + (w2 + Spell(r));
    case Group(g1, inner, g2) =>
      PeeledExactly(g1 + Spell(inner) + g2);
      RawGroup(g1 + Spell(inner) + g2);
      a, b := Spell(e), "";
  }
  // ------------------------------------- the whole from its last operand

  /** No run on the way to the last operand looks like a group when q is that
      operand. A run inside a run of the same operator is not looked at. */
  ghost predicate Unpeeled(e: Src, q: string, looked: bool) {
    match e
    case Or(_, _, _, r) => (looked ==> !Wrapped(Swap(e, q))) && Unpeeled(r, q, !r.Or?)
    case And(_, _, _, r) => (looked ==> !Wrapped(Swap(e, q))) && Unpeeled(r, q, !r.And?)
    case Not(gap, o) => gap == "" || Unpeeled(o, q, true)
    case _ => true
  }

  /** c is what is printed for an operand that should print as g; or it is not, and
      no parentheses around either make them alike. */
  ghost predicate Prints(c: string, g: string, run: bool, ok: bool) {
    if ok then c == g else c != g && c != "(" + g + ")" && (run || "(" + c + ")" != g)
  }

  ghost predicate Comes(e: Src, q: string, ok: bool) {
    Prints(CanonBool(Swap(e, q)), Print(Flatten(e)), e.Or? || e.And?, ok)
  }

  lemma {:induction false} OperandIs(x: string, parent: int)
    requires Trimmed(x)
    ensures CanonOperand(x, parent) == CanonBool(x) || CanonOperand(x, parent) == "(" + CanonBool(x) + ")"
    ensures parent == OR_PREC || !Wrapped(x) ==> CanonOperand(x, parent) == CanonBool(x)
  {
    StripTrimmed(x);
    if Wrapped(x) {
      var y := Strip(x[1..|x| - 1]);
      var w1, w2 := StripParts(x[1..|x| - 1]);
      StripTrimmed(y);
      assert CanonBool(y) == CanonBare(Unwrap(y)) && CanonBool(x) == CanonBare(Unwrap(x));
    }
  }

  /** The negation of a right operand is right, that of a wrong one is not. */
  lemma {:induction false} NegationComes(c: string, e: Src, ok: bool)
    requires Wf(e) && Clean(e) && Faithful(e) && Prints(c, Print(Flatten(e)), e.Or? || e.And?, ok)
    ensures Negate(c) == Print(Neg(Flatten(e))) <==> ok
  {
    if ok {
      NegationRight(e);
    } else {
      FlatKind(e);
      NegationWrong(c, Flatten(e), e.Or? || e.And?);
    }
  }

  lemma {:induction false} NegationRight(e: Src)
    requires Wf(e) && Clean(e) && Faithful(e)
    ensures Negate(Print(Flatten(e))) == Print(Neg(Flatten(e)))
  {
    ReadSize(e);
    ReadClean(e);
    FlattenOk(e);
    PrecPrint(Flatten(e));
  }

  lemma {:induction false} NegationWrong(c: string, f: Form, run: bool)
    requires Prints(c, Print(f), run, false) && (run ==> f.Conj? || f.Disj?)
    ensures Negate(c) != Print(Neg(f))
  {
    NegPrints(f);
    var x := if TopPrec(c) < NOT_PREC then "(" + c + ")" else c;
    assert Negate(c) == "not " + x by {
      assert "not (" + c + ")" == "not " + ("(" + c + ")");
    }
    if Negate(c) == Print(Neg(f)) {
      SameAfterNot(x, NegOperand(f));
      Inner(c, Print(f));
    }
  }

  lemma {:induction false} SameAfterNot(x: string, y: string)
    requires "not " + x == "not " + y
    ensures x == y
  {
    assert ("not " + x)[4..] == x && ("not " + y)[4..] == y;
  }

  lemma {:induction false} Inner(x: string, y: string)
    ensures "(" + x + ")" == "(" + y + ")" ==> x == y
  {
    assert ("(" + x + ")")[1..|x| + 1] == x && ("(" + y + ")")[1..|y| + 1] == y;
  }

  lemma {:induction false} NotComes(e: Src, q: string, ok: bool)
    requires Wf(e) && Clean(e) && Faithful(e) && e.Not? && e.gap != "" && Stands(q, Last(e))
    requires Comes(e.operand, q, ok)
    ensures Comes(e, q, ok)
  {
    var o, x := e.operand, Swap(e.operand, q);
    SwapIs(e, q);
    SwapNoCut(e, q);
    SwapEdges(e, q);
    SwapEdges(o, q);
    SpacedRead(e.gap, x);
    NegationComes(CanonBool(x), o, ok);
    NegPrints(Flatten(o));
    assert Print(Flatten(e))[0] == 'n' && CanonBool(Swap(e, q))[0] == 'n';
  }

  lemma {:induction false} SpacedRead(gap: string, x: string)
    requires Blank(gap) && gap != "" && gap[0] == ' ' && x != "" && Trimmed(x)
    requires var s := "not" + (gap + x); NoCut(s, "or") && NoCut(s, "and")
    ensures CanonBool("not" + (gap + x)) == Negate(CanonBool(x))
  {
    var s := "not" + (gap + x);
    SpacedEdges(gap, x, s);
    StripTrimmed(s);
    SplitWhole(s, "or");
    SplitWhole(s, "and");
    BareNot(s);
    CanonInside(gap[1..], x);
  }

  lemma {:induction false} SpacedEdges(gap: string, x: string, s: string)
    requires gap != "" && gap[0] == ' ' && x != "" && s == "not" + (gap + x)
    ensures s[0] == 'n' && s[|s| - 1] == x[|x| - 1] && StartsWith(s, "not ") && s[4..] == gap[1..] + x + ""
  {
    assert s[3] == ' ';
    AfterNot(gap, x);
  }

  lemma {:induction false} CanonInside(w: string, x: string)
    requires Blank(w) && Trimmed(x)
    ensures CanonBool(w + x + "") == CanonBool(x)
  {
    StripOf(w, x, "");
    StripTrimmed(x);
  }

  // ---------------------------------------------------------------------- runs

  /** The parts of a run, and its right end. */
  function OrParts(e: Src, q: string): seq<string> {
    if e.Or? then SpellAll(OrOperands(e.left)) + OrParts(e.right, q) else [Swap(e, q)]
  }

  function AndParts(e: Src, q: string): seq<string> {
    if e.And? then SpellAll(AndOperands(e.left)) + AndParts(e.right, q) else [Swap(e, q)]
  }

  lemma {:induction false} OrSwap(e: Src, q: string, w: string)
    requires Wf(e) && Stands(q, Last(e)) && Blank(w)
    ensures Split(w + Swap(e, q) + "", "or") == OrParts(e, q)
  {
    SwapIs(e, q);
    SwapEdges(e, q);
    WordsNoCut();
    if e.Or? {
      JoinedApart(e, q, "or");
      SplitJoined(w, Spell(e.left), e.w1, "or", e.w2, Swap(e.right, q), "");
      OrSplit(e.left, w, e.w1);
      OrSwap(e.right, q, e.w2);
    } else {
      SwapNoCut(e, q);
      OneText(w, Swap(e, q), "or");
    }
  }

  lemma {:induction false} AndSwap(e: Src, q: string, w: string)
    requires Wf(e) && !e.Or? && Stands(q, Last(e)) && Blank(w)
    ensures Split(w + Swap(e, q) + "", "and") == AndParts(e, q)
  {
    SwapIs(e, q);
    SwapEdges(e, q);
    WordsNoCut();
    if e.And? {
      JoinedApart(e, q, "and");
      SplitJoined(w, Spell(e.left), e.w1, "and", e.w2, Swap(e.right, q), "");
      AndSplit(e.left, w, e.w1);
      AndSwap(e.right, q, e.w2);
    } else {
      SwapNoCut(e, q);
      OneText(w, Swap(e, q), "and");
    }
  }

  lemma {:induction false} JoinedApart(e: Src, q: string, op: string)
    requires Wf(e) && Stands(q, Last(e)) && ((e.Or? && op == "or") || (e.And? && op == "and"))
    ensures Solid(Spell(e.left)) && Swap(e.right, q) != "" && Apart(op, e.w2 + Swap(e.right, q))
  {
    SwapEdges(e.right, q);
    ApartKept(op, e.w2, Spell(e.right), Swap(e.right, q));
    SpellShape(e.left);
  }

  lemma {:induction false} OneText(w: string, x: string, op: string)
    requires Blank(w) && x != "" && Trimmed(x) && IsWord(op) && NoCut(x, op)
    ensures Split(w + x + "", op) == [x]
  {
    BlankNoCut(w, op);
    NoCutConcat(w, x, op);
    assert w + x + "" == w + x;
    SplitWhole(w + x, op);
    StripOf(w, x, "");
  }

  /** Parts short enough to be canonicalised under the bound n. */
  predicate Short(ps: seq<string>, n: nat) {
    forall p :: p in ps ==> |p| < n
  }

  function OrOut(ps: seq<string>, n: nat): string
    requires Short(ps, n)
  {
    Rejoin(CanonAll(ps, 1, n), " or ")
  }

  function AndOut(ps: seq<string>, n: nat): string
    requires Short(ps, n)
  {
    Rejoin(CanonAll(ps, 2, n), " and ")
  }

  /** The rest of an "or" run: right when its last operand is, and only then. */
  lemma {:induction false} OrRest(e: Src, q: string, n: nat, ok: bool)
    requires Wf(e) && Inside(e) && (e.Or? || Peels(e)) && Faithful(e) && Stands(q, Last(e))
    requires Comes(Last(e), q, ok) && (ok ==> Last(e).Not?) && Short(OrParts(e, q), n)
    ensures OrOut(OrParts(e, q), n) == Print(Flatten(e)) <==> ok && Unpeeled(e, q, !e.Or?)
    ensures e.Or? ==> Lead(OrOut(OrParts(e, q), n)) == Lead(Print(Flatten(e)))
    decreases e, if e.Or? then 1 else 4
  {
    SwapEdges(e, q);
    if e.Or? {
      OrRest(e.right, q, n, ok);
      OrLink(e, q, n);
      RunPrinting(e);
      WordsAre();
      SameRun(Print(Flatten(e.left)), " or ", OrOut(OrParts(e.right, q), n), Print(Flatten(e.right)));
    } else {
      WholeComes(e, q, ok);
      CanonAllOne(Swap(e, q), 1, n);
      OperandIs(Swap(e, q), 1);
    }
  }

  lemma {:induction false} SameRun(g: string, sep: string, z: string, f: string)
    requires sep == " or " || sep == " and "
    ensures g + sep + z == g + sep + f <==> z == f
    ensures Lead(g + sep + z) == Lead(g + sep + f)
  {
    WordsAre();
    JoinLeads(g, sep, z);
    JoinLeads(g, sep, f);
    SamePrefix(g + sep, z, f);
  }

  lemma {:induction false} SamePrefix(a: string, x: string, y: string)
    ensures a + x == a + y <==> x == y
  {
    assert (a + x)[|a|..] == x && (a + y)[|a|..] == y;
  }

  lemma {:induction false} OrLink(e: Src, q: string, n: nat)
    requires Wf(e) && Inside(e) && Faithful(e) && e.Or? && Stands(q, Last(e)) && Short(OrParts(e, q), n)
    ensures Short(OrParts(e.right, q), n)
    ensures OrOut(OrParts(e, q), n) == Print(Flatten(e.left)) + " or " + OrOut(OrParts(e.right, q), n)
  {
    var ps, qs := SpellAll(OrOperands(e.left)), OrParts(e.right, q);
    forall p | p in ps || p in qs
      ensures |p| < n
    {
      assert p in OrParts(e, q);
    }
    OrJoin(e.left, n);
    ReadSize(e.left);
    RunPrints(Flatten(e.left));
    CanonAllConcat(ps, qs, 1, n);
    PartsThere(e.right, q);
    RejoinConcat(CanonAll(ps, 1, n), CanonAll(qs, 1, n), " or ");
  }

  lemma {:induction false} PartsThere(e: Src, q: string)
    ensures OrParts(e, q) != [] && AndParts(e, q) != []
  {
    if e.Or? {
      PartsThere(e.right, q);
    } else if e.And? {
      PartsThere(e.right, q);
    }
  }

  lemma {:induction false} AndRest(e: Src, q: string, n: nat, ok: bool)
    requires Wf(e) && !e.Or? && Inside(e) && (e.And? || Peels(e)) && Faithful(e) && Stands(q, Last(e))
    requires Comes(Last(e), q, ok) && (ok ==> Last(e).Not?) && Short(AndParts(e, q), n)
    ensures AndOut(AndParts(e, q), n) == PrintOperand(Flatten(e), true) <==> ok && Unpeeled(e, q, !e.And?)
    ensures e.And? ==> Lead(AndOut(AndParts(e, q), n)) == Lead(Print(Flatten(e)))
    decreases e, if e.And? then 1 else 4
  {
    SwapEdges(e, q);
    if e.And? {
      AndRest(e.right, q, n, ok);
      AndLink(e, q, n);
      RunPrinting(e);
      WordsAre();
      SameRun(PrintOperand(Flatten(e.left), true), " and ", AndOut(AndParts(e.right, q), n),
              PrintOperand(Flatten(e.right), true));
      assert PrintOperand(Flatten(e), true) == Print(Flatten(e));
    } else {
      WholeComes(e, q, ok);
      CanonAllOne(Swap(e, q), 2, n);
      LastAnd(e, q, ok && Unpeeled(e, q, true));
    }
  }

  lemma {:induction false} AndLink(e: Src, q: string, n: nat)
    requires Wf(e) && Inside(e) && Faithful(e) && e.And? && Stands(q, Last(e)) && Short(AndParts(e, q), n)
    ensures Short(AndParts(e.right, q), n)
    ensures AndOut(AndParts(e, q), n) == PrintOperand(Flatten(e.left), true) + " and " + AndOut(AndParts(e.right, q), n)
  {
    var ps, qs := SpellAll(AndOperands(e.left)), AndParts(e.right, q);
    forall p | p in ps || p in qs
      ensures |p| < n
    {
      assert p in AndParts(e, q);
    }
    AndJoin(e.left, n);
    ReadSize(e.left);
    RunPrints(Flatten(e.left));
    CanonAllConcat(ps, qs, 2, n);
    PartsThere(e.right, q);
    RejoinConcat(CanonAll(ps, 2, n), CanonAll(qs, 2, n), " and ");
  }

  /** The last operand of an "and" run. */
  lemma {:induction false} LastAnd(e: Src, q: string, ok: bool)
    requires Wf(e) && !e.Or? && !e.And? && Stands(q, Last(e)) && Comes(e, q, ok) && (ok ==> Last(e).Not?)
    ensures CanonOperand(Swap(e, q), 2) == PrintOperand(Flatten(e), true) <==> ok
  {
    var x, c, g := Swap(e, q), CanonBool(Swap(e, q)), Print(Flatten(e));
    SwapEdges(e, q);
    OperandIs(x, 2);
    Inner(c, g);
    if ok {
      FlatKind(e);
      LastNot(e);
      assert x[0] == 'n';
    }
  }

  lemma {:induction false} LastNot(e: Src)
    requires Wf(e) && Last(e).Not? && !e.Or? && !e.And?
    ensures e.Not? && Spell(e)[0] == 'n'
  {
  }

  // -------------------------------------------------------------- the whole

  lemma {:induction false} WholeComes(e: Src, q: string, ok: bool)
    requires Wf(e) && Clean(e) && Faithful(e) && Stands(q, Last(e)) && Comes(Last(e), q, ok) && (ok ==> Last(e).Not?)
    ensures Comes(e, q, ok && Unpeeled(e, q, true))
    decreases e, 3
  {
    SwapIs(e, q);
    if e.Or? || e.And? {
      if Wrapped(Swap(e, q)) {
        PeeledRun(e, q);
      } else if e.Or? {
        OrWhole(e, q, ok);
      } else {
        AndWhole(e, q, ok);
      }
    } else if e.Not? && e.gap != "" {
      WholeComes(e.operand, q, ok);
      NotComes(e, q, ok && Unpeeled(e.operand, q, true));
    }
  }

  lemma {:induction false} OrWhole(e: Src, q: string, ok: bool)
    requires Wf(e) && Clean(e) && Faithful(e) && Stands(q, Last(e)) && Comes(Last(e), q, ok) && (ok ==> Last(e).Not?)
    requires e.Or? && !Wrapped(Swap(e, q))
    ensures Comes(e, q, ok && Unpeeled(e, q, true))
    decreases e, 2
  {
    var x := Swap(e, q);
    SwapEdges(e, q);
    StripTrimmed(x);
    OrSwap(e, q, "");
    assert "" + x + "" == x;
    PartsLength(x, "or");
    PartsThere(e.right, q);
    OrRest(e, q, |x|, ok);
    GroupCounts(Print(Flatten(e)));
    assert |OrParts(e, q)| > 1;
    assert CanonBool(x) == OrOut(OrParts(e, q), |x|);
  }

  lemma {:induction false} AndWhole(e: Src, q: string, ok: bool)
    requires Wf(e) && Clean(e) && Faithful(e) && Stands(q, Last(e)) && Comes(Last(e), q, ok) && (ok ==> Last(e).Not?)
    requires e.And? && !Wrapped(Swap(e, q))
    ensures Comes(e, q, ok && Unpeeled(e, q, true))
    decreases e, 2
  {
    var x := Swap(e, q);
    SwapEdges(e, q);
    StripTrimmed(x);
    OrSwap(e, q, "");
    AndSwap(e, q, "");
    assert "" + x + "" == x;
    PartsLength(x, "and");
    PartsThere(e.right, q);
    AndRest(e, q, |x|, ok);
    GroupCounts(Print(Flatten(e)));
    FlatKind(e);
    assert |OrParts(e, q)| == 1 && |AndParts(e, q)| > 1;
    assert CanonBool(x) == AndOut(AndParts(e, q), |x|);
  }

  /** A run that is taken for a group loses its first parenthesis. */
  lemma {:induction false} PeeledRun(e: Src, q: string)
    requires Wf(e) && Inside(e) && (e.Or? || e.And?) && Stands(q, Last(e)) && Wrapped(Swap(e, q))
    ensures Comes(e, q, false)
  {
    SwapEdges(e, q);
    SwapLead(e, q);
    NoGroupFirst(e, q);
    PrintLead(e);
    PrintInk(e);
    PeeledDiffers(Swap(e, q), Print(Flatten(e)));
  }

  lemma {:induction false} PeeledDiffers(x: string, g: string)
    requires Trimmed(x) && Wrapped(x) && Lead(g) == Lead(x) && Ink(g) == Ink(x)
    ensures CanonBool(x) != g && CanonBool(x) != "(" + g + ")"
  {
    var y := x[1..|x| - 1];
    assert x == "(" + y + ")";
    StripTrimmed(x);
    assert CanonBool(x) == CanonBool(y);
    GroupCounts(g);
    GroupCounts(y);
    CanonFades(y);
  }

  lemma {:induction false} SwapLead(e: Src, q: string)
    requires Wf(e) && (e.Or? || e.And?)
    ensures Lead(Swap(e, q)) == Lead(Spell(e))
  {
    SwapIs(e, q);
    var a, op := Spell(e.left) + e.w1, if e.Or? then "or" else "and";
    LeadOf(a, op, e.w2 + Swap(e.right, q));
    LeadOf(a, op, e.w2 + Spell(e.right));
  }

  lemma {:induction false} LeadOf(a: string, op: string, b: string)
    requires IsWord(op)
    ensures Lead(a + op + b) == Lead(a)
  {
    WordCounts(op);
    LeadConcat(a, op + b);
    assert a + op + b == a + (op + b);
  }

  lemma {:induction false} NoGroupFirst(e: Src, q: string)
    requires Wf(e) && Inside(e) && (e.Or? || e.And?) && Wrapped(Swap(e, q))
    ensures !GroupFirst(e)
  {
    if GroupFirst(e) {
      var a, b := FirstGroup(e.left);
      SwapIs(e, q);
      var op, c := if e.Or? then "or" else "and", e.w2 + Swap(e.right, q);
      AfterGroup(a, b, e.w1, op, c);
      NotWrapped(a, b + e.w1 + op + c);
    }
  }

  lemma {:induction false} AfterGroup(a: string, b: string, w: string, op: string, c: string)
    ensures ((a + b) + w) + op + c == a + (b + w + op + c) && (op != "" ==> b + w + op + c != "")
  {
  }
}
