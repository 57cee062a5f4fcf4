/**
 The boolean layer of a CHECK predicate: its spellings, with any redundant
 grouping and white space, and what a spelling means.
 */
module BoolGrammar {
  import opened Lex
  import opened Splitter
  import opened BoolCanon

  /** A spelling. Tail is a predicate that begins with a parenthesised group but
      goes on after it, such as "(a or b) is null"; gap is the white space after
      the word "not". */
  datatype Src =
    | Atom(text: string)
    | Tail(t1: string, head: Src, t2: string, rest: string)
    | Group(g1: string, inner: Src, g2: string)
    | Not(gap: string, operand: Src)
    | And(left: Src, w1: string, w2: string, right: Src)
    | Or(left: Src, w1: string, w2: string, right: Src)

  function Spell(t: Src): string {
    match t
    case Atom(text) => text
    case Tail(t1, head, t2, rest) => "(" + (t1 + Spell(head) + t2) + ")" + rest
    case Group(g1, inner, g2) => "(" + (g1 + Spell(inner) + g2) + ")"
    case Not(gap, e) => "not" + (gap + Spell(e))
    case And(l, w1, w2, r) => (Spell(l) + w1) + "and" + (w2 + Spell(r))
    case Or(l, w1, w2, r) => (Spell(l) + w1) + "or" + (w2 + Spell(r))
  }

  /** One pair of parentheses, outside literals, encloses the whole text. */
  ghost predicate Enclosed(s: string) {
    && |s| >= 2 && s[0] == '(' && s[|s| - 1] == ')' && At(s, |s|) == START
    && forall i {:trigger At(s, i)} :: 0 < i < |s| ==> At(s, i).depth > 0
  }

  /** A predicate the boolean layer treats as opaque: balanced outside its literals,
      which may hold any parentheses, and not a group. */
  ghost predicate AtomText(a: string) {
    && a != "" && Trimmed(a) && Balanced(a) && !Enclosed(a)
    && NoCut(a, "or") && NoCut(a, "and")
    && !StartsWith(a, "not ") && !StartsWith(a, "not(")
  }

  ghost predicate TailText(a: string) {
    a != "" && !IsSpace(a[|a| - 1]) && Balanced(a) && NoCut(a, "or") && NoCut(a, "and")
  }

  /** Well-formed under NOT > AND > OR. Without a gap "not" is followed by "(". */
  ghost predicate Wf(t: Src) {
    match t
    case Atom(text) => AtomText(text)
    case Tail(t1, head, t2, rest) => Blank(t1) && Blank(t2) && Wf(head) && TailText(rest)
    case Group(g1, inner, g2) => Blank(g1) && Blank(g2) && Wf(inner)
    case Not(gap, e) =>
      && Blank(gap) && Wf(e) && !e.And? && !e.Or?
      && (if gap == "" then e.Group? || e.Tail? else gap[0] == ' ')
    case And(l, w1, w2, r) =>
      && Blank(w1) && Blank(w2) && Wf(l) && Wf(r) && !l.Or? && !r.Or?
      && Apart(Spell(l) + w1, "and") && Apart("and", w2 + Spell(r))
    case Or(l, w1, w2, r) =>
      && Blank(w1) && Blank(w2) && Wf(l) && Wf(r)
      && Apart(Spell(l) + w1, "or") && Apart("or", w2 + Spell(r))
  }

  /** The syntax without redundant grouping: nested AND/AND and OR/OR are flat. */
  datatype Form =
    | Lit(text: string)
    | Neg(arg: Form)
    | Conj(args: seq<Form>)
    | Disj(args: seq<Form>)

  function Factors(f: Form): seq<Form> {
    if f.Conj? then f.args else [f]
  }

  function Terms(f: Form): seq<Form> {
    if f.Disj? then f.args else [f]
  }

  function Flatten(t: Src): Form {
    match t
    case Atom(text) => Lit(text)
    case Tail(_, _, _, _) => Lit(Spell(t))
    case Group(_, inner, _) => Flatten(inner)
    case Not(_, e) => Neg(Flatten(e))
    case And(l, _, _, r) => Conj(Factors(Flatten(l)) + Factors(Flatten(r)))
    case Or(l, _, _, r) => Disj(Terms(Flatten(l)) + Terms(Flatten(r)))
  }

  /** Flat forms: two or more operands, none of the operator's own kind. */
  ghost predicate FormOk(f: Form)
    decreases f, 1
  {
    match f
    case Lit(text) => AtomText(text)
    case Neg(a) => FormOk(a)
    case Conj(fs) => |fs| >= 2 && AllOk(fs) && forall k :: 0 <= k < |fs| ==> !fs[k].Conj?
    case Disj(fs) => |fs| >= 2 && AllOk(fs) && forall k :: 0 <= k < |fs| ==> !fs[k].Disj?
  }

  ghost predicate AllOk(fs: seq<Form>)
    decreases fs, 0
  {
    fs == [] || (FormOk(fs[0]) && AllOk(fs[1..]))
  }

  /** The fewest parentheses NOT > AND > OR allows. */
  function Print(f: Form): string
    decreases f, 1
  {
    match f
    case Lit(text) => text
    case Neg(a) => if a.Conj? || a.Disj? then "not (" + Print(a) + ")" else "not " + Print(a)
    case Conj(fs) => Rejoin(PrintAll(fs, true), " and ")
    case Disj(fs) => Rejoin(PrintAll(fs, false), " or ")
  }

  /** An operand, grouped when it is an OR inside an AND. */
  function PrintOperand(f: Form, group: bool): string
    decreases f, 2
  {
    if group && f.Disj? then "(" + Print(f) + ")" else Print(f)
  }

  function PrintAll(fs: seq<Form>, group: bool): (r: seq<string>)
    ensures |r| == |fs|
    decreases fs, 0
  {
    if fs == [] then [] else [PrintOperand(fs[0], group)] + PrintAll(fs[1..], group)
  }

  lemma {:induction false} PrintAllConcat(fs: seq<Form>, gs: seq<Form>, group: bool)
    ensures PrintAll(fs + gs, group) == PrintAll(fs, group) + PrintAll(gs, group)
  {
    if fs == [] {
      assert fs + gs == gs;
    } else {
      assert (fs + gs)[1..] == fs[1..] + gs;
      PrintAllConcat(fs[1..], gs, group);
    }
  }

  lemma {:induction false} PrintOne(f: Form, group: bool)
    ensures PrintAll([f], group) == [PrintOperand(f, group)]
  {
    assert [f][1..] == [];
  }

  // -------------------------------------------------- the shape of spellings

  /** Not empty, no margins, balanced. */
  ghost predicate Solid(x: string) {
    x != "" && Trimmed(x) && Balanced(x)
  }

  lemma {:induction false} SpellShape(t: Src)
    requires Wf(t)
    ensures Solid(Spell(t))
  {
    match t
    case Atom(text) =>
    case Tail(t1, head, t2, rest) =>
      SpellShape(head);
      GroupSolid(t1, Spell(head), t2);
      BalancedConcat("(" + (t1 + Spell(head) + t2) + ")", rest);
    case Group(g1, inner, g2) =>
      SpellShape(inner);
      GroupSolid(g1, Spell(inner), g2);
    case Not(gap, e) =>
      SpellShape(e);
      NotSolid(gap, Spell(e));
    case And(l, w1, w2, r) =>
      SpellShape(l);
      SpellShape(r);
      JoinSolid(Spell(l), w1, "and", w2, Spell(r));
    case Or(l, w1, w2, r) =>
      SpellShape(l);
      SpellShape(r);
      JoinSolid(Spell(l), w1, "or", w2, Spell(r));
  }

  lemma {:induction false} GroupSolid(w1: string, x: string, w2: string)
    requires Blank(w1) && Blank(w2) && Balanced(x)
    ensures Solid("(" + (w1 + x + w2) + ")")
  {
    Padded(w1, x, w2);
    BalancedParens(w1 + x + w2);
  }

  lemma {:induction false} NotSolid(gap: string, x: string)
    requires Blank(gap) && Solid(x)
    ensures Solid("not" + (gap + x))
  {
    FlatBalanced(gap);
    FlatBalanced("not");
    BalancedConcat(gap, x);
    BalancedConcat("not", gap + x);
    assert ("not" + (gap + x))[|gap + x| + 2] == x[|x| - 1];
  }

  lemma {:induction false} JoinSolid(a: string, w1: string, op: string, w2: string, b: string)
    requires Solid(a) && Solid(b) && Blank(w1) && Blank(w2) && IsWord(op)
    ensures Solid((a + w1) + op + (w2 + b))
  {
    Joined(a, w1, op, w2, b);
    var s := (a + w1) + op + (w2 + b);
    assert s[0] == a[0] && s[|s| - 1] == b[|b| - 1];
  }

  lemma {:induction false} Padded(w1: string, x: string, w2: string)
    requires Blank(w1) && Blank(w2) && Balanced(x)
    ensures Balanced(w1 + x + w2)
  {
    FlatBalanced(w1);
    FlatBalanced(w2);
    BalancedConcat(w1, x);
    BalancedConcat(w1 + x, w2);
  }

  lemma {:induction false} Joined(a: string, w1: string, op: string, w2: string, b: string)
    requires Balanced(a) && Balanced(b) && Blank(w1) && Blank(w2) && IsWord(op)
    ensures Balanced(a + w1) && Balanced(w2 + b) && Balanced((a + w1) + op + (w2 + b))
  {
    FlatBalanced(w1);
    FlatBalanced(w2);
    FlatBalanced(op);
    BalancedConcat(a, w1);
    BalancedConcat(w2, b);
    BalancedConcat(a + w1, op);
    BalancedConcat((a + w1) + op, w2 + b);
  }

  // --------------------------------------------- where the operators are cut

  lemma {:induction false} ParensNoCut(x: string, op: string)
    requires Balanced(x) && IsWord(op)
    ensures NoCut("(" + x + ")", op)
  {
    var s := "(" + x + ")";
    forall i: nat | i <= |s|
      ensures !IsCut(s, op, i)
    {
      WordChars(s, op, i);
      if 0 < i <= |x| + 1 {
        InsideParens(x, i - 1);
        assert At(x, i - 1).depth >= 0;
      }
    }
  }

  lemma {:induction false} BlankNoCut(w: string, op: string)
    requires Blank(w) && IsWord(op)
    ensures NoCut(w, op) && At(w, |w|) == START
  {
    FlatBalanced(w);
    forall i: nat | i <= |w|
      ensures !IsCut(w, op, i)
    {
      WordChars(w, op, i);
    }
  }

  lemma {:induction false} PaddedNoCut(w1: string, x: string, w2: string, op: string)
    requires Blank(w1) && Blank(w2) && IsWord(op) && NoCut(x, op) && Balanced(x)
    ensures NoCut(w1 + x + w2, op)
  {
    BlankNoCut(w1, op);
    BlankNoCut(w2, op);
    NoCutConcat(w1, x, op);
    FlatBalanced(w1);
    BalancedConcat(w1, x);
    NoCutConcat(w1 + x, w2, op);
  }

  /** The words "and" and "not" contain no cut for the other words. */
  lemma {:induction false} WordsNoCut()
    ensures NoCut("and", "or") && NoCut("not", "or") && NoCut("not", "and")
    ensures IsWord("or") && IsWord("and") && IsWord("not")
  {
    forall i: nat | i <= 3
      ensures !IsCut("and", "or", i) && !IsCut("not", "or", i) && !IsCut("not", "and", i)
    {
      assert "or"[0] == 'o' && "or"[1] == 'r' && "and"[0] == 'a';
      if i < 2 {
        Mismatch("and", "or", i, 0);
        Mismatch("not", "or", i, i);
        Mismatch("not", "and", i, 0);
      }
    }
  }

  lemma {:induction false} Mismatch(s: string, op: string, i: nat, k: nat)
    requires k < |op| && i + k < |s| && s[i + k] != op[k]
    ensures !StartsAt(s, op, i)
  {
  }

  lemma {:induction false} NotNoCut(gap: string, x: string, op: string)
    requires Blank(gap) && NoCut(x, op) && IsWord(op) && NoCut("not", op)
    requires x != "" && (gap == "" ==> x[0] == '(')
    ensures NoCut("not" + (gap + x), op)
  {
    BlankNoCut(gap, op);
    NoCutConcat(gap, x, op);
    FlatBalanced("not");
    NoCutConcat("not", gap + x, op);
  }

  lemma {:induction false} JoinNoCut(a: string, w1: string, mid: string, w2: string, b: string, op: string)
    requires Balanced(a) && Blank(w1) && Blank(w2) && IsWord(mid) && IsWord(op)
    requires NoCut(a, op) && NoCut(b, op) && NoCut(mid, op)
    requires Apart(a + w1, mid) && Apart(mid, w2 + b)
    ensures NoCut((a + w1) + mid + (w2 + b), op)
  {
    FlatBalanced(w1);
    BalancedConcat(a, w1);
    BlankNoCut(w1, op);
    BlankNoCut(w2, op);
    NoCutConcat(a, w1, op);
    NoCutConcat(w2, b, op);
    NoCutConcat(a + w1, mid, op);
    FlatBalanced(mid);
    BalancedConcat(a + w1, mid);
    NoCutConcat((a + w1) + mid, w2 + b, op);
  }

  lemma {:induction false} SpellNoOr(t: Src)
    requires Wf(t) && !t.Or?
    ensures NoCut(Spell(t), "or")
  {
    WordsNoCut();
    match t
    case Atom(text) =>
    case Tail(t1, head, t2, rest) =>
      SpellShape(head);
      Padded(t1, Spell(head), t2);
      ParensNoCut(t1 + Spell(head) + t2, "or");
      BalancedParens(t1 + Spell(head) + t2);
      NoCutConcat("(" + (t1 + Spell(head) + t2) + ")", rest, "or");
    case Group(g1, inner, g2) =>
      SpellShape(inner);
      Padded(g1, Spell(inner), g2);
      ParensNoCut(g1 + Spell(inner) + g2, "or");
    case Not(gap, e) =>
      SpellShape(e);
      SpellNoOr(e);
      NotNoCut(gap, Spell(e), "or");
    case And(l, w1, w2, r) =>
      SpellShape(l);
      SpellShape(r);
      SpellNoOr(l);
      SpellNoOr(r);
      JoinNoCut(Spell(l), w1, "and", w2, Spell(r), "or");
  }

  lemma {:induction false} SpellNoAnd(t: Src)
    requires Wf(t) && !t.Or? && !t.And?
    ensures NoCut(Spell(t), "and")
  {
    WordsNoCut();
    match t
    case Atom(text) =>
    case Tail(t1, head, t2, rest) =>
      SpellShape(head);
      Padded(t1, Spell(head), t2);
      ParensNoCut(t1 + Spell(head) + t2, "and");
      BalancedParens(t1 + Spell(head) + t2);
      NoCutConcat("(" + (t1 + Spell(head) + t2) + ")", rest, "and");
    case Group(g1, inner, g2) =>
      SpellShape(inner);
      Padded(g1, Spell(inner), g2);
      ParensNoCut(g1 + Spell(inner) + g2, "and");
    case Not(gap, e) =>
      SpellShape(e);
      SpellNoAnd(e);
      NotNoCut(gap, Spell(e), "and");
  }

  /** The operands of the topmost run of OR, in order. */
  function OrOperands(t: Src): (r: seq<Src>)
    ensures r != []
  {
    if t.Or? then OrOperands(t.left) + OrOperands(t.right) else [t]
  }

  function AndOperands(t: Src): (r: seq<Src>)
    ensures r != []
  {
    if t.And? then AndOperands(t.left) + AndOperands(t.right) else [t]
  }

  function SpellAll(ts: seq<Src>): (r: seq<string>)
    ensures |r| == |ts|
  {
    if ts == [] then [] else [Spell(ts[0])] + SpellAll(ts[1..])
  }

  lemma {:induction false} SpellAllConcat(ts: seq<Src>, us: seq<Src>)
    ensures SpellAll(ts + us) == SpellAll(ts) + SpellAll(us)
  {
    if ts == [] {
      assert ts + us == us;
    } else {
      assert (ts + us)[1..] == ts[1..] + us;
      SpellAllConcat(ts[1..], us);
    }
  }

  lemma {:induction false} SpellOne(t: Src)
    ensures SpellAll([t]) == [Spell(t)]
  {
    assert [t][1..] == [];
  }

  lemma {:induction false} OnePart(m1: string, x: string, m2: string, op: string)
    requires Blank(m1) && Blank(m2) && Solid(x) && IsWord(op) && NoCut(x, op)
    ensures Split(m1 + x + m2, op) == [x]
  {
    PaddedNoCut(m1, x, m2, op);
    SplitWhole(m1 + x + m2, op);
    StripOf(m1, x, m2);
  }

  /** Splitting a spelling at "or" yields the spellings of its OR operands. */
  lemma {:induction false} OrSplit(t: Src, m1: string, m2: string)
    requires Wf(t) && Blank(m1) && Blank(m2)
    ensures Split(m1 + Spell(t) + m2, "or") == SpellAll(OrOperands(t))
  {
    WordsNoCut();
    if t.Or? {
      SpellShape(t.left);
      SpellShape(t.right);
      SplitJoined(m1, Spell(t.left), t.w1, "or", t.w2, Spell(t.right), m2);
      OrSplit(t.left, m1, t.w1);
      OrSplit(t.right, t.w2, m2);
      SpellAllConcat(OrOperands(t.left), OrOperands(t.right));
    } else {
      SpellNoOr(t);
      SpellShape(t);
      OnePart(m1, Spell(t), m2, "or");
      SpellOne(t);
    }
  }

  lemma {:induction false} AndSplit(t: Src, m1: string, m2: string)
    requires Wf(t) && !t.Or? && Blank(m1) && Blank(m2)
    ensures Split(m1 + Spell(t) + m2, "and") == SpellAll(AndOperands(t))
  {
    WordsNoCut();
    if t.And? {
      SpellShape(t.left);
      SpellShape(t.right);
      SplitJoined(m1, Spell(t.left), t.w1, "and", t.w2, Spell(t.right), m2);
      AndSplit(t.left, m1, t.w1);
      AndSplit(t.right, t.w2, m2);
      SpellAllConcat(AndOperands(t.left), AndOperands(t.right));
    } else {
      SpellNoAnd(t);
      SpellShape(t);
      OnePart(m1, Spell(t), m2, "and");
      SpellOne(t);
    }
  }
}
