/**
 A text has at most one parse tree. The root of an expression is found by reading
 its text from left to right: it is the last of the weakest operators that stand
 outside parentheses and literals.
 */
module ArithReading {
  import opened Lex
  import opened Splitter
  import opened ArithCanon
  import opened ArithText
  import opened ArithGrammar
  import opened ArithScan
  import opened ArithCorrect
  import opened ArithMeaning

  // ------------------------------------------------------- operators in the text

  function WordRun(x: string): (n: nat)
    ensures n <= |x|
  {
    if x == "" || !IsWordChar(x[0]) then 0 else 1 + WordRun(x[1..])
  }

  function WordOp(w: string): Option<Op> {
    if w == "from" then Some(OfFrom)
    else if w == "or" then Some(Or)
    else if w == "and" then Some(And)
    else if w == "is" then Some(Is)
    else if w == "like" then Some(Like)
    else if w == "in" then Some(In)
    else None
  }

  function TwoOp(two: string): Option<Op> {
    if two == "||" then Some(Concat)
    else if two == "<>" then Some(Angles)
    else if two == "!=" then Some(Bang)
    else if two == "<=" then Some(Le)
    else if two == ">=" then Some(Ge)
    else None
  }

  function OneOp(c: char): Option<Op> {
    match c
    case ',' => Some(Comma)
    case '=' => Some(Eq)
    case '<' => Some(Lt)
    case '>' => Some(Gt)
    case '~' => Some(Tilde)
    case '+' => Some(Plus)
    case '-' => Some(Minus)
    case '*' => Some(Times)
    case '/' => Some(Div)
    case '%' => Some(Mod)
    case '^' => Some(Pow)
    case _ => None
  }

  /** The operator a text begins with: a whole word, or the longest symbol. */
  function OpAt(x: string): Option<Op>
    requires x != ""
  {
    if IsWordChar(x[0]) then
      if StartsAt(x, "is not ", 0) then Some(IsNot) else WordOp(x[..WordRun(x)])
    else if |x| >= 2 && TwoOp(x[..2]).Some? then TwoOp(x[..2])
    else OneOp(x[0])
  }

  /** An operator of a text, and how much of the text follows its beginning. */
  datatype Root = Root(op: Op, tail: nat)

  function Weaker(best: Option<Root>, op: Op, tail: nat): Option<Root> {
    if best.None? || Binding(op) <= Binding(best.value.op) then Some(Root(op, tail)) else best
  }

  /** The last of the weakest operators outside parentheses and literals. */
  function RootScan(x: string, best: Option<Root>): Option<Root>
    decreases |x|
  {
    if x == "" then best
    else if x[0] == '\'' then RootScan(x[SkipFrom(x, 1)..], best)
    else if x[0] == '(' then
      var m := MatchFrom(x, 0, 0);
      if m == -1 then best else RootScan(x[m + 1..], best)
    else
      var op := OpAt(x);
      var n := if op.Some? then |OpText(op.value)| else if IsWordChar(x[0]) then WordRun(x) else 1;
      if n == 0 || n > |x| then best
      else RootScan(x[n..], if op.Some? then Weaker(best, op.value, |x|) else best)
  }

  // ---------------------------------------------------------- reading a spelling

  lemma {:induction false} RunOf(x: string, q: string)
    requires AllWord(x) && (q == "" || !IsWordChar(q[0]))
    ensures WordRun(x + q) == |x|
  {
    if x == "" {
      assert x + q == q;
    } else {
      assert (x + q)[1..] == x[1..] + q;
      RunOf(x[1..], q);
    }
  }

  /** A word that is no operator is passed over. */
  lemma {:induction false} WordRead(x: string, q: string, best: Option<Root>)
    requires x != "" && AllWord(x) && (!Reserved(x) || x == "not")
    requires Follows(q) || q[0] == '('
    ensures RootScan(x + q, best) == RootScan(q, best)
  {
    RunOf(x, q);
    NotIsNot(x, q);
    assert (x + q)[..|x|] == x && (x + q)[|x|..] == q;
  }

  lemma {:induction false} NotIsNot(x: string, q: string)
    requires x != "" && AllWord(x) && x != "is" && (Follows(q) || q[0] == '(')
    ensures !StartsAt(x + q, "is not ", 0)
  {
    var s, w := x + q, "is not ";
    assert w[0] == 'i' && w[1] == 's' && w[2] == ' ';
    assert |x| == 1 && q != "" ==> s[1] == q[0];
    assert |x| == 2 ==> s[0] == x[0] && s[1] == x[1] && x == [x[0], x[1]];
    assert |x| >= 3 ==> s[2] == x[2];
  }

  lemma {:induction false} QuotedRead(x: string, q: string, best: Option<Root>)
    requires QuotedText(x) && (q == "" || q[0] != '\'')
    ensures RootScan(x + q, best) == RootScan(q, best)
  {
    QuotedSkip("", x, q);
    assert "" + x + q == x + q;
    assert (x + q)[|x|..] == q;
  }

  lemma {:induction false} GroupRead(x: string, q: string, best: Option<Root>)
    requires Balanced(x)
    ensures RootScan("(" + x + ")" + q, best) == RootScan(q, best)
  {
    var s := "(" + x + ")" + q;
    GroupMatched("", x, q);
    assert "" + ("(" + x + ")") + q == s;
    MatchUnique(s, 0, 1 + |x|);
    assert s[2 + |x|..] == q;
  }

  lemma {:induction false} NoOpAtSpace(x: string)
    requires x != "" && x[0] == ' '
    ensures OpAt(x) == None && !IsWordChar(x[0])
  {
    if |x| >= 2 {
      assert x[..2][0] == ' ';
    }
  }

  lemma {:induction false} SpaceRead(v: string, q: string, best: Option<Root>)
    requires Spaces(v)
    ensures RootScan(v + q, best) == RootScan(q, best)
  {
    if v == "" {
      assert v + q == q;
    } else {
      assert (v + q)[1..] == v[1..] + q;
      NoOpAtSpace(v + q);
      SpaceRead(v[1..], q, best);
    }
  }

  lemma {:induction false} SymbolAt(op: Op, x: string)
    requires !IsWordOp(op) && AfterOp(x)
    ensures OpAt(OpText(op) + x) == Some(op)
  {
    var s := OpText(op) + x;
    SymbolStart(op);
    assert s[0] == OpText(op)[0];
    if |OpText(op)| == 2 {
      assert s[..2] == OpText(op);
    } else {
      assert s[..2] == [s[0], x[0]];
    }
  }

  lemma {:induction false} WordOpAt(op: Op, x: string)
    requires IsWordOp(op) && AfterOp(x) && x[0] == (if op.In? then '(' else ' ')
    requires op.Is? ==> !StartsAt(x, " not ", 0)
    ensures OpAt(OpText(op) + x) == Some(op)
  {
    var o := OpText(op);
    var s := o + x;
    if op.IsNot? {
      assert StartsAt(s, "is not ", 0);
    } else {
      WordIsWhole(o);
      RunOf(o, x);
      assert s[..|o|] == o;
      if op.Is? {
        IsAlone(x);
      } else {
        NotIsNot(o, x);
      }
    }
  }

  lemma {:induction false} IsAlone(x: string)
    requires !StartsAt(x, " not ", 0)
    ensures !StartsAt("is" + x, "is not ", 0)
  {
    var s, w, v := "is" + x, "is not ", " not ";
    assert |s| >= 7 ==> |x| >= 5;
    forall k | 0 <= k < 5 && k < |x|
      ensures x[k] == s[k + 2] && v[k] == w[k + 2]
    {
    }
  }

  lemma {:induction false} OpRead(op: Op, x: string, best: Option<Root>)
    requires AfterOp(x) && (IsWordOp(op) ==> x[0] == (if op.In? then '(' else ' '))
    requires op.Is? ==> !StartsAt(x, " not ", 0)
    ensures RootScan(OpText(op) + x, best) == RootScan(x, Weaker(best, op, |OpText(op) + x|))
  {
    var s := OpText(op) + x;
    OpPlain(op);
    if IsWordOp(op) {
      WordOpAt(op, x);
    } else {
      SymbolAt(op, x);
    }
    assert s[0] == OpText(op)[0];
    assert s[|OpText(op)|..] == x;
  }

  /** No operand begins with the word "not" and a space. */
  lemma {:induction false} NoSpacedNot(t: Exp, q: string)
    requires LexOk(t) && Follows(q)
    ensures !StartsAt(Spell(t) + q, "not ", 0)
    decreases t
  {
    match t
    case Leaf(text) =>
      if WordText(text) {
        NoNot(text, q);
      } else {
        assert (text + q)[0] == '\'' && "not "[0] == 'n';
      }
    case Call(name, arg) =>
      var rest := "(" + Spell(arg) + ")" + q;
      assert Spell(t) + q == name + rest;
      NoNot(name, rest);
    case Args(list) =>
      assert (Spell(t) + q)[0] == '(' && "not "[0] == 'n';
    case Paren(inner) =>
      assert (Spell(t) + q)[0] == '(' && "not "[0] == 'n';
    case Bin(l, w1, op, w2, r) =>
      BinShape(t, q);
      BinFollows(t, q);
      NoSpacedNot(l, w1 + (OpText(op) + (w2 + (Spell(r) + q))));
  }

  lemma {:induction false} NoNot(x: string, q: string)
    requires x != "" && AllWord(x) && (Follows(q) || q[0] == '(')
    requires x == "not" ==> q != "" && q[0] == '('
    ensures !StartsAt(x + q, "not ", 0)
  {
    var s, w := x + q, "not ";
    assert w[0] == 'n' && w[1] == 'o' && w[2] == 't' && w[3] == ' ';
    assert |x| <= 3 && q != "" ==> s[|x|] == q[0];
    assert |x| == 3 ==> s[0] == x[0] && s[1] == x[1] && s[2] == x[2] && x == [x[0], x[1], x[2]];
    assert |x| >= 4 ==> s[3] == x[3];
  }

  lemma {:induction false} IsOperand(t: Exp, w: string, q: string)
    requires LexOk(t) && Follows(q) && Spaces(w)
    ensures !StartsAt(w + (Spell(t) + q), " not ", 0)
  {
    var x := Spell(t) + q;
    var s, v, u := w + x, " not ", "not ";
    NoSpacedNot(t, q);
    SpellEdges(t);
    assert v[0] == ' ' && v[1] == 'n' && forall k :: 0 <= k < 4 ==> v[k + 1] == u[k];
    assert |w| == 0 ==> s[0] == Spell(t)[0];
    assert |w| == 1 ==> forall k :: 0 <= k < |x| ==> x[k] == s[k + 1];
    assert |w| >= 2 ==> s[1] == w[1];
    if |w| == 1 && |s| >= 5 {
      var k :| 0 <= k < 4 && x[k] != u[k];
      assert s[k + 1] != v[k + 1];
    }
  }

  // --------------------------------------------------------- the root of a tree

  /** From the operator to the end of the operation. */
  function Tail(t: Exp): nat
    requires t.Bin?
  {
    |OpText(t.op) + (t.w2 + Spell(t.right))|
  }

  /** What reading a tree makes of the best operator so far; n characters follow. */
  function TreeRoot(t: Exp, n: nat, best: Option<Root>): Option<Root> {
    match t
    case Bin(l, w1, op, _, r) =>
      TreeRoot(r, n, Weaker(TreeRoot(l, |w1| + Tail(t) + n, best), op, Tail(t) + n))
    case _ => best
  }

  lemma {:induction false} RootSpell(t: Exp, q: string, n: nat, best: Option<Root>, out: Option<Root>)
    requires LexOk(t) && Follows(q) && n == |q| && out == TreeRoot(t, n, best)
    ensures RootScan(Spell(t) + q, best) == RootScan(q, out)
    decreases t
  {
    match t
    case Leaf(text) =>
      if WordText(text) {
        WordRead(text, q, best);
      } else {
        QuotedRead(text, q, best);
      }
    case Call(name, arg) =>
      CallRead(name, arg, q, best);
    case Args(list) =>
      SpellBalanced(list);
      GroupRead(Spell(list), q, best);
    case Paren(inner) =>
      SpellBalanced(inner);
      GroupRead(Spell(inner), q, best);
    case Bin(l, w1, op, w2, r) =>
      BinRoot(t, q, n, best, out);
  }

  lemma {:induction false} BinRoot(t: Exp, q: string, n: nat, best: Option<Root>, out: Option<Root>)
    requires LexOk(t) && t.Bin? && Follows(q) && n == |q| && out == TreeRoot(t, n, best)
    ensures RootScan(Spell(t) + q, best) == RootScan(q, out)
    decreases t, 0
  {
    BinShape(t, q);
    BinFollows(t, q);
    BinLengths(t, q);
    var k, m := Tail(t) + n, |t.w1| + Tail(t) + n;
    TreeStep(t, n, best, m, k);
    var b1 := TreeRoot(t.left, m, best);
    var b2 := Weaker(b1, t.op, k);
    RootSpell(t.left, t.w1 + (OpText(t.op) + (t.w2 + (Spell(t.right) + q))), m, best, b1);
    RightRead(t, q, k, b1, b2);
    RootSpell(t.right, q, n, b2, out);
  }

  lemma {:induction false} TreeStep(t: Exp, n: nat, best: Option<Root>, m: nat, k: nat)
    requires t.Bin? && m == |t.w1| + Tail(t) + n && k == Tail(t) + n
    ensures TreeRoot(t, n, best) == TreeRoot(t.right, n, Weaker(TreeRoot(t.left, m, best), t.op, k))
  {
  }

  lemma {:induction false} RightRead(t: Exp, q: string, k: nat, b1: Option<Root>, b2: Option<Root>)
    requires LexOk(t) && t.Bin? && Follows(q) && k == Tail(t) + |q| && b2 == Weaker(b1, t.op, k)
    ensures RootScan(t.w1 + (OpText(t.op) + (t.w2 + (Spell(t.right) + q))), b1) ==
            RootScan(Spell(t.right) + q, b2)
  {
    BinLengths(t, q);
    OpenRight(t, q);
    IsOperand(t.right, t.w2, q);
    OperatorRead(t.w1, t.op, t.w2, Spell(t.right) + q, k, b1, b2);
  }

  lemma {:induction false} BinLengths(t: Exp, q: string)
    requires t.Bin?
    ensures var o := OpText(t.op) + (t.w2 + (Spell(t.right) + q));
            |o| == Tail(t) + |q| && |t.w1 + o| == |t.w1| + Tail(t) + |q|
  {
  }

  lemma {:induction false} CallRead(name: string, arg: Exp, q: string, best: Option<Root>)
    requires LexOk(Call(name, arg)) && Follows(q)
    ensures RootScan(Spell(Call(name, arg)) + q, best) == RootScan(q, best)
  {
    var rest := "(" + Spell(arg) + ")" + q;
    assert Spell(Call(name, arg)) + q == name + rest;
    WordRead(name, rest, best);
    SpellBalanced(arg);
    GroupRead(Spell(arg), q, best);
  }

  lemma {:induction false} OperatorRead(w1: string, op: Op, w2: string, x: string, k: nat, b1: Option<Root>, b2: Option<Root>)
    requires Spaces(w1) && Spaces(w2) && AfterOp(w2 + x)
    requires IsWordOp(op) ==> (w2 + x)[0] == (if op.In? then '(' else ' ')
    requires op.Is? ==> !StartsAt(w2 + x, " not ", 0)
    requires k == |OpText(op) + (w2 + x)| && b2 == Weaker(b1, op, k)
    ensures RootScan(w1 + (OpText(op) + (w2 + x)), b1) == RootScan(x, b2)
  {
    SpaceRead(w1, OpText(op) + (w2 + x), b1);
    OpRead(op, w2 + x, b1);
    SpaceRead(w2, x, b2);
  }

  /** In the grammar the last of the weakest operators is the root. */
  lemma {:induction false} RootIsRoot(t: Exp, n: nat, k: nat, best: Option<Root>)
    requires PrecOk(t) && (t.Bin? ==> k == Tail(t) + n)
    ensures TreeRoot(t, n, best) == if t.Bin? then Weaker(best, t.op, k) else best
    decreases t
  {
    if t.Bin? {
      var m := |t.w1| + Tail(t) + n;
      TreeStep(t, n, best, m, k);
      RootIsRoot(t.left, m, if t.left.Bin? then Tail(t.left) + m else 0, best);
      var b2 := Weaker(TreeRoot(t.left, m, best), t.op, k);
      RootIsRoot(t.right, n, if t.right.Bin? then Tail(t.right) + n else 0, b2);
    }
  }

  lemma {:induction false} RootOfSpell(t: Exp, q: string, k: nat, best: Option<Root>)
    requires LexOk(t) && PrecOk(t) && q == "" && best == None && (t.Bin? ==> k == Tail(t))
    ensures RootScan(Spell(t), best) == if t.Bin? then Some(Root(t.op, k)) else None
  {
    RootIsRoot(t, |q|, k, best);
    RootReached(t, q, best, if t.Bin? then Some(Root(t.op, k)) else None);
  }

  lemma {:induction false} RootReached(t: Exp, q: string, best: Option<Root>, out: Option<Root>)
    requires LexOk(t) && q == "" && out == TreeRoot(t, |q|, best)
    ensures RootScan(Spell(t), best) == out
  {
    RootSpell(t, q, |q|, best, out);
    assert Spell(t) + q == Spell(t);
  }

  // ---------------------------------------------------------------- unambiguity

  lemma {:induction false} SameBins(u: Exp, v: Exp)
    requires LexOk(u) && LexOk(v) && u.Bin? && v.Bin? && Spell(u) == Spell(v)
    requires u.op == v.op && Tail(u) == Tail(v)
    ensures Spell(u.left) == Spell(v.left) && Spell(u.right) == Spell(v.right)
    ensures u.w1 == v.w1 && u.w2 == v.w2
  {
    var a, b := OpText(u.op) + (u.w2 + Spell(u.right)), OpText(v.op) + (v.w2 + Spell(v.right));
    Reassociate(Spell(u.left), u.w1, a);
    Reassociate(Spell(v.left), v.w1, b);
    SameEnd(Spell(u.left) + u.w1, a, Spell(v.left) + v.w1, b);
    SpellEdges(u.left);
    SpellEdges(v.left);
    SpellEdges(u.right);
    SpellEdges(v.right);
    SameSides(Spell(u.left), u.w1, OpText(u.op), u.w2, Spell(u.right),
              Spell(v.left), v.w1, v.w2, Spell(v.right));
  }

  lemma {:induction false} SameEnd(a: string, b: string, c: string, d: string)
    requires a + b == c + d && |b| == |d|
    ensures a == c && b == d
  {
    assert (a + b)[..|a|] == a && (a + b)[|a|..] == b;
    assert (c + d)[..|c|] == c && (c + d)[|c|..] == d;
  }

  lemma {:induction false} SameCalls(n1: string, x: string, n2: string, y: string)
    requires AllWord(n1) && AllWord(n2) && n1 + ("(" + x + ")") == n2 + ("(" + y + ")")
    ensures n1 == n2 && x == y
  {
    RunOf(n1, "(" + x + ")");
    RunOf(n2, "(" + y + ")");
    SameEnd(n1, "(" + x + ")", n2, "(" + y + ")");
    SameGroup(x, y);
  }

  /** The kinds of operand are told apart by their first and last characters. */
  lemma {:induction false} KindSeen(t: Exp)
    requires LexOk(t) && !t.Bin?
    ensures var s := Spell(t);
            && (s[0] == '(' <==> t.Paren? || t.Args?)
            && (t.Call? <==> s[0] != '(' && s[|s| - 1] == ')')
  {
    match t
    case Leaf(text) =>
    case Call(name, arg) =>
      assert Spell(t)[0] == name[0];
    case Args(_) =>
    case Paren(_) =>
  }

  /** Two expressions with the same text are the same expression. */
  lemma {:induction false} OneReading(u: Exp, v: Exp)
    requires LexOk(u) && LexOk(v) && PrecOk(u) && PrecOk(v)
    requires Spell(u) == Spell(v) && (u.Args? <==> v.Args?)
    ensures u == v
    decreases u
  {
    RootOfSpell(u, [], if u.Bin? then Tail(u) else 0, None);
    RootOfSpell(v, [], if v.Bin? then Tail(v) else 0, None);
    if u.Bin? {
      SameBins(u, v);
      OneReading(u.left, v.left);
      OneReading(u.right, v.right);
    } else {
      KindSeen(u);
      KindSeen(v);
      match u
      case Leaf(_) =>
      case Call(name, arg) =>
        SameCalls(name, Spell(arg), v.name, Spell(v.arg));
        OneReading(arg, v.arg);
      case Args(list) =>
        SameGroup(Spell(list), Spell(v.list));
        OneReading(list, v.list);
      case Paren(inner) =>
        SameGroup(Spell(inner), Spell(v.inner));
        OneReading(inner, v.inner);
    }
  }

  /** A sound expression leaves a text that has one reading, and that reading has
      the parse tree of the original. */
  lemma {:induction false} SoundReading(t: Exp, u: Exp)
    requires LexOk(t) && !t.Args? && PrecOk(t) && Sound(t, None, None)
    requires LexOk(u) && !u.Args? && PrecOk(u) && Spell(u) == CanonArith(Spell(t))
    ensures Bare(u) == Bare(t)
  {
    var n := MAX_PASSES;
    SoundKeepsMeaning(t, n);
    OneReading(u, Drops(t, n));
  }

  /** No false equality among sound expressions: when the step leaves one text, the
      parse trees are equal. */
  lemma {:induction false} EqualTextsEqualTrees(t: Exp, u: Exp)
    requires LexOk(t) && !t.Args? && PrecOk(t) && Sound(t, None, None)
    requires LexOk(u) && !u.Args? && PrecOk(u) && Sound(u, None, None)
    requires CanonArith(Spell(t)) == CanonArith(Spell(u))
    ensures Bare(t) == Bare(u)
  {
    var n := MAX_PASSES;
    SoundKeepsMeaning(u, n);
    SoundReading(t, Drops(u, n));
  }
  // ---------------------------------------------------- when the texts are one

  /** The parse tree with its spaces: no grouping pairs. */
  function Open(t: Exp): Exp {
    match t
    case Leaf(_) => t
    case Call(name, arg) => Call(name, Open(arg))
    case Args(list) => Args(Open(list))
    case Paren(inner) => Open(inner)
    case Bin(l, w1, op, w2, r) => Bin(Open(l), w1, op, w2, Open(r))
  }

  /** A parse tree with the grouping that precedence asks for, and no more. */
  function Grouped(t: Exp, left: Option<Op>, right: Option<Op>): Exp {
    match t
    case Leaf(_) => t
    case Call(name, arg) =>
      var c := Call(name, Grouped(arg, None, None));
      if Fits(ArithGrammar.Prec(t), left, right) then c else Paren(c)
    case Args(list) => Args(Grouped(list, None, None))
    case Paren(inner) => Paren(Grouped(inner, None, None))
    case Bin(l, w1, op, w2, r) =>
      if Fits(Binding(op), left, right)
      then Bin(Grouped(l, left, Some(op)), w1, op, w2, Grouped(r, Some(op), right))
      else Paren(Bin(Grouped(l, None, Some(op)), w1, op, w2, Grouped(r, Some(op), None)))
  }

  /** No pair is kept that precedence does not ask for. */
  predicate Thorough(t: Exp, left: Option<Op>, right: Option<Op>) {
    match t
    case Leaf(_) => true
    case Call(_, arg) => Thorough(arg, None, None)
    case Args(list) => Thorough(list, None, None)
    case Paren(inner) =>
      if Accepted(inner, left, right) then Thorough(inner, left, right)
      else !Fits(ArithGrammar.Prec(inner), left, right) && Thorough(inner, None, None)
    case Bin(l, _, op, _, r) => Thorough(l, left, Some(op)) && Thorough(r, Some(op), right)
  }

  lemma {:induction false} OpenErased(t: Exp, left: Option<Op>, right: Option<Op>)
    ensures Open(Erase(t, left, right)) == Open(t)
  {
    match t
    case Leaf(_) =>
    case Call(_, arg) => OpenErased(arg, None, None);
    case Args(list) => OpenErased(list, None, None);
    case Paren(inner) =>
      OpenErased(inner, left, right);
      OpenErased(inner, None, None);
    case Bin(l, _, op, _, r) =>
      OpenErased(l, left, Some(op));
      OpenErased(r, Some(op), right);
  }

  /** What is kept of a sound expression is the grouping precedence asks for, exactly
      when it is thorough. */
  lemma {:induction false} ErasedGrouped(t: Exp, left: Option<Op>, right: Option<Op>)
    requires PrecIn(t, left, right) && Sound(t, left, right)
    ensures Erase(t, left, right) == Grouped(Open(t), left, right) <==> Thorough(t, left, right)
    decreases t, 1
  {
    match t
    case Leaf(_) =>
    case Call(_, arg) => ErasedGrouped(arg, None, None);
    case Args(list) => ErasedGrouped(list, None, None);
    case Paren(inner) => ErasedPair(t, left, right);
    case Bin(l, _, op, _, r) =>
      ErasedGrouped(l, left, Some(op));
      ErasedGrouped(r, Some(op), right);
  }

  lemma {:induction false} ErasedPair(t: Exp, left: Option<Op>, right: Option<Op>)
    requires t.Paren? && PrecIn(t, left, right) && Sound(t, left, right)
    ensures Erase(t, left, right) == Grouped(Open(t), left, right) <==> Thorough(t, left, right)
    decreases t, 0
  {
    var inner := t.inner;
    PrecInIs(inner, None, None);
    PrecInIs(inner, left, right);
    if Accepted(inner, left, right) {
      ErasedGrouped(inner, left, right);
    } else {
      ErasedGrouped(inner, None, None);
      PairOfPair(inner, left, right);
      RootGrouped(inner, left, right);
    }
  }

  /** A pair directly around another pair is accepted anywhere. */
  lemma {:induction false} PairOfPair(e: Exp, left: Option<Op>, right: Option<Op>)
    requires !Accepted(e, left, right)
    ensures !e.Paren? && !e.Leaf? && !e.Args?
  {
    PrecRange(left);
    PrecRange(right);
  }

  lemma {:induction false} PrecRange(op: Option<Op>)
    ensures Vis(op).Some? ==> 3 <= Vis(op).value < ATOM
  {
  }

  /** A pair is put around an operation exactly where it does not fit. */
  lemma {:induction false} RootGrouped(e: Exp, left: Option<Op>, right: Option<Op>)
    requires e.Bin? || e.Call?
    ensures Fits(ArithGrammar.Prec(e), left, right) ==> !Grouped(Open(e), left, right).Paren?
    ensures !Fits(ArithGrammar.Prec(e), left, right) ==>
              Grouped(Open(e), left, right) == Paren(Grouped(Open(e), None, None))
  {
  }

  /** Two sound and thorough expressions, of at most 64 accepted pairs, leave one
      text if and only if they are one parse tree, spaced alike. */
  lemma {:induction false} TextsAgreeExactly(t: Exp, u: Exp)
    requires LexOk(t) && !t.Args? && PrecOk(t) && Sound(t, None, None) && Thorough(t, None, None)
    requires LexOk(u) && !u.Args? && PrecOk(u) && Sound(u, None, None) && Thorough(u, None, None)
    requires Pairs(t) - Pairs(Erase(t, None, None)) <= MAX_PASSES
    requires Pairs(u) - Pairs(Erase(u, None, None)) <= MAX_PASSES
    ensures CanonArith(Spell(t)) == CanonArith(Spell(u)) <==> Open(t) == Open(u)
  {
    Erased(t);
    Erased(u);
    if CanonArith(Spell(t)) == CanonArith(Spell(u)) {
      OneReading(Erase(t, None, None), Erase(u, None, None));
    }
  }

  lemma {:induction false} Erased(t: Exp)
    requires LexOk(t) && !t.Args? && PrecOk(t) && Sound(t, None, None)
    requires Pairs(t) - Pairs(Erase(t, None, None)) <= MAX_PASSES
    ensures var e := Erase(t, None, None);
            && CanonArith(Spell(t)) == Spell(e) && LexOk(e) && !e.Args? && PrecOk(e) && Open(e) == Open(t)
            && (Thorough(t, None, None) <==> e == Grouped(Open(t), None, None))
  {
    var e := Erase(t, None, None);
    ArithErases(t);
    EraseLex(t, None, None);
    PrecInIs(t, None, None);
    PrecInIs(e, None, None);
    ErasePrec(t, None, None);
    OpenErased(t, None, None);
    ErasedGrouped(t, None, None);
  }

  /** Not every sound expression is thorough: the step keeps the pair in
      "a = (b || c)", and its text is not that of "a = b || c". */
  lemma {:induction false} RedundantPairKept(a: Exp, b: Exp, c: Exp, w: string)
    requires Words(a) && Words(b) && Words(c) && Spaces(w)
    ensures var t, u := Bin(a, w, Eq, w, Paren(Bin(b, w, Concat, w, c))), Bin(a, w, Eq, w, Bin(b, w, Concat, w, c));
            && LexOk(t) && LexOk(u) && PrecOk(t) && PrecOk(u) && Open(t) == Open(u)
            && Sound(t, None, None) && !Thorough(t, None, None)
            && CanonArith(Spell(t)) != CanonArith(Spell(u))
  {
    var e := Bin(b, w, Concat, w, c);
    var t, u := Bin(a, w, Eq, w, Paren(e)), Bin(a, w, Eq, w, e);
    SymbolForms(b, w, Concat, c);
    GroupForms(e);
    SymbolForms(a, w, Eq, Paren(e));
    SymbolForms(a, w, Eq, e);
    KeptPair(a, e, w);
    ErasePairs(t, None, None);
    ErasePairs(u, None, None);
    ArithErases(t);
    ArithErases(u);
    if Spell(t) == Spell(u) {
      OneReading(t, u);
    }
  }

  lemma {:induction false} KeptPair(a: Exp, e: Exp, w: string)
    requires a.Leaf? && e.Bin? && e.op == Concat && e.left.Leaf? && e.right.Leaf?
    ensures var t := Bin(a, w, Eq, w, Paren(e));
            Sound(t, None, None) && !Thorough(t, None, None) && Erase(t, None, None) == t
  {
    LeafPair(e.left, e.right, e.w1, Concat);
    assert ScanPrec(Concat) == 3;
    assert Top(e) < PREC_MIN;
    assert !Accepted(e, Some(Eq), None);
    assert Erase(e.left, None, Some(Concat)) == e.left && Erase(e.right, Some(Concat), None) == e.right;
    assert Erase(e, None, None) == e;
    assert Erase(Paren(e), Some(Eq), None) == Paren(e);
    assert Sound(e.left, None, Some(Concat)) && Sound(e.right, Some(Concat), None);
    assert ArithGrammar.Prec(e) == Binding(Concat) == 7 && Binding(Eq) == 5;
    assert Sound(e, None, None) && Fits(ArithGrammar.Prec(e), Some(Eq), None);
    assert !Thorough(Paren(e), Some(Eq), None);
  }
}
