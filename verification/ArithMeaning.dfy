/**
 When erasing the accepted grouping keeps the parse tree: exactly when every
 accepted pair also passes the precedence test on both sides.
 */
module ArithMeaning {
  import opened Lex
  import opened Splitter
  import opened ArithCanon
  import opened ArithText
  import opened ArithGrammar
  import opened ArithScan
  import opened ArithCorrect

  /** An operand of precedence p between two operators is read as one operand. */
  predicate Fits(p: int, left: Option<Op>, right: Option<Op>) {
    && (left.Some? ==> p > Binding(left.value))
    && (right.Some? ==> p >= Binding(right.value))
  }

  /** PrecOk, said from the operators that stand beside each operand. */
  predicate PrecIn(t: Exp, left: Option<Op>, right: Option<Op>) {
    match t
    case Leaf(_) => true
    case Call(_, arg) => Fits(ArithGrammar.Prec(t), left, right) && PrecIn(arg, None, None)
    case Args(list) => PrecIn(list, None, None)
    case Paren(inner) => PrecIn(inner, None, None)
    case Bin(l, _, op, _, r) =>
      Fits(Binding(op), left, right) && PrecIn(l, left, Some(op)) && PrecIn(r, Some(op), right)
  }

  lemma {:induction false} PrecInIs(t: Exp, left: Option<Op>, right: Option<Op>)
    ensures PrecIn(t, left, right) <==> PrecOk(t) && Fits(Prec(t), left, right)
  {
    match t
    case Leaf(_) =>
    case Call(_, arg) => PrecInIs(arg, None, None);
    case Args(list) => PrecInIs(list, None, None);
    case Paren(inner) => PrecInIs(inner, None, None);
    case Bin(l, _, op, _, r) =>
      PrecInIs(l, left, Some(op));
      PrecInIs(r, Some(op), right);
  }

  /** Every accepted pair encloses an operand that fits where it stands. This can
      be read off the expression before the step is run. */
  predicate Sound(t: Exp, left: Option<Op>, right: Option<Op>) {
    match t
    case Leaf(_) => true
    case Call(_, arg) => Sound(arg, None, None)
    case Args(list) => Sound(list, None, None)
    case Paren(inner) =>
      if Accepted(inner, left, right) then Fits(Prec(inner), left, right) && Sound(inner, left, right)
      else Sound(inner, None, None)
    case Bin(l, _, op, _, r) => Sound(l, left, Some(op)) && Sound(r, Some(op), right)
  }

  lemma {:induction false} ErasePrec(t: Exp, left: Option<Op>, right: Option<Op>)
    requires PrecIn(t, left, right)
    ensures PrecIn(Erase(t, left, right), left, right) <==> Sound(t, left, right)
  {
    match t
    case Leaf(_) =>
    case Call(_, arg) => ErasePrec(arg, None, None);
    case Args(list) => ErasePrec(list, None, None);
    case Paren(inner) =>
      if Accepted(inner, left, right) {
        PrecInIs(inner, None, None);
        PrecInIs(inner, left, right);
        if Fits(Prec(inner), left, right) {
          ErasePrec(inner, left, right);
        } else {
          PrecInIs(Erase(inner, left, right), left, right);
        }
      } else {
        ErasePrec(inner, None, None);
      }
    case Bin(l, _, op, _, r) =>
      ErasePrec(l, left, Some(op));
      ErasePrec(r, Some(op), right);
  }

  lemma {:induction false} EraseLex(t: Exp, left: Option<Op>, right: Option<Op>)
    requires LexOk(t)
    ensures LexOk(Erase(t, left, right)) && (Erase(t, left, right).Args? <==> t.Args?)
  {
    match t
    case Leaf(_) =>
    case Call(_, arg) => EraseLex(arg, None, None);
    case Args(list) => EraseLex(list, None, None);
    case Paren(inner) =>
      EraseLex(inner, left, right);
      EraseLex(inner, None, None);
    case Bin(l, _, op, _, r) =>
      EraseLex(l, left, Some(op));
      EraseLex(r, Some(op), right);
  }

  // ---------------------------------- a text and a parse tree fix the grouping

  predicate Solid(c: char) {
    c != ' ' && c != '(' && c != ')'
  }

  /** Characters other than spaces and parentheses. */
  function Weight(s: string): nat {
    if s == "" then 0 else (if Solid(s[0]) then 1 else 0) + Weight(s[1..])
  }

  lemma {:induction false} WeightConcat(a: string, b: string)
    ensures Weight(a + b) == Weight(a) + Weight(b)
  {
    if a == "" {
      assert a + b == b;
    } else {
      assert (a + b)[1..] == a[1..] + b;
      WeightConcat(a[1..], b);
    }
  }

  lemma {:induction false} WeightSpaces(w: string)
    requires Spaces(w)
    ensures Weight(w) == 0
  {
    if w != "" {
      WeightSpaces(w[1..]);
    }
  }

  function TreeWeight(t: Exp): nat {
    match t
    case Leaf(text) => Weight(text)
    case Call(name, arg) => Weight(name) + TreeWeight(arg)
    case Args(list) => TreeWeight(list)
    case Paren(inner) => TreeWeight(inner)
    case Bin(l, _, op, _, r) => TreeWeight(l) + Weight(OpText(op)) + TreeWeight(r)
  }

  lemma {:induction false} BareWeight(t: Exp)
    ensures TreeWeight(Bare(t)) == TreeWeight(t)
  {
    match t
    case Leaf(_) =>
    case Call(_, arg) => BareWeight(arg);
    case Args(list) => BareWeight(list);
    case Paren(inner) => BareWeight(inner);
    case Bin(l, _, _, _, r) =>
      BareWeight(l);
      BareWeight(r);
  }

  lemma {:induction false} GroupWeight(x: string)
    ensures Weight("(" + x + ")") == Weight(x)
  {
    assert "(" + x + ")" == "(" + (x + ")");
    WeightConcat("(", x + ")");
    WeightConcat(x, ")");
    assert "("[1..] == "" && ")"[1..] == "";
  }

  lemma {:induction false} SpellWeight(t: Exp)
    requires LexOk(t)
    ensures Weight(Spell(t)) == TreeWeight(t)
  {
    match t
    case Leaf(_) =>
    case Call(name, arg) =>
      SpellWeight(arg);
      GroupWeight(Spell(arg));
      WeightConcat(name, "(" + Spell(arg) + ")");
    case Args(list) =>
      SpellWeight(list);
      GroupWeight(Spell(list));
    case Paren(inner) =>
      SpellWeight(inner);
      GroupWeight(Spell(inner));
    case Bin(l, w1, op, w2, r) =>
      SpellWeight(l);
      SpellWeight(r);
      JoinWeight(Spell(l), w1, OpText(op), w2, Spell(r));
  }

  lemma {:induction false} JoinWeight(a: string, w1: string, o: string, w2: string, b: string)
    requires Spaces(w1) && Spaces(w2)
    ensures Weight(a + (w1 + (o + (w2 + b)))) == Weight(a) + Weight(o) + Weight(b)
  {
    WeightSpaces(w1);
    WeightSpaces(w2);
    WeightConcat(w2, b);
    WeightConcat(o, w2 + b);
    WeightConcat(w1, o + (w2 + b));
    WeightConcat(a, w1 + (o + (w2 + b)));
  }

  /** Two cuts of one text before a solid character, with equal weight to the
      left, are the same cut. */
  lemma {:induction false} SameCut(a: string, b: string, c: string, d: string)
    requires a + b == c + d && Weight(a) == Weight(c)
    requires b != "" && Solid(b[0]) && d != "" && Solid(d[0])
    ensures a == c && b == d
  {
    if |a| < |c| {
      CutWeight(a, b, c, d);
    } else if |c| < |a| {
      CutWeight(c, d, a, b);
    }
    assert (a + b)[..|a|] == a && (a + b)[|a|..] == b;
    assert (c + d)[..|c|] == c && (c + d)[|c|..] == d;
  }

  lemma {:induction false} CutWeight(a: string, b: string, c: string, d: string)
    requires a + b == c + d && |a| < |c| && b != "" && Solid(b[0])
    ensures Weight(c) > Weight(a)
  {
    var e := c[|a|..];
    assert (c + d)[..|c|] == c && (a + b)[..|a|] == a;
    assert c == a + e;
    assert e[0] == (c + d)[|a|] == b[0];
    WeightConcat(a, e);
  }

  /** Equal texts that differ only in trailing spaces after solid ends agree. */
  lemma {:induction false} SameTrim(x: string, v: string, y: string, w: string)
    requires x + v == y + w && Spaces(v) && Spaces(w)
    requires x != "" && y != "" && x[|x| - 1] != ' ' && y[|y| - 1] != ' '
    ensures x == y && v == w
  {
    TrimRightSpaces(x, v);
    TrimRightSpaces(y, w);
    assert (x + v)[|x|..] == v && (y + w)[|y|..] == w;
  }

  lemma {:induction false} SameTrimLeft(v: string, x: string, w: string, y: string)
    requires v + x == w + y && Spaces(v) && Spaces(w)
    requires x != "" && y != "" && x[0] != ' ' && y[0] != ' '
    ensures x == y && v == w
  {
    TrimLeftSpaces(v, x);
    TrimLeftSpaces(w, y);
    assert (v + x)[..|v|] == v && (w + y)[..|w|] == w;
  }

  /** A group is not an operation: its depth returns to zero only at the end. */
  lemma {:induction false} GroupIsNotBin(x: string, a: string, b: string)
    requires Balanced(x) && Balanced(a) && a != "" && b != ""
    ensures "(" + x + ")" != a + b
  {
    if "(" + x + ")" == a + b {
      FromConcat(START, a, b, |a|);
      InsideParens(x, |a| - 1);
    }
  }

  lemma {:induction false} BareKind(t: Exp)
    requires LexOk(t)
    ensures Bare(t).Args? <==> t.Args?
  {
    if t.Paren? {
      BareKind(t.inner);
    }
  }

  /** Two expressions with the same text and the same parse tree are the same,
      grouping and spaces included. */
  lemma {:induction false} SameTree(u: Exp, v: Exp)
    requires LexOk(u) && LexOk(v) && Spell(u) == Spell(v) && Bare(u) == Bare(v)
    ensures u == v
    decreases u
  {
    SpellEdges(u);
    SpellEdges(v);
    BareKind(u);
    BareKind(v);
    if u.Paren? || v.Paren? {
      var g, o := if u.Paren? then u else v, if u.Paren? then v else u;
      if o.Paren? {
        SameGroup(Spell(u.inner), Spell(v.inner));
        SameTree(u.inner, v.inner);
      } else {
        NoGroup(g, o);
      }
    } else {
      match u
      case Leaf(_) =>
      case Call(name, arg) =>
        assert Spell(u)[|name|..] == "(" + Spell(arg) + ")";
        assert Spell(v)[|name|..] == "(" + Spell(v.arg) + ")";
        SameGroup(Spell(arg), Spell(v.arg));
        SameTree(arg, v.arg);
      case Args(list) =>
        SameGroup(Spell(list), Spell(v.list));
        SameTree(list, v.list);
      case Bin(l, w1, op, w2, r) =>
        SameParts(u, v);
        SameTree(l, v.left);
        SameTree(r, v.right);
    }
  }

  lemma {:induction false} SameGroup(x: string, y: string)
    requires "(" + x + ")" == "(" + y + ")"
    ensures x == y
  {
    assert ("(" + x + ")")[1..|x| + 1] == x;
    assert ("(" + y + ")")[1..|y| + 1] == y;
  }

  lemma {:induction false} NoGroup(g: Exp, o: Exp)
    requires LexOk(g) && LexOk(o) && g.Paren? && !o.Paren? && !o.Args?
    ensures Spell(g) != Spell(o)
  {
    SpellBalanced(g.inner);
    assert Spell(g)[0] == '(';
    match o
    case Leaf(text) =>
    case Call(name, arg) =>
      assert Spell(o)[0] == name[0];
    case Bin(l, w1, op, w2, r) =>
      SpellBalanced(l);
      SpellEdges(l);
      OpPlain(op);
      GroupIsNotBin(Spell(g.inner), Spell(l), w1 + (OpText(op) + (w2 + Spell(r))));
  }

  lemma {:induction false} SameParts(u: Exp, v: Exp)
    requires LexOk(u) && LexOk(v) && u.Bin? && v.Bin? && Spell(u) == Spell(v) && Bare(u) == Bare(v)
    ensures Spell(u.left) == Spell(v.left) && Spell(u.right) == Spell(v.right)
    ensures u.w1 == v.w1 && u.op == v.op && u.w2 == v.w2
  {
    LeftWeight(u);
    LeftWeight(v);
    OpSolid(u.op);
    SpellEdges(u.left);
    SpellEdges(v.left);
    SpellEdges(u.right);
    SpellEdges(v.right);
    SameJoin(Spell(u.left), u.w1, OpText(u.op), u.w2, Spell(u.right),
             Spell(v.left), v.w1, v.w2, Spell(v.right));
  }

  lemma {:induction false} SameJoin(a: string, w1: string, o: string, w2: string, b: string,
                 c: string, v1: string, v2: string, d: string)
    requires a + (w1 + (o + (w2 + b))) == c + (v1 + (o + (v2 + d)))
    requires Weight(a + w1) == Weight(c + v1) && o != "" && Solid(o[0])
    requires Spaces(w1) && Spaces(w2) && Spaces(v1) && Spaces(v2)
    requires Edged(a) && Edged(b) && Edged(c) && Edged(d)
    ensures a == c && w1 == v1 && w2 == v2 && b == d
  {
    Reassociate(a, w1, o + (w2 + b));
    Reassociate(c, v1, o + (v2 + d));
    assert (o + (w2 + b))[0] == o[0] && (o + (v2 + d))[0] == o[0];
    SameCut(a + w1, o + (w2 + b), c + v1, o + (v2 + d));
    SameSides(a, w1, o, w2, b, c, v1, v2, d);
  }

  lemma {:induction false} Reassociate(a: string, b: string, c: string)
    ensures a + (b + c) == (a + b) + c
  {
  }

  lemma {:induction false} SameSides(a: string, w1: string, o: string, w2: string, b: string,
                  c: string, v1: string, v2: string, d: string)
    requires a + w1 == c + v1 && o + (w2 + b) == o + (v2 + d)
    requires Spaces(w1) && Spaces(w2) && Spaces(v1) && Spaces(v2)
    requires Edged(a) && Edged(b) && Edged(c) && Edged(d)
    ensures a == c && w1 == v1 && w2 == v2 && b == d
  {
    SameTrim(a, w1, c, v1);
    SameTail(o, w2 + b, v2 + d);
    SameTrimLeft(w2, b, v2, d);
  }

  lemma {:induction false} SameTail(o: string, x: string, y: string)
    requires o + x == o + y
    ensures x == y
  {
    assert (o + x)[|o|..] == x && (o + y)[|o|..] == y;
  }

  lemma {:induction false} OpSolid(op: Op)
    ensures OpText(op) != "" && Solid(OpText(op)[0])
  {
  }

  lemma {:induction false} LeftWeight(u: Exp)
    requires LexOk(u) && u.Bin?
    ensures Weight(Spell(u.left) + u.w1) == TreeWeight(Bare(u.left))
  {
    WeightConcat(Spell(u.left), u.w1);
    WeightSpaces(u.w1);
    SpellWeight(u.left);
    BareWeight(u.left);
  }

  // -------------------------------------------------------------- main theorems

  /** The text the step leaves can be read with the parse tree it had exactly when
      the expression is sound, in the sense above. */
  lemma {:induction false} MeaningKeptExactly(t: Exp)
    requires LexOk(t) && !t.Args? && PrecOk(t)
    requires Pairs(t) - Pairs(Erase(t, None, None)) <= MAX_PASSES
    ensures (exists u :: LexOk(u) && PrecOk(u) && Spell(u) == CanonArith(Spell(t)) && Bare(u) == Bare(t))
            <==> Sound(t, None, None)
  {
    var e := Erase(t, None, None);
    ArithErases(t);
    ErasePairs(t, None, None);
    EraseLex(t, None, None);
    PrecInIs(t, None, None);
    PrecInIs(e, None, None);
    ErasePrec(t, None, None);
    forall u | LexOk(u) && PrecOk(u) && Spell(u) == CanonArith(Spell(t)) && Bare(u) == Bare(t)
      ensures u == e
    {
      SameTree(u, e);
    }
  }

  lemma {:induction false} DropPrec(t: Exp, left: Option<Op>, right: Option<Op>, u: Exp)
    requires PrecIn(t, left, right) && Sound(t, left, right) && DropFirst(t, left, right) == Some(u)
    ensures PrecIn(u, left, right)
    decreases t
  {
    match t
    case Call(_, arg) => DropPrec(arg, None, None, u.arg);
    case Args(list) => DropPrec(list, None, None, u.list);
    case Paren(inner) =>
      if Accepted(inner, left, right) {
        PrecInIs(inner, None, None);
        PrecInIs(inner, left, right);
      } else {
        DropPrec(inner, None, None, u.inner);
      }
    case Bin(l, _, op, _, r) =>
      if DropFirst(l, left, Some(op)).Some? {
        DropPrec(l, left, Some(op), u.left);
      } else {
        DropPrec(r, Some(op), right, u.right);
      }
  }

  /** Every pass of the step keeps a sound expression sound and within the grammar. */
  lemma {:induction false} DropsSound(t: Exp, n: nat)
    requires LexOk(t) && PrecOk(t) && Sound(t, None, None)
    ensures PrecOk(Drops(t, n)) && Sound(Drops(t, n), None, None)
    decreases n
  {
    if n > 0 && DropFirst(t, None, None).Some? {
      var u := DropFirst(t, None, None).value;
      PrecInIs(t, None, None);
      PrecInIs(u, None, None);
      DropPrec(t, None, None, u);
      DropErases(t, None, None);
      DropKeeps(t, None, None);
      ErasePrec(t, None, None);
      ErasePrec(u, None, None);
      DropsSound(u, n - 1);
    }
  }

  /** A sound expression, with any number of pairs, leaves a text that can be read
      with its parse tree. */
  lemma {:induction false} SoundKeepsMeaning(t: Exp, n: nat)
    requires LexOk(t) && !t.Args? && PrecOk(t) && Sound(t, None, None) && n == MAX_PASSES
    ensures var u := Drops(t, n);
            LexOk(u) && !u.Args? && PrecOk(u) && Spell(u) == CanonArith(Spell(t)) && Bare(u) == Bare(t)
  {
    ArithDrops(t, n);
    DropsSound(t, n);
  }

  // ------------------------------------------------------- a limit on the pairs

  /** The accepted pairs. */
  function Count(t: Exp, left: Option<Op>, right: Option<Op>): nat {
    match t
    case Leaf(_) => 0
    case Call(_, arg) => Count(arg, None, None)
    case Args(list) => Count(list, None, None)
    case Paren(inner) =>
      if Accepted(inner, left, right) then 1 + Count(inner, left, right) else Count(inner, None, None)
    case Bin(l, _, op, _, r) => Count(l, left, Some(op)) + Count(r, Some(op), right)
  }

  function Less(n: nat, k: nat): nat {
    if k < n then n - k else 0
  }

  /** The expression without its first n accepted pairs, from left to right. */
  function EraseSome(t: Exp, left: Option<Op>, right: Option<Op>, n: nat): Exp {
    match t
    case Leaf(_) => t
    case Call(name, arg) => Call(name, EraseSome(arg, None, None, n))
    case Args(list) => Args(EraseSome(list, None, None, n))
    case Paren(inner) =>
      if !Accepted(inner, left, right) then Paren(EraseSome(inner, None, None, n))
      else if n > 0 then EraseSome(inner, left, right, n - 1)
      else t
    case Bin(l, w1, op, w2, r) =>
      Bin(EraseSome(l, left, Some(op), n), w1, op, w2,
          EraseSome(r, Some(op), right, Less(n, Count(l, left, Some(op)))))
  }

  /** The first n accepted pairs fit where they stand: Sound, for so many pairs. */
  predicate SoundFirst(t: Exp, left: Option<Op>, right: Option<Op>, n: nat) {
    match t
    case Leaf(_) => true
    case Call(_, arg) => SoundFirst(arg, None, None, n)
    case Args(list) => SoundFirst(list, None, None, n)
    case Paren(inner) =>
      if !Accepted(inner, left, right) then SoundFirst(inner, None, None, n)
      else n > 0 ==> Fits(Prec(inner), left, right) && SoundFirst(inner, left, right, n - 1)
    case Bin(l, _, op, _, r) =>
      && SoundFirst(l, left, Some(op), n)
      && SoundFirst(r, Some(op), right, Less(n, Count(l, left, Some(op))))
  }

  lemma {:induction false} EraseNone(t: Exp, left: Option<Op>, right: Option<Op>, n: nat)
    requires n == 0 || Count(t, left, right) == 0
    ensures EraseSome(t, left, right, n) == t
  {
    match t
    case Leaf(_) =>
    case Call(_, arg) => EraseNone(arg, None, None, n);
    case Args(list) => EraseNone(list, None, None, n);
    case Paren(inner) =>
      if !Accepted(inner, left, right) {
        EraseNone(inner, None, None, n);
      }
    case Bin(l, _, op, _, r) =>
      EraseNone(l, left, Some(op), n);
      EraseNone(r, Some(op), right, Less(n, Count(l, left, Some(op))));
  }

  /** A pass takes away the first accepted pair and leaves the others accepted. */
  lemma {:induction false} DropIsFirst(t: Exp, left: Option<Op>, right: Option<Op>, n: nat)
    requires LexOk(t)
    ensures match DropFirst(t, left, right)
            case None => Count(t, left, right) == 0
            case Some(u) =>
              && Count(t, left, right) == 1 + Count(u, left, right)
              && EraseSome(t, left, right, n + 1) == EraseSome(u, left, right, n)
    decreases t, 1
  {
    match t
    case Leaf(_) =>
    case Call(_, arg) => DropIsFirst(arg, None, None, n);
    case Args(list) => DropIsFirst(list, None, None, n);
    case Paren(inner) =>
      if !Accepted(inner, left, right) {
        DropIsFirst(inner, None, None, n);
        if DropFirst(inner, None, None).Some? {
          DropKeeps(inner, None, None);
        }
      }
    case Bin(l, _, op, _, r) =>
      DropIsFirstIn(t, left, right, n, Count(l, left, Some(op)), n + 1);
  }

  lemma {:induction false} DropIsFirstIn(t: Exp, left: Option<Op>, right: Option<Op>, n: nat, k: nat, m: nat)
    requires LexOk(t) && t.Bin? && k == Count(t.left, left, Some(t.op)) && m == n + 1
    ensures match DropFirst(t, left, right)
            case None => Count(t, left, right) == 0
            case Some(u) =>
              && Count(t, left, right) == 1 + Count(u, left, right)
              && EraseSome(t, left, right, m) == EraseSome(u, left, right, n)
    decreases t, 0
  {
    var l, op, r := t.left, t.op, t.right;
    DropIsFirst(l, left, Some(op), n);
    if k == 0 {
      EraseNone(l, left, Some(op), m);
      EraseNone(l, left, Some(op), n);
      DropIsFirst(r, Some(op), right, n);
    } else {
      assert Less(m, k) == Less(n, k - 1);
    }
  }

  lemma {:induction false} DropsAre(t: Exp, n: nat)
    requires LexOk(t)
    ensures Drops(t, n) == EraseSome(t, None, None, n)
    decreases n
  {
    if n == 0 || DropFirst(t, None, None).None? {
      DropIsFirst(t, None, None, n);
      EraseNone(t, None, None, n);
    } else {
      DropIsFirst(t, None, None, n - 1);
      DropKeeps(t, None, None);
      DropsAre(DropFirst(t, None, None).value, n - 1);
    }
  }

  lemma {:induction false} SomePrec(t: Exp, left: Option<Op>, right: Option<Op>, n: nat)
    requires PrecIn(t, left, right)
    ensures PrecIn(EraseSome(t, left, right, n), left, right) <==> SoundFirst(t, left, right, n)
  {
    match t
    case Leaf(_) =>
    case Call(_, arg) => SomePrec(arg, None, None, n);
    case Args(list) => SomePrec(list, None, None, n);
    case Paren(inner) =>
      if !Accepted(inner, left, right) {
        SomePrec(inner, None, None, n);
      } else if n > 0 {
        var u := EraseSome(inner, left, right, n - 1);
        PrecInIs(inner, None, None);
        PrecInIs(inner, left, right);
        if Fits(Prec(inner), left, right) {
          SomePrec(inner, left, right, n - 1);
        } else {
          PrecInIs(u, left, right);
          SomeWeaker(inner, left, right, n - 1);
        }
      }
    case Bin(l, _, op, _, r) =>
      SomePrec(l, left, Some(op), n);
      SomePrec(r, Some(op), right, Less(n, Count(l, left, Some(op))));
  }

  /** Erasing pairs never makes an operand fit that did not. */
  lemma {:induction false} SomeWeaker(t: Exp, left: Option<Op>, right: Option<Op>, n: nat)
    ensures Prec(EraseSome(t, left, right, n)) <= Prec(t)
  {
    if t.Paren? && Accepted(t.inner, left, right) && n > 0 {
      PrecAtMost(EraseSome(t, left, right, n));
    }
  }

  lemma {:induction false} PrecAtMost(t: Exp)
    ensures Prec(t) <= ATOM_BINDING
  {
  }

  /** For any number of pairs: the text can be read with the old parse tree exactly
      when the first 64 accepted pairs of the expression fit between their neighbours. */
  lemma {:induction false} ReadableExactly(t: Exp, n: nat)
    requires LexOk(t) && !t.Args? && n == MAX_PASSES
    ensures (exists u :: LexOk(u) && PrecOk(u) && Spell(u) == CanonArith(Spell(t)) && Bare(u) == Bare(t))
            <==> PrecOk(Drops(t, n))
    ensures PrecOk(t) ==> (PrecOk(Drops(t, n)) <==> SoundFirst(t, None, None, n))
  {
    ArithDrops(t, n);
    forall u | LexOk(u) && PrecOk(u) && Spell(u) == CanonArith(Spell(t)) && Bare(u) == Bare(t)
      ensures u == Drops(t, n)
    {
      SameTree(u, Drops(t, n));
    }
    DropsAre(t, n);
    PrecInIs(t, None, None);
    PrecInIs(Drops(t, n), None, None);
    if PrecOk(t) {
      SomePrec(t, None, None, n);
    }
  }

  // -------------------------------------------------------------- one deletion

  /** u is t, beside which left0 and right0 stand, without one pair: the pair is
      around e, and left and right are the operators beside it. */
  predicate Without(t: Exp, left0: Option<Op>, right0: Option<Op>, u: Exp, e: Exp, left: Option<Op>, right: Option<Op>) {
    match t
    case Leaf(_) => false
    case Call(name, arg) => u.Call? && u.name == name && Without(arg, None, None, u.arg, e, left, right)
    case Args(list) => u.Args? && Without(list, None, None, u.list, e, left, right)
    case Paren(inner) =>
      || (u == inner == e && left == left0 && right == right0)
      || (u.Paren? && Without(inner, None, None, u.inner, e, left, right))
    case Bin(l, w1, op, w2, r) =>
      && u.Bin? && u.w1 == w1 && u.op == op && u.w2 == w2
      && (|| (u.right == r && Without(l, left0, Some(op), u.left, e, left, right))
          || (u.left == l && Without(r, Some(op), right0, u.right, e, left, right)))
  }

  /** Taking any pair away leaves an expression that obeys precedence exactly when
      its content fits between its neighbours. */
  lemma {:induction false} WithoutPrec(t: Exp, left0: Option<Op>, right0: Option<Op>, u: Exp, e: Exp,
                                       left: Option<Op>, right: Option<Op>)
    requires PrecIn(t, left0, right0) && Without(t, left0, right0, u, e, left, right)
    ensures PrecIn(u, left0, right0) <==> Fits(Prec(e), left, right)
  {
    match t
    case Call(_, arg) => WithoutPrec(arg, None, None, u.arg, e, left, right);
    case Args(list) => WithoutPrec(list, None, None, u.list, e, left, right);
    case Paren(inner) =>
      if u == inner == e && left == left0 && right == right0 {
        PrecInIs(inner, None, None);
        PrecInIs(inner, left0, right0);
      } else {
        WithoutPrec(inner, None, None, u.inner, e, left, right);
      }
    case Bin(l, _, op, _, r) =>
      if u.right == r && Without(l, left0, Some(op), u.left, e, left, right) {
        WithoutPrec(l, left0, Some(op), u.left, e, left, right);
      } else {
        WithoutPrec(r, Some(op), right0, u.right, e, left, right);
      }
  }

  /** The pair a pass takes away, and what stands beside it. */
  lemma {:induction false} DropIsWithout(t: Exp, left0: Option<Op>, right0: Option<Op>, u: Exp)
    returns (e: Exp, left: Option<Op>, right: Option<Op>)
    requires DropFirst(t, left0, right0) == Some(u)
    ensures Without(t, left0, right0, u, e, left, right) && Accepted(e, left, right)
    decreases t
  {
    match t
    case Call(_, arg) => e, left, right := DropIsWithout(arg, None, None, u.arg);
    case Args(list) => e, left, right := DropIsWithout(list, None, None, u.list);
    case Paren(inner) =>
      if Accepted(inner, left0, right0) {
        e, left, right := inner, left0, right0;
      } else {
        e, left, right := DropIsWithout(inner, None, None, u.inner);
      }
    case Bin(l, _, op, _, r) =>
      if DropFirst(l, left0, Some(op)).Some? {
        e, left, right := DropIsWithout(l, left0, Some(op), u.left);
      } else {
        e, left, right := DropIsWithout(r, Some(op), right0, u.right);
      }
  }

  /** One deletion: the text without the pair around e is readable with the old
      parse tree exactly when e fits between its neighbours. */
  lemma {:induction false} OneDeletionExactly(t: Exp, u: Exp) returns (e: Exp, left: Option<Op>, right: Option<Op>)
    requires LexOk(t) && !t.Args? && PrecOk(t) && DropFirst(t, None, None) == Some(u)
    ensures Without(t, None, None, u, e, left, right) && Accepted(e, left, right)
    ensures (exists v :: LexOk(v) && PrecOk(v) && Spell(v) == Spell(u) && Bare(v) == Bare(t))
            <==> Fits(Prec(e), left, right)
  {
    e, left, right := DropIsWithout(t, None, None, u);
    PrecInIs(t, None, None);
    PrecInIs(u, None, None);
    WithoutPrec(t, None, None, u, e, left, right);
    DropKeeps(t, None, None);
    forall v | LexOk(v) && PrecOk(v) && Spell(v) == Spell(u) && Bare(v) == Bare(t)
      ensures v == u
    {
      SameTree(v, u);
    }
  }

  // ------------------------------------------------- expressions of table operators

  /** Only operators the source's table knows. */
  predicate TableOnly(t: Exp) {
    match t
    case Leaf(_) => true
    case Call(name, arg) => name != "not" && TableOnly(arg)
    case Args(list) => TableOnly(list)
    case Paren(inner) => TableOnly(inner)
    case Bin(l, _, op, _, r) => TableOnly(l) && InTable(op) && TableOnly(r)
  }

  predicate TableOp(op: Option<Op>) {
    op.Some? ==> InTable(op.value)
  }

  /** Among table operators the root of a tree is its weakest operator. */
  lemma {:induction false} TopIsRoot(t: Exp)
    requires TableOnly(t) && PrecOk(t)
    ensures Top(t) == if t.Bin? then TablePrec(OpText(t.op)) else ATOM
  {
    if t.Bin? {
      TopIsRoot(t.left);
      TopIsRoot(t.right);
    }
  }

  /** Under a content precedence the step looks at, the table orders operators as
      PostgreSQL does. */
  lemma {:induction false} TableOrder(e: Exp, op: Op)
    requires TableOnly(e) && PrecOk(e) && InTable(op) && Top(e) >= PREC_MIN
    ensures Top(e) > TablePrec(OpText(op)) <==> Prec(e) > Binding(op)
    ensures Top(e) >= TablePrec(OpText(op)) <==> Prec(e) >= Binding(op)
  {
    TopIsRoot(e);
  }

  /** The condition that is missing in the source: no accepted pair stands before
      an operator that binds tighter than its content. */
  predicate RightOk(t: Exp, left: Option<Op>, right: Option<Op>) {
    match t
    case Leaf(_) => true
    case Call(_, arg) => RightOk(arg, None, None)
    case Args(list) => RightOk(list, None, None)
    case Paren(inner) =>
      if Accepted(inner, left, right)
      then (Vis(right).Some? ==> Top(inner) >= Vis(right).value) && RightOk(inner, left, right)
      else RightOk(inner, None, None)
    case Bin(l, _, op, _, r) => RightOk(l, left, Some(op)) && RightOk(r, Some(op), right)
  }

  lemma {:induction false} SoundIsRightOk(t: Exp, left: Option<Op>, right: Option<Op>)
    requires TableOnly(t) && PrecOk(t) && TableOp(left) && TableOp(right)
    ensures Sound(t, left, right) <==> RightOk(t, left, right)
  {
    match t
    case Leaf(_) =>
    case Call(_, arg) => SoundIsRightOk(arg, None, None);
    case Args(list) => SoundIsRightOk(list, None, None);
    case Paren(inner) =>
      SoundIsRightOk(inner, left, right);
      SoundIsRightOk(inner, None, None);
      if Accepted(inner, left, right) {
        if left.Some? {
          TableOrder(inner, left.value);
        }
        if right.Some? {
          TableOrder(inner, right.value);
        }
      }
    case Bin(l, _, op, _, r) =>
      SoundIsRightOk(l, left, Some(op));
      SoundIsRightOk(r, Some(op), right);
  }

  /** For table operators the meaning survives exactly when no accepted pair has
      a tighter operator on its right. */
  lemma {:induction false} TableMeaningKeptExactly(t: Exp)
    requires LexOk(t) && !t.Args? && PrecOk(t) && TableOnly(t)
    requires Pairs(t) - Pairs(Erase(t, None, None)) <= MAX_PASSES
    ensures (exists u :: LexOk(u) && PrecOk(u) && Spell(u) == CanonArith(Spell(t)) && Bare(u) == Bare(t))
            <==> RightOk(t, None, None)
  {
    MeaningKeptExactly(t);
    SoundIsRightOk(t, None, None);
  }

  // ------------------------------------------------------------ a two-sided rule

  /** Both neighbours asked. */
  predicate AcceptedBoth(e: Exp, left: Option<Op>, right: Option<Op>) {
    && Top(e) >= PREC_MIN
    && (Vis(left).Some? ==> Top(e) > Vis(left).value)
    && (Vis(right).Some? ==> Top(e) >= Vis(right).value)
  }

  function EraseBoth(t: Exp, left: Option<Op>, right: Option<Op>): Exp {
    match t
    case Leaf(_) => t
    case Call(name, arg) => Call(name, EraseBoth(arg, None, None))
    case Args(list) => Args(EraseBoth(list, None, None))
    case Paren(inner) =>
      if AcceptedBoth(inner, left, right) then EraseBoth(inner, left, right)
      else Paren(EraseBoth(inner, None, None))
    case Bin(l, w1, op, w2, r) =>
      Bin(EraseBoth(l, left, Some(op)), w1, op, w2, EraseBoth(r, Some(op), right))
  }

  /** The two-sided rule keeps every parse tree. */
  lemma {:induction false} TwoSidedSound(t: Exp, left: Option<Op>, right: Option<Op>)
    requires TableOnly(t) && PrecIn(t, left, right) && TableOp(left) && TableOp(right)
    ensures PrecIn(EraseBoth(t, left, right), left, right)
    ensures Bare(EraseBoth(t, left, right)) == Bare(t)
  {
    match t
    case Leaf(_) =>
    case Call(_, arg) => TwoSidedSound(arg, None, None);
    case Args(list) => TwoSidedSound(list, None, None);
    case Paren(inner) =>
      if AcceptedBoth(inner, left, right) {
        PrecInIs(inner, None, None);
        PrecInIs(inner, left, right);
        if left.Some? {
          TableOrder(inner, left.value);
        }
        if right.Some? {
          TableOrder(inner, right.value);
        }
        TwoSidedSound(inner, left, right);
      } else {
        TwoSidedSound(inner, None, None);
      }
    case Bin(l, _, op, _, r) =>
      TwoSidedSound(l, left, Some(op));
      TwoSidedSound(r, Some(op), right);
  }

  /** The source's rule and the two-sided rule erase the same pairs exactly when
      no accepted pair has a tighter operator on its right. */
  lemma {:induction false} RulesAgreeExactly(t: Exp, left: Option<Op>, right: Option<Op>)
    ensures Erase(t, left, right) == EraseBoth(t, left, right) <==> RightOk(t, left, right)
  {
    match t
    case Leaf(_) =>
    case Call(_, arg) => RulesAgreeExactly(arg, None, None);
    case Args(list) => RulesAgreeExactly(list, None, None);
    case Paren(inner) =>
      RulesAgreeExactly(inner, left, right);
      RulesAgreeExactly(inner, None, None);
    case Bin(l, _, op, _, r) =>
      RulesAgreeExactly(l, left, Some(op));
      RulesAgreeExactly(r, Some(op), right);
  }

  // ------------------------------------------ what is kept, and what is not, of a text

  /** The table precedence of a neighbour, if there is one. */
  function Beside(op: Option<Op>): Option<int> {
    if op.Some? then Some(TablePrec(OpText(op.value))) else None
  }

  /** A content of table precedence p stands between a looser operator on its left and
      a tighter one on its right. */
  predicate Squeezed(p: int, left: Option<Op>, right: Option<Op>) {
    left.Some? && right.Some? && Beside(left).value < p < Beside(right).value
  }

  /** No group stands so, between its own neighbours or those it has once the groups
      around it are gone. */
  predicate Unsqueezed(t: Exp, left: Option<Op>, right: Option<Op>) {
    match t
    case Leaf(_) => true
    case Call(_, arg) => Unsqueezed(arg, None, None)
    case Args(list) => Unsqueezed(list, None, None)
    case Paren(inner) =>
      !Squeezed(Top(inner), left, right) && Unsqueezed(inner, left, right) && Unsqueezed(inner, None, None)
    case Bin(l, _, op, _, r) => Unsqueezed(l, left, Some(op)) && Unsqueezed(r, Some(op), right)
  }

  lemma {:induction false} UnsqueezedSound(t: Exp, left: Option<Op>, right: Option<Op>)
    requires TableOnly(t) && PrecOk(t) && TableOp(left) && TableOp(right) && Unsqueezed(t, left, right)
    ensures Sound(t, left, right)
  {
    match t
    case Leaf(_) =>
    case Call(_, arg) => UnsqueezedSound(arg, None, None);
    case Args(list) => UnsqueezedSound(list, None, None);
    case Paren(inner) =>
      UnsqueezedSound(inner, left, right);
      UnsqueezedSound(inner, None, None);
      if Top(inner) >= PREC_MIN {
        if left.Some? {
          TableOrder(inner, left.value);
        }
        if right.Some? {
          TableOrder(inner, right.value);
        }
      }
    case Bin(l, _, op, _, r) =>
      UnsqueezedSound(l, left, Some(op));
      UnsqueezedSound(r, Some(op), right);
  }

  /** On expressions of table operators the output can be read with the old parse tree
      whenever no group stands between a looser operator on its left and a tighter one
      on its right. */
  lemma {:induction false} UnsqueezedKept(t: Exp)
    requires LexOk(t) && !t.Args? && PrecOk(t) && TableOnly(t) && Unsqueezed(t, None, None)
    ensures exists u :: LexOk(u) && PrecOk(u) && Spell(u) == CanonArith(Spell(t)) && Bare(u) == Bare(t)
  {
    var n := MAX_PASSES;
    UnsqueezedSound(t, None, None);
    SoundKeepsMeaning(t, n);
    var u := Drops(t, n);
    assert LexOk(u) && PrecOk(u) && Spell(u) == CanonArith(Spell(t)) && Bare(u) == Bare(t);
  }

  /** No pair is left around a content that binds at least as tight as "+" and as both
      neighbours ask: tighter than the left one, no looser than the right one. */
  predicate NoneRedundant(t: Exp, left: Option<Op>, right: Option<Op>) {
    match t
    case Leaf(_) => true
    case Call(_, arg) => NoneRedundant(arg, None, None)
    case Args(list) => NoneRedundant(list, None, None)
    case Paren(inner) =>
      && !(Top(inner) >= 4 && (left.Some? ==> Top(inner) > Beside(left).value) && (right.Some? ==> Top(inner) >= Beside(right).value))
      && NoneRedundant(inner, None, None)
    case Bin(l, _, op, _, r) => NoneRedundant(l, left, Some(op)) && NoneRedundant(r, Some(op), right)
  }

  lemma {:induction false} ErasedTop(t: Exp, left: Option<Op>, right: Option<Op>)
    ensures Top(Erase(t, left, right)) <= Top(t)
  {
    TopRange(t);
    match t
    case Leaf(_) =>
    case Call(_, arg) =>
    case Args(_) =>
    case Paren(inner) =>
      TopRange(Erase(t, left, right));
    case Bin(l, _, op, _, r) =>
      ErasedTop(l, left, Some(op));
      ErasedTop(r, Some(op), right);
      TopRange(l);
      TopRange(r);
      TopRange(Erase(l, left, Some(op)));
      TopRange(Erase(r, Some(op), right));
  }

  lemma {:induction false} ErasedRedundant(t: Exp, left: Option<Op>, right: Option<Op>)
    requires TableOnly(t) && TableOp(left) && TableOp(right)
    ensures NoneRedundant(Erase(t, left, right), left, right)
  {
    match t
    case Leaf(_) =>
    case Call(_, arg) => ErasedRedundant(arg, None, None);
    case Args(list) => ErasedRedundant(list, None, None);
    case Paren(inner) =>
      ErasedRedundant(inner, left, right);
      ErasedRedundant(inner, None, None);
      ErasedTop(inner, None, None);
    case Bin(l, _, op, _, r) =>
      ErasedRedundant(l, left, Some(op));
      ErasedRedundant(r, Some(op), right);
  }

  /** On expressions of table operators the output holds no such pair, when at most 64
      pairs were to go. */
  lemma {:induction false} RedundantGone(t: Exp)
    requires LexOk(t) && !t.Args? && TableOnly(t) && Count(t, None, None) <= 64
    ensures exists u :: LexOk(u) && Spell(u) == CanonArith(Spell(t)) && Bare(u) == Bare(t) && NoneRedundant(u, None, None)
  {
    var u := Erase(t, None, None);
    CountPairs(t, None, None);
    ArithErases(t);
    ErasePairs(t, None, None);
    EraseLex(t, None, None);
    ErasedRedundant(t, None, None);
    assert LexOk(u) && Spell(u) == CanonArith(Spell(t)) && Bare(u) == Bare(t);
  }

  lemma {:induction false} CountPairs(t: Exp, left: Option<Op>, right: Option<Op>)
    ensures Pairs(Erase(t, left, right)) == Pairs(t) - Count(t, left, right)
  {
    match t
    case Leaf(_) =>
    case Call(_, arg) => CountPairs(arg, None, None);
    case Args(list) => CountPairs(list, None, None);
    case Paren(inner) =>
      CountPairs(inner, left, right);
      CountPairs(inner, None, None);
    case Bin(l, _, op, _, r) =>
      CountPairs(l, left, Some(op));
      CountPairs(r, Some(op), right);
  }

  /** Up to 64 accepted pairs all go; of more, exactly 64. */
  lemma {:induction false} PairsGone(t: Exp)
    requires LexOk(t) && !t.Args?
    ensures Count(t, None, None) <= 64 ==> CanonArith(Spell(t)) == Spell(Erase(t, None, None))
    ensures |CanonArith(Spell(t))| == |Spell(t)| - 2 * Min(Count(t, None, None), 64)
  {
    var n := MAX_PASSES;
    CountPairs(t, None, None);
    ArithErases(t);
    ArithDrops(t, n);
    DropsCount(t, n);
  }

  lemma {:induction false} DropsCount(t: Exp, n: nat)
    requires LexOk(t) && !t.Args?
    ensures |Spell(Drops(t, n))| == |Spell(t)| - 2 * Min(Count(t, None, None), n)
    decreases n
  {
    if n > 0 {
      OneDrop(t, DropFirst(t, None, None));
      if DropFirst(t, None, None).Some? {
        DropsCount(DropFirst(t, None, None).value, n - 1);
      }
    }
  }

  lemma {:induction false} OneDrop(t: Exp, d: Option<Exp>)
    requires LexOk(t) && !t.Args? && d == DropFirst(t, None, None)
    ensures d.None? ==> Count(t, None, None) == 0
    ensures d.Some? ==>
              && LexOk(d.value) && !d.value.Args?
              && Count(d.value, None, None) == Count(t, None, None) - 1 && |Spell(d.value)| == |Spell(t)| - 2
  {
    DropIsFirst(t, None, None, 0);
    if d.Some? {
      OnePass(t);
      DropKeeps(t, None, None);
    }
  }

  /** "(a + b) * c" is its own output. */
  lemma {:induction false} GroupKeptBeforeTimes(a: Exp, b: Exp, c: Exp, w: string)
    requires Words(a) && Words(b) && Words(c) && Spaces(w)
    ensures var t := Bin(Paren(Bin(a, w, Plus, w, b)), w, Times, w, c);
            LexOk(t) && PrecOk(t) && CanonArith(Spell(t)) == Spell(t)
  {
    TableValues();
    var sum := Bin(a, w, Plus, w, b);
    var t := Bin(Paren(sum), w, Times, w, c);
    LeafPair(a, b, w, Plus);
    SymbolForms(a, w, Plus, b);
    GroupForms(sum);
    SymbolForms(Paren(sum), w, Times, c);
    assert Erase(sum, None, None) == sum;
    assert Erase(Paren(sum), None, Some(Times)) == Paren(sum);
    ErasePairs(t, None, None);
    ArithErases(t);
  }

  /** "y <= (a + b)" loses its pair. */
  lemma {:induction false} GroupGoneAfterLe(y: Exp, a: Exp, b: Exp, w: string)
    requires Words(y) && Words(a) && Words(b) && Spaces(w)
    ensures var t, u := Bin(y, w, Le, w, Paren(Bin(a, w, Plus, w, b))), Bin(y, w, Le, w, Bin(a, w, Plus, w, b));
            LexOk(t) && PrecOk(t) && CanonArith(Spell(t)) == Spell(u)
  {
    var sum := Bin(a, w, Plus, w, b);
    var t := Bin(y, w, Le, w, Paren(sum));
    LeafPair(a, b, w, Plus);
    SymbolForms(a, w, Plus, b);
    GroupForms(sum);
    SymbolForms(y, w, Le, Paren(sum));
    LeErased(y, a, b, w, sum);
    FewPairs(t, Bin(y, w, Le, w, sum));
  }

  lemma {:induction false} LeErased(y: Exp, a: Exp, b: Exp, w: string, sum: Exp)
    requires y.Leaf? && a.Leaf? && b.Leaf? && sum == Bin(a, w, Plus, w, b)
    ensures Erase(Bin(y, w, Le, w, Paren(sum)), None, None) == Bin(y, w, Le, w, sum)
  {
    TableValues();
    LeafPair(a, b, w, Plus);
    assert ScanPrec(Le) == 3;
    assert Erase(sum, Some(Le), None) == sum;
    assert Erase(Paren(sum), Some(Le), None) == sum;
  }

  lemma {:induction false} FewPairs(t: Exp, e: Exp)
    requires LexOk(t) && !t.Args? && Pairs(t) <= 1 && Erase(t, None, None) == e
    ensures CanonArith(Spell(t)) == Spell(e)
  {
    ErasePairs(t, None, None);
    ArithErases(t);
  }

  // ------------------------------------------------------------ false equalities

  predicate Words(t: Exp) {
    t.Leaf? && LexOk(t)
  }

  /** "x = (a + b) * c", with w around the symbols. */
  function SumTimes(x: Exp, a: Exp, b: Exp, c: Exp, w: string): Exp {
    Bin(x, w, Eq, w, Bin(Paren(Bin(a, w, Plus, w, b)), w, Times, w, c))
  }

  /** "x = a + b * c". */
  function SumOfTimes(x: Exp, a: Exp, b: Exp, c: Exp, w: string): Exp {
    Bin(x, w, Eq, w, Bin(a, w, Plus, w, Bin(b, w, Times, w, c)))
  }

  /** Two predicates with different parse trees get the same text, for any words
      and spacing: the pair before "*" goes because only "=" on its left is asked. */
  lemma {:induction false} GroupLostBeforeTimes(x: Exp, a: Exp, b: Exp, c: Exp, w: string)
    requires Words(x) && Words(a) && Words(b) && Words(c) && Spaces(w)
    ensures var t, u := SumTimes(x, a, b, c, w), SumOfTimes(x, a, b, c, w);
            && LexOk(t) && LexOk(u) && PrecOk(t) && PrecOk(u) && Bare(t) != Bare(u)
            && CanonArith(Spell(t)) == CanonArith(Spell(u))
  {
    var t, u := SumTimes(x, a, b, c, w), SumOfTimes(x, a, b, c, w);
    SumTimesErased(x, a, b, c, w);
    TimesForms(x, a, b, c, w);
    PlusForms(x, a, b, c, w);
    assert Bare(t).right == Bare(t.right) && Bare(u).right == Bare(u.right);
    assert Bare(t.right).op == Times && Bare(u.right).op == Plus;
    ErasePairs(u, None, None);
    ArithErases(t);
    ArithErases(u);
    SameSpelling(x, a, b, c, w);
  }

  lemma {:induction false} TimesForms(x: Exp, a: Exp, b: Exp, c: Exp, w: string)
    requires Words(x) && Words(a) && Words(b) && Words(c) && Spaces(w)
    ensures var t := SumTimes(x, a, b, c, w);
            LexOk(t) && PrecOk(t) && Pairs(t) == 1
  {
    var ab := Bin(a, w, Plus, w, b);
    SymbolForms(a, w, Plus, b);
    GroupForms(ab);
    SymbolForms(Paren(ab), w, Times, c);
    SymbolForms(x, w, Eq, Bin(Paren(ab), w, Times, w, c));
  }

  lemma {:induction false} PlusForms(x: Exp, a: Exp, b: Exp, c: Exp, w: string)
    requires Words(x) && Words(a) && Words(b) && Words(c) && Spaces(w)
    ensures var u := SumOfTimes(x, a, b, c, w);
            LexOk(u) && PrecOk(u) && Pairs(u) == 0
  {
    SymbolForms(b, w, Times, c);
    SymbolForms(a, w, Plus, Bin(b, w, Times, w, c));
    SymbolForms(x, w, Eq, Bin(a, w, Plus, w, Bin(b, w, Times, w, c)));
  }

  lemma {:induction false} GroupForms(e: Exp)
    requires LexOk(e) && !e.Args? && PrecOk(e)
    ensures LexOk(Paren(e)) && PrecOk(Paren(e)) && Prec(Paren(e)) == ATOM_BINDING
    ensures Pairs(Paren(e)) == 1 + Pairs(e)
  {
  }

  lemma {:induction false} SymbolForms(l: Exp, w: string, op: Op, r: Exp)
    requires LexOk(l) && !l.Args? && LexOk(r) && !r.Args? && Spaces(w) && !op.In? && (IsWordOp(op) ==> w != "")
    requires PrecOk(l) && PrecOk(r) && Prec(l) >= Binding(op) && Prec(r) > Binding(op)
    ensures var t := Bin(l, w, op, w, r);
            && LexOk(t) && PrecOk(t) && Bare(t) == Bin(Bare(l), "", op, "", Bare(r))
            && Pairs(t) == Pairs(l) + Pairs(r)
  {
  }

  lemma {:induction false} SumTimesErased(x: Exp, a: Exp, b: Exp, c: Exp, w: string)
    requires x.Leaf? && a.Leaf? && b.Leaf? && c.Leaf?
    ensures Erase(SumTimes(x, a, b, c, w), None, None) ==
            Bin(x, w, Eq, w, Bin(Bin(a, w, Plus, w, b), w, Times, w, c))
  {
    TableValues();
    var sum := Bin(a, w, Plus, w, b);
    LeafPair(a, b, w, Plus);
    assert Erase(Paren(sum), Some(Eq), Some(Times)) == Erase(sum, Some(Eq), Some(Times)) == sum;
    assert Erase(Bin(Paren(sum), w, Times, w, c), Some(Eq), None) == Bin(sum, w, Times, w, c);
  }

  lemma {:induction false} SameSpelling(x: Exp, a: Exp, b: Exp, c: Exp, w: string)
    ensures Spell(Bin(x, w, Eq, w, Bin(Bin(a, w, Plus, w, b), w, Times, w, c))) ==
            Spell(SumOfTimes(x, a, b, c, w))
  {
    var ab, bc := Bin(a, w, Plus, w, b), Bin(b, w, Times, w, c);
    var l, r := Bin(ab, w, Times, w, c), Bin(a, w, Plus, w, bc);
    Regrouped(Spell(a), w, "+", Spell(b), w + ("*" + (w + Spell(c))));
    assert Spell(ab) == Spell(a) + (w + ("+" + (w + Spell(b))));
    assert Spell(bc) == Spell(b) + (w + ("*" + (w + Spell(c))));
    assert Spell(l) == Spell(r);
  }

  lemma {:induction false} Regrouped(a: string, w: string, o: string, b: string, z: string)
    ensures (a + (w + (o + (w + b)))) + z == a + (w + (o + (w + (b + z))))
  {
  }

  lemma {:induction false} TableValues()
    ensures ScanPrec(Eq) == 3 && ScanPrec(Plus) == 4 && ScanPrec(Times) == 5
    ensures Vis(Some(Eq)) == Some(3) && Vis(Some(Times)) == Some(5)
    ensures Vis(Some(Pow)) == None
  {
    OneCharDiffers("=", '+', "+");
    OneCharDiffers("=", '-', "-");
    OneCharDiffers("=", '*', "*");
    OneCharDiffers("=", '/', "/");
    OneCharDiffers("=", '%', "%");
    OneCharDiffers("*", '+', "+");
    OneCharDiffers("*", '-', "-");
  }

  lemma {:induction false} OneCharDiffers(x: string, c: char, y: string)
    requires |x| == 1 && x[0] != c && y == [c]
    ensures x != y
  {
  }

  lemma {:induction false} LeafPair(a: Exp, b: Exp, w: string, op: Op)
    requires a.Leaf? && b.Leaf?
    ensures var t := Bin(a, w, op, w, b);
            && PrecOk(t) && PrecOk(Paren(t)) && Prec(t) == Binding(op)
            && Top(t) == (if ScanPrec(op) == BLOCKED then BLOCKED else Min(ATOM, Min(ScanPrec(op), ATOM)))
  {
    assert PrecOk(a) && PrecOk(b) && Prec(a) == ATOM_BINDING && Prec(b) == ATOM_BINDING;
  }

  /** An operator missing from the table on the right has the same effect: the
      group in "(a + b) ^ c" goes, and the text is that of "a + b ^ c". */
  lemma {:induction false} GroupLostBeforePower(a: Exp, b: Exp, c: Exp, w: string)
    requires Words(a) && Words(b) && Words(c) && Spaces(w)
    ensures var t, u := Bin(Paren(Bin(a, w, Plus, w, b)), w, Pow, w, c), Bin(a, w, Plus, w, Bin(b, w, Pow, w, c));
            && LexOk(t) && LexOk(u) && PrecOk(t) && PrecOk(u) && Bare(t) != Bare(u)
            && CanonArith(Spell(t)) == CanonArith(Spell(u))
  {
    var sum, power := Bin(a, w, Plus, w, b), Bin(b, w, Pow, w, c);
    LeafPair(a, b, w, Plus);
    SymbolForms(a, w, Plus, b);
    GroupForms(sum);
    SymbolForms(Paren(sum), w, Pow, c);
    SymbolForms(b, w, Pow, c);
    SymbolForms(a, w, Plus, power);
    PowerErased(a, b, c, w, sum);
    PowerSpelling(a, b, c, w, sum, power);
    SameText(Bin(Paren(sum), w, Pow, w, c), Bin(a, w, Plus, w, power), Bin(sum, w, Pow, w, c));
  }

  lemma {:induction false} PowerErased(a: Exp, b: Exp, c: Exp, w: string, sum: Exp)
    requires a.Leaf? && b.Leaf? && c.Leaf? && sum == Bin(a, w, Plus, w, b)
    ensures Erase(Bin(Paren(sum), w, Pow, w, c), None, None) == Bin(sum, w, Pow, w, c)
  {
    TableValues();
    LeafPair(a, b, w, Plus);
    assert Erase(sum, None, Some(Pow)) == sum;
    assert Erase(Paren(sum), None, Some(Pow)) == sum;
  }

  lemma {:induction false} PowerSpelling(a: Exp, b: Exp, c: Exp, w: string, sum: Exp, power: Exp)
    requires sum == Bin(a, w, Plus, w, b) && power == Bin(b, w, Pow, w, c)
    ensures Spell(Bin(sum, w, Pow, w, c)) == Spell(Bin(a, w, Plus, w, power))
  {
    Regrouped(Spell(a), w, "+", Spell(b), w + ("^" + (w + Spell(c))));
    assert Spell(power) == Spell(b) + (w + ("^" + (w + Spell(c))));
  }

  /** Where the one expression erases to e, the other holds no pair, and e is
      spelled like the other, the step leaves one text. */
  lemma {:induction false} SameText(t: Exp, u: Exp, e: Exp)
    requires LexOk(t) && !t.Args? && LexOk(u) && !u.Args?
    requires Erase(t, None, None) == e && Pairs(t) <= 1 && Pairs(u) == 0 && Spell(e) == Spell(u)
    ensures CanonArith(Spell(t)) == CanonArith(Spell(u))
  {
    ErasePairs(u, None, None);
    ArithErases(t);
    ArithErases(u);
  }

  /** Nor is the content scan aware of "is": the group in "a = (b is c)" goes, and
      the text is that of "a = b is c", which is (a = b) is c. */
  lemma {:induction false} GroupLostAroundIs(a: Exp, b: Exp, c: Exp, w: string, v: string)
    requires Words(a) && Words(b) && Words(c) && Spaces(w) && Spaces(v) && v != ""
    ensures var t, u := Bin(a, w, Eq, w, Paren(Bin(b, v, Is, v, c))), Bin(Bin(a, w, Eq, w, b), v, Is, v, c);
            && LexOk(t) && LexOk(u) && PrecOk(t) && PrecOk(u) && Bare(t) != Bare(u)
            && CanonArith(Spell(t)) == CanonArith(Spell(u))
  {
    TableValues();
    var test, equal := Bin(b, v, Is, v, c), Bin(a, w, Eq, w, b);
    var t, u := Bin(a, w, Eq, w, Paren(test)), Bin(equal, v, Is, v, c);
    LeafPair(b, c, v, Is);
    SymbolForms(b, v, Is, c);
    GroupForms(test);
    SymbolForms(a, w, Eq, Paren(test));
    SymbolForms(a, w, Eq, b);
    SymbolForms(equal, v, Is, c);
    assert Erase(test, Some(Eq), None) == test;
    assert Erase(Paren(test), Some(Eq), None) == test;
    Regrouped(Spell(a), w, "=", Spell(b), v + ("is" + (v + Spell(c))));
    assert Spell(test) == Spell(b) + (v + ("is" + (v + Spell(c))));
    SameText(t, u, Bin(a, w, Eq, w, test));
  }
}
