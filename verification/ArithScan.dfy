/**
 What the scanners of _canonicalize_arith see of a spelled expression: literals and
 groups are skipped whole, the weakest operator of the text is that of the tree, and
 the neighbours of an operand are the operators that stand beside it in the tree.
 */
module ArithScan {
  import opened Lex
  import opened Splitter
  import opened ArithCanon
  import opened ArithText
  import opened ArithGrammar

  // ------------------------------------------------------------ literals, depth

  lemma {:induction false} SkipInside(x: string, q: string, j: nat)
    requires j <= |x| && At(x, j).inStr && SkipFrom(x, j) == |x| && !At(x, |x|).inStr
    requires q == "" || q[0] != '\''
    ensures SkipFrom(x + q, j) == |x|
    decreases |x| - j
  {
    assert At(x, j + 1) == Step(At(x, j), x[j]);
    assert forall k :: 0 <= k < |x| ==> (x + q)[k] == x[k];
    if x[j] != '\'' {
      SkipInside(x, q, j + 1);
    } else if j + 1 < |x| && x[j + 1] == '\'' {
      assert At(x, j + 2) == Step(At(x, j + 1), x[j + 1]);
      SkipInside(x, q, j + 2);
    } else {
      assert q != "" ==> (x + q)[|x|] == q[0];
    }
  }

  /** A literal is skipped whole wherever it stands. */
  lemma {:induction false} QuotedSkip(p: string, x: string, q: string)
    requires QuotedText(x) && (q == "" || q[0] != '\'')
    ensures SkipFrom(p + x + q, |p| + 1) == |p| + |x|
  {
    assert At(x, 1) == Step(At(x, 0), x[0]);
    SkipInside(x, q, 1);
    var s := p + x + q;
    assert s[|p|..] == x + q;
    SkipSuffix(s, |p|);
  }

  lemma {:induction false} QuotedBalanced(x: string)
    requires QuotedText(x)
    ensures Balanced(x)
  {
    assert At(x, 1) == Step(At(x, 0), x[0]);
    SkipState(x, 1);
    forall k {:trigger At(x, k)} | 0 <= k <= |x|
      ensures At(x, k).depth >= 0
    {
      if k == 0 {
      } else if k < |x| {
        assert At(x, k).depth == At(x, 1).depth;
      }
    }
  }

  predicate Plain(x: string) {
    forall k :: 0 <= k < |x| ==> x[k] != '\'' && x[k] != '(' && x[k] != ')'
  }

  lemma {:induction false} PlainBalanced(x: string)
    requires Plain(x)
    ensures Balanced(x)
  {
    FlatBalanced(x);
  }

  lemma {:induction false} OpPlain(op: Op)
    ensures Plain(OpText(op)) && OpText(op) != ""
    ensures OpText(op)[0] != '.' && !IsSpace(OpText(op)[0])
  {
  }

  lemma {:induction false} SpellBalanced(t: Exp)
    requires LexOk(t)
    ensures Balanced(Spell(t))
  {
    match t
    case Leaf(text) =>
      if WordText(text) {
        PlainBalanced(text);
      } else {
        QuotedBalanced(text);
      }
    case Call(name, arg) =>
      SpellBalanced(arg);
      BalancedParens(Spell(arg));
      PlainBalanced(name);
      BalancedConcat(name, "(" + Spell(arg) + ")");
    case Args(list) =>
      SpellBalanced(list);
      BalancedParens(Spell(list));
    case Paren(inner) =>
      SpellBalanced(inner);
      BalancedParens(Spell(inner));
    case Bin(l, w1, op, w2, r) =>
      SpellBalanced(l);
      SpellBalanced(r);
      JoinBalanced(Spell(l), w1, op, w2, Spell(r));
  }

  lemma {:induction false} JoinBalanced(a: string, w1: string, op: Op, w2: string, b: string)
    requires Balanced(a) && Balanced(b) && Spaces(w1) && Spaces(w2)
    ensures Balanced(a + (w1 + (OpText(op) + (w2 + b))))
  {
    OpPlain(op);
    PlainBalanced(w1);
    PlainBalanced(w2);
    PlainBalanced(OpText(op));
    BalancedConcat(w2, b);
    BalancedConcat(OpText(op), w2 + b);
    BalancedConcat(w1, OpText(op) + (w2 + b));
    BalancedConcat(a, w1 + (OpText(op) + (w2 + b)));
  }

  /** An operand begins with a word, a quote or a parenthesis, and ends with
      none but these. */
  predicate Edged(x: string) {
    && Begins(x) && Trimmed(x)
    && var e := x[|x| - 1]; IsWordChar(e) || e == '\'' || e == ')'
  }

  lemma {:induction false} SpellEdges(t: Exp)
    requires LexOk(t)
    ensures Edged(Spell(t)) && (t.Args? ==> Spell(t)[0] == '(')
  {
    match t
    case Leaf(text) =>
      LeafEdges(text);
    case Call(name, arg) =>
      CallEdges(name, Spell(arg));
    case Args(list) =>
      GroupEdges(Spell(list));
    case Paren(inner) =>
      GroupEdges(Spell(inner));
    case Bin(l, w1, op, w2, r) =>
      SpellEdges(l);
      SpellEdges(r);
      JoinEdges(Spell(l), w1, OpText(op), w2, Spell(r));
  }

  lemma {:induction false} JoinEdges(a: string, w1: string, o: string, w2: string, b: string)
    requires Edged(a) && Edged(b)
    ensures Edged(a + (w1 + (o + (w2 + b))))
  {
    Ends(a, w1 + (o + w2), b);
    assert a + (w1 + (o + (w2 + b))) == a + (w1 + (o + w2)) + b;
  }

  lemma {:induction false} LeafEdges(x: string)
    requires WordText(x) || QuotedText(x)
    ensures Edged(x)
  {
  }

  lemma {:induction false} GroupEdges(x: string)
    ensures Edged("(" + x + ")") && ("(" + x + ")")[0] == '('
  {
  }

  lemma {:induction false} CallEdges(name: string, x: string)
    requires name == "not" || WordText(name)
    ensures Edged(name + ("(" + x + ")"))
  {
    var s := name + ("(" + x + ")");
    assert s[0] == name[0] && s[|s| - 1] == ')';
  }

  lemma {:induction false} Ends(a: string, m: string, b: string)
    requires a != "" && b != ""
    ensures (a + m + b)[0] == a[0] && (a + m + b)[|a + m + b| - 1] == b[|b| - 1]
  {
  }

  // --------------------------------------------------- the weakest operator scan

  /** Away from depth zero only parentheses and literals matter. */
  lemma {:induction false} DeepPlain(x: string, q: string, d: int, w: int)
    requires Plain(x) && d != 0
    ensures TopScan(x + q, d, w) == TopScan(q, d, w)
  {
    if x == "" {
      assert x + q == q;
    } else {
      assert (x + q)[1..] == x[1..] + q;
      DeepPlain(x[1..], q, d, w);
    }
  }

  lemma {:induction false} QuotedScan(x: string, q: string, d: int, w: int)
    requires QuotedText(x) && (q == "" || q[0] != '\'')
    ensures TopScan(x + q, d, w) == TopScan(q, d, w)
  {
    QuotedSkip("", x, q);
    assert "" + x + q == x + q;
    assert (x + q)[|x|..] == q;
  }

  /** Scanning a parenthesised operand, given how its inside is scanned. */
  lemma {:induction false} ParenScan(x: string, q: string, d: int, w: int)
    requires TopScan(x + (")" + q), d + 1, w) == TopScan(")" + q, d + 1, w)
    ensures TopScan("(" + x + ")" + q, d, w) == TopScan(q, d, w)
  {
    assert "(" + x + ")" + q == "(" + (x + (")" + q));
    assert ("(" + (x + (")" + q)))[1..] == x + (")" + q);
    assert (")" + q)[1..] == q;
  }

  lemma {:induction false} DeepScan(t: Exp, q: string, d: nat, w: int)
    requires LexOk(t) && d > 0 && Follows(q)
    ensures TopScan(Spell(t) + q, d, w) == TopScan(q, d, w)
    decreases t
  {
    match t
    case Leaf(text) =>
      if WordText(text) {
        DeepPlain(text, q, d, w);
      } else {
        QuotedScan(text, q, d, w);
      }
    case Call(name, arg) =>
      DeepScan(arg, ")" + q, d + 1, w);
      ParenScan(Spell(arg), q, d, w);
      DeepPlain(name, "(" + Spell(arg) + ")" + q, d, w);
      assert Spell(t) + q == name + ("(" + Spell(arg) + ")" + q);
    case Args(list) =>
      DeepScan(list, ")" + q, d + 1, w);
      ParenScan(Spell(list), q, d, w);
    case Paren(inner) =>
      DeepScan(inner, ")" + q, d + 1, w);
      ParenScan(Spell(inner), q, d, w);
    case Bin(l, w1, op, w2, r) =>
      var rest := Spell(r) + q;
      BinShape(t, q);
      BinFollows(t, q);
      DeepScan(l, w1 + (OpText(op) + (w2 + rest)), d, w);
      OpPlain(op);
      DeepPlain(w1, OpText(op) + (w2 + rest), d, w);
      DeepPlain(OpText(op), w2 + rest, d, w);
      DeepPlain(w2, rest, d, w);
      DeepScan(r, q, d, w);
  }

  lemma {:induction false} BinShape(t: Exp, q: string)
    requires t.Bin?
    ensures Spell(t) + q ==
            Spell(t.left) + (t.w1 + (OpText(t.op) + (t.w2 + (Spell(t.right) + q))))
  {
  }

  /** After the left operand comes a space or an operator symbol. */
  lemma {:induction false} BinFollows(t: Exp, q: string)
    requires LexOk(t) && t.Bin?
    ensures Follows(t.w1 + (OpText(t.op) + (t.w2 + (Spell(t.right) + q))))
  {
    var f := t.w1 + (OpText(t.op) + (t.w2 + (Spell(t.right) + q)));
    if t.w1 != "" {
      assert f[0] == ' ';
    } else {
      SymbolStart(t.op);
      assert f[0] == OpText(t.op)[0];
    }
  }

  lemma {:induction false} SymbolStart(op: Op)
    requires !IsWordOp(op)
    ensures var c := OpText(op)[0]; !IsIdent(c) && c != '.' && c != '\'' && c != '(' && c != ' '
  {
  }

  /** What may follow an operator: spaces or an operand. */
  predicate AfterOp(x: string) {
    x != "" && (IsWordChar(x[0]) || x[0] == '\'' || x[0] == '(' || x[0] == ' ')
  }

  lemma {:induction false} SpaceScan(v: string, q: string, w: int)
    requires Spaces(v)
    ensures TopScan(v + q, 0, w) == TopScan(q, 0, w)
  {
    if v == "" {
      assert v + q == q;
    } else {
      assert (v + q)[1..] == v[1..] + q;
      if |v + q| >= 2 {
        assert (v + q)[..2][0] == ' ';
      }
      SpaceScan(v[1..], q, w);
    }
  }

  /** Scanning an operator at depth zero. */
  lemma {:induction false} OpScan(op: Op, x: string, w: int)
    requires AfterOp(x) && w <= ATOM
    requires IsWordOp(op) ==> x[0] == (if op.In? then '(' else ' ')
    ensures TopScan(OpText(op) + x, 0, w) ==
            if ScanPrec(op) == BLOCKED then BLOCKED else TopScan(x, 0, Min(w, ScanPrec(op)))
  {
    if IsWordOp(op) {
      WordOpScan(op, x, w);
    } else {
      SymbolScan(op, x, w);
    }
  }

  lemma {:induction false} SymbolScan(op: Op, x: string, w: int)
    requires AfterOp(x) && w <= ATOM && !IsWordOp(op)
    ensures TopScan(OpText(op) + x, 0, w) ==
            if ScanPrec(op) == BLOCKED then BLOCKED else TopScan(x, 0, Min(w, ScanPrec(op)))
  {
    var s := OpText(op) + x;
    if |OpText(op)| == 2 {
      assert s[..2] == OpText(op) && s[2..] == x;
    } else {
      assert s[0] == OpText(op)[0] && s[1] == x[0];
      assert s[..2] == [s[0], s[1]];
      assert s[..1] == OpText(op) && s[1..] == x;
    }
  }

  lemma {:induction false} WordOpScan(op: Op, x: string, w: int)
    requires AfterOp(x) && w <= ATOM && IsWordOp(op)
    requires x[0] == (if op.In? then '(' else ' ')
    ensures TopScan(OpText(op) + x, 0, w) ==
            if ScanPrec(op) == BLOCKED then BLOCKED else TopScan(x, 0, Min(w, ScanPrec(op)))
  {
    var word := OpText(op);
    if op.IsNot? {
      IsNotScan(x, w);
    } else {
      assert Reserved(word) && word != "not";
      assert ScanPrec(op) == if word == "or" || word == "and" then BLOCKED else ATOM;
      KeywordScan(word, x, w);
    }
  }

  lemma {:induction false} IsNotScan(x: string, w: int)
    requires Follows(x) && x != ""
    ensures TopScan("is not" + x, 0, w) == BLOCKED
  {
    var y := " " + ("not" + x);
    assert "is not" + x == "is" + y;
    KeywordScan("is", y, w);
    SpaceScan(" ", "not" + x, w);
    KeywordScan("not", x, w);
  }

  lemma {:induction false} KeywordScan(word: string, x: string, w: int)
    requires Reserved(word) && (Follows(x) || x[0] == '(')
    ensures TopScan(word + x, 0, w) ==
            if word == "or" || word == "and" || word == "not" then BLOCKED else TopScan(x, 0, w)
  {
    WordStep(word, x);
    WordIsWhole(word);
    NotTwo(word + x);
    assert (word + x)[|word|..] == x;
  }

  lemma {:induction false} WordIsWhole(word: string)
    requires Reserved(word)
    ensures AllWord(word) && word != "" && IsAlpha(word[0])
    ensures WordLength(word) == |word|
    ensures Keyword(word) <==> word == "or" || word == "and" || word == "not"
  {
    RunAll(word[1..]);
    assert word[0] == 'f' || word[0] == 'o' || word[0] == 'a' || word[0] == 'i' || word[0] == 'n' || word[0] == 'l';
    if word == "from" || word == "is" || word == "like" || word == "in" {
      assert "and"[0] == 'a' && "or"[0] == 'o' && "not"[0] == 'n';
      assert word[0] != 'a' && word[0] != 'o' && word[0] != 'n';
      NoStart(word, "and");
      NoStart(word, "or");
      NoStart(word, "not");
    }
  }

  /** A name or a number: small letters, digits and "_". */
  predicate PlainText(x: string) {
    x != "" && forall k :: 0 <= k < |x| ==> x[k] in SMALL || x[k] in DECIMAL || x[k] == '_'
  }

  /** A name is an operand unless it is a reserved word, even when it begins with one. */
  lemma {:induction false} NameIsOperand(x: string)
    requires PlainText(x) && x[0] !in DECIMAL
    ensures WordText(x) <==> !Reserved(x)
  {
    PlainIsWord(x);
    DecimalIs(x[0]);
    RunAll(x[1..]);
    NameScan(x);
  }

  lemma {:induction false} PlainIsWord(x: string)
    requires PlainText(x)
    ensures forall k :: 0 <= k < |x| ==> IsLowerIdent(x[k])
  {
    forall k | 0 <= k < |x|
      ensures IsLowerIdent(x[k])
    {
      SmallIs(x[k]);
      DecimalIs(x[k]);
    }
  }

  lemma {:induction false} NameScan(x: string)
    requires x != "" && (forall k :: 0 <= k < |x| ==> IsLowerIdent(x[k])) && IsLowerOrUnderscore(x[0])
    requires WordLength(x) == |x| && AllWord(x)
    ensures TopScan(x, 0, ATOM) == if x == "and" || x == "or" || x == "not" then BLOCKED else ATOM
  {
    NotTwo(x);
    WholeKeyword(x, "and");
    WholeKeyword(x, "or");
    WholeKeyword(x, "not");
    assert x[|x|..] == "";
  }

  lemma {:induction false} WholeKeyword(x: string, w: string)
    requires forall k :: 0 <= k < |x| ==> IsLowerIdent(x[k])
    ensures KeywordIs(x, w) <==> x == w
  {
    if |x| > |w| {
      assert IsLowerIdent(x[|w|]);
    } else if KeywordIs(x, w) {
      assert x == w;
    }
  }

  /** So is a number. */
  lemma {:induction false} NumberIsOperand(x: string)
    requires x != "" && forall k :: 0 <= k < |x| ==> x[k] in DECIMAL
    ensures WordText(x)
  {
    forall k | 0 <= k < |x|
      ensures '0' <= x[k] <= '9'
    {
      DecimalIs(x[k]);
    }
    DigitsScan(x);
    assert !Reserved(x);
  }

  lemma {:induction false} DigitsScan(x: string)
    requires forall k :: 0 <= k < |x| ==> '0' <= x[k] <= '9'
    ensures TopScan(x, 0, ATOM) == ATOM
  {
    if x != "" {
      NotTwo(x);
      DigitsScan(x[1..]);
    }
  }

  lemma {:induction false} NoStart(x: string, w: string)
    requires x != "" && w != "" && x[0] != w[0]
    ensures !StartsAt(x, w, 0)
  {
  }

  lemma {:induction false} RunAll(x: string)
    requires forall k :: 0 <= k < |x| ==> IsLowerIdent(x[k])
    ensures Run(x) == |x|
  {
    if x != "" {
      RunAll(x[1..]);
    }
  }

  lemma {:induction false} TopRange(t: Exp)
    ensures Top(t) == BLOCKED || 3 <= Top(t) <= ATOM
  {
    if t.Bin? {
      TopRange(t.left);
      TopRange(t.right);
    }
  }

  /** _arith_top_op finds the weakest depth-zero operator of the expression. */
  lemma {:induction false} TopSpell(t: Exp, q: string, w: int)
    requires LexOk(t) && Follows(q) && w <= ATOM
    ensures TopScan(Spell(t) + q, 0, w) ==
            if Top(t) == BLOCKED then BLOCKED else TopScan(q, 0, Min(w, Top(t)))
    decreases t
  {
    match t
    case Leaf(text) =>
      if WordText(text) {
        WordScan(text, q, w);
      } else {
        QuotedScan(text, q, 0, w);
      }
    case Call(name, arg) =>
      CallScan(name, arg, q, w);
    case Args(list) =>
      DeepScan(list, ")" + q, 1, w);
      ParenScan(Spell(list), q, 0, w);
    case Paren(inner) =>
      DeepScan(inner, ")" + q, 1, w);
      ParenScan(Spell(inner), q, 0, w);
    case Bin(l, w1, op, w2, r) =>
      BinScan(t, q, w);
  }

  lemma {:induction false} CallScan(name: string, arg: Exp, q: string, w: int)
    requires LexOk(Call(name, arg)) && Follows(q) && w <= ATOM
    ensures TopScan(Spell(Call(name, arg)) + q, 0, w) ==
            if name == "not" then BLOCKED else TopScan(q, 0, w)
  {
    DeepScan(arg, ")" + q, 1, w);
    ParenScan(Spell(arg), q, 0, w);
    var rest := "(" + Spell(arg) + ")" + q;
    assert Spell(Call(name, arg)) + q == name + rest;
    if name == "not" {
      KeywordScan(name, rest, w);
    } else {
      WordScan(name, rest, w);
    }
  }

  lemma {:induction false} BinScan(t: Exp, q: string, w: int)
    requires LexOk(t) && t.Bin? && Follows(q) && w <= ATOM
    ensures TopScan(Spell(t) + q, 0, w) ==
            if Top(t) == BLOCKED then BLOCKED else TopScan(q, 0, Min(w, Top(t)))
    decreases t, 0
  {
    var rest := Spell(t.right) + q;
    var tail := OpText(t.op) + (t.w2 + rest);
    BinShape(t, q);
    BinFollows(t, q);
    TopSpell(t.left, t.w1 + tail, w);
    TopRange(t.left);
    TopRange(t.right);
    if Top(t.left) != BLOCKED {
      var w' := Min(w, Top(t.left));
      SpaceScan(t.w1, tail, w');
      OpenRight(t, q);
      OpScan(t.op, t.w2 + rest, w');
      if ScanPrec(t.op) != BLOCKED {
        SpaceScan(t.w2, rest, Min(w', ScanPrec(t.op)));
        TopSpell(t.right, q, Min(w', ScanPrec(t.op)));
      }
    }
  }

  lemma {:induction false} OpenRight(t: Exp, q: string)
    requires LexOk(t) && t.Bin?
    ensures var x := t.w2 + (Spell(t.right) + q);
            AfterOp(x) && (IsWordOp(t.op) ==> x[0] == (if t.op.In? then '(' else ' '))
  {
    SpellEdges(t.right);
    var x := t.w2 + (Spell(t.right) + q);
    if t.w2 == "" {
      assert x[0] == Spell(t.right)[0];
    } else {
      assert x[0] == ' ';
    }
  }

  lemma {:induction false} TopOfSpell(t: Exp)
    requires LexOk(t)
    ensures TopOp(Spell(t)) == Top(t)
  {
    TopSpell(t, "", ATOM);
    TopRange(t);
    assert Spell(t) + "" == Spell(t);
  }

  // ------------------------------------------------------ neighbouring operators

  function Vis(op: Option<Op>): Option<int> {
    if op.Some? && InTable(op.value) then Some(TablePrec(OpText(op.value))) else None
  }

  lemma {:induction false} TrimRightSpaces(x: string, v: string)
    requires Spaces(v) && x != "" && x[|x| - 1] != ' '
    ensures TrimSpacesRight(x + v) == x
  {
    if v == "" {
      assert x + v == x;
    } else {
      assert (x + v)[..|x + v| - 1] == x + v[..|v| - 1];
      TrimRightSpaces(x, v[..|v| - 1]);
    }
  }

  lemma {:induction false} TrimLeftSpaces(v: string, x: string)
    requires Spaces(v) && x != "" && x[0] != ' '
    ensures TrimSpacesLeft(v + x) == x
  {
    if v == "" {
      assert v + x == x;
    } else {
      assert (v + x)[1..] == v[1..] + x;
      TrimLeftSpaces(v[1..], x);
    }
  }

  /** How the neighbour tests classify the operators. */
  lemma {:induction false} OpClass(op: Op)
    ensures var x := OpText(op);
            var n := |x|;
            && n >= 1 && x[0] != ' ' && x[n - 1] != ' '
            && (IsWordOp(op) <==> IsIdent(x[n - 1])) && (IsWordOp(op) <==> IsIdent(x[0]))
            && (!IsWordOp(op) ==> n <= 2)
            && (!IsWordOp(op) && n == 2 ==> IsTwo(x) && InTable(op))
            && (n == 1 ==> (InTable(op) <==> IsOne(x[0])))
  {
  }

  /** _prev_op after an operand and an operator. */
  lemma {:induction false} EndsInOp(p: string, op: Op, v: string)
    requires p != "" && Spaces(v)
    requires var e := p[|p| - 1]; IsWordChar(e) || e == '\'' || e == ')' || e == ' '
    ensures PrecOf(EndingOp(p + OpText(op) + v)) == Vis(Some(op))
  {
    OpClass(op);
    EndingText(p, OpText(op), v);
  }

  lemma {:induction false} EndingText(p: string, x: string, v: string)
    requires p != "" && x != "" && Spaces(v) && x[|x| - 1] != ' '
    requires var e := p[|p| - 1]; IsWordChar(e) || e == '\'' || e == ')' || e == ' '
    ensures IsIdent(x[|x| - 1]) ==> EndingOp(p + x + v) == None
    ensures |x| == 2 && IsTwo(x) ==> EndingOp(p + x + v) == Some(x)
    ensures |x| == 1 && !IsIdent(x[0]) ==>
              EndingOp(p + x + v) == if IsOne(x[0]) then Some(x) else None
  {
    var y, n := p + x, |x|;
    assert y[|y| - 1] == x[n - 1];
    TrimRightSpaces(y, v);
    if n == 2 {
      assert y[|y| - 2..] == x;
    } else if n == 1 {
      assert y[|y| - 2..] == [p[|p| - 1], x[0]];
    }
    assert y[|y| - 1..] == [x[n - 1]];
    assert n == 1 ==> x == [x[0]];
  }

  /** _next_op before an operator and what follows it. */
  lemma {:induction false} StartsWithOp(v: string, op: Op, x: string)
    requires Spaces(v) && AfterOp(x)
    ensures PrecOf(StartingOp(v + (OpText(op) + x))) == Vis(Some(op))
  {
    OpClass(op);
    StartingText(v, OpText(op), x);
  }

  lemma {:induction false} StartingText(v: string, o: string, x: string)
    requires Spaces(v) && AfterOp(x) && o != "" && o[0] != ' '
    ensures IsIdent(o[0]) ==> StartingOp(v + (o + x)) == None
    ensures |o| == 2 && IsTwo(o) ==> StartingOp(v + (o + x)) == Some(o)
    ensures |o| == 1 && !IsIdent(o[0]) ==>
              StartingOp(v + (o + x)) == if IsOne(o[0]) then Some(o) else None
  {
    var y := o + x;
    assert y[0] == o[0];
    TrimLeftSpaces(v, y);
    if |o| == 1 {
      assert y[..2] == [o[0], x[0]];
      assert o == [o[0]];
    } else {
      assert y[..2] == [o[0], o[1]];
      assert |o| == 2 ==> o == [o[0], o[1]];
    }
    assert y[..1] == [o[0]];
  }

  /** Just inside parentheses there is no neighbouring operator. */
  lemma {:induction false} InsideHasNoOps(p: string, q: string)
    ensures EndingOp(p + "(") == None
    ensures StartingOp(")" + q) == None
  {
    var x, y := p + "(", ")" + q;
    assert x[|x| - 1] == '(' && y[0] == ')';
    if |x| >= 2 {
      assert x[|x| - 2..][1] == '(';
    }
    if |y| >= 2 {
      assert y[..2][0] == ')';
    }
  }
}
