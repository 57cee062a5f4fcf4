/**
 _canonicalize_arith on spelled expressions: a pass finds and deletes the leftmost
 accepted pair of the tree, and the text that all passes leave is the spelling of the
 expression with the accepted grouping erased.
 */
module ArithCorrect {
  import opened Lex
  import opened Splitter
  import opened ArithCanon
  import opened ArithText
  import opened ArithGrammar
  import opened ArithScan

  /** The source's test for a grouping pair around e between two operators. */
  predicate Accepted(e: Exp, left: Option<Op>, right: Option<Op>) {
    Accept(Top(e), Vis(left), Vis(right))
  }

  /** The expression without the accepted grouping; left and right are the
      operators that stand beside it. */
  function Erase(t: Exp, left: Option<Op>, right: Option<Op>): Exp {
    match t
    case Leaf(_) => t
    case Call(name, arg) => Call(name, Erase(arg, None, None))
    case Args(list) => Args(Erase(list, None, None))
    case Paren(inner) =>
      if Accepted(inner, left, right) then Erase(inner, left, right)
      else Paren(Erase(inner, None, None))
    case Bin(l, w1, op, w2, r) =>
      Bin(Erase(l, left, Some(op)), w1, op, w2, Erase(r, Some(op), right))
  }

  /** The expression after one pass: the leftmost accepted pair is gone. */
  function DropFirst(t: Exp, left: Option<Op>, right: Option<Op>): Option<Exp> {
    match t
    case Leaf(_) => None
    case Call(name, arg) =>
      var a := DropFirst(arg, None, None);
      if a.Some? then Some(Call(name, a.value)) else None
    case Args(list) =>
      var a := DropFirst(list, None, None);
      if a.Some? then Some(Args(a.value)) else None
    case Paren(inner) =>
      if Accepted(inner, left, right) then Some(inner)
      else
        var a := DropFirst(inner, None, None);
        if a.Some? then Some(Paren(a.value)) else None
    case Bin(l, w1, op, w2, r) =>
      var a := DropFirst(l, left, Some(op));
      if a.Some? then Some(Bin(a.value, w1, op, w2, r))
      else
        var b := DropFirst(r, Some(op), right);
        if b.Some? then Some(Bin(l, w1, op, w2, b.value)) else None
  }

  // ----------------------------------------------------- one pass on the tree

  /** Dropping a pair keeps the parse tree and can only weaken the top operator. */
  lemma {:induction false} DropKeeps(t: Exp, left: Option<Op>, right: Option<Op>)
    requires LexOk(t) && DropFirst(t, left, right).Some?
    ensures var u := DropFirst(t, left, right).value;
            && LexOk(u) && (u.Args? <==> t.Args?)
            && Bare(u) == Bare(t) && Pairs(u) == Pairs(t) - 1 && Top(u) <= Top(t)
  {
    TopRange(t);
    match t
    case Leaf(_) =>
    case Call(_, arg) => DropKeeps(arg, None, None);
    case Args(list) => DropKeeps(list, None, None);
    case Paren(inner) =>
      TopRange(inner);
      if !Accepted(inner, left, right) {
        DropKeeps(inner, None, None);
      }
    case Bin(l, _, op, _, r) =>
      TopRange(l);
      TopRange(r);
      if DropFirst(l, left, Some(op)).Some? {
        DropKeeps(l, left, Some(op));
        TopRange(DropFirst(l, left, Some(op)).value);
      } else {
        DropKeeps(r, Some(op), right);
        TopRange(DropFirst(r, Some(op), right).value);
      }
  }

  /** A pass is a step of the erasure. */
  lemma {:induction false} DropErases(t: Exp, left: Option<Op>, right: Option<Op>)
    requires LexOk(t)
    ensures var u := DropFirst(t, left, right);
            Erase(t, left, right) == if u.Some? then Erase(u.value, left, right) else t
  {
    match t
    case Leaf(_) =>
    case Call(_, arg) => DropErases(arg, None, None);
    case Args(list) => DropErases(list, None, None);
    case Paren(inner) =>
      if !Accepted(inner, left, right) {
        DropErases(inner, None, None);
        if DropFirst(inner, None, None).Some? {
          DropKeeps(inner, None, None);
        }
      }
    case Bin(l, _, op, _, r) =>
      DropErases(l, left, Some(op));
      DropErases(r, Some(op), right);
  }

  // ----------------------------------------------------- one pass on the text

  /** No quotes or parentheses among the k characters from i on. */
  predicate PlainAt(s: string, i: nat, k: nat) {
    i + k <= |s| && forall j :: i <= j < i + k ==> s[j] != '\'' && s[j] != '(' && s[j] != ')'
  }

  lemma {:induction false} PlainPart(pre: string, x: string, post: string)
    requires Plain(x)
    ensures PlainAt(pre + x + post, |pre|, |x|)
  {
    forall j | |pre| <= j < |pre| + |x|
      ensures (pre + x + post)[j] == x[j - |pre|]
    {
    }
  }

  /** A group stands at the end of pre and closes right after its content. */
  lemma {:induction false} GroupMatched(pre: string, x: string, post: string)
    requires !At(pre, |pre|).inStr && Balanced(x)
    ensures Matched(pre + ("(" + x + ")") + post, |pre|, |pre| + 1 + |x|)
  {
    var g := "(" + x + ")";
    var s := pre + g + post;
    var d := At(pre, |pre|).depth;
    assert s == pre + (g + post);
    forall k | 0 <= k <= |x|
      ensures At(s, |pre| + 1 + k) == State(d + 1 + At(x, k).depth, At(x, k).inStr)
      ensures At(x, k).depth >= 0
    {
      FromConcat(START, pre, g + post, |pre| + 1 + k);
      FromConcat(State(d, false), g, post, 1 + k);
      FromShift(d, g, 1 + k);
      InsideParens(x, k);
      assert At(x, k).depth >= 0;
    }
    FromConcat(START, pre, g + post, |pre|);
    assert At(s, |pre| + 1 + |x|) == State(d + 1, false);
    assert s[|pre| + 1 + |x|] == ')';
    assert At(s, |pre| + 2 + |x|) == Step(At(s, |pre| + 1 + |x|), s[|pre| + 1 + |x|]);
    forall k {:trigger At(s, k)} | |pre| < k <= |pre| + 1 + |x|
      ensures At(s, k).depth > d
    {
      var j := k - |pre| - 1;
      assert At(s, |pre| + 1 + j).depth == d + 1 + At(x, j).depth;
    }
  }

  /** The place of an operand in the text. */
  ghost predicate Placed(pre: string, t: Exp, post: string, left: Option<Op>, right: Option<Op>) {
    && LexOk(t) && !At(pre, |pre|).inStr && Follows(post)
    && PrecOf(EndingOp(pre)) == Vis(left) && PrecOf(StartingOp(post)) == Vis(right)
    && (t.Args? <==> pre != "" && IsIdent(pre[|pre| - 1]))
  }

  /** Where the leftmost accepted pair stands when the text begins at base. */
  function PairOf(t: Exp, base: nat, left: Option<Op>, right: Option<Op>): Option<Pair> {
    match t
    case Leaf(_) => None
    case Call(name, arg) => PairOf(arg, base + |name| + 1, None, None)
    case Args(list) => PairOf(list, base + 1, None, None)
    case Paren(inner) =>
      if Accepted(inner, left, right) then Some(Pair(base, base + 1 + |Spell(inner)|))
      else PairOf(inner, base + 1, None, None)
    case Bin(l, w1, op, w2, r) =>
      var p := PairOf(l, base, left, Some(op));
      if p.Some? then p
      else PairOf(r, base + Offset(t), Some(op), right)
  }

  /** From the start of an operation to its right operand. */
  function Offset(t: Exp): nat
    requires t.Bin?
  {
    |Spell(t.left)| + (|t.w1| + |OpText(t.op)| + |t.w2|)
  }

  /** The outcome of the scan from i: nothing and it goes on at j, or a pair. */
  ghost predicate Scans(s: string, i: nat, j: nat, out: Option<Pair>) {
    match out
    case None => i <= j <= |s| && FindFrom(s, i) == FindFrom(s, j)
    case Some(p) => i <= j <= |s| && FindFrom(s, i) == out
  }

  lemma {:induction false} ScansThen(s: string, i: nat, j: nat, k: nat, out: Option<Pair>)
    requires Scans(s, i, j, None) && Scans(s, j, k, out)
    ensures Scans(s, i, k, out)
  {
  }

  /** What was found is what is found when the scan may go on further. */
  lemma {:induction false} ScansFound(s: string, i: nat, j: nat, k: nat, out: Option<Pair>)
    requires out.Some? && Scans(s, i, j, out) && j <= k <= |s|
    ensures Scans(s, i, k, out)
  {
  }

  /** A parenthesis after an identifier character, or a closing one, is passed. */
  lemma {:induction false} ScansOver(s: string, i: nat, j: nat)
    requires i < |s| && j == i + 1 && s[i] != '\'' && !Grouping(s, i)
    ensures Scans(s, i, j, None)
  {
  }

  lemma {:induction false} ScansPlain(s: string, i: nat, j: nat)
    requires i <= j && PlainAt(s, i, j - i)
    ensures Scans(s, i, j, None)
    decreases j - i
  {
    if i < j {
      ScansPlain(s, i + 1, j);
    }
  }

  /** Around the content, from a to b, of parentheses that are not deleted. */
  lemma {:induction false} ScansAround(s: string, i: nat, a: nat, b: nat, c: nat, out: Option<Pair>)
    requires a == i + 1 && c == b + 1 && a <= b < |s| && s[i] == '(' && s[b] == ')'
    requires Scans(s, i, a, None) && Scans(s, a, b, out)
    ensures Scans(s, i, c, out)
  {
    ScansThen(s, i, a, b, out);
    if out.None? {
      ScansOver(s, b, c);
      ScansThen(s, i, b, c, None);
    } else {
      ScansFound(s, i, b, c, out);
    }
  }

  lemma {:induction false} InsidePlaced(pre: string, x: Exp, post: string)
    requires LexOk(x) && !x.Args? && !At(pre, |pre|).inStr
    ensures Placed(pre + "(", x, ")" + post, None, None)
  {
    InsideHasNoOps(pre, post);
    OpensOutside(pre);
    assert (")" + post)[0] == ')';
  }

  lemma {:induction false} OpensOutside(pre: string)
    requires !At(pre, |pre|).inStr
    ensures !At(pre + "(", |pre| + 1).inStr && (pre + "(")[|pre|] == '('
  {
    FromConcat(START, pre, "(", |pre| + 1);
    assert From(At(pre, |pre|), "(", 1) == Step(From(At(pre, |pre|), "(", 0), '(');
  }

  /** The test of a grouping pair in its place: it opens at i and closes at b. */
  lemma {:induction false} ParenTest(s: string, pre: string, e: Exp, post: string, left: Option<Op>, right: Option<Op>,
                                     i: nat, b: nat)
    requires Placed(pre, Paren(e), post, left, right) && s == pre + ("(" + Spell(e) + ")") + post
    requires i == |pre| && b == i + 1 + |Spell(e)|
    ensures i < b < |s| && Grouping(s, i) && MatchFrom(s, i, 0) == b
    ensures Redundant(s, i, b) == Accepted(e, left, right)
  {
    var x := Spell(e);
    SpellBalanced(e);
    GroupMatched(pre, x, post);
    MatchUnique(s, i, b);
    Slices(pre, x, post);
    ContentTest(s, i, b, e);
  }

  lemma {:induction false} ContentTest(s: string, i: nat, b: nat, e: Exp)
    requires LexOk(e) && i < b < |s| && s[i + 1..b] == Spell(e)
    ensures Strip(s[i + 1..b]) == Spell(e) != "" && TopOp(Strip(s[i + 1..b])) == Top(e)
  {
    SpellEdges(e);
    StripTrimmed(Spell(e));
    TopOfSpell(e);
  }

  lemma {:induction false} Slices(pre: string, x: string, post: string)
    ensures var s := pre + ("(" + x + ")") + post;
            var c := |pre| + 1 + |x|;
            && s[|pre|] == '(' && s[..|pre|] == pre && s[c + 1..] == post && s[|pre| + 1..c] == x
            && (pre != "" ==> s[|pre| - 1] == pre[|pre| - 1])
            && s[..|pre|] + s[|pre| + 1..c] + s[c + 1..] == pre + x + post
  {
  }

  /** The scan over an operand, up to j, finds its leftmost accepted pair. */
  lemma {:induction false} FindTree(s: string, pre: string, t: Exp, post: string,
                                    left: Option<Op>, right: Option<Op>, j: nat, out: Option<Pair>)
    requires Placed(pre, t, post, left, right) && s == pre + Spell(t) + post
    requires j == |pre| + |Spell(t)| && out == PairOf(t, |pre|, left, right)
    ensures Scans(s, |pre|, j, out)
    decreases t, 1
  {
    match t
    case Leaf(text) => FindLeaf(pre, text, post);
    case Bin(l, w1, op, w2, r) => FindBin(s, pre, t, post, left, right, j, out);
    case Call(_, _) => CallCase(s, pre, t, post, left, right, j, out);
    case Args(_) => ArgsCase(s, pre, t, post, left, right, j, out);
    case Paren(_) => ParenCase(s, pre, t, post, left, right, j, out);
  }

  lemma {:induction false} CallCase(s: string, pre: string, t: Exp, post: string,
                                    left: Option<Op>, right: Option<Op>, j: nat, out: Option<Pair>)
    requires Placed(pre, t, post, left, right) && s == pre + Spell(t) + post && t.Call?
    requires j == |pre| + |Spell(t)| && out == PairOf(t, |pre|, left, right)
    ensures Scans(s, |pre|, j, out)
    decreases t, 0
  {
    var i, h := |pre|, |pre| + |t.name|;
    FindCall(s, pre, t.name, t.arg, post, i, h, h + 1, j - 1, j, out);
  }

  lemma {:induction false} ArgsCase(s: string, pre: string, t: Exp, post: string,
                                    left: Option<Op>, right: Option<Op>, j: nat, out: Option<Pair>)
    requires Placed(pre, t, post, left, right) && s == pre + Spell(t) + post && t.Args?
    requires j == |pre| + |Spell(t)| && out == PairOf(t, |pre|, left, right)
    ensures Scans(s, |pre|, j, out)
    decreases t, 0
  {
    FindArgs(s, pre, t.list, post, |pre|, |pre| + 1, j - 1, j, out);
  }

  lemma {:induction false} ParenCase(s: string, pre: string, t: Exp, post: string,
                                     left: Option<Op>, right: Option<Op>, j: nat, out: Option<Pair>)
    requires Placed(pre, t, post, left, right) && s == pre + Spell(t) + post && t.Paren?
    requires j == |pre| + |Spell(t)| && out == PairOf(t, |pre|, left, right)
    ensures Scans(s, |pre|, j, out)
    decreases t, 0
  {
    FindParen(s, pre, t.inner, post, left, right, |pre|, |pre| + 1, j - 1, j, out);
  }

  lemma {:induction false} FindLeaf(pre: string, text: string, post: string)
    requires LexOk(Leaf(text)) && !At(pre, |pre|).inStr && Follows(post)
    ensures Scans(pre + text + post, |pre|, |pre| + |text|, None)
  {
    var s := pre + text + post;
    if WordText(text) {
      PlainPart(pre, text, post);
      ScansPlain(s, |pre|, |pre| + |text|);
    } else {
      QuotedSkip(pre, text, post);
      HeadOf(pre, text, post);
      ScansLiteral(s, |pre|, |pre| + |text|);
    }
  }

  lemma {:induction false} HeadOf(pre: string, x: string, post: string)
    ensures x != "" ==> (pre + x + post)[|pre|] == x[0]
    ensures pre != "" ==> (pre + x + post)[|pre| - 1] == pre[|pre| - 1]
  {
  }

  lemma {:induction false} ScansLiteral(s: string, i: nat, j: nat)
    requires i < |s| && s[i] == '\'' && SkipFrom(s, i + 1) == j
    ensures Scans(s, i, j, None)
  {
  }

  /** The content of parentheses, seen from outside them. */
  lemma {:induction false} FindInside(s: string, pre: string, x: Exp, post: string, i: nat, j: nat,
                                      out: Option<Pair>)
    requires s == pre + ("(" + Spell(x) + ")") + post
    requires LexOk(x) && !x.Args? && !At(pre, |pre|).inStr
    requires i == |pre| + 1 && j == i + |Spell(x)| && out == PairOf(x, i, None, None)
    ensures j < |s| && s[|pre|] == '(' && s[j] == ')'
    ensures Scans(s, i, j, out)
    decreases x, 2
  {
    InsidePlaced(pre, x, post);
    Regroup(pre, Spell(x), post);
    assert |pre + "("| == i;
    FindTree(s, pre + "(", x, ")" + post, None, None, j, out);
  }

  lemma {:induction false} Regroup(pre: string, x: string, post: string)
    ensures (pre + "(") + x + (")" + post) == pre + ("(" + x + ")") + post
    ensures var s := pre + ("(" + x + ")") + post; s[|pre|] == '(' && s[|pre| + 1 + |x|] == ')'
  {
  }

  /** The parenthesis at h opens the list of a call, its content lies from a to b. */
  lemma {:induction false} FindCall(s: string, pre: string, name: string, arg: Exp, post: string,
                                    i: nat, h: nat, a: nat, b: nat, c: nat, out: Option<Pair>)
    requires LexOk(Call(name, arg)) && !At(pre, |pre|).inStr
    requires s == pre + (name + ("(" + Spell(arg) + ")")) + post
    requires i == |pre| && h == i + |name| && a == h + 1 && b == a + |Spell(arg)| && c == b + 1
    requires out == PairOf(arg, a, None, None)
    ensures Scans(s, i, c, out)
    decreases arg, 3
  {
    PlainBalanced(name);
    KeepsOutside(pre, name);
    CallShape(s, pre, name, Spell(arg), post, i, h, b);
    FindInside(s, pre + name, arg, post, a, b, out);
    CallScans(s, i, h, a, b, c, out);
  }

  lemma {:induction false} CallScans(s: string, i: nat, h: nat, a: nat, b: nat, c: nat, out: Option<Pair>)
    requires i < h && a == h + 1 && a <= b < |s| && c == b + 1 && PlainAt(s, i, h - i)
    requires s[h] == '(' && IsIdent(s[h - 1]) && s[b] == ')'
    requires Scans(s, a, b, out)
    ensures Scans(s, i, c, out)
  {
    ScansPlain(s, i, h);
    ScansOver(s, h, a);
    ScansAround(s, h, a, b, c, out);
    ScansThen(s, i, h, c, out);
  }

  lemma {:induction false} CallShape(s: string, pre: string, name: string, x: string, post: string, i: nat, h: nat, b: nat)
    requires name != "" && Plain(name) && s == pre + (name + ("(" + x + ")")) + post
    requires i == |pre| && h == i + |name| && b == h + 1 + |x|
    ensures s == (pre + name) + ("(" + x + ")") + post && |pre + name| == h
    ensures PlainAt(s, i, h - i) && h < b < |s|
    ensures s[h] == '(' && s[h - 1] == name[|name| - 1] && s[b] == ')'
  {
    PlainPart(pre, name, ("(" + x + ")") + post);
    assert s == pre + name + (("(" + x + ")") + post);
  }

  lemma {:induction false} FindArgs(s: string, pre: string, list: Exp, post: string,
                                    i: nat, a: nat, b: nat, c: nat, out: Option<Pair>)
    requires LexOk(Args(list)) && !At(pre, |pre|).inStr && s == pre + ("(" + Spell(list) + ")") + post
    requires pre != "" && IsIdent(pre[|pre| - 1])
    requires i == |pre| && a == i + 1 && b == a + |Spell(list)| && c == b + 1 && out == PairOf(list, a, None, None)
    ensures Scans(s, i, c, out)
    decreases list, 3
  {
    FindInside(s, pre, list, post, a, b, out);
    NotGrouping(s, pre, "(" + Spell(list) + ")", post, i);
    ScansOver(s, i, a);
    ScansAround(s, i, a, b, c, out);
  }

  /** After an identifier character nothing groups. */
  lemma {:induction false} NotGrouping(s: string, pre: string, x: string, post: string, i: nat)
    requires s == pre + x + post && i == |pre| && i < |s| && pre != "" && IsIdent(pre[i - 1])
    ensures !Grouping(s, i)
  {
    HeadOf(pre, x, post);
  }

  lemma {:induction false} FindParen(s: string, pre: string, e: Exp, post: string, left: Option<Op>, right: Option<Op>,
                                     i: nat, a: nat, b: nat, c: nat, out: Option<Pair>)
    requires Placed(pre, Paren(e), post, left, right) && s == pre + ("(" + Spell(e) + ")") + post
    requires i == |pre| && a == i + 1 && b == a + |Spell(e)| && c == b + 1
    requires out == if Accepted(e, left, right) then Some(Pair(i, b)) else PairOf(e, a, None, None)
    ensures Scans(s, i, c, out)
    decreases e, 3
  {
    ParenTest(s, pre, e, post, left, right, i, b);
    ScansGroup(s, i, a, b, c);
    if !Accepted(e, left, right) {
      FindInside(s, pre, e, post, a, b, out);
      ScansAround(s, i, a, b, c, out);
    }
  }

  /** At a grouping pair the scan stops or steps inside. */
  lemma {:induction false} ScansGroup(s: string, i: nat, a: nat, b: nat, c: nat)
    requires i < b < |s| && a == i + 1 && c == b + 1 && Grouping(s, i) && MatchFrom(s, i, 0) == b
    ensures if Redundant(s, i, b) then Scans(s, i, c, Some(Pair(i, b))) else Scans(s, i, a, None)
  {
  }

  lemma {:induction false} FindBin(s: string, pre: string, t: Exp, post: string,
                                   left: Option<Op>, right: Option<Op>, j: nat, out: Option<Pair>)
    requires t.Bin? && Placed(pre, t, post, left, right) && s == pre + Spell(t) + post
    requires j == |pre| + |Spell(t)| && out == PairOf(t, |pre|, left, right)
    ensures Scans(s, |pre|, j, out)
    decreases t, 0, 1
  {
    var i, k := |pre| + |Spell(t.left)|, |pre| + Offset(t);
    var a, b := PairOf(t.left, |pre|, left, Some(t.op)), PairOf(t.right, k, Some(t.op), right);
    assert out == if a.Some? then a else b;
    FindParts(s, pre, t, post, left, right, i, k, j, a, b);
  }

  lemma {:induction false} FindParts(s: string, pre: string, t: Exp, post: string, left: Option<Op>, right: Option<Op>,
                                     i: nat, k: nat, j: nat, a: Option<Pair>, b: Option<Pair>)
    requires t.Bin? && Placed(pre, t, post, left, right) && s == pre + Spell(t) + post
    requires i == |pre| + |Spell(t.left)| && k == |pre| + Offset(t) && j == |pre| + |Spell(t)|
    requires a == PairOf(t.left, |pre|, left, Some(t.op)) && b == PairOf(t.right, k, Some(t.op), right)
    ensures Scans(s, |pre|, j, if a.Some? then a else b)
    decreases t, 0, 0
  {
    BinParts(s, pre, t, post, i, k, j);
    FindLeft(s, pre, t, post, left, right, i, a);
    FindRight(s, pre, t, post, left, right, k, j, b);
    BinScans(s, |pre|, i, k, j, a, b);
  }

  lemma {:induction false} FindLeft(s: string, pre: string, t: Exp, post: string,
                                    left: Option<Op>, right: Option<Op>, i: nat, out: Option<Pair>)
    requires t.Bin? && Placed(pre, t, post, left, right) && s == pre + Spell(t) + post
    requires i == |pre| + |Spell(t.left)| && out == PairOf(t.left, |pre|, left, Some(t.op))
    ensures Scans(s, |pre|, i, out)
    decreases t.left, 3
  {
    LeftPlaced(pre, t, post, left);
    BinText(pre, Spell(t.left), t.w1, OpText(t.op), t.w2, Spell(t.right), post);
    FindTree(s, pre, t.left, t.w1 + (OpText(t.op) + (t.w2 + (Spell(t.right) + post))), left, Some(t.op), i, out);
  }

  lemma {:induction false} FindRight(s: string, pre: string, t: Exp, post: string,
                                     left: Option<Op>, right: Option<Op>, k: nat, j: nat, out: Option<Pair>)
    requires t.Bin? && Placed(pre, t, post, left, right) && s == pre + Spell(t) + post
    requires k == |pre| + Offset(t) && j == |pre| + |Spell(t)| && out == PairOf(t.right, k, Some(t.op), right)
    ensures Scans(s, k, j, out)
    decreases t.right, 3
  {
    var p := pre + Spell(t.left) + t.w1 + OpText(t.op) + t.w2;
    RightPlaced(pre, t, post, right);
    BinText(pre, Spell(t.left), t.w1, OpText(t.op), t.w2, Spell(t.right), post);
    assert |p| == k;
    FindTree(s, p, t.right, post, Some(t.op), right, j, out);
  }

  lemma {:induction false} BinParts(s: string, pre: string, t: Exp, post: string, i: nat, k: nat, j: nat)
    requires t.Bin? && LexOk(t) && s == pre + Spell(t) + post
    requires i == |pre| + |Spell(t.left)| && k == |pre| + Offset(t) && j == |pre| + |Spell(t)|
    ensures |pre| <= i <= k <= j <= |s| && PlainAt(s, i, k - i)
  {
    BinText(pre, Spell(t.left), t.w1, OpText(t.op), t.w2, Spell(t.right), post);
    OpPlain(t.op);
    var p, m, q := pre + Spell(t.left), t.w1 + OpText(t.op) + t.w2, Spell(t.right) + post;
    assert s == p + m + q;
    PlainPart(p, m, q);
  }

  /** Both operands of an operator are placed. */
  lemma {:induction false} LeftPlaced(pre: string, t: Exp, post: string, left: Option<Op>)
    requires t.Bin? && LexOk(t) && !At(pre, |pre|).inStr && PrecOf(EndingOp(pre)) == Vis(left)
    requires pre == "" || !IsIdent(pre[|pre| - 1])
    ensures Placed(pre, t.left, t.w1 + (OpText(t.op) + (t.w2 + (Spell(t.right) + post))), left, Some(t.op))
  {
    BinFollows(t, post);
    OpenRight(t, post);
    StartsWithOp(t.w1, t.op, t.w2 + (Spell(t.right) + post));
  }

  lemma {:induction false} RightPlaced(pre: string, t: Exp, post: string, right: Option<Op>)
    requires t.Bin? && LexOk(t) && !At(pre, |pre|).inStr && Follows(post)
    requires PrecOf(StartingOp(post)) == Vis(right)
    ensures Placed(pre + Spell(t.left) + t.w1 + OpText(t.op) + t.w2, t.right, post, Some(t.op), right)
  {
    var l, o := Spell(t.left), OpText(t.op);
    SpellEdges(t.left);
    SpellBalanced(t.left);
    OpPlain(t.op);
    OutsideAfter(pre, l, t.w1, o, t.w2);
    EndsAfter(pre, l, t.w1, t.op, t.w2);
  }

  lemma {:induction false} OutsideAfter(pre: string, l: string, w1: string, o: string, w2: string)
    requires !At(pre, |pre|).inStr && Balanced(l) && Plain(o) && Spaces(w1) && Spaces(w2)
    ensures var q := pre + l + w1 + o + w2; !At(q, |q|).inStr
  {
    PlainBalanced(w1);
    PlainBalanced(o);
    PlainBalanced(w2);
    KeepsOutside(pre, l);
    KeepsOutside(pre + l, w1);
    KeepsOutside(pre + l + w1, o);
    KeepsOutside(pre + l + w1 + o, w2);
  }

  lemma {:induction false} EndsAfter(pre: string, l: string, w1: string, op: Op, w2: string)
    requires Edged(l) && Spaces(w1) && Spaces(w2) && (IsWordOp(op) ==> (w2 == "" <==> op.In?))
    ensures var q := pre + l + w1 + OpText(op) + w2;
            && PrecOf(EndingOp(q)) == Vis(Some(op))
            && q != "" && (op.In? <==> IsIdent(q[|q| - 1]))
  {
    var o, p := OpText(op), pre + l + w1;
    LastChar(pre, l);
    LastChar(pre + l, w1);
    EndsInOp(p, op, w2);
    OpClass(op);
    LastChar(p, o);
    LastChar(p + o, w2);
  }

  lemma {:induction false} LastChar(a: string, b: string)
    ensures b != "" ==> (a + b)[|a + b| - 1] == b[|b| - 1]
    ensures b == "" ==> a + b == a
  {
  }

  lemma {:induction false} KeepsOutside(a: string, b: string)
    requires !At(a, |a|).inStr && Balanced(b)
    ensures !At(a + b, |a + b|).inStr
  {
    FromConcat(START, a, b, |a| + |b|);
    FromShift(At(a, |a|).depth, b, |b|);
  }

  lemma {:induction false} BinScans(s: string, i: nat, j: nat, k: nat, m: nat, a: Option<Pair>, b: Option<Pair>)
    requires i <= j <= k <= m <= |s| && PlainAt(s, j, k - j)
    requires Scans(s, i, j, a) && Scans(s, k, m, b)
    ensures Scans(s, i, m, if a.Some? then a else b)
  {
    if a.Some? {
      ScansFound(s, i, j, m, a);
    } else {
      ScansPlain(s, j, k);
      ScansThen(s, i, j, k, None);
      ScansThen(s, i, k, m, b);
    }
  }

  lemma {:induction false} BinText(pre: string, l: string, w1: string, o: string, w2: string, r: string, post: string)
    ensures var s := pre + (l + (w1 + (o + (w2 + r)))) + post;
            var i := |pre| + |l|;
            var n := |w1| + |o| + |w2|;
            && s == pre + l + (w1 + (o + (w2 + (r + post))))
            && s == (pre + l + w1 + o + w2) + r + post
            && |pre + l + w1 + o + w2| == i + n
  {
  }

  // ------------------------------------------------------ the text after a pass

  lemma {:induction false} PairFound(t: Exp, base: nat, left: Option<Op>, right: Option<Op>)
    ensures PairOf(t, base, left, right).Some? <==> DropFirst(t, left, right).Some?
    decreases t
  {
    match t
    case Leaf(_) =>
    case Call(name, arg) => PairFound(arg, base + |name| + 1, None, None);
    case Args(list) => PairFound(list, base + 1, None, None);
    case Paren(inner) => PairFound(inner, base + 1, None, None);
    case Bin(l, w1, op, w2, r) =>
      PairFound(l, base, left, Some(op));
      PairFound(r, base + Offset(t), Some(op), right);
  }

  /** Deleting that pair leaves the spelling of the tree after the pass. */
  lemma {:induction false} DeleteTree(s: string, pre: string, t: Exp, post: string, left: Option<Op>, right: Option<Op>,
                                      i: nat, p: Pair, u: Exp)
    requires s == pre + Spell(t) + post && i == |pre|
    requires PairOf(t, i, left, right) == Some(p) && DropFirst(t, left, right) == Some(u)
    ensures p.open < p.close < |s| && Delete(s, p) == pre + Spell(u) + post
    decreases t, 3
  {
    match t
    case Call(name, arg) =>
      DeleteCall(s, pre, name, arg, post, i + |name| + 1, p, u.arg);
    case Args(list) =>
      DeleteInside(s, pre, list, post, i + 1, p, u.list);
    case Paren(inner) =>
      if Accepted(inner, left, right) {
        DeletePair(s, pre, Spell(inner), post, p);
      } else {
        DeleteInside(s, pre, inner, post, i + 1, p, u.inner);
      }
    case Bin(l, w1, op, w2, r) =>
      PairFound(l, i, left, Some(op));
      if PairOf(l, i, left, Some(op)).Some? {
        DeleteLeft(s, pre, t, post, left, right, i, p, u.left);
      } else {
        DeleteRight(s, pre, t, post, left, right, i + Offset(t), p, u.right);
      }
  }

  lemma {:induction false} DeletePair(s: string, pre: string, x: string, post: string, p: Pair)
    requires s == pre + ("(" + x + ")") + post && p == Pair(|pre|, |pre| + 1 + |x|)
    ensures p.open < p.close < |s| && Delete(s, p) == pre + x + post
  {
    Slices(pre, x, post);
  }

  lemma {:induction false} DeleteCall(s: string, pre: string, name: string, arg: Exp, post: string, a: nat, p: Pair, u: Exp)
    requires s == pre + (name + ("(" + Spell(arg) + ")")) + post && a == |pre| + |name| + 1
    requires PairOf(arg, a, None, None) == Some(p) && DropFirst(arg, None, None) == Some(u)
    ensures p.open < p.close < |s| && Delete(s, p) == pre + (name + ("(" + Spell(u) + ")")) + post
    decreases arg, 5
  {
    NameJoined(pre, name, Spell(arg), post);
    DeleteInside(s, pre + name, arg, post, a, p, u);
    NameJoined(pre, name, Spell(u), post);
  }

  lemma {:induction false} NameJoined(pre: string, name: string, x: string, post: string)
    ensures (pre + name) + ("(" + x + ")") + post == pre + (name + ("(" + x + ")")) + post
    ensures |pre + name| + 1 == |pre| + |name| + 1
  {
  }

  lemma {:induction false} DeleteLeft(s: string, pre: string, t: Exp, post: string, left: Option<Op>, right: Option<Op>,
                                      i: nat, p: Pair, u: Exp)
    requires t.Bin? && s == pre + Spell(t) + post && i == |pre|
    requires PairOf(t.left, i, left, Some(t.op)) == Some(p) && DropFirst(t.left, left, Some(t.op)) == Some(u)
    ensures p.open < p.close < |s| && Delete(s, p) == pre + Spell(Bin(u, t.w1, t.op, t.w2, t.right)) + post
    decreases t.left, 4
  {
    var o := OpText(t.op);
    BinText(pre, Spell(t.left), t.w1, o, t.w2, Spell(t.right), post);
    DeleteTree(s, pre, t.left, t.w1 + (o + (t.w2 + (Spell(t.right) + post))), left, Some(t.op), i, p, u);
    BinText(pre, Spell(u), t.w1, o, t.w2, Spell(t.right), post);
  }

  lemma {:induction false} DeleteRight(s: string, pre: string, t: Exp, post: string, left: Option<Op>, right: Option<Op>,
                                       k: nat, p: Pair, u: Exp)
    requires t.Bin? && s == pre + Spell(t) + post && k == |pre| + Offset(t)
    requires PairOf(t.right, k, Some(t.op), right) == Some(p) && DropFirst(t.right, Some(t.op), right) == Some(u)
    ensures p.open < p.close < |s| && Delete(s, p) == pre + Spell(Bin(t.left, t.w1, t.op, t.w2, u)) + post
    decreases t.right, 4
  {
    var o := OpText(t.op);
    var q := pre + Spell(t.left) + t.w1 + o + t.w2;
    BinText(pre, Spell(t.left), t.w1, o, t.w2, Spell(t.right), post);
    assert |q| == k;
    DeleteTree(s, q, t.right, post, Some(t.op), right, k, p, u);
    BinText(pre, Spell(t.left), t.w1, o, t.w2, Spell(u), post);
  }

  lemma {:induction false} DeleteInside(s: string, pre: string, x: Exp, post: string, a: nat, p: Pair, u: Exp)
    requires s == pre + ("(" + Spell(x) + ")") + post && a == |pre| + 1
    requires PairOf(x, a, None, None) == Some(p) && DropFirst(x, None, None) == Some(u)
    ensures p.open < p.close < |s| && Delete(s, p) == pre + ("(" + Spell(u) + ")") + post
    decreases x, 4
  {
    Regroup(pre, Spell(x), post);
    assert |pre + "("| == a;
    DeleteTree(s, pre + "(", x, ")" + post, None, None, a, p, u);
    Regroup(pre, Spell(u), post);
  }

  // ------------------------------------------------------------- all the passes

  /** The tree after n passes. */
  function Drops(t: Exp, n: nat): Exp
    decreases n
  {
    if n == 0 || DropFirst(t, None, None).None? then t
    else Drops(DropFirst(t, None, None).value, n - 1)
  }

  /** One pass over a whole spelled expression. */
  lemma {:induction false} OnePass(t: Exp)
    requires LexOk(t) && !t.Args?
    ensures var u := DropFirst(t, None, None);
            if u.None? then FindFrom(Spell(t), 0) == None
            else FindFrom(Spell(t), 0).Some? && Delete(Spell(t), FindFrom(Spell(t), 0).value) == Spell(u.value)
  {
    assert Placed("", t, "", None, None);
    assert "" + Spell(t) + "" == Spell(t);
    FindTree(Spell(t), "", t, "", None, None, |Spell(t)|, PairOf(t, 0, None, None));
    PairFound(t, 0, None, None);
    var u := DropFirst(t, None, None);
    if u.Some? {
      DeleteTree(Spell(t), "", t, "", None, None, 0, PairOf(t, 0, None, None).value, u.value);
      assert "" + Spell(u.value) + "" == Spell(u.value);
    }
  }

  lemma {:induction false} PassesOnTree(t: Exp, n: nat)
    requires LexOk(t) && !t.Args?
    ensures var u := Drops(t, n);
            && LexOk(u) && !u.Args? && Bare(u) == Bare(t) && Pairs(u) <= Pairs(t)
            && Passes(Spell(t), n) == Spell(u) && Erase(u, None, None) == Erase(t, None, None)
            && (Pairs(t) - Pairs(u) < n ==> u == Erase(t, None, None))
  {
    DropsKeep(t, n);
    DropsSpell(t, n);
  }

  lemma {:induction false} DropsKeep(t: Exp, n: nat)
    requires LexOk(t) && !t.Args?
    ensures var u := Drops(t, n);
            && LexOk(u) && !u.Args? && Bare(u) == Bare(t) && Pairs(u) <= Pairs(t)
            && Erase(u, None, None) == Erase(t, None, None)
            && (Pairs(t) - Pairs(u) < n ==> u == Erase(t, None, None))
    decreases n
  {
    DropErases(t, None, None);
    if n > 0 && DropFirst(t, None, None).Some? {
      DropKeeps(t, None, None);
      DropsKeep(DropFirst(t, None, None).value, n - 1);
    }
  }

  lemma {:induction false} DropsSpell(t: Exp, n: nat)
    requires LexOk(t) && !t.Args?
    ensures Passes(Spell(t), n) == Spell(Drops(t, n))
    decreases n
  {
    var d := DropFirst(t, None, None);
    OnePass(t);
    if n == 0 || d.None? {
      NoPass(t, n);
    } else {
      StillLexOk(t, d);
      DropsSpell(d.value, n - 1);
      PassThen(t, n, d.value);
    }
  }

  lemma {:induction false} StillLexOk(t: Exp, d: Option<Exp>)
    requires LexOk(t) && !t.Args? && d == DropFirst(t, None, None)
    ensures d.Some? ==> LexOk(d.value) && !d.value.Args?
  {
    if d.Some? {
      DropKeeps(t, None, None);
    }
  }

  lemma {:induction false} NoPass(t: Exp, n: nat)
    requires n == 0 || (DropFirst(t, None, None).None? && FindFrom(Spell(t), 0).None?)
    ensures Drops(t, n) == t && Passes(Spell(t), n) == Spell(t)
  {
  }

  lemma {:induction false} PassThen(t: Exp, n: nat, u: Exp)
    requires n > 0 && DropFirst(t, None, None) == Some(u)
    requires FindFrom(Spell(t), 0).Some? && Delete(Spell(t), FindFrom(Spell(t), 0).value) == Spell(u)
    ensures Drops(t, n) == Drops(u, n - 1) && Passes(Spell(t), n) == Passes(Spell(u), n - 1)
  {
  }

  /** The arithmetic step leaves the spelling of the tree after its passes. */
  lemma {:induction false} ArithDrops(t: Exp, n: nat)
    requires LexOk(t) && !t.Args? && n == MAX_PASSES
    ensures var u := Drops(t, n);
            LexOk(u) && !u.Args? && CanonArith(Spell(t)) == Spell(u) && Bare(u) == Bare(t)
  {
    SpellEdges(t);
    StripTrimmed(Spell(t));
    PassesOnTree(t, n);
  }

  /** The arithmetic step leaves the spelling of the erased expression, when 64
      passes are enough; otherwise it leaves the same parse tree partly erased. */
  lemma {:induction false} ArithErases(t: Exp)
    requires LexOk(t) && !t.Args?
    ensures exists u :: LexOk(u) && CanonArith(Spell(t)) == Spell(u) && Bare(u) == Bare(t)
    ensures Pairs(t) - Pairs(Erase(t, None, None)) <= MAX_PASSES ==>
              CanonArith(Spell(t)) == Spell(Erase(t, None, None))
  {
    SpellEdges(t);
    StripTrimmed(Spell(t));
    PassesOnTree(t, MAX_PASSES);
    var u := Drops(t, MAX_PASSES);
    assert LexOk(u) && CanonArith(Spell(t)) == Spell(u) && Bare(u) == Bare(t);
    ErasePairs(u, None, None);
  }

  /** Erasing changes an expression only by removing pairs. */
  lemma {:induction false} ErasePairs(t: Exp, left: Option<Op>, right: Option<Op>)
    ensures Pairs(Erase(t, left, right)) <= Pairs(t)
    ensures Pairs(Erase(t, left, right)) == Pairs(t) ==> Erase(t, left, right) == t
    ensures Bare(Erase(t, left, right)) == Bare(t)
  {
    match t
    case Leaf(_) =>
    case Call(_, arg) => ErasePairs(arg, None, None);
    case Args(list) => ErasePairs(list, None, None);
    case Paren(inner) =>
      ErasePairs(inner, left, right);
      ErasePairs(inner, None, None);
    case Bin(l, _, op, _, r) =>
      ErasePairs(l, left, Some(op));
      ErasePairs(r, Some(op), right);
  }
}
