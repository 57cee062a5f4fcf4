/** The group directly after "not", for all contents. */
module BoolTight {
  import opened Lex
  import opened Splitter
  import opened BoolCanon
  import opened BoolGrammar
  import opened BoolForms
  import opened BoolPeel
  import opened BoolCorrect
  import opened BoolTheorems
  import opened BoolGroups
  import opened BoolCounts
  import opened BoolNot

  // ------------------------------------------------------ the last operand itself

  /** An opaque last operand whose balance changes does not come out. */
  lemma {:induction false} OpaqueComes(l: Src, q: string)
    requires l.Atom? || l.Tail?
    requires Calls(q) <= Calls(Spell(l)) && Net(q) != Net(Spell(l))
    ensures Comes(l, q, false)
  {
    var a, c := Spell(l), CanonBool(q);
    SwapIs(l, q);
    assert Print(Flatten(l)) == a;
    CanonFades(q);
    GroupCounts(a);
    GroupCounts(c);
  }

  /** A closing parenthesis too many, perhaps after blanks. */
  ghost predicate Extra(z: string) {
    z != "" && z[|z| - 1] == ')' && Blank(z[..|z| - 1])
  }

  lemma {:induction false} ExtraCounts(z: string)
    requires Extra(z)
    ensures Ink(z) == 0 && Calls(z) == 0 && Net(z) == -1 && !IsIdent(z[0]) && z[0] != '('
    ensures NoCut(z, "or") && NoCut(z, "and")
  {
    var w := z[..|z| - 1];
    assert z == w + ")";
    BlankCounts(w);
    assert Ink(")") == 0 && Calls(")") == 0 && Raw(")", 1) == Raw(")", 0) - 1;
    InkConcat(w, ")");
    CallsConcat(w, ")");
    NetConcat(w, ")");
    WordsNoCut();
    BlankNoCut(w, "or");
    BlankNoCut(w, "and");
    NoCutConcat(w, ")", "or");
    NoCutConcat(w, ")", "and");
  }

  lemma {:induction false} ExtraStands(l: Src, z: string)
    requires Wf(l) && !l.Or? && !l.And? && Extra(z)
    ensures Stands(Spell(l) + z, l)
  {
    var a := Spell(l);
    SpellShape(l);
    ExtraCounts(z);
    SpellNoOr(l);
    SpellNoAnd(l);
    WordsNoCut();
    NoCutConcat(a, z, "or");
    NoCutConcat(a, z, "and");
    InkConcat(a, z);
    assert (a + z)[|a + z| - 1] == z[|z| - 1];
  }

  /** The extra parenthesis does harm behind everything but a gapless "not". */
  lemma {:induction false} ExtraComes(l: Src, z: string)
    requires Wf(l) && Clean(l) && Faithful(l) && Extra(z)
    requires !l.Or? && !l.And? && (l.Not? ==> l.gap == "" && l.operand.Group?)
    ensures Comes(l, Spell(l) + z, l.Not?)
  {
    ExtraCounts(z);
    CallsConcat(Spell(l), z);
    NetConcat(Spell(l), z);
    match l
    case Atom(_) => OpaqueComes(l, Spell(l) + z);
    case Tail(_, _, _, _) => OpaqueComes(l, Spell(l) + z);
    case Group(_, _, _) => ExtraGroup(l, z);
    case Not(_, _) => ExtraNot(l, z);
  }

  lemma {:induction false} ExtraGroup(l: Src, z: string)
    requires Wf(l) && Clean(l) && Faithful(l) && Extra(z) && l.Group?
    ensures Comes(l, Spell(l) + z, false)
  {
    var q, g := Spell(l) + z, Print(Flatten(l));
    SwapIs(l, q);
    ExtraStands(l, z);
    ExtraCounts(z);
    GroupAlike(l);
    ReadSize(l);
    NotWrapped(Spell(l), z);
    assert q[0] == '(';
    Untouched(q);
    NetConcat(Spell(l), z);
    GroupCounts(g);
    GroupCounts(q);
  }

  lemma {:induction false} ExtraNot(l: Src, z: string)
    requires Wf(l) && Clean(l) && Faithful(l) && Extra(z) && l.Not? && l.gap == "" && l.operand.Group?
    ensures Comes(l, Spell(l) + z, true)
  {
    var g := l.operand;
    var x := g.g1 + Spell(g.inner) + g.g2;
    SwapIs(l, Spell(l) + z);
    ExtraStands(l, z);
    PeeledExactly(x);
    NotText(x);
    assert "" + Spell(g) == Spell(g);
    TightNoCut(l);
    ExtraRead(x, z, Spell(l));
    FaithfulExactly(l);
  }

  lemma {:induction false} ExtraRead(x: string, z: string, s: string)
    requires RawBalanced(x) && s == "not(" + x + ")" && Extra(z)
    requires NoCut(s, "or") && NoCut(s, "and") && NoCut(s + z, "or") && NoCut(s + z, "and")
    ensures CanonBool(s + z) == CanonBool(s)
  {
    assert s == s + "";
    CutShort(x, z);
    CutShort(x, "");
  }

  // -------------------------------------------------- where the reading stops short

  lemma {:induction false} InkThere(z: string, i: nat)
    requires i < |z| && Inked(z[i])
    ensures Ink(z) >= 1
  {
    if i > 0 {
      InkThere(z[1..], i - 1);
    }
  }

  predicate EndsWith(s: string, z: string) {
    |z| <= |s| && s[|s| - |z|..] == z
  }

  /** A suffix without ink that begins with a parenthesis lies in the last operand. */
  lemma {:induction false} SuffixOfLast(e: Src, z: string)
    requires Wf(e) && EndsWith(Spell(e), z)
    requires z != "" && z[0] == ')' && Ink(z) == 0
    ensures EndsWith(Spell(Last(e)), z) && |z| < |Spell(Last(e))|
  {
    if e.Or? || e.And? {
      SuffixOfRun(e, z);
      SuffixOfLast(e.right, z);
    } else if e.Not? && e.gap != "" {
      SuffixOfNot(e, z);
      SuffixOfLast(e.operand, z);
    } else {
      NotAllClosing(e, z);
    }
  }

  lemma {:induction false} SuffixOfRun(e: Src, z: string)
    requires Wf(e) && (e.Or? || e.And?) && EndsWith(Spell(e), z)
    requires z != "" && z[0] == ')' && Ink(z) == 0
    ensures EndsWith(Spell(e.right), z)
  {
    var a := (Spell(e.left) + e.w1) + if e.Or? then "or" else "and";
    assert a[|a| - 1] == if e.Or? then 'r' else 'd';
    SuffixOfRight(a, e.w2, Spell(e.right), z);
  }

  lemma {:induction false} SuffixOfNot(e: Src, z: string)
    requires Wf(e) && e.Not? && EndsWith(Spell(e), z)
    requires z != "" && z[0] == ')' && Ink(z) == 0
    ensures EndsWith(Spell(e.operand), z)
  {
    var a := "not";
    assert a[2] == 't';
    SuffixOfRight(a, e.gap, Spell(e.operand), z);
  }

  lemma {:induction false} NotAllClosing(e: Src, z: string)
    requires Wf(e) && EndsWith(Spell(e), z) && z != "" && z[0] == ')'
    ensures |z| < |Spell(e)|
  {
    var s := Spell(e);
    SpellShape(e);
    FirstNotClosing(s);
    assert s[0..] == s;
  }

  lemma {:induction false} FirstNotClosing(s: string)
    requires Balanced(s) && s != ""
    ensures s[0] != ')'
  {
    assert At(s, 1) == Step(At(s, 0), s[0]);
    assert At(s, 1).depth >= 0;
  }

  lemma {:induction false} SuffixOfRight(a: string, w: string, x: string, z: string)
    requires a != "" && Inked(a[|a| - 1]) && Blank(w)
    requires EndsWith(a + (w + x), z)
    requires z != "" && z[0] == ')' && Ink(z) == 0
    ensures EndsWith(x, z)
  {
    var s := a + (w + x);
    var k := |s| - |z|;
    ThreeAt(a, w, x, k);
    ThreeAt(a, w, x, |a| - 1);
    assert z[0] == s[k];
    if k < |a| {
      assert z[|a| - 1 - k] == s[|a| - 1];
      InkThere(z, |a| - 1 - k);
    }
  }

  lemma {:induction false} ThreeAt(a: string, w: string, x: string, k: nat)
    requires k < |a| + |w| + |x|
    ensures var s := a + (w + x);
            && s[k] == (if k < |a| then a[k] else if k < |a| + |w| then w[k - |a|] else x[k - |a| - |w|])
            && (k >= |a| + |w| ==> s[k..] == x[k - |a| - |w|..])
  {
  }

  /** Without quotes the lexical depth follows the count. */
  lemma {:induction false} NoQuoteState(st: State, z: string, i: nat)
    requires i <= |z| && forall k :: 0 <= k < |z| ==> z[k] != '\''
    ensures From(st, z, i) == if st.inStr then st else State(st.depth + Raw(z, i), false)
    decreases i
  {
    if i > 0 {
      NoQuoteState(st, z, i - 1);
    }
  }

  lemma {:induction false} NoInkNoQuote(z: string)
    requires Ink(z) == 0
    ensures forall k :: 0 <= k < |z| ==> z[k] != '\''
  {
    forall k | 0 <= k < |z|
      ensures z[k] != '\''
    {
      if z[k] == '\'' {
        InkThere(z, k);
      }
    }
  }

  /** Such a suffix closes more than it opens. */
  lemma {:induction false} SuffixNet(a: string, b: string, z: string)
    requires a == b + z && Balanced(a) && z != "" && z[0] == ')' && Ink(z) == 0
    ensures Net(z) < 0
  {
    var st := At(b, |b|);
    NoInkNoQuote(z);
    FromConcat(START, b, z, |a|);
    FromConcat(START, b, z, |b| + 1);
    NoQuoteState(st, z, |z|);
    NoQuoteState(st, z, 1);
    assert Raw(z, 1) == Raw(z, 0) - 1;
    assert At(a, |b| + 1).depth >= 0;
  }

  /** What is read stands for the last operand, which is opaque, and does not come out. */
  lemma {:induction false} CutStands(l: Src, b: string, z: string) returns (q: string, w: string)
    requires Wf(l) && (l.Atom? || l.Tail?) && Spell(l) == b + z && b != ""
    requires z != "" && z[0] == ')' && Ink(z) == 0
    ensures b == q + w && Blank(w) && Stands(q, l) && Comes(l, q, false)
  {
    var a := Spell(l);
    SpellShape(l);
    FirstNotClosing(a);
    q, w := StripEnd(b);
    assert b[0] == a[0];
    assert a == q + (w + z);
    BlankNotAll(q, w, z, a);
    CutComes(l, q, w, z);
  }

  lemma {:induction false} StripEnd(b: string) returns (q: string, w: string)
    requires b != "" && !IsSpace(b[0])
    ensures b == q + w && Blank(w) && Trimmed(q)
  {
    var w1;
    w1, w := StripParts(b);
    q := Strip(b);
    assert b == w1 + (q + w);
    ThreeAt(w1, q, w, 0);
  }

  lemma {:induction false} CutComes(l: Src, q: string, w: string, z: string)
    requires Wf(l) && (l.Atom? || l.Tail?) && Spell(l) == q + (w + z) && Blank(w)
    requires q != "" && Trimmed(q) && z != "" && z[0] == ')' && Ink(z) == 0
    ensures Stands(q, l) && Comes(l, q, false)
  {
    SpellShape(l);
    CutCounts(Spell(l), q, w, z);
    OpaqueComes(l, q);
    PrefixNoCut(l, q, w + z);
  }

  lemma {:induction false} CutCounts(a: string, q: string, w: string, z: string)
    requires a == q + (w + z) && Balanced(a) && Blank(w) && q != "" && z != "" && z[0] == ')' && Ink(z) == 0
    ensures Calls(q) <= Calls(a) && Ink(q) == Ink(a) && Net(q) != Net(a)
    ensures a[0] == q[0] && w + z != "" && !IsIdent((w + z)[0])
  {
    CutEdge(q, w, z);
    SuffixNet(a, q + w, z);
    BlankCounts(w);
    NetConcat(q, w + z);
    NetConcat(w, z);
    CallsConcat(q, w + z);
    InkConcat(q, w + z);
    InkConcat(w, z);
  }

  lemma {:induction false} CutEdge(q: string, w: string, z: string)
    requires Blank(w) && q != "" && z != "" && z[0] == ')'
    ensures q + (w + z) == (q + w) + z && (q + (w + z))[0] == q[0] && w + z != "" && !IsIdent((w + z)[0])
  {
    assert (w + z)[0] == if w == "" then z[0] else w[0];
  }

  lemma {:induction false} BlankNotAll(q: string, w: string, z: string, a: string)
    requires a == q + (w + z) && Blank(w) && a != "" && z != "" && !IsSpace(a[0]) && a[0] != ')' && z[0] == ')'
    ensures q != "" && q[0] == a[0]
  {
    ThreeAt(q, w, z, 0);
  }

  lemma {:induction false} PrefixNoCut(l: Src, q: string, y: string)
    requires Wf(l) && (l.Atom? || l.Tail?) && Spell(l) == q + y && y != "" && !IsIdent(y[0])
    ensures NoCut(q, "or") && NoCut(q, "and")
  {
    SpellNoOr(l);
    SpellNoAnd(l);
    WordsNoCut();
    forall i: nat | i <= |q|
      ensures !IsCut(q, "or", i) && !IsCut(q, "and", i)
    {
      if IsCut(q, "or", i) {
        LeftCut(q, y, "or", i);
      }
      if IsCut(q, "and", i) {
        LeftCut(q, y, "and", i);
      }
    }
  }
  // ------------------------------------------------------------- the theorem

  /** A text that is closed too early, cut where that happens. */
  lemma {:induction false} FirstDip(x: string, i: nat) returns (w: string, rest: string)
    requires i <= |x| && (forall k {:trigger Raw(x, k)} :: 0 <= k <= i ==> Raw(x, k) >= 0) && !Stays(x, 1)
    ensures x == w + ")" + rest && RawBalanced(w)
    decreases |x| - i
  {
    if i == |x| {
      assert false;
    }
    assert Raw(x, i + 1) == Raw(x, i) + if x[i] == '(' then 1 else if x[i] == ')' then -1 else 0;
    if Raw(x, i + 1) >= 0 {
      w, rest := FirstDip(x, i + 1);
    } else {
      w, rest := x[..i], x[i + 1..];
      assert x == w + x[i..] && x[i..] == ")" + rest;
      forall k {:trigger Raw(w, k)} | 0 <= k <= i
        ensures Raw(w, k) == Raw(x, k)
      {
        RawConcat(w, x[i..], k);
      }
    }
  }

  lemma {:induction false} TightText(t: Src)
    requires Wf(t) && t.Group?
    ensures var n, x := Not("", t), t.g1 + Spell(t.inner) + t.g2;
            Wf(n) && Spell(n) == "not(" + x + ")" && NoCut(Spell(n), "or") && NoCut(Spell(n), "and")
  {
    var n := Not("", t);
    NotGroupIs(t, n);
    NotText(t.g1 + Spell(t.inner) + t.g2);
    TightNoCut(n);
  }

  /** Where the parenthesis after "not" is closed too early, only what stands before
      is read, and canonicalised. */
  lemma {:induction false} EarlyRead(t: Src, w: string, rest: string)
    requires Wf(t) && t.Group? && Spell(t.inner) == w + ")" + rest && RawBalanced(w)
    ensures CanonBool(Spell(Not("", t))) == Negate(CanonBool(t.g1 + w))
  {
    TightText(t);
    RawPadded(t.g1, w, "");
    assert t.g1 + w + "" == t.g1 + w;
    EarlyText(t.g1, w, rest, t.g2, Spell(Not("", t)));
    CutShort(t.g1 + w, rest + t.g2 + ")");
  }

  lemma {:induction false} EarlyText(g1: string, w: string, rest: string, g2: string, s: string)
    requires s == "not(" + (g1 + (w + ")" + rest) + g2) + ")"
    ensures s == "not(" + (g1 + w) + ")" + (rest + g2 + ")") && (rest + g2 + ")")[|rest + g2|] == ')'
  {
  }

  /** Whatever the content: when anything but blanks and parentheses stands behind
      that place, the output is wrong, for it is lost. */
  lemma {:induction false} InkLost(t: Src, w: string, rest: string)
    requires Wf(t) && t.Group? && Spell(t.inner) == w + ")" + rest && RawBalanced(w) && Ink(rest) > 0
    ensures CanonBool(Spell(Not("", t))) != Print(Neg(Flatten(t)))
  {
    EarlyRead(t, w, rest);
    BlankCounts(t.g1);
    InkConcat(t.g1, w);
    CanonFades(t.g1 + w);
    NotCounts(CanonBool(t.g1 + w));
    InkConcat(w, ")");
    InkConcat(w + ")", rest);
    PrintInk(t.inner);
    NegInk(Flatten(t));
  }

  lemma {:induction false} CanonMargins(m1: string, x: string, m2: string)
    requires Blank(m1) && Blank(m2) && Trimmed(x)
    ensures CanonBool(m1 + x + m2) == CanonBool(x)
  {
    StripOf(m1, x, m2);
    StripTrimmed(x);
  }

  /** A suffix that closes more than it opens is not that of a recognised group. */
  lemma {:induction false} LastOpaque(e: Src, b: string, z: string, w: string)
    requires Wf(e) && Inside(e) && Faithful(e) && (e.Or? || e.And? || Peels(e))
    requires Spell(Last(e)) == b + z && z != "" && z[0] == ')' && w == Front(e) + b && RawBalanced(w)
    ensures Last(e).Atom? || Last(e).Tail?
  {
    var l := Last(e);
    LastKept(e);
    EndDips(Front(e), b, z);
    if l.Group? || l.Not? {
      LastBalanced(l);
    }
  }

  lemma {:induction false} EndDips(f: string, b: string, z: string)
    requires RawBalanced(f + b) && z != "" && z[0] == ')'
    ensures !RawBalanced(b + z)
  {
    StaysConcat(f, b, 1);
    NetConcat(f, b);
    assert 1 + Raw(f, |f|) > 0;
    RawConcat(b, z, |b| + 1);
    assert Raw(z, 1) == Raw(z, 0) - 1;
    assert Raw(b + z, |b| + 1) < 0;
  }

  lemma {:induction false} LastBalanced(l: Src)
    requires Wf(l) && Clean(l) && (l.Group? || (l.Not? && l.gap == "" && l.operand.Group?))
    ensures RawBalanced(Spell(l))
  {
    var g := if l.Group? then l else l.operand;
    PeeledExactly(g.g1 + Spell(g.inner) + g.g2);
    RawGroup(g.g1 + Spell(g.inner) + g.g2);
    if l.Not? {
      NoParensRaw("not", 1);
      RawBalancedConcat("not", Spell(g));
      assert "" + Spell(g) == Spell(g);
    }
  }

  /** Closed too early: never right. */
  lemma {:induction false} EarlyIsWrong(t: Src, w: string, rest: string)
    requires Wf(t) && t.Group? && Clean(t.inner) && Faithful(t)
    requires Spell(t.inner) == w + ")" + rest && RawBalanced(w)
    ensures CanonBool(Spell(Not("", t))) != Print(Neg(Flatten(t)))
  {
    if Ink(rest) > 0 {
      InkLost(t, w, rest);
    } else {
      EarlyRead(t, w, rest);
      ClosingRest(w, rest);
      EarlyCut(t.inner, t.g1, w, ")" + rest);
      NegationComes(CanonBool(t.g1 + w), t.inner, false);
    }
  }

  lemma {:induction false} ClosingRest(w: string, rest: string)
    ensures w + ")" + rest == w + (")" + rest) && (")" + rest)[0] == ')' && Ink(")" + rest) == Ink(rest)
  {
    InkConcat(")", rest);
    assert Ink(")") == 0;
  }

  lemma {:induction false} EarlyCut(e: Src, g1: string, w: string, z: string)
    requires Wf(e) && Clean(e) && Faithful(e) && Blank(g1) && Spell(e) == w + z && RawBalanced(w)
    requires z != "" && z[0] == ')' && Ink(z) == 0
    ensures Prints(CanonBool(g1 + w), Print(Flatten(e)), e.Or? || e.And?, false)
  {
    var b := EndOfLast(e, w, z);
    LastOpaque(e, b, z, w);
    LastKept(e);
    var q, m := CutStands(Last(e), b, z);
    WholeComes(e, q, false);
    SwapEdges(e, q);
    MarginsOff(g1, Front(e), b, q, m);
    CanonMargins(g1, Swap(e, q), m);
  }

  lemma {:induction false} MarginsOff(g1: string, f: string, b: string, q: string, m: string)
    requires b == q + m
    ensures g1 + (f + b) == g1 + (f + q) + m
  {
  }

  lemma {:induction false} EndOfLast(e: Src, w: string, z: string) returns (b: string)
    requires Wf(e) && Spell(e) == w + z && z != "" && z[0] == ')' && Ink(z) == 0
    ensures Spell(Last(e)) == b + z && w == Front(e) + b && b != ""
  {
    Suffix(w, z);
    SuffixOfLast(e, z);
    SwapBack(e);
    b := FrontOf(Front(e), Spell(Last(e)), z, w);
  }

  lemma {:induction false} Suffix(w: string, z: string)
    ensures EndsWith(w + z, z)
  {
  }

  lemma {:induction false} FrontOf(f: string, a: string, z: string, w: string) returns (b: string)
    requires f + a == w + z && |z| < |a| && EndsWith(a, z)
    ensures a == b + z && w == f + b && b != ""
  {
    b := a[..|a| - |z|];
    assert a == b + z;
    assert f + (b + z) == (f + b) + z;
    SameEnd(f + b, w, z);
  }

  lemma {:induction false} SameEnd(x: string, w: string, z: string)
    requires x + z == w + z
    ensures x == w
  {
    assert |x| == |w| && (x + z)[..|x|] == x && (w + z)[..|w|] == w;
  }

  /** Never closed: the group's own closing parenthesis is read as well. */
  lemma {:induction false} NeverClosed(t: Src)
    requires Wf(t) && t.Group? && Clean(t.inner) && Faithful(t) && Stays(Spell(t.inner), 1) && Net(Spell(t.inner)) > 0
    ensures CanonBool(Spell(Not("", t))) == Print(Neg(Flatten(t))) <==> EndsInNot(t)
  {
    var e, z := t.inner, t.g2 + ")";
    LateRead(t);
    LastKept(e);
    ExtraStands(Last(e), z);
    ExtraComes(Last(e), z);
    WholeComes(e, Spell(Last(e)) + z, Last(e).Not?);
    LateText(t, z);
    NegationComes(CanonBool(t.g1 + Spell(e) + t.g2 + ")"), e, EndsInNot(t));
  }

  /** The content ends in a gapless "not", under no group, and no run on the way there
      looks like a group when the parenthesis behind the content is added. */
  ghost predicate EndsInNot(t: Src)
    requires t.Group?
  {
    Last(t.inner).Not? && Unpeeled(t.inner, Spell(Last(t.inner)) + (t.g2 + ")"), true)
  }

  lemma {:induction false} LateText(t: Src, z: string)
    requires Wf(t) && t.Group? && z == t.g2 + ")" && Stands(Spell(Last(t.inner)) + z, Last(t.inner))
    ensures CanonBool(t.g1 + Spell(t.inner) + t.g2 + ")") == CanonBool(Swap(t.inner, Spell(Last(t.inner)) + z))
  {
    var e, q := t.inner, Spell(Last(t.inner)) + z;
    SwapBack(e);
    SwapEdges(e, q);
    CanonMargins(t.g1, Swap(e, q), "");
    LateStrings(t.g1, Front(e), Spell(Last(e)), t.g2, z);
  }

  lemma {:induction false} LateStrings(g1: string, f: string, a: string, g2: string, z: string)
    requires z == g2 + ")"
    ensures g1 + (f + a) + g2 + ")" == g1 + (f + (a + z)) + ""
  {
  }

  lemma {:induction false} LateRead(t: Src)
    requires Wf(t) && t.Group? && Stays(Spell(t.inner), 1) && Net(Spell(t.inner)) > 0
    ensures CanonBool(Spell(Not("", t))) == Negate(CanonBool(t.g1 + Spell(t.inner) + t.g2 + ")"))
  {
    var x := t.g1 + Spell(t.inner) + t.g2;
    TightText(t);
    PaddedStays(t.g1, Spell(t.inner), t.g2);
    NoPartner(x);
    NotText(x);
    ReadToEnd(Spell(Not("", t)), x + ")");
  }

  lemma {:induction false} PaddedStays(w1: string, x: string, w2: string)
    requires Blank(w1) && Blank(w2) && Stays(x, 1)
    ensures Stays(w1 + x + w2, 1) && Net(w1 + x + w2) == Net(x)
  {
    NoParensRaw(w1, 1);
    StaysConcat(w1, x, 1);
    NetConcat(w1, x);
    assert 1 + Raw(x, |x|) > 0;
    NoParensRaw(w2, 1 + Net(x));
    StaysConcat(w1 + x, w2, 1);
    NetConcat(w1 + x, w2);
  }

  /** A group directly after "not" comes out right exactly when its content balances
      with the parentheses of its literals counted; or it opens more than it closes,
      never closes too early, and ends in a gapless "not" that drops the parenthesis
      read too much. */
  lemma {:induction false} TightExactly(t: Src)
    requires Wf(t) && t.Group? && Clean(t.inner) && Faithful(t)
    ensures var x := Spell(t.inner);
            CanonBool(Spell(Not("", t))) == Print(Neg(Flatten(t))) <==>
            RawBalanced(x) || (Stays(x, 1) && Net(x) > 0 && EndsInNot(t))
  {
    var x := Spell(t.inner);
    if RawBalanced(x) {
      RecognisedClean(t);
      TightText(t);
      NotPeels("" + Spell(t));
      FaithfulExactly(Not("", t));
    } else if !Stays(x, 1) {
      assert Raw(x, 0) == 0;
      var w, rest := FirstDip(x, 0);
      EarlyIsWrong(t, w, rest);
    } else {
      assert 1 + Raw(x, |x|) > 0;
      NeverClosed(t);
    }
  }
}
