/** What _canonicalize_bool may do to any text at all, well-formed or not. */
module BoolCounts {
  // Four counts: the characters that are neither blank nor parentheses, the opening
  // parentheses directly after an identifier, those at the beginning of the text, and
  // the balance with the parentheses of literals counted.

  import opened Lex
  import opened Splitter
  import opened BoolCanon
  import opened BoolPeel

  predicate Inked(c: char) {
    !IsSpace(c) && c != '(' && c != ')'
  }

  /** Characters that are neither blank nor parentheses. */
  function Ink(s: string): nat {
    if s == "" then 0 else (if Inked(s[0]) then 1 else 0) + Ink(s[1..])
  }

  /** One when an identifier and an opening parenthesis meet. */
  function Meets(a: string, b: string): nat {
    if a != "" && b != "" && IsIdent(a[|a| - 1]) && b[0] == '(' then 1 else 0
  }

  /** Opening parentheses directly after an identifier. */
  function Calls(s: string): nat {
    if s == "" then 0 else Meets([s[0]], s[1..]) + Calls(s[1..])
  }

  /** Opening parentheses before any other character but blanks. */
  function Lead(s: string): nat {
    if s == "" then 0
    else if s[0] == '(' then 1 + Lead(s[1..])
    else if IsSpace(s[0]) then Lead(s[1..])
    else 0
  }

  lemma {:induction false} InkConcat(a: string, b: string)
    ensures Ink(a + b) == Ink(a) + Ink(b)
  {
    if a == "" {
      assert a + b == b;
    } else {
      assert (a + b)[1..] == a[1..] + b;
      InkConcat(a[1..], b);
    }
  }

  lemma {:induction false} CallsConcat(a: string, b: string)
    ensures Calls(a + b) == Calls(a) + Meets(a, b) + Calls(b)
  {
    if a == "" {
      assert a + b == b;
    } else {
      assert (a + b)[1..] == a[1..] + b;
      CallsConcat(a[1..], b);
    }
  }

  lemma {:induction false} LeadConcat(a: string, b: string)
    requires Lead(b) == 0
    ensures Lead(a + b) == Lead(a)
  {
    if a == "" {
      assert a + b == b;
    } else {
      assert (a + b)[1..] == a[1..] + b;
      LeadConcat(a[1..], b);
    }
  }

  lemma {:induction false} LeadBlank(w: string, x: string)
    requires Blank(w)
    ensures Lead(w + x) == Lead(x)
  {
    if w == "" {
      assert w + x == x;
    } else {
      assert (w + x)[1..] == w[1..] + x;
      LeadBlank(w[1..], x);
    }
  }

  lemma {:induction false} PlainCounts(x: string)
    requires NoParens(x)
    ensures Calls(x) == 0 && Lead(x) == 0 && Net(x) == 0
  {
    NoParensRaw(x, 1);
    if x != "" {
      PlainCounts(x[1..]);
    }
  }

  lemma {:induction false} BlankCounts(w: string)
    requires Blank(w)
    ensures NoParens(w) && Ink(w) == 0 && Calls(w) == 0 && Lead(w) == 0 && Net(w) == 0
  {
    PlainCounts(w);
    if w != "" {
      BlankCounts(w[1..]);
    }
  }

  lemma {:induction false} WordCounts(op: string)
    requires AllIdent(op)
    ensures NoParens(op) && Ink(op) == |op| && Calls(op) == 0 && Net(op) == 0
    ensures op != "" ==> forall x :: Lead(op + x) == 0
  {
    PlainCounts(op);
    if op != "" {
      WordCounts(op[1..]);
    }
  }

  /** Margins do not count. */
  lemma {:induction false} StripCounts(s: string)
    ensures Ink(Strip(s)) == Ink(s) && Calls(Strip(s)) == Calls(s) && Lead(Strip(s)) == Lead(s) && Net(Strip(s)) == Net(s)
  {
    var w1, w2 := StripParts(s);
    var x := Strip(s);
    BlankCounts(w1);
    BlankCounts(w2);
    InkConcat(w1, x);
    InkConcat(w1 + x, w2);
    CallsConcat(w1, x);
    CallsConcat(w1 + x, w2);
    NetConcat(w1, x);
    NetConcat(w1 + x, w2);
    LeadBlank(w1, x);
    LeadConcat(w1 + x, w2);
  }

  lemma {:induction false} GroupCounts(y: string)
    ensures var s := "(" + y + ")";
            Ink(s) == Ink(y) && Calls(s) == Calls(y) && Lead(s) == 1 + Lead(y) && Net(s) == Net(y)
  {
    var s := "(" + y + ")";
    assert s == "(" + (y + ")") && s[0] == '(' && s[1..] == y + ")";
    assert Ink(")") == 0 && Calls(")") == 0 && Lead(")") == 0;
    InkConcat(y, ")");
    CallsConcat(y, ")");
    LeadConcat(y, ")");
    RawInside(y, 0);
  }

  // ------------------------------------------------------ what can happen to them

  /** o has no more ink and no more calls than s; where it has the same ink it has no
      more parentheses in front, and where it has the same calls the same balance. */
  ghost predicate Fades(o: string, s: string) {
    && Ink(o) <= Ink(s) && Calls(o) <= Calls(s)
    && (Ink(o) == Ink(s) ==> Lead(o) <= Lead(s))
    && (Calls(o) == Calls(s) ==> Net(o) == Net(s))
  }

  lemma {:induction false} FadesStrip(o: string, s: string)
    requires Fades(o, Strip(s))
    ensures Fades(o, s)
  {
    StripCounts(s);
  }

  lemma {:induction false} FadesGroup(o: string, y: string)
    requires Fades(o, y)
    ensures Fades(o, "(" + y + ")") && Fades("(" + o + ")", "(" + y + ")")
  {
    GroupCounts(o);
    GroupCounts(y);
  }

  lemma {:induction false} UnwrapFades(s: string)
    ensures Fades(Unwrap(s), s)
    decreases |s|
  {
    if Wrapped(s) {
      var y := s[1..|s| - 1];
      assert s == "(" + y + ")";
      UnwrapFades(Strip(y));
      FadesStrip(Unwrap(s), y);
      FadesGroup(Unwrap(s), y);
    }
  }

  lemma {:induction false} FadesThen(o: string, m: string, s: string)
    requires Fades(o, m) && Fades(m, s)
    ensures Fades(o, s)
  {
  }

  /** A negation printed for an operand that fades. */
  lemma {:induction false} NotCounts(o: string)
    ensures Ink(Negate(o)) == 3 + Ink(o) && Calls(Negate(o)) == Calls(o) && Lead(Negate(o)) == 0 && Net(Negate(o)) == Net(o)
  {
    NotPrefixCounts(o);
    NotPrefixCounts("(" + o + ")");
    GroupCounts(o);
    assert "not (" + o + ")" == "not " + ("(" + o + ")");
  }

  lemma {:induction false} NotPrefixCounts(x: string)
    ensures var s := "not " + x; Ink(s) == 3 + Ink(x) && Calls(s) == Calls(x) && Lead(s) == 0 && Net(s) == Net(x)
  {
    var s := "not " + x;
    WordCounts("not");
    BlankCounts(" ");
    assert "not " == "not" + " " && s == "not" + (" " + x);
    InkConcat("not", " ");
    InkConcat("not ", x);
    CallsConcat("not", " ");
    CallsConcat("not ", x);
    NetConcat("not", " ");
    NetConcat("not ", x);
  }

  lemma {:induction false} SpacedFades(o: string, x: string)
    requires Fades(o, x)
    ensures Fades(Negate(o), "not " + x)
  {
    NotCounts(o);
    NotPrefixCounts(x);
  }

  /** What follows a gapless "not" loses at least the call it looks like. */
  lemma {:induction false} TightFades(o: string, v: string, rest: string)
    requires Fades(o, v)
    ensures Fades(Negate(o), "not(" + v + rest)
  {
    NotCounts(o);
    TightCounts(v, rest);
  }

  lemma {:induction false} TightCounts(v: string, rest: string)
    ensures var s := "not(" + v + rest; Ink(s) >= 3 + Ink(v) && Calls(s) >= 1 + Calls(v)
  {
    var u := v + rest;
    WordCounts("not");
    assert "not(" + v + rest == "not" + ("(" + u);
    InkConcat("not", "(" + u);
    CallsConcat("not", "(" + u);
    assert ("(" + u)[1..] == u;
    InkConcat(v, rest);
    CallsConcat(v, rest);
  }

  // -------------------------------------------------------------------- the runs

  /** One operand before the others. */
  lemma {:induction false} JoinFades(o: string, p: string, op: string, sep: string, o2: string, s2: string)
    requires Fades(o, p) && Fades(o2, s2) && IsWord(op) && sep == " " + op + " "
    ensures Fades(o + sep + o2, p + op + s2)
  {
    SepCounts(op, sep);
    JoinCounts(o, sep, o2);
    WordCounts(op);
    JoinCounts(p, op, s2);
    JoinLeads(p, op, s2);
    JoinLeads(o, sep, o2);
  }

  lemma {:induction false} JoinLeads(a: string, m: string, b: string)
    requires IsWord(m) || (|m| >= 2 && IsWord(m[1..|m| - 1]) && m == " " + m[1..|m| - 1] + " ")
    ensures Lead(a + m + b) == Lead(a)
  {
    if IsWord(m) {
      WordCounts(m);
    } else {
      var op := m[1..|m| - 1];
      WordCounts(op);
      assert m + b == " " + (op + (" " + b));
      LeadBlank(" ", op + (" " + b));
    }
    LeadConcat(a, m + b);
    assert a + m + b == a + (m + b);
  }

  lemma {:induction false} SepCounts(op: string, sep: string)
    requires IsWord(op) && sep == " " + op + " "
    ensures Ink(sep) == |op| && Calls(sep) == 0 && Net(sep) == 0 && sep[0] == ' ' && sep[|sep| - 1] == ' '
  {
    WordCounts(op);
    BlankCounts(" ");
    InkConcat(" ", op);
    InkConcat(" " + op, " ");
    CallsConcat(" ", op);
    CallsConcat(" " + op, " ");
    NetConcat(" ", op);
    NetConcat(" " + op, " ");
  }

  lemma {:induction false} JoinCounts(a: string, m: string, b: string)
    requires m != "" && Calls(m) == 0 && Net(m) == 0 && m[0] != '('
    ensures Ink(a + m + b) == Ink(a) + Ink(m) + Ink(b) && Net(a + m + b) == Net(a) + Net(b)
    ensures Calls(a + m + b) >= Calls(a) + Calls(b)
    ensures !IsIdent(m[|m| - 1]) ==> Calls(a + m + b) == Calls(a) + Calls(b)
  {
    InkConcat(a, m);
    InkConcat(a + m, b);
    CallsConcat(a, m);
    CallsConcat(a + m, b);
    NetConcat(a, m);
    NetConcat(a + m, b);
  }

  /** A blank piece is dropped with its operator. */
  lemma {:induction false} DropFades(p: string, op: string, o2: string, s2: string)
    requires Strip(p) == "" && Fades(o2, s2) && IsWord(op)
    ensures Fades(o2, p + op + s2)
  {
    StripCounts(p);
    WordCounts(op);
    JoinCounts(p, op, s2);
  }

  /** The operands between the cuts, each canonical, joined again. */
  lemma {:induction false} AllFades(ps: seq<string>, op: string, sep: string, parent: int, n: nat)
    requires ps != [] && IsWord(op) && sep == " " + op + " "
    requires forall p :: p in Parts(ps) ==> |p| < n
    ensures Fades(Rejoin(CanonAll(Parts(ps), parent, n), sep), Rejoin(ps, op))
    decreases n, 0, 2 * |ps|
  {
    var p, rest := ps[0], ps[1..];
    var one := if Strip(p) == "" then [] else [Strip(p)];
    assert ps == [p] + rest && Parts(ps) == one + Parts(rest);
    if one != [] {
      assert Strip(p) in Parts(ps);
      OperandFades(Strip(p), parent);
      FadesStrip(CanonOperand(Strip(p), parent), p);
    }
    PieceFades(p, rest, op, sep, parent, n);
  }

  lemma {:induction false} PieceFades(p: string, rest: seq<string>, op: string, sep: string, parent: int, n: nat)
    requires IsWord(op) && sep == " " + op + " "
    requires forall q :: q in Parts([p] + rest) ==> |q| < n
    requires Strip(p) != "" ==> Fades(CanonOperand(Strip(p), parent), p)
    ensures Fades(Rejoin(CanonAll(Parts([p] + rest), parent, n), sep), Rejoin([p] + rest, op))
    decreases n, 0, 2 * |rest| + 1
  {
    var ps := [p] + rest;
    var x := Strip(p);
    assert ps[0] == p && ps[1..] == rest;
    var out := CanonAll(Parts(ps), parent, n);
    StripCounts(p);
    if rest == [] {
      assert Parts(ps) == if x == "" then [] else [x];
      if x != "" {
        assert [x][1..] == [];
      }
    } else {
      forall q | q in Parts(rest)
        ensures |q| < n
      {
        assert q in Parts(ps);
      }
      AllFades(rest, op, sep, parent, n);
      var tail := CanonAll(Parts(rest), parent, n);
      RejoinCons(p, rest, op);
      if x == "" {
        assert Parts(ps) == Parts(rest);
        DropFades(p, op, Rejoin(tail, sep), Rejoin(rest, op));
      } else {
        assert Parts(ps)[0] == x && Parts(ps)[1..] == Parts(rest);
        var o := CanonOperand(x, parent);
        assert out == [o] + tail;
        if tail == [] {
          assert Rejoin(out, sep) == o;
          LastFades(o, p, op, Rejoin(rest, op));
        } else {
          RejoinCons(o, tail, sep);
          JoinFades(o, p, op, sep, Rejoin(tail, sep), Rejoin(rest, op));
        }
      }
    }
  }

  lemma {:induction false} LastFades(o: string, p: string, op: string, s2: string)
    requires Fades(o, p) && Fades("", s2) && IsWord(op)
    ensures Fades(o, p + op + s2)
  {
    WordCounts(op);
    JoinCounts(p, op, s2);
    assert Net("") == 0;
  }

  // ------------------------------------------------------------- the canonicaliser

  /** For every text. */
  lemma {:induction false} CanonFades(s: string)
    ensures Fades(CanonBool(s), s)
    decreases |s|, 2, 0
  {
    var u := Unwrap(Strip(s));
    BareFades(u);
    UnwrapFades(Strip(s));
    FadesThen(CanonBare(u), u, Strip(s));
    FadesStrip(CanonBare(u), s);
  }

  lemma {:induction false} OperandFades(s: string, parent: int)
    ensures Fades(CanonOperand(s, parent), s)
    decreases |s|, 3, 0
  {
    var t := Strip(s);
    if Wrapped(t) {
      var y := t[1..|t| - 1];
      assert t == "(" + y + ")";
      CanonFades(Strip(y));
      FadesStrip(CanonBool(Strip(y)), y);
      FadesGroup(CanonBool(Strip(y)), y);
    } else {
      CanonFades(t);
    }
    FadesStrip(CanonOperand(s, parent), s);
  }

  lemma {:induction false} BareFades(s: string)
    ensures Fades(CanonBare(s), s)
    decreases |s|, 1, 0
  {
    PartsLength(s, "or");
    PartsLength(s, "and");
    WordsAre();
    if |Split(s, "or")| > 1 {
      PiecesRejoin(s, "or");
      AllFades(Pieces(s, "or"), "or", " or ", OR_PREC, |s|);
    } else if |Split(s, "and")| > 1 {
      PiecesRejoin(s, "and");
      AllFades(Pieces(s, "and"), "and", " and ", AND_PREC, |s|);
    } else if StartsWith(s, "not ") {
      CanonFades(s[4..]);
      SpacedFades(CanonBool(s[4..]), s[4..]);
      assert s == "not " + s[4..];
    } else if StartsWith(s, "not(") {
      TightBareFades(s);
    }
  }

  lemma {:induction false} WordsAre()
    ensures IsWord("or") && IsWord("and") && " or " == " " + "or" + " " && " and " == " " + "and" + " "
  {
  }

  lemma {:induction false} TightBareFades(s: string)
    requires StartsWith(s, "not(") && |Split(s, "or")| <= 1 && |Split(s, "and")| <= 1
    ensures Fades(CanonBare(s), s)
    decreases |s|, 0, 0
  {
    var close := CloseFrom(s, 3, 0);
    assert close == CloseFrom(s, 4, 1);
    var k := if close != -1 then close else |s|;
    assert s[4..] == s[4..|s|];
    CanonFades(s[4..k]);
    TightFades(CanonBool(s[4..k]), s[4..k], s[k..]);
    TightCut(s, k);
    assert CanonBare(s) == Negate(CanonBool(s[4..k]));
  }

  lemma {:induction false} TightCut(s: string, k: nat)
    requires StartsWith(s, "not(") && 4 <= k <= |s|
    ensures s == "not(" + s[4..k] + s[k..]
  {
    assert s[..4] == "not(";
  }
}
