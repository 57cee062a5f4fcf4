/** _split_top_level: cutting a predicate at the boolean words of depth zero. */
module Splitter {
  import opened Lex

  /** Python's s.startswith(op, i). */
  predicate StartsAt(s: string, op: string, i: nat) {
    i + |op| <= |s| && forall k :: 0 <= k < |op| ==> s[i + k] == op[k]
  }

  /** op stands at position i on identifier boundaries. */
  predicate WordAt(s: string, op: string, i: nat) {
    && StartsAt(s, op, i)
    && (i == 0 || !IsIdent(s[i - 1]))
    && (i + |op| == |s| || !IsIdent(s[i + |op|]))
  }

  /** op stands at position i at depth zero, outside literals, on boundaries. */
  predicate IsCut(s: string, op: string, i: nat) {
    i <= |s| && At(s, i) == START && WordAt(s, op, i)
  }

  ghost predicate NoCut(s: string, op: string) {
    forall i: nat :: i <= |s| ==> !IsCut(s, op, i)
  }

  /** An operator word: "and" or "or". */
  predicate IsWord(op: string) {
    op != "" && AllIdent(op)
  }

  // ------------------------------------------------- the splitting function

  /** Cut positions in order. */
  datatype CutList = Done | CutAt(pos: nat, rest: CutList)

  predicate Has(cuts: CutList, k: nat) {
    match cuts
    case Done => false
    case CutAt(n, rest) => n == k || Has(rest, k)
  }

  /** Each cut lies at least a word of length w after the last. */
  predicate Spaced(cuts: CutList, w: nat, start: nat, n: nat) {
    match cuts
    case Done => start <= n
    case CutAt(k, rest) => start <= k && Spaced(rest, w, k + w, n)
  }

  /** The cuts of s at or after i. */
  function Cuts(s: string, op: string, i: nat): (r: CutList)
    requires i <= |s| && op != ""
    ensures Spaced(r, |op|, i, |s|)
    decreases |s| - i
  {
    if i == |s| then Done
    else if IsCut(s, op, i) then CutAt(i, Cuts(s, op, i + |op|))
    else
      var r := Cuts(s, op, i + 1);
      assert Spaced(r, |op|, i, |s|);
      r
  }

  /** The texts between consecutive cuts, from start on. */
  function Between(s: string, cuts: CutList, w: nat, start: nat): (r: seq<string>)
    requires Spaced(cuts, w, start, |s|)
    ensures r != []
    decreases cuts
  {
    SpacedBounds(cuts, w, start, |s|);
    match cuts
    case Done => [s[start..]]
    case CutAt(n, rest) => [s[start..n]] + Between(s, rest, w, n + w)
  }

  lemma {:induction false} SpacedBounds(cuts: CutList, w: nat, start: nat, n: nat)
    requires Spaced(cuts, w, start, n)
    ensures start <= n && (cuts.CutAt? ==> cuts.pos + w <= n)
  {
    if cuts.CutAt? {
      SpacedBounds(cuts.rest, w, cuts.pos + w, n);
    }
  }

  function Pieces(s: string, op: string): (r: seq<string>)
    requires op != ""
    ensures r != []
  {
    Between(s, Cuts(s, op, 0), |op|, 0)
  }

  /** The pieces stripped, the empty ones dropped. */
  function Parts(ps: seq<string>): seq<string> {
    if ps == [] then []
    else (if Strip(ps[0]) == "" then [] else [Strip(ps[0])]) + Parts(ps[1..])
  }

  function Split(s: string, op: string): seq<string>
    requires op != ""
  {
    Parts(Pieces(s, op))
  }

  // ------------------------------------------------------ the scanning loop

  /** The parts so far and those still to come. */
  ghost function Total(s: string, parts: seq<string>, cuts: CutList, w: nat, start: nat): seq<string>
    requires Spaced(cuts, w, start, |s|)
  {
    parts + Parts(Between(s, cuts, w, start))
  }

  /** Where the scan stands: at i, with the parts before start collected. */
  ghost predicate Scanned(s: string, op: string, i: nat, depth: int, inStr: bool, start: nat, parts: seq<string>)
    requires op != "" && i <= |s|
  {
    var cuts := Cuts(s, op, i);
    && start <= i && At(s, i) == State(depth, inStr)
    && Spaced(cuts, |op|, start, |s|) && Split(s, op) == Total(s, parts, cuts, |op|, start)
  }

  /** _split_top_level with its own depth counter and literal flag. */
  method SplitTopLevel(s: string, op: string) returns (parts: seq<string>)
    requires IsWord(op)
    ensures parts == Split(s, op)
  {
    parts := [];
    var depth, inStr, start, i := 0, false, 0, 0;
    while i < |s|
      invariant 0 <= start <= i <= |s|
      invariant Scanned(s, op, i, depth, inStr, start, parts)
    {
      ScanOn(s, op, i, depth, inStr, start, parts);
      var c := s[i];
      if inStr {
        inStr := c != '\'';
        i := i + 1;
      } else if c == '\'' {
        inStr := true;
        i := i + 1;
      } else if c == '(' {
        depth := depth + 1;
        i := i + 1;
      } else if c == ')' {
        depth := depth - 1;
        i := i + 1;
      } else if depth == 0 && WordAt(s, op, i) {
        var part := Strip(s[start..i]);
        if part != "" {
          parts := parts + [part];
        }
        i := i + |op|;
        start := i;
      } else {
        i := i + 1;
      }
    }
    var tail := Strip(s[start..]);
    PartsEnd(s[start..]);
    if tail != "" {
      parts := parts + [tail];
    }
  }

  /** The scan goes on by one character, or over the operator. */
  lemma {:induction false} ScanOn(s: string, op: string, i: nat, depth: int, inStr: bool, start: nat, parts: seq<string>)
    requires IsWord(op) && i < |s| && Scanned(s, op, i, depth, inStr, start, parts)
    ensures IsCut(s, op, i) <==> !inStr && depth == 0 && WordAt(s, op, i)
    ensures IsCut(s, op, i) ==>
              && s[i] != '\'' && s[i] != '(' && s[i] != ')' && i + |op| <= |s|
              && var part := Strip(s[start..i]);
                 Scanned(s, op, i + |op|, 0, false, i + |op|, if part == "" then parts else parts + [part])
    ensures !IsCut(s, op, i) ==> var st := Step(State(depth, inStr), s[i]);
              Scanned(s, op, i + 1, st.depth, st.inStr, start, parts)
  {
    ScanStep(s, op, i, depth, inStr);
    if IsCut(s, op, i) {
      ScanOver(s, op, i, start, parts, Cuts(s, op, i + |op|), i + |op|);
    }
  }

  lemma {:induction false} ScanOver(s: string, op: string, i: nat, start: nat, parts: seq<string>, rest: CutList, after: nat)
    requires IsWord(op) && after == i + |op| <= |s| && rest == Cuts(s, op, after)
    requires start <= i && At(s, after) == START && Cuts(s, op, i) == CutAt(i, rest)
    requires Spaced(Cuts(s, op, i), |op|, start, |s|) && Split(s, op) == Total(s, parts, Cuts(s, op, i), |op|, start)
    ensures var part := Strip(s[start..i]);
            Scanned(s, op, after, 0, false, after, if part == "" then parts else parts + [part])
  {
    PartsStep(s, i, rest, |op|, start, parts, Strip(s[start..i]));
  }

  /** One step of the scan, for a scanner holding the given depth and flag. */
  lemma {:induction false} ScanStep(s: string, op: string, i: nat, depth: int, inStr: bool)
    requires IsWord(op) && i < |s| && At(s, i) == State(depth, inStr)
    ensures inStr ==> At(s, i + 1) == State(depth, s[i] != '\'')
    ensures !inStr ==> At(s, i + 1).inStr == (s[i] == '\'')
    ensures !inStr ==>
              At(s, i + 1).depth ==
              depth + if s[i] == '(' then 1 else if s[i] == ')' then -1 else 0
    ensures IsCut(s, op, i) <==> !inStr && depth == 0 && WordAt(s, op, i)
    ensures IsCut(s, op, i) ==> IsIdent(s[i]) && At(s, i + |op|) == State(0, false)
    ensures Cuts(s, op, i) ==
            if IsCut(s, op, i) then CutAt(i, Cuts(s, op, i + |op|)) else Cuts(s, op, i + 1)
  {
    WordChars(s, op, i);
    if IsCut(s, op, i) {
      WordKeepsState(s, op, i);
    }
  }

  lemma {:induction false} PartsStep(s: string, n: nat, rest: CutList, w: nat, start: nat, parts: seq<string>, part: string)
    requires Spaced(CutAt(n, rest), w, start, |s|)
    ensures start <= n && n + w <= |s|
    ensures part == Strip(s[start..n]) ==>
              Total(s, parts, CutAt(n, rest), w, start) ==
              Total(s, if part == "" then parts else parts + [part], rest, w, n + w)
  {
    SpacedBounds(CutAt(n, rest), w, start, |s|);
    PartsCons(s[start..n], Between(s, rest, w, n + w), parts);
  }

  lemma {:induction false} PartsCons(p: string, ps: seq<string>, parts: seq<string>)
    ensures parts + Parts([p] + ps) == (if Strip(p) == "" then parts else parts + [Strip(p)]) + Parts(ps)
  {
    assert ([p] + ps)[1..] == ps;
  }

  lemma {:induction false} PartsEnd(p: string)
    ensures Parts([p]) == if Strip(p) == "" then [] else [Strip(p)]
  {
    assert [p][1..] == [];
  }

  lemma {:induction false} WordChars(s: string, op: string, i: nat)
    requires IsWord(op)
    ensures StartsAt(s, op, i) ==> i < |s| && IsIdent(s[i])
    ensures StartsAt(s, op, i) ==>
              forall j :: i <= j < i + |op| ==> s[j] == op[j - i] && IsIdent(s[j])
  {
    if StartsAt(s, op, i) {
      forall j | i <= j < i + |op|
        ensures s[j] == op[j - i] && IsIdent(s[j])
      {
        assert s[i + (j - i)] == op[j - i];
      }
      assert s[i + 0] == op[0];
    }
  }

  /** Identifier characters change neither depth nor literal flag. */
  lemma {:induction false} IdentsKeepState(s: string, i: nat, k: nat)
    requires i + k <= |s|
    requires forall j :: i <= j < i + k ==> IsIdent(s[j])
    ensures At(s, i + k) == At(s, i)
  {
    if k > 0 {
      IdentsKeepState(s, i, k - 1);
      assert At(s, i + k) == Step(At(s, i + k - 1), s[i + k - 1]);
      assert IsIdent(s[i + k - 1]);
    }
  }

  lemma {:induction false} WordKeepsState(s: string, op: string, i: nat)
    requires IsWord(op) && IsCut(s, op, i)
    ensures At(s, i + |op|) == START
  {
    WordChars(s, op, i);
    IdentsKeepState(s, i, |op|);
  }

  // ---------------------------------------- what splitting does to any text

  /** Every cut is listed and nothing else is. */
  lemma {:induction false} CutsExact(s: string, op: string, i: nat)
    requires IsWord(op) && i <= |s|
    requires i == 0 || i == |s| || !IsIdent(s[i - 1]) || !IsIdent(s[i])
    ensures forall k: nat :: Has(Cuts(s, op, i), k) <==> i <= k <= |s| && IsCut(s, op, k)
    decreases |s| - i
  {
    CutsListed(s, op, i);
    CutsAreCuts(s, op, i);
  }

  lemma {:induction false} CutsAreCuts(s: string, op: string, i: nat)
    requires i <= |s| && op != ""
    ensures forall k: nat :: Has(Cuts(s, op, i), k) ==> i <= k <= |s| && IsCut(s, op, k)
    decreases |s| - i
  {
    if i < |s| {
      if IsCut(s, op, i) {
        CutsAreCuts(s, op, i + |op|);
      } else {
        CutsAreCuts(s, op, i + 1);
      }
    }
  }

  lemma {:induction false} CutsListed(s: string, op: string, i: nat)
    requires IsWord(op) && i <= |s|
    ensures forall k: nat :: i <= k <= |s| && IsCut(s, op, k) ==> Has(Cuts(s, op, i), k)
    decreases |s| - i
  {
    if i < |s| {
      if IsCut(s, op, i) {
        CutsListed(s, op, i + |op|);
        WordChars(s, op, i);
      } else {
        CutsListed(s, op, i + 1);
      }
    }
  }

  function Rejoin(ps: seq<string>, sep: string): string {
    if ps == [] then ""
    else if |ps| == 1 then ps[0]
    else ps[0] + sep + Rejoin(ps[1..], sep)
  }

  lemma {:induction false} RejoinCons(p: string, rest: seq<string>, sep: string)
    requires rest != []
    ensures Rejoin([p] + rest, sep) == p + sep + Rejoin(rest, sep)
  {
    assert ([p] + rest)[1..] == rest;
  }

  /** The unstripped pieces with the operator between them spell the input. */
  lemma {:induction false} PiecesRejoin(s: string, op: string)
    requires op != ""
    ensures Rejoin(Pieces(s, op), op) == s
  {
    CutsAreCuts(s, op, 0);
    BetweenRejoin(s, op, Cuts(s, op, 0), 0);
    assert s[0..] == s;
  }

  lemma {:induction false} BetweenRejoin(s: string, op: string, cuts: CutList, start: nat)
    requires start <= |s| && Spaced(cuts, |op|, start, |s|)
    requires forall k: nat :: Has(cuts, k) ==> StartsAt(s, op, k)
    ensures Rejoin(Between(s, cuts, |op|, start), op) == s[start..]
    decreases cuts
  {
    SpacedBounds(cuts, |op|, start, |s|);
    if cuts.CutAt? {
      var n := cuts.pos;
      assert Has(cuts, n);
      BetweenRejoin(s, op, cuts.rest, n + |op|);
      PieceBefore(s, op, start, n, Between(s, cuts.rest, |op|, n + |op|));
    }
  }

  lemma {:induction false} PieceBefore(s: string, op: string, start: nat, n: nat, rest: seq<string>)
    requires start <= n && StartsAt(s, op, n) && rest != [] && Rejoin(rest, op) == s[n + |op|..]
    ensures Rejoin([s[start..n]] + rest, op) == s[start..]
  {
    RejoinCons(s[start..n], rest, op);
    CutSpelled(s, op, start, n);
  }

  lemma {:induction false} CutSpelled(s: string, op: string, start: nat, n: nat)
    requires start <= n && StartsAt(s, op, n)
    ensures s[start..] == s[start..n] + op + s[n + |op|..]
  {
    assert s[n..n + |op|] == op;
  }

  /** The same for the two boolean words, boundaries spelled out. */
  lemma {:induction false} CutsSpelled(s: string, op: string, k: nat)
    requires op == "and" || op == "or"
    ensures Has(Cuts(s, op, 0), k) <==>
            && k + |op| <= |s| && s[k..k + |op|] == op && At(s, k) == START
            && (k == 0 || !NameChar(s[k - 1])) && (k + |op| == |s| || !NameChar(s[k + |op|]))
  {
    CutsExact(s, op, 0);
    if k + |op| <= |s| {
      if k > 0 {
        IdentIs(s[k - 1]);
      }
      if k + |op| < |s| {
        IdentIs(s[k + |op|]);
      }
      assert s[k..k + |op|] == op <==> StartsAt(s, op, k);
    }
  }

  /** A name is not cut, though a boolean word may begin or end it. */
  lemma {:induction false} NameUncut(x: string, op: string)
    requires (op == "and" || op == "or") && x != "" && x != op && forall k :: 0 <= k < |x| ==> NameChar(x[k])
    ensures Split(x, op) == [x]
  {
    NameIsIdent(x);
    IdentTrimmed(x);
    IdentUncut(x, op);
  }

  lemma {:induction false} NameIsIdent(x: string)
    requires forall k :: 0 <= k < |x| ==> NameChar(x[k])
    ensures AllIdent(x)
  {
    forall k | 0 <= k < |x|
      ensures IsIdent(x[k])
    {
      IdentIs(x[k]);
    }
  }

  lemma {:induction false} IdentTrimmed(x: string)
    requires AllIdent(x)
    ensures Strip(x) == x
  {
    StripTrimmed(x);
  }

  lemma {:induction false} IdentUncut(x: string, op: string)
    requires AllIdent(x) && Strip(x) == x && op != "" && x != "" && x != op
    ensures Split(x, op) == [x]
  {
    CutsAreCuts(x, op, 0);
    if Cuts(x, op, 0).CutAt? {
      var k := Cuts(x, op, 0).pos;
      assert Has(Cuts(x, op, 0), k);
      CutOfName(x, op, k);
    }
    UncutPart(x, op);
  }

  lemma {:induction false} CutOfName(x: string, op: string, k: nat)
    requires AllIdent(x) && IsCut(x, op, k)
    ensures x == op
  {
  }

  lemma {:induction false} UncutPart(x: string, op: string)
    requires op != "" && x != "" && Strip(x) == x && Cuts(x, op, 0) == Done
    ensures Split(x, op) == [x]
  {
    assert x[0..] == x;
    assert Pieces(x, op) == [x];
    assert Parts([x]) == [x] + Parts([]);
  }

  /** No part of a split contains the operator at its own top level. */
  lemma {:induction false} PartsHaveNoCut(s: string, op: string)
    requires IsWord(op)
    ensures forall p :: p in Split(s, op) ==> NoCut(p, op) && p != "" && Trimmed(p)
  {
    PiecesHaveNoCut(s, op, 0, 0);
    StrippedPieces(Pieces(s, op), op);
  }

  lemma {:induction false} StrippedPieces(ps: seq<string>, op: string)
    requires IsWord(op) && forall p :: p in ps ==> NoCut(p, op)
    ensures forall p :: p in Parts(ps) ==> NoCut(p, op) && p != "" && Trimmed(p)
  {
    if ps != [] {
      StrippedPieces(ps[1..], op);
      assert ps[0] in ps;
      StripNoCut(ps[0], op);
      var w1, w2 := StripParts(ps[0]);
    }
  }

  lemma {:induction false} StripNoCut(p: string, op: string)
    requires IsWord(op) && NoCut(p, op)
    ensures NoCut(Strip(p), op)
  {
    var w1, w2 := StripParts(p);
    var x := Strip(p);
    forall i: nat | i <= |x|
      ensures !IsCut(x, op, i)
    {
      BlankMargins(w1, x, w2, op, i);
    }
  }

  /** Blank margins shift the cuts and add none. */
  lemma {:induction false} BlankMargins(w1: string, x: string, w2: string, op: string, i: nat)
    requires IsWord(op) && Blank(w1) && Blank(w2) && i <= |x|
    ensures IsCut(x, op, i) ==> IsCut(w1 + x + w2, op, |w1| + i)
  {
    FlatBalanced(w1);
    assert w1 + x + w2 == w1 + (x + w2);
    if IsCut(x, op, i) {
      LeftCut(x, w2, op, i);
      CutsConcat(w1, x + w2, op, |w1| + i);
    }
  }

  lemma {:induction false} PiecesHaveNoCut(s: string, op: string, start: nat, i: nat)
    requires IsWord(op) && start <= i <= |s|
    requires At(s, start) == START
    requires start == 0 || start == |s| || !IsIdent(s[start])
    requires forall k: nat :: start <= k < i ==> !IsCut(s, op, k)
    ensures Spaced(Cuts(s, op, i), |op|, start, |s|)
    ensures forall p :: p in Between(s, Cuts(s, op, i), |op|, start) ==> NoCut(p, op)
    decreases |s| - i
  {
    if i == |s| {
      NoCutBetween(s, op, start, i);
      assert s[start..] == s[start..i];
    } else if IsCut(s, op, i) {
      NoCutBetween(s, op, start, i);
      WordKeepsState(s, op, i);
      PiecesHaveNoCut(s, op, i + |op|, i + |op|);
    } else {
      PiecesHaveNoCut(s, op, start, i + 1);
    }
  }

  /** Between two cuts the text taken alone has none. */
  lemma {:induction false} NoCutBetween(s: string, op: string, start: nat, i: nat)
    requires IsWord(op) && start <= i <= |s|
    requires At(s, start) == START
    requires start == 0 || start == |s| || !IsIdent(s[start])
    requires forall k: nat :: start <= k < i ==> !IsCut(s, op, k)
    requires i == |s| || i == 0 || !IsIdent(s[i - 1])
    ensures NoCut(s[start..i], op)
  {
    var p := s[start..i];
    forall k: nat | k <= |p|
      ensures !IsCut(p, op, k)
    {
      SliceState(s, start, i, k);
      WordChars(p, op, k);
      assert StartsAt(p, op, k) ==> StartsAt(s, op, start + k);
      assert IsCut(p, op, k) ==> IsCut(s, op, start + k);
    }
  }

  lemma {:induction false} SliceState(s: string, start: nat, i: nat, k: nat)
    requires start <= i <= |s| && At(s, start) == START && k <= i - start
    ensures At(s, start + k) == At(s[start..i], k)
  {
    if k > 0 {
      SliceState(s, start, i, k - 1);
      assert s[start..i][k - 1] == s[start + k - 1];
      assert At(s, start + k) == Step(At(s, start + k - 1), s[start + k - 1]);
    }
  }

  // ------------------------------------------------ cuts of a concatenation

  /** Two texts meet where no identifier can span the join. */
  predicate Apart(a: string, b: string) {
    a == "" || b == "" || !IsIdent(a[|a| - 1]) || !IsIdent(b[0])
  }

  lemma {:induction false} LeftCut(a: string, b: string, op: string, i: nat)
    requires IsWord(op) && IsCut(a, op, i) && Apart(a, b)
    ensures IsCut(a + b, op, i)
  {
    FromConcat(START, a, b, i);
    WordChars(a, op, i);
  }

  /** The cuts of a + b are those of a and those of b, shifted. */
  lemma {:induction false} CutsConcat(a: string, b: string, op: string, i: nat)
    requires IsWord(op) && At(a, |a|) == START && Apart(a, b) && i <= |a| + |b|
    ensures IsCut(a + b, op, i) <==>
            if i < |a| then IsCut(a, op, i) else IsCut(b, op, i - |a|)
  {
    FromConcat(START, a, b, i);
    if i < |a| {
      CutsLeft(a, b, op, i);
    } else {
      CutsRight(a, b, op, i, i - |a|);
    }
  }

  lemma {:induction false} CutsRight(a: string, b: string, op: string, i: nat, k: nat)
    requires IsWord(op) && Apart(a, b) && k <= |b| && i == |a| + k && At(a + b, i) == At(b, k)
    ensures IsCut(a + b, op, i) <==> IsCut(b, op, k)
  {
    StartsRight(a, b, op, i, k);
    WordHead(b, op, k);
    var s := a + b;
    assert i > 0 ==> s[i - 1] == if k > 0 then b[k - 1] else a[|a| - 1];
    assert k + |op| < |b| ==> s[i + |op|] == b[k + |op|];
  }

  lemma {:induction false} StartsRight(a: string, b: string, op: string, i: nat, k: nat)
    requires k <= |b| && i == |a| + k
    ensures StartsAt(a + b, op, i) <==> StartsAt(b, op, k)
  {
    assert forall j :: |a| <= j < |a + b| ==> (a + b)[j] == b[j - |a|];
  }

  lemma {:induction false} WordHead(s: string, op: string, i: nat)
    requires IsWord(op)
    ensures StartsAt(s, op, i) ==> i < |s| && IsIdent(s[i])
  {
    assert StartsAt(s, op, i) ==> s[i + 0] == op[0];
  }

  lemma {:induction false} CutsLeft(a: string, b: string, op: string, i: nat)
    requires IsWord(op) && At(a, |a|) == START && Apart(a, b) && i < |a| && At(a + b, i) == At(a, i)
    ensures IsCut(a + b, op, i) <==> IsCut(a, op, i)
  {
    var s := a + b;
    WordChars(s, op, i);
    WordChars(a, op, i);
    if IsCut(a, op, i) {
      LeftCut(a, b, op, i);
    }
    assert s[|a| - 1] == a[|a| - 1] && (b != "" ==> s[|a|] == b[0]);
    assert forall j :: 0 <= j < |a| ==> s[j] == a[j];
  }

  function Shift(cuts: CutList, d: nat): CutList {
    match cuts
    case Done => Done
    case CutAt(n, rest) => CutAt(n + d, Shift(rest, d))
  }

  /** The cuts of cs, then one at n, then those of ds. */
  function Join(cs: CutList, n: nat, ds: CutList): CutList {
    match cs
    case Done => CutAt(n, ds)
    case CutAt(k, rest) => CutAt(k, Join(rest, n, ds))
  }

  /** The cuts of a + op + b: those of a, the op itself, those of b. */
  lemma {:induction false} CutsOfJoin(a: string, op: string, b: string, s: string, i: nat)
    requires IsWord(op) && i <= |a| && At(a, |a|) == START
    requires Apart(a, op) && Apart(op, b) && s == a + (op + b)
    ensures Cuts(s, op, i) == Join(Cuts(a, op, i), |a|, Shift(Cuts(b, op, 0), |a| + |op|))
    decreases |a| - i
  {
    WordAtFront(op, b);
    CutsConcat(a, op + b, op, i);
    if i == |a| {
      JoinShift(a, op, b, s);
    } else if IsCut(a, op, i) {
      CutsOfJoin(a, op, b, s, i + |op|);
    } else {
      CutsOfJoin(a, op, b, s, i + 1);
    }
  }

  lemma {:induction false} JoinShift(a: string, op: string, b: string, s: string)
    requires IsWord(op) && At(a, |a|) == START && Apart(op, b) && s == a + (op + b)
    ensures Cuts(s, op, |a| + |op|) == Shift(Cuts(b, op, 0), |a| + |op|)
  {
    FlatBalanced(op);
    FromConcat(START, a, op, |a| + |op|);
    assert s == (a + op) + b;
    CutsShift(a + op, b, op, 0, |a| + |op|);
  }

  lemma {:induction false} WordAtFront(op: string, b: string)
    requires IsWord(op) && Apart(op, b)
    ensures IsCut(op + b, op, 0)
  {
  }

  lemma {:induction false} CutsShift(a: string, b: string, op: string, i: nat, j: nat)
    requires IsWord(op) && i <= |b| && j == |a| + i && At(a, |a|) == START && Apart(a, b)
    ensures Cuts(a + b, op, j) == Shift(Cuts(b, op, i), |a|)
    decreases |b| - i
  {
    CutsConcat(a, b, op, j);
    if i < |b| {
      if IsCut(b, op, i) {
        CutsShift(a, b, op, i + |op|, j + |op|);
      } else {
        CutsShift(a, b, op, i + 1, j + 1);
      }
    }
  }

  lemma {:induction false} BetweenShift(a: string, b: string, cuts: CutList, w: nat, start: nat, start': nat)
    requires Spaced(cuts, w, start, |b|) && start' == |a| + start
    ensures Spaced(Shift(cuts, |a|), w, start', |a + b|)
    ensures Between(a + b, Shift(cuts, |a|), w, start') == Between(b, cuts, w, start)
    decreases cuts
  {
    SpacedBounds(cuts, w, start, |b|);
    if cuts == Done {
      assert (a + b)[start'..] == b[start..];
    } else {
      var n := cuts.pos;
      BetweenShift(a, b, cuts.rest, w, n + w, n + |a| + w);
      assert (a + b)[start'..n + |a|] == b[start..n];
    }
  }

  /** Cuts cs before |a|, the one at |a|, then bs. */
  lemma {:induction false} BetweenConcat(s: string, a: string, tail: string, w: nat,
                                         cs: CutList, bs: CutList, start: nat)
    requires s == a + tail
    requires Spaced(cs, w, start, |a|) && Spaced(bs, w, |a| + w, |s|)
    ensures Spaced(Join(cs, |a|, bs), w, start, |s|)
    ensures Between(s, Join(cs, |a|, bs), w, start) == Between(a, cs, w, start) + Between(s, bs, w, |a| + w)
    decreases cs
  {
    SpacedBounds(cs, w, start, |a|);
    if cs == Done {
      SliceLeft(a, tail, start, |a|);
    } else {
      var n := cs.pos;
      BetweenConcat(s, a, tail, w, cs.rest, bs, n + w);
      SliceLeft(a, tail, start, n);
      Regroup(s[start..n], Between(a, cs.rest, w, n + w), Between(s, bs, w, |a| + w));
    }
  }

  lemma {:induction false} Regroup(p: string, ps: seq<string>, qs: seq<string>)
    ensures [p] + (ps + qs) == ([p] + ps) + qs
  {
  }

  lemma {:induction false} SliceLeft(a: string, b: string, i: nat, j: nat)
    requires i <= j <= |a|
    ensures (a + b)[i..j] == a[i..j] && a[i..|a|] == a[i..]
  {
  }

  lemma {:induction false} PartsConcat(ps: seq<string>, qs: seq<string>)
    ensures Parts(ps + qs) == Parts(ps) + Parts(qs)
  {
    if ps == [] {
      assert ps + qs == qs;
    } else {
      assert (ps + qs)[1..] == ps[1..] + qs;
      PartsConcat(ps[1..], qs);
    }
  }

  lemma {:induction false} BetweenJoin(s: string, a: string, op: string, b: string, cs: CutList, ds: CutList)
    requires s == a + (op + b) && Spaced(cs, |op|, 0, |a|) && Spaced(ds, |op|, 0, |b|)
    ensures var all := Join(cs, |a|, Shift(ds, |a| + |op|));
            && Spaced(all, |op|, 0, |s|)
            && Between(s, all, |op|, 0) == Between(a, cs, |op|, 0) + Between(b, ds, |op|, 0)
  {
    assert s == (a + op) + b;
    BetweenShift(a + op, b, ds, |op|, 0, |a| + |op|);
    BetweenConcat(s, a, op + b, |op|, cs, Shift(ds, |a| + |op|), 0);
  }

  /** Splitting a + op + b at op splits a and b. */
  lemma {:induction false} SplitConcat(a: string, op: string, b: string)
    requires IsWord(op) && At(a, |a|) == START && Apart(a, op) && Apart(op, b)
    ensures Split(a + op + b, op) == Split(a, op) + Split(b, op)
  {
    assert a + op + b == a + (op + b);
    CutsOfJoin(a, op, b, a + (op + b), 0);
    BetweenJoin(a + (op + b), a, op, b, Cuts(a, op, 0), Cuts(b, op, 0));
    PartsConcat(Pieces(a, op), Pieces(b, op));
  }

  /** A text without cuts is one part. */
  lemma {:induction false} SplitWhole(s: string, op: string)
    requires IsWord(op) && NoCut(s, op)
    ensures Split(s, op) == if Strip(s) == "" then [] else [Strip(s)]
  {
    CutsAreCuts(s, op, 0);
    var cuts := Cuts(s, op, 0);
    if cuts.CutAt? {
      assert Has(cuts, cuts.pos);
    }
    assert s[0..] == s;
    PartsEnd(s);
  }

  /** SplitConcat with blank margins kept on the side they belong to. */
  lemma {:induction false} SplitJoined(m1: string, a: string, w1: string, op: string, w2: string, b: string, m2: string)
    requires IsWord(op) && Balanced(a) && a != "" && b != "" && Blank(m1) && Blank(w1)
    requires Apart(a + w1, op) && Apart(op, w2 + b)
    ensures Split(m1 + ((a + w1) + op + (w2 + b)) + m2, op) ==
            Split(m1 + a + w1, op) + Split(w2 + b + m2, op)
  {
    var x, y := m1 + a + w1, w2 + b + m2;
    assert m1 + ((a + w1) + op + (w2 + b)) + m2 == x + op + y;
    assert x == m1 + (a + w1) && y == (w2 + b) + m2;
    assert x[|x| - 1] == (a + w1)[|a + w1| - 1] && y[0] == (w2 + b)[0];
    FlatBalanced(m1);
    FlatBalanced(w1);
    BalancedConcat(m1, a);
    BalancedConcat(m1 + a, w1);
    SplitConcat(x, op, y);
  }

  lemma {:induction false} NoCutConcat(a: string, b: string, op: string)
    requires IsWord(op) && At(a, |a|) == START && Apart(a, b) && NoCut(a, op) && NoCut(b, op)
    ensures NoCut(a + b, op)
  {
    forall i: nat | i <= |a + b|
      ensures !IsCut(a + b, op, i)
    {
      CutsConcat(a, b, op, i);
    }
  }

  /** Parts are no longer than the text, and shorter when there are several. */
  lemma {:induction false} PartsLength(s: string, op: string)
    requires op != ""
    ensures forall p :: p in Split(s, op) ==> |p| <= |s|
    ensures |Split(s, op)| > 1 ==> forall p :: p in Split(s, op) ==> |p| < |s|
  {
    var cuts := Cuts(s, op, 0);
    BetweenLength(s, cuts, |op|, 0);
    var ps := Pieces(s, op);
    PartsBound(ps, |s|);
    if cuts.CutAt? {
      PartsBound(ps, |s| - 1);
    } else {
      PartsEnd(ps[0]);
      assert ps == [ps[0]];
    }
  }

  lemma {:induction false} BetweenLength(s: string, cuts: CutList, w: nat, start: nat)
    requires Spaced(cuts, w, start, |s|) && w > 0
    ensures forall p :: p in Between(s, cuts, w, start) ==> |p| <= |s| - start
    ensures cuts.CutAt? ==> forall p :: p in Between(s, cuts, w, start) ==> |p| < |s| - start
    decreases cuts
  {
    SpacedBounds(cuts, w, start, |s|);
    if cuts.CutAt? {
      BetweenLength(s, cuts.rest, w, cuts.pos + w);
    }
  }

  lemma {:induction false} PartsBound(ps: seq<string>, n: int)
    requires forall p :: p in ps ==> |p| <= n
    ensures forall p :: p in Parts(ps) ==> |p| <= n
  {
    if ps != [] {
      assert ps[0] in ps;
      PartsBound(ps[1..], n);
    }
  }
}
