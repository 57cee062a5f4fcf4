/**
 Expressions with binary operators: their spellings, with any grouping, and
 PostgreSQL's precedence (documentation section 4.1.6), beside the precedence
 table of _ARITH_OP_PREC, which knows only some of the operators.
 */
module ArithGrammar {
  import opened Lex
  import opened Splitter
  import opened ArithCanon

  datatype Op =
    | Comma | OfFrom | Or | And | Is | IsNot | Like | In
    | Eq | Angles | Bang | Lt | Gt | Le | Ge
    | Concat | Tilde | Plus | Minus | Times | Div | Mod | Pow

  function OpText(op: Op): string {
    match op
    case Comma => ","
    case OfFrom => "from"
    case Or => "or"
    case And => "and"
    case Is => "is"
    case IsNot => "is not"
    case Like => "like"
    case In => "in"
    case Eq => "="
    case Angles => "<>"
    case Bang => "!="
    case Lt => "<"
    case Gt => ">"
    case Le => "<="
    case Ge => ">="
    case Concat => "||"
    case Tilde => "~"
    case Plus => "+"
    case Minus => "-"
    case Times => "*"
    case Div => "/"
    case Mod => "%"
    case Pow => "^"
  }

  /** How tightly PostgreSQL binds it. */
  function Binding(op: Op): int {
    match op
    case Comma => 0
    case OfFrom => 0
    case Or => 1
    case And => 2
    case Is => 4
    case IsNot => 4
    case Like => 6
    case In => 6
    case Eq => 5
    case Angles => 5
    case Bang => 5
    case Lt => 5
    case Gt => 5
    case Le => 5
    case Ge => 5
    case Concat => 7
    case Tilde => 7
    case Plus => 8
    case Minus => 8
    case Times => 9
    case Div => 9
    case Mod => 9
    case Pow => 10
  }

  const NOT_BINDING := 3
  const ATOM_BINDING := 11

  predicate IsWordOp(op: Op) {
    op.OfFrom? || op.Or? || op.And? || op.Is? || op.IsNot? || op.Like? || op.In?
  }

  /** The operators of the source's table. */
  predicate InTable(op: Op) {
    !IsWordOp(op) && !op.Comma? && !op.Tilde? && !op.Pow?
  }

  /** What the content scan makes of it: a table precedence, nothing, or a stop. */
  function ScanPrec(op: Op): int {
    if InTable(op) then TablePrec(OpText(op))
    else if op.Comma? || op.Or? || op.And? || op.IsNot? then BLOCKED
    else ATOM
  }

  /** An expression. Call is a name directly before its parentheses, Args the
      list directly after "in"; Paren is a grouping pair. */
  datatype Exp =
    | Leaf(text: string)
    | Call(name: string, arg: Exp)
    | Args(list: Exp)
    | Paren(inner: Exp)
    | Bin(left: Exp, w1: string, op: Op, w2: string, right: Exp)

  function Spell(t: Exp): string {
    match t
    case Leaf(text) => text
    case Call(name, arg) => name + ("(" + Spell(arg) + ")")
    case Args(list) => "(" + Spell(list) + ")"
    case Paren(inner) => "(" + Spell(inner) + ")"
    case Bin(l, w1, op, w2, r) => Spell(l) + (w1 + (OpText(op) + (w2 + Spell(r))))
  }

  // --------------------------------------------------------------- lexical form

  predicate IsWordChar(c: char) {
    IsLowerIdent(c) || c == '.'
  }

  predicate AllWord(x: string) {
    forall k :: 0 <= k < |x| ==> IsWordChar(x[k])
  }

  predicate Spaces(w: string) {
    forall k :: 0 <= k < |w| ==> w[k] == ' '
  }

  /** Words with a meaning of their own. */
  predicate Reserved(x: string) {
    x == "from" || x == "or" || x == "and" || x == "is" || x == "not" || x == "like" || x == "in"
  }

  /** An identifier or a number. */
  predicate WordText(x: string) {
    x != "" && AllWord(x) && TopScan(x, 0, ATOM) == ATOM && !Reserved(x)
  }

  /** A complete single-quoted literal, quotes inside doubled. */
  predicate QuotedText(x: string) {
    |x| >= 2 && x[0] == '\'' && x[|x| - 1] == '\'' && SkipFrom(x, 1) == |x| && At(x, |x|) == START
  }

  /** The lexical rules: lower-case words, symbol operators with optional spaces,
      word operators with spaces, "in" directly before its list. */
  predicate LexOk(t: Exp) {
    match t
    case Leaf(text) => WordText(text) || QuotedText(text)
    case Call(name, arg) =>
      && (name == "not" || WordText(name)) && IsIdent(name[|name| - 1]) && LexOk(arg) && !arg.Args?
    case Args(list) => LexOk(list) && !list.Args?
    case Paren(inner) => LexOk(inner) && !inner.Args?
    case Bin(l, w1, op, w2, r) =>
      && LexOk(l) && !l.Args? && LexOk(r) && (r.Args? <==> op.In?)
      && Spaces(w1) && Spaces(w2)
      && (IsWordOp(op) ==> w1 != "" && (w2 == "" <==> op.In?))
  }

  // ---------------------------------------------------------------- precedence

  function Prec(t: Exp): int {
    match t
    case Bin(_, _, op, _, _) => Binding(op)
    case Call(name, _) => if name == "not" then NOT_BINDING else ATOM_BINDING
    case _ => ATOM_BINDING
  }

  /** The grammar PostgreSQL reads: operators of one precedence to the left. */
  predicate PrecOk(t: Exp) {
    match t
    case Leaf(_) => true
    case Call(_, arg) => PrecOk(arg)
    case Args(list) => PrecOk(list)
    case Paren(inner) => PrecOk(inner)
    case Bin(l, _, op, _, r) =>
      PrecOk(l) && PrecOk(r) && Prec(l) >= Binding(op) && Prec(r) > Binding(op)
  }

  /** The parse tree: no grouping, no white space. */
  function Bare(t: Exp): Exp {
    match t
    case Leaf(_) => t
    case Call(name, arg) => Call(name, Bare(arg))
    case Args(list) => Args(Bare(list))
    case Paren(inner) => Bare(inner)
    case Bin(l, _, op, _, r) => Bin(Bare(l), "", op, "", Bare(r))
  }

  function Pairs(t: Exp): nat {
    match t
    case Leaf(_) => 0
    case Call(_, arg) => Pairs(arg)
    case Args(list) => Pairs(list)
    case Paren(inner) => 1 + Pairs(inner)
    case Bin(l, _, _, _, r) => Pairs(l) + Pairs(r)
  }

  /** The weakest precedence the content scan finds. */
  function Top(t: Exp): int {
    match t
    case Leaf(_) => ATOM
    case Call(name, _) => if name == "not" then BLOCKED else ATOM
    case Args(_) => ATOM
    case Paren(_) => ATOM
    case Bin(l, _, op, _, r) =>
      if Top(l) == BLOCKED || ScanPrec(op) == BLOCKED || Top(r) == BLOCKED then BLOCKED
      else Min(Top(l), Min(ScanPrec(op), Top(r)))
  }

  // --------------------------------------- what the scanners see of a spelling

  /** What may follow an operand. */
  predicate Follows(q: string) {
    q == "" || (!IsIdent(q[0]) && q[0] != '.' && q[0] != '\'' && q[0] != '(')
  }

  /** What an operand may begin with. */
  predicate Begins(x: string) {
    x != "" && (IsWordChar(x[0]) || x[0] == '\'' || x[0] == '(')
  }

  /** Scanning a run of word characters changes nothing but may meet a keyword. */
  lemma {:induction false} WordScan(x: string, q: string, w: int)
    requires AllWord(x) && (Follows(q) || q[0] == '(')
    ensures TopScan(x, 0, ATOM) == BLOCKED || TopScan(x, 0, ATOM) == ATOM
    ensures TopScan(x + q, 0, w) ==
            if TopScan(x, 0, ATOM) == BLOCKED then BLOCKED else TopScan(q, 0, w)
    decreases |x|
  {
    if x == "" {
      assert x + q == q;
    } else {
      var n := if IsAlpha(x[0]) || x[0] == '_' then WordLength(x) else 1;
      WordStep(x, q);
      WordScan(x[n..], q, w);
      WordThen(x, q, n, w);
    }
  }

  lemma {:induction false} WordThen(x: string, q: string, n: nat, w: int)
    requires x != "" && IsWordChar(x[0]) && WordLength(x + q) == WordLength(x) && Keyword(x + q) == Keyword(x)
    requires n == if IsAlpha(x[0]) || x[0] == '_' then WordLength(x) else 1
    ensures var stop := (IsAlpha(x[0]) || x[0] == '_') && Keyword(x);
            && TopScan(x, 0, ATOM) == (if stop then BLOCKED else TopScan(x[n..], 0, ATOM))
            && TopScan(x + q, 0, w) == (if stop then BLOCKED else TopScan(x[n..] + q, 0, w))
  {
    OneWord(x, n, ATOM);
    OneWord(x + q, n, w);
    assert (x + q)[n..] == x[n..] + q;
  }

  /** The scan moves over one word, or stops at a keyword. */
  lemma {:induction false} OneWord(s: string, n: nat, w: int)
    requires s != "" && IsWordChar(s[0])
    requires n == if IsAlpha(s[0]) || s[0] == '_' then WordLength(s) else 1
    ensures TopScan(s, 0, w) ==
            if (IsAlpha(s[0]) || s[0] == '_') && Keyword(s) then BLOCKED else TopScan(s[n..], 0, w)
  {
    NotTwo(s);
  }

  /** A text beginning with a word character begins with no operator. */
  lemma {:induction false} NotTwo(x: string)
    requires x != "" && IsWordChar(x[0])
    ensures !IsOne(x[0]) && (|x| >= 2 ==> !IsTwo(x[..2]))
  {
    if |x| >= 2 {
      assert x[..2][0] == x[0];
    }
  }

  lemma {:induction false} WordStep(x: string, q: string)
    requires x != "" && AllWord(x) && (Follows(q) || q[0] == '(')
    ensures WordLength(x + q) == WordLength(x)
    ensures Keyword(x + q) == Keyword(x)
  {
    RunStops(x[1..], q);
    assert (x + q)[1..] == x[1..] + q;
    KeywordStops(x, q, "and");
    KeywordStops(x, q, "or");
    KeywordStops(x, q, "not");
  }

  lemma {:induction false} RunStops(x: string, q: string)
    requires AllWord(x) && (Follows(q) || q[0] == '(')
    ensures Run(x + q) == Run(x)
  {
    if x == "" {
      assert x + q == q;
    } else {
      assert (x + q)[1..] == x[1..] + q;
      RunStops(x[1..], q);
    }
  }

  lemma {:induction false} KeywordStops(x: string, q: string, w: string)
    requires AllWord(x) && (Follows(q) || q[0] == '(') && IsWord(w) && x != ""
    ensures KeywordIs(x + q, w) == KeywordIs(x, w)
  {
    WordChars(x + q, w, 0);
    WordChars(x, w, 0);
    var s := x + q;
    assert forall k :: 0 <= k < |x| ==> s[k] == x[k];
    assert q != "" ==> s[|x|] == q[0];
  }
}
