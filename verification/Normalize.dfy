/**
 The last steps of normalize_sql, and what they mean for the comparison: when a
 constraint on both sides is replaced, and when a difference stays hidden. The
 rewriting before these steps is a parameter.
 */
module Normalize {
  import opened Lex
  import BoolCanon
  import B = BoolGrammar
  import BP = BoolPeel
  import BT = BoolTheorems
  import ArithCanon
  import A = ArithGrammar
  import AM = ArithMeaning
  import AR = ArithReading
  import MX = Mixed
  import opened Inventory

  /** normalize_sql, front being everything up to _canonicalize_arith. */
  function Norm(front: string -> string): string -> string {
    (sql: string) => BoolCanon.CanonBool(Strip(ArithCanon.CanonArith(front(sql))))
  }

  /** A key on both sides is replaced exactly when the normal forms differ. */
  lemma {:induction false} ReplacedWhen(model: seq<Entry>, db: seq<Entry>, norm: string -> string, k: Key)
    requires Distinct(model) && Distinct(db)
    requires k in Dict(model) && k in Dict(db) && "ck_" <= k.name
    ensures (exists c: Change :: c in DiffOf(model, db, norm).toReplace && c.key == k) <==>
            norm(Dict(db)[k]) != norm(Dict(model)[k])
  {
    DiffIs(model, db, norm, k, Dict(model)[k], Dict(db)[k]);
    forall c: Change | c in DiffOf(model, db, norm).toReplace && c.key == k
      ensures norm(Dict(db)[k]) != norm(Dict(model)[k])
    {
      DiffIs(model, db, norm, k, c.wanted, c.current);
    }
  }

  /** Boolean predicates t in the database and u in the model: replaced exactly
      when their flattened syntax differs. */
  lemma {:induction false} ReplacedExactly(model: seq<Entry>, db: seq<Entry>, front: string -> string, k: Key, t: B.Src, u: B.Src)
    requires Distinct(model) && Distinct(db)
    requires k in Dict(model) && k in Dict(db) && "ck_" <= k.name
    requires B.Wf(t) && BP.Clean(t) && BT.Faithful(t) && B.Wf(u) && BP.Clean(u) && BT.Faithful(u)
    requires ArithCanon.CanonArith(front(Dict(db)[k])) == B.Spell(t) && ArithCanon.CanonArith(front(Dict(model)[k])) == B.Spell(u)
    ensures (exists c: Change :: c in DiffOf(model, db, Norm(front)).toReplace && c.key == k) <==>
            B.Flatten(t) != B.Flatten(u)
  {
    ReplacedWhen(model, db, Norm(front), k);
    B.SpellShape(t);
    B.SpellShape(u);
    StripTrimmed(B.Spell(t));
    StripTrimmed(B.Spell(u));
    BT.SameCanonicalForm(t, u);
  }

  /** A text the boolean layer takes for one predicate is its own normal form. */
  lemma {:induction false} AtomIsItself(x: string)
    requires B.AtomText(x) && !BoolCanon.Wrapped(x)
    ensures BoolCanon.CanonBool(Strip(x)) == x
  {
    StripTrimmed(x);
    BT.CanonicalForm(B.Atom(x));
  }

  /** Sound comparisons t in the database and u in the model: a difference of parse
      trees is never missed. */
  lemma {:induction false} DifferenceIsReplaced(model: seq<Entry>, db: seq<Entry>, front: string -> string, k: Key, t: A.Exp, u: A.Exp)
    requires Distinct(model) && Distinct(db)
    requires k in Dict(model) && k in Dict(db) && "ck_" <= k.name
    requires A.LexOk(t) && !t.Args? && A.PrecOk(t) && AM.Sound(t, None, None)
    requires A.LexOk(u) && !u.Args? && A.PrecOk(u) && AM.Sound(u, None, None)
    requires front(Dict(db)[k]) == A.Spell(t) && front(Dict(model)[k]) == A.Spell(u)
    requires B.AtomText(ArithCanon.CanonArith(A.Spell(t))) && !BoolCanon.Wrapped(ArithCanon.CanonArith(A.Spell(t)))
    requires B.AtomText(ArithCanon.CanonArith(A.Spell(u))) && !BoolCanon.Wrapped(ArithCanon.CanonArith(A.Spell(u)))
    requires A.Bare(t) != A.Bare(u)
    ensures exists c: Change :: c in DiffOf(model, db, Norm(front)).toReplace && c.key == k
  {
    ReplacedWhen(model, db, Norm(front), k);
    AtomIsItself(ArithCanon.CanonArith(A.Spell(t)));
    AtomIsItself(ArithCanon.CanonArith(A.Spell(u)));
    if ArithCanon.CanonArith(A.Spell(t)) == ArithCanon.CanonArith(A.Spell(u)) {
      AR.EqualTextsEqualTrees(t, u);
    }
  }

  /** Predicates of both layers, t in the database and u in the model: a difference of
      parse trees is never missed. */
  lemma {:induction false} MixedDifferenceIsReplaced(model: seq<Entry>, db: seq<Entry>, front: string -> string, k: Key, t: A.Exp, u: A.Exp)
    requires Distinct(model) && Distinct(db)
    requires k in Dict(model) && k in Dict(db) && "ck_" <= k.name
    requires MX.Proper(t) && MX.Proper(u) && front(Dict(db)[k]) == A.Spell(t) && front(Dict(model)[k]) == A.Spell(u)
    requires MX.SenseOf(t) != MX.SenseOf(u)
    ensures exists c: Change :: c in DiffOf(model, db, Norm(front)).toReplace && c.key == k
  {
    ReplacedWhen(model, db, Norm(front), k);
    if Norm(front)(Dict(db)[k]) == Norm(front)(Dict(model)[k]) {
      MX.EqualMixedEqualSense(t, u);
    }
  }

  /** The one-sided test can hide a difference: "x = (a + b) * c" in the database is
      not replaced by the model's "x = a + b * c". */
  lemma {:induction false} DifferenceHidden(model: seq<Entry>, db: seq<Entry>, front: string -> string, k: Key,
                         x: A.Exp, a: A.Exp, b: A.Exp, c: A.Exp, w: string)
    requires Distinct(model) && Distinct(db)
    requires k in Dict(model) && k in Dict(db) && "ck_" <= k.name
    requires AM.Words(x) && AM.Words(a) && AM.Words(b) && AM.Words(c) && A.Spaces(w)
    requires front(Dict(db)[k]) == A.Spell(AM.SumTimes(x, a, b, c, w))
    requires front(Dict(model)[k]) == A.Spell(AM.SumOfTimes(x, a, b, c, w))
    ensures A.Bare(AM.SumTimes(x, a, b, c, w)) != A.Bare(AM.SumOfTimes(x, a, b, c, w))
    ensures !exists r: Change :: r in DiffOf(model, db, Norm(front)).toReplace && r.key == k
  {
    ReplacedWhen(model, db, Norm(front), k);
    AM.GroupLostBeforeTimes(x, a, b, c, w);
  }
}
