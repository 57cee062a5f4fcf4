/**
 One run of the synchroniser: what the command line authorises, what migration is
 built, and what the database holds after it.
 */
module Reconcile {
  import opened Lex
  import opened Inventory
  import opened Migration

  datatype Args = Args(pruneDb: bool, dropLegacy: seq<string>, dryRun: bool, acceptModelTruth: bool)

  datatype Decision =
    | UnknownLegacy(names: set<string>)
    | NothingRequired
    | DryRun
    | NotAccepted
    | Generated(built: Built)

  /** Names the command line asks for that are not DB-only legacy rows. */
  function Unknown(d: Diff, args: Args): set<string> {
    (set n | n in args.dropLegacy) - (set e | e in d.toDropLegacy :: e.key.name)
  }

  function Requested(args: Args): Entry -> bool {
    (e: Entry) => e.key.name in args.dropLegacy
  }

  /** The authorised drops. */
  function Drops(d: Diff, args: Args): seq<Entry> {
    if args.pruneDb then d.toDropManaged + Select(d.toDropLegacy, Requested(args)) else []
  }

  function Plan(d: Diff, args: Args): seq<Operation> {
    Ops(d.toAdd, Drops(d, args), d.toReplace)
  }

  /** A constraint of that name is in the database, not in the models, and not
      managed. */
  ghost predicate Droppable(model: Database, db: Database, name: string) {
    exists k: Key :: k in db && k !in model && k.name == name && !("ck_" <= name)
  }

  lemma {:induction false} UnknownIs(model: seq<Entry>, db: seq<Entry>, norm: string -> string, args: Args, n: string)
    requires Distinct(model) && Distinct(db)
    ensures n in Unknown(DiffOf(model, db, norm), args) <==>
            n in args.dropLegacy && !Droppable(Dict(model), Dict(db), n)
  {
    var d := DiffOf(model, db, norm);
    if e :| e in d.toDropLegacy && e.key.name == n {
      DiffIs(model, db, norm, e.key, e.sql, "");
      assert Droppable(Dict(model), Dict(db), n);
    }
    if k: Key :| k in Dict(db) && k !in Dict(model) && k.name == n && !("ck_" <= n) {
      DiffIs(model, db, norm, k, Dict(db)[k], "");
      assert Entry(k, Dict(db)[k]) in d.toDropLegacy;
    }
  }

  /** main, from the comparison on. One requested name that nothing droppable bears
      stops the run, and all such names are told. */
  method Synchronize(model: seq<Entry>, db: seq<Entry>, norm: string -> string, args: Args)
    returns (r: Decision)
    requires Distinct(model) && Distinct(db)
    ensures r.UnknownLegacy? <==> exists n :: n in args.dropLegacy && !Droppable(Dict(model), Dict(db), n)
    ensures r.UnknownLegacy? ==>
              forall n :: n in r.names <==> n in args.dropLegacy && !Droppable(Dict(model), Dict(db), n)
    ensures var d := DiffOf(model, db, norm);
            && (r.UnknownLegacy? <==> Unknown(d, args) != {})
            && (r.UnknownLegacy? ==> r.names == Unknown(d, args))
            && (r.NothingRequired? <==> Unknown(d, args) == {} && Plan(d, args) == [])
            && (r.DryRun? <==> Unknown(d, args) == {} && Plan(d, args) != [] && args.dryRun)
            && (r.NotAccepted? <==>
                  Unknown(d, args) == {} && Plan(d, args) != [] && !args.dryRun && !args.acceptModelTruth)
            && (r.Generated? <==>
                  Unknown(d, args) == {} && Plan(d, args) != [] && !args.dryRun && args.acceptModelTruth)
            && (r.Generated? ==> r.built == Revision(Up(Plan(d, args)), Down(Plan(d, args))))
  {
    var d := ComputeDiff(model, db, norm);
    forall n
      ensures n in Unknown(d, args) <==> n in args.dropLegacy && !Droppable(Dict(model), Dict(db), n)
    {
      UnknownIs(model, db, norm, args, n);
    }
    var unknown := (set n | n in args.dropLegacy) - (set e | e in d.toDropLegacy :: e.key.name);
    if unknown != {} {
      return UnknownLegacy(unknown);
    }
    var drops := CollectDropRows(d, args);
    PlanEmpty(d, args);
    if d.toAdd == [] && d.toReplace == [] && drops == [] {
      return NothingRequired;
    }
    if args.dryRun {
      return DryRun;
    }
    if !args.acceptModelTruth {
      return NotAccepted;
    }
    OnlyManaged(model, db, norm);
    var built := BuildMigration(d.toAdd, drops, d.toReplace);
    return Generated(built);
  }

  /** The rows to drop: with pruning the managed ones and, of the others, those whose
      name is asked for. */
  method CollectDropRows(d: Diff, args: Args) returns (drops: seq<Entry>)
    ensures drops == Drops(d, args)
  {
    drops := [];
    if args.pruneDb {
      drops := d.toDropManaged;
      var legacy := [];
      for i := 0 to |d.toDropLegacy|
        invariant legacy == Select(d.toDropLegacy[..i], Requested(args))
      {
        assert d.toDropLegacy[..i + 1][..i] == d.toDropLegacy[..i];
        if d.toDropLegacy[i].key.name in args.dropLegacy {
          legacy := legacy + [d.toDropLegacy[i]];
        }
      }
      assert d.toDropLegacy[..|d.toDropLegacy|] == d.toDropLegacy;
      drops := drops + legacy;
    }
  }

  lemma {:induction false} PlanEmpty(d: Diff, args: Args)
    ensures Plan(d, args) == [] <==> d.toAdd == [] && d.toReplace == [] && Drops(d, args) == []
  {
    assert |Plan(d, args)| == |d.toAdd| + |Drops(d, args)| + |d.toReplace|;
  }

  /** What diff hands over passes the guards of build_migration. */
  lemma {:induction false} OnlyManaged(model: seq<Entry>, db: seq<Entry>, norm: string -> string)
    requires Distinct(model) && Distinct(db)
    ensures var d := DiffOf(model, db, norm); AllManaged(d.toAdd) && AllManagedChanges(d.toReplace)
  {
    var d := DiffOf(model, db, norm);
    forall i | 0 <= i < |d.toAdd|
      ensures IsManaged(d.toAdd[i])
    {
      var e := d.toAdd[i];
      DiffIs(model, db, norm, e.key, e.sql, "");
    }
    forall i | 0 <= i < |d.toReplace|
      ensures "ck_" <= d.toReplace[i].key.name
    {
      var c := d.toReplace[i];
      DiffIs(model, db, norm, c.key, c.wanted, c.current);
    }
  }

  // --------------------------------------------------------- where an upgrade ends

  /** What the run is meant to leave under a key, said without lists or steps. */
  function Target(model: Database, db: Database, norm: string -> string, args: Args,
                  render: string -> string, k: Key): Option<string> {
    if "ck_" <= k.name then
      if k in model then
        if k in db && norm(db[k]) == norm(model[k]) then Some(db[k]) else Some(render(model[k]))
      else if args.pruneDb then None
      else Text(db, k)
    else if args.pruneDb && k.name in args.dropLegacy && k !in model then None
    else Text(db, k)
  }

  /** The drops, key by key. */
  lemma {:induction false} DropsIs(model: seq<Entry>, db: seq<Entry>, norm: string -> string, args: Args, k: Key, x: string)
    requires Distinct(model) && Distinct(db)
    ensures Entry(k, x) in Drops(DiffOf(model, db, norm), args) <==>
            && args.pruneDb && k in Dict(db) && Dict(db)[k] == x && k !in Dict(model)
            && ("ck_" <= k.name || k.name in args.dropLegacy)
  {
    var d := DiffOf(model, db, norm);
    DiffIs(model, db, norm, k, x, "");
    SelectIs(d.toDropLegacy, Requested(args), Entry(k, x));
  }

  /** The operations of three lists, by what they do. */
  lemma {:induction false} OpsHas(toAdd: seq<Entry>, toDrop: seq<Entry>, toReplace: seq<Change>, op: Operation)
    ensures op in Ops(toAdd, toDrop, toReplace) <==>
            if op.before.None? then op.after.Some? && Entry(op.key, op.after.value) in toAdd
            else if op.after.None? then Entry(op.key, op.before.value) in toDrop
            else Change(op.key, op.before.value, op.after.value) in toReplace
  {
    var a, b, c := AddOps(toAdd), DropOps(toDrop), ReplaceOps(toReplace);
    assert op in Ops(toAdd, toDrop, toReplace) <==> op in a || op in b || op in c;
    AddHas(toAdd, op);
    DropHas(toDrop, op);
    ReplaceHas(toReplace, op);
  }

  lemma {:induction false} AddHas(rows: seq<Entry>, op: Operation)
    ensures op in AddOps(rows) <==> op.before.None? && op.after.Some? && Entry(op.key, op.after.value) in rows
  {
    if op.before.None? && op.after.Some? && Entry(op.key, op.after.value) in rows {
      var i :| 0 <= i < |rows| && rows[i] == Entry(op.key, op.after.value);
      assert AddOps(rows)[i] == op;
    }
  }

  lemma {:induction false} DropHas(rows: seq<Entry>, op: Operation)
    ensures op in DropOps(rows) <==> op.before.Some? && op.after.None? && Entry(op.key, op.before.value) in rows
  {
    if op.before.Some? && op.after.None? && Entry(op.key, op.before.value) in rows {
      var i :| 0 <= i < |rows| && rows[i] == Entry(op.key, op.before.value);
      assert DropOps(rows)[i] == op;
    }
  }

  lemma {:induction false} ReplaceHas(rows: seq<Change>, op: Operation)
    ensures op in ReplaceOps(rows) <==> op.before.Some? && op.after.Some? &&
                                        Change(op.key, op.before.value, op.after.value) in rows
  {
    if op.before.Some? && op.after.Some? && Change(op.key, op.before.value, op.after.value) in rows {
      var i :| 0 <= i < |rows| && rows[i] == Change(op.key, op.before.value, op.after.value);
      assert ReplaceOps(rows)[i] == op;
    }
  }

  /** What the plan does, key by key: a managed model constraint is added or
      replaced, a constraint that is only in the database is dropped when it may. */
  lemma {:induction false} PlanIs(model: seq<Entry>, db: seq<Entry>, norm: string -> string, args: Args, op: Operation)
    requires Distinct(model) && Distinct(db)
    ensures op in Plan(DiffOf(model, db, norm), args) <==>
            && Text(Dict(db), op.key) == op.before && (op.before.Some? || op.after.Some?)
            && if op.after.Some? then
                 && "ck_" <= op.key.name && Text(Dict(model), op.key) == op.after
                 && (op.before.Some? ==> norm(op.before.value) != norm(op.after.value))
               else
                 && args.pruneDb && op.key !in Dict(model)
                 && ("ck_" <= op.key.name || op.key.name in args.dropLegacy)
  {
    var d := DiffOf(model, db, norm);
    var x := if op.after.Some? then op.after.value else "";
    var y := if op.before.Some? then op.before.value else "";
    OpsHas(d.toAdd, Drops(d, args), d.toReplace, op);
    DiffIs(model, db, norm, op.key, x, y);
    DropsIs(model, db, norm, args, op.key, y);
  }

  lemma {:induction false} DropsDistinct(model: seq<Entry>, db: seq<Entry>, norm: string -> string, args: Args)
    requires Distinct(model) && Distinct(db)
    ensures Distinct(Drops(DiffOf(model, db, norm), args))
  {
    var d := DiffOf(model, db, norm);
    var legacy := Select(d.toDropLegacy, Requested(args));
    SelectDistinct(db, IsManaged);
    SelectDistinct(db, (e: Entry) => !IsManaged(e));
    SelectDistinct(ManagedRows(db), Missing(Dict(ManagedRows(model))));
    SelectDistinct(LegacyRows(db), Missing(Dict(LegacyRows(model))));
    SelectDistinct(d.toDropLegacy, Requested(args));
    forall i, j | 0 <= i < |d.toDropManaged| && 0 <= j < |legacy|
      ensures d.toDropManaged[i].key != legacy[j].key
    {
      var e, f := d.toDropManaged[i], legacy[j];
      DiffIs(model, db, norm, e.key, e.sql, "");
      SelectIs(d.toDropLegacy, Requested(args), f);
      DiffIs(model, db, norm, f.key, f.sql, "");
    }
  }

  /** The plan fits the inspected database. */
  lemma {:induction false} PlanReady(model: seq<Entry>, db: seq<Entry>, norm: string -> string, args: Args)
    requires Distinct(model) && Distinct(db)
    ensures Ready(Plan(DiffOf(model, db, norm), args), Dict(db))
  {
    var d := DiffOf(model, db, norm);
    var ops, drops := Plan(d, args), Drops(d, args);
    forall i | 0 <= i < |ops|
      ensures Text(Dict(db), ops[i].key) == ops[i].before
    {
      PlanIs(model, db, norm, args, ops[i]);
    }
    SelectDistinct(model, IsManaged);
    SelectDistinct(ManagedRows(model), Missing(Dict(ManagedRows(db))));
    CompareDistinct(ManagedRows(model), Dict(ManagedRows(db)), Drifted(norm));
    DropsDistinct(model, db, norm, args);
    forall i, j | 0 <= i < j < |ops|
      ensures ops[i].key != ops[j].key
    {
      PlanIs(model, db, norm, args, ops[i]);
      PlanIs(model, db, norm, args, ops[j]);
      PlanOrder(d, args, i, j);
    }
  }

  /** Operations of one kind come from different rows of one list. */
  lemma {:induction false} PlanOrder(d: Diff, args: Args, i: nat, j: nat)
    requires i < j < |Plan(d, args)|
    requires Distinct(d.toAdd) && Distinct(Drops(d, args)) && DistinctChanges(d.toReplace)
    ensures var ops := Plan(d, args);
            ops[i].before.Some? == ops[j].before.Some? && ops[i].after.Some? == ops[j].after.Some?
            ==> ops[i].key != ops[j].key
  {
    var ops, drops := Plan(d, args), Drops(d, args);
    var a, b := |d.toAdd|, |d.toAdd| + |drops|;
    assert forall n :: 0 <= n < a ==> ops[n] == AddOps(d.toAdd)[n];
    assert forall n :: a <= n < b ==> ops[n] == DropOps(drops)[n - a];
    assert forall n :: b <= n < |ops| ==> ops[n] == ReplaceOps(d.toReplace)[n - b];
  }

  /** The generated upgrade runs from the inspected database without a failing
      step, and under every key leaves what is meant. */
  lemma {:induction false} UpgradeReachesTarget(model: seq<Entry>, db: seq<Entry>, norm: string -> string, args: Args,
                             render: string -> string)
    requires Distinct(model) && Distinct(db)
    ensures var ops := Plan(DiffOf(model, db, norm), args);
            var end := Run(Up(ops), Dict(db), render);
            end.Some? && forall k :: Text(end.value, k) == Target(Dict(model), Dict(db), norm, args, render, k)
  {
    var ops := Plan(DiffOf(model, db, norm), args);
    PlanReady(model, db, norm, args);
    UpRuns(ops, Dict(db), render);
    forall k
      ensures Text(Apply(ops, Dict(db), render), k) == Target(Dict(model), Dict(db), norm, args, render, k)
    {
      ReachesAt(model, db, norm, args, render, k);
    }
  }

  lemma {:induction false} ReachesAt(model: seq<Entry>, db: seq<Entry>, norm: string -> string, args: Args,
                  render: string -> string, k: Key)
    requires Distinct(model) && Distinct(db)
    ensures Text(Apply(Plan(DiffOf(model, db, norm), args), Dict(db), render), k) ==
            Target(Dict(model), Dict(db), norm, args, render, k)
  {
    var ops := Plan(DiffOf(model, db, norm), args);
    PlanReady(model, db, norm, args);
    ApplyAt(ops, Dict(db), render, k);
    var goal := Operation(k, Text(Dict(db), k), if "ck_" <= k.name then Text(Dict(model), k) else None);
    PlanIs(model, db, norm, args, goal);
    forall i | 0 <= i < |ops| && ops[i].key == k
      ensures ops[i] == goal
    {
      PlanIs(model, db, norm, args, ops[i]);
    }
    assert goal in ops ==> exists i :: 0 <= i < |ops| && ops[i] == goal;
  }

  /** Running the downgrade after the upgrade restores the inspected database. */
  lemma {:induction false} DowngradeRestores(model: seq<Entry>, db: seq<Entry>, norm: string -> string, args: Args,
                          render: string -> string)
    requires Distinct(model) && Distinct(db) && Stored(Dict(db), render)
    ensures var ops := Plan(DiffOf(model, db, norm), args);
            Run(Up(ops) + Down(ops), Dict(db), render) == Some(Dict(db))
  {
    var ops := Plan(DiffOf(model, db, norm), args);
    PlanReady(model, db, norm, args);
    UpRuns(ops, Dict(db), render);
    DownRuns(ops, Dict(db), render);
    RunConcat(Up(ops), Down(ops), Dict(db), render);
  }

  // ------------------------------------------------------------ the second run

  /** Re-rendering a text does not change its normal form. */
  ghost predicate RenderingKeepsForm(norm: string -> string, render: string -> string) {
    forall x :: norm(render(x)) == norm(x)
  }

  /** After the upgrade a second comparison finds nothing to add or replace, and
      nothing it may drop. */
  lemma {:induction false} SecondRunIsClean(model: seq<Entry>, db: seq<Entry>, norm: string -> string, args: Args,
                         render: string -> string, after: seq<Entry>)
    requires Distinct(model) && Distinct(db) && Distinct(after) && RenderingKeepsForm(norm, render)
    requires Run(Up(Plan(DiffOf(model, db, norm), args)), Dict(db), render) == Some(Dict(after))
    ensures Plan(DiffOf(model, after, norm), args) == []
    ensures args.pruneDb ==> DiffOf(model, after, norm).toDropManaged == []
  {
    var d := DiffOf(model, after, norm);
    UpgradeReachesTarget(model, db, norm, args, render);
    if d.toAdd != [] {
      SecondAdd(model, db, norm, args, render, after, d.toAdd[0]);
    }
    if d.toReplace != [] {
      SecondReplace(model, db, norm, args, render, after, d.toReplace[0]);
    }
    if Drops(d, args) != [] {
      SecondDrop(model, db, norm, args, render, after, Drops(d, args)[0]);
    }
    PlanEmpty(d, args);
  }

  ghost predicate Reached(model: seq<Entry>, db: seq<Entry>, norm: string -> string, args: Args,
                          render: string -> string, after: seq<Entry>) {
    && Distinct(model) && Distinct(after)
    && forall k :: Text(Dict(after), k) == Target(Dict(model), Dict(db), norm, args, render, k)
  }

  lemma {:induction false} SecondAdd(model: seq<Entry>, db: seq<Entry>, norm: string -> string, args: Args,
                  render: string -> string, after: seq<Entry>, e: Entry)
    requires Reached(model, db, norm, args, render, after)
    ensures e !in DiffOf(model, after, norm).toAdd
  {
    DiffIs(model, after, norm, e.key, e.sql, "");
    assert Text(Dict(after), e.key) == Target(Dict(model), Dict(db), norm, args, render, e.key);
  }

  lemma {:induction false} SecondReplace(model: seq<Entry>, db: seq<Entry>, norm: string -> string, args: Args,
                      render: string -> string, after: seq<Entry>, c: Change)
    requires Reached(model, db, norm, args, render, after) && RenderingKeepsForm(norm, render)
    ensures c !in DiffOf(model, after, norm).toReplace
  {
    DiffIs(model, after, norm, c.key, c.wanted, c.current);
    assert Text(Dict(after), c.key) == Target(Dict(model), Dict(db), norm, args, render, c.key);
    assert norm(render(c.wanted)) == norm(c.wanted);
  }

  lemma {:induction false} SecondDrop(model: seq<Entry>, db: seq<Entry>, norm: string -> string, args: Args,
                   render: string -> string, after: seq<Entry>, e: Entry)
    requires Reached(model, db, norm, args, render, after)
    ensures e !in Drops(DiffOf(model, after, norm), args)
  {
    DropsIs(model, after, norm, args, e.key, e.sql);
    assert Text(Dict(after), e.key) == Target(Dict(model), Dict(db), norm, args, render, e.key);
  }

  /** Repeating a command that dropped a legacy constraint stops as unknown: the
      name is no longer there to be dropped. */
  lemma {:induction false} RepeatedDropIsUnknown(model: seq<Entry>, db: seq<Entry>, norm: string -> string, args: Args,
                              render: string -> string, after: seq<Entry>)
    requires Distinct(model) && Distinct(db) && Distinct(after) && args.pruneDb
    requires Run(Up(Plan(DiffOf(model, db, norm), args)), Dict(db), render) == Some(Dict(after))
    ensures Unknown(DiffOf(model, after, norm), args) == set n | n in args.dropLegacy
  {
    UpgradeReachesTarget(model, db, norm, args, render);
    var d := DiffOf(model, after, norm);
    forall e | e in d.toDropLegacy
      ensures e.key.name !in args.dropLegacy
    {
      DiffIs(model, after, norm, e.key, e.sql, "");
      assert Text(Dict(after), e.key) == Target(Dict(model), Dict(db), norm, args, render, e.key);
    }
  }

  // ------------------------------------------------------------ classification

  /** A managed model constraint is in exactly one of four cases; the lists of the
      comparison tell which. */
  lemma {:induction false} FourCases(model: seq<Entry>, db: seq<Entry>, norm: string -> string, k: Key)
    requires Distinct(model) && Distinct(db) && k in Dict(model) && "ck_" <= k.name
    ensures var d := DiffOf(model, db, norm);
            var add := exists e :: e in d.toAdd && e.key == k;
            var replace := exists c :: c in d.toReplace && c.key == k;
            var respelled := exists c :: c in d.representation && c.key == k;
            var same := k in Dict(db) && Strip(Dict(db)[k]) == Strip(Dict(model)[k])
                        && norm(Dict(db)[k]) == norm(Dict(model)[k]);
            && (add || replace || respelled || same)
            && !(add && replace) && !(add && respelled) && !(add && same)
            && !(replace && respelled) && !(replace && same) && !(respelled && same)
  {
    var d := DiffOf(model, db, norm);
    var m, b := Dict(model), Dict(db);
    DiffIs(model, db, norm, k, m[k], if k in b then b[k] else "");
    forall e | e in d.toAdd && e.key == k
      ensures e == Entry(k, m[k])
    {
      DiffIs(model, db, norm, k, e.sql, "");
    }
    forall c | c in d.toReplace && c.key == k
      ensures k in b && c == Change(k, b[k], m[k])
    {
      DiffIs(model, db, norm, k, c.wanted, c.current);
    }
    forall c | c in d.representation && c.key == k
      ensures k in b && c == Change(k, b[k], m[k])
    {
      DiffIs(model, db, norm, k, c.wanted, c.current);
    }
  }
}
