/**
 The generated migration as a program of create and drop steps, its downgrade,
 and the gating of drops by the command line.
 */
module Migration {
  import opened Lex
  import opened Inventory

  // ---------------------------------------------------------------------- steps

  datatype Step = Create(key: Key, sql: string) | Drop(key: Key)

  type Database = map<Key, string>

  /** The database after one step; None when PostgreSQL refuses it. What is stored
      is the server's own rendering of the text. */
  function Execute(s: Step, db: Database, render: string -> string): Option<Database> {
    match s
    case Create(k, sql) => if k in db then None else Some(db[k := render(sql)])
    case Drop(k) => if k in db then Some(db - {k}) else None
  }

  function Run(steps: seq<Step>, db: Database, render: string -> string): Option<Database> {
    if steps == [] then Some(db)
    else
      match Execute(steps[0], db, render)
      case None => None
      case Some(next) => Run(steps[1..], next, render)
  }

  lemma {:induction false} RunConcat(a: seq<Step>, b: seq<Step>, db: Database, render: string -> string)
    requires Run(a, db, render).Some?
    ensures Run(a + b, db, render) == Run(b, Run(a, db, render).value, render)
  {
    if a == [] {
      assert a + b == b;
    } else {
      assert (a + b)[1..] == a[1..] + b;
      RunConcat(a[1..], b, Execute(a[0], db, render).value, render);
    }
  }

  // ----------------------------------------------------------------- operations

  /** What a migration does to one key: the text before and after, if any. */
  datatype Operation = Operation(key: Key, before: Option<string>, after: Option<string>)

  function Do(op: Operation): seq<Step> {
    (if op.before.Some? then [Drop(op.key)] else []) +
    (if op.after.Some? then [Create(op.key, op.after.value)] else [])
  }

  function Undo(op: Operation): seq<Step> {
    Do(Operation(op.key, op.after, op.before))
  }

  /** The operations in order. */
  function Up(ops: seq<Operation>): seq<Step> {
    if ops == [] then [] else Up(ops[..|ops| - 1]) + Do(ops[|ops| - 1])
  }

  /** Their inverses in the opposite order. */
  function Down(ops: seq<Operation>): seq<Step> {
    if ops == [] then [] else Undo(ops[|ops| - 1]) + Down(ops[..|ops| - 1])
  }

  function AddOps(rows: seq<Entry>): (ops: seq<Operation>)
    ensures |ops| == |rows|
  {
    seq(|rows|, i requires 0 <= i < |rows| => Operation(rows[i].key, None, Some(rows[i].sql)))
  }

  function DropOps(rows: seq<Entry>): (ops: seq<Operation>)
    ensures |ops| == |rows|
  {
    seq(|rows|, i requires 0 <= i < |rows| => Operation(rows[i].key, Some(rows[i].sql), None))
  }

  function ReplaceOps(rows: seq<Change>): (ops: seq<Operation>)
    ensures |ops| == |rows|
  {
    seq(|rows|, i requires 0 <= i < |rows| =>
      Operation(rows[i].key, Some(rows[i].current), Some(rows[i].wanted)))
  }

  function Ops(toAdd: seq<Entry>, toDrop: seq<Entry>, toReplace: seq<Change>): seq<Operation> {
    AddOps(toAdd) + DropOps(toDrop) + ReplaceOps(toReplace)
  }

  // ------------------------------------------------------------ build_migration

  datatype Built =
    | RefusedAdd(key: Key)
    | RefusedReplace(key: Key)
    | Empty
    | Revision(upgrade: seq<Step>, downgrade: seq<Step>)

  /** The lines of a list of inverse operations, last operation first. */
  function Unwind(groups: seq<seq<Step>>): seq<Step> {
    if groups == [] then [] else groups[|groups| - 1] + Unwind(groups[..|groups| - 1])
  }

  function Undos(ops: seq<Operation>): (gs: seq<seq<Step>>)
    ensures |gs| == |ops|
  {
    seq(|ops|, i requires 0 <= i < |ops| => Undo(ops[i]))
  }

  lemma {:induction false} UnwindUndos(ops: seq<Operation>)
    ensures Unwind(Undos(ops)) == Down(ops)
  {
    if ops != [] {
      var n := |ops| - 1;
      UnwindUndos(ops[..n]);
      assert Undos(ops)[..n] == Undos(ops[..n]);
    }
  }

  /** One more operation: its lines at the end of the upgrade, its inverse as the
      next group. */
  lemma {:induction false} Extend(ops: seq<Operation>, op: Operation)
    ensures Up(ops + [op]) == Up(ops) + Do(op)
    ensures Undos(ops + [op]) == Undos(ops) + [Undo(op)]
  {
    assert (ops + [op])[..|ops|] == ops;
  }

  predicate AllManaged(rows: seq<Entry>) {
    forall i :: 0 <= i < |rows| ==> "ck_" <= rows[i].key.name
  }

  predicate AllManagedChanges(rows: seq<Change>) {
    forall i :: 0 <= i < |rows| ==> "ck_" <= rows[i].key.name
  }

  /** The contract guards: the first name that is not managed. */
  method Guard(toAdd: seq<Entry>, toReplace: seq<Change>) returns (b: Option<Built>)
    ensures b.None? <==> AllManaged(toAdd) && AllManagedChanges(toReplace)
    ensures b.Some? ==> (b.value.RefusedAdd? || b.value.RefusedReplace?) && !("ck_" <= b.value.key.name)
    ensures b.Some? ==> (b.value.RefusedAdd? <==> !AllManaged(toAdd))
  {
    for i := 0 to |toAdd|
      invariant AllManaged(toAdd[..i])
    {
      if Classify(toAdd[i].key.name) != Managed {
        return Some(RefusedAdd(toAdd[i].key));
      }
    }
    for i := 0 to |toReplace|
      invariant AllManagedChanges(toReplace[..i])
    {
      if Classify(toReplace[i].key.name) != Managed {
        return Some(RefusedReplace(toReplace[i].key));
      }
    }
    return None;
  }

  /** build_migration. */
  method BuildMigration(toAdd: seq<Entry>, toDrop: seq<Entry>, toReplace: seq<Change>) returns (b: Built)
    ensures b.RefusedAdd? <==> !AllManaged(toAdd)
    ensures b.RefusedReplace? <==> AllManaged(toAdd) && !AllManagedChanges(toReplace)
    ensures b.RefusedAdd? || b.RefusedReplace? ==> !("ck_" <= b.key.name)
    ensures b.Empty? ==> Ops(toAdd, toDrop, toReplace) == []
    ensures b.Revision? ==>
              && b.upgrade == Up(Ops(toAdd, toDrop, toReplace)) != []
              && b.downgrade == Down(Ops(toAdd, toDrop, toReplace))
  {
    var refusal := Guard(toAdd, toReplace);
    if refusal.Some? {
      return refusal.value;
    }
    var upgrade, groups := Collect(toAdd, toDrop, toReplace);
    var downgrade := UnwindGroups(groups);
    UnwindUndos(Ops(toAdd, toDrop, toReplace));
    if upgrade == [] {
      UpEmpty(Ops(toAdd, toDrop, toReplace));
      return Empty;
    }
    return Revision(upgrade, downgrade);
  }

  method Collect(toAdd: seq<Entry>, toDrop: seq<Entry>, toReplace: seq<Change>)
    returns (upgrade: seq<Step>, groups: seq<seq<Step>>)
    ensures upgrade == Up(Ops(toAdd, toDrop, toReplace)) && groups == Undos(Ops(toAdd, toDrop, toReplace))
  {
    ghost var none: seq<Operation> := [];
    upgrade, groups := CollectAdds(toAdd, [], [], none);
    assert none + AddOps(toAdd) == AddOps(toAdd);
    upgrade, groups := CollectDrops(toDrop, upgrade, groups, AddOps(toAdd));
    upgrade, groups := CollectReplaces(toReplace, upgrade, groups, AddOps(toAdd) + DropOps(toDrop));
  }

  /** The three loops of build_migration, one per list. */
  method CollectAdds(toAdd: seq<Entry>, upgrade0: seq<Step>, groups0: seq<seq<Step>>, ghost ops: seq<Operation>)
    returns (upgrade: seq<Step>, groups: seq<seq<Step>>)
    requires upgrade0 == Up(ops) && groups0 == Undos(ops)
    ensures upgrade == Up(ops + AddOps(toAdd)) && groups == Undos(ops + AddOps(toAdd))
  {
    upgrade, groups := upgrade0, groups0;
    ghost var done := ops;
    for i := 0 to |toAdd|
      invariant done == ops + AddOps(toAdd)[..i] && upgrade == Up(done) && groups == Undos(done)
    {
      upgrade := upgrade + [Create(toAdd[i].key, toAdd[i].sql)];
      groups := groups + [[Drop(toAdd[i].key)]];
      Lines(AddOps(toAdd)[i]);
      Extend(done, AddOps(toAdd)[i]);
      done := done + [AddOps(toAdd)[i]];
    }
    assert AddOps(toAdd)[..|toAdd|] == AddOps(toAdd);
  }

  method CollectDrops(toDrop: seq<Entry>, upgrade0: seq<Step>, groups0: seq<seq<Step>>, ghost ops: seq<Operation>)
    returns (upgrade: seq<Step>, groups: seq<seq<Step>>)
    requires upgrade0 == Up(ops) && groups0 == Undos(ops)
    ensures upgrade == Up(ops + DropOps(toDrop)) && groups == Undos(ops + DropOps(toDrop))
  {
    upgrade, groups := upgrade0, groups0;
    ghost var done := ops;
    for i := 0 to |toDrop|
      invariant done == ops + DropOps(toDrop)[..i] && upgrade == Up(done) && groups == Undos(done)
    {
      upgrade := upgrade + [Drop(toDrop[i].key)];
      groups := groups + [[Create(toDrop[i].key, toDrop[i].sql)]];
      Lines(DropOps(toDrop)[i]);
      Extend(done, DropOps(toDrop)[i]);
      done := done + [DropOps(toDrop)[i]];
    }
    assert DropOps(toDrop)[..|toDrop|] == DropOps(toDrop);
  }

  method CollectReplaces(toReplace: seq<Change>, upgrade0: seq<Step>, groups0: seq<seq<Step>>, ghost ops: seq<Operation>)
    returns (upgrade: seq<Step>, groups: seq<seq<Step>>)
    requires upgrade0 == Up(ops) && groups0 == Undos(ops)
    ensures upgrade == Up(ops + ReplaceOps(toReplace)) && groups == Undos(ops + ReplaceOps(toReplace))
  {
    upgrade, groups := upgrade0, groups0;
    ghost var done := ops;
    for i := 0 to |toReplace|
      invariant done == ops + ReplaceOps(toReplace)[..i] && upgrade == Up(done) && groups == Undos(done)
    {
      var c := toReplace[i];
      upgrade := upgrade + [Drop(c.key)];
      upgrade := upgrade + [Create(c.key, c.wanted)];
      groups := groups + [[Drop(c.key), Create(c.key, c.current)]];
      Lines(ReplaceOps(toReplace)[i]);
      Extend(done, ReplaceOps(toReplace)[i]);
      done := done + [ReplaceOps(toReplace)[i]];
    }
    assert ReplaceOps(toReplace)[..|toReplace|] == ReplaceOps(toReplace);
  }

  lemma {:induction false} Lines(op: Operation)
    ensures op.before.None? && op.after.Some? ==>
              Do(op) == [Create(op.key, op.after.value)] && Undo(op) == [Drop(op.key)]
    ensures op.before.Some? && op.after.None? ==>
              Do(op) == [Drop(op.key)] && Undo(op) == [Create(op.key, op.before.value)]
    ensures op.before.Some? && op.after.Some? ==>
              && Do(op) == [Drop(op.key)] + [Create(op.key, op.after.value)]
              && Undo(op) == [Drop(op.key), Create(op.key, op.before.value)]
  {
  }

  method UnwindGroups(groups: seq<seq<Step>>) returns (lines: seq<Step>)
    ensures lines == Unwind(groups)
  {
    lines := [];
    var i := |groups|;
    assert groups[..i] == groups;
    while i > 0
      invariant 0 <= i <= |groups|
      invariant lines + Unwind(groups[..i]) == Unwind(groups)
    {
      assert groups[..i][..i - 1] == groups[..i - 1];
      i := i - 1;
      lines := lines + groups[i];
    }
  }

  lemma {:induction false} UpEmpty(ops: seq<Operation>)
    requires Up(ops) == [] && forall i :: 0 <= i < |ops| ==> ops[i].before.Some? || ops[i].after.Some?
    ensures ops == []
  {
  }

  // ------------------------------------------------------- running a migration

  /** Each operation finds its key as it expects it, and no key occurs twice. */
  ghost predicate Ready(ops: seq<Operation>, db: Database) {
    && (forall i, j :: 0 <= i < j < |ops| ==> ops[i].key != ops[j].key)
    && forall i :: 0 <= i < |ops| ==> Text(db, ops[i].key) == ops[i].before
  }

  function Text(db: Database, k: Key): Option<string> {
    if k in db then Some(db[k]) else None
  }

  function Put(db: Database, k: Key, sql: Option<string>, render: string -> string): Database {
    if sql.Some? then db[k := render(sql.value)] else db - {k}
  }

  /** The database the operations lead to. */
  function Apply(ops: seq<Operation>, db: Database, render: string -> string): Database {
    if ops == [] then db
    else
      var op := ops[|ops| - 1];
      Put(Apply(ops[..|ops| - 1], db, render), op.key, op.after, render)
  }

  /** Keys without an operation keep their text, the others get the new one. */
  lemma {:induction false} ApplyAt(ops: seq<Operation>, db: Database, render: string -> string, k: Key)
    requires Ready(ops, db)
    ensures (forall i :: 0 <= i < |ops| ==> ops[i].key != k) ==> Text(Apply(ops, db, render), k) == Text(db, k)
    ensures forall i :: 0 <= i < |ops| && ops[i].key == k ==>
              Text(Apply(ops, db, render), k) ==
              if ops[i].after.Some? then Some(render(ops[i].after.value)) else None
  {
    if ops != [] {
      var n := |ops| - 1;
      assert forall i :: 0 <= i < n ==> ops[..n][i] == ops[i];
      ApplyAt(ops[..n], db, render, k);
    }
  }

  lemma {:induction false} DoRuns(op: Operation, db: Database, render: string -> string)
    requires Text(db, op.key) == op.before
    ensures Run(Do(op), db, render) == Some(Put(db, op.key, op.after, render))
  {
    var k := op.key;
    var rest := if op.after.Some? then [Create(k, op.after.value)] else [];
    if op.before.Some? {
      assert Do(op) == [Drop(k)] + rest && Do(op)[1..] == rest;
      CreateRuns(op, rest, db - {k}, render);
      assert Put(db - {k}, k, op.after, render) == Put(db, k, op.after, render);
    } else {
      assert Do(op) == rest;
      CreateRuns(op, rest, db, render);
    }
  }

  lemma {:induction false} CreateRuns(op: Operation, steps: seq<Step>, db: Database, render: string -> string)
    requires op.key !in db
    requires steps == if op.after.Some? then [Create(op.key, op.after.value)] else []
    ensures Run(steps, db, render) == Some(Put(db, op.key, op.after, render))
  {
    if op.after.Some? {
      assert steps[1..] == [];
    } else {
      assert db - {op.key} == db;
    }
  }

  /** The upgrade never meets a failing step, and leads where Apply says. */
  lemma {:induction false} UpRuns(ops: seq<Operation>, db: Database, render: string -> string)
    requires Ready(ops, db)
    ensures Run(Up(ops), db, render) == Some(Apply(ops, db, render))
  {
    if ops != [] {
      var n := |ops| - 1;
      assert Ready(ops[..n], db);
      UpRuns(ops[..n], db, render);
      ApplyAt(ops[..n], db, render, ops[n].key);
      RunConcat(Up(ops[..n]), Do(ops[n]), db, render);
      DoRuns(ops[n], Apply(ops[..n], db, render), render);
    }
  }

  /** Every stored text is one the server has rendered. */
  ghost predicate Stored(db: Database, render: string -> string) {
    forall k :: k in db ==> render(db[k]) == db[k]
  }

  /** The downgrade undoes the upgrade exactly. */
  lemma {:induction false} DownRuns(ops: seq<Operation>, db: Database, render: string -> string)
    requires Ready(ops, db) && Stored(db, render)
    ensures Run(Down(ops), Apply(ops, db, render), render) == Some(db)
  {
    if ops != [] {
      var n := |ops| - 1;
      var op := ops[n];
      var mid := Apply(ops[..n], db, render);
      assert Ready(ops[..n], db);
      DownRuns(ops[..n], db, render);
      ApplyAt(ops[..n], db, render, op.key);
      assert Text(mid, op.key) == op.before;
      UndoRuns(op, mid, db, render);
      RunConcat(Undo(op), Down(ops[..n]), Put(mid, op.key, op.after, render), render);
    }
  }

  lemma {:induction false} UndoRuns(op: Operation, mid: Database, db: Database, render: string -> string)
    requires Text(mid, op.key) == op.before == Text(db, op.key) && Stored(db, render)
    ensures Run(Undo(op), Put(mid, op.key, op.after, render), render) == Some(mid)
  {
    var next := Put(mid, op.key, op.after, render);
    var back := Operation(op.key, Text(next, op.key), op.before);
    assert Undo(op) == Do(back);
    DoRuns(back, next, render);
    assert Put(next, op.key, op.before, render) == mid;
  }
}
