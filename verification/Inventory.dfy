/**
 The inventories of CHECK constraints, their classification by name prefix, and
 the comparison of the models' inventory with the database's.
 */
module Inventory {
  import opened Lex

  datatype Key = Key(table: string, name: string)

  /** A dictionary is the list of its entries in insertion order. */
  datatype Entry = Entry(key: Key, sql: string)

  /** A key on both sides: the database's text and the model's. */
  datatype Change = Change(key: Key, current: string, wanted: string)

  datatype Class = Managed | Legacy | Other

  const MANAGED_PREFIX := "ck_"
  const LEGACY_PREFIX := "chk_"

  /** classify_constraint. */
  function Classify(name: string): Class {
    if MANAGED_PREFIX <= name then Managed
    else if LEGACY_PREFIX <= name then Legacy
    else Other
  }

  /** The two prefixes, which no name has both of. */
  lemma {:induction false} ClassifyIs(name: string, x: string)
    ensures Classify("ck_" + x) == Managed && Classify("chk_" + x) == Legacy
    ensures Classify(name) == Managed <==> "ck_" <= name
    ensures Classify(name) == Legacy <==> "chk_" <= name
    ensures Classify(name) == Other <==> !("ck_" <= name) && !("chk_" <= name)
  {
    assert ("chk_" + x)[1] == 'h' && "ck_"[1] == 'k';
    assert "chk_" <= name ==> name[1] == 'h';
    assert "ck_" <= name ==> name[1] == 'k';
  }

  predicate IsManaged(e: Entry) {
    Classify(e.key.name) == Managed
  }

  ghost predicate Distinct(rows: seq<Entry>) {
    forall i, j :: 0 <= i < j < |rows| ==> rows[i].key != rows[j].key
  }

  /** Lookup by key. */
  function Dict(rows: seq<Entry>): map<Key, string> {
    if rows == [] then map[]
    else Dict(rows[..|rows| - 1])[rows[|rows| - 1].key := rows[|rows| - 1].sql]
  }

  lemma {:induction false} DictHas(rows: seq<Entry>, k: Key)
    ensures k in Dict(rows) ==> Entry(k, Dict(rows)[k]) in rows
    ensures k in Dict(rows) <==> exists e :: e in rows && e.key == k
  {
    if rows != [] {
      DictHas(rows[..|rows| - 1], k);
      assert rows == rows[..|rows| - 1] + [rows[|rows| - 1]];
    }
  }

  lemma {:induction false} DictAt(rows: seq<Entry>, e: Entry)
    requires Distinct(rows) && e in rows
    ensures e.key in Dict(rows) && Dict(rows)[e.key] == e.sql
  {
    DictHas(rows, e.key);
  }

  // ------------------------------------------------------------- comprehensions

  /** The entries that pass, in order. */
  function Select(rows: seq<Entry>, keep: Entry -> bool): seq<Entry> {
    if rows == [] then []
    else
      var n := |rows| - 1;
      Select(rows[..n], keep) + if keep(rows[n]) then [rows[n]] else []
  }

  lemma {:induction false} SelectIs(rows: seq<Entry>, keep: Entry -> bool, e: Entry)
    ensures e in Select(rows, keep) <==> e in rows && keep(e)
  {
    if rows != [] {
      var n := |rows| - 1;
      SelectIs(rows[..n], keep, e);
      assert rows == rows[..n] + [rows[n]];
    }
  }

  lemma {:induction false} SelectDistinct(rows: seq<Entry>, keep: Entry -> bool)
    requires Distinct(rows)
    ensures Distinct(Select(rows, keep))
  {
    if rows != [] {
      var n := |rows| - 1;
      SelectDistinct(rows[..n], keep);
      var front := Select(rows[..n], keep);
      forall i | 0 <= i < |front|
        ensures front[i].key != rows[n].key
      {
        SelectIs(rows[..n], keep, front[i]);
      }
    }
  }

  /** The keys on both sides whose two texts pass, in order. */
  function Compare(rows: seq<Entry>, db: map<Key, string>, keep: (string, string) -> bool): seq<Change> {
    if rows == [] then []
    else
      var n := |rows| - 1;
      var e := rows[n];
      Compare(rows[..n], db, keep) +
      if e.key in db && keep(db[e.key], e.sql) then [Change(e.key, db[e.key], e.sql)] else []
  }

  lemma {:induction false} CompareIs(rows: seq<Entry>, db: map<Key, string>, keep: (string, string) -> bool, c: Change)
    ensures c in Compare(rows, db, keep) <==>
            && Entry(c.key, c.wanted) in rows && c.key in db && db[c.key] == c.current
            && keep(c.current, c.wanted)
  {
    if rows != [] {
      var n := |rows| - 1;
      CompareIs(rows[..n], db, keep, c);
      assert rows == rows[..n] + [rows[n]];
    }
  }

  ghost predicate DistinctChanges(cs: seq<Change>) {
    forall i, j :: 0 <= i < j < |cs| ==> cs[i].key != cs[j].key
  }

  lemma {:induction false} CompareDistinct(rows: seq<Entry>, db: map<Key, string>, keep: (string, string) -> bool)
    requires Distinct(rows)
    ensures DistinctChanges(Compare(rows, db, keep))
  {
    if rows != [] {
      var n := |rows| - 1;
      CompareDistinct(rows[..n], db, keep);
      var front := Compare(rows[..n], db, keep);
      forall i | 0 <= i < |front|
        ensures front[i].key != rows[n].key
      {
        CompareIs(rows[..n], db, keep, front[i]);
      }
    }
  }

  // ------------------------------------------------------------------ partition

  function ManagedRows(rows: seq<Entry>): seq<Entry> {
    Select(rows, IsManaged)
  }

  function LegacyRows(rows: seq<Entry>): seq<Entry> {
    Select(rows, (e: Entry) => !IsManaged(e))
  }

  /** partition_checks. */
  method PartitionChecks(checks: seq<Entry>) returns (managed: seq<Entry>, legacy: seq<Entry>)
    ensures managed == ManagedRows(checks) && legacy == LegacyRows(checks)
  {
    managed, legacy := [], [];
    for i := 0 to |checks|
      invariant managed == ManagedRows(checks[..i]) && legacy == LegacyRows(checks[..i])
    {
      assert checks[..i + 1][..i] == checks[..i];
      if Classify(checks[i].key.name) == Managed {
        managed := managed + [checks[i]];
      } else {
        legacy := legacy + [checks[i]];
      }
    }
    assert checks[..|checks|] == checks;
  }

  // ----------------------------------------------------------------------- diff

  datatype Diff = Diff(
    toAdd: seq<Entry>, toDropManaged: seq<Entry>, toReplace: seq<Change>,
    toDropLegacy: seq<Entry>, toReplaceLegacy: seq<Change>,
    representation: seq<Change>)

  /** The normal forms differ. */
  function Drifted(norm: string -> string): (string, string) -> bool {
    (current, wanted) => norm(current) != norm(wanted)
  }

  /** One normal form, two texts. */
  function Rerendered(norm: string -> string): (string, string) -> bool {
    (current, wanted) => norm(current) == norm(wanted) && Strip(current) != Strip(wanted)
  }

  function Missing(other: map<Key, string>): Entry -> bool {
    (e: Entry) => e.key !in other
  }

  function DiffOf(model: seq<Entry>, db: seq<Entry>, norm: string -> string): Diff {
    var mm, ml, dm, dl := ManagedRows(model), LegacyRows(model), ManagedRows(db), LegacyRows(db);
    Diff(
      Select(mm, Missing(Dict(dm))), Select(dm, Missing(Dict(mm))),
      Compare(mm, Dict(dm), Drifted(norm)),
      Select(dl, Missing(Dict(ml))), Compare(ml, Dict(dl), Drifted(norm)),
      Compare(mm, Dict(dm), Rerendered(norm)))
  }

  /** diff, without the conflict report. */
  method ComputeDiff(model: seq<Entry>, db: seq<Entry>, norm: string -> string) returns (d: Diff)
    ensures d == DiffOf(model, db, norm)
  {
    var modelManaged, modelLegacy := PartitionChecks(model);
    var dbManaged, dbLegacy := PartitionChecks(db);
    var toAdd, toReplace, representation := CompareManaged(modelManaged, Dict(dbManaged), norm);
    var toDropManaged := Unmatched(dbManaged, Dict(modelManaged));
    var toReplaceLegacy := CompareLegacy(modelLegacy, Dict(dbLegacy), norm);
    var toDropLegacy := Unmatched(dbLegacy, Dict(modelLegacy));
    d := Diff(toAdd, toDropManaged, toReplace, toDropLegacy, toReplaceLegacy, representation);
  }

  /** The loop of diff over the managed model constraints. */
  method CompareManaged(model: seq<Entry>, db: map<Key, string>, norm: string -> string)
    returns (toAdd: seq<Entry>, toReplace: seq<Change>, representation: seq<Change>)
    ensures toAdd == Select(model, Missing(db))
    ensures toReplace == Compare(model, db, Drifted(norm))
    ensures representation == Compare(model, db, Rerendered(norm))
  {
    toAdd, toReplace, representation := [], [], [];
    for i := 0 to |model|
      invariant toAdd == Select(model[..i], Missing(db))
      invariant toReplace == Compare(model[..i], db, Drifted(norm))
      invariant representation == Compare(model[..i], db, Rerendered(norm))
    {
      assert model[..i + 1][..i] == model[..i];
      var e := model[i];
      if e.key !in db {
        toAdd := toAdd + [e];
        continue;
      }
      var dbSql := db[e.key];
      if norm(dbSql) == norm(e.sql) {
        if Strip(dbSql) != Strip(e.sql) {
          representation := representation + [Change(e.key, dbSql, e.sql)];
        }
      } else {
        toReplace := toReplace + [Change(e.key, dbSql, e.sql)];
      }
    }
    assert model[..|model|] == model;
  }

  /** The loop of diff over the other model constraints. */
  method CompareLegacy(model: seq<Entry>, db: map<Key, string>, norm: string -> string) returns (r: seq<Change>)
    ensures r == Compare(model, db, Drifted(norm))
  {
    r := [];
    for i := 0 to |model|
      invariant r == Compare(model[..i], db, Drifted(norm))
    {
      assert model[..i + 1][..i] == model[..i];
      var e := model[i];
      if e.key !in db {
        continue;
      }
      var dbSql := db[e.key];
      if norm(dbSql) != norm(e.sql) {
        r := r + [Change(e.key, dbSql, e.sql)];
      }
    }
    assert model[..|model|] == model;
  }

  method Unmatched(rows: seq<Entry>, other: map<Key, string>) returns (r: seq<Entry>)
    ensures r == Select(rows, Missing(other))
  {
    r := [];
    for i := 0 to |rows|
      invariant r == Select(rows[..i], Missing(other))
    {
      assert rows[..i + 1][..i] == rows[..i];
      if rows[i].key !in other {
        r := r + [rows[i]];
      }
    }
    assert rows[..|rows|] == rows;
  }

  // ------------------------------------------------------------- what diff says

  /** Membership in one part of the inventory is decided by the name alone. */
  lemma {:induction false} PartIs(rows: seq<Entry>, k: Key)
    requires Distinct(rows)
    ensures k in Dict(ManagedRows(rows)) <==> k in Dict(rows) && "ck_" <= k.name
    ensures k in Dict(LegacyRows(rows)) <==> k in Dict(rows) && !("ck_" <= k.name)
    ensures k in Dict(ManagedRows(rows)) ==> Dict(ManagedRows(rows))[k] == Dict(rows)[k]
    ensures k in Dict(LegacyRows(rows)) ==> Dict(LegacyRows(rows))[k] == Dict(rows)[k]
  {
    PartDict(rows, IsManaged, k);
    PartDict(rows, (e: Entry) => !IsManaged(e), k);
  }

  lemma {:induction false} PartDict(rows: seq<Entry>, keep: Entry -> bool, k: Key)
    requires Distinct(rows) && forall x, y :: keep(Entry(k, x)) == keep(Entry(k, y))
    ensures var part := Dict(Select(rows, keep));
            && (k in part <==> k in Dict(rows) && keep(Entry(k, "")))
            && (k in part ==> part[k] == Dict(rows)[k])
  {
    var part := Select(rows, keep);
    DictHas(rows, k);
    DictHas(part, k);
    if k in Dict(rows) {
      var e := Entry(k, Dict(rows)[k]);
      SelectIs(rows, keep, e);
      SelectDistinct(rows, keep);
      if keep(e) {
        DictAt(part, e);
      }
    }
    if k in Dict(part) {
      var e := Entry(k, Dict(part)[k]);
      SelectIs(rows, keep, e);
      DictAt(rows, e);
    }
  }

  /** Every list of the comparison, key by key. */
  lemma {:induction false} DiffIs(model: seq<Entry>, db: seq<Entry>, norm: string -> string, k: Key, x: string, y: string)
    requires Distinct(model) && Distinct(db)
    ensures var d := DiffOf(model, db, norm);
            var m, b := Dict(model), Dict(db);
            var managed := "ck_" <= k.name;
            && (Entry(k, x) in d.toAdd <==> managed && k in m && m[k] == x && k !in b)
            && (Entry(k, x) in d.toDropManaged <==> managed && k in b && b[k] == x && k !in m)
            && (Entry(k, x) in d.toDropLegacy <==> !managed && k in b && b[k] == x && k !in m)
            && (Change(k, y, x) in d.toReplace <==>
                  managed && k in m && m[k] == x && k in b && b[k] == y && norm(x) != norm(y))
            && (Change(k, y, x) in d.toReplaceLegacy <==>
                  !managed && k in m && m[k] == x && k in b && b[k] == y && norm(x) != norm(y))
            && (Change(k, y, x) in d.representation <==>
                  managed && k in m && m[k] == x && k in b && b[k] == y && norm(x) == norm(y) && Strip(x) != Strip(y))
  {
    PartIs(model, k);
    PartIs(db, k);
    var mm, ml, dm, dl := ManagedRows(model), LegacyRows(model), ManagedRows(db), LegacyRows(db);
    RowIs(model, IsManaged, k, x);
    RowIs(model, (e: Entry) => !IsManaged(e), k, x);
    RowIs(db, IsManaged, k, x);
    RowIs(db, (e: Entry) => !IsManaged(e), k, x);
    SelectIs(mm, Missing(Dict(dm)), Entry(k, x));
    SelectIs(dm, Missing(Dict(mm)), Entry(k, x));
    SelectIs(dl, Missing(Dict(ml)), Entry(k, x));
    CompareIs(mm, Dict(dm), Drifted(norm), Change(k, y, x));
    CompareIs(ml, Dict(dl), Drifted(norm), Change(k, y, x));
    CompareIs(mm, Dict(dm), Rerendered(norm), Change(k, y, x));
  }

  lemma {:induction false} RowIs(rows: seq<Entry>, keep: Entry -> bool, k: Key, x: string)
    requires Distinct(rows)
    ensures Entry(k, x) in Select(rows, keep) <==> k in Dict(rows) && Dict(rows)[k] == x && keep(Entry(k, x))
  {
    SelectIs(rows, keep, Entry(k, x));
    DictHas(rows, k);
    if Entry(k, x) in rows {
      DictAt(rows, Entry(k, x));
    }
  }
}
