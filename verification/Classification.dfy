/** The catalogue of organisation types. */
module Classification {
  // app/admin/classification.py: guarded handlers over a database session, and the
  // constraints of the tables (app/identity/models/organisation_catalogues.py,
  // organisation.py).

  import opened Lex

  datatype Category = Category(code: string, title: string, sortOrder: int, active: bool)

  /** A type without a category has null there, which the table refuses. */
  datatype OrgType = OrgType(code: string, title: string, category: Option<string>, sortOrder: int, active: bool)

  datatype Org = Org(typeCode: Option<string>, deleted: bool)

  datatype Db = Db(categories: map<nat, Category>, types: map<nat, OrgType>, orgs: map<nat, Org>)

  /** The form's display_order: absent, a number, or text int() refuses. */
  datatype Order = Blank | Number(n: int) | Garbage

  datatype Reply = Denied | NotFound | Refused | RolledBack | Done

  // ------------------------------------------------------------- table constraints

  predicate OrderFits(n: int) {
    -0x8000_0000 <= n < 0x8000_0000
  }

  predicate CategoryFits(c: Category) {
    |c.code| <= 50 && |c.title| <= 120 && OrderFits(c.sortOrder)
  }

  predicate TypeFits(t: OrgType) {
    |t.code| <= 40 && |t.title| <= 120 && t.category.Some? && OrderFits(t.sortOrder)
  }

  predicate HasCategory(db: Db, code: string) {
    exists i :: i in db.categories && db.categories[i].code == code
  }

  predicate HasType(db: Db, code: string) {
    exists i :: i in db.types && db.types[i].code == code
  }

  predicate CategoryCodesUnique(db: Db) {
    forall i, j :: i in db.categories && j in db.categories && db.categories[i].code == db.categories[j].code ==> i == j
  }

  predicate TypeCodesUnique(db: Db) {
    forall i, j :: i in db.types && j in db.types && db.types[i].code == db.types[j].code ==> i == j
  }

  predicate CategoriesReferenced(db: Db) {
    forall i :: i in db.types && db.types[i].category.Some? ==> HasCategory(db, db.types[i].category.value)
  }

  predicate TypesReferenced(db: Db) {
    forall i :: i in db.orgs && db.orgs[i].typeCode.Some? ==> HasType(db, db.orgs[i].typeCode.value)
  }

  /** What PostgreSQL accepts at commit. */
  predicate Accepted(db: Db) {
    && CategoryCodesUnique(db) && TypeCodesUnique(db) && CategoriesReferenced(db) && TypesReferenced(db)
    && (forall i :: i in db.categories ==> CategoryFits(db.categories[i]))
    && (forall i :: i in db.types ==> TypeFits(db.types[i]))
  }

  // ---------------------------------------------------------------------- queries

  predicate CategoryTaken(db: Db, code: string, id: nat) {
    exists i :: i in db.categories && i != id && db.categories[i].code == code
  }

  predicate TypeTaken(db: Db, code: string, id: nat) {
    exists i :: i in db.types && i != id && db.types[i].code == code
  }

  function TypesOf(db: Db, categoryCode: string): set<nat> {
    set i | i in db.types && db.types[i].category == Some(categoryCode)
  }

  function ActiveTypesOf(db: Db, categoryCode: string): set<nat> {
    set i | i in db.types && db.types[i].category == Some(categoryCode) && db.types[i].active
  }

  /** Organisations that are not deleted and carry this type code. */
  function Users(db: Db, typeCode: string): set<nat> {
    set i | i in db.orgs && db.orgs[i].typeCode == Some(typeCode) && !db.orgs[i].deleted
  }

  // --------------------------------------------------------------------- handlers

  /** What a handler does before the commit: it stops with a reply, or hands over
      the tables as it has changed them. */
  datatype Plan = Stop(reply: Reply) | Write(after: Db)

  /** int(display_order), or the value that stands in for an empty field. */
  function OrderOr(order: Order, otherwise: int): int {
    if order.Number? then order.n else otherwise
  }

  function NewName(name: string, c: Category): string {
    Strip(if name == "" then c.code else name)
  }

  function NewCode(code: string, t: OrgType): string {
    Lower(Strip(if code == "" then t.code else code))
  }

  function NewTitle(title: string, t: OrgType): string {
    Strip(if title == "" then t.title else title)
  }

  function WithCategory(db: Db, id: nat, c: Category): Db {
    db.(categories := db.categories[id := c])
  }

  function WithType(db: Db, id: nat, t: OrgType): Db {
    db.(types := db.types[id := t])
  }

  /** id is the key the server draws; a key in use is a violation at the commit. */
  function CategoryCreated(db: Db, id: nat, name: string, order: Order): Plan {
    var n := Strip(name);
    if n == "" || HasCategory(db, Lower(n)) then Stop(Refused)
    else if order.Garbage? || id in db.categories then Stop(RolledBack)
    else Write(WithCategory(db, id, Category(Lower(n), n, OrderOr(order, 0), true)))
  }

  function CategoryEdited(db: Db, id: nat, name: string, order: Order, active: bool): Plan {
    if id !in db.categories then Stop(NotFound)
    else
      var c := db.categories[id];
      var n := NewName(name, c);
      if n == "" || CategoryTaken(db, Lower(n), id) then Stop(Refused)
      else if Lower(n) != c.code && TypesOf(db, c.code) != {} then Stop(Refused)
      else CategoryApplied(db, id, n, order, active)
  }

  /** The part of category_edit after the guards. */
  function CategoryApplied(db: Db, id: nat, n: string, order: Order, active: bool): Plan
    requires id in db.categories
  {
    if order.Garbage? then Stop(RolledBack)
    else Write(WithCategory(db, id, Category(Lower(n), n, OrderOr(order, db.categories[id].sortOrder), active)))
  }

  function CategoryDeactivated(db: Db, id: nat): Plan {
    if id !in db.categories then Stop(NotFound)
    else
      var c := db.categories[id];
      if ActiveTypesOf(db, c.code) != {} || Users(db, c.code) != {} then Stop(Refused)
      else Write(WithCategory(db, id, c.(active := false)))
  }

  function CategoryActivated(db: Db, id: nat): Plan {
    if id !in db.categories then Stop(NotFound)
    else Write(WithCategory(db, id, db.categories[id].(active := true)))
  }

  /** category "" stands for a form without one. */
  function TypeCreated(db: Db, id: nat, code: string, title: string, category: string, order: Order): Plan {
    var c, l := Lower(Strip(code)), Strip(title);
    if c == "" || l == "" || HasType(db, c) then Stop(Refused)
    else if category != "" && !HasCategory(db, category) then Stop(Refused)
    else if order.Garbage? || id in db.types then Stop(RolledBack)
    else Write(WithType(db, id, OrgType(c, l, if category == "" then None else Some(category), OrderOr(order, 0), true)))
  }

  function TypeEdited(db: Db, id: nat, code: string, title: string, newCategory: string, target: string,
                      order: Order, active: bool): Plan {
    if id !in db.types then Stop(NotFound)
    else
      var t := db.types[id];
      if NewCode(code, t) == "" || NewTitle(title, t) == "" || TypeTaken(db, NewCode(code, t), id) then Stop(Refused)
      else if newCategory != "" && Some(newCategory) != t.category && !HasCategory(db, newCategory) then Stop(Refused)
      else TypeApplied(db, id, NewCode(code, t), NewTitle(title, t), target, order, active)
  }

  /** The part of type_edit after the guards. */
  function TypeApplied(db: Db, id: nat, code: string, title: string, target: string, order: Order, active: bool): Plan
    requires id in db.types
  {
    if order.Garbage? then Stop(RolledBack)
    else Write(WithType(db, id, Edited(db, db.types[id], code, title, target, order, active)))
  }

  function Edited(db: Db, t: OrgType, code: string, title: string, target: string, order: Order, active: bool): OrgType {
    OrgType(code, title, if target != "" && HasCategory(db, target) then Some(target) else t.category,
            OrderOr(order, t.sortOrder), active)
  }

  function TypeDeactivated(db: Db, id: nat): Plan {
    if id !in db.types then Stop(NotFound)
    else if Users(db, db.types[id].code) != {} then Stop(Refused)
    else Write(WithType(db, id, db.types[id].(active := false)))
  }

  function TypeActivated(db: Db, id: nat): Plan {
    if id !in db.types then Stop(NotFound)
    else Write(WithType(db, id, db.types[id].(active := true)))
  }

  /** The request a handler is given; the session's user may lack the role. */
  datatype Request =
    | CreateCategory(id: nat, name: string, order: Order)
    | EditCategory(id: nat, name: string, order: Order, active: bool)
    | DeactivateCategory(id: nat)
    | ActivateCategory(id: nat)
    | CreateType(id: nat, code: string, title: string, category: string, order: Order)
    | EditType(id: nat, code: string, title: string, newCategory: string, target: string, order: Order, active: bool)
    | DeactivateType(id: nat)
    | ActivateType(id: nat)

  function Planned(db: Db, q: Request): Plan {
    match q
    case CreateCategory(id, name, order) => CategoryCreated(db, id, name, order)
    case EditCategory(id, name, order, active) => CategoryEdited(db, id, name, order, active)
    case DeactivateCategory(id) => CategoryDeactivated(db, id)
    case ActivateCategory(id) => CategoryActivated(db, id)
    case CreateType(id, code, title, category, order) => TypeCreated(db, id, code, title, category, order)
    case EditType(id, code, title, newCategory, target, order, active) =>
      TypeEdited(db, id, code, title, newCategory, target, order, active)
    case DeactivateType(id) => TypeDeactivated(db, id)
    case ActivateType(id) => TypeActivated(db, id)
  }

  /** The plan, then the commit, which PostgreSQL may refuse. */
  function Handle(db: Db, permitted: bool, q: Request): (Db, Reply) {
    if !permitted then (db, Denied) else Finish(db, Planned(db, q))
  }

  function Finish(db: Db, p: Plan): (Db, Reply) {
    match p
    case Stop(r) => (db, r)
    case Write(after) => if Accepted(after) then (after, Done) else (db, RolledBack)
  }

  /** The same on a database that checks nothing. */
  function Trusting(db: Db, permitted: bool, q: Request): Db {
    if permitted && Planned(db, q).Write? then Planned(db, q).after else db
  }

  lemma {:induction false} Overwritten<T>(rows: map<nat, T>, id: nat, first: T, last: T)
    ensures rows[id := first][id := last] == rows[id := last]
  {
  }

  // ------------------------------------------------------------------ the session

  /** The session: what is stored, and the rows as the handler has changed them. */
  class Session {
    var stored: Db
    var work: Db

    ghost predicate Valid()
      reads this
    {
      work == stored && Accepted(stored)
    }

    constructor (db: Db)
      requires Accepted(db)
      ensures Valid() && stored == db
    {
      stored, work := db, db;
    }

    method Commit() returns (r: Reply)
      modifies this
      ensures work == stored
      ensures if Accepted(old(work)) then r == Done && stored == old(work) else r == RolledBack && stored == old(stored)
    {
      if Accepted(work) {
        stored := work;
        return Done;
      }
      work := stored;
      return RolledBack;
    }

    method Rollback()
      modifies this
      ensures stored == old(stored) && work == stored
    {
      work := stored;
    }

    method SetCategory(id: nat, c: Category)
      modifies this`work
      ensures work == WithCategory(old(work), id, c)
    {
      work := work.(categories := work.categories[id := c]);
    }

    method SetType(id: nat, t: OrgType)
      modifies this`work
      ensures work == WithType(old(work), id, t)
    {
      work := work.(types := work.types[id := t]);
    }

    /** category_create; id is the key the server draws. */
    method CategoryCreate(permitted: bool, id: nat, name: string, order: Order) returns (r: Reply)
      requires Valid()
      modifies this
      ensures Valid() && (stored, r) == Handle(old(stored), permitted, CreateCategory(id, name, order))
      ensures r == Done <==>
              && permitted && id !in old(stored.categories)
              && 0 < |Strip(name)| <= 50 && !HasCategory(old(stored), Lower(Strip(name))) && OrderStorable(order)
      ensures stored == if r != Done then old(stored) else
              WithCategory(old(stored), id, Category(Lower(Strip(name)), Strip(name), OrderOr(order, 0), true))
    {
      WriteSafe(work, CreateCategory(id, name, order));
      if !permitted {
        return Denied;
      }
      var n := Strip(name);
      if n == "" {
        return Refused;
      }
      if HasCategory(work, Lower(n)) {
        return Refused;
      }
      if order.Garbage? || id in work.categories {
        Rollback();
        return RolledBack;
      }
      SetCategory(id, Category(Lower(n), n, if order.Number? then order.n else 0, true));
      r := Commit();
    }

    /** category_edit: the row's fields are assigned one by one, then committed. */
    method CategoryEdit(permitted: bool, id: nat, name: string, order: Order, active: bool) returns (r: Reply)
      requires Valid()
      modifies this
      ensures Valid() && (stored, r) == Handle(old(stored), permitted, EditCategory(id, name, order, active))
    {
      if !permitted {
        return Denied;
      }
      if id !in work.categories {
        return NotFound;
      }
      var c := work.categories[id];
      var n := Strip(if name == "" then c.code else name);
      if n == "" || CategoryTaken(work, Lower(n), id) {
        return Refused;
      }
      if Lower(n) != c.code && |TypesOf(work, c.code)| > 0 {
        return Refused;
      }
      r := ApplyCategory(id, n, order, active);
    }

    /** The assignments of category_edit. */
    method ApplyCategory(id: nat, n: string, order: Order, active: bool) returns (r: Reply)
      requires Valid() && id in stored.categories
      modifies this
      ensures Valid() && (stored, r) == Finish(old(stored), CategoryApplied(old(stored), id, n, order, active))
    {
      var row := work.categories[id].(code := Lower(n), title := n);
      SetCategory(id, row);
      if order.Garbage? {
        Rollback();
        return RolledBack;
      }
      if order.Number? {
        row := row.(sortOrder := order.n);
      }
      row := row.(active := active);
      SetCategory(id, row);
      Overwritten(old(work).categories, id, old(work).categories[id].(code := Lower(n), title := n), row);
      r := Commit();
    }

    /** category_deactivate: nothing is written while an active type or a live
        organisation of the category's own code is counted, and nothing else stops it. */
    method CategoryDeactivate(permitted: bool, id: nat) returns (r: Reply)
      requires Valid()
      modifies this
      ensures Valid() && (stored, r) == Handle(old(stored), permitted, DeactivateCategory(id))
      ensures r == Done <==>
              && permitted && id in old(stored.categories)
              && ActiveTypesOf(old(stored), old(stored).categories[id].code) == {}
              && Users(old(stored), old(stored).categories[id].code) == {}
      ensures r == Done ==> stored.categories == old(stored.categories)[id := old(stored).categories[id].(active := false)]
      ensures stored.types == old(stored.types) && stored.orgs == old(stored.orgs)
      ensures r != Done ==> stored == old(stored) && r != RolledBack
    {
      WriteSafe(work, DeactivateCategory(id));
      if !permitted {
        return Denied;
      }
      if id !in work.categories {
        return NotFound;
      }
      var c := work.categories[id];
      var activeTypes, usedByOrgs := |ActiveTypesOf(work, c.code)|, |Users(work, c.code)|;
      if activeTypes > 0 || usedByOrgs > 0 {
        return Refused;
      }
      SetCategory(id, c.(active := false));
      r := Commit();
    }

    /** category_activate never fails on a category that is there. */
    method CategoryActivate(permitted: bool, id: nat) returns (r: Reply)
      requires Valid()
      modifies this
      ensures Valid() && (stored, r) == Handle(old(stored), permitted, ActivateCategory(id))
      ensures r == if !permitted then Denied else if id in old(stored.categories) then Done else NotFound
      ensures stored.types == old(stored.types) && stored.orgs == old(stored.orgs)
      ensures r == Done ==> stored.categories == old(stored.categories)[id := old(stored).categories[id].(active := true)]
      ensures r != Done ==> stored == old(stored)
    {
      WriteSafe(work, ActivateCategory(id));
      if !permitted {
        return Denied;
      }
      if id !in work.categories {
        return NotFound;
      }
      SetCategory(id, work.categories[id].(active := true));
      r := Commit();
    }

    /** type_create. */
    method TypeCreate(permitted: bool, id: nat, code: string, title: string, category: string, order: Order)
      returns (r: Reply)
      requires Valid()
      modifies this
      ensures Valid() && (stored, r) == Handle(old(stored), permitted, CreateType(id, code, title, category, order))
      ensures r == Done <==>
              && permitted && id !in old(stored.types) && 0 < |Strip(code)| <= 40 && 0 < |Strip(title)| <= 120
              && !HasType(old(stored), Lower(Strip(code))) && category != "" && HasCategory(old(stored), category)
              && OrderStorable(order)
      ensures stored == if r != Done then old(stored) else
              WithType(old(stored), id, OrgType(Lower(Strip(code)), Strip(title), Some(category), OrderOr(order, 0), true))
    {
      WriteSafe(work, CreateType(id, code, title, category, order));
      if !permitted {
        return Denied;
      }
      var c, l := Lower(Strip(code)), Strip(title);
      if c == "" || l == "" || HasType(work, c) {
        return Refused;
      }
      if category != "" && !HasCategory(work, category) {
        return Refused;
      }
      if order.Garbage? || id in work.types {
        Rollback();
        return RolledBack;
      }
      SetType(id, OrgType(c, l, if category == "" then None else Some(category), if order.Number? then order.n else 0, true));
      r := Commit();
    }

    /** type_edit: the category checked is not the one applied. */
    method TypeEdit(permitted: bool, id: nat, code: string, title: string, newCategory: string, target: string,
                    order: Order, active: bool) returns (r: Reply)
      requires Valid()
      modifies this
      ensures Valid()
      ensures !permitted ==> r == Denied && stored == old(stored)
      ensures permitted ==>
                (stored, r) ==
                Finish(old(stored), TypeEdited(old(stored), id, code, title, newCategory, target, order, active))
    {
      if !permitted {
        return Denied;
      }
      if id !in work.types {
        return NotFound;
      }
      var t := work.types[id];
      var c := Lower(Strip(if code == "" then t.code else code));
      var l := Strip(if title == "" then t.title else title);
      if c == "" || l == "" || TypeTaken(work, c, id) {
        return Refused;
      }
      if newCategory != "" && Some(newCategory) != t.category && !HasCategory(work, newCategory) {
        return Refused;
      }
      r := ApplyType(id, c, l, target, order, active);
    }

    /** The assignments of type_edit. */
    method ApplyType(id: nat, code: string, title: string, target: string, order: Order, active: bool) returns (r: Reply)
      requires Valid() && id in stored.types
      modifies this
      ensures Valid() && (stored, r) == Finish(old(stored), TypeApplied(old(stored), id, code, title, target, order, active))
    {
      var row := work.types[id].(code := code, title := title);
      SetType(id, row);
      if order.Garbage? {
        Rollback();
        return RolledBack;
      }
      if order.Number? {
        row := row.(sortOrder := order.n);
      }
      row := row.(active := active);
      if target != "" && Some(target) != row.category && HasCategory(work, target) {
        row := row.(category := Some(target));
      }
      SetType(id, row);
      Overwritten(old(work).types, id, old(work).types[id].(code := code, title := title), row);
      r := Commit();
    }

    /** type_deactivate: only a live organisation of the type stops it. */
    method TypeDeactivate(permitted: bool, id: nat) returns (r: Reply)
      requires Valid()
      modifies this
      ensures Valid() && (stored, r) == Handle(old(stored), permitted, DeactivateType(id))
      ensures r == Done <==>
              permitted && id in old(stored.types) && Users(old(stored), old(stored).types[id].code) == {}
      ensures r == Done ==> stored.types == old(stored.types)[id := old(stored).types[id].(active := false)]
      ensures stored.categories == old(stored.categories) && stored.orgs == old(stored.orgs)
      ensures r != Done ==> stored == old(stored) && r != RolledBack
    {
      WriteSafe(work, DeactivateType(id));
      if !permitted {
        return Denied;
      }
      if id !in work.types {
        return NotFound;
      }
      var t := work.types[id];
      if |Users(work, t.code)| > 0 {
        return Refused;
      }
      SetType(id, t.(active := false));
      r := Commit();
    }

    /** type_activate never fails on a type that is there. */
    method TypeActivate(permitted: bool, id: nat) returns (r: Reply)
      requires Valid()
      modifies this
      ensures Valid() && (stored, r) == Handle(old(stored), permitted, ActivateType(id))
      ensures r == if !permitted then Denied else if id in old(stored.types) then Done else NotFound
      ensures stored.categories == old(stored.categories) && stored.orgs == old(stored.orgs)
      ensures r == Done ==> stored.types == old(stored.types)[id := old(stored).types[id].(active := true)]
      ensures r != Done ==> stored == old(stored)
    {
      WriteSafe(work, ActivateType(id));
      if !permitted {
        return Denied;
      }
      if id !in work.types {
        return NotFound;
      }
      SetType(id, work.types[id].(active := true));
      r := Commit();
    }

    /** check_category_dependencies: "safe" exactly when the deactivation would be
        carried out; None for an unknown id. */
    method CheckCategory(id: nat) returns (safe: Option<bool>)
      requires Valid()
      ensures safe.None? <==> id !in stored.categories
      ensures safe.Some? ==> (safe.value <==> Handle(stored, true, DeactivateCategory(id)).1 == Done)
    {
      if id !in stored.categories {
        return None;
      }
      var c := stored.categories[id];
      WriteSafe(stored, DeactivateCategory(id));
      safe := Some(|ActiveTypesOf(stored, c.code)| == 0 && |Users(stored, c.code)| == 0);
    }

    /** check_type_dependencies. */
    method CheckType(id: nat) returns (safe: Option<bool>)
      requires Valid()
      ensures safe.None? <==> id !in stored.types
      ensures safe.Some? ==> (safe.value <==> Handle(stored, true, DeactivateType(id)).1 == Done)
    {
      if id !in stored.types {
        return None;
      }
      WriteSafe(stored, DeactivateType(id));
      safe := Some(|Users(stored, stored.types[id].code)| == 0);
    }
  }

  // ---------------------------------------------------- what the guards are worth

  ghost predicate Carried(db: Db, typeCode: string) {
    exists o :: o in db.orgs && db.orgs[o].typeCode == Some(typeCode)
  }

  /** A category row may change when its code is free, and its old code, if it
      changes, is used by no type. */
  lemma {:induction false} CategoryWritable(db: Db, id: nat, c: Category)
    requires Accepted(db) && !CategoryTaken(db, c.code, id)
    requires id in db.categories ==> db.categories[id].code == c.code || TypesOf(db, db.categories[id].code) == {}
    ensures Accepted(WithCategory(db, id, c)) <==> CategoryFits(c)
  {
    var after := WithCategory(db, id, c);
    assert after.categories[id] == c;
    forall i | i in after.types
      ensures HasCategory(after, after.types[i].category.value)
    {
      assert TypeFits(db.types[i]);
      assert i in TypesOf(db, db.types[i].category.value);
      var k :| k in db.categories && db.categories[k].code == db.types[i].category.value;
      assert k in after.categories && after.categories[k].code == db.types[i].category.value;
    }
    forall i | i in after.orgs && after.orgs[i].typeCode.Some?
      ensures HasType(after, after.orgs[i].typeCode.value)
    {
      assert HasType(db, db.orgs[i].typeCode.value);
    }
  }

  /** A type row may change when its code is free, its category exists, and its old
      code, if it changes, is carried by no organisation, deleted ones included. */
  lemma {:induction false} TypeWritable(db: Db, id: nat, t: OrgType)
    requires Accepted(db) && !TypeTaken(db, t.code, id) && (t.category.Some? ==> HasCategory(db, t.category.value))
    ensures Accepted(WithType(db, id, t)) <==>
            TypeFits(t) && (id in db.types && db.types[id].code != t.code ==> !Carried(db, db.types[id].code))
  {
    var after := WithType(db, id, t);
    assert after.types[id] == t;
    forall i | i in after.types && after.types[i].category.Some?
      ensures HasCategory(after, after.types[i].category.value)
    {
      var code := after.types[i].category.value;
      assert HasCategory(db, code);
      var k :| k in db.categories && db.categories[k].code == code;
      assert k in after.categories;
    }
    if id in db.types && db.types[id].code != t.code && Carried(db, db.types[id].code) {
      var o :| o in db.orgs && db.orgs[o].typeCode == Some(db.types[id].code);
      assert !HasType(after, db.types[id].code);
      assert !TypesReferenced(after);
    } else {
      forall i | i in after.orgs && after.orgs[i].typeCode.Some?
        ensures HasType(after, after.orgs[i].typeCode.value)
      {
        var k :| k in db.types && db.types[k].code == db.orgs[i].typeCode.value;
        assert k in after.types;
      }
    }
  }

  predicate OrderStorable(order: Order) {
    match order
    case Blank => true
    case Number(n) => OrderFits(n)
    case Garbage => false
  }

  /** What no guard asks: that texts and numbers fit their columns, that a type has
      a category, and that no organisation carries the code a type gives up. */
  ghost predicate Storable(db: Db, q: Request) {
    match q
    case CreateCategory(id, name, order) => |Strip(name)| <= 50 && OrderStorable(order)
    case EditCategory(id, name, order, active) =>
      id in db.categories ==> |NewName(name, db.categories[id])| <= 50 && OrderStorable(order)
    case CreateType(id, code, title, category, order) =>
      |Strip(code)| <= 40 && |Strip(title)| <= 120 && category != "" && OrderStorable(order)
    case EditType(id, code, title, newCategory, target, order, active) =>
      id in db.types ==>
        && |NewCode(code, db.types[id])| <= 40 && |NewTitle(title, db.types[id])| <= 120 && OrderStorable(order)
        && (NewCode(code, db.types[id]) != db.types[id].code ==> !Carried(db, db.types[id].code))
    case _ => true
  }

  /** The guards leave the database exactly the conditions of Storable to check:
      without them no code is taken twice and no reference is broken. */
  lemma {:induction false} WriteSafe(db: Db, q: Request)
    requires Accepted(db)
    ensures Planned(db, q).Write? ==> (Accepted(Planned(db, q).after) <==> Storable(db, q))
  {
    if Planned(db, q).Write? {
      if q.CreateCategory? || q.EditCategory? || q.DeactivateCategory? || q.ActivateCategory? {
        CategoryWriteSafe(db, q);
      } else {
        TypeWriteSafe(db, q);
      }
    }
  }

  lemma {:induction false} CategoryWriteSafe(db: Db, q: Request)
    requires Accepted(db) && Planned(db, q).Write?
    requires q.CreateCategory? || q.EditCategory? || q.DeactivateCategory? || q.ActivateCategory?
    ensures Accepted(Planned(db, q).after) <==> Storable(db, q)
  {
    match q
    case CreateCategory(id, name, order) =>
      LowerKeeps(Strip(name));
      CategoryWritable(db, id, Category(Lower(Strip(name)), Strip(name), OrderOr(order, 0), true));
    case EditCategory(id, name, order, active) =>
      var c := db.categories[id];
      assert CategoryFits(c);
      LowerKeeps(NewName(name, c));
      CategoryWritable(db, id, Category(Lower(NewName(name, c)), NewName(name, c), OrderOr(order, c.sortOrder), active));
    case DeactivateCategory(id) => CategoryWritable(db, id, db.categories[id].(active := false));
    case ActivateCategory(id) => CategoryWritable(db, id, db.categories[id].(active := true));
  }

  lemma {:induction false} TypeWriteSafe(db: Db, q: Request)
    requires Accepted(db) && Planned(db, q).Write?
    requires q.CreateType? || q.EditType? || q.DeactivateType? || q.ActivateType?
    ensures Accepted(Planned(db, q).after) <==> Storable(db, q)
  {
    match q
    case CreateType(id, code, title, category, order) =>
      LowerKeeps(Strip(code));
      TypeWritable(db, id, OrgType(Lower(Strip(code)), Strip(title), if category == "" then None else Some(category),
                                   OrderOr(order, 0), true));
    case EditType(id, code, title, newCategory, target, order, active) =>
      var t := db.types[id];
      assert TypeFits(t);
      TypeWritable(db, id, Edited(db, t, NewCode(code, t), NewTitle(title, t), target, order, active));
    case DeactivateType(id) =>
      assert TypeFits(db.types[id]);
      TypeWritable(db, id, db.types[id].(active := false));
    case ActivateType(id) =>
      assert TypeFits(db.types[id]);
      TypeWritable(db, id, db.types[id].(active := true));
  }

  lemma {:induction false} LowerKeeps(s: string)
    ensures |Lower(s)| == |s|
  {
  }

  function HandleAll(db: Db, qs: seq<(bool, Request)>): Db
    decreases |qs|
  {
    if qs == [] then db else HandleAll(Handle(db, qs[0].0, qs[0].1).0, qs[1..])
  }

  function TrustAll(db: Db, qs: seq<(bool, Request)>): Db
    decreases |qs|
  {
    if qs == [] then db else TrustAll(Trusting(db, qs[0].0, qs[0].1), qs[1..])
  }

  /** Every request of the run is storable where it arrives, if it writes at all. */
  ghost predicate AllStorable(db: Db, qs: seq<(bool, Request)>)
    decreases |qs|
  {
    qs == [] ||
    (&& (qs[0].0 && Planned(db, qs[0].1).Write? ==> Storable(db, qs[0].1))
     && AllStorable(Trusting(db, qs[0].0, qs[0].1), qs[1..]))
  }

  /** The tables are consistent before, during and after the run. */
  ghost predicate AlwaysAccepted(db: Db, qs: seq<(bool, Request)>) {
    forall k :: 0 <= k <= |qs| ==> Accepted(TrustAll(db, qs[..k]))
  }

  lemma {:induction false} AlwaysAcceptedStep(db: Db, qs: seq<(bool, Request)>)
    requires qs != []
    ensures AlwaysAccepted(db, qs) <==> Accepted(db) && AlwaysAccepted(Trusting(db, qs[0].0, qs[0].1), qs[1..])
  {
    var next := Trusting(db, qs[0].0, qs[0].1);
    assert TrustAll(db, qs[..0]) == db;
    forall k | 0 <= k < |qs|
      ensures TrustAll(db, qs[..k + 1]) == TrustAll(next, qs[1..][..k])
    {
      assert qs[..k + 1][1..] == qs[1..][..k];
    }
    if Accepted(db) && AlwaysAccepted(next, qs[1..]) {
      forall k | 0 <= k <= |qs|
        ensures Accepted(TrustAll(db, qs[..k]))
      {
        if k > 0 {
          assert TrustAll(db, qs[..k - 1 + 1]) == TrustAll(next, qs[1..][..k - 1]);
        }
      }
    }
    if AlwaysAccepted(db, qs) {
      forall k | 0 <= k <= |qs[1..]|
        ensures Accepted(TrustAll(next, qs[1..][..k]))
      {
        assert Accepted(TrustAll(db, qs[..k + 1]));
      }
    }
  }

  /** On a database that checks nothing the tables stay consistent through a run -
      codes unique, every type in an existing category, every organisation of an
      existing type - exactly when each request is storable where it arrives; the
      run is then the one PostgreSQL sees. */
  lemma {:induction false} RunKeeps(db: Db, qs: seq<(bool, Request)>)
    requires Accepted(db)
    ensures AlwaysAccepted(db, qs) <==> AllStorable(db, qs)
    ensures AllStorable(db, qs) ==> TrustAll(db, qs) == HandleAll(db, qs)
    decreases |qs|
  {
    if qs == [] {
      forall k | 0 <= k <= |qs|
        ensures Accepted(TrustAll(db, qs[..k]))
      {
        assert qs[..k] == qs;
      }
    } else {
      var (permitted, q) := qs[0];
      var next := Trusting(db, permitted, q);
      WriteSafe(db, q);
      AlwaysAcceptedStep(db, qs);
      if Accepted(next) {
        RunKeeps(next, qs[1..]);
      } else {
        assert TrustAll(next, qs[1..][..0]) == next;
      }
    }
  }

  /** PostgreSQL's refusals only skip the requests that are not storable. */
  lemma {:induction false} CommitSkips(db: Db, permitted: bool, q: Request)
    requires Accepted(db)
    ensures Handle(db, permitted, q).0 ==
            if permitted && Planned(db, q).Write? && !Storable(db, q) then db else Trusting(db, permitted, q)
    ensures Handle(db, permitted, q).1 == Done <==> permitted && Planned(db, q).Write? && Storable(db, q)
  {
    WriteSafe(db, q);
  }

  /** The guards of category_edit leave the database nothing to refuse: a commit
      fails only for a name or number that does not fit, never for a reference. */
  lemma {:induction false} CategoryEditFailsExactly(db: Db, id: nat, name: string, order: Order, active: bool)
    requires Accepted(db) && id in db.categories
    ensures var c := db.categories[id];
            var n := NewName(name, c);
            var r := Handle(db, true, EditCategory(id, name, order, active)).1;
            && (r == Refused <==> n == "" || CategoryTaken(db, Lower(n), id) || (Lower(n) != c.code && TypesOf(db, c.code) != {}))
            && (r == RolledBack <==> r != Refused && (order.Garbage? || |n| > 50 || (order.Number? && !OrderFits(order.n))))
  {
    WriteSafe(db, EditCategory(id, name, order, active));
  }

  /** type_edit has no such guard: renaming a type that any organisation carries,
      even a deleted one, is what the database still refuses. */
  lemma {:induction false} TypeEditFailsExactly(db: Db, id: nat, code: string, title: string, newCategory: string,
                                                target: string, order: Order, active: bool)
    requires Accepted(db) && id in db.types
    ensures var t := db.types[id];
            var c, l := NewCode(code, t), NewTitle(title, t);
            var r := Handle(db, true, EditType(id, code, title, newCategory, target, order, active)).1;
            && (r == Refused <==>
                  || c == "" || l == "" || TypeTaken(db, c, id)
                  || (newCategory != "" && Some(newCategory) != t.category && !HasCategory(db, newCategory)))
            && (r == RolledBack <==>
                  && r != Refused
                  && (order.Garbage? || |c| > 40 || |l| > 120 || (order.Number? && !OrderFits(order.n))
                      || (c != t.code && Carried(db, t.code))))
  {
    WriteSafe(db, EditType(id, code, title, newCategory, target, order, active));
  }

  /** A type cannot be created without a category, although the handler allows the
      form to omit it. */
  lemma {:induction false} TypeCreateFailsExactly(db: Db, id: nat, code: string, title: string, category: string, order: Order)
    requires Accepted(db) && id !in db.types
    ensures var c, l := Lower(Strip(code)), Strip(title);
            var r := Handle(db, true, CreateType(id, code, title, category, order)).1;
            r == RolledBack <==>
            && r != Refused
            && (category == "" || order.Garbage? || |c| > 40 || |l| > 120 || (order.Number? && !OrderFits(order.n)))
  {
    LowerKeeps(Strip(code));
    WriteSafe(db, CreateType(id, code, title, category, order));
  }

  // -------------------------------------- what the handlers do, said of the rows alone

  predicate FitsColumn(order: Order) {
    !order.Garbage? && (order.Number? ==> -2147483648 <= order.n <= 2147483647)
  }

  /** Everything but one category row is as before. */
  predicate OnlyCategory(db: Db, after: Db, id: nat) {
    && after.types == db.types && after.orgs == db.orgs && after.categories.Keys == db.categories.Keys + {id}
    && forall i :: i in db.categories && i != id ==> after.categories[i] == db.categories[i]
  }

  predicate OnlyType(db: Db, after: Db, id: nat) {
    && after.categories == db.categories && after.orgs == db.orgs && after.types.Keys == db.types.Keys + {id}
    && forall i :: i in db.types && i != id ==> after.types[i] == db.types[i]
  }

  lemma {:induction false} CategoryWritten(db: Db, id: nat, c: Category)
    ensures OnlyCategory(db, WithCategory(db, id, c), id) && WithCategory(db, id, c).categories[id] == c
  {
  }

  lemma {:induction false} TypeWritten(db: Db, id: nat, t: OrgType)
    ensures OnlyType(db, WithType(db, id, t), id) && WithType(db, id, t).types[id] == t
  {
  }

  predicate CategoryNamed(db: Db, code: string) {
    exists i :: i in db.categories && db.categories[i].code == code
  }

  /** The guards of category_edit, and the row it writes. */
  lemma {:induction false} CategoryEditPlan(db: Db, id: nat, name: string, order: Order, active: bool)
    requires id in db.categories
    ensures var c := db.categories[id];
            var n := Strip(if name == "" then c.code else name);
            var p := Planned(db, EditCategory(id, name, order, active));
            && (p.Write? <==>
                  && n != "" && !order.Garbage?
                  && (forall i :: i in db.categories && i != id ==> db.categories[i].code != Lower(n))
                  && (Lower(n) == c.code || forall i :: i in db.types ==> db.types[i].category != Some(c.code)))
            && (p.Write? ==>
                  p.after == WithCategory(db, id, Category(Lower(n), n, if order.Number? then order.n else c.sortOrder, active)))
  {
    var code := db.categories[id].code;
    assert forall i :: i in TypesOf(db, code) <==> i in db.types && db.types[i].category == Some(code);
  }

  lemma {:induction false} CategoryEditDone(db: Db, id: nat, name: string, order: Order, active: bool)
    requires Accepted(db) && id in db.categories
    ensures var c := db.categories[id];
            var n := Strip(if name == "" then c.code else name);
            var (after, r) := Handle(db, true, EditCategory(id, name, order, active));
            && (r == Done <==>
                  && 1 <= |n| <= 50 && FitsColumn(order)
                  && (forall i :: i in db.categories && i != id ==> db.categories[i].code != Lower(n))
                  && (Lower(n) == c.code || forall i :: i in db.types ==> db.types[i].category != Some(c.code)))
            && (r == Done ==>
                  && OnlyCategory(db, after, id) && after.categories[id].code == Lower(n)
                  && after.categories[id].title == n && after.categories[id].active == active
                  && after.categories[id].sortOrder == (if order.Number? then order.n else c.sortOrder))
            && (r != Done ==> after == db)
  {
    var c := db.categories[id];
    var n := Strip(if name == "" then c.code else name);
    CommitSkips(db, true, EditCategory(id, name, order, active));
    CategoryEditPlan(db, id, name, order, active);
    CategoryWritten(db, id, Category(Lower(n), n, if order.Number? then order.n else c.sortOrder, active));
  }

  lemma {:induction false} TypeEditPlan(db: Db, id: nat, code: string, title: string, newCategory: string,
                                        target: string, order: Order, active: bool)
    requires id in db.types
    ensures var t := db.types[id];
            var c, l := Lower(Strip(if code == "" then t.code else code)), Strip(if title == "" then t.title else title);
            var p := Planned(db, EditType(id, code, title, newCategory, target, order, active));
            && (p.Write? <==>
                  && c != "" && l != "" && !order.Garbage?
                  && (forall i :: i in db.types && i != id ==> db.types[i].code != c)
                  && (newCategory == "" || Some(newCategory) == t.category || CategoryNamed(db, newCategory)))
            && (p.Write? ==>
                  p.after == WithType(db, id, OrgType(c, l, if target != "" && CategoryNamed(db, target) then Some(target) else t.category,
                                                      if order.Number? then order.n else t.sortOrder, active)))
  {
  }

  lemma {:induction false} TypeEditDone(db: Db, id: nat, code: string, title: string, newCategory: string,
                                        target: string, order: Order, active: bool)
    requires Accepted(db) && id in db.types
    ensures var t := db.types[id];
            var c, l := Lower(Strip(if code == "" then t.code else code)), Strip(if title == "" then t.title else title);
            var (after, r) := Handle(db, true, EditType(id, code, title, newCategory, target, order, active));
            && (r == Done <==>
                  && 1 <= |c| <= 40 && 1 <= |l| <= 120 && FitsColumn(order)
                  && (forall i :: i in db.types && i != id ==> db.types[i].code != c)
                  && (newCategory == "" || Some(newCategory) == t.category || CategoryNamed(db, newCategory))
                  && (c == t.code || forall o :: o in db.orgs ==> db.orgs[o].typeCode != Some(t.code)))
            && (r != Done ==> after == db)
  {
    var q := EditType(id, code, title, newCategory, target, order, active);
    var (after, r) := Handle(db, true, q);
    DoneIs(db, q, after, r);
    TypeEditStorable(db, id, code, title, newCategory, target, order, active, q);
    TypeEditPlan(db, id, code, title, newCategory, target, order, active);
  }

  lemma {:induction false} DoneIs(db: Db, q: Request, after: Db, r: Reply)
    requires Accepted(db) && (after, r) == Handle(db, true, q)
    ensures r == Done <==> Planned(db, q).Write? && Storable(db, q)
    ensures r != Done ==> after == db
  {
    CommitSkips(db, true, q);
  }

  lemma {:induction false} TypeEditStorable(db: Db, id: nat, code: string, title: string, newCategory: string,
                                            target: string, order: Order, active: bool, q: Request)
    requires id in db.types && q == EditType(id, code, title, newCategory, target, order, active)
    ensures var t := db.types[id];
            var c, l := Lower(Strip(if code == "" then t.code else code)), Strip(if title == "" then t.title else title);
            Storable(db, q) <==>
            && |c| <= 40 && |l| <= 120 && FitsColumn(order)
            && (c == t.code || forall o :: o in db.orgs ==> db.orgs[o].typeCode != Some(t.code))
  {
  }

  /** The row an edit of a type leaves; the others are as before. */
  lemma {:induction false} TypeEditRow(db: Db, id: nat, code: string, title: string, newCategory: string,
                                       target: string, order: Order, active: bool, after: Db)
    requires id in db.types
    requires Handle(db, true, EditType(id, code, title, newCategory, target, order, active)) == (after, Done)
    ensures OnlyType(db, after, id)
    ensures var t := db.types[id];
            && after.types[id].code == Lower(Strip(if code == "" then t.code else code))
            && after.types[id].title == Strip(if title == "" then t.title else title)
            && after.types[id].active == active
            && after.types[id].sortOrder == (if order.Number? then order.n else t.sortOrder)
            && after.types[id].category ==
               (if target != "" && CategoryNamed(db, target) then Some(target) else t.category)
  {
    TypeEditPlan(db, id, code, title, newCategory, target, order, active);
    var p := Planned(db, EditType(id, code, title, newCategory, target, order, active));
    assert p.Write? && after == p.after;
    TypeWritten(db, id, after.types[id]);
  }

  lemma {:induction false} CategoryCreateDone(db: Db, id: nat, name: string, order: Order)
    requires Accepted(db)
    ensures var n := Strip(name);
            var (after, r) := Handle(db, true, CreateCategory(id, name, order));
            && (r == Done <==>
                  && id !in db.categories && 1 <= |n| <= 50 && FitsColumn(order)
                  && forall i :: i in db.categories ==> db.categories[i].code != Lower(n))
            && (r == Done ==>
                  OnlyCategory(db, after, id) &&
                  after.categories[id] == Category(Lower(n), n, if order.Number? then order.n else 0, true))
            && (r != Done ==> after == db)
  {
    CommitSkips(db, true, CreateCategory(id, name, order));
    CategoryWritten(db, id, Category(Lower(Strip(name)), Strip(name), if order.Number? then order.n else 0, true));
  }

  lemma {:induction false} TypeCreateDone(db: Db, id: nat, code: string, title: string, category: string, order: Order)
    requires Accepted(db)
    ensures var c, l := Lower(Strip(code)), Strip(title);
            var (after, r) := Handle(db, true, CreateType(id, code, title, category, order));
            && (r == Done <==>
                  && id !in db.types && 1 <= |c| <= 40 && 1 <= |l| <= 120 && FitsColumn(order)
                  && category != "" && CategoryNamed(db, category)
                  && forall i :: i in db.types ==> db.types[i].code != c)
            && (r == Done ==>
                  OnlyType(db, after, id) &&
                  after.types[id] == OrgType(c, l, Some(category), if order.Number? then order.n else 0, true))
            && (r != Done ==> after == db)
  {
    LowerKeeps(Strip(code));
    CommitSkips(db, true, CreateType(id, code, title, category, order));
    TypeWritten(db, id, OrgType(Lower(Strip(code)), Strip(title), Some(category), if order.Number? then order.n else 0, true));
  }

  lemma {:induction false} CategoryDeactivateDone(db: Db, id: nat)
    requires Accepted(db) && id in db.categories
    ensures var c := db.categories[id];
            var (after, r) := Handle(db, true, DeactivateCategory(id));
            && (r == Done <==>
                  && (forall i :: i in db.types && db.types[i].category == Some(c.code) ==> !db.types[i].active)
                  && (forall o :: o in db.orgs && db.orgs[o].typeCode == Some(c.code) ==> db.orgs[o].deleted))
            && (r == Done ==> OnlyCategory(db, after, id) && after.categories[id] == c.(active := false))
            && (r != Done ==> after == db)
  {
    NobodyCounted(db, db.categories[id].code);
    CommitSkips(db, true, DeactivateCategory(id));
    CategoryWritten(db, id, db.categories[id].(active := false));
  }

  lemma {:induction false} TypeDeactivateDone(db: Db, id: nat)
    requires Accepted(db) && id in db.types
    ensures var t := db.types[id];
            var (after, r) := Handle(db, true, DeactivateType(id));
            && (r == Done <==> forall o :: o in db.orgs && db.orgs[o].typeCode == Some(t.code) ==> db.orgs[o].deleted)
            && (r == Done ==> OnlyType(db, after, id) && after.types[id] == t.(active := false))
            && (r != Done ==> after == db)
  {
    NobodyCounted(db, db.types[id].code);
    CommitSkips(db, true, DeactivateType(id));
    TypeWritten(db, id, db.types[id].(active := false));
  }

  lemma {:induction false} NobodyCounted(db: Db, code: string)
    ensures ActiveTypesOf(db, code) == {} <==>
            forall i :: i in db.types && db.types[i].category == Some(code) ==> !db.types[i].active
    ensures Users(db, code) == {} <==>
            forall o :: o in db.orgs && db.orgs[o].typeCode == Some(code) ==> db.orgs[o].deleted
  {
    assert forall i :: i in ActiveTypesOf(db, code) <==> i in db.types && db.types[i].category == Some(code) && db.types[i].active;
    assert forall o :: o in Users(db, code) <==> o in db.orgs && db.orgs[o].typeCode == Some(code) && !db.orgs[o].deleted;
  }

  /** Nobody without the role changes anything, nor does a request for a row that is
      not there; an activation that finds its row sets the flag and nothing else. */
  lemma {:induction false} OthersDone(db: Db, id: nat, q: Request)
    requires Accepted(db)
    ensures Handle(db, false, q) == (db, Denied)
    ensures id !in db.categories ==>
              Handle(db, true, DeactivateCategory(id)) == (db, NotFound) == Handle(db, true, ActivateCategory(id))
    ensures id !in db.types ==> Handle(db, true, DeactivateType(id)) == (db, NotFound) == Handle(db, true, ActivateType(id))
    ensures id in db.categories ==>
              var (after, r) := Handle(db, true, ActivateCategory(id));
              r == Done && OnlyCategory(db, after, id) && after.categories[id] == db.categories[id].(active := true)
    ensures id in db.types ==>
              var (after, r) := Handle(db, true, ActivateType(id));
              r == Done && OnlyType(db, after, id) && after.types[id] == db.types[id].(active := true)
  {
    CommitSkips(db, true, ActivateCategory(id));
    CommitSkips(db, true, ActivateType(id));
    if id in db.categories {
      CategoryWritten(db, id, db.categories[id].(active := true));
    }
    if id in db.types {
      TypeWritten(db, id, db.types[id].(active := true));
    }
  }

  // ------------------------------------------------------------- guards that miss

  /** type_edit checks one category and applies another. After an edit that was
      carried out the type is in the category checked - the new one, or its own
      where the form names none - exactly when the target is that new category, or
      nothing new was asked for and the target moves the type nowhere. */
  lemma {:induction false} AppliedCategory(db: Db, id: nat, code: string, title: string, newCategory: string,
                                           target: string, order: Order, active: bool)
    requires Accepted(db) && id in db.types
    ensures var own := db.types[id].category;
            var (after, r) := Handle(db, true, EditType(id, code, title, newCategory, target, order, active));
            r == Done ==>
              && id in after.types
              && (after.types[id].category == (if newCategory != "" then Some(newCategory) else own) <==>
                  if newCategory != "" && Some(newCategory) != own then target == newCategory
                  else target == "" || Some(target) == own || !HasCategory(db, target))
  {
  }

  /** Organisations that are not deleted and whose type is in this category. */
  function Members(db: Db, categoryCode: string): set<nat> {
    set o, i | i in db.types && o in Users(db, db.types[i].code) && db.types[i].category == Some(categoryCode) :: o
  }

  /** category_edit has no guard on active types: after an edit that was carried
      out the category is inactive with active types exactly when it had some and
      the form does not say active. */
  lemma {:induction false} EditIgnoresDependencies(db: Db, id: nat, name: string, order: Order, active: bool)
    requires Accepted(db) && id in db.categories
    ensures var code := db.categories[id].code;
            var (after, r) := Handle(db, true, EditCategory(id, name, order, active));
            r == Done ==>
              && id in after.categories
              && (!after.categories[id].active && ActiveTypesOf(after, after.categories[id].code) != {} <==>
                  !active && ActiveTypesOf(db, code) != {})
  {
    var code := db.categories[id].code;
    var (after, r) := Handle(db, true, EditCategory(id, name, order, active));
    if r == Done {
      var now := after.categories[id].code;
      assert ActiveTypesOf(after, now) == ActiveTypesOf(db, now);
      if now != code {
        assert ActiveTypesOf(db, code) <= TypesOf(db, code);
        assert !HasCategory(db, now);
        forall i | i in db.types
          ensures db.types[i].category != Some(now)
        {
          assert db.types[i].category.Some? ==> HasCategory(db, db.types[i].category.value);
        }
      }
    }
  }

  /** type_edit has no guard on organisations: after an edit that was carried out
      the type is inactive with live organisations exactly when it had some and the
      form does not say active. */
  lemma {:induction false} EditIgnoresUsers(db: Db, id: nat, code: string, title: string, newCategory: string,
                                            target: string, order: Order, active: bool)
    requires Accepted(db) && id in db.types
    ensures var (after, r) := Handle(db, true, EditType(id, code, title, newCategory, target, order, active));
            r == Done ==>
              && id in after.types
              && (!after.types[id].active && Users(after, after.types[id].code) != {} <==>
                  !active && Users(db, db.types[id].code) != {})
  {
    var own := db.types[id].code;
    var (after, r) := Handle(db, true, EditType(id, code, title, newCategory, target, order, active));
    if r == Done {
      var now := after.types[id].code;
      assert Users(after, now) == Users(db, now);
      WriteSafe(db, EditType(id, code, title, newCategory, target, order, active));
      if now != own {
        assert !Carried(db, own) && !HasType(db, now);
        forall o | o in db.orgs
          ensures db.orgs[o].typeCode != Some(now)
        {
          assert db.orgs[o].typeCode.Some? ==> HasType(db, db.orgs[o].typeCode.value);
        }
      }
    }
  }

  /** The organisations category_deactivate counts are those whose type bears the
      category's own code. The category is deactivated over a live organisation of
      one of its types exactly when it has no active type, none of that code is
      live, and an inactive type of it has a live organisation. */
  lemma {:induction false} OrganisationsOverlooked(db: Db, id: nat)
    requires Accepted(db) && id in db.categories
    ensures var code := db.categories[id].code;
            var (after, r) := Handle(db, true, DeactivateCategory(id));
            r == Done && Members(after, code) != {} <==>
              && ActiveTypesOf(db, code) == {} && Users(db, code) == {}
              && exists i :: i in db.types && !db.types[i].active && db.types[i].category == Some(code)
                             && Users(db, db.types[i].code) != {}
  {
    var code := db.categories[id].code;
    var (after, r) := Handle(db, true, DeactivateCategory(id));
    WriteSafe(db, DeactivateCategory(id));
    if r == Done {
      assert forall c :: Users(after, c) == Users(db, c);
      if o :| o in Members(after, code) {
        var i :| i in db.types && o in Users(db, db.types[i].code) && db.types[i].category == Some(code);
        assert i !in ActiveTypesOf(db, code);
      }
      if i :| i in db.types && db.types[i].category == Some(code) && Users(db, db.types[i].code) != {} {
        var o :| o in Users(db, db.types[i].code);
        assert o in Members(after, code);
      }
    }
  }

  /** One category "c" with the type "t", which one organisation carries, and a
      second category "d". */
  function Example(): Db {
    Db(map[0 := Category("c", "c", 0, true), 1 := Category("d", "d", 1, true)],
       map[0 := OrgType("t", "t", Some("c"), 0, true)],
       map[0 := Org(Some("t"), false)])
  }

  lemma {:induction false} ExampleAccepted()
    ensures Accepted(Example())
    ensures Strip("t") == "t" && Lower("t") == "t"
  {
    var db := Example();
    assert db.categories[0].code == "c" && db.categories[1].code == "d" && db.types[0].code == "t";
    assert HasCategory(db, "c") && HasType(db, "t");
    StripTrimmed("t");
    assert Lower("t") == "t";
  }

  /** The new category "d" is checked and then not applied. */
  lemma {:induction false} NewCategoryNotApplied()
    ensures var (after, r) := Handle(Example(), true, EditType(0, "", "", "d", "", Blank, true));
            r == Done && after == Example()
  {
    ExampleAccepted();
    var db := Example();
    var t := db.types[0];
    assert db.categories[1].code == "d";
    assert Edited(db, t, NewCode("", t), NewTitle("", t), "", Blank, true) == t;
    assert WithType(db, 0, t) == db;
  }

  /** The same with the type inactive. */
  function EditedExample(): Db {
    WithType(Example(), 0, OrgType("t", "t", Some("c"), 0, false))
  }

  /** The type of an organisation may not be deactivated, but editing it may make it inactive. */
  lemma {:induction false} TypeGuardPassedBy()
    ensures Handle(Example(), true, DeactivateType(0)) == (Example(), Refused)
    ensures Handle(Example(), true, EditType(0, "", "", "", "", Blank, false)) == (EditedExample(), Done)
    ensures Accepted(EditedExample())
  {
    ExampleAccepted();
    var db := Example();
    assert 0 in Users(db, "t");
    WriteSafe(db, EditType(0, "", "", "", "", Blank, false));
  }

  lemma {:induction false} CategoryGuardHolds()
    ensures Handle(Example(), true, DeactivateCategory(0)).1 == Refused
  {
    assert 0 in ActiveTypesOf(Example(), "c");
  }

  /** Then nothing stops the deactivation of its category, which was refused before. */
  lemma {:induction false} OrganisationLeftBehind(after: Db, r: Reply)
    requires (after, r) == Handle(EditedExample(), true, DeactivateCategory(0))
    ensures Handle(Example(), true, DeactivateCategory(0)).1 == Refused
    ensures r == Done && Members(after, "c") != {}
  {
    CategoryGuardHolds();
    TypeGuardPassedBy();
    EditedIs();
    OrganisationsOverlooked(EditedExample(), 0);
  }

  lemma {:induction false} EditedIs()
    ensures var db := EditedExample();
            && 0 in db.categories && db.categories[0].code == "c"
            && ActiveTypesOf(db, "c") == {} && Users(db, "c") == {}
            && 0 in db.types && db.types[0] == OrgType("t", "t", Some("c"), 0, false) && 0 in Users(db, "t")
  {
    var db := EditedExample();
    var t := OrgType("t", "t", Some("c"), 0, false);
    assert db.types == map[0 := t] && db.orgs == map[0 := Org(Some("t"), false)];
  }

  /** Editing a category makes it inactive over its active type. */
  lemma {:induction false} CategoryGuardPassedBy()
    ensures var (after, r) := Handle(Example(), true, EditCategory(0, "", Blank, false));
            r == Done && 0 in after.categories && !after.categories[0].active && 0 in ActiveTypesOf(after, "c")
  {
    ExampleAccepted();
    var db := Example();
    StripTrimmed("c");
    assert Lower("c") == "c" && db.categories[0].code == "c" && db.categories[1].code == "d";
    WriteSafe(db, EditCategory(0, "", Blank, false));
  }
}
