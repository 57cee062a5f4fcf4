/**
 The settings cache of app/kyc_config_schema.py: a five-minute cache over a decode
 of the stored rows by a fixed schema.
 */
module KycCache {
  import opened Lex

  datatype Kind = BoolKind | IntKind | JsonKind | TextKind

  datatype Value = Bool(b: bool) | Int(i: int) | Json(repr: string) | Text(s: string)

  datatype Item = Item(key: string, kind: Kind, default: Value)

  /** The schema, and Python's int() and json.loads(), None for an exception. */
  datatype World = World(schema: seq<Item>, parseInt: string -> Option<int>, parseJson: string -> Option<string>)

  /** Stored rows: a row may hold no value. */
  type Rows = map<string, Option<string>>

  type Settings = map<string, Value>

  const TTL := 300.0

  ghost predicate Distinct(schema: seq<Item>) {
    forall i, j :: 0 <= i < j < |schema| ==> schema[i].key != schema[j].key
  }

  predicate Truthy(v: string) {
    v == "true" || v == "1" || v == "yes" || v == "on"
  }

  /** One setting: its default when nothing usable is stored. */
  function DecodeItem(w: World, it: Item, rows: Rows): Value {
    if it.key !in rows || rows[it.key].None? then it.default
    else
      var v := rows[it.key].value;
      match it.kind
      case BoolKind => Bool(Truthy(Lower(v)))
      case IntKind => (match w.parseInt(v) case Some(n) => Int(n) case None => it.default)
      case JsonKind => (match w.parseJson(v) case Some(j) => Json(j) case None => it.default)
      case TextKind => Text(v)
  }

  /** The decode of all rows: exactly the schema's keys. */
  ghost predicate IsDecode(w: World, rows: Rows, out: Settings) {
    && out.Keys == (set it | it in w.schema :: it.key)
    && forall it :: it in w.schema ==> it.key in out && out[it.key] == DecodeItem(w, it, rows)
  }

  lemma {:induction false} DecodeUnique(w: World, rows: Rows, a: Settings, b: Settings)
    requires IsDecode(w, rows, a) && IsDecode(w, rows, b)
    ensures a == b
  {
    forall k | k in a.Keys
      ensures a[k] == b[k]
    {
      var it :| it in w.schema && it.key == k;
    }
  }

  /** A stored value is as good as none - whatever the default, the default is
      returned - exactly when there is none, or a number or JSON text that cannot be
      parsed. Text that is no truth value is not ignored: it means false. */
  lemma {:induction false} IgnoredExactly(w: World, it: Item, rows: Rows)
    ensures (forall d :: DecodeItem(w, it.(default := d), rows) == d) <==>
            || it.key !in rows || rows[it.key].None?
            || (it.kind.IntKind? && w.parseInt(rows[it.key].value).None?)
            || (it.kind.JsonKind? && w.parseJson(rows[it.key].value).None?)
  {
    assert DecodeItem(w, it.(default := Text("a")), rows) == Text("a") &&
           DecodeItem(w, it.(default := Bool(true)), rows) == Bool(true) ==>
           it.key !in rows || rows[it.key].None? || it.kind.IntKind? || it.kind.JsonKind?;
  }

  /** A stored text as a truth value: one of four words, in any case of letters. */
  lemma {:induction false} TruthIs(w: World, it: Item, rows: Rows, v: string)
    requires it.kind.BoolKind? && it.key in rows && rows[it.key] == Some(v)
    ensures DecodeItem(w, it, rows) ==
            Bool(AnyCase(v, "true") || AnyCase(v, "1") || AnyCase(v, "yes") || AnyCase(v, "on"))
  {
    LowerOnly(v, "true");
    LowerOnly(v, "1");
    LowerOnly(v, "yes");
    LowerOnly(v, "on");
  }

  /** v is word, its ASCII letters in any case. */
  predicate AnyCase(v: string, word: string) {
    |v| == |word| &&
    forall k :: 0 <= k < |v| ==> v[k] == word[k] || ('A' <= v[k] <= 'Z' && v[k] as int + 32 == word[k] as int)
  }

  lemma {:induction false} LowerOnly(v: string, word: string)
    requires forall k :: 0 <= k < |word| ==> !('A' <= word[k] <= 'Z')
    ensures Lower(v) == word <==> AnyCase(v, word)
  {
    if AnyCase(v, word) {
      assert forall k :: 0 <= k < |v| ==> Lower(v)[k] == word[k];
    }
    if Lower(v) == word {
      forall k | 0 <= k < |v|
        ensures v[k] == word[k] || ('A' <= v[k] <= 'Z' && v[k] as int + 32 == word[k] as int)
      {
        assert Lower(v)[k] == word[k];
      }
    }
  }

  /** The setting of every item, by its kind: a truth value as above, a number or JSON
      text as it parses, other text as it is; the default when there is nothing, or
      nothing that parses. */
  lemma {:induction false} SettingsAre(w: World, rows: Rows, out: Settings, it: Item)
    requires IsDecode(w, rows, out) && it in w.schema
    ensures it.key in out
    ensures it.key !in rows || rows[it.key].None? ==> out[it.key] == it.default
    ensures it.key in rows && rows[it.key].Some? ==>
              var v := rows[it.key].value;
              match it.kind
              case BoolKind =>
                out[it.key] == Bool(AnyCase(v, "true") || AnyCase(v, "1") || AnyCase(v, "yes") || AnyCase(v, "on"))
              case IntKind =>
                if w.parseInt(v).Some? then out[it.key] == Int(w.parseInt(v).value) else out[it.key] == it.default
              case JsonKind =>
                if w.parseJson(v).Some? then out[it.key] == Json(w.parseJson(v).value) else out[it.key] == it.default
              case TextKind => out[it.key] == Text(v)
  {
    if it.kind.BoolKind? && it.key in rows && rows[it.key].Some? {
      TruthIs(w, it, rows, rows[it.key].value);
    }
  }

  /** "True" and "ON" are true, "false" is not. */
  lemma {:induction false} TruthExamples(w: World, it: Item, v: string)
    requires it.kind.BoolKind? && (v == "True" || v == "ON" || v == "false")
    ensures DecodeItem(w, it, map[it.key := Some(v)]) == Bool(v != "false")
  {
    var rows: Rows := map[it.key := Some(v)];
    TruthIs(w, it, rows, v);
    var t, o := "true", "on";
    assert v == "True" ==> AnyCase(v, t);
    assert v == "ON" ==> AnyCase(v, o);
    assert v == "false" ==> |v| == 5;
  }

  predicate Typed(kind: Kind, v: Value) {
    match kind
    case BoolKind => v.Bool?
    case IntKind => v.Int?
    case JsonKind => v.Json?
    case TextKind => v.Text?
  }

  /** Where the defaults have the types of their items, so has every setting, and
      the rows determine all of them. */
  lemma {:induction false} DecodeTyped(w: World, rows: Rows, a: Settings, b: Settings)
    requires IsDecode(w, rows, a) && IsDecode(w, rows, b)
    requires forall it :: it in w.schema ==> Typed(it.kind, it.default)
    ensures a == b && forall it :: it in w.schema ==> it.key in a && Typed(it.kind, a[it.key])
  {
    DecodeUnique(w, rows, a, b);
  }

  /** The rows a load sees: none when the query raises. */
  function Seen(rows: Rows, up: bool): Rows {
    if up then rows else map[]
  }

  /** The body of the decoding loop. */
  method Setting(w: World, it: Item, rows: Rows) returns (r: Value)
    ensures r == DecodeItem(w, it, rows)
  {
    if it.key !in rows || rows[it.key].None? {
      return it.default;
    }
    var v := rows[it.key].value;
    match it.kind {
      case BoolKind =>
        return Bool(Truthy(Lower(v)));
      case IntKind =>
        var n := w.parseInt(v);
        return if n.Some? then Int(n.value) else it.default;
      case JsonKind =>
        var j := w.parseJson(v);
        return if j.Some? then Json(j.value) else it.default;
      case TextKind =>
        return Text(v);
    }
  }

  // ---------------------------------------------------------------------- the cache

  class Cache {
    var data: Option<Settings>
    var ts: real

    constructor ()
      ensures data == None && ts == 0.0
    {
      data, ts := None, 0.0;
    }

    /** clear_kyc_config_cache. */
    method Clear()
      modifies this
      ensures data == None && ts == 0.0
      ensures forall w, rows :: Happens(w, Module(rows, old(data), old(ts)), Event.Clear, Module(rows, data, ts))
    {
      data := None;
      ts := 0.0;
    }

    /** get_kyc_settings at time now, when the table holds rows. */
    method Get(w: World, now: real, rows: Rows, up: bool) returns (r: Settings)
      requires Distinct(w.schema)
      modifies this
      ensures data == Some(r)
      ensures old(data.Some? && now - ts < 300.0) ==> r == old(data.value) && ts == old(ts)
      ensures !old(data.Some? && now - ts < 300.0) ==> IsDecode(w, Seen(rows, up), r) && ts == now
      ensures Happens(w, Module(rows, old(data), old(ts)), Event.Get(now, up, r), Module(rows, data, ts))
    {
      if data.Some? && now - ts < TTL {
        return data.value;
      }
      var visible := if up then rows else map[];
      var out: Settings := map[];
      for i := 0 to |w.schema|
        invariant out.Keys == set it | it in w.schema[..i] :: it.key
        invariant forall k :: 0 <= k < i ==>
                    w.schema[k].key in out && out[w.schema[k].key] == DecodeItem(w, w.schema[k], visible)
      {
        var it := w.schema[i];
        assert w.schema[..i + 1] == w.schema[..i] + [it];
        var v := Setting(w, it, visible);
        out := out[it.key := v];
      }
      assert w.schema[..|w.schema|] == w.schema;
      data := Some(out);
      ts := now;
      return out;
    }
  }

  // ---------------------------------------------------------------- whole histories

  /** What happens to the module: the table changes, the cache is cleared, or the
      settings are read and r is returned. */
  datatype Event =
    | Write(rows: Rows)
    | Clear
    | Get(now: real, up: bool, r: Settings)

  datatype Module = Module(rows: Rows, data: Option<Settings>, ts: real)

  function Fresh(s: Module, now: real): bool {
    s.data.Some? && now - s.ts < TTL
  }

  /** The events the class allows, by the contracts of its methods. */
  ghost predicate Happens(w: World, s: Module, e: Event, s': Module) {
    match e
    case Write(rows) => s' == s.(rows := rows)
    case Clear => s' == Module(s.rows, None, 0.0)
    case Get(now, up, r) =>
      && s'.rows == s.rows && s'.data == Some(r)
      && if Fresh(s, now) then r == s.data.value && s'.ts == s.ts
         else IsDecode(w, Seen(s.rows, up), r) && s'.ts == now
  }

  /** A history from the module's start, with the states before and after each event. */
  ghost predicate History(w: World, es: seq<Event>, ss: seq<Module>) {
    && |ss| == |es| + 1 && ss[0].data == None
    && forall i :: 0 <= i < |es| ==> Happens(w, ss[i], es[i], ss[i + 1])
  }

  ghost predicate ClockOk(es: seq<Event>) {
    forall i, j :: 0 <= i < j < |es| && es[i].Get? && es[j].Get? ==> es[i].now <= es[j].now
  }

  ghost predicate NoClear(es: seq<Event>, j: nat, i: nat) {
    forall k :: j <= k < i && k < |es| ==> !es[k].Clear?
  }

  /** Event j is a read at time t, not followed by a clear before i, and d is the
      decode of the rows it saw. */
  ghost predicate LoadedAt(w: World, es: seq<Event>, ss: seq<Module>, j: nat, i: nat, t: real, d: Settings) {
    && j < i <= |es| && |ss| == |es| + 1
    && es[j].Get? && es[j].now == t && NoClear(es, j, i)
    && IsDecode(w, Seen(ss[j].rows, es[j].up), d)
  }

  /** What is cached is the decode made by the read its time stamp names. */
  lemma {:induction false} CacheOrigin(w: World, es: seq<Event>, ss: seq<Module>, i: nat) returns (j: nat)
    requires History(w, es, ss) && i <= |es| && ss[i].data.Some?
    ensures LoadedAt(w, es, ss, j, i, ss[i].ts, ss[i].data.value)
    decreases i
  {
    var e := es[i - 1];
    assert Happens(w, ss[i - 1], e, ss[i]);
    if e.Get? && !Fresh(ss[i - 1], e.now) {
      j := i - 1;
    } else {
      j := CacheOrigin(w, es, ss, i - 1);
    }
  }

  /** Every read returns the schema decode of the rows as they were at a time less
      than 300 seconds ago, and no clear came after that time. */
  lemma {:induction false} ReadIsRecent(w: World, es: seq<Event>, ss: seq<Module>, i: nat) returns (j: nat)
    requires History(w, es, ss) && ClockOk(es) && i < |es| && es[i].Get?
    ensures j <= i && es[j].Get? && LoadedAt(w, es, ss, j, i + 1, es[j].now, es[i].r)
    ensures es[i].now - 300.0 < es[j].now <= es[i].now
  {
    assert Happens(w, ss[i], es[i], ss[i + 1]);
    j := CacheOrigin(w, es, ss, i + 1);
  }

  /** Event j is a read that finds nothing cached, or nothing fresh, and loads. */
  ghost predicate Loads(es: seq<Event>, ss: seq<Module>, j: nat) {
    j < |es| && |ss| == |es| + 1 && es[j].Get? && !Fresh(ss[j], es[j].now)
  }

  /** What is cached at i was loaded by the last load before i, and not cleared. */
  lemma {:induction false} LastLoad(w: World, es: seq<Event>, ss: seq<Module>, i: nat) returns (j: nat)
    requires History(w, es, ss) && i <= |es| && ss[i].data.Some?
    ensures j < i && Loads(es, ss, j) && NoClear(es, j, i)
    ensures forall k :: j < k < i ==> !Loads(es, ss, k)
    ensures ss[i].data == Some(es[j].r) && ss[i].ts == es[j].now
    decreases i
  {
    var e := es[i - 1];
    assert Happens(w, ss[i - 1], e, ss[i]);
    if Loads(es, ss, i - 1) {
      j := i - 1;
    } else {
      j := LastLoad(w, es, ss, i - 1);
    }
  }

  /** Every setting has its default. */
  ghost predicate AllDefault(w: World, rows: Rows) {
    forall it :: it in w.schema ==> DecodeItem(w, it, rows) == it.default
  }

  /** Every read i returns what the last load j up to it made of its rows, less than
      300 seconds before and not cleared since. It returns the decode of those rows
      exactly when the load got through or they hold nothing but defaults; and the
      decode of the present rows exactly when each setting is what the load saw. */
  lemma {:induction false} ReadExactly(w: World, es: seq<Event>, ss: seq<Module>, i: nat) returns (j: nat)
    requires History(w, es, ss) && i < |es| && es[i].Get?
    ensures j <= i && Loads(es, ss, j) && NoClear(es, j, i) && es[i].now - es[j].now < 300.0
    ensures forall k :: j < k <= i ==> !Loads(es, ss, k)
    ensures IsDecode(w, ss[j].rows, es[i].r) <==> es[j].up || AllDefault(w, ss[j].rows)
    ensures IsDecode(w, ss[i].rows, es[i].r) <==>
            forall it :: it in w.schema ==>
              DecodeItem(w, it, ss[i].rows) == DecodeItem(w, it, Seen(ss[j].rows, es[j].up))
  {
    assert Happens(w, ss[i], es[i], ss[i + 1]);
    j := LastLoad(w, es, ss, i + 1);
    assert Happens(w, ss[j], es[j], ss[j + 1]);
    DecodesAlike(w, Seen(ss[j].rows, es[j].up), ss[j].rows, es[i].r);
    DecodesAlike(w, Seen(ss[j].rows, es[j].up), ss[i].rows, es[i].r);
  }

  lemma {:induction false} DecodesAlike(w: World, seen: Rows, rows: Rows, r: Settings)
    requires IsDecode(w, seen, r)
    ensures IsDecode(w, rows, r) <==> forall it :: it in w.schema ==> DecodeItem(w, it, rows) == DecodeItem(w, it, seen)
  {
  }

  /** When the table has not changed since a time 300 seconds ago or a clear, a read
      returns the decode of the present rows, unless a load in between failed. */
  lemma {:induction false} ReadSettles(w: World, es: seq<Event>, ss: seq<Module>, i: nat)
    requires History(w, es, ss) && ClockOk(es) && i < |es| && es[i].Get?
    requires forall k :: 0 <= k <= i && es[k].Get? && es[k].now > es[i].now - 300.0 && NoClear(es, k, i) ==>
               es[k].up && ss[k].rows == ss[i].rows
    ensures IsDecode(w, ss[i].rows, es[i].r)
  {
    var j := ReadIsRecent(w, es, ss, i);
    assert NoClear(es, j, i);
  }

  /** A load that fails is served like any other: until 300 seconds have passed or
      the cache is cleared, every read returns the defaults. */
  lemma {:induction false} OutageOutlivesItself(w: World, es: seq<Event>, ss: seq<Module>, j: nat, i: nat)
    requires History(w, es, ss) && ClockOk(es) && j <= i < |es|
    requires es[j].Get? && !Fresh(ss[j], es[j].now) && !es[j].up
    requires es[i].Get? && es[i].now - es[j].now < 300.0 && NoClear(es, j, i)
    ensures forall it :: it in w.schema ==> it.key in es[i].r && es[i].r[it.key] == it.default
  {
    assert Happens(w, ss[j], es[j], ss[j + 1]);
    StaysCached(w, es, ss, j, i);
  }

  lemma {:induction false} StaysCached(w: World, es: seq<Event>, ss: seq<Module>, j: nat, i: nat)
    requires History(w, es, ss) && ClockOk(es) && j <= i < |es|
    requires es[j].Get? && !Fresh(ss[j], es[j].now)
    requires es[i].Get? && es[i].now - es[j].now < TTL && NoClear(es, j, i)
    ensures es[i].r == es[j].r
  {
    Held(w, es, ss, j, i, es[i].now);
    assert Happens(w, ss[i], es[i], ss[i + 1]);
    assert Happens(w, ss[j], es[j], ss[j + 1]);
  }

  lemma {:induction false} Held(w: World, es: seq<Event>, ss: seq<Module>, j: nat, i: nat, limit: real)
    requires History(w, es, ss) && ClockOk(es) && j <= i < |es|
    requires es[j].Get? && !Fresh(ss[j], es[j].now) && NoClear(es, j, i)
    requires es[i].Get? && es[i].now == limit && limit - es[j].now < TTL
    ensures i > j ==> ss[i].data == Some(es[j].r) && ss[i].ts == es[j].now
  {
    assert Happens(w, ss[j], es[j], ss[j + 1]);
    var k := j + 1;
    while k < i
      invariant j < i ==> j + 1 <= k <= i && ss[k].data == Some(es[j].r) && ss[k].ts == es[j].now
    {
      assert Happens(w, ss[k], es[k], ss[k + 1]);
      k := k + 1;
    }
  }
}
