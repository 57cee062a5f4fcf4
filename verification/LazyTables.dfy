/**
 The retry loop of scripts/lazy_table_creator.py: tables are created in rounds,
 in name order, each as soon as the tables its foreign keys name exist.
 */
module LazyTables {

  datatype Table = Table(name: string)

  /** What the metadata and the server fix: the foreign keys of each table, and the
      tables whose creation fails with an "already exists" error of another object. */
  datatype World = World(deps: Table -> set<Table>, clash: set<Table>)

  /** created is what the loop believes, tables is what the server holds. */
  datatype State = State(created: set<Table>, tables: set<Table>)

  /** Everything the table refers to exists; a table may refer to itself. */
  predicate Satisfied(w: World, t: Table, tables: set<Table>) {
    w.deps(t) - {t} <= tables
  }

  /** One attempt to create a table. */
  function Attempt(w: World, t: Table, s: State): State {
    if !Satisfied(w, t, s.tables) then s
    else if t in w.clash then s.(created := s.created + {t})
    else State(s.created + {t}, s.tables + {t})
  }

  function Visit(w: World, list: seq<Table>, s: State): State {
    if list == [] then s
    else
      var n := |list| - 1;
      Attempt(w, list[n], Visit(w, list[..n], s))
  }

  function Remaining(order: seq<Table>, created: set<Table>): seq<Table> {
    if order == [] then []
    else
      var n := |order| - 1;
      Remaining(order[..n], created) + if order[n] in created then [] else [order[n]]
  }

  lemma {:induction false} RemainingIs(order: seq<Table>, created: set<Table>, t: Table)
    ensures t in Remaining(order, created) <==> t in order && t !in created
  {
    if order != [] {
      var n := |order| - 1;
      RemainingIs(order[..n], created, t);
      assert order == order[..n] + [order[n]];
    }
  }

  lemma {:induction false} RemainingWithin(order: seq<Table>, created: set<Table>)
    ensures forall t :: t in Remaining(order, created) ==> t in order
  {
    forall t | t in Remaining(order, created)
      ensures t in order
    {
      RemainingIs(order, created, t);
    }
  }

  /** The tables left at the start of the round, each attempted once. */
  function Round(w: World, order: seq<Table>, s: State): State {
    Visit(w, Remaining(order, s.created), s)
  }

  function Rounds(w: World, order: seq<Table>, s: State, n: nat): State {
    if n == 0 then s else Round(w, order, Rounds(w, order, s, n - 1))
  }

  function Start(existing: set<Table>): State {
    State(existing, existing)
  }

  /** Of the first n rounds those that are followed by a wait: they made no table,
      left some, and were not the last allowed. */
  function Waits(w: World, order: seq<Table>, s0: State, n: nat, maxRetries: nat): nat {
    if n == 0 then 0
    else
      var before, after := Rounds(w, order, s0, n - 1), Rounds(w, order, s0, n);
      Waits(w, order, s0, n - 1, maxRetries) +
      if after.tables == before.tables && Remaining(order, after.created) != [] && n < maxRetries then 1 else 0
  }

  /** The seconds slept so far, and the next delay: the first one given, then half as
      much again each time, never more than ten seconds by that. */
  ghost predicate BackedOff(slept: seq<real>, first: real, delay: real) {
    if slept == [] then delay == first
    else
      var n := |slept| - 1;
      BackedOff(slept[..n], first, slept[n]) && delay == if slept[n] * 1.5 < 10.0 then slept[n] * 1.5 else 10.0
  }

  lemma {:induction false} BackOff(slept: seq<real>, first: real, delay: real, next: real)
    requires BackedOff(slept, first, delay) && next == if delay * 1.5 < 10.0 then delay * 1.5 else 10.0
    ensures BackedOff(slept + [delay], first, next)
  {
    assert (slept + [delay])[..|slept|] == slept;
  }

  lemma {:induction false} BackoffBound(slept: seq<real>, first: real, delay: real)
    requires BackedOff(slept, first, delay)
    ensures delay == first || delay <= 10.0
  {
  }

  lemma {:induction false} OneRound(w: World, order: seq<Table>, s0: State, n: nat, maxRetries: nat, before: State, s: State, made: nat)
    requires before == Rounds(w, order, s0, n) && s == Visit(w, Remaining(order, before.created), before)
    requires made == 0 <==> s.tables == before.tables
    ensures s == Rounds(w, order, s0, n + 1)
    ensures Waits(w, order, s0, n + 1, maxRetries) ==
            Waits(w, order, s0, n, maxRetries) +
            if made == 0 && Remaining(order, s.created) != [] && n + 1 < maxRetries then 1 else 0
  {
  }

  /** create_tables_lazy, the loop: order is the sorted list of missing tables. */
  method CreateTablesLazy(w: World, order: seq<Table>, existing: set<Table>, maxRetries: nat, firstDelay: real)
    returns (s: State, delay: real, slept: seq<real>)
    requires forall t :: t in order ==> t !in existing
    ensures s == Rounds(w, order, Start(existing), maxRetries)
    ensures delay == firstDelay || delay <= 10.0
    ensures |slept| == Waits(w, order, Start(existing), maxRetries, maxRetries)
    ensures BackedOff(slept, firstDelay, delay)
  {
    s, delay, slept := Start(existing), firstDelay, [];
    ghost var s0 := s;
    var attempt := 0;
    while attempt < maxRetries
      invariant attempt <= maxRetries && s == Rounds(w, order, s0, attempt)
      invariant s.tables <= s.created
      invariant |slept| == Waits(w, order, s0, attempt, maxRetries)
      invariant BackedOff(slept, firstDelay, delay)
    {
      var remaining := Remaining(order, s.created);
      if remaining == [] {
        NothingLeft(w, order, s, s0, attempt, maxRetries);
        NoMoreWaits(w, order, s, s0, attempt, maxRetries);
        break;
      }
      RemainingNew(order, s);
      ghost var before := s;
      var createdThisRound;
      s, createdThisRound := VisitAll(w, remaining, s);
      OneRound(w, order, s0, attempt, maxRetries, before, s, createdThisRound);
      attempt := attempt + 1;
      if createdThisRound == 0 && Remaining(order, s.created) != [] && attempt < maxRetries {
        var next := if delay * 1.5 < 10.0 then delay * 1.5 else 10.0;
        BackOff(slept, firstDelay, delay, next);
        slept, delay := slept + [delay], next;
      }
    }
    BackoffBound(slept, firstDelay, delay);
  }

  /** The inner loop; it counts the tables it creates. */
  method VisitAll(w: World, remaining: seq<Table>, s0: State) returns (s: State, createdThisRound: nat)
    requires s0.tables <= s0.created && forall t :: t in remaining ==> t !in s0.tables
    ensures s == Visit(w, remaining, s0) && s.tables <= s.created
    ensures createdThisRound == 0 <==> s.tables == s0.tables
  {
    s, createdThisRound := s0, 0;
    for i := 0 to |remaining|
      invariant s == Visit(w, remaining[..i], s0)
      invariant s.tables <= s.created && s0.tables <= s.tables
      invariant createdThisRound == 0 <==> s.tables == s0.tables
    {
      assert remaining[..i + 1][..i] == remaining[..i];
      var t := remaining[i];
      if Satisfied(w, t, s.tables) {
        if t in w.clash {
          s := s.(created := s.created + {t});
        } else {
          s := State(s.created + {t}, s.tables + {t});
          createdThisRound := createdThisRound + 1;
        }
      }
    }
    assert remaining[..|remaining|] == remaining;
  }

  /** Rounds with nothing left change nothing. */
  lemma {:induction false} NothingLeft(w: World, order: seq<Table>, s: State, s0: State, k: nat, n: nat)
    requires k <= n && s == Rounds(w, order, s0, k) && Remaining(order, s.created) == []
    ensures Rounds(w, order, s0, n) == s
    decreases n - k
  {
    if k < n {
      NothingLeft(w, order, s, s0, k + 1, n);
    }
  }

  lemma {:induction false} NoMoreWaits(w: World, order: seq<Table>, s: State, s0: State, k: nat, n: nat)
    requires k <= n && s == Rounds(w, order, s0, k) && Remaining(order, s.created) == []
    ensures Waits(w, order, s0, n, n) == Waits(w, order, s0, k, n)
  {
    for i := k to n
      invariant Rounds(w, order, s0, i) == s && Waits(w, order, s0, i, n) == Waits(w, order, s0, k, n)
    {
    }
  }

  lemma {:induction false} RemainingNew(order: seq<Table>, s: State)
    requires s.tables <= s.created
    ensures forall t :: t in Remaining(order, s.created) ==> t !in s.tables
  {
    forall t | t in Remaining(order, s.created)
      ensures t !in s.tables
    {
      RemainingIs(order, s.created, t);
    }
  }

  // ------------------------------------------------------------- what holds always

  /** Tables only come from the missing ones, belief and fact differ at clashes only. */
  ghost predicate Inv(w: World, order: seq<Table>, existing: set<Table>, s: State) {
    && existing <= s.tables <= s.created && s.created - s.tables <= w.clash
    && (forall t :: t in s.created ==> t in existing || t in order)
    && forall t :: t in s.tables ==> t in existing || t !in w.clash
  }

  lemma {:induction false} VisitKeeps(w: World, order: seq<Table>, existing: set<Table>, list: seq<Table>, s: State)
    requires Inv(w, order, existing, s) && forall t :: t in list ==> t in order
    ensures Inv(w, order, existing, Visit(w, list, s))
    ensures s.tables <= Visit(w, list, s).tables && s.created <= Visit(w, list, s).created
  {
    if list != [] {
      var n := |list| - 1;
      VisitKeeps(w, order, existing, list[..n], s);
    }
  }

  lemma {:induction false} RoundsKeep(w: World, order: seq<Table>, existing: set<Table>, n: nat)
    ensures Inv(w, order, existing, Rounds(w, order, Start(existing), n))
    ensures n > 0 ==> Rounds(w, order, Start(existing), n - 1).tables <= Rounds(w, order, Start(existing), n).tables
  {
    if n > 0 {
      RoundsKeep(w, order, existing, n - 1);
      var s := Rounds(w, order, Start(existing), n - 1);
      RemainingWithin(order, s.created);
      VisitKeeps(w, order, existing, Remaining(order, s.created), s);
    }
  }

  // -------------------------------------------------------------- least fixed point

  /** A set of tables that contains the existing ones and every creatable table
      whose references it contains. */
  ghost predicate Closed(w: World, order: seq<Table>, existing: set<Table>, x: set<Table>) {
    existing <= x && forall t :: t in order && t !in w.clash && Satisfied(w, t, x) ==> t in x
  }

  lemma {:induction false} VisitBelow(w: World, order: seq<Table>, existing: set<Table>, list: seq<Table>, s: State, x: set<Table>)
    requires Closed(w, order, existing, x) && s.tables <= x && forall t :: t in list ==> t in order
    ensures Visit(w, list, s).tables <= x
  {
    if list != [] {
      VisitBelow(w, order, existing, list[..|list| - 1], s, x);
    }
  }

  /** No round ever goes beyond a closed set. */
  lemma {:induction false} RoundsBelow(w: World, order: seq<Table>, existing: set<Table>, n: nat, x: set<Table>)
    requires Closed(w, order, existing, x)
    ensures Rounds(w, order, Start(existing), n).tables <= x
  {
    if n > 0 {
      RoundsBelow(w, order, existing, n - 1, x);
      var s := Rounds(w, order, Start(existing), n - 1);
      RemainingWithin(order, s.created);
      VisitBelow(w, order, existing, Remaining(order, s.created), s, x);
    }
  }

  /** Whatever can be created when a round begins exists when it ends. */
  lemma {:induction false} VisitCreates(w: World, list: seq<Table>, s: State, t: Table)
    requires t in list && t !in w.clash && Satisfied(w, t, s.tables)
    ensures t in Visit(w, list, s).tables
    decreases |list|
  {
    var n := |list| - 1;
    VisitGrows(w, list[..n], s);
    if t != list[n] {
      assert t in list[..n];
      VisitCreates(w, list[..n], s, t);
    }
  }

  lemma {:induction false} VisitGrows(w: World, list: seq<Table>, s: State)
    ensures s.tables <= Visit(w, list, s).tables
  {
    if list != [] {
      VisitGrows(w, list[..|list| - 1], s);
    }
  }

  lemma {:induction false} RoundCreates(w: World, order: seq<Table>, existing: set<Table>, s: State, t: Table)
    requires Inv(w, order, existing, s) && t in order && t !in w.clash && Satisfied(w, t, s.tables)
    ensures t in Round(w, order, s).tables
  {
    VisitGrows(w, Remaining(order, s.created), s);
    if t !in s.created {
      RemainingIs(order, s.created, t);
      VisitCreates(w, Remaining(order, s.created), s, t);
    }
  }

  // ---------------------------------------------------- what the loop believes

  lemma {:induction false} VisitBelieves(w: World, list: seq<Table>, s: State, t: Table)
    requires t in list && Satisfied(w, t, s.tables)
    ensures t in Visit(w, list, s).created
    decreases |list|
  {
    var n := |list| - 1;
    VisitGrows(w, list[..n], s);
    if t != list[n] {
      assert t in list[..n];
      VisitBelieves(w, list[..n], s, t);
    }
  }

  /** Everything believed was there or has what it refers to. */
  ghost predicate Founded(w: World, existing: set<Table>, s: State) {
    forall t :: t in s.created ==> t in existing || Satisfied(w, t, s.tables)
  }

  lemma {:induction false} VisitFounded(w: World, existing: set<Table>, list: seq<Table>, s: State)
    requires Founded(w, existing, s)
    ensures Founded(w, existing, Visit(w, list, s))
  {
    if list != [] {
      var n := |list| - 1;
      VisitFounded(w, existing, list[..n], s);
      AttemptFounded(w, existing, list[n], Visit(w, list[..n], s));
    }
  }

  lemma {:induction false} AttemptFounded(w: World, existing: set<Table>, t: Table, s: State)
    requires Founded(w, existing, s)
    ensures Founded(w, existing, Attempt(w, t, s))
  {
    assert s.tables <= Attempt(w, t, s).tables;
  }

  /** Nothing is believed before all it refers to exists. */
  lemma {:induction false} NothingTooEarly(w: World, order: seq<Table>, existing: set<Table>, n: nat)
    ensures Founded(w, existing, Rounds(w, order, Start(existing), n))
  {
    if n > 0 {
      NothingTooEarly(w, order, existing, n - 1);
      var s := Rounds(w, order, Start(existing), n - 1);
      VisitFounded(w, existing, Remaining(order, s.created), s);
    }
  }

  /** A name that clashes is believed one round after all it refers to exists, and from
      then on, though its table never does; it is not tried again. */
  lemma {:induction false} ClashBelieved(w: World, order: seq<Table>, existing: set<Table>, n: nat, t: Table)
    requires t in order && t in w.clash && t !in existing
    requires var s := Rounds(w, order, Start(existing), n); t in s.created || Satisfied(w, t, s.tables)
    ensures var s := Rounds(w, order, Start(existing), n + 1);
            t in s.created && t !in s.tables && t !in Remaining(order, s.created)
  {
    BelievedNext(w, order, Rounds(w, order, Start(existing), n), t);
    ClashTold(w, order, existing, n + 1, t);
  }

  lemma {:induction false} BelievedNext(w: World, order: seq<Table>, s: State, t: Table)
    requires t in order && (t in s.created || Satisfied(w, t, s.tables))
    ensures t in Round(w, order, s).created
  {
    if t in s.created {
      BelievedKept(w, order, s, t);
    } else {
      BelievedReady(w, order, s, t);
    }
  }

  lemma {:induction false} BelievedKept(w: World, order: seq<Table>, s: State, t: Table)
    requires t in s.created
    ensures t in Round(w, order, s).created
  {
    VisitKeepsBelief(w, Remaining(order, s.created), s);
  }

  lemma {:induction false} BelievedReady(w: World, order: seq<Table>, s: State, t: Table)
    requires t in order && t !in s.created && Satisfied(w, t, s.tables)
    ensures t in Round(w, order, s).created
  {
    RemainingIs(order, s.created, t);
    VisitBelieves(w, Remaining(order, s.created), s, t);
  }

  lemma {:induction false} ClashTold(w: World, order: seq<Table>, existing: set<Table>, n: nat, t: Table)
    requires t in w.clash && t !in existing && t in Rounds(w, order, Start(existing), n).created
    ensures var s := Rounds(w, order, Start(existing), n);
            t !in s.tables && t !in Remaining(order, s.created)
  {
    ClashMissing(w, order, existing, n, t);
    RemainingIs(order, Rounds(w, order, Start(existing), n).created, t);
  }

  lemma {:induction false} VisitKeepsBelief(w: World, list: seq<Table>, s: State)
    ensures s.created <= Visit(w, list, s).created
  {
    if list != [] {
      VisitKeepsBelief(w, list[..|list| - 1], s);
    }
  }

  lemma {:induction false} ClashMissing(w: World, order: seq<Table>, existing: set<Table>, n: nat, t: Table)
    requires t in w.clash && t !in existing
    ensures t !in Rounds(w, order, Start(existing), n).tables
  {
    RoundsKeep(w, order, existing, n);
  }

  /** A round that creates nothing shows that nothing more can be created. */
  lemma {:induction false} StuckIsClosed(w: World, order: seq<Table>, existing: set<Table>, s: State)
    requires Inv(w, order, existing, s) && Round(w, order, s).tables == s.tables
    ensures Closed(w, order, existing, s.tables)
  {
    forall t | t in order && t !in w.clash && Satisfied(w, t, s.tables)
      ensures t in s.tables
    {
      RoundCreates(w, order, existing, s, t);
    }
  }

  /** After a round that creates nothing, no later round creates anything. */
  lemma {:induction false} StuckForever(w: World, order: seq<Table>, existing: set<Table>, k: nat, n: nat)
    requires k <= n
    requires Rounds(w, order, Start(existing), k + 1).tables == Rounds(w, order, Start(existing), k).tables
    ensures Rounds(w, order, Start(existing), n).tables == Rounds(w, order, Start(existing), k).tables
  {
    RoundsKeep(w, order, existing, k);
    StuckIsClosed(w, order, existing, Rounds(w, order, Start(existing), k));
    RoundsBelow(w, order, existing, n, Rounds(w, order, Start(existing), k).tables);
    RoundsGrow(w, order, existing, k, n);
  }

  lemma {:induction false} RoundsGrow(w: World, order: seq<Table>, existing: set<Table>, k: nat, n: nat)
    requires k <= n
    ensures Rounds(w, order, Start(existing), k).tables <= Rounds(w, order, Start(existing), n).tables
    decreases n
  {
    if k < n {
      RoundsGrow(w, order, existing, k, n - 1);
      OneGrows(w, order, existing, n);
    }
  }

  lemma {:induction false} OneGrows(w: World, order: seq<Table>, existing: set<Table>, n: nat)
    requires n > 0
    ensures Rounds(w, order, Start(existing), n - 1).tables <= Rounds(w, order, Start(existing), n).tables
  {
    RoundsKeep(w, order, existing, n);
  }

  /** Nothing more can be created, or at least n tables were. */
  ghost predicate Progress(w: World, order: seq<Table>, existing: set<Table>, s: State, n: nat) {
    match s
    case State(_, tables) => Closed(w, order, existing, tables) || |tables - existing| >= n
  }

  /** Every round gains a table until the tables are closed. */
  lemma {:induction false} RoundsProgress(w: World, order: seq<Table>, existing: set<Table>, n: nat)
    ensures Progress(w, order, existing, Rounds(w, order, Start(existing), n), n)
  {
    if n > 0 {
      RoundsProgress(w, order, existing, n - 1);
      NextGains(w, order, existing, Rounds(w, order, Start(existing), n - 1), n - 1);
    }
  }

  lemma {:induction false} NextGains(w: World, order: seq<Table>, existing: set<Table>, s: State, n: nat)
    requires s == Rounds(w, order, Start(existing), n) && Progress(w, order, existing, s, n)
    ensures Progress(w, order, existing, Round(w, order, s), n + 1)
  {
    RoundsKeep(w, order, existing, n);
    RoundGains(w, order, existing, s, n);
  }

  lemma {:induction false} RoundGains(w: World, order: seq<Table>, existing: set<Table>, s: State, n: nat)
    requires Inv(w, order, existing, s) && Progress(w, order, existing, s, n)
    ensures Progress(w, order, existing, Round(w, order, s), n + 1)
  {
    var next := Round(w, order, s);
    VisitGrows(w, Remaining(order, s.created), s);
    if next.tables == s.tables {
      StuckIsClosed(w, order, existing, s);
    } else if Closed(w, order, existing, s.tables) {
      RemainingWithin(order, s.created);
      VisitBelow(w, order, existing, Remaining(order, s.created), s, s.tables);
    } else {
      var t :| t in next.tables && t !in s.tables;
      assert t in next.tables - existing && t !in s.tables - existing;
      Bigger(s.tables - existing, next.tables - existing);
    }
  }

  lemma {:induction false} Bigger(a: set<Table>, b: set<Table>)
    requires a <= b && a != b
    ensures |a| < |b|
  {
    assert b == a + (b - a);
  }

  /** With as many rounds as missing tables the result is the least closed set, so
      it does not depend on the order of the visits. */
  lemma {:induction false} LeastFixedPoint(w: World, order: seq<Table>, existing: set<Table>, n: nat, missing: set<Table>)
    requires (forall t :: t in missing <==> t in order) && n >= |missing|
    ensures var x := Rounds(w, order, Start(existing), n).tables;
            && Closed(w, order, existing, x)
            && forall y :: Closed(w, order, existing, y) ==> x <= y
  {
    RoundsProgress(w, order, existing, n);
    RoundsKeep(w, order, existing, n);
    var x := Rounds(w, order, Start(existing), n).tables;
    if x - existing != missing {
      Bigger(x - existing, missing);
    }
    forall y | Closed(w, order, existing, y)
      ensures x <= y
    {
      RoundsBelow(w, order, existing, n, y);
    }
  }

  lemma {:induction false} OrderDoesNotMatter(w: World, order1: seq<Table>, order2: seq<Table>, existing: set<Table>, n: nat, missing: set<Table>)
    requires (forall t :: t in missing <==> t in order1) && (forall t :: t in missing <==> t in order2)
    requires n >= |missing|
    ensures Rounds(w, order1, Start(existing), n).tables == Rounds(w, order2, Start(existing), n).tables
  {
    LeastFixedPoint(w, order1, existing, n, missing);
    LeastFixedPoint(w, order2, existing, n, missing);
    var x, y := Rounds(w, order1, Start(existing), n).tables, Rounds(w, order2, Start(existing), n).tables;
    assert Closed(w, order1, existing, y) && Closed(w, order2, existing, x);
  }

  // ---------------------------------------------------------------- how many rounds

  /** The tables whose references nest at most k deep. */
  function Level(w: World, order: seq<Table>, existing: set<Table>, k: nat): set<Table> {
    if k == 0 then existing
    else
      var below := Level(w, order, existing, k - 1);
      below + NextLevel(w, order, below)
  }

  function NextLevel(w: World, order: seq<Table>, below: set<Table>): set<Table> {
    set t | t in order && t !in w.clash && Satisfied(w, t, below)
  }

  /** After k rounds every table of depth at most k exists. */
  lemma {:induction false} DepthReached(w: World, order: seq<Table>, existing: set<Table>, k: nat)
    ensures Level(w, order, existing, k) <= Rounds(w, order, Start(existing), k).tables
  {
    if k > 0 {
      DepthReached(w, order, existing, k - 1);
      RoundsKeep(w, order, existing, k - 1);
      LevelReached(w, order, existing, Rounds(w, order, Start(existing), k - 1), Level(w, order, existing, k - 1));
    }
  }

  lemma {:induction false} LevelReached(w: World, order: seq<Table>, existing: set<Table>, s: State, below: set<Table>)
    requires Inv(w, order, existing, s) && below <= s.tables
    ensures below + NextLevel(w, order, below) <= Round(w, order, s).tables
  {
    VisitGrows(w, Remaining(order, s.created), s);
    forall t | t in order && t !in w.clash && Satisfied(w, t, below)
      ensures t in Round(w, order, s).tables
    {
      RoundCreates(w, order, existing, s, t);
    }
  }

  /** Every table comes before the tables it refers to. */
  ghost predicate WorstOrder(w: World, order: seq<Table>) {
    forall i, j :: 0 <= j <= i < |order| ==> order[j] !in w.deps(order[i]) - {order[i]}
  }

  /** In the worst order a round creates only what could be created when it began. */
  lemma {:induction false} WorstVisit(w: World, order: seq<Table>, m: nat, s: State)
    requires WorstOrder(w, order) && m <= |order|
    ensures Visit(w, Remaining(order[..m], s.created), s).tables <= s.tables + NextLevel(w, order[..m], s.tables)
    decreases m
  {
    if m > 0 {
      WorstVisit(w, order, m - 1, s);
      VisitLast(w, order, m, s);
      WorstLast(w, order, m, s.tables, Visit(w, Remaining(order[..m - 1], s.created), s));
    }
  }

  lemma {:induction false} WorstLast(w: World, order: seq<Table>, m: nat, tables: set<Table>, before: State)
    requires WorstOrder(w, order) && 0 < m <= |order|
    requires before.tables <= tables + NextLevel(w, order[..m - 1], tables)
    ensures before.tables <= tables + NextLevel(w, order[..m], tables)
    ensures Attempt(w, order[m - 1], before).tables <= tables + NextLevel(w, order[..m], tables)
  {
    var t := order[m - 1];
    assert order[..m] == order[..m - 1] + [t];
    if Satisfied(w, t, before.tables) {
      forall d | d in w.deps(t) - {t}
        ensures d in tables
      {
        assert d in before.tables;
      }
    }
  }

  /** The last table of a round is tried when the others have been. */
  lemma {:induction false} VisitLast(w: World, order: seq<Table>, m: nat, s: State)
    requires 0 < m <= |order|
    ensures var before := Visit(w, Remaining(order[..m - 1], s.created), s);
            Visit(w, Remaining(order[..m], s.created), s) ==
            if order[m - 1] in s.created then before else Attempt(w, order[m - 1], before)
  {
    var list := Remaining(order[..m - 1], s.created);
    assert order[..m][..m - 1] == order[..m - 1];
    VisitOne(w, list, order[m - 1], s);
    assert list + [] == list;
  }

  lemma {:induction false} VisitOne(w: World, list: seq<Table>, t: Table, s: State)
    ensures Visit(w, list + [t], s) == Attempt(w, t, Visit(w, list, s))
  {
    assert (list + [t])[..|list|] == list;
  }

  /** In the worst order the depth bound is exact: k rounds create the tables of
      depth at most k and no others, so a deeper table outlasts any fixed limit. */
  lemma {:induction false} WorstOrderIsExact(w: World, order: seq<Table>, existing: set<Table>, k: nat)
    requires WorstOrder(w, order)
    ensures Rounds(w, order, Start(existing), k).tables == Level(w, order, existing, k)
  {
    DepthReached(w, order, existing, k);
    WorstWithin(w, order, existing, k);
  }

  lemma {:induction false} WorstWithin(w: World, order: seq<Table>, existing: set<Table>, k: nat)
    requires WorstOrder(w, order)
    ensures Rounds(w, order, Start(existing), k).tables <= Level(w, order, existing, k)
  {
    if k > 0 {
      WorstWithin(w, order, existing, k - 1);
      WorstNext(w, order, Rounds(w, order, Start(existing), k - 1), Level(w, order, existing, k - 1));
    }
  }

  lemma {:induction false} WorstNext(w: World, order: seq<Table>, s: State, below: set<Table>)
    requires WorstOrder(w, order) && s.tables <= below
    ensures Round(w, order, s).tables <= below + NextLevel(w, order, below)
  {
    WorstRound(w, order, s);
  }

  lemma {:induction false} WorstRound(w: World, order: seq<Table>, s: State)
    requires WorstOrder(w, order)
    ensures Round(w, order, s).tables <= s.tables + NextLevel(w, order, s.tables)
  {
    assert order[..|order|] == order;
    WorstVisit(w, order, |order|, s);
  }

  // ------------------------------------------------------------------------- cycles

  /** Each table of the path refers to the next one. */
  ghost predicate Path(w: World, p: seq<Table>) {
    forall i, j :: 0 <= i && j == i + 1 && j < |p| ==> p[j] in w.deps(p[i]) - {p[i]}
  }

  ghost predicate Within(p: seq<Table>, left: set<Table>) {
    forall i :: 0 <= i < |p| ==> p[i] in left
  }

  /** When a round creates nothing and every reference is to a known table, the
      tables that are left refer to each other in a cycle. */
  lemma {:induction false} StuckHasCycle(w: World, order: seq<Table>, existing: set<Table>, s: State, left: set<Table>)
    returns (p: seq<Table>)
    requires Inv(w, order, existing, s) && w.clash == {} && Round(w, order, s).tables == s.tables
    requires (forall t :: t in left <==> t in order && t !in s.tables) && left != {}
    requires forall t, d :: t in order && d in w.deps(t) ==> d in existing || d in order
    ensures |p| >= 2 && p[0] == p[|p| - 1] && Path(w, p) && Within(p, left)
  {
    StuckIsClosed(w, order, existing, s);
    forall u {:trigger Next(w, left, u)} | u in left
      ensures Next(w, left, u) != {}
    {
      WaitsForLeft(w, order, existing, s, left, u);
    }
    p := CycleIn(w, left);
  }

  lemma {:induction false} CycleIn(w: World, left: set<Table>) returns (p: seq<Table>)
    requires left != {} && forall u {:trigger Next(w, left, u)} :: u in left ==> Next(w, left, u) != {}
    ensures |p| >= 2 && p[0] == p[|p| - 1] && Path(w, p) && Within(p, left)
  {
    var t :| t in left;
    var q := Walk(w, left, t, |left|);
    var i, j := Repeat(q, left);
    p := q[i..j + 1];
    Stretch(w, q, i, j + 1, left);
  }

  lemma {:induction false} Stretch(w: World, q: seq<Table>, i: nat, j: nat, left: set<Table>)
    requires Path(w, q) && Within(q, left) && i <= j <= |q|
    ensures Path(w, q[i..j]) && Within(q[i..j], left)
  {
    var p := q[i..j];
    assert forall k :: 0 <= k < |p| ==> p[k] == q[i + k];
  }

  /** A table that is left refers to another one that is left. */
  lemma {:induction false} WaitsForLeft(w: World, order: seq<Table>, existing: set<Table>, s: State, left: set<Table>, u: Table)
    requires Closed(w, order, existing, s.tables) && w.clash == {}
    requires (forall t :: t in left <==> t in order && t !in s.tables) && u in left
    requires forall d :: d in w.deps(u) ==> d in existing || d in order
    ensures Next(w, left, u) != {}
  {
    var d :| d in w.deps(u) - {u} && d !in s.tables;
    assert d in Next(w, left, u);
  }

  function Next(w: World, left: set<Table>, t: Table): set<Table> {
    (w.deps(t) - {t}) * left
  }

  lemma {:induction false} Walk(w: World, left: set<Table>, t: Table, n: nat) returns (p: seq<Table>)
    requires t in left && forall u {:trigger Next(w, left, u)} :: u in left ==> Next(w, left, u) != {}
    ensures |p| == n + 1 && p[0] == t && Path(w, p) && Within(p, left)
    decreases n
  {
    p := [t];
    if n > 0 {
      assert Next(w, left, t) != {};
      var d :| d in Next(w, left, t);
      var rest := Walk(w, left, d, n - 1);
      p := [t] + rest;
      assert forall i :: 0 < i < |p| ==> p[i] == rest[i - 1];
    }
  }

  /** More places than tables: one occurs twice. */
  lemma {:induction false} Repeat(p: seq<Table>, left: set<Table>) returns (i: nat, j: nat)
    requires Within(p, left) && |p| > |left|
    ensures i < j < |p| && p[i] == p[j]
    decreases |p|
  {
    var n := |p| - 1;
    if k :| 0 <= k < n && p[k] == p[n] {
      i, j := k, n;
    } else {
      var fewer := left - {p[n]};
      assert left == fewer + {p[n]};
      i, j := Repeat(p[..n], fewer);
    }
  }
}
