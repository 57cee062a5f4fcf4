/**
 The deferred start-up hook of app/__init__.py: any number of requests run it at
 once; each step below is one access to the flag, the lock or a worker thread.
 */
module Startup {

  /** The body starts this many worker threads. */
  const WORKERS := 3

  datatype Pc =
    | Enter(isStatic: bool)
    | WantLock
    | Recheck
    | Body(next: nat)
    | Left(isStatic: bool)
    | Raised(at: nat)

  /** done is the STARTUP_DONE flag; starts counts the starts of each worker. */
  datatype State = State(done: bool, lock: set<nat>, pcs: map<nat, Pc>, starts: seq<nat>)

  ghost predicate Init(s: State) {
    && !s.done && s.lock == {} && s.starts == seq(WORKERS, _ => 0)
    && forall r :: r in s.pcs ==> s.pcs[r].Enter?
  }

  function Goes(s: State, r: nat, pc: Pc): State {
    s.(pcs := s.pcs[r := pc])
  }

  /** One step of request r. */
  ghost predicate Step(s: State, s': State, r: nat) {
    && r in s.pcs
    && match s.pcs[r]
       case Enter(isStatic) =>
         s' == Goes(s, r, if isStatic || s.done then Left(isStatic) else WantLock)
       case WantLock =>
         s.lock == {} && s' == Goes(s, r, Recheck).(lock := {r})
       case Recheck =>
         if s.done then s' == Goes(s, r, Left(false)).(lock := {})
         else s' == Goes(s, r, Body(0)).(done := true)
       case Body(n) =>
         if n >= WORKERS then s' == Goes(s, r, Left(false)).(lock := {})
         else
           // Starting the thread may raise, and then the lock is released.
           || s' == Goes(s, r, Raised(n)).(lock := {})
           || (n < |s.starts| && s' == Goes(s, r, Body(n + 1)).(starts := s.starts[n := s.starts[n] + 1]))
       case Left(_) => false
       case Raised(_) => false
  }

  predicate Holds(pc: Pc) {
    pc.Recheck? || pc.Body?
  }

  /** The workers before n were started once, the others not at all. */
  function FirstStarted(n: nat): seq<nat> {
    seq(WORKERS, k => if k < n then 1 else 0)
  }

  /** The lock is held by the one request that is between taking and releasing it. */
  ghost predicate Locked(s: State) {
    && (forall r :: r in s.pcs && Holds(s.pcs[r]) ==> s.lock == {r})
    && (s.lock == {} || exists h :: h in s.pcs && s.lock == {h} && Holds(s.pcs[h]))
  }

  /** Before the body nothing was started; while it runs, the workers before its
      position; after it all of them, or those before the start that raised. */
  ghost predicate Started(s: State) {
    && (forall r :: r in s.pcs && (s.pcs[r].Body? || s.pcs[r] == Left(false) || s.pcs[r].Raised?) ==> s.done)
    && (!s.done ==> s.starts == FirstStarted(0))
    && (forall r :: r in s.pcs && s.pcs[r].Body? ==>
          s.pcs[r].next <= WORKERS && s.starts == FirstStarted(s.pcs[r].next) && NobodyRaised(s))
    && (forall r :: r in s.pcs && s.pcs[r].Raised? ==> s.pcs[r].at < WORKERS && s.starts == FirstStarted(s.pcs[r].at))
    && (forall q, r :: q in s.pcs && r in s.pcs && s.pcs[q].Raised? && s.pcs[r].Raised? ==> q == r)
    && (s.done && !BodyRuns(s) && NobodyRaised(s) ==> s.starts == FirstStarted(WORKERS))
  }

  ghost predicate Inv(s: State) {
    Locked(s) && Started(s)
  }

  ghost predicate NobodyRaised(s: State) {
    forall r :: r in s.pcs ==> !s.pcs[r].Raised?
  }

  ghost predicate BodyRuns(s: State) {
    exists r :: r in s.pcs && s.pcs[r].Body?
  }

  lemma {:induction false} StepKeeps(s: State, s': State, r: nat)
    requires Inv(s) && Step(s, s', r)
    ensures Inv(s')
  {
    LockKeeps(s, s', r);
    if s.pcs[r].Body? {
      BodyKeeps(s, s', r);
    } else if s.pcs[r].Recheck? && !s.done {
      BodyBegins(s, s', r);
    } else {
      HookKeeps(s, s', r);
    }
  }

  lemma {:induction false} LockKeeps(s: State, s': State, r: nat)
    requires Locked(s) && Step(s, s', r)
    ensures Locked(s')
  {
    assert forall q :: q in s.pcs && q != r ==> q in s'.pcs && s'.pcs[q] == s.pcs[q];
    assert s'.pcs.Keys == s.pcs.Keys;
    if h :| h in s.pcs && s.lock == {h} && Holds(s.pcs[h]) {
      assert h != r ==> s'.pcs[h] == s.pcs[h] && s'.lock == s.lock;
    }
  }

  lemma {:induction false} BodyBegins(s: State, s': State, r: nat)
    requires Inv(s) && Step(s, s', r) && s.pcs[r].Recheck? && !s.done
    ensures Started(s')
  {
    assert forall q :: q in s.pcs && q != r ==> q in s'.pcs && s'.pcs[q] == s.pcs[q] && !Holds(s.pcs[q]);
    assert s'.pcs.Keys == s.pcs.Keys && s'.starts == s.starts;
  }

  lemma {:induction false} HookKeeps(s: State, s': State, r: nat)
    requires Started(s) && Step(s, s', r) && !s.pcs[r].Body? && !(s.pcs[r].Recheck? && !s.done)
    ensures Started(s')
  {
    assert forall q :: q in s.pcs && q != r ==> q in s'.pcs && s'.pcs[q] == s.pcs[q];
    assert s'.pcs.Keys == s.pcs.Keys && s'.starts == s.starts && s'.done == s.done;
    assert !s'.pcs[r].Body? && !s'.pcs[r].Raised?;
    assert NobodyRaised(s') == NobodyRaised(s) && BodyRuns(s') == BodyRuns(s);
  }

  lemma {:induction false} BodyKeeps(s: State, s': State, r: nat)
    requires Inv(s) && Step(s, s', r) && s.pcs[r].Body?
    ensures Started(s')
  {
    assert forall q :: q in s.pcs && q != r ==> q in s'.pcs && s'.pcs[q] == s.pcs[q] && !Holds(s.pcs[q]);
    assert s'.pcs.Keys == s.pcs.Keys && s'.done;
    var n := s.pcs[r].next;
    if n < WORKERS {
      assert FirstStarted(n)[n := FirstStarted(n)[n] + 1] == FirstStarted(n + 1);
    }
    assert !s'.pcs[r].Body? ==> !BodyRuns(s');
  }

  /** A run: any interleaving of the requests. */
  ghost predicate Run(ss: seq<State>, who: seq<nat>) {
    && |ss| == |who| + 1 && Init(ss[0])
    && forall i :: 0 <= i < |who| ==> Step(ss[i], ss[i + 1], who[i])
  }

  lemma {:induction false} RunKeeps(ss: seq<State>, who: seq<nat>, i: nat)
    requires Run(ss, who) && i < |ss|
    ensures Inv(ss[i])
  {
    if i > 0 {
      RunKeeps(ss, who, i - 1);
      assert Step(ss[i - 1], ss[i], who[i - 1]);
      StepKeeps(ss[i - 1], ss[i], who[i - 1]);
    }
  }

  /** In every state of every run: each worker was started at most once, at most one
      request is inside the lock, and a non-static request that has left finds the
      flag set. */
  lemma {:induction false} StartupSafe(ss: seq<State>, who: seq<nat>, i: nat)
    requires Run(ss, who) && i < |ss|
    ensures |ss[i].starts| == WORKERS && forall n :: 0 <= n < WORKERS ==> ss[i].starts[n] <= 1
    ensures forall q, r :: q in ss[i].pcs && r in ss[i].pcs && Holds(ss[i].pcs[q]) && Holds(ss[i].pcs[r]) ==> q == r
    ensures forall r :: r in ss[i].pcs && ss[i].pcs[r] == Left(false) ==> ss[i].done
  {
    RunKeeps(ss, who, i);
    var n := StartedSoFar(ss[i]);
    forall q, r | q in ss[i].pcs && r in ss[i].pcs && Holds(ss[i].pcs[q]) && Holds(ss[i].pcs[r])
      ensures q == r
    {
      assert q in ss[i].lock && r in ss[i].lock;
    }
  }

  /** Some first workers were started, once each. */
  lemma {:induction false} StartedSoFar(s: State) returns (n: nat)
    requires Inv(s)
    ensures n <= WORKERS && s.starts == FirstStarted(n)
  {
    if !s.done {
      n := 0;
    } else if r :| r in s.pcs && s.pcs[r].Body? {
      n := s.pcs[r].next;
    } else if r :| r in s.pcs && s.pcs[r].Raised? {
      n := s.pcs[r].at;
    } else {
      n := WORKERS;
    }
  }

  /** Once the flag is set and no body is running, every worker was started once if
      and only if no start raised; and a start that raised is the one of the first
      worker that was not started. */
  lemma {:induction false} StartedExactly(ss: seq<State>, who: seq<nat>, i: nat)
    requires Run(ss, who) && i < |ss| && ss[i].done && !BodyRuns(ss[i])
    ensures ss[i].starts == [1, 1, 1] <==> NobodyRaised(ss[i])
    ensures forall r :: r in ss[i].pcs && ss[i].pcs[r].Raised? ==>
              ss[i].pcs[r].at < WORKERS && ss[i].starts == FirstStarted(ss[i].pcs[r].at)
  {
    RunKeeps(ss, who, i);
    assert FirstStarted(WORKERS) == [1, 1, 1];
    if r :| r in ss[i].pcs && ss[i].pcs[r].Raised? {
      var n := ss[i].pcs[r].at;
      assert FirstStarted(n)[n] == 0 && [1, 1, 1][n] == 1;
    }
  }

  /** A request for a static file comes and goes: it never waits for the lock nor
      holds it. */
  lemma {:induction false} StaticPasses(ss: seq<State>, who: seq<nat>, i: nat, r: nat)
    requires Run(ss, who) && i < |ss| && r in ss[0].pcs && ss[0].pcs[r] == Enter(true)
    ensures r in ss[i].pcs && (ss[i].pcs[r] == Enter(true) || ss[i].pcs[r] == Left(true)) && r !in ss[i].lock
    decreases i
  {
    RunKeeps(ss, who, i);
    if i > 0 {
      StaticPasses(ss, who, i - 1, r);
      assert Step(ss[i - 1], ss[i], who[i - 1]);
    }
  }

  /** Requests for static files alone start nothing. */
  lemma {:induction false} StaticStartsNothing(ss: seq<State>, who: seq<nat>, i: nat)
    requires Run(ss, who) && i < |ss| && forall r :: r in ss[0].pcs ==> ss[0].pcs[r] == Enter(true)
    ensures ss[i].starts == [0, 0, 0] && !ss[i].done && ss[i].pcs.Keys == ss[0].pcs.Keys
    decreases i
  {
    if i > 0 {
      StaticStartsNothing(ss, who, i - 1);
      var r := who[i - 1];
      assert Step(ss[i - 1], ss[i], r);
      StaticPasses(ss, who, i - 1, r);
    }
  }

  /** No deadlock: while a request is under way some request can move; and the one
      in the body can start its next worker. */
  lemma {:induction false} SomeoneMoves(s: State, r: nat) returns (q: nat, s': State)
    requires Inv(s) && r in s.pcs && !s.pcs[r].Left? && !s.pcs[r].Raised?
    ensures Step(s, s', q)
    ensures s.pcs[q].Body? && s.pcs[q].next < WORKERS ==> s'.starts == FirstStarted(s.pcs[q].next + 1)
  {
    if s.pcs[r].WantLock? && s.lock != {} {
      q :| q in s.pcs && s.lock == {q} && Holds(s.pcs[q]);
    } else {
      q := r;
    }
    match s.pcs[q] {
      case Enter(isStatic) => s' := Goes(s, q, if isStatic || s.done then Left(isStatic) else WantLock);
      case WantLock => s' := Goes(s, q, Recheck).(lock := {q});
      case Recheck =>
        s' := if s.done then Goes(s, q, Left(false)).(lock := {}) else Goes(s, q, Body(0)).(done := true);
      case Body(n) =>
        s' := if n >= WORKERS then Goes(s, q, Left(false)).(lock := {})
              else Goes(s, q, Body(n + 1)).(starts := s.starts[n := s.starts[n] + 1]);
        assert n < WORKERS ==> FirstStarted(n)[n := 1] == FirstStarted(n + 1);
    }
  }

  /** A worker whose start raised is never started: the flag was set before, so no
      later request runs the body again. */
  lemma {:induction false} FailedStartIsFinal(ss: seq<State>, who: seq<nat>, i: nat, j: nat)
    requires Run(ss, who) && i <= j < |ss| && ss[i].done && !BodyRuns(ss[i])
    ensures ss[j].starts == ss[i].starts && ss[j].done && !BodyRuns(ss[j])
    decreases j
  {
    if i < j {
      FailedStartIsFinal(ss, who, i, j - 1);
      assert Step(ss[j - 1], ss[j], who[j - 1]);
    }
  }

  /** Such a run: the first start raises, and another request then comes and goes
      without any worker. */
  lemma {:induction false} FirstStartRaises() returns (ss: seq<State>, who: seq<nat>)
    ensures Run(ss, who) && var s := ss[|who|];
            && s.done && !BodyRuns(s) && s.starts == FirstStarted(0)
            && 0 in s.pcs && s.pcs[0] == Raised(0) && 1 in s.pcs && s.pcs[1] == Left(false)
  {
    var a := State(false, {}, map[0 := Enter(false), 1 := Enter(false)], FirstStarted(0));
    var b := Goes(a, 0, WantLock);
    var c := Goes(b, 0, Recheck).(lock := {0});
    var d := Goes(c, 0, Body(0)).(done := true);
    var e := Goes(d, 0, Raised(0)).(lock := {});
    var f := Goes(e, 1, Left(false));
    ss, who := [a, b, c, d, e, f], [0, 0, 0, 0, 1];
    assert FirstStarted(0) == seq(WORKERS, _ => 0);
    assert Step(a, b, 0) && Step(b, c, 0) && Step(c, d, 0) && Step(d, e, 0) && Step(e, f, 1);
  }

  /** A request may be served before the workers are started: the flag is set at the
      top of the body. */
  lemma {:induction false} MayLeaveEarly() returns (ss: seq<State>, who: seq<nat>)
    ensures Run(ss, who) && 1 in ss[|who|].pcs && ss[|who|].pcs[1] == Left(false) && ss[|who|].starts == seq(WORKERS, _ => 0)
  {
    var none := seq(WORKERS, _ => 0);
    var a := State(false, {}, map[0 := Enter(false), 1 := Enter(false)], none);
    var b := Goes(a, 0, WantLock);
    var c := Goes(b, 0, Recheck).(lock := {0});
    var d := Goes(c, 0, Body(0)).(done := true);
    var e := Goes(d, 1, Left(false));
    ss, who := [a, b, c, d, e], [0, 0, 0, 1];
    assert Step(a, b, 0) && Step(b, c, 0) && Step(c, d, 0) && Step(d, e, 1);
  }
}
