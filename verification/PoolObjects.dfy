/** The pool and the transaction wrapper as objects (crates/cdk-sql-common/src/pool.rs:103-242,
    crates/cdk-sql-common/src/database.rs:61-111).  A call that nobody interrupts changes the
    fields step by step, and each of its steps is a step of the interleaving model; so whatever
    holds in every run of the model (`LeadsInv`) holds of the objects. */
module PoolObjects {
  import opened Wrappers
  import opened Pool

  datatype Trace = Nothing | Then(before: Trace, last: Event)

  /** The state after the events, if each of them could happen. */
  function After(s: State, trace: Trace): Option<State> {
    match trace
    case Nothing => Some(s)
    case Then(before, e) =>
      match After(s, before)
      case None => None
      case Some(m) => if Enabled(m, e) then Some(Step(m, e)) else None
  }

  /** Steps of the model lead from one state to the other. */
  ghost predicate Leads(s: State, r: State) {
    exists trace :: After(s, trace) == Some(r)
  }

  lemma LeadsNowhere(s: State)
    ensures Leads(s, s)
  {
    assert After(s, Nothing) == Some(s);
  }

  lemma LeadsOne(s: State, m: State, e: Event)
    requires Leads(s, m) && Enabled(m, e)
    ensures Leads(s, Step(m, e))
  {
    var trace :| After(s, trace) == Some(m);
    assert After(s, Then(trace, e)) == Some(Step(m, e));
  }

  lemma LeadsOn(s: State, m: State, r: State)
    requires Leads(s, m) && Leads(m, r)
    ensures Leads(s, r)
  {
    var trace :| After(m, trace) == Some(r);
    LeadsAlong(s, m, trace);
  }

  lemma {:induction false} LeadsAlong(s: State, m: State, trace: Trace)
    requires Leads(s, m) && After(m, trace).Some?
    ensures Leads(s, After(m, trace).value)
  {
    if trace.Then? {
      LeadsAlong(s, m, trace.before);
      LeadsOne(s, After(m, trace.before).value, trace.last);
    }
  }

  /** The rounds of client `t`: each begins with a pop. */
  function Rounds(trace: Trace, t: nat): nat {
    match trace
    case Nothing => 0
    case Then(before, e) => Rounds(before, t) + if e == Pop(t) then 1 else 0
  }

  /** The same, with `n` rounds of client `t`. */
  ghost predicate LeadsIn(s: State, r: State, t: nat, n: nat) {
    exists trace :: After(s, trace) == Some(r) && Rounds(trace, t) == n
  }

  lemma LeadsInNone(s: State, t: nat)
    ensures LeadsIn(s, s, t, 0)
  {
    assert After(s, Nothing) == Some(s) && Rounds(Nothing, t) == 0;
  }

  lemma LeadsInOne(s: State, m: State, t: nat, n: nat, e: Event)
    requires LeadsIn(s, m, t, n) && Enabled(m, e)
    ensures LeadsIn(s, Step(m, e), t, n + if e == Pop(t) then 1 else 0)
  {
    var trace :| After(s, trace) == Some(m) && Rounds(trace, t) == n;
    assert After(s, Then(trace, e)) == Some(Step(m, e));
    assert Rounds(Then(trace, e), t) == n + if e == Pop(t) then 1 else 0;
  }

  lemma LeadsInOn(s: State, m: State, r: State, t: nat, n: nat, k: nat)
    requires LeadsIn(s, m, t, n) && LeadsIn(m, r, t, k)
    ensures LeadsIn(s, r, t, n + k)
  {
    var trace :| After(m, trace) == Some(r) && Rounds(trace, t) == k;
    LeadsInAlong(s, m, t, n, trace);
  }

  lemma {:induction false} LeadsInAlong(s: State, m: State, t: nat, n: nat, trace: Trace)
    requires LeadsIn(s, m, t, n) && After(m, trace).Some?
    ensures LeadsIn(s, After(m, trace).value, t, n + Rounds(trace, t))
  {
    if trace.Then? {
      LeadsInAlong(s, m, t, n, trace.before);
      LeadsInOne(s, After(m, trace.before).value, t, n + Rounds(trace.before, t), trace.last);
    }
  }

  lemma LeadsInLeads(s: State, r: State, t: nat, n: nat)
    requires LeadsIn(s, r, t, n)
    ensures Leads(s, r)
  {
    var trace :| After(s, trace) == Some(r) && Rounds(trace, t) == n;
  }

  /** What is left of a queue after some rounds. */
  function Left(length: nat, rounds: nat): nat {
    if length <= rounds then 0 else length - rounds
  }

  /** Whatever a caller does, the invariants of the pool are kept. */
  lemma LeadsInv(s: State, r: State)
    requires Inv(s) && Leads(s, r)
    ensures Inv(r)
  {
    var trace :| After(s, trace) == Some(r);
    AfterInv(s, trace);
  }

  lemma {:induction false} AfterInv(s: State, trace: Trace)
    requires Inv(s) && After(s, trace).Some?
    ensures Inv(After(s, trace).value)
  {
    if trace.Then? {
      AfterInv(s, trace.before);
      StepInv(After(s, trace.before).value, trace.last);
    }
  }

  datatype PoolError = TimedOut | CreationFailed | MissingConnection | StatementFailed

  /** Only stale connections have left the queue, from its end. */
  predicate OnlyStaleGone(before: seq<nat>, queue: seq<nat>, stale: set<nat>) {
    && |queue| <= |before| && queue == before[..|queue|]
    && forall i :: |queue| <= i < |before| ==> before[i] in stale
  }

  /** What `get_timeout` of client `t` does to the pool: it takes the last connection that is not
      stale, or makes a new one while there is room, or gives up. */
  ghost predicate Gets(s: State, r: State, t: nat, result: Result<nat, PoolError>)
    requires t < |s.clients|
  {
    && r.lock.None? && r.stale == s.stale && r.open == s.open && r.failed == s.failed && r.maxSize == s.maxSize
    && match result
       case Ok(c) =>
         && r.clients == s.clients[t := Holding(c, Plain)] && r.inUse == s.inUse + 1 && r.leaked == s.leaked
         && (if r.next == s.next then c !in s.stale && OnlyStaleGone(s.queue, r.queue + [c], s.stale)
             else c == s.next && r.next == c + 1 && s.inUse < s.maxSize && OnlyStaleGone(s.queue, r.queue, s.stale))
       case Err(e) =>
         && r.clients == s.clients[t := Idle] && r.next == s.next && OnlyStaleGone(s.queue, r.queue, s.stale)
         && (if e == TimedOut then s.maxSize <= r.inUse == s.inUse && r.leaked == s.leaked
             else e == CreationFailed && r.inUse == s.inUse + 1 <= s.maxSize && r.leaked == s.leaked + 1)
  }

  /** A client in the loop of `get_timeout` has changed nothing but the queue. */
  ghost predicate InLoop(s: State, m: State, t: nat, pc: Pc)
    requires t < |s.clients|
  {
    && m == s.(queue := m.queue, lock := m.lock, clients := s.clients[t := pc])
    && OnlyStaleGone(s.queue, m.queue, s.stale)
  }

  lemma OneMoreGone(before: seq<nat>, m: seq<nat>, queue: seq<nat>, stale: set<nat>)
    requires OnlyStaleGone(before, m, stale) && OnlyStaleGone(m, queue, stale)
    ensures OnlyStaleGone(before, queue, stale)
  {
    forall i | |queue| <= i < |before| ensures before[i] in stale {
      if i < |m| {
        assert before[i] == m[i];
      }
    }
  }

  lemma WaitsOn(s: State, m: State, r: State, t: nat)
    requires t < |s.clients| && InLoop(s, m, t, Locked) && InLoop(m, r, t, Waiting)
    ensures InLoop(s, r, t, Waiting)
  {
    OneMoreGone(s.queue, m.queue, r.queue, s.stale);
    assert s.clients[t := Locked][t := Waiting] == s.clients[t := Waiting];
  }

  lemma GetsOn(s: State, m: State, r: State, t: nat, result: Result<nat, PoolError>)
    requires t < |s.clients| && InLoop(s, m, t, Locked) && Gets(m, r, t, result)
    ensures Gets(s, r, t, result)
  {
    var queue := if result.Ok? && r.next == m.next then r.queue + [result.value] else r.queue;
    OneMoreGone(s.queue, m.queue, queue, s.stale);
    var pc := if result.Ok? then Holding(result.value, Plain) else Idle;
    assert s.clients[t := Locked][t := pc] == s.clients[t := pc];
  }

  /** A new connection is counted, and then created or not. */
  function Created(s: State, t: nat, ok: bool): State
    requires t < |s.clients|
  {
    if ok then Go(s, t, Holding(s.next, Plain)).(inUse := s.inUse + 1, next := s.next + 1)
    else Go(s, t, Idle).(inUse := s.inUse + 1, leaked := s.leaked + 1)
  }

  lemma CreatesOn(s: State, m: State, t: nat, ok: bool)
    requires t < |s.clients| && InLoop(s, m, t, WindowNew) && m.lock.None? && m.inUse < m.maxSize
    ensures Gets(s, Created(m, t, ok), t, if ok then Ok(s.next) else Err(CreationFailed))
  {
    var pc := if ok then Holding(s.next, Plain) else Idle;
    assert s.clients[t := WindowNew][t := pc] == s.clients[t := pc];
  }

  /** A pop that finds nothing usable. */
  lemma PopsStale(s: State, t: nat, pc: Pc)
    requires t < |s.clients| && s.clients[t].Locked? && Step(s, Pop(t)).clients[t].Checking?
    ensures InLoop(s, Go(Step(s, Pop(t)), t, pc), t, pc)
  {
    assert s.clients[t := Checking(s.queue != [])][t := pc] == s.clients[t := pc];
  }

  /** A pop that finds a connection. */
  lemma PopsUsable(s: State, t: nat, c: nat)
    requires t < |s.clients| && s.clients[t].Locked? && Step(s, Pop(t)).clients[t] == Popped(c)
    ensures Gets(s, Go(Step(s, Pop(t)), t, Holding(c, Plain)).(inUse := s.inUse + 1, lock := None), t, Ok(c))
  {
    assert Step(s, Pop(t)).queue + [c] == s.queue;
    assert s.clients[t := Popped(c)][t := Holding(c, Plain)] == s.clients[t := Holding(c, Plain)];
  }

  // ----- Parts of a call, as steps of the model -----

  lemma TwoSteps(s: State, t: nat, e: Event, f: Event)
    requires Enabled(s, e) && Enabled(Step(s, e), f) && !e.Pop? && !f.Pop?
    ensures LeadsIn(s, Step(Step(s, e), f), t, 0)
  {
    LeadsInNone(s, t);
    LeadsInOne(s, s, t, 0, e);
    LeadsInOne(s, Step(s, e), t, 0, f);
  }

  lemma TakesLock(s: State, t: nat)
    requires s.lock.None? && t < |s.clients| && (s.clients[t].Idle? || s.clients[t].Waiting?)
    ensures LeadsIn(s, Go(s, t, Locked).(lock := Some(t)), t, 0)
  {
    LeadsInNone(s, t);
    LeadsInOne(s, s, t, 0, if s.clients[t].Idle? then Acquire(t) else Wake(t));
  }

  lemma GivesUp(s: State, t: nat)
    requires s.lock.None? && t < |s.clients| && s.clients[t].Waiting?
    ensures LeadsIn(s, Go(s, t, Idle), t, 0)
  {
    TwoSteps(s, t, Timeout(t), Unlock(t));
    var r := Step(Step(s, Timeout(t)), Unlock(t));
    assert r.clients == s.clients[t := Idle];
    assert r == Go(s, t, Idle);
  }

  lemma Reuses(s: State, t: nat, c: nat)
    requires t < |s.clients| && s.clients[t] == Popped(c)
    ensures LeadsIn(s, Go(s, t, Holding(c, Plain)).(inUse := s.inUse + 1, lock := None), t, 0)
  {
    TwoSteps(s, t, Unlock(t), Count(t));
    var r := Step(Step(s, Unlock(t)), Count(t));
    assert r.clients == s.clients[t := Holding(c, Plain)];
    assert r == Go(s, t, Holding(c, Plain)).(inUse := s.inUse + 1, lock := None);
  }

  lemma ChecksRoom(s: State, t: nat)
    requires t < |s.clients| && s.clients[t].Checking?
    ensures LeadsIn(s, Go(s, t, if s.inUse < s.maxSize then WindowNew else Waiting).(lock := None), t, 0)
  {
    TwoSteps(s, t, Check(t), Unlock(t));
    var r, pc := Step(Step(s, Check(t)), Unlock(t)), if s.inUse < s.maxSize then WindowNew else Waiting;
    assert r.clients == s.clients[t := pc];
    assert r == Go(s, t, pc).(lock := None);
  }

  lemma CreatesNew(s: State, t: nat, ok: bool)
    requires t < |s.clients| && s.clients[t].WindowNew?
    ensures LeadsIn(s, Created(s, t, ok), t, 0)
  {
    TwoSteps(s, t, Count(t), Create(t, ok));
    var r := Step(Step(s, Count(t)), Create(t, ok));
    assert r.clients == Created(s, t, ok).clients;
    assert r == Created(s, t, ok);
  }

  lemma Pops(s: State, t: nat)
    requires t < |s.clients| && s.clients[t].Locked?
    ensures LeadsIn(s, Step(s, Pop(t)), t, 1) && |Step(s, Pop(t)).queue| == Left(|s.queue|, 1)
  {
    LeadsInNone(s, t);
    LeadsInOne(s, s, t, 0, Pop(t));
  }

  // ----- The rounds of `get_timeout` -----

  /** In the loop, after `n` rounds. */
  ghost predicate InRound(s: State, m: State, t: nat, pc: Pc, n: nat)
    requires t < |s.clients|
  {
    && LeadsIn(s, m, t, n) && InLoop(s, m, t, pc) && |m.queue| == Left(|s.queue|, n)
    && (n > 0 ==> s.maxSize <= s.inUse)
  }

  /** The end of a call that is woken up at most `wakes` times: after `rounds` rounds, each of which took
      one connection off the queue or found it empty, and more than one only if there was no room.  It
      gives up only after a round for the first try and for each wake-up. */
  ghost predicate GetsIn(s: State, r: State, t: nat, result: Result<nat, PoolError>, rounds: nat, wakes: nat)
    requires t < |s.clients|
  {
    && Leads(s, r) && LeadsIn(s, r, t, rounds) && Gets(s, r, t, result)
    && 1 <= rounds <= wakes + 1 && |r.queue| == Left(|s.queue|, rounds)
    && (rounds > 1 ==> s.maxSize <= s.inUse)
    && (result == Err(TimedOut) ==> rounds == wakes + 1)
  }

  lemma RoundEnds(s: State, m: State, r: State, t: nat, n: nat, result: Result<nat, PoolError>, wakes: nat)
    requires t < |s.clients| && InRound(s, m, t, Locked, n) && n <= wakes && result != Err(TimedOut)
    requires LeadsIn(m, r, t, 1) && |r.queue| == Left(|m.queue|, 1) && Gets(m, r, t, result)
    ensures GetsIn(s, r, t, result, n + 1, wakes)
  {
    LeadsInOn(s, m, r, t, n, 1);
    LeadsInLeads(s, r, t, n + 1);
    GetsOn(s, m, r, t, result);
  }

  lemma RoundWaits(s: State, m: State, r: State, t: nat, n: nat)
    requires t < |s.clients| && InRound(s, m, t, Locked, n)
    requires LeadsIn(m, r, t, 1) && |r.queue| == Left(|m.queue|, 1) && InLoop(m, r, t, Waiting) && r.maxSize <= r.inUse
    ensures InRound(s, r, t, Waiting, n + 1)
  {
    LeadsInOn(s, m, r, t, n, 1);
    WaitsOn(s, m, r, t);
  }

  lemma WaitEnds(s: State, m: State, t: nat, n: nat)
    requires t < |s.clients| && InRound(s, m, t, Waiting, n) && m.lock.None?
    ensures InRound(s, Go(m, t, Locked).(lock := Some(t)), t, Locked, n)
  {
    var r := Go(m, t, Locked).(lock := Some(t));
    TakesLock(m, t);
    LeadsInOn(s, m, r, t, n, 0);
    assert r.clients == s.clients[t := Locked];
  }

  lemma WaitTimesOut(s: State, m: State, t: nat, n: nat)
    requires t < |s.clients| && InRound(s, m, t, Waiting, n) && m.lock.None? && n > 0
    ensures GetsIn(s, Go(m, t, Idle), t, Err(TimedOut), n, n - 1)
  {
    var r := Go(m, t, Idle);
    GivesUp(m, t);
    LeadsInOn(s, m, r, t, n, 0);
    LeadsInLeads(s, r, t, n);
    assert r.clients == s.clients[t := Idle];
  }

  class ConnectionPool {
    const maxSize: nat
    var queue: seq<nat>
    var inUse: int
    var stale: set<nat>
    var open: set<nat>
    var failed: set<nat>
    var next: nat
    ghost var lock: Option<nat>
    ghost var clients: seq<Pc>
    ghost var leaked: nat

    constructor (maxSize: nat, ghost callers: nat)
      ensures View() == Start(maxSize, callers)
    {
      this.maxSize := maxSize;
      queue, inUse, stale, open, failed, next := [], 0, {}, {}, {}, 0;
      lock, clients, leaked := None, seq(callers, _ => Idle), 0;
    }

    ghost function View(): State
      reads this
    {
      State(maxSize, queue, inUse, lock, clients, stale, open, failed, next, leaked)
    }

    /** `get_timeout`, woken up `wakes` times before it times out. */
    method GetTimeout(ghost t: nat, wakes: nat, creates: bool) returns (r: Result<nat, PoolError>, ghost rounds: nat)
      requires lock.None? && t < |clients| && clients[t].Idle?
      modifies this
      ensures GetsIn(old(View()), View(), t, r, rounds, wakes)
    {
      ghost var start := View();
      TakesLock(start, t);
      lock, clients, rounds := Some(t), clients[t := Locked], 0;
      var left := wakes;
      while true
        invariant InRound(start, View(), t, Locked, rounds) && rounds + left == wakes
        decreases left
      {
        ghost var middle := View();
        var done := Round(t, creates);
        rounds := rounds + 1;
        if done.Some? {
          RoundEnds(start, middle, View(), t, rounds - 1, done.value, wakes);
          return done.value, rounds;
        }
        RoundWaits(start, middle, View(), t, rounds - 1);
        if left == 0 {
          WaitTimesOut(start, View(), t, rounds);
          clients := clients[t := Idle];
          return Err(TimedOut), rounds;
        }
        left := left - 1;
        WaitEnds(start, View(), t, rounds);
        lock, clients := Some(t), clients[t := Locked];
      }
    }

    /** One round of the loop, up to the wait. */
    method Round(ghost t: nat, creates: bool) returns (done: Option<Result<nat, PoolError>>)
      requires t < |clients| && clients[t].Locked?
      modifies this`queue, this`lock, this`inUse, this`clients, this`next, this`leaked
      ensures LeadsIn(old(View()), View(), t, 1) && |queue| == Left(|old(queue)|, 1)
      ensures match done
              case Some(r) => Gets(old(View()), View(), t, r) && r != Err(TimedOut)
              case None => InLoop(old(View()), View(), t, Waiting) && lock.None? && maxSize <= inUse
    {
      ghost var start := View();
      Pops(start, t);
      var usable := PopUsable(t);
      if usable.Some? {
        PopsUsable(start, t, usable.value);
        ghost var popped := View();
        Reuse(t, usable.value);
        LeadsInOn(start, popped, View(), t, 1, 0);
        return Some(Ok(usable.value));
      }
      ghost var checking := View();
      var room := CheckRoom(t);
      LeadsInOn(start, checking, View(), t, 1, 0);
      PopsStale(start, t, clients[t]);
      if room {
        ghost var middle := View();
        CreatesOn(start, middle, t, creates);
        var r := CreateNew(t, creates);
        LeadsInOn(start, middle, View(), t, 1, 0);
        done := Some(r);
      } else {
        done := None;
      }
    }

    /** The lock is released, then the connection is counted. */
    method Reuse(ghost t: nat, c: nat)
      requires t < |clients| && clients[t] == Popped(c)
      modifies this`lock, this`inUse, this`clients
      ensures LeadsIn(old(View()), View(), t, 0)
      ensures View() == Go(old(View()), t, Holding(c, Plain)).(inUse := old(inUse) + 1, lock := None)
    {
      Reuses(View(), t, c);
      lock := None;
      inUse, clients := inUse + 1, clients[t := Holding(c, Plain)];
    }

    /** The counter is read, then the lock is released. */
    method CheckRoom(ghost t: nat) returns (room: bool)
      requires t < |clients| && clients[t].Checking?
      modifies this`lock, this`clients
      ensures LeadsIn(old(View()), View(), t, 0) && room == (inUse < maxSize)
      ensures View() == Go(old(View()), t, if room then WindowNew else Waiting).(lock := None)
    {
      ChecksRoom(View(), t);
      room := inUse < maxSize;
      lock, clients := None, clients[t := if room then WindowNew else Waiting];
    }

    /** The locked part of one round: the last connection of the queue, unless it is stale. */
    method PopUsable(ghost t: nat) returns (c: Option<nat>)
      requires t < |clients| && clients[t].Locked?
      modifies this`queue, this`clients
      ensures View() == Step(old(View()), Pop(t))
      ensures match c
              case Some(x) => clients[t] == Popped(x)
              case None => clients[t].Checking?
    {
      c := None;
      if queue == [] {
        clients := clients[t := Checking(false)];
      } else {
        var x := queue[|queue| - 1];
        queue := queue[..|queue| - 1];
        if x in stale {
          clients := clients[t := Checking(true)];
        } else {
          clients := clients[t := Popped(x)];
          c := Some(x);
        }
      }
    }

    /** A new connection, counted before it is created. */
    method CreateNew(ghost t: nat, creates: bool) returns (r: Result<nat, PoolError>)
      requires t < |clients| && clients[t].WindowNew?
      modifies this`inUse, this`clients, this`next, this`leaked
      ensures LeadsIn(old(View()), View(), t, 0)
      ensures View() == Created(old(View()), t, creates)
      ensures r == if creates then Ok(old(next)) else Err(CreationFailed)
    {
      CreatesNew(View(), t, creates);
      inUse := inUse + 1;
      if creates {
        r := Ok(next);
        clients, next := clients[t := Holding(next, Plain)], next + 1;
      } else {
        r := Err(CreationFailed);
        clients, leaked := clients[t := Idle], leaked + 1;
      }
    }

    /** The next step of the caller is a step of the model. */
    lemma Do(start: State, e: Event)
      requires Leads(start, View()) && Enabled(View(), e)
      ensures Leads(start, Step(View(), e))
    {
      LeadsOne(start, View(), e);
    }

    /** The drop of a handle. */
    method ReturnHandle(ghost t: nat, conn: nat)
      requires lock.None? && t < |clients| && clients[t] == Returning(conn)
      modifies this
      ensures Leads(old(View()), View())
      ensures View() == old(View()).(queue := old(queue) + [conn], inUse := old(inUse) - 1,
              clients := old(clients)[t := Idle])
    {
      ghost var start := View();
      PushBack(t, conn);
      Do(start, Decrement(t));
      inUse, clients := inUse - 1, clients[t := Leaving];
      Do(start, Unlock(t));
      lock, clients := None, clients[t := Idle];
    }

    method PushBack(ghost t: nat, conn: nat)
      requires lock.None? && t < |clients| && clients[t] == Returning(conn)
      modifies this`queue, this`lock, this`clients
      ensures Leads(old(View()), View())
      ensures View() == Go(old(View()), t, Pushed).(queue := old(queue) + [conn], lock := Some(t))
    {
      ghost var start := View();
      LeadsNowhere(start);
      Do(start, LockReturn(t));
      lock, clients := Some(t), clients[t := Pushing(conn)];
      Do(start, Push(t));
      queue, clients := queue + [conn], clients[t := Pushed];
    }

    /** A statement on the connection begins a transaction, or fails; then the handle is dropped. */
    method BeginTransaction(ghost t: nat, conn: nat, ok: bool)
      requires lock.None? && t < |clients| && clients[t] == Holding(conn, Plain)
      modifies this
      ensures Leads(old(View()), View())
      ensures View() == if ok then old(View()).(open := old(open) + {conn},
              clients := old(clients)[t := Holding(conn, InTransaction)])
                        else old(View()).(queue := old(queue) + [conn], inUse := old(inUse) - 1,
                                clients := old(clients)[t := Idle])
    {
      ghost var start := View();
      LeadsNowhere(start);
      Do(start, Begin(t, ok));
      if ok {
        open, clients := open + {conn}, clients[t := Holding(conn, InTransaction)];
      } else {
        clients := clients[t := Returning(conn)];
        ghost var middle := View();
        ReturnHandle(t, conn);
        LeadsOn(start, middle, View());
      }
    }

    /** A statement on the connection ends its transaction, or fails. */
    method EndTransaction(ghost t: nat, conn: nat, ok: bool)
      requires lock.None? && t < |clients|
      requires clients[t].Holding? && clients[t].conn == conn && !clients[t].use.Plain?
      modifies this
      ensures Leads(old(View()), View())
      ensures View() == old(View()).(queue := old(queue) + [conn], inUse := old(inUse) - 1,
              clients := old(clients)[t := Idle],
                                     open := if ok then old(open) - {conn} else old(open),
                                     failed := if ok then old(failed) - {conn} else old(failed) + {conn})
    {
      ghost var start := View();
      LeadsNowhere(start);
      Do(start, Finish(t, ok));
      clients := clients[t := Returning(conn)];
      if ok {
        open, failed := open - {conn}, failed - {conn};
      } else {
        failed := failed + {conn};
      }
      ghost var middle := View();
      ReturnHandle(t, conn);
      LeadsOn(start, middle, View());
    }
  }

  /** What the drop of the pool finds: the queue and the counter at first, and after each wake-up. */
  datatype Found = Found(queue: seq<nat>, inUse: int)

  function AllQueued(found: seq<Found>): seq<nat> {
    if found == [] then [] else AllQueued(found[..|found| - 1]) + found[|found| - 1].queue
  }

  /** `Pool::drop`: the queue is emptied at first and after every wake-up, until nothing is in use;
      if something is in use after the last wake-up, it waits for ever. */
  method DropPool(found: seq<Found>) returns (dropped: seq<nat>, rounds: nat, ended: bool)
    requires found != []
    ensures 1 <= rounds <= |found|
    ensures forall i :: 0 <= i < rounds - 1 ==> found[i].inUse != 0
    ensures if ended then found[rounds - 1].inUse == 0 else rounds == |found| && found[rounds - 1].inUse != 0
    ensures multiset(dropped) == multiset(AllQueued(found[..rounds]))
  {
    dropped, rounds, ended := [], 0, false;
    while rounds < |found| && !ended
      invariant rounds <= |found| && (ended ==> rounds > 0)
      invariant forall i :: 0 <= i < rounds - 1 ==> found[i].inUse != 0
      invariant rounds > 0 ==> (ended <==> found[rounds - 1].inUse == 0)
      invariant multiset(dropped) == multiset(AllQueued(found[..rounds]))
      decreases |found| - rounds
    {
      var more := Drain(found[rounds].queue);
      assert found[..rounds + 1] == found[..rounds] + [found[rounds]];
      dropped, rounds, ended := dropped + more, rounds + 1, found[rounds].inUse == 0;
    }
  }

  /** The inner loop: every queued connection is dropped once. */
  method Drain(queue: seq<nat>) returns (dropped: seq<nat>)
    ensures multiset(dropped) == multiset(queue)
  {
    var rest := queue;
    dropped := [];
    while rest != []
      invariant multiset(dropped) + multiset(rest) == multiset(queue)
      decreases |rest|
    {
      var c := rest[|rest| - 1];
      assert rest == rest[..|rest| - 1] + [c];
      dropped, rest := dropped + [c], rest[..|rest| - 1];
    }
  }

  /** `ConnectionWithTransaction`: the connection is taken out by whatever ends the transaction. */
  class ConnectionWithTransaction {
    const pool: ConnectionPool
    ghost const t: nat
    var inner: Option<nat>

    constructor (pool: ConnectionPool, ghost t: nat, conn: nat)
      ensures this.pool == pool && this.t == t && inner == Some(conn)
    {
      this.pool, this.t, inner := pool, t, Some(conn);
    }

    /** An open wrapper has its connection to itself. */
    ghost predicate Valid()
      reads this, pool
    {
      && pool.lock.None?
      && (inner.Some? ==> t < |pool.clients| && pool.clients[t] == Holding(inner.value, InTransaction))
    }

    /** `new`: if the transaction cannot begin, the handle goes back to the pool. */
    static method New(pool: ConnectionPool, ghost t: nat, conn: nat, ok: bool)
      returns (r: Result<ConnectionWithTransaction, PoolError>)
      requires pool.lock.None? && t < |pool.clients| && pool.clients[t] == Holding(conn, Plain)
      modifies pool
      ensures Leads(old(pool.View()), pool.View())
      ensures if ok then
                && r.Ok? && fresh(r.value) && r.value.pool == pool && r.value.t == t
                && r.value.inner == Some(conn) && r.value.Valid()
                && pool.View() == old(pool.View()).(open := old(pool.open) + {conn},
                                                    clients := old(pool.clients)[t := Holding(conn, InTransaction)])
              else
                && r == Err(StatementFailed)
                && pool.View() == old(pool.View()).(queue := old(pool.queue) + [conn], inUse := old(pool.inUse) - 1,
                                                    clients := old(pool.clients)[t := Idle])
    {
      pool.BeginTransaction(t, conn, ok);
      if ok {
        var w := new ConnectionWithTransaction(pool, t, conn);
        r := Ok(w);
      } else {
        r := Err(StatementFailed);
      }
    }

    /** `commit` and `rollback` send their own statement and are otherwise alike. */
    method Finish(ok: bool) returns (r: Result<(), PoolError>)
      requires Valid()
      modifies this, pool
      ensures Valid() && inner.None?
      ensures Leads(old(pool.View()), pool.View())
      ensures match old(inner)
              case None => r == Err(MissingConnection) && pool.View() == old(pool.View())
              case Some(conn) =>
                && r == (if ok then Ok(()) else Err(StatementFailed))
                && pool.queue == old(pool.queue) + [conn] && pool.inUse == old(pool.inUse) - 1
                && pool.open == (if ok then old(pool.open) - {conn} else old(pool.open))
                && pool.clients == old(pool.clients)[t := Idle]
    {
      var conn := inner;
      inner := None;
      LeadsNowhere(pool.View());
      if conn.None? {
        return Err(MissingConnection);
      }
      pool.EndTransaction(t, conn.value, ok);
      r := if ok then Ok(()) else Err(StatementFailed);
    }

    /** The drop of the wrapper: a task rolls back whatever was not finished, and ignores failures. */
    method Drop(ok: bool)
      requires Valid()
      modifies this, pool
      ensures Valid() && inner.None?
      ensures Leads(old(pool.View()), pool.View())
      ensures match old(inner)
              case None => pool.View() == old(pool.View())
              case Some(conn) =>
                && pool.queue == old(pool.queue) + [conn] && pool.inUse == old(pool.inUse) - 1
                && pool.open == (if ok then old(pool.open) - {conn} else old(pool.open))
                && pool.clients == old(pool.clients)[t := Idle]
    {
      var conn := inner;
      inner := None;
      LeadsNowhere(pool.View());
      if conn.Some? {
        ghost var start := pool.View();
        pool.Do(start, DropWrapper(t));
        pool.clients := pool.clients[t := Holding(conn.value, RollingBack)];
        ghost var middle := pool.View();
        pool.EndTransaction(t, conn.value, ok);
        LeadsOn(start, middle, pool.View());
      }
    }
  }
}
