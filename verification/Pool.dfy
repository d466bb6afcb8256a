/** The connection pool and the transaction wrapper over it, as a system of clients that interleave
    in any order (crates/cdk-sql-common/src/pool.rs, crates/cdk-sql-common/src/database.rs).

    A client is one call of `get_timeout` and the life of the handle it returns.  The queue is
    guarded by the lock.  The counter `inUse` is read under the lock, but incremented after the lock
    is released, so every read, unlock and increment is a step of its own. */
module Pool {
  import opened Wrappers

  /** What a handle is used for: nothing yet, an open wrapper, or the rollback that the drop of a
      wrapper leaves to a task. */
  datatype Use = Plain | InTransaction | RollingBack

  datatype Pc =
    | Idle
    | Locked                            // has the lock, about to pop
    | Popped(conn: nat)                 // has the lock and a usable connection
    | Checking(popped: bool)            // has the lock, found nothing usable (or popped a stale one)
    | Decided(room: bool)               // has the lock and has read the counter
    | Waiting                           // on the condition variable
    | WindowReuse(conn: nat)            // released the lock, not yet counted
    | WindowNew                         // the same, with a connection still to be created
    | Creating                          // counted, creating
    | Holding(conn: nat, use: Use)
    | Returning(conn: nat)              // the handle is dropped, the lock not yet taken
    | Pushing(conn: nat)                // has the lock, about to push
    | Pushed                            // has the lock, about to decrement
    | Leaving                           // has the lock and is done

  datatype State = State(
    maxSize: nat, queue: seq<nat>, inUse: int, lock: Option<nat>, clients: seq<Pc>,
    stale: set<nat>,      // connections marked as no longer valid
    open: set<nat>,       // connections with an open transaction
    failed: set<nat>,     // connections whose last COMMIT or ROLLBACK failed
    next: nat,            // the next connection to be created
    leaked: nat)          // creations that failed after they were counted

  datatype Event =
    | Acquire(t: nat) | Pop(t: nat) | Check(t: nat) | Unlock(t: nat) | Wake(t: nat) | Timeout(t: nat)
    | Count(t: nat) | Create(t: nat, ok: bool)
    | Begin(t: nat, ok: bool) | Finish(t: nat, ok: bool) | DropWrapper(t: nat) | Release(t: nat)
    | LockReturn(t: nat) | Push(t: nat) | Decrement(t: nat)
    | GoStale(conn: nat)

  function Start(maxSize: nat, clients: nat): State {
    State(maxSize, [], 0, None, seq(clients, _ => Idle), {}, {}, {}, 0, 0)
  }

  predicate Enabled(s: State, e: Event) {
    e.GoStale? || (e.t < |s.clients| &&
    var pc := s.clients[e.t];
    match e
    case Acquire(_) => pc.Idle? && s.lock.None?
    case Pop(_) => pc.Locked?
    case Check(_) => pc.Checking?
    case Unlock(_) => pc.Popped? || pc.Decided? || pc.Leaving?
    case Wake(_) => pc.Waiting? && s.lock.None?
    case Timeout(_) => pc.Waiting? && s.lock.None?
    case Count(_) => pc.WindowReuse? || pc.WindowNew?
    case Create(_, _) => pc.Creating?
    case Begin(_, _) => pc.Holding? && pc.use.Plain?
    case Finish(_, _) => pc.Holding? && !pc.use.Plain?
    case DropWrapper(_) => pc.Holding? && pc.use.InTransaction?
    case Release(_) => pc.Holding? && pc.use.Plain?
    case LockReturn(_) => pc.Returning? && s.lock.None?
    case Push(_) => pc.Pushing?
    case Decrement(_) => pc.Pushed?)
  }

  function Go(s: State, t: nat, pc: Pc): State
    requires t < |s.clients|
  {
    s.(clients := s.clients[t := pc])
  }

  /** Where a client goes on when it releases the lock. */
  function AfterUnlock(pc: Pc): Pc {
    match pc
    case Popped(c) => WindowReuse(c)
    case Decided(true) => WindowNew
    case Decided(false) => Waiting
    case _ => Idle
  }

  function Step(s: State, e: Event): State
    requires Enabled(s, e)
  {
    match e
    case Acquire(t) => Go(s, t, Locked).(lock := Some(t))
    case Pop(t) =>
      if s.queue == [] then Go(s, t, Checking(false))
      else
        var c := s.queue[|s.queue| - 1];
        var popped := s.(queue := s.queue[..|s.queue| - 1]);
        if c in s.stale then Go(popped, t, Checking(true))
        else Go(popped, t, Popped(c))
    case Check(t) => Go(s, t, Decided(s.inUse < s.maxSize))
    case Unlock(t) => Go(s, t, AfterUnlock(s.clients[t])).(lock := None)
    case Wake(t) => Go(s, t, Locked).(lock := Some(t))
    case Timeout(t) => Go(s, t, Leaving).(lock := Some(t))
    case Count(t) =>
      Go(s, t, if s.clients[t].WindowNew? then Creating else Holding(s.clients[t].conn, Plain)).(inUse := s.inUse + 1)
    case Create(t, ok) =>
      if ok then Go(s, t, Holding(s.next, Plain)).(next := s.next + 1)
      else Go(s, t, Idle).(leaked := s.leaked + 1)
    case Begin(t, ok) =>
      var c := s.clients[t].conn;
      if ok then Go(s, t, Holding(c, InTransaction)).(open := s.open + {c}) else Go(s, t, Returning(c))
    case Finish(t, ok) =>
      var c := s.clients[t].conn;
      if ok then Go(s, t, Returning(c)).(open := s.open - {c}, failed := s.failed - {c})
      else Go(s, t, Returning(c)).(failed := s.failed + {c})
    case DropWrapper(t) => Go(s, t, Holding(s.clients[t].conn, RollingBack))
    case Release(t) => Go(s, t, Returning(s.clients[t].conn))
    case LockReturn(t) => Go(s, t, Pushing(s.clients[t].conn)).(lock := Some(t))
    case Push(t) => Go(s, t, Pushed).(queue := s.queue + [s.clients[t].conn])
    case Decrement(t) => Go(s, t, Leaving).(inUse := s.inUse - 1)
    case GoStale(c) => s.(stale := s.stale + {c})
  }

  // ----- Counting clients -----

  function Total(cs: seq<Pc>, weight: Pc -> nat): nat {
    if cs == [] then 0 else weight(cs[0]) + Total(cs[1..], weight)
  }

  lemma {:induction false} TotalUpdate(cs: seq<Pc>, i: nat, pc: Pc, weight: Pc -> nat)
    requires i < |cs|
    ensures Total(cs[i := pc], weight) + weight(cs[i]) == Total(cs, weight) + weight(pc)
  {
    if i == 0 {
      assert cs[0 := pc][1..] == cs[1..];
    } else {
      assert cs[i := pc][1..] == cs[1..][i - 1 := pc];
      TotalUpdate(cs[1..], i - 1, pc, weight);
    }
  }

  lemma {:induction false} TotalZero(cs: seq<Pc>, weight: Pc -> nat)
    requires forall i :: 0 <= i < |cs| ==> weight(cs[i]) == 0
    ensures Total(cs, weight) == 0
  {
    if cs != [] {
      TotalZero(cs[1..], weight);
    }
  }

  lemma {:induction false} TotalAtLeast(cs: seq<Pc>, i: nat, weight: Pc -> nat)
    requires i < |cs|
    ensures Total(cs, weight) >= weight(cs[i])
  {
    if i > 0 {
      TotalAtLeast(cs[1..], i - 1, weight);
    }
  }

  /** Clients that are counted in `inUse`. */
  const COUNTED: Pc -> nat := (pc: Pc) =>
    if pc.Creating? || pc.Holding? || pc.Returning? || pc.Pushing? || pc.Pushed? then 1 else 0

  /** Clients that will be counted: they have a connection, or have seen that there is room. */
  const PENDING: Pc -> nat := (pc: Pc) =>
    if pc.Popped? || pc == Decided(true) || pc.WindowReuse? || pc.WindowNew? then 1 else 0

  /** Clients between the read of the counter (or the unlock, if they reuse a connection) and the
      increment. */
  const WINDOW: Pc -> nat := (pc: Pc) => if pc == Decided(true) || pc.WindowReuse? || pc.WindowNew? then 1 else 0

  /** Clients between the unlock and the increment. */
  const UNLOCKED: Pc -> nat := (pc: Pc) => if pc.WindowReuse? || pc.WindowNew? then 1 else 0

  /** A returned connection that is still counted as in use. */
  const DOUBLE: Pc -> nat := (pc: Pc) => if pc.Pushed? then 1 else 0

  // ----- Invariants -----

  predicate HasLock(pc: Pc) {
    pc.Locked? || pc.Popped? || pc.Checking? || pc.Decided? || pc.Pushing? || pc.Pushed? || pc.Leaving?
  }

  /** At most one client is inside the lock. */
  ghost predicate LockOk(s: State) {
    forall t :: 0 <= t < |s.clients| ==> (HasLock(s.clients[t]) <==> s.lock == Some(t))
  }

  /** The counter is the number of counted clients and of failed creations. */
  ghost predicate CounterOk(s: State) {
    s.inUse == Total(s.clients, COUNTED) + s.leaked
  }

  predicate HasConn(pc: Pc) {
    pc.Popped? || pc.WindowReuse? || pc.Holding? || pc.Returning? || pc.Pushing?
  }

  /** Every connection is in one place only. */
  ghost predicate ExclusiveIn(queue: seq<nat>, clients: seq<Pc>, next: nat) {
    && (forall i, j :: 0 <= i < j < |queue| ==> queue[i] != queue[j])
    && (forall t, i :: 0 <= t < |clients| && HasConn(clients[t]) && 0 <= i < |queue| ==> clients[t].conn != queue[i])
    && (forall t, u :: 0 <= t < u < |clients| && HasConn(clients[t]) && HasConn(clients[u]) ==>
          clients[t].conn != clients[u].conn)
    && (forall i :: 0 <= i < |queue| ==> queue[i] < next)
    && (forall t :: 0 <= t < |clients| && HasConn(clients[t]) ==> clients[t].conn < next)
  }

  ghost predicate Exclusive(s: State) {
    ExclusiveIn(s.queue, s.clients, s.next)
  }

  /** A client holds the connection inside a transaction. */
  ghost predicate InUseBy(s: State, c: nat, t: nat) {
    t < |s.clients| && s.clients[t].Holding? && s.clients[t].conn == c && !s.clients[t].use.Plain?
  }

  /** The open transactions are those of wrappers and those whose last COMMIT or ROLLBACK failed. */
  ghost predicate TransactionsOk(s: State) {
    && (forall c :: c in s.open ==> c < s.next && (c in s.failed || exists t :: InUseBy(s, c, t)))
    && s.failed <= s.open
    && (forall c, t :: InUseBy(s, c, t) ==> c in s.open)
  }

  ghost predicate Inv(s: State) {
    LockOk(s) && CounterOk(s) && Exclusive(s) && TransactionsOk(s)
  }

  lemma StartInv(maxSize: nat, clients: nat)
    ensures Inv(Start(maxSize, clients))
  {
    TotalZero(Start(maxSize, clients).clients, COUNTED);
  }

  lemma StepLock(s: State, e: Event)
    requires LockOk(s) && Enabled(s, e)
    ensures LockOk(Step(s, e))
  {
  }

  lemma StepCounter(s: State, e: Event)
    requires CounterOk(s) && Enabled(s, e)
    ensures CounterOk(Step(s, e))
  {
    if !e.GoStale? {
      TotalUpdate(s.clients, e.t, Step(s, e).clients[e.t], COUNTED);
    }
  }

  /** A client moves without taking a connection from elsewhere. */
  lemma GoExclusive(queue: seq<nat>, clients: seq<Pc>, next: nat, t: nat, pc: Pc)
    requires ExclusiveIn(queue, clients, next) && t < |clients|
    requires HasConn(pc) ==> HasConn(clients[t]) && pc.conn == clients[t].conn
    ensures ExclusiveIn(queue, clients[t := pc], next)
  {
  }

  lemma PopExclusive(queue: seq<nat>, clients: seq<Pc>, next: nat, t: nat, pc: Pc)
    requires ExclusiveIn(queue, clients, next) && t < |clients| && queue != []
    requires HasConn(pc) ==> pc.conn == queue[|queue| - 1]
    ensures ExclusiveIn(queue[..|queue| - 1], clients[t := pc], next)
  {
  }

  lemma PushExclusive(queue: seq<nat>, clients: seq<Pc>, next: nat, t: nat)
    requires ExclusiveIn(queue, clients, next) && t < |clients| && clients[t].Pushing?
    ensures ExclusiveIn(queue + [clients[t].conn], clients[t := Pushed], next)
  {
  }

  lemma CreateExclusive(queue: seq<nat>, clients: seq<Pc>, next: nat, t: nat)
    requires ExclusiveIn(queue, clients, next) && t < |clients|
    ensures ExclusiveIn(queue, clients[t := Holding(next, Plain)], next + 1)
  {
  }

  lemma StepExclusive(s: State, e: Event)
    requires Exclusive(s) && Enabled(s, e)
    ensures Exclusive(Step(s, e))
  {
    if e.Pop? && s.queue != [] {
      PopExclusive(s.queue, s.clients, s.next, e.t, Step(s, e).clients[e.t]);
    } else if e.Push? {
      PushExclusive(s.queue, s.clients, s.next, e.t);
    } else if e.Create? && e.ok {
      CreateExclusive(s.queue, s.clients, s.next, e.t);
    } else if !e.GoStale? {
      StepMoves(s, e);
      GoExclusive(s.queue, s.clients, s.next, e.t, Step(s, e).clients[e.t]);
    }
  }

  /** The other steps leave the queue alone and take no connection. */
  lemma StepMoves(s: State, e: Event)
    requires Enabled(s, e) && !e.GoStale? && !e.Push? && !(e.Pop? && s.queue != []) && !(e.Create? && e.ok)
    ensures var r, pc := Step(s, e), Step(s, e).clients[e.t];
            && r.queue == s.queue && r.next == s.next && r.clients == s.clients[e.t := pc]
            && (HasConn(pc) ==> HasConn(s.clients[e.t]) && pc.conn == s.clients[e.t].conn)
  {
  }

  lemma StepTransactions(s: State, e: Event)
    requires Exclusive(s) && TransactionsOk(s) && Enabled(s, e)
    ensures TransactionsOk(Step(s, e))
  {
    StepOpen(s, e);
    StepHeld(s, e);
  }

  lemma StepOpen(s: State, e: Event)
    requires Exclusive(s) && TransactionsOk(s) && Enabled(s, e)
    ensures var r := Step(s, e);
            forall c :: c in r.open ==> c < r.next && (c in r.failed || exists t :: InUseBy(r, c, t))
  {
    var r := Step(s, e);
    forall c | c in r.open ensures c < r.next && (c in r.failed || exists t :: InUseBy(r, c, t)) {
      if c in s.open && c !in s.failed {
        var t :| InUseBy(s, c, t);
        if e.GoStale? || e.t != t || e.DropWrapper? {
          assert InUseBy(r, c, t);
        }
      } else if c !in s.open {
        assert InUseBy(r, c, e.t);
      }
    }
  }

  lemma StepHeld(s: State, e: Event)
    requires Exclusive(s) && TransactionsOk(s) && Enabled(s, e)
    ensures Step(s, e).failed <= Step(s, e).open
    ensures forall c, t :: InUseBy(Step(s, e), c, t) ==> c in Step(s, e).open
  {
    var r := Step(s, e);
    assert e.Finish? ==> InUseBy(s, s.clients[e.t].conn, e.t);
    forall c, t | InUseBy(r, c, t) ensures c in r.open {
      assert InUseBy(s, c, t) || (e.Begin? && t == e.t);
    }
  }

  lemma StepInv(s: State, e: Event)
    requires Inv(s) && Enabled(s, e)
    ensures Inv(Step(s, e))
  {
    StepLock(s, e);
    StepCounter(s, e);
    StepExclusive(s, e);
    StepTransactions(s, e);
  }
}
