/** What holds in every run of the pool, whatever the interleaving. */
module PoolTheorems {
  import opened Wrappers
  import opened Pool

  /** A run: the states after each event, from the start. */
  ghost predicate StepAt(states: seq<State>, events: seq<Event>, i: nat)
    requires |states| == |events| + 1 && i < |events|
  {
    Enabled(states[i], events[i]) && states[i + 1] == Step(states[i], events[i])
  }

  ghost predicate Run(maxSize: nat, clients: nat, states: seq<State>, events: seq<Event>) {
    && |states| == |events| + 1
    && states[0] == Start(maxSize, clients)
    && forall i :: 0 <= i < |events| ==> StepAt(states, events, i)
  }

  lemma {:induction false} RunInv(maxSize: nat, clients: nat, states: seq<State>, events: seq<Event>, i: nat)
    requires Run(maxSize, clients, states, events) && i < |states|
    ensures Inv(states[i]) && states[i].maxSize == maxSize
    decreases i
  {
    if i == 0 {
      StartInv(maxSize, clients);
    } else {
      RunInv(maxSize, clients, states, events, i - 1);
      assert StepAt(states, events, i - 1);
      StepInv(states[i - 1], events[i - 1]);
    }
  }

  // ----- Ownership and accounting -----

  /** No connection is ever in two hands, or in a hand and in the queue. */
  lemma ConnectionsAreExclusive(maxSize: nat, clients: nat, states: seq<State>, events: seq<Event>, i: nat, t: nat,
                                u: nat)
    requires Run(maxSize, clients, states, events) && i < |states|
    requires t < |states[i].clients| && states[i].clients[t].Holding?
    ensures states[i].clients[t].conn !in states[i].queue
    ensures u < |states[i].clients| && u != t && HasConn(states[i].clients[u]) ==>
              states[i].clients[u].conn != states[i].clients[t].conn
  {
    RunInv(maxSize, clients, states, events, i);
  }

  /** `inUse` never underflows, and is the number of handles and of creations that were counted
      and not returned, in progress or failed. */
  lemma AccountingIsConserved(maxSize: nat, clients: nat, states: seq<State>, events: seq<Event>, i: nat)
    requires Run(maxSize, clients, states, events) && i < |states|
    ensures states[i].inUse == Total(states[i].clients, COUNTED) + states[i].leaked >= 0
    ensures i < |events| && events[i].Decrement? ==> states[i].inUse >= 1
  {
    RunInv(maxSize, clients, states, events, i);
    if i < |events| && events[i].Decrement? {
      assert StepAt(states, events, i);
      TotalAtLeast(states[i].clients, events[i].t, COUNTED);
    }
  }

  /** The pool is dropped when no client is left; it then ends without waiting if and only if no
      creation has failed. */
  lemma DropEndsIffNoCreationFailed(maxSize: nat, clients: nat, states: seq<State>, events: seq<Event>, i: nat)
    requires Run(maxSize, clients, states, events) && i < |states|
    requires forall t :: 0 <= t < |states[i].clients| ==> states[i].clients[t].Idle?
    ensures states[i].inUse == 0 <==> states[i].leaked == 0
  {
    RunInv(maxSize, clients, states, events, i);
    TotalZero(states[i].clients, COUNTED);
  }

  /** A connection that is marked stale and held by no client. */
  ghost predicate Abandoned(s: State, c: nat) {
    && c in s.stale && c < s.next
    && forall t :: 0 <= t < |s.clients| && HasConn(s.clients[t]) ==> s.clients[t].conn != c
  }

  lemma StepAbandoned(s: State, e: Event, c: nat)
    requires Enabled(s, e) && Abandoned(s, c)
    ensures Abandoned(Step(s, e), c)
  {
  }

  lemma {:induction false} StaysAbandoned(maxSize: nat, clients: nat, states: seq<State>, events: seq<Event>,
                                          i: nat, j: nat, c: nat)
    requires Run(maxSize, clients, states, events) && i <= j < |states| && Abandoned(states[i], c)
    ensures Abandoned(states[j], c)
    decreases j
  {
    if i < j {
      StaysAbandoned(maxSize, clients, states, events, i, j - 1, c);
      assert StepAt(states, events, j - 1);
      StepAbandoned(states[j - 1], events[j - 1], c);
    }
  }

  /** A connection that goes stale in the queue is never handed out again. */
  lemma StaleIsNeverHandedOut(maxSize: nat, clients: nat, states: seq<State>, events: seq<Event>,
                              i: nat, j: nat, k: nat, t: nat)
    requires Run(maxSize, clients, states, events) && i <= j < |states|
    requires k < |states[i].queue| && states[i].queue[k] in states[i].stale
    requires t < |states[j].clients| && HasConn(states[j].clients[t])
    ensures states[j].clients[t].conn != states[i].queue[k]
  {
    RunInv(maxSize, clients, states, events, i);
    assert Abandoned(states[i], states[i].queue[k]);
    StaysAbandoned(maxSize, clients, states, events, i, j, states[i].queue[k]);
  }

  // ----- A woken client tries again -----

  /** Whenever a client waits, the lock is free and the last queued connection is usable: the client can
      wake, pop, release the lock and be counted, and then holds that connection. */
  lemma WokenTakesConnection(s: State, t: nat)
    requires Inv(s) && t < |s.clients| && s.clients[t].Waiting? && s.lock.None?
    requires s.queue != [] && s.queue[|s.queue| - 1] !in s.stale
    ensures var c := s.queue[|s.queue| - 1];
            && Enabled(s, Wake(t))
            && Enabled(Step(s, Wake(t)), Pop(t))
            && Enabled(Step(Step(s, Wake(t)), Pop(t)), Unlock(t))
            && Enabled(Step(Step(Step(s, Wake(t)), Pop(t)), Unlock(t)), Count(t))
            && Step(Step(Step(Step(s, Wake(t)), Pop(t)), Unlock(t)), Count(t))
               == s.(queue := s.queue[..|s.queue| - 1], inUse := s.inUse + 1,
                                        clients := s.clients[t := Holding(c, Plain)])
  {
    var c := s.queue[|s.queue| - 1];
    var s2 := Step(Step(s, Wake(t)), Pop(t));
    assert s2.clients == s.clients[t := Popped(c)];
    assert Step(Step(s2, Unlock(t)), Count(t)).clients == s.clients[t := Holding(c, Plain)];
  }

  /** And if nothing usable is queued but there is room, it can go on to create a connection; if there is
      none, it waits again. */
  lemma WokenWithoutConnection(s: State, t: nat)
    requires Inv(s) && t < |s.clients| && s.clients[t].Waiting? && s.lock.None?
    requires s.queue == [] || s.queue[|s.queue| - 1] in s.stale
    ensures var s2 := Step(Step(s, Wake(t)), Pop(t));
            && Enabled(s2, Check(t)) && Enabled(Step(s2, Check(t)), Unlock(t))
            && Step(Step(s2, Check(t)), Unlock(t))
               == s.(queue := if s.queue == [] then [] else s.queue[..|s.queue| - 1],
                     clients := s.clients[t := if s.inUse < s.maxSize then WindowNew else Waiting])
  {
    var s2 := Step(Step(s, Wake(t)), Pop(t));
    assert s2.clients == s.clients[t := Checking(s.queue != [])];
    var s4 := Step(Step(s2, Check(t)), Unlock(t));
    assert s4.clients == s.clients[t := if s.inUse < s.maxSize then WindowNew else Waiting];
  }

  // ----- Transactions -----

  /** Event `j` is a COMMIT or ROLLBACK on connection `c`. */
  ghost predicate Finishes(states: seq<State>, events: seq<Event>, j: nat, c: nat)
    requires |states| == |events| + 1 && j < |events|
  {
    && events[j].Finish? && events[j].t < |states[j].clients|
    && states[j].clients[events[j].t].Holding? && states[j].clients[events[j].t].conn == c
  }

  /** Before state `i`, the last COMMIT or ROLLBACK on `c` is event `j`, and it failed. */
  ghost predicate FailsLast(states: seq<State>, events: seq<Event>, i: nat, j: nat, c: nat)
    requires |states| == |events| + 1 && i < |states|
  {
    && j < i && Finishes(states, events, j, c) && !events[j].ok
    && forall k :: j < k < i ==> !Finishes(states, events, k, c)
  }

  ghost predicate LastFinishFailed(states: seq<State>, events: seq<Event>, i: nat, c: nat)
    requires |states| == |events| + 1 && i < |states|
  {
    exists j :: FailsLast(states, events, i, j, c)
  }

  /** The failure mark of a connection is what the history says. */
  lemma {:induction false} FailedIsLastFinish(maxSize: nat, clients: nat, states: seq<State>, events: seq<Event>,
                                              i: nat, c: nat)
    requires Run(maxSize, clients, states, events) && i < |states|
    ensures c in states[i].failed <==> LastFinishFailed(states, events, i, c)
    decreases i
  {
    if i > 0 {
      var p := i - 1;
      FailedIsLastFinish(maxSize, clients, states, events, p, c);
      assert StepAt(states, events, p);
      HistoryStep(states, events, p, i, c);
    }
  }

  lemma HistoryStep(states: seq<State>, events: seq<Event>, p: nat, i: nat, c: nat)
    requires |states| == |events| + 1 && i < |states| && i == p + 1
    ensures LastFinishFailed(states, events, i, c)
            <==> if Finishes(states, events, p, c) then !events[p].ok else LastFinishFailed(states, events, p, c)
  {
    if Finishes(states, events, p, c) {
      if !events[p].ok {
        assert FailsLast(states, events, i, p, c);
      }
    } else if LastFinishFailed(states, events, p, c) {
      var j :| FailsLast(states, events, p, j, c);
      assert FailsLast(states, events, i, j, c);
    } else if LastFinishFailed(states, events, i, c) {
      var j :| FailsLast(states, events, i, j, c);
      assert FailsLast(states, events, p, j, c);
    }
  }

  lemma QueuedIsNotHeld(s: State, k: nat)
    requires Exclusive(s) && k < |s.queue|
    ensures forall t :: !InUseBy(s, s.queue[k], t)
  {
  }

  /** A connection in the queue has an open transaction if and only if the last COMMIT or ROLLBACK on
      it failed; so none has one in a run where those statements succeed, whether its wrapper was
      committed, rolled back, dropped or failed to begin. */
  lemma NoOpenTransactionIsRecycled(maxSize: nat, clients: nat, states: seq<State>, events: seq<Event>, i: nat, k: nat)
    requires Run(maxSize, clients, states, events) && i < |states| && k < |states[i].queue|
    ensures states[i].queue[k] in states[i].open <==> LastFinishFailed(states, events, i, states[i].queue[k])
    ensures (forall j :: 0 <= j < |events| && events[j].Finish? ==> events[j].ok) ==>
              states[i].queue[k] !in states[i].open
  {
    RunInv(maxSize, clients, states, events, i);
    QueuedIsNotHeld(states[i], k);
    FailedIsLastFinish(maxSize, clients, states, events, i, states[i].queue[k]);
  }

  /** And a failed COMMIT or ROLLBACK does put an open transaction into the queue. */
  lemma FailedCommitIsRecycled(s: State, t: nat)
    requires Inv(s) && t < |s.clients| && s.lock.None?
    requires s.clients[t].Holding? && !s.clients[t].use.Plain?
    ensures var s1 := Step(s, Finish(t, false));
            && Enabled(s1, LockReturn(t))
            && var s2 := Step(s1, LockReturn(t));
               && Enabled(s2, Push(t))
               && var s3 := Step(s2, Push(t));
                  s.clients[t].conn in s3.queue && s.clients[t].conn in s3.open
  {
    assert InUseBy(s, s.clients[t].conn, t);
    var s1 := Step(s, Finish(t, false));
    var s2 := Step(s1, LockReturn(t));
    var s3 := Step(s2, Push(t));
    assert s3.queue[|s3.queue| - 1] == s.clients[t].conn;
  }

  // ----- The size bound -----

  /** Connections in the queue, in use or about to be: a connection that was pushed back but not
      yet subtracted is counted once. */
  function Size(s: State): int {
    |s.queue| + s.inUse + Total(s.clients, PENDING) - Total(s.clients, DOUBLE)
  }

  /** With at most `n` clients in the window: the bound, and what the client inside the lock knows. */
  ghost predicate Bounded(s: State, n: nat) {
    && Size(s) <= s.maxSize + n - 1
    && forall t :: 0 <= t < |s.clients| && s.clients[t].Checking? ==>
         if s.clients[t].popped then Size(s) <= s.maxSize + n - 2 else s.queue == []
  }

  lemma StepSize(s: State, e: Event)
    requires Enabled(s, e)
    ensures Size(Step(s, e)) == Size(s)
                                + (if e.Check? && s.inUse < s.maxSize then 1 else 0)
                                - (if e.Pop? && s.queue != [] && s.queue[|s.queue| - 1] in s.stale then 1 else 0)
  {
    if !e.GoStale? {
      StepTotals(s, e);
      if e.Pop? {
        SizeAtPop(s, e);
      } else {
        SizeElsewhere(s, e);
      }
    }
  }

  /** One client moves: the totals change by its weights. */
  lemma StepTotals(s: State, e: Event)
    requires Enabled(s, e) && !e.GoStale?
    ensures var pc, pc', cs := s.clients[e.t], Step(s, e).clients[e.t], Step(s, e).clients;
            && Total(cs, PENDING) == Total(s.clients, PENDING) + PENDING(pc') - PENDING(pc)
            && Total(cs, DOUBLE) == Total(s.clients, DOUBLE) + DOUBLE(pc') - DOUBLE(pc)
  {
    var pc' := Step(s, e).clients[e.t];
    assert Step(s, e).clients == s.clients[e.t := pc'];
    TotalUpdate(s.clients, e.t, pc', PENDING);
    TotalUpdate(s.clients, e.t, pc', DOUBLE);
  }

  lemma SizeAtPop(s: State, e: Event)
    requires Enabled(s, e) && e.Pop?
    requires Total(Step(s, e).clients, PENDING)
            == Total(s.clients, PENDING) + PENDING(Step(s, e).clients[e.t]) - PENDING(s.clients[e.t])
    requires Total(Step(s, e).clients, DOUBLE)
            == Total(s.clients, DOUBLE) + DOUBLE(Step(s, e).clients[e.t]) - DOUBLE(s.clients[e.t])
    ensures Size(Step(s, e)) == Size(s) - if s.queue != [] && s.queue[|s.queue| - 1] in s.stale then 1 else 0
  {
  }

  lemma SizeElsewhere(s: State, e: Event)
    requires Enabled(s, e) && !e.Pop? && !e.GoStale?
    requires Total(Step(s, e).clients, PENDING)
            == Total(s.clients, PENDING) + PENDING(Step(s, e).clients[e.t]) - PENDING(s.clients[e.t])
    requires Total(Step(s, e).clients, DOUBLE)
            == Total(s.clients, DOUBLE) + DOUBLE(Step(s, e).clients[e.t]) - DOUBLE(s.clients[e.t])
    ensures Size(Step(s, e)) == Size(s) + if e.Check? && s.inUse < s.maxSize then 1 else 0
  {
    FieldsStep(s, e);
    WeightsStep(s, e);
  }

  lemma FieldsStep(s: State, e: Event)
    requires Enabled(s, e) && !e.Pop? && !e.GoStale?
    ensures |Step(s, e).queue| + Step(s, e).inUse
            == |s.queue| + s.inUse + if e.Push? || e.Count? then 1 else if e.Decrement? then -1 else 0
  {
  }

  lemma WeightsStep(s: State, e: Event)
    requires Enabled(s, e) && !e.Pop? && !e.GoStale?
    ensures var pc, pc' := s.clients[e.t], Step(s, e).clients[e.t];
            PENDING(pc') - PENDING(pc) - DOUBLE(pc') + DOUBLE(pc)
            == if e.Check? && s.inUse < s.maxSize then 1 else if e.Push? || e.Count? then -1
                else if e.Decrement? then 1 else 0
  {
  }

  lemma StepBounded(s: State, e: Event, n: nat)
    requires n >= 1 && Inv(s) && Bounded(s, n) && Enabled(s, e)
    requires Total(Step(s, e).clients, WINDOW) <= n
    ensures Bounded(Step(s, e), n)
  {
    if e.Check? {
      CheckBounded(s, e, n);
    } else if e.Pop? {
      PopBounded(s, e, n);
    } else {
      OtherBounded(s, e, n);
    }
  }

  lemma PopBounded(s: State, e: Event, n: nat)
    requires LockOk(s) && Bounded(s, n) && Enabled(s, e) && e.Pop?
    ensures Bounded(Step(s, e), n)
  {
    StepSize(s, e);
    var r := Step(s, e);
    forall t | 0 <= t < |r.clients| && t != e.t ensures !r.clients[t].Checking? {
      assert HasLock(s.clients[t]) ==> s.lock == Some(t);
      assert HasLock(s.clients[e.t]) && s.lock == Some(e.t);
    }
  }

  /** A client that is checking keeps the others out of the queue. */
  lemma OtherBounded(s: State, e: Event, n: nat)
    requires LockOk(s) && Bounded(s, n) && Enabled(s, e) && !e.Pop? && !e.Check?
    ensures Bounded(Step(s, e), n)
  {
    StepSize(s, e);
    var r := Step(s, e);
    forall t | 0 <= t < |r.clients| && r.clients[t].Checking?
      ensures s.clients[t] == r.clients[t] && (r.queue == s.queue || s.clients[t].popped)
    {
      assert HasLock(s.clients[t]);
    }
  }

  lemma CheckBounded(s: State, e: Event, n: nat)
    requires n >= 1 && Inv(s) && Bounded(s, n) && Enabled(s, e) && e.Check?
    requires Total(Step(s, e).clients, WINDOW) <= n
    ensures Bounded(Step(s, e), n)
  {
    StepSize(s, e);
    var r := Step(s, e);
    forall t | 0 <= t < |r.clients| ensures !r.clients[t].Checking? && !r.clients[t].Popped? {
      assert HasLock(s.clients[t]) ==> t == e.t;
    }
    TotalSame(r.clients, PENDING, WINDOW);
  }

  lemma {:induction false} TotalSame(cs: seq<Pc>, v: Pc -> nat, w: Pc -> nat)
    requires forall i :: 0 <= i < |cs| ==> v(cs[i]) == w(cs[i])
    ensures Total(cs, v) == Total(cs, w)
  {
    if cs != [] {
      TotalSame(cs[1..], v, w);
    }
  }

  lemma {:induction false} TotalBelow(cs: seq<Pc>, v: Pc -> nat, w: Pc -> nat)
    requires forall pc :: v(pc) <= w(pc)
    ensures Total(cs, v) <= Total(cs, w)
  {
    if cs != [] {
      TotalBelow(cs[1..], v, w);
    }
  }

  /** With at most n >= 1 clients between the read of the counter (or the unlock, if they reuse a
      connection) and the increment: queued connections, connections in use and clients about to be
      counted never exceed maxSize + n - 1, whenever connections go stale. */
  lemma PoolSizeBound(maxSize: nat, clients: nat, states: seq<State>, events: seq<Event>, n: nat, i: nat)
    requires Run(maxSize, clients, states, events) && i < |states| && n >= 1
    requires forall j :: 0 <= j < |states| ==> Total(states[j].clients, WINDOW) <= n
    ensures Size(states[i]) <= maxSize + n - 1
  {
    AlwaysBounded(maxSize, clients, states, events, n, i);
    RunInv(maxSize, clients, states, events, i);
  }

  lemma {:induction false} AlwaysBounded(maxSize: nat, clients: nat, states: seq<State>, events: seq<Event>,
                                         n: nat, i: nat)
    requires Run(maxSize, clients, states, events) && i < |states| && n >= 1
    requires forall j :: 0 <= j < |states| ==> Total(states[j].clients, WINDOW) <= n
    ensures Bounded(states[i], n)
    decreases i
  {
    if i == 0 {
      StartBounded(maxSize, clients, n);
    } else {
      AlwaysBounded(maxSize, clients, states, events, n, i - 1);
      BoundedAlong(maxSize, clients, states, events, n, i - 1, i);
    }
  }

  lemma StartBounded(maxSize: nat, clients: nat, n: nat)
    requires n >= 1
    ensures Bounded(Start(maxSize, clients), n)
  {
    TotalZero(Start(maxSize, clients).clients, PENDING);
  }

  lemma BoundedAlong(maxSize: nat, clients: nat, states: seq<State>, events: seq<Event>, n: nat, p: nat, i: nat)
    requires Run(maxSize, clients, states, events) && i < |states| && i == p + 1 && n >= 1
    requires Total(states[i].clients, WINDOW) <= n && Bounded(states[p], n)
    ensures Bounded(states[i], n)
  {
    RunInv(maxSize, clients, states, events, p);
    assert StepAt(states, events, p);
    StepBounded(states[p], events[p], n);
  }

  /** The same sum read off the fields, which counts a connection twice while it is being returned. */
  function RawSize(s: State): int {
    |s.queue| + s.inUse + Total(s.clients, PENDING)
  }

  /** Only the client inside the lock can be counted twice. */
  lemma CountedTwiceInsideLock(s: State)
    requires LockOk(s)
    ensures Total(s.clients, DOUBLE) == if s.lock.Some? && s.lock.value < |s.clients|
            && s.clients[s.lock.value].Pushed? then 1 else 0
  {
    if s.lock.Some? && s.lock.value < |s.clients| && s.clients[s.lock.value].Pushed? {
      var cs := s.clients[s.lock.value := Idle];
      TotalUpdate(s.clients, s.lock.value, Idle, DOUBLE);
      TotalZero(cs, DOUBLE);
    } else {
      TotalZero(s.clients, DOUBLE);
    }
  }

  /** The raw sum keeps the bound whenever the lock is free, and exceeds it by at most the one
      connection that is being returned. */
  lemma RawSizeBound(maxSize: nat, clients: nat, states: seq<State>, events: seq<Event>, n: nat, i: nat)
    requires Run(maxSize, clients, states, events) && i < |states| && n >= 1
    requires forall j :: 0 <= j < |states| ==> Total(states[j].clients, WINDOW) <= n
    ensures states[i].lock.None? ==> RawSize(states[i]) <= maxSize + n - 1
    ensures RawSize(states[i]) <= maxSize + n
  {
    PoolSizeBound(maxSize, clients, states, events, n, i);
    RunInv(maxSize, clients, states, events, i);
    CountedTwiceInsideLock(states[i]);
  }

  /** A return at the bound does exceed it, between its push and its decrement. */
  lemma ReturnIsCountedTwice(s: State, t: nat)
    requires t < |s.clients| && s.lock.None? && s.clients[t].Returning?
    ensures var m := Step(s, LockReturn(t));
            && Enabled(m, Push(t))
            && RawSize(Step(m, Push(t))) == RawSize(s) + 1
            && RawSize(Step(Step(m, Push(t)), Decrement(t))) == RawSize(s)
  {
    var m := Step(s, LockReturn(t));
    RawStep(s, LockReturn(t));
    RawStep(m, Push(t));
    RawStep(Step(m, Push(t)), Decrement(t));
  }

  lemma RawStep(s: State, e: Event)
    requires Enabled(s, e) && (e.LockReturn? || e.Push? || e.Decrement?)
    ensures RawSize(Step(s, e)) == RawSize(s) + if e.Push? then 1 else if e.Decrement? then -1 else 0
  {
    StepTotals(s, e);
  }

  /** Clients that have a connection of their own. */
  const OWNERS: Pc -> nat := (pc: Pc) => if HasConn(pc) then 1 else 0

  lemma {:induction false} OwnersAreCounted(cs: seq<Pc>)
    ensures Total(cs, OWNERS) <= Total(cs, COUNTED) + Total(cs, PENDING) - Total(cs, DOUBLE)
  {
    if cs != [] {
      OwnersAreCounted(cs[1..]);
    }
  }

  /** So the connections that exist, in the queue or with a client, never exceed it either; callers
      that are served one at a time never exceed maxSize. */
  lemma LiveConnectionsBound(maxSize: nat, clients: nat, states: seq<State>, events: seq<Event>, n: nat, i: nat)
    requires Run(maxSize, clients, states, events) && i < |states| && n >= 1
    requires forall j :: 0 <= j < |states| ==> Total(states[j].clients, WINDOW) <= n
    ensures |states[i].queue| + Total(states[i].clients, OWNERS) <= maxSize + n - 1
  {
    PoolSizeBound(maxSize, clients, states, events, n, i);
    RunInv(maxSize, clients, states, events, i);
    OwnersAreCounted(states[i].clients);
  }

  // ----- The bound is reached -----

  /** A run to `s` in which the clients never weigh more than `n`. */
  ghost predicate RunsTo(maxSize: nat, clients: nat, weight: Pc -> nat, n: nat, states: seq<State>,
                         events: seq<Event>, s: State) {
    && Run(maxSize, clients, states, events)
    && (forall j :: 0 <= j < |states| ==> Total(states[j].clients, weight) <= n)
    && states[|states| - 1] == s
  }

  ghost predicate Reaches(maxSize: nat, clients: nat, weight: Pc -> nat, n: nat, s: State) {
    exists states, events :: RunsTo(maxSize, clients, weight, n, states, events, s)
  }

  lemma ReachStep(maxSize: nat, clients: nat, weight: Pc -> nat, n: nat, s: State, e: Event)
    requires Reaches(maxSize, clients, weight, n, s) && Enabled(s, e) && Total(Step(s, e).clients, weight) <= n
    ensures Reaches(maxSize, clients, weight, n, Step(s, e))
  {
    var states, events :| RunsTo(maxSize, clients, weight, n, states, events, s);
    var states', events' := states + [Step(s, e)], events + [e];
    forall i | 0 <= i < |events'| ensures StepAt(states', events', i) {
      assert i < |events| ==> StepAt(states, events, i);
    }
    assert RunsTo(maxSize, clients, weight, n, states', events', Step(s, e));
  }

  /** A step of client `t` to a place of known weight. */
  lemma ReachMove(maxSize: nat, clients: nat, weight: Pc -> nat, n: nat, s: State, e: Event, pc: Pc) returns (r: State)
    requires Reaches(maxSize, clients, weight, n, s) && Enabled(s, e) && !e.GoStale?
    requires pc == Step(s, e).clients[e.t] && Total(s.clients, weight) + weight(pc) <= n + weight(s.clients[e.t])
    ensures r == Step(s, e) && Reaches(maxSize, clients, weight, n, r)
    ensures r.clients == s.clients[e.t := pc]
    ensures Total(r.clients, weight) == Total(s.clients, weight) + weight(pc) - weight(s.clients[e.t])
  {
    r := Step(s, e);
    assert r.clients == s.clients[e.t := pc];
    TotalUpdate(s.clients, e.t, pc, weight);
    ReachStep(maxSize, clients, weight, n, s, e);
  }

  /** A client takes the lock, finds nothing queued and reads that there is room. */
  lemma SeeRoom(maxSize: nat, clients: nat, weight: Pc -> nat, n: nat, s: State, t: nat) returns (r: State)
    requires weight == WINDOW || weight == UNLOCKED
    requires Reaches(maxSize, clients, weight, n, s) && Total(s.clients, weight) + weight(Decided(true)) <= n
    requires s.lock.None? && s.queue == [] && s.inUse < s.maxSize && t < |s.clients| && s.clients[t].Idle?
    ensures Reaches(maxSize, clients, weight, n, r)
    ensures r == Go(s, t, Decided(true)).(lock := Some(t))
    ensures Total(r.clients, weight) == Total(s.clients, weight) + weight(Decided(true))
  {
    r := FindNothing(maxSize, clients, weight, n, s, t);
    r := ReachMove(maxSize, clients, weight, n, r, Check(t), Decided(true));
    assert r.clients == s.clients[t := Decided(true)];
  }

  lemma FindNothing(maxSize: nat, clients: nat, weight: Pc -> nat, n: nat, s: State, t: nat) returns (r: State)
    requires weight == WINDOW || weight == UNLOCKED
    requires Reaches(maxSize, clients, weight, n, s) && Total(s.clients, weight) <= n
    requires s.lock.None? && s.queue == [] && t < |s.clients| && s.clients[t].Idle?
    ensures Reaches(maxSize, clients, weight, n, r) && Total(r.clients, weight) == Total(s.clients, weight)
    ensures r == Go(s, t, Checking(false)).(lock := Some(t))
  {
    r := ReachMove(maxSize, clients, weight, n, s, Acquire(t), Locked);
    r := ReachMove(maxSize, clients, weight, n, r, Pop(t), Checking(false));
    assert r.clients == s.clients[t := Checking(false)];
  }

  /** Then it releases the lock. */
  lemma EnterWindow(maxSize: nat, clients: nat, n: nat, s: State, t: nat) returns (r: State)
    requires Reaches(maxSize, clients, WINDOW, n, s) && Total(s.clients, WINDOW) < n
    requires s.lock.None? && s.queue == [] && s.inUse < s.maxSize && t < |s.clients| && s.clients[t].Idle?
    ensures Reaches(maxSize, clients, WINDOW, n, r) && r == Go(s, t, WindowNew)
    ensures Total(r.clients, WINDOW) == Total(s.clients, WINDOW) + 1
  {
    r := SeeRoom(maxSize, clients, WINDOW, n, s, t);
    r := ReachMove(maxSize, clients, WINDOW, n, r, Unlock(t), WindowNew);
    assert r.clients == s.clients[t := WindowNew];
  }

  /** Then it is counted and its connection is created. */
  lemma LeaveWindow(maxSize: nat, clients: nat, weight: Pc -> nat, n: nat, s: State, t: nat) returns (r: State)
    requires weight == WINDOW || weight == UNLOCKED
    requires Reaches(maxSize, clients, weight, n, s) && t < |s.clients| && s.clients[t].WindowNew?
    requires Total(s.clients, weight) <= n
    ensures Reaches(maxSize, clients, weight, n, r)
    ensures r == Go(s, t, Holding(s.next, Plain)).(inUse := s.inUse + 1, next := s.next + 1)
    ensures Total(r.clients, weight) == Total(s.clients, weight) - 1
  {
    r := ReachMove(maxSize, clients, weight, n, s, Count(t), Creating);
    r := ReachMove(maxSize, clients, weight, n, r, Create(t, true), Holding(s.next, Plain));
    assert r.clients == s.clients[t := Holding(s.next, Plain)];
  }

  /** `k` clients hold connections, the next `j` are in the window, the others idle. */
  ghost predicate Stage(s: State, maxSize: nat, clients: nat, k: nat, j: nat) {
    && s.maxSize == maxSize && |s.clients| == clients && s.lock.None? && s.queue == [] && s.inUse == k
    && Total(s.clients, WINDOW) == j
    && forall t :: 0 <= t < clients ==> StagePc(s.clients[t], t, k, j)
  }

  predicate StagePc(pc: Pc, t: int, k: nat, j: nat) {
    if t < k then pc.Holding? else if t < k + j then pc.WindowNew? else pc.Idle?
  }

  lemma {:induction false} ReachStage(maxSize: nat, clients: nat, n: nat, k: nat, j: nat) returns (s: State)
    requires k + j <= clients && k < maxSize && 1 <= n && j <= n
    ensures Reaches(maxSize, clients, WINDOW, n, s) && Stage(s, maxSize, clients, k, j)
    decreases k, j
  {
    if j > 0 {
      s := ReachStage(maxSize, clients, n, k, j - 1);
      s := EnterWindow(maxSize, clients, n, s, k + j - 1);
    } else if k > 0 {
      s := ReachStage(maxSize, clients, n, k - 1, 0);
      s := EnterWindow(maxSize, clients, n, s, k - 1);
      s := LeaveWindow(maxSize, clients, WINDOW, n, s, k - 1);
    } else {
      s := Start(maxSize, clients);
      TotalZero(s.clients, WINDOW);
      assert RunsTo(maxSize, clients, WINDOW, n, [s], [], s);
    }
  }

  /** Nothing is counted twice or popped in a stage. */
  lemma StageSize(s: State, maxSize: nat, clients: nat, k: nat, j: nat)
    requires Stage(s, maxSize, clients, k, j)
    ensures Total(s.clients, PENDING) == j && Total(s.clients, UNLOCKED) == j && Total(s.clients, DOUBLE) == 0
  {
    forall i | 0 <= i < |s.clients|
      ensures PENDING(s.clients[i]) == WINDOW(s.clients[i]) == UNLOCKED(s.clients[i]) && DOUBLE(s.clients[i]) == 0
    {
      assert StagePc(s.clients[i], i, k, j);
    }
    TotalSame(s.clients, PENDING, WINDOW);
    TotalSame(s.clients, UNLOCKED, WINDOW);
    TotalZero(s.clients, DOUBLE);
  }

  /** All the clients in the window get their connections. */
  lemma {:induction false} EmptyWindow(maxSize: nat, clients: nat, weight: Pc -> nat, n: nat, s: State, k: nat, j: nat)
    returns (r: State)
    requires weight == WINDOW || weight == UNLOCKED
    requires Reaches(maxSize, clients, weight, n, s) && Stage(s, maxSize, clients, k, j) && k + j == clients && j <= n
    ensures Reaches(maxSize, clients, weight, n, r) && Stage(r, maxSize, clients, clients, 0)
    decreases j
  {
    if j == 0 {
      r := s;
    } else {
      StageSize(s, maxSize, clients, k, j);
      assert StagePc(s.clients[k], k, k, j);
      r := LeaveWindow(maxSize, clients, weight, n, s, k);
      NextStage(s, maxSize, clients, k, j, r);
      r := EmptyWindow(maxSize, clients, weight, n, r, k + 1, j - 1);
    }
  }

  lemma NextStage(s: State, maxSize: nat, clients: nat, k: nat, j: nat, r: State)
    requires Stage(s, maxSize, clients, k, j) && k + j <= clients && j > 0
    requires r == Go(s, k, Holding(s.next, Plain)).(inUse := s.inUse + 1, next := s.next + 1)
    ensures Stage(r, maxSize, clients, k + 1, j - 1)
  {
    assert StagePc(s.clients[k], k, k, j);
    TotalUpdate(s.clients, k, Holding(s.next, Plain), WINDOW);
    forall t | 0 <= t < clients ensures StagePc(r.clients[t], t, k + 1, j - 1) {
      assert StagePc(s.clients[t], t, k, j);
    }
  }

  lemma {:induction false} TotalOnes(cs: seq<Pc>, weight: Pc -> nat)
    requires forall i :: 0 <= i < |cs| ==> weight(cs[i]) == 1
    ensures Total(cs, weight) == |cs|
  {
    if cs != [] {
      TotalOnes(cs[1..], weight);
    }
  }

  /** Then each client has a connection. */
  lemma FullStage(s: State, maxSize: nat, clients: nat)
    requires Stage(s, maxSize, clients, clients, 0)
    ensures |s.queue| + Total(s.clients, OWNERS) == clients && Size(s) == clients
  {
    StageSize(s, maxSize, clients, clients, 0);
    forall i | 0 <= i < |s.clients| ensures OWNERS(s.clients[i]) == 1 {
      assert StagePc(s.clients[i], i, clients, 0);
    }
    TotalOnes(s.clients, OWNERS);
  }

  /** For every size and every n there is a run with at most n clients in the window that ends with
      maxSize + n - 1 connections: with two clients in the window a pool of one connection holds two. */
  lemma PoolSizeBoundIsReached(maxSize: nat, n: nat) returns (s: State)
    requires maxSize >= 1 && n >= 1
    ensures Reaches(maxSize, maxSize - 1 + n, WINDOW, n, s)
    ensures |s.queue| + Total(s.clients, OWNERS) == maxSize + n - 1 && Size(s) == maxSize + n - 1
  {
    s := ReachStage(maxSize, maxSize - 1 + n, n, maxSize - 1, n);
    s := EmptyWindow(maxSize, maxSize - 1 + n, WINDOW, n, s, maxSize - 1, n);
    FullStage(s, maxSize, maxSize - 1 + n);
  }

  // ----- The window has to start at the read -----

  /** Only the client inside the lock is past the read and before the unlock. */
  lemma OneMoreInWindow(s: State)
    requires LockOk(s)
    ensures Total(s.clients, WINDOW) <= Total(s.clients, UNLOCKED) + 1
  {
    if s.lock.Some? && s.lock.value < |s.clients| {
      var t := s.lock.value;
      var cs := s.clients[t := Idle];
      TotalUpdate(s.clients, t, Idle, WINDOW);
      TotalUpdate(s.clients, t, Idle, UNLOCKED);
      forall i | 0 <= i < |cs| ensures WINDOW(cs[i]) == UNLOCKED(cs[i]) {
        assert HasLock(cs[i]) ==> i == t;
      }
      TotalSame(cs, WINDOW, UNLOCKED);
    } else {
      TotalSame(s.clients, WINDOW, UNLOCKED);
    }
  }

  /** With at most n clients between the unlock and the increment the bound is one higher. */
  lemma UnlockWindowBound(maxSize: nat, clients: nat, states: seq<State>, events: seq<Event>, n: nat, i: nat)
    requires Run(maxSize, clients, states, events) && i < |states|
    requires forall j :: 0 <= j < |states| ==> Total(states[j].clients, UNLOCKED) <= n
    ensures Size(states[i]) <= maxSize + n
  {
    forall j | 0 <= j < |states| ensures Total(states[j].clients, WINDOW) <= n + 1 {
      RunInv(maxSize, clients, states, events, j);
      OneMoreInWindow(states[j]);
    }
    PoolSizeBound(maxSize, clients, states, events, n + 1, i);
  }

  lemma FewerInWindow(maxSize: nat, clients: nat, n: nat, s: State)
    requires Reaches(maxSize, clients, WINDOW, n, s)
    ensures Reaches(maxSize, clients, UNLOCKED, n, s)
  {
    var states: seq<State>, events: seq<Event> :| RunsTo(maxSize, clients, WINDOW, n, states, events, s);
    forall j | 0 <= j < |states| ensures Total(states[j].clients, UNLOCKED) <= n {
      TotalBelow(states[j].clients, UNLOCKED, WINDOW);
    }
    assert RunsTo(maxSize, clients, UNLOCKED, n, states, events, s);
  }

  /** And that is reached: a client reads the counter under the lock while n others are past the
      unlock, one of those is counted, and only then the client releases the lock.  So for every size
      and every n, maxSize + n - 1 fails for a window that starts at the unlock. */
  lemma UnlockWindowBoundIsReached(maxSize: nat, n: nat) returns (s: State)
    requires maxSize >= 1 && n >= 1
    ensures Reaches(maxSize, maxSize + n, UNLOCKED, n, s)
    ensures |s.queue| + Total(s.clients, OWNERS) == maxSize + n && Size(s) == maxSize + n
  {
    s := ReachStage(maxSize, maxSize + n, n, maxSize - 1, n);
    FewerInWindow(maxSize, maxSize + n, n, s);
    s := LateUnlock(maxSize, maxSize + n, n, s, maxSize - 1);
    s := EmptyWindow(maxSize, maxSize + n, UNLOCKED, n, s, maxSize, n);
    FullStage(s, maxSize, maxSize + n);
  }

  /** The client after the window reads the counter, the first client of the window is counted and gets
      its connection, and then the reader releases the lock. */
  lemma LateUnlock(maxSize: nat, clients: nat, n: nat, s: State, k: nat) returns (r: State)
    requires Reaches(maxSize, clients, UNLOCKED, n, s) && Stage(s, maxSize, clients, k, n)
    requires k < maxSize && n >= 1 && clients == k + n + 1
    ensures Reaches(maxSize, clients, UNLOCKED, n, r) && Stage(r, maxSize, clients, k + 1, n)
  {
    var t := k + n;
    StageSize(s, maxSize, clients, k, n);
    assert StagePc(s.clients[t], t, k, n) && StagePc(s.clients[k], k, k, n);
    r := SeeRoom(maxSize, clients, UNLOCKED, n, s, t);
    r := LeaveWindow(maxSize, clients, UNLOCKED, n, r, k);
    r := ReachMove(maxSize, clients, UNLOCKED, n, r, Unlock(t), WindowNew);
    assert r.clients == s.clients[t := WindowNew][k := Holding(s.next, Plain)];
    LateStage(s, maxSize, clients, k, n, r);
  }

  lemma LateStage(s: State, maxSize: nat, clients: nat, k: nat, n: nat, r: State)
    requires Stage(s, maxSize, clients, k, n) && n >= 1 && clients == k + n + 1
    requires r.clients == s.clients[k + n := WindowNew][k := Holding(s.next, Plain)]
    requires r.maxSize == maxSize && r.lock.None? && r.queue == [] && r.inUse == k + 1
    ensures Stage(r, maxSize, clients, k + 1, n)
  {
    var cs := s.clients[k + n := WindowNew];
    assert StagePc(s.clients[k + n], k + n, k, n) && StagePc(s.clients[k], k, k, n);
    TotalUpdate(s.clients, k + n, WindowNew, WINDOW);
    TotalUpdate(cs, k, Holding(s.next, Plain), WINDOW);
    forall t | 0 <= t < clients ensures StagePc(r.clients[t], t, k + 1, n) {
      assert StagePc(s.clients[t], t, k, n);
    }
  }
}
