/** Where derivation indices are reused: a unit that is left out of a boot, the auth unit, and
    rotations that are not serialised (crates/cdk-signatory/src/common.rs:36-113,
    crates/cdk-signatory/src/db_signatory.rs:56-89 and 221-262). */
module IndexReuse {
  import opened Wrappers
  import opened Issuance
  import opened KeysetStore
  import opened KeysetIds
  import opened KeysetTheorems
  import opened DerivationIndices
  import opened SignatoryRuns
  import Amount

  /** The index of a rotation, from the active keyset of the unit. */
  lemma RotationAfter(s: Store, rows: seq<KeySetInfo>, unit: CurrencyUnit, a: nat)
    requires OneActive(s) && Lists(rows, s) && a in s && s[a].unit == unit && s[a].active && s[a].index.Some?
    ensures RotationIndex(rows, unit) == s[a].index.value + 1
  {
    ActiveRowIsActive(rows, unit);
    var i :| 0 <= i < |rows| && rows[i] == s[a];
    assert ActiveRow(rows, unit).Some?;
    assert ActiveRow(rows, unit).value.id == a;
  }

  lemma RotationOfInactive(s: Store, rows: seq<KeySetInfo>, unit: CurrencyUnit)
    requires Lists(rows, s) && forall x :: x in s && s[x].unit == unit ==> !s[x].active
    ensures RotationIndex(rows, unit) == 1
  {
    ActiveRowIsActive(rows, unit);
  }

  /** Which listing of the store a rotation reads does not matter. */
  lemma SameRotationIndex(s: Store, rows: seq<KeySetInfo>, rows': seq<KeySetInfo>, unit: CurrencyUnit)
    requires OneActive(s) && Lists(rows, s) && Lists(rows', s)
    ensures RotationIndex(rows, unit) == RotationIndex(rows', unit)
  {
    ActiveRowIsActive(rows, unit);
    ActiveRowIsActive(rows', unit);
    if ActiveRow(rows, unit).Some? {
      var row := ActiveRow(rows, unit).value;
      var i :| 0 <= i < |rows'| && rows'[i] == s[row.id];
    }
    if ActiveRow(rows', unit).Some? {
      var row := ActiveRow(rows', unit).value;
      var i :| 0 <= i < |rows| && rows[i] == s[row.id];
    }
  }

  // ----- Rotations that are not serialised -----

  /** A rotation that reads the store in one step and writes it in a later one. */
  datatype Racer = Waiting(args: RotateArguments) | Chosen(info: KeySetInfo) | Failed(error: BootError) | Done

  datatype Race = Race(store: Store, racers: seq<Racer>)

  datatype RaceEvent = Read(t: nat, rows: seq<KeySetInfo>) | Write(t: nat)

  ghost predicate CanHappen(r: Race, e: RaceEvent) {
    && e.t < |r.racers|
    && match e
       case Read(t, rows) => r.racers[t].Waiting? && Lists(rows, r.store)
       case Write(t) => r.racers[t].Chosen?
  }

  function Happen(kc: Keychain, custom: map<CurrencyUnit, Path>, r: Race, e: RaceEvent): Race
    requires kc.group.q > 0 && e.t < |r.racers| && (if e.Read? then r.racers[e.t].Waiting? else r.racers[e.t].Chosen?)
  {
    match e
    case Read(t, rows) =>
      var args := r.racers[t].args;
      var info := NewInfo(kc, custom, args.unit, RotationIndex(rows, args.unit), args.amounts, args.feePpk);
      r.(racers := r.racers[t := if info.Ok? then Chosen(info.value) else Failed(info.error)])
    case Write(t) => Race(Activate(r.store, r.racers[t].info), r.racers[t := Done])
  }

  /** One racer that reads and writes without interruption is a rotation. */
  lemma UninterruptedIsRotate(kc: Keychain, custom: map<CurrencyUnit, Path>, s: Store, rows: seq<KeySetInfo>,
                              args: RotateArguments)
    requires kc.group.q > 0
    ensures var r := Happen(kc, custom, Race(s, [Waiting(args)]), Read(0, rows));
            var o := Rotate(kc, s, rows, args, custom);
            match o.error
            case Some(e) => r == Race(o.store, [Failed(e)])
            case None => r.racers[0].Chosen? && Happen(kc, custom, r, Write(0)).store == o.store
  {
  }

  /** On one path two lists of amounts have one id if and only if they have the same public keys in order
      of amount; for ascending lists, if and only if they have the same length. */
  lemma SameIdIff(kc: Keychain, path: Path, a: seq<nat>, b: seq<nat>)
    requires kc.Valid()
    ensures IdOf(kc, path, a) == IdOf(kc, path, b) <==> PubList(kc, path, a) == PubList(kc, path, b)
    ensures Amount.Ascending(a) && Amount.Ascending(b) ==> (IdOf(kc, path, a) == IdOf(kc, path, b) <==> |a| == |b|)
  {
    if Amount.Ascending(a) && Amount.Ascending(b) {
      InOrderOfAscending(a);
      InOrderOfAscending(b);
      if |a| == |b| {
        SameLengthSameId(kc, path, a, b);
      }
    }
  }

  /** Two racers read, and then both write. */
  ghost predicate BothReadFirst(kc: Keychain, custom: map<CurrencyUnit, Path>, r: seq<Race>,
                                rowsA: seq<KeySetInfo>, rowsB: seq<KeySetInfo>)
    requires kc.group.q > 0
  {
    && |r| == 5
    && CanHappen(r[0], Read(0, rowsA)) && r[1] == Happen(kc, custom, r[0], Read(0, rowsA))
    && CanHappen(r[1], Read(1, rowsB)) && r[2] == Happen(kc, custom, r[1], Read(1, rowsB))
    && CanHappen(r[2], Write(0)) && r[3] == Happen(kc, custom, r[2], Write(0))
    && CanHappen(r[3], Write(1)) && r[4] == Happen(kc, custom, r[3], Write(1))
  }

  lemma RaceStores(kc: Keychain, custom: map<CurrencyUnit, Path>, s: Store, a: RotateArguments, b: RotateArguments,
                   rowsA: seq<KeySetInfo>, rowsB: seq<KeySetInfo>, p: KeySetInfo, q: KeySetInfo) returns (r: seq<Race>)
    requires kc.group.q > 0 && Lists(rowsA, s) && Lists(rowsB, s)
    requires NewInfo(kc, custom, a.unit, RotationIndex(rowsA, a.unit), a.amounts, a.feePpk) == Ok(p)
    requires NewInfo(kc, custom, b.unit, RotationIndex(rowsB, b.unit), b.amounts, b.feePpk) == Ok(q)
    ensures BothReadFirst(kc, custom, r, rowsA, rowsB) && r[0] == Race(s, [Waiting(a), Waiting(b)])
    ensures r[3].store == Activate(s, p) && r[4].store == Activate(Activate(s, p), q)
  {
    var r0 := Race(s, [Waiting(a), Waiting(b)]);
    var r1 := Race(s, [Chosen(p), Waiting(b)]);
    var r2 := Race(s, [Chosen(p), Chosen(q)]);
    var r3 := Race(Activate(s, p), [Done, Chosen(q)]);
    var r4 := Race(Activate(Activate(s, p), q), [Done, Done]);
    r := [r0, r1, r2, r3, r4];
  }

  /** Why the runner matters: two rotations of a unit that both read before either writes.  The store
      then has two keysets of the unit with one index and one path, so the second is no growth; or, if
      both have the same public keys in order of amount, the second rotation overwrites the first, with
      the amounts of the second. */
  lemma UnserialisedRotationsCollide(w: World, s: Store, custom: map<CurrencyUnit, Path>, a: RotateArguments,
                                     b: RotateArguments, rowsA: seq<KeySetInfo>, rowsB: seq<KeySetInfo>)
    returns (r: seq<Race>, x: nat, y: nat)
    requires w.Valid() && IndexStore(w, s) && w.CustomOk(custom)
    requires a.unit == w.unit && b.unit == w.unit && Lists(rowsA, s) && Lists(rowsB, s)
    requires RotationIndex(rowsA, w.unit) < HARDENED && 0 < |a.amounts| <= HARDENED && 0 < |b.amounts| <= HARDENED
    ensures BothReadFirst(w.kc, custom, r, rowsA, rowsB) && r[0] == Race(s, [Waiting(a), Waiting(b)])
    ensures Collided(w, s, r[3].store, r[4].store, x, y)
    ensures r[4].store[y].amounts == b.amounts && (x != y ==> r[4].store[x].amounts == a.amounts)
    ensures x == y <==> PubList(w.kc, r[4].store[y].path, a.amounts) == PubList(w.kc, r[4].store[y].path, b.amounts)
    ensures Amount.Ascending(a.amounts) && Amount.Ascending(b.amounts) ==> (x == y <==> |a.amounts| == |b.amounts|)
  {
    SameRotationIndex(s, rowsA, rowsB, w.unit);
    var p := Choose(w, s, custom, a, rowsA);
    var q := Choose(w, s, custom, b, rowsB);
    x, y := p.id, q.id;
    SameIdIff(w.kc, q.path, a.amounts, b.amounts);
    r := RaceStores(w.kc, custom, s, a, b, rowsA, rowsB, p, q);
    TwoActivations(w, s, p, q);
  }

  /** Both keysets are new in `t` and have the same index and path; at most the second is active. */
  ghost predicate Collided(w: World, s: Store, m: Store, t: Store, x: nat, y: nat) {
    && x !in s && y !in s && w.Mine(t, x) && w.Mine(t, y) && t[y].active
    && t[x].index == t[y].index && t[x].path == t[y].path
    && (if x == y then t == Activate(s, t[y]) else !t[x].active && !w.Grows(m, t))
  }

  /** What one racer reads: a new keyset above all those of the unit. */
  lemma Choose(w: World, s: Store, custom: map<CurrencyUnit, Path>, args: RotateArguments,
               rows: seq<KeySetInfo>)
    returns (p: KeySetInfo)
    requires w.Valid() && IndexStore(w, s) && w.CustomOk(custom) && args.unit == w.unit && Lists(rows, s)
    requires RotationIndex(rows, w.unit) < HARDENED && 0 < |args.amounts| <= HARDENED
    ensures NewInfo(w.kc, custom, args.unit, RotationIndex(rows, args.unit), args.amounts, args.feePpk) == Ok(p)
    ensures p.id == IdOf(w.kc, p.path, args.amounts)
            && p.path == DefaultPath(DerivationIndex(w.unit).value, RotationIndex(rows, w.unit))
    ensures p.unit == w.unit && p.active && p.index == Some(RotationIndex(rows, w.unit)) && p.id !in s
    ensures p.amounts == args.amounts
  {
    var index := RotationIndex(rows, w.unit);
    p := NewInfo(w.kc, custom, args.unit, index, args.amounts, args.feePpk).value;
    NewInfoOk(w, custom, w.unit, index, args.amounts, args.feePpk);
    RotationTakesNextIndex(w, s, rows);
    if p.id in s {
      SameIdSamePath(w, p, s[p.id]);
      assert w.Mine(s, p.id);
    }
  }

  lemma TwoActivations(w: World, s: Store, p: KeySetInfo, q: KeySetInfo)
    requires p.unit == w.unit && q.unit == w.unit && p.index == q.index && p.index.Some? && p.path == q.path
    requires p.active && q.active
    requires p.id !in s && q.id !in s
    ensures Collided(w, s, Activate(s, p), Activate(Activate(s, p), q), p.id, q.id)
    ensures var t := Activate(Activate(s, p), q);
            t[q.id] == q && (p.id != q.id ==> t[p.id].amounts == p.amounts)
  {
    var m, t := Activate(s, p), Activate(Activate(s, p), q);
    if p.id != q.id {
      assert w.Mine(m, p.id) && w.Mine(t, q.id) && !w.Mine(m, q.id);
      assert m[p.id].index == p.index && t[q.id].index == q.index;
      assert !Below(m[p.id].index, t[q.id].index);
    }
  }

  // ----- A unit that is left out of a boot -----

  /** The first boot gives the unit index 0. */
  lemma FirstBoot(w: World, rows: seq<KeySetInfo>, initOrder: seq<CurrencyUnit>, createOrder: seq<CurrencyUnit>,
                  cfg: Config)
    returns (a: nat)
    requires w.Valid() && Lists(rows, map[]) && w.ConfigOk(cfg) && w.unit in cfg.supported
    requires Orders(rows, initOrder, createOrder, cfg)
    requires Boot(w.kc, map[], rows, initOrder, createOrder, cfg).error.None?
    ensures var t := Boot(w.kc, map[], rows, initOrder, createOrder, cfg).store;
            w.Inv(t) && OneActive(t) && w.Mine(t, a) && t[a].active && t[a].index == Some(0)
  {
    RowsOk(w, map[], rows);
    BootGrows(w, map[], rows, initOrder, createOrder, cfg);
    BootOneActive(w.kc, map[], rows, initOrder, createOrder, cfg);
    InitOthers(w, rows, initOrder, cfg);
    ApplyOthers(w, Deactivate(map[]), InitChoices(w.kc, rows, initOrder, cfg));
    a := CreatedAtZero(w, Halfway(w.kc, map[], rows, initOrder, cfg), rows, initOrder, createOrder, cfg);
  }

  /** The second phase of a boot gives a unit without stored keysets index 0. */
  lemma CreatedAtZero(w: World, s: Store, rows: seq<KeySetInfo>, initOrder: seq<CurrencyUnit>,
                      createOrder: seq<CurrencyUnit>, cfg: Config) returns (a: nat)
    requires w.Valid() && w.Inv(s) && w.ConfigOk(cfg) && w.unit in cfg.supported && Highest(rows, w.unit).None?
    requires Orders(rows, initOrder, createOrder, cfg) && Apply(s, CreateChoices(w.kc, rows, createOrder, cfg)).Ok?
    ensures var t := Apply(s, CreateChoices(w.kc, rows, createOrder, cfg)).value;
            w.Mine(t, a) && t[a].active && t[a].index == Some(0)
  {
    var choices := CreateChoices(w.kc, rows, createOrder, cfg);
    assert w.unit in createOrder;
    var m :| 0 <= m < |createOrder| && createOrder[m] == w.unit;
    OnlyOneChoice(w, rows, createOrder, cfg, m);
    ApplyOkEach(s, choices, m);
    ZeroChoice(w, rows, cfg);
    a := choices[m].value.value.id;
    ApplyActivates(w, s, choices, m, choices[m].value.value);
  }

  lemma OnlyOneChoice(w: World, rows: seq<KeySetInfo>, order: seq<CurrencyUnit>, cfg: Config, m: nat)
    requires w.Valid() && w.ConfigOk(cfg) && m < |order| && order[m] == w.unit
    requires forall i, j :: 0 <= i < j < |order| ==> order[i] != order[j]
    ensures OnlyAt(w, CreateChoices(w.kc, rows, order, cfg), m)
  {
    forall i | 0 <= i < |order| && i != m ensures OtherChoice(w, CreateChoice(w.kc, rows, order[i], cfg)) {
      CreateChoiceOk(w, rows, order[i], cfg);
    }
  }

  lemma ZeroChoice(w: World, rows: seq<KeySetInfo>, cfg: Config)
    requires w.Valid() && w.ConfigOk(cfg) && w.unit in cfg.supported && Highest(rows, w.unit).None?
    ensures var c := CreateChoice(w.kc, rows, w.unit, cfg);
            c.Ok? ==>
              && c.value.Some? && w.RowOk(c.value.value)
              && c.value.value.unit == w.unit && c.value.value.index == Some(0)
  {
    CreateChoiceOk(w, rows, w.unit, cfg);
  }

  /** A rotation of the unit with a known index adds a keyset with that index. */
  lemma RotatesTo(w: World, s: Store, rows: seq<KeySetInfo>, args: RotateArguments,
                  custom: map<CurrencyUnit, Path>, index: nat)
    returns (p: KeySetInfo)
    requires w.Valid() && w.Inv(s) && w.CustomOk(custom) && args.unit == w.unit && 0 < |args.amounts| <= HARDENED
    requires RotationIndex(rows, w.unit) == index < HARDENED
    ensures Rotate(w.kc, s, rows, args, custom) == Outcome(Activate(s, p), None) && w.Inv(Activate(s, p))
    ensures p.id == IdOf(w.kc, p.path, args.amounts) && p.path == DefaultPath(DerivationIndex(w.unit).value, index)
    ensures p.unit == w.unit && p.index == Some(index) && p.amounts == args.amounts && Activate(s, p)[p.id] == p
  {
    p := NewInfo(w.kc, custom, w.unit, index, args.amounts, args.feePpk).value;
    NewInfoOk(w, custom, w.unit, index, args.amounts, args.feePpk);
    ActivateKeepsInv(w, s, p);
  }

  /** Left out of a boot and then rotated, the unit gets a keyset with index 1, and keeps every older
      one with that index. */
  lemma RotatedAfterLeftOut(w: World, s: Store, rows: seq<KeySetInfo>, initOrder: seq<CurrencyUnit>,
                            createOrder: seq<CurrencyUnit>, cfg: Config, listed: seq<KeySetInfo>, b: RotateArguments)
    returns (q: KeySetInfo)
    requires w.Valid() && w.Inv(s) && Lists(rows, s) && w.ConfigOk(cfg) && w.unit !in Supported(cfg)
    requires Boot(w.kc, s, rows, initOrder, createOrder, cfg).error.None?
    requires Lists(listed, Boot(w.kc, s, rows, initOrder, createOrder, cfg).store)
    requires b.unit == w.unit && 0 < |b.amounts| <= HARDENED
    ensures var t := Boot(w.kc, s, rows, initOrder, createOrder, cfg).store;
            && Rotate(w.kc, t, listed, b, cfg.custom) == Outcome(Activate(t, q), None)
            && q.id == IdOf(w.kc, q.path, b.amounts) && q.path == DefaultPath(DerivationIndex(w.unit).value, 1)
            && w.Mine(Activate(t, q), q.id) && Activate(t, q)[q.id] == q && q.active && q.index == Some(1)
            && q.amounts == b.amounts
            && forall x :: w.Mine(s, x) ==>
                w.Mine(Activate(t, q), x) && (x != q.id ==> Activate(t, q)[x] == s[x].(active := false))
  {
    var t := Boot(w.kc, s, rows, initOrder, createOrder, cfg).store;
    BootWithoutUnit(w, s, rows, initOrder, createOrder, cfg);
    RotationLeftOut(w, t, listed);
    q := RotatesTo(w, t, listed, b, cfg.custom, 1);
    KeepsOlder(w, s, t, q);
  }

  lemma RotationLeftOut(w: World, t: Store, listed: seq<KeySetInfo>)
    requires Lists(listed, t) && forall x :: w.Mine(t, x) ==> !t[x].active
    ensures RotationIndex(listed, w.unit) == 1
  {
    forall x | x in t && t[x].unit == w.unit ensures !t[x].active {
      assert w.Mine(t, x);
    }
    RotationOfInactive(t, listed, w.unit);
  }

  lemma KeepsOlder(w: World, s: Store, t: Store, q: KeySetInfo)
    requires q.unit == w.unit && forall x :: w.Mine(s, x) ==> w.Mine(t, x) && t[x] == s[x].(active := false)
    ensures forall x :: w.Mine(s, x) ==>
              w.Mine(Activate(t, q), x) && (x != q.id ==> Activate(t, q)[x] == s[x].(active := false))
  {
    forall x | w.Mine(s, x)
      ensures w.Mine(Activate(t, q), x) && (x != q.id ==> Activate(t, q)[x] == s[x].(active := false))
    {
      assert w.Mine(t, x);
    }
  }

  /** The unit is booted and rotated, left out of the next boot, and rotated again. */
  ghost predicate LeftOutRun(w: World, nodes: seq<Node>, events: seq<Event>, a: RotateArguments, b: RotateArguments)
    requires w.kc.group.q > 0
  {
    && Run(w.kc, nodes, events) && |events| == 6
    && events[0].BootUp? && w.ConfigOk(events[0].cfg) && w.unit in events[0].cfg.supported && nodes[1].live.Some?
    && events[1] == Submit(a) && events[2].Handle?
    && events[3].BootUp? && w.ConfigOk(events[3].cfg) && w.unit !in Supported(events[3].cfg) && nodes[4].live.Some?
    && events[4] == Submit(b) && events[5].Handle?
    && a.unit == w.unit && 0 < |a.amounts| <= HARDENED
    && b.unit == w.unit && 0 < |b.amounts| <= HARDENED
  }

  /** A boot that succeeds, a request and its rotation, as changes of the store. */
  lemma BootThenRotate(kc: Keychain, nodes: seq<Node>, events: seq<Event>, k: nat)
    requires kc.group.q > 0 && Run(kc, nodes, events) && k + 2 < |events|
    requires events[k].BootUp? && events[k + 1].Submit? && events[k + 2].Handle? && nodes[k + 1].live.Some?
    ensures var e, args, rows := events[k], events[k + 1].args, events[k + 2].rows;
            var o := Boot(kc, nodes[k].store, e.rows, e.initOrder, e.createOrder, e.cfg);
            && Lists(e.rows, nodes[k].store) && Orders(e.rows, e.initOrder, e.createOrder, e.cfg)
            && o.error.None? && Lists(rows, o.store)
            && nodes[k + 3].store == Rotate(kc, o.store, rows, args, e.cfg.custom).store
  {
    RunStep(kc, nodes, events, k);
    RunStep(kc, nodes, events, k + 1);
    RunStep(kc, nodes, events, k + 2);
    assert nodes[k + 2].queue == [events[k + 1].args];
  }

  /** The store after the first rotation of such a run. */
  lemma FirstHalf(w: World, nodes: seq<Node>, events: seq<Event>, a: RotateArguments, b: RotateArguments)
    returns (p: KeySetInfo)
    requires w.Valid() && LeftOutRun(w, nodes, events, a, b)
    ensures w.Inv(nodes[3].store) && w.Mine(nodes[3].store, p.id) && nodes[3].store[p.id] == p && p.active
    ensures p.index == Some(1) && p.id == IdOf(w.kc, p.path, a.amounts)
    ensures p.path == DefaultPath(DerivationIndex(w.unit).value, 1)
  {
    BootThenRotate(w.kc, nodes, events, 0);
    p := FirstRotation(w, events[0], events[2].rows, a);
  }

  lemma FirstRotation(w: World, e: Event, listed: seq<KeySetInfo>, a: RotateArguments) returns (p: KeySetInfo)
    requires w.Valid() && e.BootUp? && Lists(e.rows, map[]) && w.ConfigOk(e.cfg) && w.unit in e.cfg.supported
    requires Orders(e.rows, e.initOrder, e.createOrder, e.cfg)
    requires Boot(w.kc, map[], e.rows, e.initOrder, e.createOrder, e.cfg).error.None?
    requires Lists(listed, Boot(w.kc, map[], e.rows, e.initOrder, e.createOrder, e.cfg).store)
    requires a.unit == w.unit && 0 < |a.amounts| <= HARDENED
    ensures var t := Rotate(w.kc, Boot(w.kc, map[], e.rows, e.initOrder, e.createOrder, e.cfg).store, listed, a,
            e.cfg.custom).store;
            w.Inv(t) && w.Mine(t, p.id) && t[p.id] == p && p.active
    ensures p.index == Some(1) && p.id == IdOf(w.kc, p.path, a.amounts)
    ensures p.path == DefaultPath(DerivationIndex(w.unit).value, 1)
  {
    var s := Boot(w.kc, map[], e.rows, e.initOrder, e.createOrder, e.cfg).store;
    var top := FirstBoot(w, e.rows, e.initOrder, e.createOrder, e.cfg);
    RotationAfter(s, listed, w.unit, top);
    p := RotatesTo(w, s, listed, a, e.cfg.custom, 1);
  }

  /** Two keysets of the unit with index 1 on one path, or one for both. */
  ghost predicate SharesIndexOne(w: World, t: Store, x: nat, y: nat) {
    && w.Mine(t, x) && w.Mine(t, y) && t[y].active && (x != y ==> !t[x].active)
    && t[x].index == t[y].index == Some(1) && t[x].path == t[y].path
  }

  lemma SecondHalf(w: World, s: Store, p: KeySetInfo, e: Event, listed: seq<KeySetInfo>, b: RotateArguments)
    returns (q: KeySetInfo)
    requires w.Valid() && w.Inv(s) && w.Mine(s, p.id) && s[p.id] == p && p.index == Some(1)
    requires p.path == DefaultPath(DerivationIndex(w.unit).value, 1)
    requires e.BootUp? && Lists(e.rows, s) && w.ConfigOk(e.cfg) && w.unit !in Supported(e.cfg)
    requires Boot(w.kc, s, e.rows, e.initOrder, e.createOrder, e.cfg).error.None?
    requires Lists(listed, Boot(w.kc, s, e.rows, e.initOrder, e.createOrder, e.cfg).store)
    requires b.unit == w.unit && 0 < |b.amounts| <= HARDENED
    ensures var t := Rotate(w.kc, Boot(w.kc, s, e.rows, e.initOrder, e.createOrder, e.cfg).store, listed, b,
            e.cfg.custom).store;
            SharesIndexOne(w, t, p.id, q.id) && t[q.id] == q
    ensures q.id == IdOf(w.kc, q.path, b.amounts) && q.path == p.path && q.amounts == b.amounts
  {
    q := RotatedAfterLeftOut(w, s, e.rows, e.initOrder, e.createOrder, e.cfg, listed, b);
  }

  /** In every such run the last rotation uses index 1 and its path a second time: the store ends with
      two keysets of the unit with that index, or, if both have the same public keys in order of amount,
      with one that has the amounts of the second rotation. */
  lemma LeftOutIndexReused(w: World, nodes: seq<Node>, events: seq<Event>, a: RotateArguments, b: RotateArguments)
    returns (x: nat, y: nat)
    requires w.Valid() && LeftOutRun(w, nodes, events, a, b)
    ensures w.Mine(nodes[3].store, x) && nodes[3].store[x].active && nodes[3].store[x].index == Some(1)
    ensures SharesIndexOne(w, nodes[6].store, x, y)
    ensures nodes[6].store[y].amounts == b.amounts
    ensures var path := nodes[6].store[y].path;
            x == y <==> PubList(w.kc, path, a.amounts) == PubList(w.kc, path, b.amounts)
    ensures Amount.Ascending(a.amounts) && Amount.Ascending(b.amounts) ==> (x == y <==> |a.amounts| == |b.amounts|)
  {
    var p := FirstHalf(w, nodes, events, a, b);
    BootThenRotate(w.kc, nodes, events, 3);
    x := p.id;
    y := LeftOutEnd(w, nodes[3].store, p, events[3], events[5].rows, a.amounts, b, nodes[6].store);
  }

  lemma LeftOutEnd(w: World, s: Store, p: KeySetInfo, e: Event, listed: seq<KeySetInfo>, a: seq<nat>,
                   b: RotateArguments, t: Store)
    returns (y: nat)
    requires w.Valid() && w.Inv(s) && w.Mine(s, p.id) && s[p.id] == p && p.index == Some(1)
    requires p.path == DefaultPath(DerivationIndex(w.unit).value, 1) && p.id == IdOf(w.kc, p.path, a)
    requires e.BootUp? && Lists(e.rows, s) && w.ConfigOk(e.cfg) && w.unit !in Supported(e.cfg)
    requires b.unit == w.unit && 0 < |b.amounts| <= HARDENED
    requires var o := Boot(w.kc, s, e.rows, e.initOrder, e.createOrder, e.cfg);
             o.error.None? && Lists(listed, o.store) && t == Rotate(w.kc, o.store, listed, b, e.cfg.custom).store
    ensures SharesIndexOne(w, t, p.id, y) && t[y].amounts == b.amounts
    ensures p.id == y <==> PubList(w.kc, t[y].path, a) == PubList(w.kc, t[y].path, b.amounts)
    ensures Amount.Ascending(a) && Amount.Ascending(b.amounts) ==> (p.id == y <==> |a| == |b.amounts|)
  {
    var q := SecondHalf(w, s, p, e, listed, b);
    SameIdIff(w.kc, q.path, a, b.amounts);
    y := q.id;
  }

  // ----- The auth unit -----

  /** After a boot without the auth unit, a rotation of it takes index 1, whatever indices are stored. */
  lemma AuthIndexReused(w: World, s: Store, rows: seq<KeySetInfo>, initOrder: seq<CurrencyUnit>,
                        createOrder: seq<CurrencyUnit>, cfg: Config, listed: seq<KeySetInfo>)
    requires w.Valid() && w.Inv(s) && Lists(rows, s) && w.ConfigOk(cfg) && w.unit == Auth
    requires Auth !in cfg.supported && Orders(rows, initOrder, createOrder, cfg)
    requires Boot(w.kc, s, rows, initOrder, createOrder, cfg).error.None?
    requires Lists(listed, Boot(w.kc, s, rows, initOrder, createOrder, cfg).store)
    ensures RotationIndex(listed, Auth) == 1
  {
    var t := Boot(w.kc, s, rows, initOrder, createOrder, cfg).store;
    BootOneActive(w.kc, s, rows, initOrder, createOrder, cfg);
    AuthStartsAgain(w, s, rows, initOrder, createOrder, cfg);
    var a :| w.Mine(t, a) && t[a].active && t[a].index == Some(0);
    RotationAfter(t, listed, Auth, a);
  }
}
