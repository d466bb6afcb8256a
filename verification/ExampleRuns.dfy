/** Runs of the signatory that break a promise, built from the empty store. */
module ExampleRuns {
  import opened Wrappers
  import opened BlindSignature
  import opened Issuance
  import opened KeysetStore
  import opened KeysetTheorems
  import opened DerivationIndices
  import opened SignatoryRuns
  import opened IndexReuse
  import opened KeyLoss
  import Amount
  import AmountTheorems

  // ----- Building runs -----

  /** Every store can be listed. */
  lemma {:induction false} ListingExists(s: Store) returns (rows: seq<KeySetInfo>)
    requires forall id :: id in s ==> s[id].id == id
    ensures Lists(rows, s)
    decreases |s|
  {
    if s == map[] {
      rows := [];
    } else {
      var id :| id in s;
      var rest := s - {id};
      assert s.Keys == rest.Keys + {id} && id !in rest;
      assert |s.Keys| == |s| && |rest.Keys| == |rest|;
      var front := ListingExists(rest);
      rows := front + [s[id]];
      forall x | x in s ensures s[x] in rows {
        if x != id {
          assert rest[x] in front;
        } else {
          assert rows[|front|] == s[id];
        }
      }
    }
  }

  lemma Extend(kc: Keychain, nodes: seq<Node>, events: seq<Event>, e: Event)
    returns (nodes': seq<Node>, events': seq<Event>)
    requires kc.group.q > 0 && Run(kc, nodes, events) && Enabled(kc, nodes[|events|], e)
    ensures nodes' == nodes + [Step(kc, nodes[|events|], e)] && events' == events + [e]
    ensures Run(kc, nodes', events')
  {
    nodes', events' := nodes + [Step(kc, nodes[|events|], e)], events + [e];
    forall i | 0 <= i < |events'| ensures StepAt(kc, nodes', events', i) {
      assert i < |events| ==> StepAt(kc, nodes, events, i);
    }
  }

  lemma EmptyRun(kc: Keychain)
    requires kc.group.q > 0
    ensures Run(kc, [EMPTY], [])
  {
  }

  /** A boot with given listing and orders. */
  lemma DoBoot(kc: Keychain, nodes: seq<Node>, events: seq<Event>, cfg: Config, rows: seq<KeySetInfo>,
               initOrder: seq<CurrencyUnit>, createOrder: seq<CurrencyUnit>)
    returns (nodes': seq<Node>, events': seq<Event>)
    requires kc.group.q > 0 && Run(kc, nodes, events)
    requires Lists(rows, nodes[|events|].store) && Orders(rows, initOrder, createOrder, cfg)
    requires Boot(kc, nodes[|events|].store, rows, initOrder, createOrder, cfg).error.None?
    ensures Run(kc, nodes', events') && |events'| == |events| + 1
    ensures nodes <= nodes' && events <= events'
    ensures events'[|events|].BootUp? && events'[|events|].cfg == cfg
    ensures var n := nodes'[|events| + 1];
            && n.store == Boot(kc, nodes[|events|].store, rows, initOrder, createOrder, cfg).store
            && n.live.Some? && n.live.value.custom == cfg.custom && n.queue == []
  {
    var t := Boot(kc, nodes[|events|].store, rows, initOrder, createOrder, cfg).store;
    MemoryAlwaysAgrees(kc, nodes, events, |events|);
    BootWellFormed(kc, nodes[|events|].store, rows, initOrder, createOrder, cfg);
    var reloaded := ListingExists(t);
    nodes', events' := Extend(kc, nodes, events, BootUp(cfg, rows, initOrder, createOrder, reloaded));
  }

  /** A request and its rotation, when nothing else is queued. */
  lemma DoRotate(kc: Keychain, nodes: seq<Node>, events: seq<Event>, args: RotateArguments)
    returns (nodes': seq<Node>, events': seq<Event>, rows: seq<KeySetInfo>)
    requires kc.group.q > 0 && Run(kc, nodes, events)
    requires nodes[|events|].live.Some? && nodes[|events|].queue == []
    ensures Run(kc, nodes', events') && |events'| == |events| + 2
    ensures nodes <= nodes' && events <= events'
    ensures events'[|events|] == Submit(args) && events'[|events| + 1].Handle?
    ensures Lists(rows, nodes[|events|].store)
    ensures var n := nodes'[|events| + 2];
            && n.store == Rotate(kc, nodes[|events|].store, rows, args, nodes[|events|].live.value.custom).store
            && n.live.Some? && n.live.value.custom == nodes[|events|].live.value.custom && n.queue == []
  {
    var s, custom := nodes[|events|].store, nodes[|events|].live.value.custom;
    MemoryAlwaysAgrees(kc, nodes, events, |events|);
    rows := ListingExists(s);
    RotateWellFormed(kc, s, rows, args, custom);
    var reloaded := ListingExists(Rotate(kc, s, rows, args, custom).store);
    var nodes1, events1 := Extend(kc, nodes, events, Submit(args));
    assert nodes1[|events1|].queue == [] + [args] == [args];
    nodes', events' := Extend(kc, nodes1, events1, Handle(rows, reloaded));
  }

  // ----- The first boot -----

  /** One supported unit with one amount, besides the auth unit. */
  function OneUnit(unit: CurrencyUnit, custom: map<CurrencyUnit, Path>): Config {
    Config(map[unit := (0, 1)], custom)
  }

  /** The first keysets of a unit and of the auth unit. */
  lemma FirstChoice(kc: Keychain, unit: CurrencyUnit, cfg: Config) returns (p: KeySetInfo)
    requires kc.group.q > 0 && unit in Supported(cfg) && Supported(cfg)[unit] == (0, 1)
    requires NewPath(cfg.custom, unit, 0).Ok?
    requires unit in cfg.supported ==> unit != Auth
    ensures Highest([], unit).None? && CreateChoice(kc, [], unit, cfg) == Ok(Some(p))
    ensures NewInfo(kc, cfg.custom, unit, 0, AmountTheorems.Keyset(1), 0) == Ok(p)
    ensures p.unit == unit && p.index == Some(0) && p.active && Ok(p.path) == NewPath(cfg.custom, unit, 0)
  {
    assert |AmountTheorems.Keyset(1)| == 1;
    p := NewInfo(kc, cfg.custom, unit, 0, AmountTheorems.Keyset(1), 0).value;
  }

  lemma ApplyTwo(s: Store, p: KeySetInfo, q: KeySetInfo)
    ensures Apply(s, [Ok(Some(p)), Ok(Some(q))]) == Ok(Activate(Activate(s, p), q))
  {
    ApplyFirst(s, p, [Ok(Some(q))]);
    ApplyFirst(Activate(s, p), q, []);
    var c: Choice, d: Choice := Ok(Some(p)), Ok(Some(q));
    assert [c] + [d] == [c, d] && [d] + [] == [d];
  }

  lemma ApplyFirst(s: Store, p: KeySetInfo, rest: seq<Choice>)
    ensures Apply(s, [Ok(Some(p))] + rest) == Apply(Activate(s, p), rest)
  {
    var choices := [Ok(Some(p))] + rest;
    assert choices[0] == Ok(Some(p)) && choices[1..] == rest;
  }

  /** The first boot of one unit succeeds. */
  lemma FirstStore(kc: Keychain, unit: CurrencyUnit, custom: map<CurrencyUnit, Path>)
    returns (p: KeySetInfo, q: KeySetInfo)
    requires kc.group.q > 0 && unit != Auth && Auth !in custom && NewPath(custom, unit, 0).Ok?
    ensures Orders([], [], [unit, Auth], OneUnit(unit, custom))
    ensures Boot(kc, map[], [], [], [unit, Auth], OneUnit(unit, custom))
            == Outcome(Activate(Activate(map[], p), q), None)
    ensures NewInfo(kc, custom, unit, 0, AmountTheorems.Keyset(1), 0) == Ok(p)
    ensures NewInfo(kc, custom, Auth, 0, AmountTheorems.Keyset(1), 0) == Ok(q)
    ensures p.unit == unit && p.index == Some(0) && q.unit == Auth && q.index == Some(0)
  {
    var cfg := OneUnit(unit, custom);
    p := FirstChoice(kc, unit, cfg);
    q := FirstChoice(kc, Auth, cfg);
    assert CreateChoices(kc, [], [unit, Auth], cfg) == [Ok(Some(p)), Ok(Some(q))];
    assert Deactivate(map[]) == map[] && InitChoices(kc, [], [], cfg) == [];
    ApplyTwo(map[], p, q);
  }

  lemma RotationAfterZero(s: Store, rows: seq<KeySetInfo>, unit: CurrencyUnit)
    requires Lists(rows, s) && forall x :: x in s ==> s[x].index == Some(0)
    ensures RotationIndex(rows, unit) == 1
  {
    ActiveRowIsActive(rows, unit);
  }

  // ----- A proof that is lost -----

  /** The run: a unit with a path of its own is booted and rotated twice, with equally many amounts. */
  ghost predicate LossRun(kc: Keychain, nodes: seq<Node>, events: seq<Event>, unit: CurrencyUnit, a: seq<nat>,
                          b: seq<nat>)
    requires kc.group.q > 0
  {
    && Run(kc, nodes, events) && |events| == 5
    && events[0].BootUp? && unit in events[0].cfg.supported
    && events[1] == Submit(RotateArguments(unit, a, 0)) && events[2].Handle?
    && events[3] == Submit(RotateArguments(unit, b, 0)) && events[4].Handle?
    && nodes[3].live.Some? && nodes[5].live.Some?
  }

  /** For every unit with a custom path and any two ascending lists of equally many amounts, such as
      1, 2 and 1, 4: a proof that was issued between the rotations for an amount that the second list
      does not have is refused after the second. */
  lemma IssuedProofIsLost(kc: Keychain, c: Curve, unit: CurrencyUnit, path: Path, a: seq<nat>, b: seq<nat>, amount: nat,
                          secret: seq<byte>, r: nat) returns (nodes: seq<Node>, events: seq<Event>, proof: Proof)
    requires kc.Valid() && c.Valid() && c.group == kc.group && unit != Auth && kc.group.IsKey(r)
    requires BlindMessage(c, secret, r).Ok?
    requires Amount.Ascending(a) && Amount.Ascending(b) && |a| == |b| <= HARDENED && amount in a && amount !in b
    ensures LossRun(kc, nodes, events, unit, a, b)
    ensures proof.keysetId in nodes[3].live.value.memory && proof.amount == amount
    ensures Issues(c, nodes[3].live.value.memory, proof.keysetId, amount, secret, r, proof)
    ensures VerifyOne(c, nodes[3].live.value.memory, proof) == Ok(())
    ensures VerifyOne(c, nodes[5].live.value.memory, proof) == Err(UnknownKeySet)
  {
    var x;
    nodes, events, x := RotatedTwice(kc, unit, path, a, b);
    MemoryAlwaysAgrees(kc, nodes, events, 3);
    MemoryAlwaysAgrees(kc, nodes, events, 5);
    proof := IssuedIsValid(kc, c, nodes[3], x, amount, secret, r);
    LostAmount(kc, c, nodes[5], proof);
  }

  lemma RotatedTwice(kc: Keychain, unit: CurrencyUnit, path: Path, a: seq<nat>, b: seq<nat>)
    returns (nodes: seq<Node>, events: seq<Event>, x: nat)
    requires kc.Valid() && unit != Auth && Amount.Ascending(a) && Amount.Ascending(b) && |a| == |b| <= HARDENED
    ensures LossRun(kc, nodes, events, unit, a, b)
    ensures x in nodes[3].store && nodes[3].store[x].active && nodes[3].store[x].amounts == a
    ensures x in nodes[5].store && nodes[5].store[x].amounts == b
  {
    var custom := map[unit := path];
    nodes, events, x := RotatedOnce(kc, unit, custom, a);
    var nodes1, events1 := nodes, events;
    MemoryAlwaysAgrees(kc, nodes, events, 3);
    var args, rows := RotateArguments(unit, b, 0), [];
    nodes, events, rows := DoRotate(kc, nodes, events, args);
    assert nodes[3] == nodes1[3] && events[0] == events1[0] && events[1] == events1[1] && events[2] == events1[2];
    RotationAfter(nodes[3].store, rows, unit, x);
    RotationOverwrites(kc, nodes[3].store, rows, args, custom, x);
  }

  lemma RotatedOnce(kc: Keychain, unit: CurrencyUnit, custom: map<CurrencyUnit, Path>, a: seq<nat>)
    returns (nodes: seq<Node>, events: seq<Event>, x: nat)
    requires kc.Valid() && unit != Auth && unit in custom && Auth !in custom && |a| <= HARDENED
    ensures Run(kc, nodes, events) && |events| == 3
    ensures events[0].BootUp? && unit in events[0].cfg.supported
    ensures events[1] == Submit(RotateArguments(unit, a, 0)) && events[2].Handle?
    ensures nodes[3].live.Some? && nodes[3].live.value.custom == custom && nodes[3].queue == []
    ensures var t := nodes[3].store;
            && x in t && t[x].active && t[x].unit == unit && t[x].amounts == a && t[x].path == custom[unit]
                && t[x].index == Some(1)
  {
    nodes, events := BootedOnce(kc, unit, custom);
    var nodes1, events1 := nodes, events;
    var rows;
    nodes, events, rows := DoRotate(kc, nodes, events, RotateArguments(unit, a, 0));
    assert nodes[1] == nodes1[1] && events[0] == events1[0];
    RotationAfterZero(nodes[1].store, rows, unit);
    x := FirstOfTwo(kc, nodes[1].store, rows, unit, custom, a);
  }

  lemma BootedOnce(kc: Keychain, unit: CurrencyUnit, custom: map<CurrencyUnit, Path>)
    returns (nodes: seq<Node>, events: seq<Event>)
    requires kc.Valid() && unit != Auth && Auth !in custom && NewPath(custom, unit, 0).Ok?
    ensures Run(kc, nodes, events) && |events| == 1
    ensures events[0].BootUp? && events[0].cfg == OneUnit(unit, custom)
    ensures nodes[1].live.Some? && nodes[1].live.value.custom == custom && nodes[1].queue == []
    ensures nodes[1].store == Boot(kc, map[], [], [], [unit, Auth], OneUnit(unit, custom)).store
    ensures forall y :: y in nodes[1].store ==> nodes[1].store[y].index == Some(0)
  {
    var p, q := FirstStore(kc, unit, custom);
    EmptyRun(kc);
    nodes, events := DoBoot(kc, [EMPTY], [], OneUnit(unit, custom), [], [], [unit, Auth]);
  }

  /** The first of the two rotations. */
  lemma FirstOfTwo(kc: Keychain, s: Store, rows: seq<KeySetInfo>, unit: CurrencyUnit,
                   custom: map<CurrencyUnit, Path>, a: seq<nat>)
    returns (x: nat)
    requires kc.group.q > 0 && unit in custom && RotationIndex(rows, unit) == 1 && |a| <= HARDENED
    ensures var t := Rotate(kc, s, rows, RotateArguments(unit, a, 0), custom).store;
            && x in t && t[x].active && t[x].unit == unit && t[x].amounts == a && t[x].path == custom[unit]
                && t[x].index == Some(1)
  {
    x := NewInfo(kc, custom, unit, 1, a, 0).value.id;
  }

  // ----- A unit that is left out of a boot -----

  /** Only the auth unit, which every boot adds. */
  const NO_UNITS: Config := Config(map[], map[])

  /** The units with stored keysets are those of `order`. */
  ghost predicate HasUnits(s: Store, order: seq<CurrencyUnit>) {
    && (forall x :: x in s ==> s[x].unit in order)
    && (forall u :: u in order ==> exists x :: x in s && s[x].unit == u)
  }

  lemma HighestOfUnits(s: Store, rows: seq<KeySetInfo>, order: seq<CurrencyUnit>)
    requires Lists(rows, s) && HasUnits(s, order)
    ensures forall u :: u in order <==> Highest(rows, u).Some?
  {
    forall u ensures u in order <==> Highest(rows, u).Some? {
      HighestIsHighest(rows, u);
      if u in order {
        var x :| x in s && s[x].unit == u;
        var i :| 0 <= i < |rows| && rows[i] == s[x];
      }
    }
  }

  /** A boot without units activates the first keyset of the auth unit and no other. */
  lemma BootWithoutUnits(kc: Keychain, s: Store, rows: seq<KeySetInfo>, order: seq<CurrencyUnit>)
    returns (q: KeySetInfo)
    requires kc.group.q > 0 && Lists(rows, s) && HasUnits(s, order)
    requires forall i, j :: 0 <= i < j < |order| ==> order[i] != order[j]
    ensures Orders(rows, order, [Auth], NO_UNITS)
    ensures Boot(kc, s, rows, order, [Auth], NO_UNITS) == Outcome(Activate(Deactivate(s), q), None)
    ensures NewInfo(kc, map[], Auth, 0, AmountTheorems.Keyset(1), 0) == Ok(q) && q.unit == Auth && q.index == Some(0)
  {
    HighestOfUnits(s, rows, order);
    assert |AmountTheorems.Keyset(1)| == 1;
    q := NewInfo(kc, map[], Auth, 0, AmountTheorems.Keyset(1), 0).value;
    NoChoices(kc, Deactivate(s), rows, order, |order|);
    assert order[..|order|] == order;
    var c: Choice := Ok(Some(q));
    assert CreateChoices(kc, rows, [Auth], NO_UNITS) == [c] + [];
    ApplyFirst(Deactivate(s), q, []);
  }

  lemma {:induction false} NoChoices(kc: Keychain, s: Store, rows: seq<KeySetInfo>, order: seq<CurrencyUnit>, n: nat)
    requires kc.group.q > 0 && n <= |order|
    ensures Apply(s, InitChoices(kc, rows, order[..n], NO_UNITS)) == Ok(s)
  {
    if n > 0 {
      NoChoices(kc, s, rows, order, n - 1);
      var c: Choice := Ok(None);
      assert InitChoices(kc, rows, order[..n], NO_UNITS) == InitChoices(kc, rows, order[..n - 1], NO_UNITS) + [c];
      ApplyConcat(s, InitChoices(kc, rows, order[..n - 1], NO_UNITS), [c]);
      assert [c][1..] == [];
    }
  }

  /** A boot without units, a request and its rotation. */
  lemma BootAndRotate(kc: Keychain, nodes: seq<Node>, events: seq<Event>, order: seq<CurrencyUnit>, b: RotateArguments)
    returns (nodes': seq<Node>, events': seq<Event>, rows: seq<KeySetInfo>, q: KeySetInfo)
    requires kc.group.q > 0 && Run(kc, nodes, events) && HasUnits(nodes[|events|].store, order)
    requires forall i, j :: 0 <= i < j < |order| ==> order[i] != order[j]
    ensures Run(kc, nodes', events') && |events'| == |events| + 3 && nodes <= nodes' && events <= events'
    ensures var k := |events|;
            && events'[k].BootUp? && events'[k].cfg == NO_UNITS && nodes'[k + 1].live.Some?
            && events'[k + 1] == Submit(b) && events'[k + 2].Handle?
    ensures NewInfo(kc, map[], Auth, 0, AmountTheorems.Keyset(1), 0) == Ok(q)
    ensures var t := Activate(Deactivate(nodes[|events|].store), q);
            && OneActive(t) && Lists(rows, t)
            && nodes'[|events| + 3].store == Rotate(kc, t, rows, b, map[]).store
    ensures nodes'[|events| + 3].live.Some? && nodes'[|events| + 3].live.value.custom == map[]
            && nodes'[|events| + 3].queue == []
  {
    MemoryAlwaysAgrees(kc, nodes, events, |events|);
    rows := ListingExists(nodes[|events|].store);
    q := BootWithoutUnits(kc, nodes[|events|].store, rows, order);
    var nodes1, events1 := DoBoot(kc, nodes, events, NO_UNITS, rows, order, [Auth]);
    MemoryAlwaysAgrees(kc, nodes1, events1, |events1|);
    nodes', events', rows := DoRotate(kc, nodes1, events1, b);
  }

  /** The stored units after the first boot and a rotation. */
  lemma UnitsAfterRotation(w: World, p: KeySetInfo, q: KeySetInfo, rows: seq<KeySetInfo>, a: RotateArguments)
    requires w.Valid() && w.unit != Auth && p.unit == w.unit && a.unit == w.unit && 0 < |a.amounts| <= HARDENED
    requires NewInfo(w.kc, map[], Auth, 0, AmountTheorems.Keyset(1), 0) == Ok(q) && RotationIndex(rows, w.unit) == 1
    ensures HasUnits(Rotate(w.kc, Activate(Activate(map[], p), q), rows, a, map[]).store, [w.unit, Auth])
  {
    var x := NewInfo(w.kc, map[], w.unit, 1, a.amounts, a.feePpk).value;
    NewInfoOk(w, map[], w.unit, 1, a.amounts, a.feePpk);
    NewInfoOk(w, map[], Auth, 0, AmountTheorems.Keyset(1), 0);
    if x.id == q.id {
      SameIdSamePath(w, x, q);
    }
    ThreeUnits(p, q, x);
  }

  lemma ThreeUnits(p: KeySetInfo, q: KeySetInfo, x: KeySetInfo)
    requires p.unit == x.unit && q.unit != x.unit && x.id != q.id
    ensures HasUnits(Activate(Activate(Activate(map[], p), q), x), [x.unit, q.unit])
  {
    var t := Activate(Activate(Activate(map[], p), q), x);
    assert t[q.id].unit == q.unit && t[x.id].unit == x.unit;
  }

  /** For every unit on default paths and any amounts there is such a run. */
  lemma LeftOutRunExists(w: World, a: RotateArguments, b: RotateArguments)
    returns (nodes: seq<Node>, events: seq<Event>)
    requires w.Valid() && w.unit != Auth
    requires a.unit == w.unit && 0 < |a.amounts| <= HARDENED && b.unit == w.unit && 0 < |b.amounts| <= HARDENED
    ensures LeftOutRun(w, nodes, events, a, b)
  {
    var nodes3, events3 := BootedAndRotated(w, a);
    var rows, q;
    nodes, events, rows, q := BootAndRotate(w.kc, nodes3, events3, [w.unit, Auth], b);
    assert nodes[1] == nodes3[1] && events[0] == events3[0] && events[1] == events3[1] && events[2] == events3[2];
  }

  lemma BootedAndRotated(w: World, a: RotateArguments) returns (nodes: seq<Node>, events: seq<Event>)
    requires w.Valid() && w.unit != Auth && a.unit == w.unit && 0 < |a.amounts| <= HARDENED
    ensures Run(w.kc, nodes, events) && |events| == 3
    ensures events[0].BootUp? && events[0].cfg == OneUnit(w.unit, map[]) && nodes[1].live.Some?
    ensures events[1] == Submit(a) && events[2].Handle?
    ensures HasUnits(nodes[3].store, [w.unit, Auth])
  {
    var p, q := FirstStore(w.kc, w.unit, map[]);
    var nodes1, events1 := BootedOnce(w.kc, w.unit, map[]);
    var rows;
    nodes, events, rows := DoRotate(w.kc, nodes1, events1, a);
    assert nodes[1] == nodes1[1] && events[0] == events1[0];
    RotationAfterZero(nodes1[1].store, rows, w.unit);
    UnitsAfterRotation(w, p, q, rows, a);
  }

  // ----- The auth unit -----

  /** For any amounts there is a run, with boots that do not name the auth unit, in which two rotations of
      it take index 1. */
  lemma AuthRunExists(w: World, a: RotateArguments, b: RotateArguments)
    returns (nodes: seq<Node>, events: seq<Event>, x: nat, y: nat)
    requires w.Valid() && w.unit == Auth
    requires a.unit == Auth && 0 < |a.amounts| <= HARDENED && b.unit == Auth && 0 < |b.amounts| <= HARDENED
    ensures Run(w.kc, nodes, events) && |events| == 6
    ensures events[0].BootUp? && Auth !in events[0].cfg.supported && events[1] == Submit(a) && events[2].Handle?
    ensures events[3].BootUp? && Auth !in events[3].cfg.supported && events[4] == Submit(b) && events[5].Handle?
    ensures w.Mine(nodes[3].store, x) && nodes[3].store[x].active && nodes[3].store[x].index == Some(1)
    ensures SharesIndexOne(w, nodes[6].store, x, y)
  {
    var nodes3, events3, p := AuthRotated(w, a);
    var rows, q;
    nodes, events, rows, q := BootAndRotate(w.kc, nodes3, events3, [Auth], b);
    assert nodes[3] == nodes3[3] && events[0] == events3[0] && events[1] == events3[1] && events[2] == events3[2];
    var r := AuthRotatedAgain(w, nodes3[3].store, p, q, rows, b);
    x, y := p.id, r.id;
  }

  lemma AuthRotated(w: World, a: RotateArguments) returns (nodes: seq<Node>, events: seq<Event>, p: KeySetInfo)
    requires w.Valid() && w.unit == Auth && a.unit == Auth && 0 < |a.amounts| <= HARDENED
    ensures Run(w.kc, nodes, events) && |events| == 3
    ensures events[0].BootUp? && events[0].cfg == NO_UNITS && events[1] == Submit(a) && events[2].Handle?
    ensures p.path == DefaultPath(4, 1) && p.index == Some(1) && p.unit == Auth && p.active && w.RowOk(p)
    ensures AfterAuthRotation(w.kc, nodes[3].store, p) && HasUnits(nodes[3].store, [Auth])
  {
    var rows, q;
    nodes, events, rows, q := AuthBooted(w.kc, a);
    p := AuthFirstRotation(w, q, rows, a);
  }

  lemma AuthBooted(kc: Keychain, a: RotateArguments)
    returns (nodes: seq<Node>, events: seq<Event>, rows: seq<KeySetInfo>, q: KeySetInfo)
    requires kc.group.q > 0
    ensures Run(kc, nodes, events) && |events| == 3
    ensures events[0].BootUp? && events[0].cfg == NO_UNITS && events[1] == Submit(a) && events[2].Handle?
    ensures NewInfo(kc, map[], Auth, 0, AmountTheorems.Keyset(1), 0) == Ok(q) && Lists(rows, Activate(map[], q))
    ensures nodes[3].store == Rotate(kc, Activate(map[], q), rows, a, map[]).store
  {
    EmptyRun(kc);
    assert Deactivate(map[]) == map[] && HasUnits(EMPTY.store, []);
    nodes, events, rows, q := BootAndRotate(kc, [EMPTY], [], [], a);
  }

  /** The first keyset of the auth unit, and one that was rotated in. */
  ghost predicate AfterAuthRotation(kc: Keychain, s: Store, p: KeySetInfo)
    requires kc.group.q > 0
  {
    var q := NewInfo(kc, map[], Auth, 0, AmountTheorems.Keyset(1), 0);
    q.Ok? && p.id != q.value.id && s == Activate(Activate(map[], q.value), p)
  }

  lemma AuthFirstRotation(w: World, q: KeySetInfo, rows: seq<KeySetInfo>, a: RotateArguments) returns (p: KeySetInfo)
    requires w.Valid() && w.unit == Auth && a.unit == Auth && 0 < |a.amounts| <= HARDENED
    requires NewInfo(w.kc, map[], Auth, 0, AmountTheorems.Keyset(1), 0) == Ok(q) && Lists(rows, Activate(map[], q))
    ensures p.path == DefaultPath(4, 1) && p.index == Some(1) && p.unit == Auth && p.active && w.RowOk(p)
    ensures var t := Rotate(w.kc, Activate(map[], q), rows, a, map[]).store;
            AfterAuthRotation(w.kc, t, p) && HasUnits(t, [Auth])
  {
    RotationAfterZero(Activate(map[], q), rows, Auth);
    p := NewInfo(w.kc, map[], Auth, 1, a.amounts, a.feePpk).value;
    NewInfoOk(w, map[], Auth, 1, a.amounts, a.feePpk);
    NewInfoOk(w, map[], Auth, 0, AmountTheorems.Keyset(1), 0);
    if p.id == q.id {
      SameIdSamePath(w, p, q);
    }
    TwoOfOneUnit(q, p);
  }

  lemma TwoOfOneUnit(q: KeySetInfo, p: KeySetInfo)
    requires p.unit == q.unit
    ensures HasUnits(Activate(Activate(map[], q), p), [p.unit])
  {
    assert Activate(Activate(map[], q), p)[p.id].unit == p.unit;
  }

  /** The second boot activates the first keyset again, and so the second rotation takes index 1 again. */
  lemma AuthRotatedAgain(w: World, s: Store, p: KeySetInfo, q: KeySetInfo, rows: seq<KeySetInfo>, b: RotateArguments)
    returns (r: KeySetInfo)
    requires w.Valid() && w.unit == Auth && b.unit == Auth && 0 < |b.amounts| <= HARDENED
    requires NewInfo(w.kc, map[], Auth, 0, AmountTheorems.Keyset(1), 0) == Ok(q) && AfterAuthRotation(w.kc, s, p)
    requires p.path == DefaultPath(4, 1) && p.index == Some(1) && p.unit == Auth
    requires var t := Activate(Deactivate(s), q); OneActive(t) && Lists(rows, t)
    ensures var t := Activate(Deactivate(s), q);
            SharesIndexOne(w, Rotate(w.kc, t, rows, b, map[]).store, p.id, r.id)
  {
    var t := Activate(Deactivate(s), q);
    FirstAgain(p, q);
    RotationAfter(t, rows, Auth, q.id);
    r := NewInfo(w.kc, map[], Auth, 1, b.amounts, b.feePpk).value;
    ShareAfter(w, t, p, r);
  }

  lemma FirstAgain(p: KeySetInfo, q: KeySetInfo)
    requires p.unit == q.unit && p.id != q.id
    ensures var t := Activate(Deactivate(Activate(Activate(map[], q), p)), q);
            && q.id in t && t[q.id] == q.(active := true)
            && p.id in t && t[p.id] == p.(active := false)
  {
  }

  lemma ShareAfter(w: World, t: Store, p: KeySetInfo, r: KeySetInfo)
    requires w.Mine(t, p.id) && t[p.id] == p.(active := false) && p.index == Some(1)
    requires r.unit == w.unit && r.index == Some(1) && r.path == p.path
    ensures SharesIndexOne(w, Activate(t, r), p.id, r.id)
  {
  }
}
