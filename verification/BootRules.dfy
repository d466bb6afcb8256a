/** Exactly which keysets a boot and a rotation make, and how they fail, in terms of the configuration
    and the stored rows (crates/cdk-signatory/src/common.rs:44-169,
    crates/cdk-signatory/src/db_signatory.rs:37-105 and 221-262). */
module BootRules {
  import opened Wrappers
  import opened Issuance
  import opened KeysetStore
  import opened KeysetIds
  import opened KeysetTheorems
  import opened DerivationIndices
  import AmountTheorems

  // ----- Paths -----

  /** Each unit has its own branch of default paths; other units need a path of their own. */
  lemma DefaultPaths(index: nat, name: string)
    requires index < 0x8000_0000
    ensures NewPath(map[], Sat, index) == Ok([0x8000_0000, 0x8000_0000, 0x8000_0000 + index])
    ensures NewPath(map[], Msat, index) == Ok([0x8000_0000, 0x8000_0001, 0x8000_0000 + index])
    ensures NewPath(map[], Usd, index) == Ok([0x8000_0000, 0x8000_0002, 0x8000_0000 + index])
    ensures NewPath(map[], Eur, index) == Ok([0x8000_0000, 0x8000_0003, 0x8000_0000 + index])
    ensures NewPath(map[], Auth, index) == Ok([0x8000_0000, 0x8000_0004, 0x8000_0000 + index])
    ensures NewPath(map[], Custom(name), index) == Err(UnsupportedUnit)
  {
  }

  /** The path is that of the configuration, or the default one of the unit and index. */
  predicate HasPath(custom: map<CurrencyUnit, Path>, unit: CurrencyUnit, index: nat, path: Path) {
    if unit in custom then path == custom[unit] else NewPath(map[], unit, index) == Ok(path)
  }

  /** A new keyset with everything that was asked for. */
  predicate IsNew(kc: Keychain, custom: map<CurrencyUnit, Path>, row: KeySetInfo, unit: CurrencyUnit, index: nat,
                  amounts: seq<nat>, feePpk: nat)
    requires kc.group.q > 0
  {
    && row.unit == unit && row.active && row.index == Some(index) && row.amounts == amounts && row.feePpk == feePpk
    && HasPath(custom, unit, index, row.path) && row.id == IdOf(kc, row.path, amounts)
  }

  /** A keyset is made with everything that was asked for; it fails for a unit that has no path, and
      panics if the index or the number of amounts is too large. */
  lemma NewInfoIff(kc: Keychain, custom: map<CurrencyUnit, Path>, unit: CurrencyUnit, index: nat,
                   amounts: seq<nat>, feePpk: nat)
    requires kc.group.q > 0
    ensures match NewInfo(kc, custom, unit, index, amounts, feePpk)
            case Ok(row) =>
              && IsNew(kc, custom, row, unit, index, amounts, feePpk)
              && index < 0x1_0000_0000 && |amounts| <= 0x8000_0000
                  && (unit in custom || (!unit.Custom? && index < 0x8000_0000))
            case Err(UnsupportedUnit) => unit !in custom && unit.Custom? && index < 0x1_0000_0000
            case Err(Panic) =>
              index >= 0x1_0000_0000 || |amounts| > 0x8000_0000 || (unit !in custom && index >= 0x8000_0000)
  {
  }

  // ----- One activation -----

  /** The keyset is stored as active, the other keysets of its unit become inactive, and nothing else
      changes. */
  lemma ActivateRows(s: Store, info: KeySetInfo)
    ensures var t := Activate(s, info);
            && t.Keys == s.Keys + {info.id} && t[info.id] == info.(active := true)
            && forall x :: x in s && x != info.id ==> t[x] == s[x].(active := s[x].active && s[x].unit != info.unit)
  {
  }

  // ----- Rotation -----

  /** The index of a rotation: after that of the active keyset, which counts as 1 if it has none; 1 if no
      keyset is active. */
  lemma RotationIndexIs(s: Store, rows: seq<KeySetInfo>, unit: CurrencyUnit)
    requires OneActive(s) && Lists(rows, s)
    ensures forall a :: a in s && s[a].unit == unit && s[a].active ==>
              RotationIndex(rows, unit) == match s[a].index case Some(i) => i + 1 case None => 2
    ensures (forall a :: a in s && s[a].unit == unit ==> !s[a].active) ==> RotationIndex(rows, unit) == 1
  {
    ActiveRowIsActive(rows, unit);
    forall a | a in s && s[a].unit == unit && s[a].active
      ensures RotationIndex(rows, unit) == match s[a].index case Some(i) => i + 1 case None => 2
    {
      var i :| 0 <= i < |rows| && rows[i] == s[a];
      assert ActiveRow(rows, unit).Some? && ActiveRow(rows, unit).value.id == a;
    }
  }

  /** A rotation that succeeds leaves one active keyset of the unit: a new one with the unit, amounts and
      fee that were asked for.  All other rows keep everything but the flag, and other units that too.
      A rotation that fails changes nothing. */
  lemma RotationCreates(kc: Keychain, s: Store, rows: seq<KeySetInfo>, args: RotateArguments,
                        custom: map<CurrencyUnit, Path>)
    returns (a: nat)
    requires kc.group.q > 0
    ensures var o := Rotate(kc, s, rows, args, custom);
            match o.error
            case Some(_) => o.store == s
            case None =>
              && o.store.Keys == s.Keys + {a}
              && IsNew(kc, custom, o.store[a], args.unit, RotationIndex(rows, args.unit), args.amounts, args.feePpk)
              && forall x :: x in s && x != a ==> o.store[x] == s[x].(active := s[x].active && s[x].unit != args.unit)
  {
    var index := RotationIndex(rows, args.unit);
    NewInfoIff(kc, custom, args.unit, index, args.amounts, args.feePpk);
    var info := NewInfo(kc, custom, args.unit, index, args.amounts, args.feePpk);
    a := 0;
    if info.Ok? {
      a := info.value.id;
      ActivateRows(s, info.value);
    }
  }

  // ----- Boot -----

  /** The index that follows a stored keyset; one without an index counts as 0. */
  function NextIndex(row: KeySetInfo): nat {
    match row.index
    case Some(i) => i + 1
    case None => 1
  }

  /** A boot can go on from the stored keysets of a unit: it does not support the unit, or the keyset with
      the highest index is as configured, or the unit has a path for the next one. */
  predicate CanContinue(rows: seq<KeySetInfo>, unit: CurrencyUnit, cfg: Config) {
    match Highest(rows, unit)
    case None => true
    case Some(top) =>
      || unit !in cfg.supported
      || (top.index.Some? && top.feePpk == cfg.supported[unit].0 && |top.amounts| == cfg.supported[unit].1)
      || (&& NextIndex(top) < 0x1_0000_0000 && |top.amounts| <= 0x8000_0000
          && (unit in cfg.custom || (!unit.Custom? && NextIndex(top) < 0x8000_0000)))
  }

  /** A boot can create the first keyset of a unit: the unit has a path, and at most 64 amounts. */
  predicate CanCreate(rows: seq<KeySetInfo>, unit: CurrencyUnit, cfg: Config)
    requires unit in Supported(cfg)
  {
    || (unit in cfg.supported && Highest(rows, unit).Some?)
    || ((unit in cfg.custom || !unit.Custom?) && Supported(cfg)[unit].1 <= 64)
  }

  lemma InitChoiceOkIff(kc: Keychain, rows: seq<KeySetInfo>, unit: CurrencyUnit, cfg: Config)
    requires kc.group.q > 0
    ensures InitChoice(kc, rows, unit, cfg).Ok? <==> CanContinue(rows, unit, cfg)
  {
    if Highest(rows, unit).Some? && unit in cfg.supported {
      var top := Highest(rows, unit).value;
      NewInfoIff(kc, cfg.custom, unit, NextIndex(top), top.amounts, cfg.supported[unit].0);
    }
  }

  lemma CreateChoiceOkIff(kc: Keychain, rows: seq<KeySetInfo>, unit: CurrencyUnit, cfg: Config)
    requires kc.group.q > 0 && unit in Supported(cfg)
    ensures CreateChoice(kc, rows, unit, cfg).Ok? <==> CanCreate(rows, unit, cfg)
  {
    var (feePpk, n) := Supported(cfg)[unit];
    assert |AmountTheorems.Keyset(n)| == n;
    NewInfoIff(kc, cfg.custom, unit, 0, AmountTheorems.Keyset(n), feePpk);
  }

  /** A boot succeeds if and only if it can go on from the stored keysets of every unit and create the
      first keyset of every supported unit that has none. */
  lemma BootSucceedsIff(kc: Keychain, s: Store, rows: seq<KeySetInfo>, initOrder: seq<CurrencyUnit>,
                        createOrder: seq<CurrencyUnit>, cfg: Config)
    requires kc.group.q > 0 && Orders(rows, initOrder, createOrder, cfg)
    ensures Boot(kc, s, rows, initOrder, createOrder, cfg).error.None?
            <==> && (forall u :: u in initOrder ==> CanContinue(rows, u, cfg))
                 && (forall u :: u in Supported(cfg) ==> CanCreate(rows, u, cfg))
  {
    var init, create := InitChoices(kc, rows, initOrder, cfg), CreateChoices(kc, rows, createOrder, cfg);
    ApplyOkIff(Deactivate(s), init);
    forall i | 0 <= i < |initOrder| ensures init[i].Ok? <==> CanContinue(rows, initOrder[i], cfg) {
      InitChoiceOkIff(kc, rows, initOrder[i], cfg);
    }
    forall i | 0 <= i < |createOrder| ensures create[i].Ok? <==> CanCreate(rows, createOrder[i], cfg) {
      assert createOrder[i] in createOrder;
      CreateChoiceOkIff(kc, rows, createOrder[i], cfg);
    }
    InEveryOrder(rows, initOrder, createOrder, cfg);
    if Apply(Deactivate(s), init).Ok? {
      ApplyOkIff(Apply(Deactivate(s), init).value, create);
    }
  }

  lemma InEveryOrder(rows: seq<KeySetInfo>, initOrder: seq<CurrencyUnit>, createOrder: seq<CurrencyUnit>, cfg: Config)
    requires Orders(rows, initOrder, createOrder, cfg)
    ensures (forall u :: u in initOrder ==> CanContinue(rows, u, cfg))
            <==> forall i :: 0 <= i < |initOrder| ==> CanContinue(rows, initOrder[i], cfg)
    ensures (forall u :: u in Supported(cfg) ==> CanCreate(rows, u, cfg))
            <==> forall i :: 0 <= i < |createOrder| ==>
                createOrder[i] in Supported(cfg) && CanCreate(rows, createOrder[i], cfg)
  {
    forall i | 0 <= i < |createOrder| ensures createOrder[i] in Supported(cfg) {
      assert createOrder[i] in createOrder;
    }
    forall i | 0 <= i < |initOrder| ensures initOrder[i] in initOrder {
    }
    forall u | u in Supported(cfg) ensures exists i :: 0 <= i < |createOrder| && createOrder[i] == u {
      assert u in createOrder;
    }
  }

  /** What a failed boot leaves: the store before it, or that after its first transaction. */
  lemma FailedBootLeaves(kc: Keychain, s: Store, rows: seq<KeySetInfo>, initOrder: seq<CurrencyUnit>,
                         createOrder: seq<CurrencyUnit>, cfg: Config)
    requires kc.group.q > 0 && Boot(kc, s, rows, initOrder, createOrder, cfg).error.Some?
    ensures var t := Boot(kc, s, rows, initOrder, createOrder, cfg).store;
            if forall i :: 0 <= i < |initOrder| ==> CanContinue(rows, initOrder[i], cfg)
            then t == Halfway(kc, s, rows, initOrder, cfg) else t == s
  {
    ApplyOkIff(Deactivate(s), InitChoices(kc, rows, initOrder, cfg));
    forall i | 0 <= i < |initOrder|
      ensures InitChoice(kc, rows, initOrder[i], cfg).Ok? <==> CanContinue(rows, initOrder[i], cfg)
    {
      InitChoiceOkIff(kc, rows, initOrder[i], cfg);
    }
  }

  /** The choice is about another unit and another id. */
  predicate Elsewhere(c: Choice, info: KeySetInfo) {
    c.Ok? && c.value.Some? ==> c.value.value.unit != info.unit && c.value.value.id != info.id
  }

  /** A row stays as it is through choices elsewhere. */
  lemma {:induction false} StaysThrough(s: Store, choices: seq<Choice>, row: KeySetInfo)
    requires row.id in s && s[row.id] == row && Apply(s, choices).Ok?
    requires forall i :: 0 <= i < |choices| ==> Elsewhere(choices[i], row)
    ensures row.id in Apply(s, choices).value && Apply(s, choices).value[row.id] == row
    decreases |choices|
  {
    if choices != [] {
      assert Elsewhere(choices[0], row);
      var t := if choices[0].value.Some? then Activate(s, choices[0].value.value) else s;
      StaysThrough(t, choices[1..], row);
    }
  }

  /** The one choice of a unit is stored as active at the end of the phase. */
  lemma {:induction false} ChosenStays(s: Store, choices: seq<Choice>, m: nat, info: KeySetInfo)
    requires m < |choices| && choices[m] == Ok(Some(info)) && Apply(s, choices).Ok?
    requires forall i :: 0 <= i < |choices| && i != m ==> Elsewhere(choices[i], info)
    ensures info.id in Apply(s, choices).value && Apply(s, choices).value[info.id] == info.(active := true)
    decreases m
  {
    var t := if choices[0].value.Some? then Activate(s, choices[0].value.value) else s;
    if m == 0 {
      forall i | 0 <= i < |choices[1..]| ensures Elsewhere(choices[1..][i], info.(active := true)) {
        assert Elsewhere(choices[i + 1], info);
      }
      StaysThrough(t, choices[1..], info.(active := true));
    } else {
      forall i | 0 <= i < |choices[1..]| && i != m - 1 ensures Elsewhere(choices[1..][i], info) {
        assert Elsewhere(choices[i + 1], info);
      }
      ChosenStays(t, choices[1..], m - 1, info);
    }
  }

  /** No other unit of this boot gets a keyset with this id. */
  ghost predicate OnlyFor(kc: Keychain, rows: seq<KeySetInfo>, cfg: Config, unit: CurrencyUnit, id: nat)
    requires kc.group.q > 0
  {
    forall v :: v != unit ==>
      && (InitChoice(kc, rows, v, cfg).Ok? && InitChoice(kc, rows, v, cfg).value.Some? ==>
            InitChoice(kc, rows, v, cfg).value.value.id != id)
      && (CreateChoice(kc, rows, v, cfg).Ok? && CreateChoice(kc, rows, v, cfg).value.Some? ==>
            CreateChoice(kc, rows, v, cfg).value.value.id != id)
  }

  lemma ChoiceUnits(kc: Keychain, rows: seq<KeySetInfo>, unit: CurrencyUnit, cfg: Config)
    requires kc.group.q > 0
    ensures var c := InitChoice(kc, rows, unit, cfg); c.Ok? && c.value.Some? ==> c.value.value.unit == unit
    ensures var c := CreateChoice(kc, rows, unit, cfg); c.Ok? && c.value.Some? ==> c.value.value.unit == unit
  {
    HighestIsHighest(rows, unit);
  }

  lemma ElsewhereInOrder(kc: Keychain, rows: seq<KeySetInfo>, order: seq<CurrencyUnit>, cfg: Config,
                         info: KeySetInfo, i: nat)
    requires kc.group.q > 0 && i < |order| && order[i] != info.unit && OnlyFor(kc, rows, cfg, info.unit, info.id)
    ensures Elsewhere(InitChoices(kc, rows, order, cfg)[i], info)
            && Elsewhere(CreateChoices(kc, rows, order, cfg)[i], info)
  {
    ChoiceUnits(kc, rows, order[i], cfg);
  }

  /** After a boot that succeeds, a supported unit without stored keysets has exactly one active keyset: a
      new one with index 0, the configured fee, the amounts 2^0 .. 2^(n-1) for the configured n, and its
      path. */
  lemma BootCreates(kc: Keychain, s: Store, rows: seq<KeySetInfo>, initOrder: seq<CurrencyUnit>,
                    createOrder: seq<CurrencyUnit>, cfg: Config, unit: CurrencyUnit) returns (a: nat)
    requires kc.group.q > 0 && Lists(rows, s) && Orders(rows, initOrder, createOrder, cfg)
    requires Boot(kc, s, rows, initOrder, createOrder, cfg).error.None?
    requires unit in Supported(cfg) && forall x :: x in s ==> s[x].unit != unit
    requires forall path :: HasPath(cfg.custom, unit, 0, path) ==>
               OnlyFor(kc, rows, cfg, unit, IdOf(kc, path, AmountTheorems.Keyset(Supported(cfg)[unit].1)))
    ensures var t := Boot(kc, s, rows, initOrder, createOrder, cfg).store;
            && a in t
            && IsNew(kc, cfg.custom, t[a], unit, 0, AmountTheorems.Keyset(Supported(cfg)[unit].1),
                    Supported(cfg)[unit].0)
            && forall x :: x in t && t[x].unit == unit && t[x].active ==> x == a
  {
    HighestIsHighest(rows, unit);
    var s1, choices := Halfway(kc, s, rows, initOrder, cfg), CreateChoices(kc, rows, createOrder, cfg);
    var m :| 0 <= m < |createOrder| && createOrder[m] == unit;
    ApplyOkEach(s1, choices, m);
    var info := choices[m].value.value;
    NewInfoIff(kc, cfg.custom, unit, 0, AmountTheorems.Keyset(Supported(cfg)[unit].1), Supported(cfg)[unit].0);
    a := info.id;
    forall i | 0 <= i < |choices| && i != m ensures Elsewhere(choices[i], info) {
      ElsewhereInOrder(kc, rows, createOrder, cfg, info, i);
    }
    ChosenStays(s1, choices, m, info);
    BootOneActive(kc, s, rows, initOrder, createOrder, cfg);
  }

  /** The units of a boot are those passed in, with the auth unit added as one amount without a fee. */
  lemma SupportedUnits(cfg: Config, unit: CurrencyUnit)
    ensures unit in Supported(cfg) <==> unit in cfg.supported || unit == Auth
    ensures unit in cfg.supported ==> Supported(cfg)[unit] == cfg.supported[unit]
    ensures Auth !in cfg.supported ==> Supported(cfg)[Auth] == (0, 1)
  {
  }

  /** After a boot that succeeds, a supported unit with stored keysets has exactly one active keyset: the
      stored one with the highest index, if it has an index, the configured fee and as many amounts as
      configured; otherwise a new one with the next index, the configured fee and the same amounts. */
  lemma BootContinues(kc: Keychain, s: Store, rows: seq<KeySetInfo>, initOrder: seq<CurrencyUnit>,
                      createOrder: seq<CurrencyUnit>, cfg: Config, unit: CurrencyUnit, top: KeySetInfo) returns (a: nat)
    requires kc.group.q > 0 && Lists(rows, s) && Orders(rows, initOrder, createOrder, cfg)
    requires Boot(kc, s, rows, initOrder, createOrder, cfg).error.None?
    requires unit in cfg.supported && Highest(rows, unit) == Some(top)
    requires OnlyFor(kc, rows, cfg, unit, top.id)
    requires forall path :: HasPath(cfg.custom, unit, NextIndex(top), path) ==>
               OnlyFor(kc, rows, cfg, unit, IdOf(kc, path, top.amounts))
    ensures var t, (feePpk, n) := Boot(kc, s, rows, initOrder, createOrder, cfg).store, cfg.supported[unit];
            && a in t && t[a].active && Follows(kc, cfg.custom, t[a], top, unit, feePpk, n)
            && forall x :: x in t && t[x].unit == unit && t[x].active ==> x == a
  {
    assert unit in initOrder;
    var m :| 0 <= m < |initOrder| && initOrder[m] == unit;
    ApplyOkEach(Deactivate(s), InitChoices(kc, rows, initOrder, cfg), m);
    var info := ChosenFollows(kc, rows, unit, cfg, top);
    a := info.id;
    ContinuedStays(kc, s, rows, initOrder, createOrder, cfg, m, info);
    BootOneActive(kc, s, rows, initOrder, createOrder, cfg);
  }

  /** The row is the stored one, if that is as configured, or else a new one that follows it. */
  predicate Follows(kc: Keychain, custom: map<CurrencyUnit, Path>, row: KeySetInfo, top: KeySetInfo, unit: CurrencyUnit,
                    feePpk: nat, n: nat)
    requires kc.group.q > 0
  {
    if top.index.Some? && top.feePpk == feePpk && |top.amounts| == n then row == top.(active := true)
    else IsNew(kc, custom, row, unit, NextIndex(top), top.amounts, feePpk)
  }

  lemma ChosenFollows(kc: Keychain, rows: seq<KeySetInfo>, unit: CurrencyUnit, cfg: Config, top: KeySetInfo)
    returns (info: KeySetInfo)
    requires kc.group.q > 0 && unit in cfg.supported && Highest(rows, unit) == Some(top)
    requires InitChoice(kc, rows, unit, cfg).Ok?
    requires OnlyFor(kc, rows, cfg, unit, top.id)
    requires forall path :: HasPath(cfg.custom, unit, NextIndex(top), path) ==>
               OnlyFor(kc, rows, cfg, unit, IdOf(kc, path, top.amounts))
    ensures InitChoice(kc, rows, unit, cfg) == Ok(Some(info)) && info.unit == unit
            && OnlyFor(kc, rows, cfg, unit, info.id)
    ensures Follows(kc, cfg.custom, info.(active := true), top, unit, cfg.supported[unit].0, cfg.supported[unit].1)
  {
    HighestIsHighest(rows, unit);
    NewInfoIff(kc, cfg.custom, unit, NextIndex(top), top.amounts, cfg.supported[unit].0);
    info := InitChoice(kc, rows, unit, cfg).value.value;
  }

  lemma ContinuedStays(kc: Keychain, s: Store, rows: seq<KeySetInfo>, initOrder: seq<CurrencyUnit>,
                       createOrder: seq<CurrencyUnit>, cfg: Config, m: nat, info: KeySetInfo)
    requires kc.group.q > 0 && Orders(rows, initOrder, createOrder, cfg)
    requires Boot(kc, s, rows, initOrder, createOrder, cfg).error.None?
    requires m < |initOrder| && initOrder[m] == info.unit && info.unit in cfg.supported
    requires InitChoice(kc, rows, info.unit, cfg) == Ok(Some(info)) && OnlyFor(kc, rows, cfg, info.unit, info.id)
    ensures var t := Boot(kc, s, rows, initOrder, createOrder, cfg).store;
            info.id in t && t[info.id] == info.(active := true)
  {
    var init, create := InitChoices(kc, rows, initOrder, cfg), CreateChoices(kc, rows, createOrder, cfg);
    var s1 := Apply(Deactivate(s), init).value;
    forall i | 0 <= i < |init| && i != m ensures Elsewhere(init[i], info) {
      ElsewhereInOrder(kc, rows, initOrder, cfg, info, i);
    }
    ChosenStays(Deactivate(s), init, m, info);
    forall i | 0 <= i < |create| ensures Elsewhere(create[i], info.(active := true)) {
      if createOrder[i] != info.unit {
        ElsewhereInOrder(kc, rows, createOrder, cfg, info, i);
      }
    }
    StaysThrough(s1, create, info.(active := true));
  }

  /** A unit on default paths gets ids that no other unit of the boot gets. */
  lemma DefaultOnlyFor(w: World, s: Store, rows: seq<KeySetInfo>, cfg: Config, row: KeySetInfo)
    requires w.Valid() && w.Inv(s) && Lists(rows, s) && w.ConfigOk(cfg) && w.RowOk(row) && row.unit == w.unit
    ensures OnlyFor(w.kc, rows, cfg, w.unit, row.id)
  {
    RowsOk(w, s, rows);
    forall v | v != w.unit
      ensures var c := InitChoice(w.kc, rows, v, cfg); c.Ok? && c.value.Some? ==> c.value.value.id != row.id
      ensures var c := CreateChoice(w.kc, rows, v, cfg); c.Ok? && c.value.Some? ==> c.value.value.id != row.id
    {
      InitChoiceOk(w, rows, v, cfg);
      CreateChoiceOk(w, rows, v, cfg);
      var c, d := InitChoice(w.kc, rows, v, cfg), CreateChoice(w.kc, rows, v, cfg);
      if c.Ok? && c.value.Some? && c.value.value.id == row.id {
        SameIdSamePath(w, c.value.value, row);
      }
      if d.Ok? && d.value.Some? && d.value.value.id == row.id {
        SameIdSamePath(w, d.value.value, row);
      }
    }
  }

  /** So the first keyset of such a unit is as configured, whatever else the boot does. */
  lemma BootCreatesOnDefaultPath(w: World, s: Store, rows: seq<KeySetInfo>, initOrder: seq<CurrencyUnit>,
                                 createOrder: seq<CurrencyUnit>, cfg: Config) returns (a: nat)
    requires w.Valid() && w.Inv(s) && Lists(rows, s) && w.ConfigOk(cfg) && Orders(rows, initOrder, createOrder, cfg)
    requires Boot(w.kc, s, rows, initOrder, createOrder, cfg).error.None?
    requires w.unit in Supported(cfg) && forall x :: x in s ==> s[x].unit != w.unit
    ensures var t, (feePpk, n) := Boot(w.kc, s, rows, initOrder, createOrder, cfg).store, Supported(cfg)[w.unit];
            && a in t && IsNew(w.kc, cfg.custom, t[a], w.unit, 0, AmountTheorems.Keyset(n), feePpk)
            && forall x :: x in t && t[x].unit == w.unit && t[x].active ==> x == a
  {
    var (feePpk, n) := Supported(cfg)[w.unit];
    HighestIsHighest(rows, w.unit);
    BootSucceedsIff(w.kc, s, rows, initOrder, createOrder, cfg);
    assert CanCreate(rows, w.unit, cfg) && |AmountTheorems.Keyset(n)| == n && 0 < n <= 64;
    forall path | HasPath(cfg.custom, w.unit, 0, path)
      ensures OnlyFor(w.kc, rows, cfg, w.unit, IdOf(w.kc, path, AmountTheorems.Keyset(n)))
    {
      DefaultRow(w, s, rows, cfg, path, AmountTheorems.Keyset(n), feePpk);
    }
    a := BootCreates(w.kc, s, rows, initOrder, createOrder, cfg, w.unit);
  }

  lemma DefaultRow(w: World, s: Store, rows: seq<KeySetInfo>, cfg: Config, path: Path, amounts: seq<nat>, feePpk: nat)
    requires w.Valid() && w.Inv(s) && Lists(rows, s) && w.ConfigOk(cfg) && HasPath(cfg.custom, w.unit, 0, path)
    requires 0 < |amounts|
    ensures |amounts| <= HARDENED ==> OnlyFor(w.kc, rows, cfg, w.unit, IdOf(w.kc, path, amounts))
  {
    if |amounts| <= HARDENED {
      NewInfoOk(w, cfg.custom, w.unit, 0, amounts, feePpk);
      var row := NewInfo(w.kc, cfg.custom, w.unit, 0, amounts, feePpk).value;
      DefaultOnlyFor(w, s, rows, cfg, row);
    }
  }
}
