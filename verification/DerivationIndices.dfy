/** Derivation indices of a unit are never reused, and its active keyset has the highest one
    (crates/cdk-signatory/src/common.rs:44-113, crates/cdk-signatory/src/db_signatory.rs:59-89
    and 221-262). */
module DerivationIndices {
  import opened Wrappers
  import opened PrimeField
  import opened Issuance
  import opened KeysetStore
  import opened KeysetIds
  import opened KeysetTheorems
  import AmountTheorems

  // ----- Distinct paths have distinct keys -----

  predicate IsDefault(p: Path) {
    |p| == 3 && p[0] == HARDENED && HARDENED <= p[1] <= HARDENED + 4 && HARDENED <= p[2] < 2 * HARDENED
  }

  predicate InScope(p: Path, scope: set<Path>) {
    IsDefault(p) || p in scope
  }

  /** No two of the paths in use share a key. */
  ghost predicate CollisionFree(kc: Keychain, scope: set<Path>) {
    forall p: Path, r: Path, i: nat, j: nat ::
      InScope(p, scope) && InScope(r, scope) && i < HARDENED && j < HARDENED && kc.child(p, i) == kc.child(r, j) ==>
          p == r
  }

  /** The setting of the property: the seed, the custom paths that are ever used, and the unit. */
  datatype World = World(kc: Keychain, scope: set<Path>, unit: CurrencyUnit) {
    ghost predicate Valid() {
      kc.Valid() && CollisionFree(kc, scope) && DerivationIndex(unit).Some?
    }

    /** A default path of the unit. */
    predicate OnPath(p: Path) {
      && DerivationIndex(unit).Some?
      && |p| == 3 && p[0] == HARDENED && p[1] == HARDENED + DerivationIndex(unit).value && p[2] >= HARDENED
    }

    /** Rows have keys, and exactly the rows of the unit are on its default paths. */
    ghost predicate RowOk(row: KeySetInfo)
      requires kc.group.q > 0
    {
      && RowIdOk(kc, row)
      && 0 < |row.amounts| <= HARDENED
      && InScope(row.path, scope)
      && (row.unit == unit <==> OnPath(row.path))
      && (row.unit == unit ==> row.index == Some(row.path[2] - HARDENED))
    }

    ghost predicate Inv(s: Store)
      requires kc.group.q > 0
    {
      forall x :: x in s ==> s[x].id == x && RowOk(s[x])
    }

    predicate Mine(s: Store, x: nat) {
      x in s && s[x].unit == unit
    }

    ghost predicate IsTop(s: Store, a: nat) {
      && Mine(s, a) && s[a].active
      && forall x :: Mine(s, x) ==> !Below(s[a].index, s[x].index)
    }

    /** If the unit has keysets, one with the highest index is active. */
    ghost predicate TopActive(s: Store) {
      (exists x :: Mine(s, x)) ==> exists a :: IsTop(s, a)
    }

    /** The rows of the unit stay as they are, up to their flag; new ones have higher indices. */
    ghost predicate Grows(s: Store, t: Store) {
      && (forall x :: Mine(s, x) ==> Mine(t, x) && t[x] == s[x].(active := t[x].active))
      && (forall x, y :: Mine(t, y) && !Mine(s, y) && Mine(s, x) ==> Below(s[x].index, t[y].index))
    }

    /** Nothing happens to the rows of the unit. */
    ghost predicate Frame(s: Store, t: Store) {
      forall x :: (Mine(s, x) <==> Mine(t, x)) && (Mine(s, x) ==> t[x] == s[x])
    }

    /** A keyset of the unit that may be activated: a new one above all others, or the top one again. */
    ghost predicate Fits(s: Store, info: KeySetInfo)
      requires kc.group.q > 0
    {
      && RowOk(info) && info.unit == unit
      && ((forall x :: Mine(s, x) ==> Below(s[x].index, info.index))
          || (&& Mine(s, info.id) && s[info.id] == info.(active := s[info.id].active)
              && forall x :: Mine(s, x) ==> !Below(info.index, s[x].index)))
    }

    /** A boot without an empty keyset, and without a custom path for the unit or on its paths. */
    ghost predicate ConfigOk(cfg: Config) {
      && (forall u :: u in cfg.supported ==> cfg.supported[u].1 > 0)
      && CustomOk(cfg.custom)
    }

    ghost predicate CustomOk(custom: map<CurrencyUnit, Path>) {
      && unit !in custom
      && forall u :: u in custom ==> custom[u] in scope && !OnPath(custom[u])
    }
  }

  /** Two rows with the same id are on the same path: their first keys are the same. */
  lemma SameIdSamePath(w: World, a: KeySetInfo, b: KeySetInfo)
    requires w.Valid() && w.RowOk(a) && w.RowOk(b) && a.id == b.id
    ensures a.path == b.path
  {
    assert PubList(w.kc, a.path, a.amounts) == PubList(w.kc, b.path, b.amounts);
    assert a.amounts[0] in InOrder(a.amounts);
    var i := FirstKey(w.kc, a.path, a.amounts);
    var j := FirstKey(w.kc, b.path, b.amounts);
    assert w.kc.child(a.path, i) == w.kc.child(b.path, j) by {
      CancelFactor(w.kc.child(a.path, i), w.kc.child(b.path, j), w.kc.group.g, w.kc.group.q);
    }
  }

  /** The first public key in order is that of some child of the path. */
  lemma FirstKey(kc: Keychain, path: Path, amounts: seq<nat>) returns (i: nat)
    requires kc.group.q > 0 && InOrder(amounts) != []
    ensures i < |amounts| && PubList(kc, path, amounts)[0] == kc.group.PublicKey(kc.child(path, i))
  {
    PubAt(kc, path, amounts, 0);
    i := KeyAt(kc, path, amounts, |amounts|, InOrder(amounts)[0]);
  }

  lemma NewInfoOk(w: World, custom: map<CurrencyUnit, Path>, unit: CurrencyUnit, index: nat, amounts: seq<nat>,
                  feePpk: nat)
    requires w.Valid() && w.CustomOk(custom) && amounts != []
    ensures var info := NewInfo(w.kc, custom, unit, index, amounts, feePpk);
            info.Ok? ==> w.RowOk(info.value) && info.value.unit == unit && info.value.index == Some(index)
  {
    var path := NewPath(custom, unit, index);
    if path.Ok? {
      NewPathOk(w, custom, unit, index);
    }
  }

  lemma NewPathOk(w: World, custom: map<CurrencyUnit, Path>, unit: CurrencyUnit, index: nat)
    requires w.Valid() && w.CustomOk(custom) && NewPath(custom, unit, index).Ok?
    ensures var path := NewPath(custom, unit, index).value;
            && InScope(path, w.scope) && (unit == w.unit <==> w.OnPath(path))
            && (unit == w.unit ==> path[2] == HARDENED + index)
  {
  }

  // ----- One activation -----

  lemma SameRow(w: World, a: KeySetInfo, b: KeySetInfo)
    requires w.kc.group.q > 0 && w.RowOk(a) && b == a.(active := b.active)
    ensures w.RowOk(b)
  {
    assert IdOf(w.kc, b.path, b.amounts) == IdOf(w.kc, a.path, a.amounts);
  }

  lemma ActivateKeepsInv(w: World, s: Store, info: KeySetInfo)
    requires w.kc.group.q > 0 && w.Inv(s) && w.RowOk(info)
    ensures w.Inv(Activate(s, info))
  {
    var t := Activate(s, info);
    forall x | x in t ensures t[x].id == x && w.RowOk(t[x]) {
      SameRow(w, if x == info.id then info else s[x], t[x]);
    }
  }

  lemma ActivateOther(w: World, s: Store, info: KeySetInfo)
    requires w.Valid() && w.Inv(s) && w.RowOk(info) && info.unit != w.unit
    ensures w.Inv(Activate(s, info)) && w.Frame(s, Activate(s, info))
  {
    ActivateKeepsInv(w, s, info);
    if info.id in s {
      SameIdSamePath(w, info, s[info.id]);
    }
    ActivateFrames(w, s, info);
  }

  lemma ActivateFrames(w: World, s: Store, info: KeySetInfo)
    requires info.unit != w.unit && !w.Mine(s, info.id)
    ensures w.Frame(s, Activate(s, info))
  {
  }

  lemma ActivateFits(w: World, s: Store, info: KeySetInfo)
    requires w.Valid() && w.Inv(s) && w.Fits(s, info)
    ensures w.Inv(Activate(s, info)) && w.Grows(s, Activate(s, info)) && w.IsTop(Activate(s, info), info.id)
  {
    ActivateKeepsInv(w, s, info);
    if info.id in s {
      SameIdSamePath(w, info, s[info.id]);
      assert w.Mine(s, info.id) && s[info.id].index == info.index;
      assert !Below(info.index, info.index);
      ActivateAgain(w, s, info);
    } else {
      ActivateNew(w, s, info);
    }
  }

  lemma ActivateNew(w: World, s: Store, info: KeySetInfo)
    requires info.unit == w.unit && info.id !in s
    requires forall x :: w.Mine(s, x) ==> Below(s[x].index, info.index)
    ensures w.Grows(s, Activate(s, info)) && w.IsTop(Activate(s, info), info.id)
  {
  }

  lemma ActivateAgain(w: World, s: Store, info: KeySetInfo)
    requires info.unit == w.unit && w.Mine(s, info.id) && s[info.id] == info.(active := s[info.id].active)
    requires forall x :: w.Mine(s, x) ==> !Below(info.index, s[x].index)
    ensures w.Grows(s, Activate(s, info)) && w.IsTop(Activate(s, info), info.id)
  {
  }

  // ----- A phase of a boot -----

  /** The choice leaves the unit alone. */
  ghost predicate OtherChoice(w: World, c: Choice)
    requires w.kc.group.q > 0
  {
    c.Ok? && c.value.Some? ==> w.RowOk(c.value.value) && c.value.value.unit != w.unit
  }

  ghost predicate Others(w: World, choices: seq<Choice>)
    requires w.kc.group.q > 0
  {
    forall i :: 0 <= i < |choices| ==> OtherChoice(w, choices[i])
  }

  /** Only the choice at `m` is about the unit. */
  ghost predicate OnlyAt(w: World, choices: seq<Choice>, m: nat)
    requires w.kc.group.q > 0
  {
    forall i :: 0 <= i < |choices| && i != m ==> OtherChoice(w, choices[i])
  }

  lemma {:induction false} ApplyOthers(w: World, s: Store, choices: seq<Choice>)
    requires w.Valid() && w.Inv(s) && Others(w, choices)
    ensures Apply(s, choices).Ok? ==> w.Inv(Apply(s, choices).value) && w.Frame(s, Apply(s, choices).value)
    decreases |choices|
  {
    if choices != [] && choices[0].Ok? {
      assert OtherChoice(w, choices[0]) && Others(w, choices[1..]);
      if choices[0].value.Some? {
        var t := Activate(s, choices[0].value.value);
        ActivateOther(w, s, choices[0].value.value);
        ApplyOthers(w, t, choices[1..]);
      } else {
        ApplyOthers(w, s, choices[1..]);
      }
    }
  }

  lemma FrameKeepsFits(w: World, s: Store, t: Store, info: KeySetInfo)
    requires w.kc.group.q > 0 && w.Frame(s, t) && w.Fits(s, info)
    ensures w.Fits(t, info)
  {
    if forall x :: w.Mine(s, x) ==> Below(s[x].index, info.index) {
      assert forall x :: w.Mine(t, x) ==> w.Mine(s, x);
    } else {
      assert w.Mine(t, info.id);
      assert forall x :: w.Mine(t, x) ==> w.Mine(s, x);
    }
  }

  lemma FrameKeepsTop(w: World, s: Store, t: Store, a: nat)
    requires w.Frame(s, t) && w.IsTop(s, a)
    ensures w.IsTop(t, a)
  {
    assert w.Mine(t, a);
  }

  lemma ApplyUnitFirst(w: World, s: Store, info: KeySetInfo, rest: seq<Choice>)
    requires w.Valid() && w.Inv(s) && w.Fits(s, info) && Others(w, rest)
    ensures var r := Apply(Activate(s, info), rest);
            r.Ok? ==> w.Inv(r.value) && w.Grows(s, r.value) && w.IsTop(r.value, info.id)
  {
    var t := Activate(s, info);
    ActivateFits(w, s, info);
    ApplyOthers(w, t, rest);
    var r := Apply(t, rest);
    if r.Ok? {
      FrameKeepsTop(w, t, r.value, info.id);
      GrowsThenFrame(w, s, t, r.value);
    }
  }

  /** From `s` to `r` the unit grows, and `a` is its active keyset with the highest index. */
  ghost predicate GrowsTo(w: World, s: Store, r: Store, a: nat)
    requires w.kc.group.q > 0
  {
    w.Inv(r) && w.Grows(s, r) && w.IsTop(r, a)
  }

  lemma FrameThenGrowsTo(w: World, s: Store, t: Store, r: Store, a: nat)
    requires w.kc.group.q > 0 && w.Frame(s, t) && GrowsTo(w, t, r, a)
    ensures GrowsTo(w, s, r, a)
  {
    FrameThenGrows(w, s, t, r);
  }

  /** Exactly one choice, at `m`, is about the unit. */
  lemma {:induction false} ApplyWithUnit(w: World, s: Store, choices: seq<Choice>, m: nat, info: KeySetInfo)
    requires w.Valid() && w.Inv(s) && m < |choices|
    requires OnlyAt(w, choices, m)
    requires choices[m] == Ok(Some(info)) && w.Fits(s, info)
    ensures Apply(s, choices).Ok? ==> GrowsTo(w, s, Apply(s, choices).value, info.id)
    decreases m
  {
    if m == 0 {
      assert Others(w, choices[1..]);
      ApplyUnitFirst(w, s, info, choices[1..]);
    } else if choices[0].Ok? {
      var tail := choices[1..];
      assert OtherChoice(w, choices[0]) && OnlyAt(w, tail, m - 1);
      if choices[0].value.Some? {
        var t := OtherFirst(w, s, choices[0].value.value, info);
        ApplyWithUnit(w, t, tail, m - 1, info);
        if Apply(t, tail).Ok? {
          FrameThenGrowsTo(w, s, t, Apply(t, tail).value, info.id);
        }
      } else {
        ApplyWithUnit(w, s, tail, m - 1, info);
      }
    }
  }

  lemma OtherFirst(w: World, s: Store, other: KeySetInfo, info: KeySetInfo) returns (t: Store)
    requires w.Valid() && w.Inv(s) && w.RowOk(other) && other.unit != w.unit && w.Fits(s, info)
    ensures t == Activate(s, other) && w.Inv(t) && w.Frame(s, t) && w.Fits(t, info)
  {
    t := Activate(s, other);
    ActivateOther(w, s, other);
    FrameKeepsFits(w, s, t, info);
  }

  /** A phase succeeds only if every choice does. */
  lemma {:induction false} ApplyOkEach(s: Store, choices: seq<Choice>, m: nat)
    requires m < |choices|
    ensures Apply(s, choices).Ok? ==> choices[m].Ok?
    decreases m
  {
    if m > 0 && choices[0].Ok? {
      var t := if choices[0].value.Some? then Activate(s, choices[0].value.value) else s;
      ApplyOkEach(t, choices[1..], m - 1);
    }
  }

  lemma GrowsThenFrame(w: World, s: Store, t: Store, r: Store)
    requires w.Grows(s, t) && w.Frame(t, r)
    ensures w.Grows(s, r)
  {
    assert forall x :: w.Mine(r, x) ==> w.Mine(t, x);
    assert forall x :: w.Mine(s, x) ==> w.Mine(t, x) && w.Mine(r, x);
  }

  lemma FrameThenGrows(w: World, s: Store, t: Store, r: Store)
    requires w.Frame(s, t) && w.Grows(t, r)
    ensures w.Grows(s, r)
  {
    assert forall x :: w.Mine(s, x) <==> w.Mine(t, x);
  }

  lemma GrowsTwice(w: World, s: Store, t: Store, r: Store)
    requires w.Grows(s, t) && w.Grows(t, r)
    ensures w.Grows(s, r)
  {
    forall x, y | w.Mine(r, y) && !w.Mine(s, y) && w.Mine(s, x) ensures Below(s[x].index, r[y].index) {
      assert w.Mine(t, x) && t[x].index == s[x].index;
      if w.Mine(t, y) {
        assert w.Mine(r, y) && r[y].index == t[y].index;
      }
    }
  }

  // ----- A boot -----

  lemma RowsOk(w: World, s: Store, rows: seq<KeySetInfo>)
    requires w.kc.group.q > 0 && w.Inv(s) && Lists(rows, s)
    ensures forall i :: 0 <= i < |rows| ==> w.RowOk(rows[i])
    ensures Highest(rows, w.unit).Some? <==> exists x :: w.Mine(s, x)
  {
    HighestIsHighest(rows, w.unit);
    if x :| w.Mine(s, x) {
      var i :| 0 <= i < |rows| && rows[i] == s[x];
    }
    if Highest(rows, w.unit).Some? {
      var top := Highest(rows, w.unit).value;
      assert w.Mine(s, top.id);
    }
  }

  lemma InitOthers(w: World, rows: seq<KeySetInfo>, order: seq<CurrencyUnit>, cfg: Config)
    requires w.Valid() && w.ConfigOk(cfg) && (w.unit !in order || w.unit !in cfg.supported)
    requires forall i :: 0 <= i < |rows| ==> w.RowOk(rows[i])
    ensures Others(w, InitChoices(w.kc, rows, order, cfg))
  {
    forall i | 0 <= i < |order| ensures OtherChoice(w, InitChoice(w.kc, rows, order[i], cfg)) {
      InitChoiceOk(w, rows, order[i], cfg);
      assert order[i] in order;
    }
  }

  lemma InitChoiceOk(w: World, rows: seq<KeySetInfo>, unit: CurrencyUnit, cfg: Config)
    requires w.Valid() && w.ConfigOk(cfg)
    requires forall i :: 0 <= i < |rows| ==> w.RowOk(rows[i])
    ensures var c := InitChoice(w.kc, rows, unit, cfg);
            c.Ok? && c.value.Some? ==> w.RowOk(c.value.value) && c.value.value.unit == unit
  {
    HighestIsHighest(rows, unit);
    var top := Highest(rows, unit);
    if top.Some? && unit in cfg.supported {
      var index := if top.value.index.None? then 1 else top.value.index.value + 1;
      NewInfoOk(w, cfg.custom, unit, index, top.value.amounts, cfg.supported[unit].0);
    }
  }

  lemma CreateChoiceOk(w: World, rows: seq<KeySetInfo>, unit: CurrencyUnit, cfg: Config)
    requires w.Valid() && w.ConfigOk(cfg)
    ensures var c := CreateChoice(w.kc, rows, unit, cfg);
            c.Ok? && c.value.Some? ==>
              && w.RowOk(c.value.value) && c.value.value.unit == unit
              && (unit == w.unit ==> unit in Supported(cfg) && (unit in cfg.supported ==> Highest(rows, unit).None?))
  {
    if unit in Supported(cfg) {
      var (feePpk, maxOrder) := Supported(cfg)[unit];
      assert maxOrder > 0;
      NewInfoOk(w, cfg.custom, unit, 0, AmountTheorems.Keyset(maxOrder), feePpk);
    }
  }

  lemma CreateOthers(w: World, rows: seq<KeySetInfo>, order: seq<CurrencyUnit>, cfg: Config)
    requires w.Valid() && w.ConfigOk(cfg)
    requires w.unit in order ==> w.unit !in Supported(cfg) || (w.unit in cfg.supported && Highest(rows, w.unit).Some?)
    ensures Others(w, CreateChoices(w.kc, rows, order, cfg))
  {
    forall i | 0 <= i < |order| ensures OtherChoice(w, CreateChoice(w.kc, rows, order[i], cfg)) {
      CreateChoiceOk(w, rows, order[i], cfg);
      assert order[i] in order;
    }
  }

  lemma DeactivateRows(w: World, s: Store)
    requires w.kc.group.q > 0 && w.Inv(s)
    ensures w.Inv(Deactivate(s)) && w.Grows(s, Deactivate(s))
    ensures forall x :: w.Mine(s, x) <==> w.Mine(Deactivate(s), x)
  {
    var t := Deactivate(s);
    forall x | x in t ensures t[x].id == x && w.RowOk(t[x]) {
      SameRow(w, s[x], t[x]);
    }
  }

  /** What `init_keysets` chooses for the unit continues the indices of its stored keysets. */
  lemma InitChoiceFits(w: World, s: Store, rows: seq<KeySetInfo>, cfg: Config)
    requires w.Valid() && w.Inv(s) && Lists(rows, s) && w.ConfigOk(cfg) && w.unit in cfg.supported
    requires Highest(rows, w.unit).Some?
    ensures var c := InitChoice(w.kc, rows, w.unit, cfg);
            c.Ok? ==> c.value.Some? && w.Fits(Deactivate(s), c.value.value)
  {
    RowsOk(w, s, rows);
    InitChoiceOk(w, rows, w.unit, cfg);
    HighestOfMine(w, s, rows);
    InitChoiceShape(w.kc, rows, w.unit, cfg);
    var c := InitChoice(w.kc, rows, w.unit, cfg);
    if c.Ok? {
      FitsAfterDeactivate(w, s, Highest(rows, w.unit).value, c.value.value);
    }
  }

  lemma InitChoiceShape(kc: Keychain, rows: seq<KeySetInfo>, unit: CurrencyUnit, cfg: Config)
    requires kc.group.q > 0 && unit in cfg.supported
    requires Highest(rows, unit).Some? && Highest(rows, unit).value.index.Some?
    ensures var c, top := InitChoice(kc, rows, unit, cfg), Highest(rows, unit).value;
            c.Ok? ==>
              && c.value.Some?
              && c.value.value.amounts == top.amounts && c.value.value.feePpk == cfg.supported[unit].0
              && (if top.feePpk == cfg.supported[unit].0 && |top.amounts| == cfg.supported[unit].1
                  then c.value.value == top else c.value.value.index == Some(top.index.value + 1))
  {
  }

  /** The keyset with the highest index, or one with the next index. */
  lemma FitsAfterDeactivate(w: World, s: Store, top: KeySetInfo, info: KeySetInfo)
    requires w.kc.group.q > 0 && w.RowOk(info) && info.unit == w.unit
    requires w.Mine(s, top.id) && s[top.id] == top && top.index.Some?
    requires forall x :: w.Mine(s, x) ==> s[x].index.Some? && s[x].index.value <= top.index.value
    requires info == top || info.index == Some(top.index.value + 1)
    ensures w.Fits(Deactivate(s), info)
  {
    var t := Deactivate(s);
    forall x | w.Mine(t, x)
      ensures if info == top then !Below(info.index, t[x].index) else Below(t[x].index, info.index)
    {
      assert w.Mine(s, x);
    }
    if info == top {
      assert w.Mine(t, top.id);
    }
  }

  lemma HighestOfMine(w: World, s: Store, rows: seq<KeySetInfo>)
    requires w.kc.group.q > 0 && w.Inv(s) && Lists(rows, s) && Highest(rows, w.unit).Some?
    ensures var top := Highest(rows, w.unit).value;
            && w.Mine(s, top.id) && s[top.id] == top && top.index.Some?
            && forall x :: w.Mine(s, x) ==> s[x].index.Some? && s[x].index.value <= top.index.value
  {
    HighestIsHighest(rows, w.unit);
    var top := Highest(rows, w.unit).value;
    forall x | w.Mine(s, x) ensures s[x].index.Some? && !Below(top.index, s[x].index) {
      var i :| 0 <= i < |rows| && rows[i] == s[x];
      assert w.RowOk(s[x]);
    }
  }

  /** The first phase of a boot, for a unit with stored keysets. */
  lemma InitPhase(w: World, s: Store, rows: seq<KeySetInfo>, order: seq<CurrencyUnit>, cfg: Config)
    requires w.Valid() && w.Inv(s) && Lists(rows, s) && w.ConfigOk(cfg) && w.unit in cfg.supported
    requires Highest(rows, w.unit).Some? && w.unit in order
    requires forall i, j :: 0 <= i < j < |order| ==> order[i] != order[j]
    ensures var r := Apply(Deactivate(s), InitChoices(w.kc, rows, order, cfg));
            r.Ok? ==> w.Inv(r.value) && w.Grows(s, r.value) && w.TopActive(r.value)
  {
    var t, choices := Deactivate(s), InitChoices(w.kc, rows, order, cfg);
    var m :| 0 <= m < |order| && order[m] == w.unit;
    DeactivateRows(w, s);
    RowsOk(w, s, rows);
    InitChoiceFits(w, s, rows, cfg);
    ApplyOkEach(t, choices, m);
    if choices[m].Ok? {
      forall i | 0 <= i < |order| && i != m ensures OtherChoice(w, choices[i]) {
        InitChoiceOk(w, rows, order[i], cfg);
      }
      ApplyWithUnit(w, t, choices, m, choices[m].value.value);
      if Apply(t, choices).Ok? {
        GrowsTwice(w, s, t, Apply(t, choices).value);
      }
    }
  }

  /** The second phase of a boot, for a unit without stored keysets. */
  lemma CreatePhase(w: World, s: Store, rows: seq<KeySetInfo>, order: seq<CurrencyUnit>, cfg: Config)
    requires w.Valid() && w.Inv(s) && w.ConfigOk(cfg) && w.unit in cfg.supported
    requires Highest(rows, w.unit).None? && (forall x :: !w.Mine(s, x)) && w.unit in order
    requires forall i, j :: 0 <= i < j < |order| ==> order[i] != order[j]
    ensures var r := Apply(s, CreateChoices(w.kc, rows, order, cfg));
            r.Ok? ==> w.Inv(r.value) && w.TopActive(r.value)
  {
    var choices := CreateChoices(w.kc, rows, order, cfg);
    var m :| 0 <= m < |order| && order[m] == w.unit;
    CreateChoiceOk(w, rows, w.unit, cfg);
    ApplyOkEach(s, choices, m);
    if choices[m].Ok? {
      forall i | 0 <= i < |order| && i != m ensures OtherChoice(w, choices[i]) {
        CreateChoiceOk(w, rows, order[i], cfg);
      }
      ApplyWithUnit(w, s, choices, m, choices[m].value.value);
    }
  }

  /** After the first transaction of a boot that supports the unit: no index again, and the highest
      keyset active. */
  lemma HalfwayGrows(w: World, s: Store, rows: seq<KeySetInfo>, initOrder: seq<CurrencyUnit>,
                     createOrder: seq<CurrencyUnit>, cfg: Config)
    requires w.Valid() && w.Inv(s) && w.TopActive(s) && Lists(rows, s)
    requires w.ConfigOk(cfg) && w.unit in cfg.supported && Orders(rows, initOrder, createOrder, cfg)
    ensures var t := Halfway(w.kc, s, rows, initOrder, cfg);
            && w.Inv(t) && w.Grows(s, t) && w.TopActive(t)
            && (Highest(rows, w.unit).None? ==> forall x :: !w.Mine(t, x))
  {
    RowsOk(w, s, rows);
    if Highest(rows, w.unit).Some? {
      InitPhase(w, s, rows, initOrder, cfg);
    } else {
      DeactivateRows(w, s);
      InitOthers(w, rows, initOrder, cfg);
      ApplyOthers(w, Deactivate(s), InitChoices(w.kc, rows, initOrder, cfg));
    }
  }

  /** A boot that supports the unit gives it no index again and activates its highest keyset. */
  lemma BootGrows(w: World, s: Store, rows: seq<KeySetInfo>, initOrder: seq<CurrencyUnit>,
                  createOrder: seq<CurrencyUnit>, cfg: Config)
    requires w.Valid() && w.Inv(s) && w.TopActive(s) && Lists(rows, s)
    requires w.ConfigOk(cfg) && w.unit in cfg.supported && Orders(rows, initOrder, createOrder, cfg)
    ensures var t := Boot(w.kc, s, rows, initOrder, createOrder, cfg).store;
            w.Inv(t) && w.Grows(s, t) && w.TopActive(t)
  {
    var s1 := Halfway(w.kc, s, rows, initOrder, cfg);
    HalfwayGrows(w, s, rows, initOrder, createOrder, cfg);
    if Apply(Deactivate(s), InitChoices(w.kc, rows, initOrder, cfg)).Ok? {
      SecondPhaseGrows(w, s1, rows, initOrder, createOrder, cfg);
      var r2 := Apply(s1, CreateChoices(w.kc, rows, createOrder, cfg));
      if r2.Ok? {
        GrowsTwice(w, s, s1, r2.value);
      }
    }
  }

  lemma SecondPhaseGrows(w: World, s: Store, rows: seq<KeySetInfo>, initOrder: seq<CurrencyUnit>,
                         createOrder: seq<CurrencyUnit>, cfg: Config)
    requires w.Valid() && w.Inv(s) && w.TopActive(s) && (Highest(rows, w.unit).None? ==> forall x :: !w.Mine(s, x))
    requires w.ConfigOk(cfg) && w.unit in cfg.supported && Orders(rows, initOrder, createOrder, cfg)
    ensures var r := Apply(s, CreateChoices(w.kc, rows, createOrder, cfg));
            r.Ok? ==> w.Inv(r.value) && w.Grows(s, r.value) && w.TopActive(r.value)
  {
    var choices := CreateChoices(w.kc, rows, createOrder, cfg);
    if Highest(rows, w.unit).Some? {
      CreateOthers(w, rows, createOrder, cfg);
      ApplyOthers(w, s, choices);
      if Apply(s, choices).Ok? {
        FrameGrows(w, s, Apply(s, choices).value);
        FrameKeepsTopActive(w, s, Apply(s, choices).value);
      }
    } else {
      CreatePhase(w, s, rows, createOrder, cfg);
    }
  }

  lemma FrameGrows(w: World, s: Store, t: Store)
    requires w.Frame(s, t)
    ensures w.Grows(s, t)
  {
    assert forall x :: w.Mine(s, x) <==> w.Mine(t, x);
  }

  lemma FrameKeepsTopActive(w: World, s: Store, t: Store)
    requires w.Frame(s, t) && w.TopActive(s)
    ensures w.TopActive(t)
  {
    if x :| w.Mine(t, x) {
      assert w.Mine(s, x);
      var a :| w.IsTop(s, a);
      FrameKeepsTop(w, s, t, a);
    }
  }

  // ----- A rotation -----

  /** The active keyset of the unit is its top one. */
  lemma ActiveIsTop(w: World, s: Store, rows: seq<KeySetInfo>)
    requires w.TopActive(s) && OneActive(s) && Lists(rows, s)
    ensures match ActiveRow(rows, w.unit)
            case None => forall x :: !w.Mine(s, x)
            case Some(row) => row.id in s && s[row.id] == row && w.IsTop(s, row.id)
  {
    ActiveRowIsActive(rows, w.unit);
    if x :| w.Mine(s, x) {
      var a :| w.IsTop(s, a);
      var i :| 0 <= i < |rows| && rows[i] == s[a];
      assert ActiveRow(rows, w.unit).Some?;
      assert ActiveRow(rows, w.unit).value.id == a;
    }
  }

  /** A rotation of any unit gives the unit a higher index, or leaves it alone. */
  lemma RotateGrows(w: World, s: Store, rows: seq<KeySetInfo>, args: RotateArguments, custom: map<CurrencyUnit, Path>)
    requires w.Valid() && w.Inv(s) && w.TopActive(s) && OneActive(s) && Lists(rows, s)
    requires w.CustomOk(custom) && args.amounts != []
    ensures var t := Rotate(w.kc, s, rows, args, custom).store;
            w.Inv(t) && w.Grows(s, t) && w.TopActive(t)
  {
    var index := RotationIndex(rows, args.unit);
    var info := NewInfo(w.kc, custom, args.unit, index, args.amounts, args.feePpk);
    NewInfoOk(w, custom, args.unit, index, args.amounts, args.feePpk);
    if info.Ok? {
      if args.unit == w.unit {
        NextFits(w, s, rows, info.value);
        ActivateFits(w, s, info.value);
      } else {
        ActivateOther(w, s, info.value);
        FrameGrows(w, s, Activate(s, info.value));
        FrameKeepsTopActive(w, s, Activate(s, info.value));
      }
    }
  }

  lemma NextFits(w: World, s: Store, rows: seq<KeySetInfo>, info: KeySetInfo)
    requires w.Valid() && w.Inv(s) && w.TopActive(s) && OneActive(s) && Lists(rows, s)
    requires w.RowOk(info) && info.unit == w.unit && info.index == Some(RotationIndex(rows, w.unit))
    ensures w.Fits(s, info)
  {
    RotationTakesNextIndex(w, s, rows);
  }

  /** A rotation takes the index after the highest one, and 1 for a unit without keysets. */
  lemma RotationTakesNextIndex(w: World, s: Store, rows: seq<KeySetInfo>)
    requires w.kc.group.q > 0 && w.Inv(s) && w.TopActive(s) && OneActive(s) && Lists(rows, s)
    ensures (forall x :: w.Mine(s, x) ==> s[x].index.Some? && s[x].index.value < RotationIndex(rows, w.unit))
    ensures if exists x :: w.Mine(s, x)
            then exists x :: w.Mine(s, x) && s[x].index == Some(RotationIndex(rows, w.unit) - 1)
            else RotationIndex(rows, w.unit) == 1
  {
    MineHaveIndices(w, s);
    ActiveIsTop(w, s, rows);
    if ActiveRow(rows, w.unit).Some? {
      var a := ActiveRow(rows, w.unit).value.id;
      AboveTop(w, s, a);
      assert w.Mine(s, a) && s[a].index == Some(RotationIndex(rows, w.unit) - 1);
    }
  }

  /** What a boot activates for a unit with stored keysets: the configured fee always, but always the
      amounts of the stored keyset with the highest index; that keyset itself exactly when fee and
      number of amounts match, otherwise one with the next index.  So the configured number of
      amounts takes effect if and only if the stored keyset already has it, and a changed number
      uses up an index at every boot. */
  lemma BootActivates(w: World, s: Store, rows: seq<KeySetInfo>, initOrder: seq<CurrencyUnit>,
                      createOrder: seq<CurrencyUnit>, cfg: Config) returns (a: nat)
    requires w.Valid() && w.Inv(s) && Lists(rows, s) && w.ConfigOk(cfg) && w.unit in cfg.supported
    requires Orders(rows, initOrder, createOrder, cfg) && Highest(rows, w.unit).Some?
    requires Boot(w.kc, s, rows, initOrder, createOrder, cfg).error.None?
    ensures var t := Boot(w.kc, s, rows, initOrder, createOrder, cfg).store;
            w.Mine(t, a) && t[a].active && Continues(t[a], Highest(rows, w.unit).value, cfg.supported[w.unit])
  {
    BootKeepsChoice(w, s, rows, initOrder, createOrder, cfg);
    TopHasIndex(w, s, rows);
    a := InitChoice(w.kc, rows, w.unit, cfg).value.value.id;
    ChoiceContinues(w.kc, rows, w.unit, cfg);
  }

  /** The row that follows `top` when a boot asks for this fee and this number of amounts. */
  predicate Continues(row: KeySetInfo, top: KeySetInfo, wanted: (nat, nat)) {
    && row.feePpk == wanted.0 && row.amounts == top.amounts
    && top.index.Some?
    && row.index == (if top.feePpk == wanted.0 && |top.amounts| == wanted.1 then top.index
                     else Some(top.index.value + 1))
    && (|row.amounts| == wanted.1 <==> |top.amounts| == wanted.1)
  }

  lemma ChoiceContinues(kc: Keychain, rows: seq<KeySetInfo>, unit: CurrencyUnit, cfg: Config)
    requires kc.group.q > 0 && unit in cfg.supported
    requires Highest(rows, unit).Some? && Highest(rows, unit).value.index.Some?
    requires InitChoice(kc, rows, unit, cfg).Ok? && InitChoice(kc, rows, unit, cfg).value.Some?
    ensures Continues(InitChoice(kc, rows, unit, cfg).value.value.(active := true), Highest(rows, unit).value,
            cfg.supported[unit])
  {
    InitChoiceShape(kc, rows, unit, cfg);
  }

  lemma TopHasIndex(w: World, s: Store, rows: seq<KeySetInfo>)
    requires w.kc.group.q > 0 && w.Inv(s) && Lists(rows, s) && Highest(rows, w.unit).Some?
    ensures Highest(rows, w.unit).value.index.Some?
  {
    HighestOfMine(w, s, rows);
  }

  /** The second phase of a boot leaves alone what the first one activated for the unit. */
  lemma BootKeepsChoice(w: World, s: Store, rows: seq<KeySetInfo>, initOrder: seq<CurrencyUnit>,
                        createOrder: seq<CurrencyUnit>, cfg: Config)
    requires w.Valid() && w.Inv(s) && Lists(rows, s) && w.ConfigOk(cfg) && w.unit in cfg.supported
    requires Orders(rows, initOrder, createOrder, cfg) && Highest(rows, w.unit).Some?
    requires Boot(w.kc, s, rows, initOrder, createOrder, cfg).error.None?
    ensures var t, c := Boot(w.kc, s, rows, initOrder, createOrder, cfg).store, InitChoice(w.kc, rows, w.unit, cfg);
            && c.Ok? && c.value.Some? && w.Mine(t, c.value.value.id)
            && t[c.value.value.id] == c.value.value.(active := true)
  {
    UnitInOrder(w, rows, initOrder, createOrder, cfg);
    InitPhase(w, s, rows, initOrder, cfg);
    InitActivates(w, s, rows, initOrder, cfg);
    CreateOthers(w, rows, createOrder, cfg);
    var s1 := Apply(Deactivate(s), InitChoices(w.kc, rows, initOrder, cfg)).value;
    ApplyOthers(w, s1, CreateChoices(w.kc, rows, createOrder, cfg));
  }

  lemma UnitInOrder(w: World, rows: seq<KeySetInfo>, initOrder: seq<CurrencyUnit>,
                    createOrder: seq<CurrencyUnit>, cfg: Config)
    requires Orders(rows, initOrder, createOrder, cfg) && Highest(rows, w.unit).Some?
    ensures w.unit in initOrder
    ensures forall i, j :: 0 <= i < j < |initOrder| ==> initOrder[i] != initOrder[j]
  {
    HighestIsHighest(rows, w.unit);
  }

  /** What `init_keysets` chooses for the unit is in the store, active, at the end of the first phase. */
  lemma InitActivates(w: World, s: Store, rows: seq<KeySetInfo>, order: seq<CurrencyUnit>, cfg: Config)
    requires w.Valid() && w.Inv(s) && Lists(rows, s) && w.ConfigOk(cfg) && w.unit in cfg.supported
    requires Highest(rows, w.unit).Some? && w.unit in order
    requires forall i, j :: 0 <= i < j < |order| ==> order[i] != order[j]
    ensures var r, c := Apply(Deactivate(s), InitChoices(w.kc, rows, order, cfg)), InitChoice(w.kc, rows, w.unit, cfg);
            r.Ok? ==> c.Ok? && c.value.Some? && w.Mine(r.value, c.value.value.id)
                      && r.value[c.value.value.id] == c.value.value.(active := true)
  {
    var t, choices := Deactivate(s), InitChoices(w.kc, rows, order, cfg);
    var m :| 0 <= m < |order| && order[m] == w.unit;
    DeactivateRows(w, s);
    RowsOk(w, s, rows);
    InitChoiceFits(w, s, rows, cfg);
    ApplyOkEach(t, choices, m);
    if choices[m].Ok? {
      forall i | 0 <= i < |order| && i != m ensures OtherChoice(w, choices[i]) {
        InitChoiceOk(w, rows, order[i], cfg);
      }
      ApplyActivates(w, t, choices, m, choices[m].value.value);
    }
  }

  // ----- When the unit is left out of a boot -----

  /** A boot that leaves the unit out leaves it without an active keyset. */
  lemma BootWithoutUnit(w: World, s: Store, rows: seq<KeySetInfo>, initOrder: seq<CurrencyUnit>,
                        createOrder: seq<CurrencyUnit>, cfg: Config)
    requires w.Valid() && w.Inv(s) && Lists(rows, s) && w.ConfigOk(cfg)
    requires w.unit !in Supported(cfg)
    requires Boot(w.kc, s, rows, initOrder, createOrder, cfg).error.None?
    ensures var t := Boot(w.kc, s, rows, initOrder, createOrder, cfg).store;
            && w.Inv(t)
            && (forall x :: w.Mine(s, x) ==> w.Mine(t, x) && t[x] == s[x].(active := false))
            && (forall x :: w.Mine(t, x) ==> !t[x].active)
  {
    RowsOk(w, s, rows);
    DeactivateRows(w, s);
    InitOthers(w, rows, initOrder, cfg);
    ApplyOthers(w, Deactivate(s), InitChoices(w.kc, rows, initOrder, cfg));
    var s1 := Apply(Deactivate(s), InitChoices(w.kc, rows, initOrder, cfg)).value;
    CreateOthers(w, rows, createOrder, cfg);
    ApplyOthers(w, s1, CreateChoices(w.kc, rows, createOrder, cfg));
    var t := Boot(w.kc, s, rows, initOrder, createOrder, cfg).store;
    assert forall x :: w.Mine(t, x) ==> w.Mine(s1, x) && t[x] == s1[x];
    assert forall x :: w.Mine(s1, x) ==> w.Mine(Deactivate(s), x) && s1[x] == Deactivate(s)[x];
  }

  /** A boot gives a unit with stored keysets an active one if and only if it supports the unit. */
  lemma BootActivatesIffSupported(w: World, s: Store, rows: seq<KeySetInfo>, initOrder: seq<CurrencyUnit>,
                                  createOrder: seq<CurrencyUnit>, cfg: Config)
    requires w.Valid() && w.Inv(s) && w.TopActive(s) && Lists(rows, s) && w.ConfigOk(cfg) && w.unit != Auth
    requires Orders(rows, initOrder, createOrder, cfg) && exists x :: w.Mine(s, x)
    requires Boot(w.kc, s, rows, initOrder, createOrder, cfg).error.None?
    ensures var t := Boot(w.kc, s, rows, initOrder, createOrder, cfg).store;
            (exists a :: w.Mine(t, a) && t[a].active) <==> w.unit in cfg.supported
  {
    var t := Boot(w.kc, s, rows, initOrder, createOrder, cfg).store;
    if w.unit in cfg.supported {
      BootGrows(w, s, rows, initOrder, createOrder, cfg);
      var x :| w.Mine(s, x);
      assert w.Mine(t, x);
      var a :| w.IsTop(t, a);
      assert w.Mine(t, a);
    } else {
      BootWithoutUnit(w, s, rows, initOrder, createOrder, cfg);
    }
  }

  /** A rotation gives an index above all others of the unit if and only if the keyset with the highest
      index is active, or none is active and no index is above 0.  So it reuses an index after a boot
      that left the unit out, and after one that started the auth unit again. */
  lemma RotationFreshIff(w: World, s: Store, rows: seq<KeySetInfo>)
    requires w.kc.group.q > 0 && w.Inv(s) && OneActive(s) && Lists(rows, s)
    ensures (forall x :: w.Mine(s, x) ==> Below(s[x].index, Some(RotationIndex(rows, w.unit))))
            <==> || (exists a :: w.IsTop(s, a))
                 || (forall x :: w.Mine(s, x) ==> !s[x].active && s[x].index == Some(0))
  {
    MineHaveIndices(w, s);
    match ActiveRow(rows, w.unit)
    case Some(row) =>
      ActiveRowIsActive(rows, w.unit);
      FreshIfTop(w, s, row.id);
    case None =>
      NoneActive(w, s, rows);
      FreshIfNone(w, s);
  }

  /** Without one, the rotation takes index 1. */
  lemma FreshIfNone(w: World, s: Store)
    requires forall x :: w.Mine(s, x) ==> s[x].index.Some? && !s[x].active
    ensures (forall x :: w.Mine(s, x) ==> Below(s[x].index, Some(1)))
            <==> (exists a :: w.IsTop(s, a)) || (forall x :: w.Mine(s, x) ==> !s[x].active && s[x].index == Some(0))
  {
    forall a ensures !w.IsTop(s, a) {
    }
    forall x | w.Mine(s, x) ensures Below(s[x].index, Some(1)) <==> s[x].index == Some(0) {
    }
  }

  /** With an active keyset of the unit. */
  lemma FreshIfTop(w: World, s: Store, a: nat)
    requires OneActive(s) && w.Mine(s, a) && s[a].active && forall x :: w.Mine(s, x) ==> s[x].index.Some?
    ensures (forall x :: w.Mine(s, x) ==> Below(s[x].index, Some(s[a].index.value + 1))) <==> exists b :: w.IsTop(s, b)
  {
    if forall x :: w.Mine(s, x) ==> Below(s[x].index, Some(s[a].index.value + 1)) {
      assert w.IsTop(s, a);
    }
    if b :| w.IsTop(s, b) {
      assert w.Mine(s, b) && a == b;
      AboveTop(w, s, a);
    }
  }

  lemma MineHaveIndices(w: World, s: Store)
    requires w.kc.group.q > 0 && w.Inv(s)
    ensures forall x :: w.Mine(s, x) ==> s[x].index.Some?
  {
  }

  lemma AboveTop(w: World, s: Store, a: nat)
    requires w.IsTop(s, a) && s[a].index.Some?
    ensures forall x :: w.Mine(s, x) ==> Below(s[x].index, Some(s[a].index.value + 1))
  {
    forall x | w.Mine(s, x) ensures Below(s[x].index, Some(s[a].index.value + 1)) {
      assert !Below(s[a].index, s[x].index);
    }
  }

  lemma NoneActive(w: World, s: Store, rows: seq<KeySetInfo>)
    requires Lists(rows, s) && ActiveRow(rows, w.unit).None?
    ensures forall a :: w.Mine(s, a) ==> !s[a].active
  {
    ActiveRowIsActive(rows, w.unit);
    forall a | w.Mine(s, a) ensures !s[a].active {
      var i :| 0 <= i < |rows| && rows[i] == s[a];
    }
  }

  /** A keyset chosen at `m` is in the store at the end of the phase, if later choices are about other units. */
  lemma {:induction false} ApplyActivates(w: World, s: Store, choices: seq<Choice>, m: nat, info: KeySetInfo)
    requires w.Valid() && w.Inv(s) && m < |choices|
    requires OnlyAt(w, choices, m)
    requires choices[m] == Ok(Some(info)) && w.RowOk(info) && info.unit == w.unit
    ensures var r := Apply(s, choices); r.Ok? ==> w.Mine(r.value, info.id) && r.value[info.id] == info.(active := true)
    decreases m
  {
    if m == 0 {
      assert Others(w, choices[1..]);
      ActivatesFirst(w, s, info, choices[1..]);
    } else if choices[0].Ok? {
      var tail := choices[1..];
      assert OtherChoice(w, choices[0]) && OnlyAt(w, tail, m - 1);
      if choices[0].value.Some? {
        ActivateOther(w, s, choices[0].value.value);
        ApplyActivates(w, Activate(s, choices[0].value.value), tail, m - 1, info);
      } else {
        ApplyActivates(w, s, tail, m - 1, info);
      }
    }
  }

  lemma ActivatesFirst(w: World, s: Store, info: KeySetInfo, rest: seq<Choice>)
    requires w.Valid() && w.Inv(s) && w.RowOk(info) && info.unit == w.unit && Others(w, rest)
    ensures var r := Apply(Activate(s, info), rest);
            r.Ok? ==> w.Mine(r.value, info.id) && r.value[info.id] == info.(active := true)
  {
    var t := Activate(s, info);
    ActivateKeepsInv(w, s, info);
    assert w.Mine(t, info.id) && t[info.id] == info.(active := true);
    ApplyOthers(w, t, rest);
  }

  /** The auth unit is added to a boot that leaves it out, and starts again at index 0 whatever
      indices its stored keysets have. */
  lemma AuthStartsAgain(w: World, s: Store, rows: seq<KeySetInfo>, initOrder: seq<CurrencyUnit>,
                        createOrder: seq<CurrencyUnit>, cfg: Config)
    requires w.Valid() && w.Inv(s) && Lists(rows, s) && w.ConfigOk(cfg) && w.unit == Auth
    requires Auth !in cfg.supported && Orders(rows, initOrder, createOrder, cfg)
    requires Boot(w.kc, s, rows, initOrder, createOrder, cfg).error.None?
    ensures var t := Boot(w.kc, s, rows, initOrder, createOrder, cfg).store;
            exists a :: w.Mine(t, a) && t[a].active && t[a].index == Some(0)
  {
    RowsOk(w, s, rows);
    DeactivateRows(w, s);
    InitOthers(w, rows, initOrder, cfg);
    ApplyOthers(w, Deactivate(s), InitChoices(w.kc, rows, initOrder, cfg));
    var s1 := Apply(Deactivate(s), InitChoices(w.kc, rows, initOrder, cfg)).value;
    var choices := CreateChoices(w.kc, rows, createOrder, cfg);
    assert Auth in Supported(cfg) && Auth in createOrder;
    var m :| 0 <= m < |createOrder| && createOrder[m] == Auth;
    CreateChoiceOk(w, rows, Auth, cfg);
    forall i | 0 <= i < |createOrder| && i != m ensures OtherChoice(w, choices[i]) {
      CreateChoiceOk(w, rows, createOrder[i], cfg);
    }
    ApplyOkEach(s1, choices, m);
    ApplyActivates(w, s1, choices, m, choices[m].value.value);
  }
}
