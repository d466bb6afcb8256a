/** The stored keysets and every change the signatory makes to them
    (crates/cdk-signatory/src/common.rs, crates/cdk-signatory/src/db_signatory.rs).

    The order in which the database lists its rows, and the order in which a hash map is iterated,
    are parameters: `rows` is any listing of the store, `order` any order of the units. */
module KeysetStore {
  import opened Wrappers
  import opened BlindSignature
  import opened Issuance
  import AmountTheorems

  /** Child numbers from here on are hardened; a hardened index is below this bound. */
  const HARDENED: nat := 0x8000_0000
  const U32_MAX: nat := 0xFFFF_FFFF

  datatype BootError = UnsupportedUnit | Panic

  // ----- Key generation -----

  /** The seed: the secret key of each child of a path, and the hash of a list of public keys. */
  datatype Keychain = Keychain(group: Group, child: (Path, nat) -> nat, idOf: seq<nat> -> nat) {
    /** The hash determines the public keys.  It says nothing about their amounts. */
    ghost predicate Valid() {
      && group.Valid()
      && (forall p: Path, i: nat :: group.IsKey(child(p, i)))
      && (forall x: seq<nat>, y: seq<nat> :: idOf(x) == idOf(y) ==> x == y)
    }

    function Pair(path: Path, i: nat): KeyPair
      requires group.q > 0
    {
      KeyPair(child(path, i), group.PublicKey(child(path, i)))
    }
  }

  /** The key pairs of the first `n` amounts; an amount that is listed twice has its last key. */
  function KeysUpTo(kc: Keychain, path: Path, amounts: seq<nat>, n: nat): (keys: map<nat, KeyPair>)
    requires kc.group.q > 0 && n <= |amounts|
    ensures forall a :: a in keys <==> a in amounts[..n]
  {
    assert n > 0 ==> amounts[..n] == amounts[..n - 1] + [amounts[n - 1]];
    if n == 0 then map[] else KeysUpTo(kc, path, amounts, n - 1)[amounts[n - 1] := kc.Pair(path, n - 1)]
  }

  function KeysOf(kc: Keychain, path: Path, amounts: seq<nat>): (keys: map<nat, KeyPair>)
    requires kc.group.q > 0
    ensures forall a :: a in keys <==> a in amounts
  {
    assert amounts[..|amounts|] == amounts;
    KeysUpTo(kc, path, amounts, |amounts|)
  }

  /** `x` put in its place in an ascending list, unless it is there already. */
  function Place(x: nat, xs: seq<nat>): (r: seq<nat>)
    ensures forall a :: a in r <==> a == x || a in xs
  {
    if xs == [] || x < xs[0] then [x] + xs
    else if x == xs[0] then xs
    else [xs[0]] + Place(x, xs[1..])
  }

  /** The different amounts in ascending order. */
  function InOrder(amounts: seq<nat>): (r: seq<nat>)
    ensures forall a :: a in r <==> a in amounts
  {
    if amounts == [] then [] else Place(amounts[0], InOrder(amounts[1..]))
  }

  /** The public keys in ascending order of their amounts. */
  function PubList(kc: Keychain, path: Path, amounts: seq<nat>): (r: seq<nat>)
    requires kc.group.q > 0
    ensures |r| == |InOrder(amounts)|
  {
    var keys, order := KeysOf(kc, path, amounts), InOrder(amounts);
    seq(|order|, i requires 0 <= i < |order| => assert order[i] in order; keys[order[i]].public)
  }

  /** `Id::v1_from_keys`: a hash of the public keys in order of their amounts, without the amounts. */
  function IdOf(kc: Keychain, path: Path, amounts: seq<nat>): nat
    requires kc.group.q > 0
  {
    kc.idOf(PubList(kc, path, amounts))
  }

  /** `MintKeySet::generate_from_xpriv`. */
  function Generate(kc: Keychain, path: Path, unit: CurrencyUnit, amounts: seq<nat>): MintKeySet
    requires kc.group.q > 0
  {
    MintKeySet(IdOf(kc, path, amounts), unit, KeysOf(kc, path, amounts))
  }

  function DerivationIndex(unit: CurrencyUnit): Option<nat> {
    match unit
    case Sat => Some(0)
    case Msat => Some(1)
    case Usd => Some(2)
    case Eur => Some(3)
    case Auth => Some(4)
    case Custom(_) => None
  }

  function DefaultPath(unitIndex: nat, index: nat): Path {
    [HARDENED, HARDENED + unitIndex, HARDENED + index]
  }

  // ----- Store operations -----

  type Store = map<nat, KeySetInfo>

  /** `add_keyset_info` (crates/cdk-sql-common/src/mint/mod.rs:384-421): an upsert by id. */
  function Upsert(s: Store, info: KeySetInfo): Store {
    s[info.id := info]
  }

  /** `set_active_keyset` (crates/cdk-sql-common/src/mint/mod.rs:424-437). */
  function SetActive(s: Store, unit: CurrencyUnit, id: nat): Store {
    map x | x in s :: if s[x].unit == unit then s[x].(active := x == id) else s[x]
  }

  function Activate(s: Store, info: KeySetInfo): Store {
    SetActive(Upsert(s, info.(active := true)), info.unit, info.id)
  }

  function Deactivate(s: Store): Store {
    map x | x in s :: s[x].(active := false)
  }

  /** `rows` lists the store. */
  ghost predicate Lists(rows: seq<KeySetInfo>, s: Store) {
    && (forall i :: 0 <= i < |rows| ==> rows[i].id in s && s[rows[i].id] == rows[i])
    && (forall id :: id in s ==> s[id] in rows)
  }

  // ----- Boot -----

  datatype Config = Config(supported: map<CurrencyUnit, (nat, nat)>, custom: map<CurrencyUnit, Path>)

  predicate Below(a: Option<nat>, b: Option<nat>) {
    b.Some? && (a.None? || a.value < b.value)
  }

  /** The row of the unit that sorts first by descending index; the sort is stable. */
  function Highest(rows: seq<KeySetInfo>, unit: CurrencyUnit): Option<KeySetInfo> {
    if rows == [] then None
    else
      var best := Highest(rows[1..], unit);
      if rows[0].unit == unit && (best.None? || !Below(rows[0].index, best.value.index)) then Some(rows[0]) else best
  }

  /** The path of a new keyset; the child number of an index above 2^31 - 1 panics. */
  function NewPath(custom: map<CurrencyUnit, Path>, unit: CurrencyUnit, index: nat): Result<Path, BootError> {
    if unit in custom then Ok(custom[unit])
    else match DerivationIndex(unit)
      case None => Err(UnsupportedUnit)
      case Some(u) => if index >= HARDENED then Err(Panic) else Ok(DefaultPath(u, index))
  }

  /** `create_new_keyset`. */
  function NewInfo(kc: Keychain, custom: map<CurrencyUnit, Path>, unit: CurrencyUnit, index: nat,
                   amounts: seq<nat>, feePpk: nat): Result<KeySetInfo, BootError>
    requires kc.group.q > 0
  {
    if index > U32_MAX then Err(Panic)
    else match NewPath(custom, unit, index)
      case Err(e) => Err(e)
      case Ok(path) =>
        if |amounts| > HARDENED then Err(Panic)
        else Ok(KeySetInfo(IdOf(kc, path, amounts), unit, true, path, Some(index), amounts, feePpk))
  }

  /** What a phase of a boot does for one unit: it fails, leaves the unit alone, or activates a keyset. */
  type Choice = Result<Option<KeySetInfo>, BootError>

  function Chosen(info: Result<KeySetInfo, BootError>): Choice {
    match info
    case Err(e) => Err(e)
    case Ok(i) => Ok(Some(i))
  }

  /** One unit of `init_keysets`: the keyset with the highest index is activated again if it has
      the expected fee and number of amounts, otherwise a new one with the same amounts follows it. */
  function InitChoice(kc: Keychain, rows: seq<KeySetInfo>, unit: CurrencyUnit, cfg: Config): Choice
    requires kc.group.q > 0
  {
    var top := Highest(rows, unit);
    if top.None? || unit !in cfg.supported then Ok(None)
    else
      var (feePpk, maxOrder) := cfg.supported[unit];
      if top.value.index.Some? && top.value.feePpk == feePpk && |top.value.amounts| == maxOrder then Ok(top)
      else
        var index := if top.value.index.None? then 1 else top.value.index.value + 1;
        Chosen(NewInfo(kc, cfg.custom, unit, index, top.value.amounts, feePpk))
  }

  /** The units passed to a boot, with the auth unit added if it is missing. */
  function Supported(cfg: Config): map<CurrencyUnit, (nat, nat)> {
    if Auth in cfg.supported then cfg.supported else cfg.supported[Auth := (0, 1)]
  }

  /** One supported unit of `DbSignatory::new`: the first keyset of a unit that `init_keysets` did
      not activate. */
  function CreateChoice(kc: Keychain, rows: seq<KeySetInfo>, unit: CurrencyUnit, cfg: Config): Choice
    requires kc.group.q > 0
  {
    if (unit in cfg.supported && Highest(rows, unit).Some?) || unit !in Supported(cfg) then Ok(None)
    else
      var (feePpk, maxOrder) := Supported(cfg)[unit];
      if NewPath(cfg.custom, unit, 0).Ok? && maxOrder > 64 then Err(Panic)
      else Chosen(NewInfo(kc, cfg.custom, unit, 0, AmountTheorems.Keyset(maxOrder), feePpk))
  }

  /** The choices of a phase, carried out one after the other. */
  function Apply(s: Store, choices: seq<Choice>): Result<Store, BootError>
    decreases |choices|
  {
    if choices == [] then Ok(s)
    else match choices[0]
      case Err(e) => Err(e)
      case Ok(None) => Apply(s, choices[1..])
      case Ok(Some(info)) => Apply(Activate(s, info), choices[1..])
  }

  function InitChoices(kc: Keychain, rows: seq<KeySetInfo>, order: seq<CurrencyUnit>, cfg: Config): (r: seq<Choice>)
    requires kc.group.q > 0
    ensures |r| == |order|
    ensures forall i :: 0 <= i < |order| ==> r[i] == InitChoice(kc, rows, order[i], cfg)
  {
    seq(|order|, i requires 0 <= i < |order| => InitChoice(kc, rows, order[i], cfg))
  }

  function CreateChoices(kc: Keychain, rows: seq<KeySetInfo>, order: seq<CurrencyUnit>, cfg: Config): (r: seq<Choice>)
    requires kc.group.q > 0
    ensures |r| == |order|
    ensures forall i :: 0 <= i < |order| ==> r[i] == CreateChoice(kc, rows, order[i], cfg)
  {
    seq(|order|, i requires 0 <= i < |order| => CreateChoice(kc, rows, order[i], cfg))
  }

  /** Each phase of a boot is one transaction: what a failure leaves is the store before it. */
  datatype Outcome = Outcome(store: Store, error: Option<BootError>)

  function Boot(kc: Keychain, s: Store, rows: seq<KeySetInfo>, initOrder: seq<CurrencyUnit>,
                createOrder: seq<CurrencyUnit>, cfg: Config): Outcome
    requires kc.group.q > 0
  {
    match Apply(Deactivate(s), InitChoices(kc, rows, initOrder, cfg))
    case Err(e) => Outcome(s, Some(e))
    case Ok(s1) =>
      match Apply(s1, CreateChoices(kc, rows, createOrder, cfg))
      case Err(e) => Outcome(s1, Some(e))
      case Ok(s2) => Outcome(s2, None)
  }

  /** The store between the two transactions of a boot. */
  function Halfway(kc: Keychain, s: Store, rows: seq<KeySetInfo>, initOrder: seq<CurrencyUnit>, cfg: Config): Store
    requires kc.group.q > 0
  {
    match Apply(Deactivate(s), InitChoices(kc, rows, initOrder, cfg))
    case Err(_) => s
    case Ok(s1) => s1
  }

  /** The iteration orders of a boot: each unit with stored keysets once, each supported unit once. */
  ghost predicate Orders(rows: seq<KeySetInfo>, initOrder: seq<CurrencyUnit>, createOrder: seq<CurrencyUnit>,
                         cfg: Config) {
    && (forall u :: u in initOrder <==> Highest(rows, u).Some?)
    && (forall u :: u in createOrder <==> u in Supported(cfg))
    && (forall i, j :: 0 <= i < j < |initOrder| ==> initOrder[i] != initOrder[j])
    && (forall i, j :: 0 <= i < j < |createOrder| ==> createOrder[i] != createOrder[j])
  }

  // ----- Rotation -----

  datatype RotateArguments = RotateArguments(unit: CurrencyUnit, amounts: seq<nat>, feePpk: nat)

  /** `get_active_keyset_id` with `get_keyset_info`: the first active row of the unit. */
  function ActiveRow(rows: seq<KeySetInfo>, unit: CurrencyUnit): Option<KeySetInfo> {
    if rows == [] then None
    else if rows[0].unit == unit && rows[0].active then Some(rows[0])
    else ActiveRow(rows[1..], unit)
  }

  function RotationIndex(rows: seq<KeySetInfo>, unit: CurrencyUnit): nat {
    match ActiveRow(rows, unit)
    case None => 1
    case Some(row) => (if row.index.Some? then row.index.value else 1) + 1
  }

  function Rotate(kc: Keychain, s: Store, rows: seq<KeySetInfo>, args: RotateArguments,
                  custom: map<CurrencyUnit, Path>): Outcome
    requires kc.group.q > 0
  {
    match NewInfo(kc, custom, args.unit, RotationIndex(rows, args.unit), args.amounts, args.feePpk)
    case Err(e) => Outcome(s, Some(e))
    case Ok(info) => Outcome(Activate(s, info), None)
  }

  // ----- Reload -----

  /** `get_active_keysets`: of several active rows of a unit the last one listed. */
  function ActiveMap(rows: seq<KeySetInfo>): map<CurrencyUnit, nat> {
    if rows == [] then map[]
    else
      var front, last := rows[..|rows| - 1], rows[|rows| - 1];
      if last.active then ActiveMap(front)[last.unit := last.id] else ActiveMap(front)
  }

  function LoadRow(kc: Keychain, row: KeySetInfo, active: map<CurrencyUnit, nat>): Loaded
    requires kc.group.q > 0
  {
    Loaded(row.(active := row.unit in active && active[row.unit] == row.id),
           Generate(kc, row.path, row.unit, row.amounts))
  }

  /** `reload_keys_from_db`. */
  function Reload(kc: Keychain, rows: seq<KeySetInfo>, active: map<CurrencyUnit, nat>): Memory
    requires kc.group.q > 0
  {
    if rows == [] then map[]
    else
      var front, last := rows[..|rows| - 1], rows[|rows| - 1];
      Reload(kc, front, active)[last.id := LoadRow(kc, last, active)]
  }

  // ----- Listings -----

  lemma {:induction false} HighestIsHighest(rows: seq<KeySetInfo>, unit: CurrencyUnit)
    ensures Highest(rows, unit).None? <==> forall i :: 0 <= i < |rows| ==> rows[i].unit != unit
    ensures Highest(rows, unit).Some? ==>
              var top := Highest(rows, unit).value;
              && top in rows && top.unit == unit
              && forall i :: 0 <= i < |rows| && rows[i].unit == unit ==> !Below(top.index, rows[i].index)
  {
    if rows != [] {
      HighestIsHighest(rows[1..], unit);
      assert forall i :: 0 < i < |rows| ==> rows[i] == rows[1..][i - 1];
    }
  }

  lemma {:induction false} ActiveRowIsActive(rows: seq<KeySetInfo>, unit: CurrencyUnit)
    ensures match ActiveRow(rows, unit)
            case None => forall i :: 0 <= i < |rows| ==> !(rows[i].unit == unit && rows[i].active)
            case Some(row) => row in rows && row.unit == unit && row.active
  {
    if rows != [] {
      ActiveRowIsActive(rows[1..], unit);
      assert forall i :: 0 < i < |rows| ==> rows[i] == rows[1..][i - 1];
    }
  }
}
