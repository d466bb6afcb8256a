/** The signatory and its database as objects: the loops of `init_keysets`, `DbSignatory::new`,
    `reload_keys_from_db` and `rotate_keyset` carry out exactly the changes of module KeysetStore.
    The listings and iteration orders that a call happened to use are ghost results. */
module Signatory {
  import opened Wrappers
  import opened BlindSignature
  import opened Issuance
  import opened KeysetStore
  import opened KeysetTheorems

  class KeysDatabase {
    var infos: Store

    constructor ()
      ensures infos == map[]
    {
      infos := map[];
    }

    /** `get_keyset_infos`: all rows, in an order of the database's choosing. */
    method GetKeysetInfos() returns (rows: seq<KeySetInfo>)
      requires forall id :: id in infos ==> infos[id].id == id
      ensures Lists(rows, infos)
    {
      rows := [];
      var left := infos.Keys;
      while left != {}
        invariant left <= infos.Keys
        invariant forall i :: 0 <= i < |rows| ==> rows[i].id in infos && infos[rows[i].id] == rows[i]
        invariant forall id :: id in infos && id !in left ==> infos[id] in rows
        decreases |left|
      {
        var id :| id in left;
        assert forall x :: x in infos && x !in left ==> infos[x] in rows + [infos[id]];
        assert infos[id] in rows + [infos[id]];
        rows := rows + [infos[id]];
        left := left - {id};
      }
    }
  }

  /** The keys of a hash map, in an order of its choosing. */
  method Iterate(units: set<CurrencyUnit>) returns (order: seq<CurrencyUnit>)
    ensures forall u :: u in order <==> u in units
    ensures forall i, j :: 0 <= i < j < |order| ==> order[i] != order[j]
  {
    order := [];
    var left := units;
    while left != {}
      invariant left <= units
      invariant forall u :: u in order <==> u in units && u !in left
      invariant forall i, j :: 0 <= i < j < |order| ==> order[i] != order[j]
      decreases |left|
    {
      var u :| u in left;
      order := order + [u];
      left := left - {u};
    }
  }

  /** The units with stored keysets, in an order of the hash map's choosing. */
  method StoredUnits(rows: seq<KeySetInfo>) returns (order: seq<CurrencyUnit>)
    ensures forall u :: u in order <==> Highest(rows, u).Some?
    ensures forall i, j :: 0 <= i < j < |order| ==> order[i] != order[j]
  {
    order := Iterate(set row | row in rows :: row.unit);
    forall u ensures u in order <==> Highest(rows, u).Some? {
      HighestIsHighest(rows, u);
    }
  }

  /** Every row written back as inactive, inside the transaction. */
  method DeactivateRows(s: Store, rows: seq<KeySetInfo>) returns (tx: Store)
    requires Lists(rows, s) && forall id :: id in s ==> s[id].id == id
    ensures tx == Deactivate(s)
  {
    tx := s;
    var i := 0;
    while i < |rows|
      invariant 0 <= i <= |rows|
      invariant tx.Keys == s.Keys
      invariant forall x :: x in s ==> tx[x] == s[x] || tx[x] == s[x].(active := false)
      invariant forall j :: 0 <= j < i ==> tx[rows[j].id] == rows[j].(active := false)
    {
      tx := Upsert(tx, rows[i].(active := false));
      i := i + 1;
    }
    forall x | x in s ensures tx[x] == s[x].(active := false) {
      var j :| 0 <= j < |rows| && rows[j] == s[x];
    }
  }

  /** The choices of a phase, carried out in a transaction that is committed only if none fails. */
  method RunPhase(db: KeysDatabase, start: Store, choices: seq<Choice>) returns (error: Option<BootError>)
    modifies db
    ensures match Apply(start, choices)
            case Ok(s) => error == None && db.infos == s
            case Err(e) => error == Some(e) && db.infos == old(db.infos)
  {
    var tx := start;
    var i := 0;
    assert choices[0..] == choices;
    while i < |choices|
      invariant 0 <= i <= |choices|
      invariant Apply(start, choices) == Apply(tx, choices[i..])
      invariant db.infos == old(db.infos)
    {
      assert choices[i..][1..] == choices[i + 1..];
      if choices[i].Err? {
        return Some(choices[i].error);
      }
      if choices[i].value.Some? {
        tx := Activate(tx, choices[i].value.value);
      }
      i := i + 1;
    }
    db.infos := tx;
    error := None;
  }

  /** The loop over the rows (crates/cdk-signatory/src/db_signatory.rs:117-130). */
  method FillMaps(kc: Keychain, rows: seq<KeySetInfo>, active: map<CurrencyUnit, nat>)
    returns (keysets: Memory, activeKeysets: map<CurrencyUnit, nat>)
    requires kc.group.q > 0 && active == ActiveMap(rows)
    ensures keysets == Reload(kc, rows, active)
    ensures activeKeysets == active
  {
    keysets, activeKeysets := map[], map[];
    var i := 0;
    while i < |rows|
      invariant 0 <= i <= |rows|
      invariant keysets == Reload(kc, rows[..i], active)
      invariant forall u :: u in activeKeysets ==> u in active && activeKeysets[u] == active[u]
      invariant forall j :: 0 <= j < i && rows[j].unit in active && active[rows[j].unit] == rows[j].id ==>
                  rows[j].unit in activeKeysets
    {
      var row := rows[i];
      var loaded := LoadRow(kc, row, active);
      if loaded.info.active {
        activeKeysets := activeKeysets[row.unit := row.id];
      }
      assert rows[..i + 1][..i] == rows[..i];
      keysets := keysets[row.id := loaded];
      i := i + 1;
    }
    assert rows[..i] == rows;
    ActiveMapHolds(rows);
  }

  class DbSignatory {
    const kc: Keychain
    const custom: map<CurrencyUnit, Path>
    const db: KeysDatabase
    var keysets: Memory
    var activeKeysets: map<CurrencyUnit, nat>

    constructor (kc: Keychain, custom: map<CurrencyUnit, Path>, db: KeysDatabase)
      ensures this.kc == kc && this.custom == custom && this.db == db
    {
      this.kc, this.custom, this.db := kc, custom, db;
      keysets, activeKeysets := map[], map[];
    }

    /** Memory is what the store says. */
    ghost predicate Valid()
      reads this, db
    {
      && kc.group.q > 0 && WellFormed(kc, db.infos) && OneActive(db.infos)
      && Agrees(kc, db.infos, keysets, activeKeysets)
    }

    /** `DbSignatory::new`. */
    static method New(kc: Keychain, db: KeysDatabase, cfg: Config)
      returns (r: Result<DbSignatory, BootError>, ghost rows: seq<KeySetInfo>,
               ghost initOrder: seq<CurrencyUnit>, ghost createOrder: seq<CurrencyUnit>)
      requires kc.group.q > 0 && WellFormed(kc, db.infos)
      modifies db
      ensures Lists(rows, old(db.infos)) && Orders(rows, initOrder, createOrder, cfg)
      ensures var o := Boot(kc, old(db.infos), rows, initOrder, createOrder, cfg);
              && db.infos == o.store
              && match o.error
                 case Some(e) => r == Err(e)
                 case None => r.Ok? && fresh(r.value) && r.value.db == db && r.value.kc == kc
                              && r.value.custom == cfg.custom && r.value.Valid()
    {
      var listing := db.GetKeysetInfos();
      var first := StoredUnits(listing);
      var second := Iterate(Supported(cfg).Keys);
      rows, initOrder, createOrder := listing, first, second;
      BootWellFormed(kc, db.infos, rows, initOrder, createOrder, cfg);
      BootOneActive(kc, db.infos, rows, initOrder, createOrder, cfg);
      var inactive := DeactivateRows(db.infos, listing);
      var error := RunPhase(db, inactive, InitChoices(kc, listing, first, cfg));
      if error.Some? {
        return Err(error.value), rows, initOrder, createOrder;
      }
      error := RunPhase(db, db.infos, CreateChoices(kc, listing, second, cfg));
      if error.Some? {
        return Err(error.value), rows, initOrder, createOrder;
      }
      var s := new DbSignatory(kc, cfg.custom, db);
      s.ReloadKeys();
      r := Ok(s);
    }

    /** `reload_keys_from_db`: both maps are cleared and filled again. */
    method ReloadKeys()
      requires kc.group.q > 0 && WellFormed(kc, db.infos) && OneActive(db.infos)
      modifies this
      ensures Valid()
    {
      var rows := db.GetKeysetInfos();
      keysets, activeKeysets := FillMaps(kc, rows, ActiveMap(rows));
      MemoryAgreesWithStore(kc, db.infos, rows);
    }

    /** `rotate_keyset`. */
    method RotateKeyset(args: RotateArguments) returns (r: Result<Loaded, BootError>, ghost rows: seq<KeySetInfo>)
      requires Valid()
      modifies this, db
      ensures Valid()
      ensures Lists(rows, old(db.infos))
      ensures var o := Rotate(kc, old(db.infos), rows, args, custom);
              && db.infos == o.store
              && match o.error
                 case Some(e) => r == Err(e) && keysets == old(keysets) && activeKeysets == old(activeKeysets)
                 case None => && r.Ok? && r.value.info.id in db.infos && db.infos[r.value.info.id] == r.value.info
                              && r.value.info.active && r.value.info.unit == args.unit
                              && r.value.info.index == Some(RotationIndex(rows, args.unit))
                              && r.value == keysets[r.value.info.id]
    {
      var listing := db.GetKeysetInfos();
      rows := listing;
      var info := NewInfo(kc, custom, args.unit, RotationIndex(listing, args.unit), args.amounts, args.feePpk);
      if info.Err? {
        return Err(info.error), rows;
      }
      RotateWellFormed(kc, db.infos, rows, args, custom);
      RotateOneActive(kc, db.infos, rows, args, custom);
      ActivateOne(db.infos, info.value);
      db.infos := Activate(db.infos, info.value);
      ReloadKeys();
      r := Ok(Loaded(info.value, Generate(kc, info.value.path, args.unit, args.amounts)));
    }
  }

  // ----- The service -----

  datatype Request =
    | SignRequest(messages: seq<BlindedMessage>)
    | VerifyRequest(proofs: seq<Proof>)
    | KeysetsRequest
    | RotateRequest(args: RotateArguments)

  datatype Reply =
    | Signed(signed: Result<seq<Promise>, SignError>)
    | Verified(verified: Result<(), SignError>)
    | Listed(keysets: Memory)
    | Rotated(rotated: Result<Loaded, BootError>)

  /** What the signatory holds between two requests. */
  datatype Held = Held(store: Store, memory: Memory, active: map<CurrencyUnit, nat>)

  ghost function Now(handler: DbSignatory): Held
    reads handler, handler.db
  {
    Held(handler.db.infos, handler.keysets, handler.activeKeysets)
  }

  /** One request takes the signatory from `h` to `h'` with this reply. */
  ghost predicate Serves(c: Curve, kc: Keychain, custom: map<CurrencyUnit, Path>, h: Held, q: Request,
                         reply: Reply, h': Held)
    requires kc.group.q > 0 && c.group == kc.group
  {
    match q
    case SignRequest(messages) => h' == h && reply == Signed(BlindSign(kc.group, h.memory, messages))
    case VerifyRequest(proofs) => h' == h && reply == Verified(VerifyProofs(c, h.memory, proofs))
    case KeysetsRequest => h' == h && reply == Listed(h.memory)
    case RotateRequest(args) =>
      && reply.Rotated?
      && exists rows :: Lists(rows, h.store) && RotatesTo(kc, custom, h, args, rows, reply.rotated, h')
  }

  ghost predicate RotatesTo(kc: Keychain, custom: map<CurrencyUnit, Path>, h: Held, args: RotateArguments,
                            rows: seq<KeySetInfo>, r: Result<Loaded, BootError>, h': Held)
    requires kc.group.q > 0
  {
    var o := Rotate(kc, h.store, rows, args, custom);
    && h'.store == o.store
    && match o.error
       case Some(e) => r == Err(e) && h' == h
       case None => && r.Ok? && r.value.info.id in h'.memory && h'.memory[r.value.info.id] == r.value
                    && r.value.info.index == Some(RotationIndex(rows, args.unit))
  }

  ghost predicate ServesAt(c: Curve, kc: Keychain, custom: map<CurrencyUnit, Path>, held: seq<Held>,
                           requests: seq<Request>, replies: seq<Reply>, i: nat)
    requires kc.group.q > 0 && c.group == kc.group
    requires |held| == |replies| + 1 && |replies| <= |requests| && i < |replies|
  {
    Serves(c, kc, custom, held[i], requests[i], replies[i], held[i + 1])
  }

  /** `Service::runner`: requests are taken from the queue one at a time, each on the store and memory
      that the one before it left, and answered in order. */
  method Runner(handler: DbSignatory, c: Curve, requests: seq<Request>)
    returns (replies: seq<Reply>, ghost held: seq<Held>)
    requires handler.Valid() && c.group == handler.kc.group
    modifies handler, handler.db
    ensures handler.Valid()
    ensures |replies| == |requests| && |held| == |requests| + 1
    ensures held[0] == old(Now(handler)) && held[|requests|] == Now(handler)
    ensures ServesAll(c, handler.kc, handler.custom, held, requests, replies)
  {
    replies := [];
    held := [Now(handler)];
    while |replies| < |requests|
      invariant handler.Valid() && |replies| <= |requests| && |held| == |replies| + 1
      invariant held[0] == old(Now(handler)) && held[|replies|] == Now(handler)
      invariant ServesAll(c, handler.kc, handler.custom, held, requests, replies)
    {
      var reply := Answer(handler, c, requests[|replies|]);
      OneMoreServed(c, handler.kc, handler.custom, held, requests, replies, reply, Now(handler));
      held, replies := held + [Now(handler)], replies + [reply];
    }
  }

  ghost predicate ServesAll(c: Curve, kc: Keychain, custom: map<CurrencyUnit, Path>, held: seq<Held>,
                            requests: seq<Request>, replies: seq<Reply>)
    requires kc.group.q > 0 && c.group == kc.group
    requires |held| == |replies| + 1 && |replies| <= |requests|
  {
    forall i :: 0 <= i < |replies| ==> ServesAt(c, kc, custom, held, requests, replies, i)
  }

  lemma OneMoreServed(c: Curve, kc: Keychain, custom: map<CurrencyUnit, Path>, held: seq<Held>,
                      requests: seq<Request>, replies: seq<Reply>, reply: Reply, h: Held)
    requires kc.group.q > 0 && c.group == kc.group
    requires |held| == |replies| + 1 && |replies| < |requests| && ServesAll(c, kc, custom, held, requests, replies)
    requires Serves(c, kc, custom, held[|replies|], requests[|replies|], reply, h)
    ensures ServesAll(c, kc, custom, held + [h], requests, replies + [reply])
  {
    forall i | 0 <= i <= |replies| ensures ServesAt(c, kc, custom, held + [h], requests, replies + [reply], i) {
      if i < |replies| {
        assert ServesAt(c, kc, custom, held, requests, replies, i);
      }
    }
  }

  /** One request of the loop. */
  method Answer(handler: DbSignatory, c: Curve, q: Request) returns (reply: Reply)
    requires handler.Valid() && c.group == handler.kc.group
    modifies handler, handler.db
    ensures handler.Valid()
    ensures Serves(c, handler.kc, handler.custom, old(Now(handler)), q, reply, Now(handler))
  {
    match q
    case SignRequest(messages) => reply := Signed(BlindSign(handler.kc.group, handler.keysets, messages));
    case VerifyRequest(proofs) => reply := Verified(VerifyProofs(c, handler.keysets, proofs));
    case KeysetsRequest => reply := Listed(handler.keysets);
    case RotateRequest(args) =>
      ghost var rows;
      ghost var h := Now(handler);
      var r;
      r, rows := handler.RotateKeyset(args);
      reply := Rotated(r);
      assert RotatesTo(handler.kc, handler.custom, h, args, rows, r, Now(handler));
  }
}
