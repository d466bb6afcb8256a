/** What every boot and rotation keeps: ids stay ids of their keys, a unit has at most one active
    keyset, memory agrees with the store; and exactly when they keep the keys behind an id. */
module KeysetTheorems {
  import opened Wrappers
  import opened Issuance
  import opened KeysetStore
  import opened KeysetIds
  import Amount
  import AmountTheorems

  // ----- Ids are ids of their keys -----

  ghost predicate WellFormed(kc: Keychain, s: Store)
    requires kc.group.q > 0
  {
    forall id :: id in s ==> s[id].id == id && RowIdOk(kc, s[id])
  }

  ghost predicate ChoicesIdOk(kc: Keychain, choices: seq<Choice>)
    requires kc.group.q > 0
  {
    forall i :: 0 <= i < |choices| && choices[i].Ok? && choices[i].value.Some? ==> RowIdOk(kc, choices[i].value.value)
  }

  lemma ActivateWellFormed(kc: Keychain, s: Store, info: KeySetInfo)
    requires kc.group.q > 0 && WellFormed(kc, s) && RowIdOk(kc, info)
    ensures WellFormed(kc, Activate(s, info))
  {
  }

  lemma {:induction false} ApplyWellFormed(kc: Keychain, s: Store, choices: seq<Choice>)
    requires kc.group.q > 0 && WellFormed(kc, s) && ChoicesIdOk(kc, choices)
    ensures Apply(s, choices).Ok? ==> WellFormed(kc, Apply(s, choices).value)
    decreases |choices|
  {
    if choices != [] && choices[0].Ok? {
      assert ChoicesIdOk(kc, choices[1..]);
      if choices[0].value.Some? {
        ActivateWellFormed(kc, s, choices[0].value.value);
        ApplyWellFormed(kc, Activate(s, choices[0].value.value), choices[1..]);
      } else {
        ApplyWellFormed(kc, s, choices[1..]);
      }
    }
  }

  lemma ChosenIdsOk(kc: Keychain, rows: seq<KeySetInfo>, order: seq<CurrencyUnit>, cfg: Config)
    requires kc.group.q > 0
    requires forall i :: 0 <= i < |rows| ==> RowIdOk(kc, rows[i])
    ensures ChoicesIdOk(kc, InitChoices(kc, rows, order, cfg)) && ChoicesIdOk(kc, CreateChoices(kc, rows, order, cfg))
  {
    forall i | 0 <= i < |order| && InitChoice(kc, rows, order[i], cfg).Ok?
        && InitChoice(kc, rows, order[i], cfg).value.Some?
      ensures RowIdOk(kc, InitChoice(kc, rows, order[i], cfg).value.value)
    {
      HighestIsHighest(rows, order[i]);
    }
  }

  /** Whatever the units, orders and failures of a boot. */
  lemma BootWellFormed(kc: Keychain, s: Store, rows: seq<KeySetInfo>, initOrder: seq<CurrencyUnit>,
                       createOrder: seq<CurrencyUnit>, cfg: Config)
    requires kc.group.q > 0 && WellFormed(kc, s) && Lists(rows, s)
    ensures WellFormed(kc, Boot(kc, s, rows, initOrder, createOrder, cfg).store)
    ensures WellFormed(kc, Halfway(kc, s, rows, initOrder, cfg))
  {
    ChosenIdsOk(kc, rows, initOrder, cfg);
    ChosenIdsOk(kc, rows, createOrder, cfg);
    ApplyWellFormed(kc, Deactivate(s), InitChoices(kc, rows, initOrder, cfg));
    var s1 := Apply(Deactivate(s), InitChoices(kc, rows, initOrder, cfg));
    if s1.Ok? {
      ApplyWellFormed(kc, s1.value, CreateChoices(kc, rows, createOrder, cfg));
    }
  }

  lemma RotateWellFormed(kc: Keychain, s: Store, rows: seq<KeySetInfo>, args: RotateArguments,
                         custom: map<CurrencyUnit, Path>)
    requires kc.group.q > 0 && WellFormed(kc, s)
    ensures WellFormed(kc, Rotate(kc, s, rows, args, custom).store)
  {
    var info := NewInfo(kc, custom, args.unit, RotationIndex(rows, args.unit), args.amounts, args.feePpk);
    if info.Ok? {
      ActivateWellFormed(kc, s, info.value);
    }
  }

  // ----- When the keys behind an id are kept -----

  /** No row disappears, and the public keys behind an id and their amounts do not change. */
  ghost predicate KeepsKeys(kc: Keychain, s: Store, t: Store)
    requires kc.group.q > 0
  {
    forall id :: id in s ==> id in t && Pubs(kc, t[id]) == Pubs(kc, s[id])
  }

  /** The row is not stored, or stored with the same amounts. */
  predicate SameAmountsIfStored(s: Store, info: KeySetInfo) {
    info.id in s ==> InOrder(s[info.id].amounts) == InOrder(info.amounts)
  }

  lemma ActivateKeepsKeysIff(kc: Keychain, s: Store, info: KeySetInfo)
    requires kc.Valid() && WellFormed(kc, s) && RowIdOk(kc, info)
    ensures KeepsKeys(kc, s, Activate(s, info)) <==> SameAmountsIfStored(s, info)
  {
    OthersKeepKeys(kc, s, info);
    if info.id in s {
      SamePubsIff(kc, s[info.id], info);
    }
  }

  lemma OthersKeepKeys(kc: Keychain, s: Store, info: KeySetInfo)
    requires kc.group.q > 0
    ensures var t := Activate(s, info);
            && Pubs(kc, t[info.id]) == Pubs(kc, info)
            && forall id :: id in s && id != info.id ==> id in t && Pubs(kc, t[id]) == Pubs(kc, s[id])
  {
    var t := Activate(s, info);
    SamePubsUpToFlag(kc, info, t[info.id]);
    forall id | id in s && id != info.id ensures id in t && Pubs(kc, t[id]) == Pubs(kc, s[id]) {
      SamePubsUpToFlag(kc, s[id], t[id]);
    }
  }

  /** A rotation keeps the keys behind every id if and only if it fails, or the id of the new keyset is
      not stored, or is stored with the same amounts. */
  lemma RotateKeepsKeysIff(kc: Keychain, s: Store, rows: seq<KeySetInfo>, args: RotateArguments,
                           custom: map<CurrencyUnit, Path>)
    requires kc.Valid() && WellFormed(kc, s)
    ensures var info := NewInfo(kc, custom, args.unit, RotationIndex(rows, args.unit), args.amounts, args.feePpk);
            KeepsKeys(kc, s, Rotate(kc, s, rows, args, custom).store)
            <==> info.Err? || SameAmountsIfStored(s, info.value)
  {
    var info := NewInfo(kc, custom, args.unit, RotationIndex(rows, args.unit), args.amounts, args.feePpk);
    if info.Ok? {
      ActivateKeepsKeysIff(kc, s, info.value);
    }
  }

  /** The last keyset with this id among the choices. */
  function LastChosen(choices: seq<Choice>, id: nat): Option<KeySetInfo>
    decreases |choices|
  {
    if choices == [] then None
    else
      var c := choices[|choices| - 1];
      if c.Ok? && c.value.Some? && c.value.value.id == id then c.value
      else LastChosen(choices[..|choices| - 1], id)
  }

  lemma {:induction false} ApplyConcat(s: Store, xs: seq<Choice>, ys: seq<Choice>)
    ensures Apply(s, xs + ys) == if Apply(s, xs).Ok? then Apply(Apply(s, xs).value, ys) else Apply(s, xs)
    decreases |xs|
  {
    if xs == [] {
      assert xs + ys == ys;
    } else if xs[0].Ok? {
      assert (xs + ys)[1..] == xs[1..] + ys;
      ApplyConcat(if xs[0].value.Some? then Activate(s, xs[0].value.value) else s, xs[1..], ys);
    }
  }

  lemma {:induction false} ApplyOkIff(s: Store, choices: seq<Choice>)
    ensures Apply(s, choices).Ok? <==> forall i :: 0 <= i < |choices| ==> choices[i].Ok?
    decreases |choices|
  {
    if choices != [] && choices[0].Ok? {
      var t := if choices[0].value.Some? then Activate(s, choices[0].value.value) else s;
      ApplyOkIff(t, choices[1..]);
      assert forall i :: 0 < i < |choices| ==> choices[i] == choices[1..][i - 1];
    }
  }

  /** What the choices make of a row: the last one chosen for its id, or the old one. */
  lemma {:induction false} ApplyRow(s: Store, choices: seq<Choice>, id: nat)
    requires Apply(s, choices).Ok? && id in s
    ensures var t := Apply(s, choices).value;
            && id in t
            && t[id] == (if LastChosen(choices, id).Some? then LastChosen(choices, id).value
                else s[id]).(active := t[id].active)
    decreases |choices|
  {
    if choices != [] {
      var front, last := choices[..|choices| - 1], choices[|choices| - 1];
      assert choices == front + [last];
      ApplyConcat(s, front, [last]);
      ApplyRow(s, front, id);
      var m := Apply(s, front).value;
      assert [last][1..] == [];
      if last.Ok? && last.value.Some? {
        assert Apply(s, choices).value == Activate(m, last.value.value);
      } else {
        assert Apply(s, choices).value == m;
      }
    }
  }

  /** A boot that succeeds keeps the keys behind every id if and only if no stored id is chosen last with
      other amounts. */
  lemma BootKeepsKeysIff(kc: Keychain, s: Store, rows: seq<KeySetInfo>, initOrder: seq<CurrencyUnit>,
                         createOrder: seq<CurrencyUnit>, cfg: Config)
    requires kc.Valid() && WellFormed(kc, s) && Lists(rows, s)
    requires Boot(kc, s, rows, initOrder, createOrder, cfg).error.None?
    ensures var choices := InitChoices(kc, rows, initOrder, cfg) + CreateChoices(kc, rows, createOrder, cfg);
            KeepsKeys(kc, s, Boot(kc, s, rows, initOrder, createOrder, cfg).store)
            <==> forall id :: id in s && LastChosen(choices, id).Some? ==>
                   InOrder(LastChosen(choices, id).value.amounts) == InOrder(s[id].amounts)
  {
    var choices := InitChoices(kc, rows, initOrder, cfg) + CreateChoices(kc, rows, createOrder, cfg);
    ChosenIdsOk(kc, rows, initOrder, cfg);
    ChosenIdsOk(kc, rows, createOrder, cfg);
    ApplyConcat(Deactivate(s), InitChoices(kc, rows, initOrder, cfg), CreateChoices(kc, rows, createOrder, cfg));
    forall id | id in s
      ensures id in Boot(kc, s, rows, initOrder, createOrder, cfg).store
      ensures Pubs(kc, Boot(kc, s, rows, initOrder, createOrder, cfg).store[id]) == Pubs(kc, s[id])
              <==> (LastChosen(choices, id).Some? ==>
                  InOrder(LastChosen(choices, id).value.amounts) == InOrder(s[id].amounts))
    {
      ChosenRow(kc, s, choices, id);
    }
  }

  lemma ChosenRow(kc: Keychain, s: Store, choices: seq<Choice>, id: nat)
    requires kc.Valid() && WellFormed(kc, s) && ChoicesIdOk(kc, choices) && id in s && Apply(Deactivate(s), choices).Ok?
    ensures var t, last := Apply(Deactivate(s), choices).value, LastChosen(choices, id);
            && id in t
            && (Pubs(kc, t[id]) == Pubs(kc, s[id])
                <==> (last.Some? ==> InOrder(last.value.amounts) == InOrder(s[id].amounts)))
  {
    ApplyRow(Deactivate(s), choices, id);
    var t, last := Apply(Deactivate(s), choices).value, LastChosen(choices, id);
    if last.Some? {
      LastChosenIdOk(kc, choices, id);
      SamePubsIff(kc, s[id], last.value);
      assert Pubs(kc, t[id]) == Pubs(kc, last.value);
    } else {
      assert Pubs(kc, t[id]) == Pubs(kc, s[id]);
    }
  }

  lemma {:induction false} LastChosenIdOk(kc: Keychain, choices: seq<Choice>, id: nat)
    requires kc.group.q > 0 && ChoicesIdOk(kc, choices) && LastChosen(choices, id).Some?
    ensures LastChosen(choices, id).value.id == id && RowIdOk(kc, LastChosen(choices, id).value)
    decreases |choices|
  {
    var c := choices[|choices| - 1];
    if !(c.Ok? && c.value.Some? && c.value.value.id == id) {
      assert ChoicesIdOk(kc, choices[..|choices| - 1]);
      LastChosenIdOk(kc, choices[..|choices| - 1], id);
    }
  }

  // ----- A rule that keeps the keys -----

  /** Lists in use that have equally many different amounts have the same ones. */
  ghost predicate Uniform(allowed: seq<nat> -> bool) {
    forall a, b :: allowed(a) && allowed(b) && |InOrder(a)| == |InOrder(b)| ==> InOrder(a) == InOrder(b)
  }

  ghost predicate AllAllowed(s: Store, allowed: seq<nat> -> bool) {
    forall id :: id in s ==> allowed(s[id].amounts)
  }

  /** What a boot may create. */
  ghost predicate ConfigAllowed(cfg: Config, allowed: seq<nat> -> bool) {
    forall u :: u in Supported(cfg) ==> allowed(AmountTheorems.Keyset(Supported(cfg)[u].1))
  }

  ghost predicate ChoicesAllowed(choices: seq<Choice>, allowed: seq<nat> -> bool) {
    forall i :: 0 <= i < |choices| && choices[i].Ok? && choices[i].value.Some? ==>
        allowed(choices[i].value.value.amounts)
  }

  lemma ActivateKeepsKeys(kc: Keychain, s: Store, info: KeySetInfo, allowed: seq<nat> -> bool)
    requires kc.Valid() && WellFormed(kc, s) && RowIdOk(kc, info)
    requires Uniform(allowed) && AllAllowed(s, allowed) && allowed(info.amounts)
    ensures KeepsKeys(kc, s, Activate(s, info)) && AllAllowed(Activate(s, info), allowed)
  {
    ActivateKeepsKeysIff(kc, s, info);
    if info.id in s {
      SamePubsIff(kc, s[info.id], info);
    }
  }

  lemma KeepsKeysTwice(kc: Keychain, s: Store, t: Store, r: Store)
    requires kc.group.q > 0 && KeepsKeys(kc, s, t) && KeepsKeys(kc, t, r)
    ensures KeepsKeys(kc, s, r)
  {
  }

  lemma {:induction false} ApplyKeepsKeys(kc: Keychain, s: Store, choices: seq<Choice>, allowed: seq<nat> -> bool)
    requires kc.Valid() && WellFormed(kc, s) && ChoicesIdOk(kc, choices)
    requires Uniform(allowed) && AllAllowed(s, allowed) && ChoicesAllowed(choices, allowed)
    ensures Apply(s, choices).Ok? ==>
              KeepsKeys(kc, s, Apply(s, choices).value) && AllAllowed(Apply(s, choices).value, allowed)
    decreases |choices|
  {
    if choices != [] && choices[0].Ok? {
      assert ChoicesIdOk(kc, choices[1..]) && ChoicesAllowed(choices[1..], allowed);
      if choices[0].value.Some? {
        var t := Activate(s, choices[0].value.value);
        ActivateWellFormed(kc, s, choices[0].value.value);
        ActivateKeepsKeys(kc, s, choices[0].value.value, allowed);
        ApplyKeepsKeys(kc, t, choices[1..], allowed);
        if Apply(t, choices[1..]).Ok? {
          KeepsKeysTwice(kc, s, t, Apply(t, choices[1..]).value);
        }
      } else {
        ApplyKeepsKeys(kc, s, choices[1..], allowed);
      }
    }
  }

  lemma ChosenAllowed(kc: Keychain, rows: seq<KeySetInfo>, order: seq<CurrencyUnit>, cfg: Config,
                      allowed: seq<nat> -> bool)
    requires kc.group.q > 0 && ConfigAllowed(cfg, allowed)
    requires forall i :: 0 <= i < |rows| ==> allowed(rows[i].amounts)
    ensures ChoicesAllowed(InitChoices(kc, rows, order, cfg), allowed)
    ensures ChoicesAllowed(CreateChoices(kc, rows, order, cfg), allowed)
  {
    forall i | 0 <= i < |order| && InitChoice(kc, rows, order[i], cfg).Ok?
        && InitChoice(kc, rows, order[i], cfg).value.Some?
      ensures allowed(InitChoice(kc, rows, order[i], cfg).value.value.amounts)
    {
      HighestIsHighest(rows, order[i]);
    }
  }

  /** A boot whose new keysets keep the rule keeps the keys, also if it stops between its transactions. */
  lemma BootKeepsKeys(kc: Keychain, s: Store, rows: seq<KeySetInfo>, initOrder: seq<CurrencyUnit>,
                      createOrder: seq<CurrencyUnit>, cfg: Config, allowed: seq<nat> -> bool)
    requires kc.Valid() && WellFormed(kc, s) && Lists(rows, s)
    requires Uniform(allowed) && AllAllowed(s, allowed) && ConfigAllowed(cfg, allowed)
    ensures var t := Boot(kc, s, rows, initOrder, createOrder, cfg).store;
            KeepsKeys(kc, s, t) && AllAllowed(t, allowed)
    ensures var t := Halfway(kc, s, rows, initOrder, cfg);
            KeepsKeys(kc, s, t) && AllAllowed(t, allowed)
  {
    var init, create := InitChoices(kc, rows, initOrder, cfg), CreateChoices(kc, rows, createOrder, cfg);
    ChosenIdsOk(kc, rows, initOrder, cfg);
    ChosenIdsOk(kc, rows, createOrder, cfg);
    ChosenAllowed(kc, rows, initOrder, cfg, allowed);
    ChosenAllowed(kc, rows, createOrder, cfg, allowed);
    DeactivateKeepsKeys(kc, s, allowed);
    ApplyKeepsKeys(kc, Deactivate(s), init, allowed);
    ApplyWellFormed(kc, Deactivate(s), init);
    if Apply(Deactivate(s), init).Ok? {
      var s1 := Apply(Deactivate(s), init).value;
      KeepsKeysTwice(kc, s, Deactivate(s), s1);
      ApplyKeepsKeys(kc, s1, create, allowed);
      if Apply(s1, create).Ok? {
        KeepsKeysTwice(kc, s, s1, Apply(s1, create).value);
      }
    }
  }

  lemma DeactivateKeepsKeys(kc: Keychain, s: Store, allowed: seq<nat> -> bool)
    requires kc.group.q > 0 && WellFormed(kc, s) && AllAllowed(s, allowed)
    ensures WellFormed(kc, Deactivate(s)) && AllAllowed(Deactivate(s), allowed) && KeepsKeys(kc, s, Deactivate(s))
  {
    forall id | id in s ensures Pubs(kc, Deactivate(s)[id]) == Pubs(kc, s[id]) {
      assert Deactivate(s)[id] == s[id].(active := false);
    }
  }

  /** So does a rotation. */
  lemma RotateKeepsKeys(kc: Keychain, s: Store, rows: seq<KeySetInfo>, args: RotateArguments,
                        custom: map<CurrencyUnit, Path>,
                        allowed: seq<nat> -> bool)
    requires kc.Valid() && WellFormed(kc, s)
    requires Uniform(allowed) && AllAllowed(s, allowed) && allowed(args.amounts)
    ensures var t := Rotate(kc, s, rows, args, custom).store;
            KeepsKeys(kc, s, t) && AllAllowed(t, allowed)
  {
    var info := NewInfo(kc, custom, args.unit, RotationIndex(rows, args.unit), args.amounts, args.feePpk);
    if info.Ok? {
      ActivateKeepsKeys(kc, s, info.value, allowed);
    }
  }

  /** The amounts 2^0 .. 2^(n-1), listed in any order. */
  ghost predicate Standard(amounts: seq<nat>) {
    exists n :: InOrder(amounts) == AmountTheorems.Keyset(n)
  }

  /** The amounts that `Mint::rotate_keyset` asks for, and those that a boot creates, keep the rule. */
  lemma StandardIsUniform()
    ensures Uniform((a: seq<nat>) => Standard(a))
    ensures forall n :: Standard(AmountTheorems.Keyset(n))
  {
    forall n ensures Standard(AmountTheorems.Keyset(n)) {
      KeysetAscends(n);
      InOrderOfAscending(AmountTheorems.Keyset(n));
    }
  }

  lemma {:induction false} KeysetAscends(n: nat)
    ensures Amount.Ascending(AmountTheorems.Keyset(n))
  {
    if n > 0 {
      AmountTheorems.KeysetIsComplete(n);
    }
  }

  // ----- Memory agrees with the store -----

  ghost predicate OneActive(s: Store) {
    forall x, y :: x in s && y in s && s[x].active && s[y].active && s[x].unit == s[y].unit ==> x == y
  }

  lemma ActivateOne(s: Store, info: KeySetInfo)
    requires OneActive(s)
    ensures OneActive(Activate(s, info))
    ensures info.id in Activate(s, info) && Activate(s, info)[info.id] == info.(active := true)
  {
  }

  lemma {:induction false} ApplyOneActive(s: Store, choices: seq<Choice>)
    requires OneActive(s)
    ensures Apply(s, choices).Ok? ==> OneActive(Apply(s, choices).value)
    decreases |choices|
  {
    if choices != [] && choices[0].Ok? {
      if choices[0].value.Some? {
        ActivateOne(s, choices[0].value.value);
        ApplyOneActive(Activate(s, choices[0].value.value), choices[1..]);
      } else {
        ApplyOneActive(s, choices[1..]);
      }
    }
  }

  /** A boot leaves at most one active keyset of each unit; if it succeeds, whatever it started from. */
  lemma BootOneActive(kc: Keychain, s: Store, rows: seq<KeySetInfo>, initOrder: seq<CurrencyUnit>,
                      createOrder: seq<CurrencyUnit>, cfg: Config)
    requires kc.group.q > 0
    ensures var o := Boot(kc, s, rows, initOrder, createOrder, cfg);
            OneActive(s) || o.error.None? ==> OneActive(o.store)
  {
    ApplyOneActive(Deactivate(s), InitChoices(kc, rows, initOrder, cfg));
    var s1 := Apply(Deactivate(s), InitChoices(kc, rows, initOrder, cfg));
    if s1.Ok? {
      ApplyOneActive(s1.value, CreateChoices(kc, rows, createOrder, cfg));
    }
  }

  lemma HalfwayOneActive(kc: Keychain, s: Store, rows: seq<KeySetInfo>, initOrder: seq<CurrencyUnit>, cfg: Config)
    requires kc.group.q > 0 && OneActive(s)
    ensures OneActive(Halfway(kc, s, rows, initOrder, cfg))
  {
    ApplyOneActive(Deactivate(s), InitChoices(kc, rows, initOrder, cfg));
  }

  lemma RotateOneActive(kc: Keychain, s: Store, rows: seq<KeySetInfo>, args: RotateArguments,
                        custom: map<CurrencyUnit, Path>)
    requires kc.group.q > 0 && OneActive(s)
    ensures OneActive(Rotate(kc, s, rows, args, custom).store)
  {
    var info := NewInfo(kc, custom, args.unit, RotationIndex(rows, args.unit), args.amounts, args.feePpk);
    if info.Ok? {
      ActivateOne(s, info.value);
    }
  }

  lemma {:induction false} ActiveMapHolds(rows: seq<KeySetInfo>)
    ensures forall u :: u in ActiveMap(rows) ==>
              exists i :: 0 <= i < |rows| && rows[i].active && rows[i].unit == u && rows[i].id == ActiveMap(rows)[u]
    ensures forall i :: 0 <= i < |rows| && rows[i].active ==> rows[i].unit in ActiveMap(rows)
  {
    if rows != [] {
      var front := rows[..|rows| - 1];
      ActiveMapHolds(front);
      forall u | u in ActiveMap(rows)
        ensures exists i :: 0 <= i < |rows| && rows[i].active && rows[i].unit == u && rows[i].id == ActiveMap(rows)[u]
      {
        if rows[|rows| - 1].active && rows[|rows| - 1].unit == u {
          assert rows[|rows| - 1].id == ActiveMap(rows)[u];
        } else {
          assert u in ActiveMap(front) && ActiveMap(rows)[u] == ActiveMap(front)[u];
          var i :| 0 <= i < |front| && front[i].active && front[i].unit == u && front[i].id == ActiveMap(front)[u];
          assert rows[i] == front[i];
        }
      }
      forall i | 0 <= i < |rows| && rows[i].active ensures rows[i].unit in ActiveMap(rows) {
        assert i < |front| ==> rows[i] == front[i];
      }
    }
  }

  /** Some row of the listing is loaded under its id. */
  ghost predicate LoadedFrom(kc: Keychain, rows: seq<KeySetInfo>, active: map<CurrencyUnit, nat>, id: nat,
                             loaded: Loaded)
    requires kc.group.q > 0
  {
    exists i :: 0 <= i < |rows| && rows[i].id == id && loaded == LoadRow(kc, rows[i], active)
  }

  lemma {:induction false} ReloadHolds(kc: Keychain, rows: seq<KeySetInfo>, active: map<CurrencyUnit, nat>)
    requires kc.group.q > 0
    ensures forall id :: id in Reload(kc, rows, active) ==>
              LoadedFrom(kc, rows, active, id, Reload(kc, rows, active)[id])
    ensures forall i :: 0 <= i < |rows| ==> rows[i].id in Reload(kc, rows, active)
  {
    if rows != [] {
      var front, last := rows[..|rows| - 1], rows[|rows| - 1];
      ReloadHolds(kc, front, active);
      forall id | id in Reload(kc, rows, active)
        ensures LoadedFrom(kc, rows, active, id, Reload(kc, rows, active)[id])
      {
        if id == last.id {
          assert rows[|rows| - 1].id == id;
        } else {
          LoadedEarlier(kc, rows, active, id, Reload(kc, front, active)[id]);
        }
      }
      forall i | 0 <= i < |rows| ensures rows[i].id in Reload(kc, rows, active) {
        assert i < |front| ==> rows[i] == front[i];
      }
    }
  }

  lemma LoadedEarlier(kc: Keychain, rows: seq<KeySetInfo>, active: map<CurrencyUnit, nat>, id: nat, loaded: Loaded)
    requires kc.group.q > 0 && rows != [] && LoadedFrom(kc, rows[..|rows| - 1], active, id, loaded)
    ensures LoadedFrom(kc, rows, active, id, loaded)
  {
    var front := rows[..|rows| - 1];
    var i :| 0 <= i < |front| && front[i].id == id && loaded == LoadRow(kc, front[i], active);
    assert rows[i] == front[i];
  }

  /** Memory holds exactly the stored keysets with their flags and their keys, and the active map
      names exactly the active keysets. */
  ghost predicate Agrees(kc: Keychain, s: Store, mem: Memory, active: map<CurrencyUnit, nat>)
    requires kc.group.q > 0
  {
    && mem.Keys == s.Keys
    && (forall id :: id in s ==>
          && mem[id].info == s[id]
          && mem[id].keyset == Generate(kc, s[id].path, s[id].unit, s[id].amounts)
          && mem[id].keyset.id == id)
    && (forall u, id :: u in active && active[u] == id <==> id in s && s[id].active && s[id].unit == u)
  }

  /** After a reload, memory agrees with the store. */
  lemma MemoryAgreesWithStore(kc: Keychain, s: Store, rows: seq<KeySetInfo>)
    requires kc.group.q > 0 && WellFormed(kc, s) && OneActive(s) && Lists(rows, s)
    ensures Agrees(kc, s, Reload(kc, rows, ActiveMap(rows)), ActiveMap(rows))
  {
    var active := ActiveMap(rows);
    ActiveMapHolds(rows);
    ReloadHolds(kc, rows, active);
    forall id | id in s ensures id in Reload(kc, rows, active) {
      var i :| 0 <= i < |rows| && rows[i] == s[id];
      assert rows[i].id == id;
    }
    forall id | id in s ensures s[id].active <==> s[id].unit in active && active[s[id].unit] == id {
      if s[id].active {
        var i :| 0 <= i < |rows| && rows[i] == s[id];
        assert rows[i].unit in active;
      }
    }
  }
}
