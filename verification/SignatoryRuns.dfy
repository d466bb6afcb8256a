/** Runs of the signatory behind its service (crates/cdk-signatory/src/embedded.rs:46-93): boots,
    crashes at any time, also between the two transactions of a boot, and rotation requests that the
    runner takes from its queue one at a time. */
module SignatoryRuns {
  import opened Wrappers
  import opened PrimeField
  import opened BlindSignature
  import opened Issuance
  import opened KeysetStore
  import opened KeysetIds
  import opened KeysetTheorems
  import opened DerivationIndices
  import opened IssuanceRules
  import Signatory

  datatype Live = Live(custom: map<CurrencyUnit, Path>, memory: Memory, active: map<CurrencyUnit, nat>)

  datatype Node = Node(store: Store, live: Option<Live>, queue: seq<RotateArguments>)

  /** `BootCut` is a boot that crashes between its two transactions. */
  datatype Event =
    | BootUp(cfg: Config, rows: seq<KeySetInfo>, initOrder: seq<CurrencyUnit>, createOrder: seq<CurrencyUnit>,
             reloaded: seq<KeySetInfo>)
    | BootCut(cfg: Config, rows: seq<KeySetInfo>, initOrder: seq<CurrencyUnit>, createOrder: seq<CurrencyUnit>)
    | Submit(args: RotateArguments)
    | Handle(rows: seq<KeySetInfo>, reloaded: seq<KeySetInfo>)
    | Crash

  function Load(kc: Keychain, custom: map<CurrencyUnit, Path>, rows: seq<KeySetInfo>): Live
    requires kc.group.q > 0
  {
    Live(custom, Reload(kc, rows, ActiveMap(rows)), ActiveMap(rows))
  }

  ghost predicate Enabled(kc: Keychain, n: Node, e: Event)
    requires kc.group.q > 0
  {
    match e
    case BootUp(cfg, rows, initOrder, createOrder, reloaded) =>
      && Lists(rows, n.store) && Orders(rows, initOrder, createOrder, cfg)
      && Lists(reloaded, Boot(kc, n.store, rows, initOrder, createOrder, cfg).store)
    case BootCut(cfg, rows, initOrder, createOrder) =>
      Lists(rows, n.store) && Orders(rows, initOrder, createOrder, cfg)
    case Submit(_) => n.live.Some?
    case Handle(rows, reloaded) =>
      && n.live.Some? && n.queue != []
      && Lists(rows, n.store)
      && Lists(reloaded, Rotate(kc, n.store, rows, n.queue[0], n.live.value.custom).store)
    case Crash => true
  }

  function Step(kc: Keychain, n: Node, e: Event): Node
    requires kc.group.q > 0
    requires e.Handle? ==> n.live.Some? && n.queue != []
  {
    match e
    case BootUp(cfg, rows, initOrder, createOrder, reloaded) =>
      var o := Boot(kc, n.store, rows, initOrder, createOrder, cfg);
      Node(o.store, if o.error.None? then Some(Load(kc, cfg.custom, reloaded)) else None, [])
    case BootCut(cfg, rows, initOrder, _) => Node(Halfway(kc, n.store, rows, initOrder, cfg), None, [])
    case Submit(args) => n.(queue := n.queue + [args])
    case Handle(rows, reloaded) =>
      var o := Rotate(kc, n.store, rows, n.queue[0], n.live.value.custom);
      Node(o.store,
           if o.error.None? then Some(Load(kc, n.live.value.custom, reloaded)) else n.live,
           n.queue[1..])
    case Crash => Node(n.store, None, [])
  }

  const EMPTY: Node := Node(map[], None, [])

  ghost predicate StepAt(kc: Keychain, nodes: seq<Node>, events: seq<Event>, i: nat)
    requires kc.group.q > 0 && |nodes| == |events| + 1 && i < |events|
  {
    Enabled(kc, nodes[i], events[i]) && nodes[i + 1] == Step(kc, nodes[i], events[i])
  }

  /** `nodes` are the states of a run from the empty store with the given events. */
  ghost predicate Run(kc: Keychain, nodes: seq<Node>, events: seq<Event>)
    requires kc.group.q > 0
  {
    && |nodes| == |events| + 1
    && nodes[0] == EMPTY
    && forall i :: 0 <= i < |events| ==> StepAt(kc, nodes, events, i)
  }

  // ----- Memory agrees with the store in every state -----

  ghost predicate NodeOk(kc: Keychain, n: Node)
    requires kc.group.q > 0
  {
    && WellFormed(kc, n.store) && OneActive(n.store)
    && (n.live.Some? ==> Agrees(kc, n.store, n.live.value.memory, n.live.value.active))
  }

  lemma RunStep(kc: Keychain, nodes: seq<Node>, events: seq<Event>, k: nat)
    requires kc.group.q > 0 && Run(kc, nodes, events) && k < |events|
    ensures Enabled(kc, nodes[k], events[k]) && nodes[k + 1] == Step(kc, nodes[k], events[k])
  {
    assert StepAt(kc, nodes, events, k);
  }

  lemma BootKeepsNodeOk(kc: Keychain, n: Node, e: Event)
    requires kc.group.q > 0 && NodeOk(kc, n) && e.BootUp? && Enabled(kc, n, e)
    ensures NodeOk(kc, Step(kc, n, e))
  {
    var t := Boot(kc, n.store, e.rows, e.initOrder, e.createOrder, e.cfg).store;
    BootWellFormed(kc, n.store, e.rows, e.initOrder, e.createOrder, e.cfg);
    BootOneActive(kc, n.store, e.rows, e.initOrder, e.createOrder, e.cfg);
    LoadAgrees(kc, t, e.cfg.custom, e.reloaded);
  }

  lemma HandleKeepsNodeOk(kc: Keychain, n: Node, e: Event)
    requires kc.group.q > 0 && NodeOk(kc, n) && e.Handle? && Enabled(kc, n, e)
    ensures NodeOk(kc, Step(kc, n, e))
  {
    var custom := n.live.value.custom;
    var t := Rotate(kc, n.store, e.rows, n.queue[0], custom).store;
    RotateWellFormed(kc, n.store, e.rows, n.queue[0], custom);
    RotateOneActive(kc, n.store, e.rows, n.queue[0], custom);
    LoadAgrees(kc, t, custom, e.reloaded);
  }

  lemma LoadAgrees(kc: Keychain, s: Store, custom: map<CurrencyUnit, Path>, rows: seq<KeySetInfo>)
    requires kc.group.q > 0 && WellFormed(kc, s) && OneActive(s) && Lists(rows, s)
    ensures Agrees(kc, s, Load(kc, custom, rows).memory, Load(kc, custom, rows).active)
  {
    MemoryAgreesWithStore(kc, s, rows);
  }

  lemma StepKeepsNodeOk(kc: Keychain, n: Node, e: Event)
    requires kc.group.q > 0 && NodeOk(kc, n) && Enabled(kc, n, e)
    ensures NodeOk(kc, Step(kc, n, e))
  {
    match e
    case BootUp(_, _, _, _, _) => BootKeepsNodeOk(kc, n, e);
    case BootCut(cfg, rows, initOrder, createOrder) =>
      BootWellFormed(kc, n.store, rows, initOrder, createOrder, cfg);
      HalfwayOneActive(kc, n.store, rows, initOrder, cfg);
    case Submit(_) =>
    case Handle(_, _) => HandleKeepsNodeOk(kc, n, e);
    case Crash =>
  }

  /** In every run, every state has at most one active keyset of each unit, and the memory of a live
      signatory holds exactly the stored keysets, with their flags, keys and active map. */
  lemma {:induction false} MemoryAlwaysAgrees(kc: Keychain, nodes: seq<Node>, events: seq<Event>, i: nat)
    requires kc.group.q > 0 && Run(kc, nodes, events) && i < |nodes|
    ensures NodeOk(kc, nodes[i])
    decreases i
  {
    if i > 0 {
      MemoryAlwaysAgrees(kc, nodes, events, i - 1);
      RunStep(kc, nodes, events, i - 1);
      StepKeepsNodeOk(kc, nodes[i - 1], events[i - 1]);
    }
  }

  // ----- Keys behind an id -----

  /** Every keyset that a boot may create and every rotation keeps the rule of `allowed`. */
  ghost predicate EventAllowed(e: Event, allowed: seq<nat> -> bool) {
    && (e.BootUp? || e.BootCut? ==> ConfigAllowed(e.cfg, allowed))
    && (e.Submit? ==> allowed(e.args.amounts))
  }

  ghost predicate RunAllowed(events: seq<Event>, allowed: seq<nat> -> bool) {
    Uniform(allowed) && forall k :: 0 <= k < |events| ==> EventAllowed(events[k], allowed)
  }

  ghost predicate NodeAllowed(n: Node, allowed: seq<nat> -> bool) {
    AllAllowed(n.store, allowed) && forall i :: 0 <= i < |n.queue| ==> allowed(n.queue[i].amounts)
  }

  lemma StepKeepsKeys(kc: Keychain, n: Node, e: Event, allowed: seq<nat> -> bool)
    requires kc.Valid() && NodeOk(kc, n) && Enabled(kc, n, e)
    requires Uniform(allowed) && EventAllowed(e, allowed) && NodeAllowed(n, allowed)
    ensures KeepsKeys(kc, n.store, Step(kc, n, e).store) && NodeAllowed(Step(kc, n, e), allowed)
  {
    match e
    case BootUp(cfg, rows, initOrder, createOrder, _) =>
      BootKeepsKeys(kc, n.store, rows, initOrder, createOrder, cfg, allowed);
    case BootCut(cfg, rows, initOrder, createOrder) =>
      BootKeepsKeys(kc, n.store, rows, initOrder, createOrder, cfg, allowed);
    case Submit(_) =>
    case Handle(rows, _) =>
      RotateKeepsKeys(kc, n.store, rows, n.queue[0], n.live.value.custom, allowed);
    case Crash =>
  }

  lemma {:induction false} AlwaysAllowed(kc: Keychain, nodes: seq<Node>, events: seq<Event>, i: nat,
                                         allowed: seq<nat> -> bool)
    requires kc.Valid() && Run(kc, nodes, events) && RunAllowed(events, allowed) && i < |nodes|
    ensures NodeAllowed(nodes[i], allowed)
    decreases i
  {
    if i > 0 {
      AlwaysAllowed(kc, nodes, events, i - 1, allowed);
      LaterStepKeepsKeys(kc, nodes, events, i - 1, allowed);
    }
  }

  lemma LaterStepKeepsKeys(kc: Keychain, nodes: seq<Node>, events: seq<Event>, k: nat, allowed: seq<nat> -> bool)
    requires kc.Valid() && Run(kc, nodes, events) && RunAllowed(events, allowed) && k < |events|
    requires NodeAllowed(nodes[k], allowed)
    ensures KeepsKeys(kc, nodes[k].store, nodes[k + 1].store) && NodeAllowed(nodes[k + 1], allowed)
  {
    MemoryAlwaysAgrees(kc, nodes, events, k);
    RunStep(kc, nodes, events, k);
    StepKeepsKeys(kc, nodes[k], events[k], allowed);
  }

  /** In every run that keeps a uniform rule, no keyset disappears and no keys behind an id change. */
  lemma {:induction false} KeysNeverChange(kc: Keychain, nodes: seq<Node>, events: seq<Event>, i: nat, j: nat,
                                           allowed: seq<nat> -> bool)
    requires kc.Valid() && Run(kc, nodes, events) && RunAllowed(events, allowed) && i <= j < |nodes|
    ensures KeepsKeys(kc, nodes[i].store, nodes[j].store)
    decreases j
  {
    if i < j {
      KeysNeverChange(kc, nodes, events, i, j - 1, allowed);
      AlwaysAllowed(kc, nodes, events, j - 1, allowed);
      LaterStepKeepsKeys(kc, nodes, events, j - 1, allowed);
      KeepsKeysTwice(kc, nodes[i].store, nodes[j - 1].store, nodes[j].store);
    }
  }

  // ----- Issued proofs stay spendable -----

  /** The id is stored in both states, with the same keys. */
  ghost predicate SameKeys(kc: Keychain, m: Node, n: Node, id: nat)
    requires kc.group.q > 0
  {
    id in m.store && id in n.store && Pubs(kc, m.store[id]) == Pubs(kc, n.store[id])
  }

  /** Then both memories have the same keys for it. */
  lemma SameKeysInMemory(kc: Keychain, m: Node, n: Node, id: nat)
    requires kc.Valid() && NodeOk(kc, m) && NodeOk(kc, n) && m.live.Some? && n.live.Some? && SameKeys(kc, m, n, id)
    ensures id in m.live.value.memory && id in n.live.value.memory
    ensures m.live.value.memory[id].keyset.keys == n.live.value.memory[id].keyset.keys
  {
    SamePubsSameKeys(kc, m.store[id], n.store[id]);
  }

  /** And both verify a proof of it with the same result; once the keyset is inactive it is still
      verified, but nothing more is signed. */
  lemma SameVerdict(kc: Keychain, c: Curve, m: Node, n: Node, p: Proof)
    requires kc.Valid() && c.group == kc.group && NodeOk(kc, m) && NodeOk(kc, n) && m.live.Some? && n.live.Some?
    requires SameKeys(kc, m, n, p.keysetId)
    ensures VerifyOne(c, n.live.value.memory, p) == VerifyOne(c, m.live.value.memory, p)
    ensures !n.store[p.keysetId].active ==>
              forall amount, blinded ::
                SignOne(kc.group, n.live.value.memory, BlindedMessage(amount, p.keysetId, blinded))
                    == Err(InactiveKeyset)
  {
    SameKeysInMemory(kc, m, n, p.keysetId);
  }

  /** In a run that keeps a uniform rule, a proof of a known keyset is verified with the same result
      after any rotations, crashes and reboots, though an inactive keyset signs nothing more. */
  lemma ProofsStaySpendable(kc: Keychain, c: Curve, nodes: seq<Node>, events: seq<Event>, i: nat, j: nat, p: Proof,
                            allowed: seq<nat> -> bool)
    requires kc.Valid() && c.group == kc.group && Run(kc, nodes, events) && RunAllowed(events, allowed)
    requires i <= j < |nodes|
    requires nodes[i].live.Some? && nodes[j].live.Some? && p.keysetId in nodes[i].live.value.memory
    ensures VerifyOne(c, nodes[j].live.value.memory, p) == VerifyOne(c, nodes[i].live.value.memory, p)
    ensures p.keysetId in nodes[j].store
    ensures !nodes[j].store[p.keysetId].active ==>
              forall amount, blinded ::
                SignOne(kc.group, nodes[j].live.value.memory, BlindedMessage(amount, p.keysetId, blinded))
                    == Err(InactiveKeyset)
  {
    MemoryAlwaysAgrees(kc, nodes, events, i);
    MemoryAlwaysAgrees(kc, nodes, events, j);
    KeysNeverChange(kc, nodes, events, i, j, allowed);
    SameVerdict(kc, c, nodes[i], nodes[j], p);
  }

  /** For a unit on default paths that every boot supports, whatever amounts its rotations ask for: its
      rows are never overwritten. */
  lemma DefaultPathProofsStaySpendable(w: World, c: Curve, nodes: seq<Node>, events: seq<Event>, i: nat, j: nat,
                                       p: Proof)
    requires w.Valid() && c.group == w.kc.group && Run(w.kc, nodes, events) && RunOk(w, events) && i <= j < |nodes|
    requires nodes[i].live.Some? && nodes[j].live.Some? && w.Mine(nodes[i].store, p.keysetId)
    ensures VerifyOne(c, nodes[j].live.value.memory, p) == VerifyOne(c, nodes[i].live.value.memory, p)
    ensures w.Mine(nodes[j].store, p.keysetId)
    ensures !nodes[j].store[p.keysetId].active ==>
              forall amount, blinded ::
                SignOne(w.kc.group, nodes[j].live.value.memory, BlindedMessage(amount, p.keysetId, blinded))
                    == Err(InactiveKeyset)
  {
    MemoryAlwaysAgrees(w.kc, nodes, events, i);
    MemoryAlwaysAgrees(w.kc, nodes, events, j);
    GrowsAlong(w, nodes, events, i, j);
    GrownKeepsKeys(w, nodes[i], nodes[j], p.keysetId);
    SameVerdict(w.kc, c, nodes[i], nodes[j], p);
  }

  lemma GrownKeepsKeys(w: World, m: Node, n: Node, id: nat)
    requires w.kc.group.q > 0 && w.Grows(m.store, n.store) && w.Mine(m.store, id)
    ensures SameKeys(w.kc, m, n, id) && w.Mine(n.store, id)
  {
    assert n.store[id] == m.store[id].(active := n.store[id].active);
    SamePubsUpToFlag(w.kc, m.store[id], n.store[id]);
  }

  /** What is issued with an active keyset in memory is a proof that verifies there. */
  lemma IssuedIsValid(kc: Keychain, c: Curve, n: Node, id: nat, amount: nat, secret: seq<byte>, r: nat)
    returns (proof: Proof)
    requires kc.Valid() && c.Valid() && c.group == kc.group && NodeOk(kc, n) && n.live.Some? && kc.group.IsKey(r)
    requires id in n.store && n.store[id].active && amount in n.store[id].amounts && BlindMessage(c, secret, r).Ok?
    ensures id in n.live.value.memory
    ensures Issues(c, n.live.value.memory, id, amount, secret, r, proof)
    ensures VerifyOne(c, n.live.value.memory, proof) == Ok(()) && proof.keysetId == id && proof.amount == amount
  {
    var s, mem := n.store, n.live.value.memory;
    GeneratedKeysOk(kc, s[id].path, s[id].amounts);
    IssueOne(c, mem, id, amount, secret, r);
    var promise := SignOne(c.group, mem, BlindedMessage(amount, id, BlindMessage(c, secret, r).value));
    proof := ProofOf(c.group, promise.value, r, secret, PublicKeys(mem[id].keyset.keys)).value;
  }

  /** The signatory signs the blinded secret, and the wallet makes this proof of it. */
  ghost predicate Issues(c: Curve, mem: Memory, id: nat, amount: nat, secret: seq<byte>, r: nat, proof: Proof)
    requires c.group.q > 0 && id in mem && BlindMessage(c, secret, r).Ok?
  {
    var promise := SignOne(c.group, mem, BlindedMessage(amount, id, BlindMessage(c, secret, r).value));
    promise.Ok? && ProofOf(c.group, promise.value, r, secret, PublicKeys(mem[id].keyset.keys)) == Ok(proof)
  }

  /** In a run that keeps a uniform rule: what the signatory of any live state issues, every later live
      state accepts. */
  lemma IssuedThenSpent(kc: Keychain, c: Curve, nodes: seq<Node>, events: seq<Event>, i: nat, j: nat,
                        id: nat, amount: nat, secret: seq<byte>, r: nat, allowed: seq<nat> -> bool)
    returns (proof: Proof)
    requires kc.Valid() && c.Valid() && c.group == kc.group && Run(kc, nodes, events) && RunAllowed(events, allowed)
    requires i <= j < |nodes| && nodes[i].live.Some? && nodes[j].live.Some? && kc.group.IsKey(r)
    requires id in nodes[i].store && nodes[i].store[id].active
    requires amount in nodes[i].store[id].amounts
    requires BlindMessage(c, secret, r).Ok?
    ensures id in nodes[i].live.value.memory
    ensures Issues(c, nodes[i].live.value.memory, id, amount, secret, r, proof)
    ensures VerifyOne(c, nodes[j].live.value.memory, proof) == Ok(())
  {
    MemoryAlwaysAgrees(kc, nodes, events, i);
    proof := IssuedIsValid(kc, c, nodes[i], id, amount, secret, r);
    ProofsStaySpendable(kc, c, nodes, events, i, j, proof, allowed);
  }

  // ----- Proofs are worth their own amount -----

  /** The children of the path that the amounts use are different. */
  ghost predicate DifferentChildren(kc: Keychain, row: KeySetInfo) {
    forall i, j :: 0 <= i < j < |row.amounts| ==> kc.child(row.path, i) != kc.child(row.path, j)
  }

  lemma MemoryHasKeys(kc: Keychain, n: Node)
    requires kc.Valid() && NodeOk(kc, n) && n.live.Some?
    ensures MemoryOk(kc.group, n.live.value.memory)
  {
    forall id | id in n.live.value.memory ensures KeysOk(kc.group, n.live.value.memory[id].keyset.keys) {
      GeneratedKeysOk(kc, n.store[id].path, n.store[id].amounts);
    }
  }

  /** A proof that verifies for one amount of a keyset is refused for every other one. */
  lemma ProofIsForItsAmount(kc: Keychain, c: Curve, n: Node, p: Proof, other: nat)
    requires kc.Valid() && c.Valid() && c.group == kc.group && NodeOk(kc, n) && n.live.Some?
    requires p.keysetId in n.store && DifferentChildren(kc, n.store[p.keysetId])
    requires VerifyOne(c, n.live.value.memory, p) == Ok(()) && other != p.amount
    ensures VerifyOne(c, n.live.value.memory, p.(amount := other))
            == Err(if other in n.store[p.keysetId].amounts then Dhke(TokenNotVerified) else UnknownKeySet)
  {
    var row, mem, q := n.store[p.keysetId], n.live.value.memory, p.(amount := other);
    MemoryHasKeys(kc, n);
    VerifyOneIff(c, mem, p);
    VerifyOneIff(c, mem, q);
    if other in row.amounts {
      var i, j := DifferentKeys(kc, row, p.amount, other);
      PointIsAKey(c, p.secret);
      if Genuine(c, mem, q) {
        CancelFactor(kc.child(row.path, i), kc.child(row.path, j), HashToCurve(c, p.secret).value, kc.group.q);
      }
    }
  }

  lemma DifferentKeys(kc: Keychain, row: KeySetInfo, a: nat, b: nat) returns (i: nat, j: nat)
    requires kc.group.q > 0 && DifferentChildren(kc, row) && a in row.amounts && b in row.amounts && a != b
    ensures KeysOf(kc, row.path, row.amounts)[a].secret == kc.child(row.path, i)
    ensures KeysOf(kc, row.path, row.amounts)[b].secret == kc.child(row.path, j)
    ensures kc.child(row.path, i) != kc.child(row.path, j)
  {
    assert row.amounts[..|row.amounts|] == row.amounts;
    i, j := KeysOfTwoAmounts(kc, row.path, row.amounts, |row.amounts|, a, b);
  }

  // ----- Derivation indices are never reused -----

  /** Every boot supports the unit, and no keyset is empty. */
  ghost predicate RunOk(w: World, events: seq<Event>) {
    forall i :: 0 <= i < |events| ==>
      && (events[i].BootUp? || events[i].BootCut? ==> w.ConfigOk(events[i].cfg) && w.unit in events[i].cfg.supported)
      && (events[i].Submit? ==> events[i].args.amounts != [])
  }

  ghost predicate IndexOk(w: World, n: Node)
    requires w.kc.group.q > 0
  {
    && w.Inv(n.store) && w.TopActive(n.store) && OneActive(n.store)
    && (n.live.Some? ==> w.CustomOk(n.live.value.custom))
    && forall i :: 0 <= i < |n.queue| ==> n.queue[i].amounts != []
  }

  lemma StepGrows(w: World, n: Node, e: Event)
    requires w.Valid() && IndexOk(w, n) && Enabled(w.kc, n, e)
    requires e.BootUp? || e.BootCut? ==> w.ConfigOk(e.cfg) && w.unit in e.cfg.supported
    requires e.Submit? ==> e.args.amounts != []
    ensures IndexOk(w, Step(w.kc, n, e)) && w.Grows(n.store, Step(w.kc, n, e).store)
  {
    match e
    case BootUp(cfg, rows, initOrder, createOrder, reloaded) =>
      BootGrows(w, n.store, rows, initOrder, createOrder, cfg);
      BootOneActive(w.kc, n.store, rows, initOrder, createOrder, cfg);
    case BootCut(cfg, rows, initOrder, createOrder) =>
      HalfwayGrows(w, n.store, rows, initOrder, createOrder, cfg);
      HalfwayOneActive(w.kc, n.store, rows, initOrder, cfg);
    case Submit(_) =>
    case Handle(rows, reloaded) =>
      RotateGrows(w, n.store, rows, n.queue[0], n.live.value.custom);
      RotateOneActive(w.kc, n.store, rows, n.queue[0], n.live.value.custom);
    case Crash =>
  }

  lemma {:induction false} IndexAlwaysOk(w: World, nodes: seq<Node>, events: seq<Event>, i: nat)
    requires w.Valid() && Run(w.kc, nodes, events) && RunOk(w, events) && i < |nodes|
    ensures IndexOk(w, nodes[i])
    decreases i
  {
    if i > 0 {
      IndexAlwaysOk(w, nodes, events, i - 1);
      RunStep(w.kc, nodes, events, i - 1);
      StepGrows(w, nodes[i - 1], events[i - 1]);
    }
  }

  /** From the empty store, for a unit without a custom path that every boot supports: in every run
      of boots, crashes and serialised rotations, no keyset of the unit disappears or changes its
      index, each new one has an index above all earlier ones, and whenever the unit has keysets
      an active one has the highest index. */
  lemma IndicesNeverReused(w: World, nodes: seq<Node>, events: seq<Event>, i: nat, j: nat)
    requires w.Valid() && Run(w.kc, nodes, events) && RunOk(w, events) && i <= j < |nodes|
    ensures w.Grows(nodes[i].store, nodes[j].store)
    ensures w.TopActive(nodes[j].store)
  {
    IndexAlwaysOk(w, nodes, events, j);
    GrowsAlong(w, nodes, events, i, j);
  }

  lemma {:induction false} GrowsAlong(w: World, nodes: seq<Node>, events: seq<Event>, i: nat, j: nat)
    requires w.Valid() && Run(w.kc, nodes, events) && RunOk(w, events) && i <= j < |nodes|
    ensures w.Grows(nodes[i].store, nodes[j].store)
    decreases j
  {
    if i < j {
      GrowsAlong(w, nodes, events, i, j - 1);
      LaterStepGrows(w, nodes, events, j - 1);
      GrowsTwice(w, nodes[i].store, nodes[j - 1].store, nodes[j].store);
    } else {
      GrowsNot(w, nodes[i].store);
    }
  }

  lemma GrowsNot(w: World, s: Store)
    ensures w.Grows(s, s)
  {
  }

  lemma LaterStepGrows(w: World, nodes: seq<Node>, events: seq<Event>, k: nat)
    requires w.Valid() && Run(w.kc, nodes, events) && RunOk(w, events) && k < |events|
    ensures w.Grows(nodes[k].store, nodes[k + 1].store)
  {
    IndexAlwaysOk(w, nodes, events, k);
    RunStep(w.kc, nodes, events, k);
    StepGrows(w, nodes[k], events[k]);
  }

  /** What the indices of the unit rest on. */
  ghost predicate IndexStore(w: World, s: Store)
    requires w.kc.group.q > 0
  {
    w.Inv(s) && w.TopActive(s) && OneActive(s)
  }

  ghost predicate Answerable(q: Signatory.Request) {
    q.RotateRequest? ==> q.args.amounts != []
  }

  ghost predicate AllAnswerable(requests: seq<Signatory.Request>) {
    forall k :: 0 <= k < |requests| ==> Answerable(requests[k])
  }

  /** One answer of the runner; a rotation of the unit takes an index above all that are there. */
  lemma AnswerGrows(w: World, c: Curve, custom: map<CurrencyUnit, Path>, h: Signatory.Held, q: Signatory.Request,
                    reply: Signatory.Reply, h': Signatory.Held)
    requires w.Valid() && c.group == w.kc.group && w.CustomOk(custom) && IndexStore(w, h.store) && Answerable(q)
    requires Signatory.Serves(c, w.kc, custom, h, q, reply, h')
    ensures IndexStore(w, h'.store) && w.Grows(h.store, h'.store) && AboveAll(w, h.store, q, reply)
  {
    if q.RotateRequest? {
      var rows :| Lists(rows, h.store) && Signatory.RotatesTo(w.kc, custom, h, q.args, rows, reply.rotated, h');
      RotateGrows(w, h.store, rows, q.args, custom);
      RotateOneActive(w.kc, h.store, rows, q.args, custom);
      AnswerAbove(w, custom, h, q, reply, rows, h');
    } else {
      GrowsNot(w, h.store);
    }
  }

  lemma AnswerAbove(w: World, custom: map<CurrencyUnit, Path>, h: Signatory.Held, q: Signatory.Request,
                    reply: Signatory.Reply, rows: seq<KeySetInfo>, h': Signatory.Held)
    requires w.kc.group.q > 0 && IndexStore(w, h.store) && q.RotateRequest? && reply.Rotated? && Lists(rows, h.store)
    requires Signatory.RotatesTo(w.kc, custom, h, q.args, rows, reply.rotated, h')
    ensures AboveAll(w, h.store, q, reply)
  {
    RotationTakesNextIndex(w, h.store, rows);
  }

  /** If the unit is rotated, its new index is above all those in `s`. */
  ghost predicate AboveAll(w: World, s: Store, q: Signatory.Request, reply: Signatory.Reply) {
    q.RotateRequest? && q.args.unit == w.unit && reply.Rotated? && reply.rotated.Ok? ==>
      forall x :: w.Mine(s, x) ==> Below(s[x].index, reply.rotated.value.info.index)
  }

  lemma AboveEarlier(w: World, s: Store, t: Store, q: Signatory.Request, reply: Signatory.Reply)
    requires w.Grows(s, t) && AboveAll(w, t, q, reply)
    ensures AboveAll(w, s, q, reply)
  {
    forall x | w.Mine(s, x) ensures w.Mine(t, x) && t[x].index == s[x].index {
    }
  }

  /** Whatever is asked of the runner (`Signatory.Runner`), the indices of the unit only grow, and every
      rotation of the unit is answered with an index above all that it ever had before. */
  lemma RunnerNeverReusesIndices(w: World, c: Curve, custom: map<CurrencyUnit, Path>, held: seq<Signatory.Held>,
                                 requests: seq<Signatory.Request>, replies: seq<Signatory.Reply>, i: nat, j: nat)
    requires w.Valid() && c.group == w.kc.group && w.CustomOk(custom)
    requires |held| == |replies| + 1 && |replies| == |requests| && i <= j < |replies|
    requires IndexStore(w, held[i].store) && AllAnswerable(requests)
    requires Signatory.ServesAll(c, w.kc, custom, held, requests, replies)
    ensures w.Grows(held[i].store, held[j + 1].store) && IndexStore(w, held[j + 1].store)
    ensures AboveAll(w, held[i].store, requests[j], replies[j])
  {
    var stores := seq(|held|, k requires 0 <= k < |held| => held[k].store);
    forall k | 0 <= k < |replies| ensures KeepsAt(w, stores, requests, replies, k) {
      if IndexStore(w, held[k].store) {
        ServedAnswer(w, c, custom, held, requests, replies, k);
        AnswerGrows(w, c, custom, held[k], requests[k], replies[k], held[k + 1]);
      }
    }
    AnswersGrow(w, stores, requests, replies, i, j);
    assert KeepsAt(w, stores, requests, replies, j);
    GrowsThenKeeps(w, stores[i], stores[j], requests[j], replies[j], stores[j + 1]);
  }

  ghost predicate KeepsIndices(w: World, s: Store, q: Signatory.Request, reply: Signatory.Reply, t: Store)
    requires w.kc.group.q > 0
  {
    IndexStore(w, s) ==> IndexStore(w, t) && w.Grows(s, t) && AboveAll(w, s, q, reply)
  }

  ghost predicate Later(w: World, s: Store, t: Store)
    requires w.kc.group.q > 0
  {
    w.Grows(s, t) && IndexStore(w, t)
  }

  ghost predicate KeepsAt(w: World, stores: seq<Store>, requests: seq<Signatory.Request>,
                          replies: seq<Signatory.Reply>, k: nat)
    requires w.kc.group.q > 0 && |stores| == |replies| + 1 && |replies| == |requests| && k < |replies|
  {
    KeepsIndices(w, stores[k], requests[k], replies[k], stores[k + 1])
  }

  ghost predicate AllKept(w: World, stores: seq<Store>, requests: seq<Signatory.Request>, replies: seq<Signatory.Reply>)
    requires w.kc.group.q > 0 && |stores| == |replies| + 1 && |replies| == |requests|
  {
    forall k :: 0 <= k < |replies| ==> KeepsAt(w, stores, requests, replies, k)
  }

  lemma AnswersGrow(w: World, stores: seq<Store>, requests: seq<Signatory.Request>,
                    replies: seq<Signatory.Reply>, i: nat, j: nat)
    requires w.kc.group.q > 0
    requires |stores| == |replies| + 1 && |replies| == |requests| && i <= j < |replies|
    requires IndexStore(w, stores[i])
    requires AllKept(w, stores, requests, replies)
    ensures Later(w, stores[i], stores[j])
  {
    var leads := (s: Store, t: Store) => IndexStore(w, s) ==> Later(w, s, t);
    forall s, t, r | leads(s, t) && leads(t, r) ensures leads(s, r) {
      if IndexStore(w, s) {
        GrowsTwice(w, s, t, r);
      }
    }
    forall s ensures leads(s, s) {
      GrowsNot(w, s);
    }
    forall k | 0 <= k < |replies| ensures Linked(leads, stores, k) {
      assert KeepsAt(w, stores, requests, replies, k);
    }
    Chain(leads, stores, i, j);
  }

  predicate Linked<T(!new)>(leads: (T, T) -> bool, xs: seq<T>, k: nat)
    requires k + 1 < |xs|
  {
    leads(xs[k], xs[k + 1])
  }

  /** What leads from each element to the next leads from every element to every later one. */
  lemma {:induction false} Chain<T(!new)>(leads: (T, T) -> bool, xs: seq<T>, i: nat, j: nat)
    requires i <= j < |xs|
    requires forall x, y, z :: leads(x, y) && leads(y, z) ==> leads(x, z)
    requires forall x :: leads(x, x)
    requires forall k :: 0 <= k < |xs| - 1 ==> Linked(leads, xs, k)
    ensures leads(xs[i], xs[j])
    decreases j
  {
    if i < j {
      Chain(leads, xs, i, j - 1);
      assert Linked(leads, xs, j - 1);
    }
  }

  lemma GrowsThenKeeps(w: World, s: Store, t: Store, q: Signatory.Request, reply: Signatory.Reply, r: Store)
    requires w.kc.group.q > 0 && w.Grows(s, t) && IndexStore(w, t) && KeepsIndices(w, t, q, reply, r)
    ensures w.Grows(s, r) && IndexStore(w, r) && AboveAll(w, s, q, reply)
  {
    GrowsTwice(w, s, t, r);
    AboveEarlier(w, s, t, q, reply);
  }

  lemma ServedAnswer(w: World, c: Curve, custom: map<CurrencyUnit, Path>, held: seq<Signatory.Held>,
                     requests: seq<Signatory.Request>, replies: seq<Signatory.Reply>, j: nat)
    requires w.kc.group.q > 0 && c.group == w.kc.group
    requires |held| == |replies| + 1 && |replies| == |requests| && j < |replies|
    requires AllAnswerable(requests) && Signatory.ServesAll(c, w.kc, custom, held, requests, replies)
    ensures Answerable(requests[j]) && Signatory.Serves(c, w.kc, custom, held[j], requests[j], replies[j], held[j + 1])
  {
    assert Signatory.ServesAt(c, w.kc, custom, held, requests, replies, j);
  }
}
