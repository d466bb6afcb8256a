/** Keysets, and issuing ecash with them: what the signatory signs and verifies
    (crates/cdk-signatory/src/db_signatory.rs:155-202) and what the wallet makes of it
    (crates/cashu/src/dhke.rs:117-158). */
module Issuance {
  import opened Wrappers
  import opened BlindSignature

  datatype KeyPair = KeyPair(secret: nat, public: nat)

  datatype CurrencyUnit = Sat | Msat | Usd | Eur | Auth | Custom(name: string)

  datatype MintKeySet = MintKeySet(id: nat, unit: CurrencyUnit, keys: map<nat, KeyPair>)

  /** A derivation path; a hardened child number n is written n + HARDENED. */
  type Path = seq<nat>

  datatype KeySetInfo = KeySetInfo(
    id: nat, unit: CurrencyUnit, active: bool, path: Path, index: Option<nat>, amounts: seq<nat>, feePpk: nat)

  datatype Loaded = Loaded(info: KeySetInfo, keyset: MintKeySet)

  /** The keysets in memory, by id. */
  type Memory = map<nat, Loaded>

  datatype BlindedMessage = BlindedMessage(amount: nat, keysetId: nat, blinded: nat)
  datatype Promise = Promise(amount: nat, keysetId: nat, c: nat)
  datatype Proof = Proof(amount: nat, keysetId: nat, secret: seq<byte>, c: nat)

  datatype SignError = UnknownKeySet | InactiveKeyset | Dhke(error: DhkeError)

  predicate KeyPairOk(grp: Group, k: KeyPair)
    requires grp.q > 0
  {
    grp.IsKey(k.secret) && k.public == grp.PublicKey(k.secret)
  }

  predicate KeysOk(grp: Group, keys: map<nat, KeyPair>)
    requires grp.q > 0
  {
    forall a :: a in keys ==> KeyPairOk(grp, keys[a])
  }

  // ----- Signing -----

  function SignOne(grp: Group, mem: Memory, m: BlindedMessage): Result<Promise, SignError>
    requires grp.q > 0
  {
    if m.keysetId !in mem then Err(UnknownKeySet)
    else if !mem[m.keysetId].info.active then Err(InactiveKeyset)
    else if m.amount !in mem[m.keysetId].keyset.keys then Err(UnknownKeySet)
    else match SignMessage(grp, mem[m.keysetId].keyset.keys[m.amount].secret, m.blinded)
      case Err(e) => Err(Dhke(e))
      case Ok(c) => Ok(Promise(m.amount, m.keysetId, c))
  }

  /** `blind_sign`: the promises in order, or the first error. */
  function BlindSign(grp: Group, mem: Memory, messages: seq<BlindedMessage>): Result<seq<Promise>, SignError>
    requires grp.q > 0
  {
    if messages == [] then Ok([])
    else match SignOne(grp, mem, messages[0])
      case Err(e) => Err(e)
      case Ok(p) =>
        match BlindSign(grp, mem, messages[1..])
        case Err(e) => Err(e)
        case Ok(ps) => Ok([p] + ps)
  }

  /** Signing is all or nothing and keeps the order; every promise is under an active keyset. */
  lemma {:induction false} BlindSignAllOrNothing(grp: Group, mem: Memory, messages: seq<BlindedMessage>)
    requires grp.q > 0
    ensures BlindSign(grp, mem, messages).Ok?
            <==> forall i :: 0 <= i < |messages| ==> SignOne(grp, mem, messages[i]).Ok?
    ensures BlindSign(grp, mem, messages).Ok? ==>
              var promises := BlindSign(grp, mem, messages).value;
              && |promises| == |messages|
              && forall i :: 0 <= i < |messages| ==>
                   && SignOne(grp, mem, messages[i]) == Ok(promises[i])
                   && messages[i].keysetId in mem && mem[messages[i].keysetId].info.active
    ensures BlindSign(grp, mem, messages).Err? ==>
              exists i :: 0 <= i < |messages|
                && SignOne(grp, mem, messages[i]) == Err(BlindSign(grp, mem, messages).error)
                && forall j :: 0 <= j < i ==> SignOne(grp, mem, messages[j]).Ok?
  {
    if messages != [] {
      var tail := messages[1..];
      BlindSignAllOrNothing(grp, mem, tail);
      assert forall i :: 0 < i < |messages| ==> messages[i] == tail[i - 1];
      var first := SignOne(grp, mem, messages[0]);
      if first.Ok? && BlindSign(grp, mem, tail).Err? {
        var i :| 0 <= i < |tail| && SignOne(grp, mem, tail[i]) == Err(BlindSign(grp, mem, tail).error)
          && forall j :: 0 <= j < i ==> SignOne(grp, mem, tail[j]).Ok?;
        assert messages[i + 1] == tail[i];
        assert forall j :: 0 <= j < i + 1 ==> SignOne(grp, mem, messages[j]).Ok?;
      }
    }
  }

  // ----- Verifying -----

  function VerifyOne(c: Curve, mem: Memory, p: Proof): Result<(), SignError>
    requires c.group.q > 0
  {
    if p.keysetId !in mem then Err(UnknownKeySet)
    else if p.amount !in mem[p.keysetId].keyset.keys then Err(UnknownKeySet)
    else match VerifyMessage(c, mem[p.keysetId].keyset.keys[p.amount].secret, p.c, p.secret)
      case Err(e) => Err(Dhke(e))
      case Ok(_) => Ok(())
  }

  /** `verify_proofs`: stops at the first proof that fails. */
  function VerifyProofs(c: Curve, mem: Memory, proofs: seq<Proof>): Result<(), SignError>
    requires c.group.q > 0
  {
    if proofs == [] then Ok(())
    else match VerifyOne(c, mem, proofs[0])
      case Err(e) => Err(e)
      case Ok(_) => VerifyProofs(c, mem, proofs[1..])
  }

  lemma {:induction false} VerifyProofsIffEach(c: Curve, mem: Memory, proofs: seq<Proof>)
    requires c.group.q > 0
    ensures VerifyProofs(c, mem, proofs) == Ok(())
            <==> forall i :: 0 <= i < |proofs| ==> VerifyOne(c, mem, proofs[i]) == Ok(())
  {
    if proofs != [] {
      VerifyProofsIffEach(c, mem, proofs[1..]);
      assert forall i :: 0 < i < |proofs| ==> proofs[i] == proofs[1..][i - 1];
    }
  }

  // ----- Constructing proofs -----

  function ProofOf(grp: Group, p: Promise, r: nat, secret: seq<byte>, keys: map<nat, nat>): Result<Proof, DhkeError>
    requires grp.q > 0
  {
    if p.amount !in keys then Err(NoKeyForAmount)
    else match UnblindMessage(grp, p.c, r, keys[p.amount])
      case Err(e) => Err(e)
      case Ok(c) => Ok(Proof(p.amount, p.keysetId, secret, c))
  }

  /** One proof for each promise, or the first error. */
  function ProofList(grp: Group, promises: seq<Promise>, rs: seq<nat>, secrets: seq<seq<byte>>, keys: map<nat, nat>)
    : Result<seq<Proof>, DhkeError>
    requires grp.q > 0
  {
    if |promises| != |rs| || |promises| != |secrets| then Err(LengthMismatch)
    else if promises == [] then Ok([])
    else match ProofOf(grp, promises[0], rs[0], secrets[0], keys)
      case Err(e) => Err(e)
      case Ok(p) =>
        match ProofList(grp, promises[1..], rs[1..], secrets[1..], keys)
        case Err(e) => Err(e)
        case Ok(ps) => Ok([p] + ps)
  }

  /** `construct_proofs`. */
  method ConstructProofs(grp: Group, promises: seq<Promise>, rs: seq<nat>, secrets: seq<seq<byte>>, keys: map<nat, nat>)
    returns (r: Result<seq<Proof>, DhkeError>)
    requires grp.q > 0
    ensures r == ProofList(grp, promises, rs, secrets, keys)
  {
    if |promises| != |rs| || |promises| != |secrets| {
      return Err(LengthMismatch);
    }
    var proofs: seq<Proof> := [];
    var i := 0;
    PrependTwice([], [], ProofList(grp, promises, rs, secrets, keys));
    assert promises[0..] == promises && rs[0..] == rs && secrets[0..] == secrets;
    while i < |promises|
      invariant 0 <= i <= |promises|
      invariant ProofList(grp, promises, rs, secrets, keys)
                == Prepend(proofs, ProofList(grp, promises[i..], rs[i..], secrets[i..], keys))
    {
      assert promises[i..][1..] == promises[i + 1..] && rs[i..][1..] == rs[i + 1..];
      assert secrets[i..][1..] == secrets[i + 1..];
      var proof := ProofOf(grp, promises[i], rs[i], secrets[i], keys);
      if proof.Err? {
        return Err(proof.error);
      }
      PrependTwice(proofs, [proof.value], ProofList(grp, promises[i + 1..], rs[i + 1..], secrets[i + 1..], keys));
      proofs := proofs + [proof.value];
      i := i + 1;
    }
    assert proofs + [] == proofs;
    r := Ok(proofs);
  }

  lemma {:induction false} ProofListFromEach(grp: Group, promises: seq<Promise>, rs: seq<nat>,
                                             secrets: seq<seq<byte>>, keys: map<nat, nat>)
    requires grp.q > 0
    requires |promises| == |rs| == |secrets|
    requires forall i :: 0 <= i < |rs| ==> ProofOf(grp, promises[i], rs[i], secrets[i], keys).Ok?
    ensures ProofList(grp, promises, rs, secrets, keys).Ok?
    ensures var proofs := ProofList(grp, promises, rs, secrets, keys).value;
            && |proofs| == |rs|
            && forall i :: 0 <= i < |rs| ==> ProofOf(grp, promises[i], rs[i], secrets[i], keys) == Ok(proofs[i])
  {
    if promises != [] {
      ProofListFromEach(grp, promises[1..], rs[1..], secrets[1..], keys);
    }
  }

  function PublicKeys(keys: map<nat, KeyPair>): map<nat, nat> {
    map a | a in keys :: keys[a].public
  }

  // ----- Whole issuance -----

  /** One output of an issuance, from the secret to the verified proof. */
  lemma IssueOne(c: Curve, mem: Memory, id: nat, amount: nat, secret: seq<byte>, r: nat)
    requires c.Valid() && c.group.IsKey(r)
    requires id in mem && mem[id].info.active && KeysOk(c.group, mem[id].keyset.keys)
    requires amount in mem[id].keyset.keys
    requires BlindMessage(c, secret, r).Ok?
    ensures var promise := SignOne(c.group, mem, BlindedMessage(amount, id, BlindMessage(c, secret, r).value));
            && promise.Ok?
            && var proof := ProofOf(c.group, promise.value, r, secret, PublicKeys(mem[id].keyset.keys));
               && proof.Ok?
               && proof.value.amount == amount && proof.value.keysetId == id && proof.value.secret == secret
               && VerifyOne(c, mem, proof.value) == Ok(())
  {
    var k := mem[id].keyset.keys[amount];
    assert KeyPairOk(c.group, k);
    SignedMessageUnblinds(c, secret, r, k.secret);
    VerifiesExactlyUnderItsKey(c, secret, k.secret, k.secret);
  }

  /** For any list of secrets, blinding factors and amounts of one active keyset: once the messages
      are blinded, signing, unblinding and verification all succeed, and each proof carries the
      amount and the secret that were asked for. */
  lemma WholeIssuanceIsSound(c: Curve, mem: Memory, id: nat, amounts: seq<nat>, secrets: seq<seq<byte>>, rs: seq<nat>,
                             messages: seq<BlindedMessage>)
    requires c.Valid()
    requires id in mem && mem[id].info.active && KeysOk(c.group, mem[id].keyset.keys)
    requires |amounts| == |secrets| == |rs| == |messages|
    requires forall i :: 0 <= i < |rs| ==> c.group.IsKey(rs[i]) && amounts[i] in mem[id].keyset.keys
    requires forall i :: 0 <= i < |rs| ==>
               && BlindMessage(c, secrets[i], rs[i]).Ok?
               && messages[i] == BlindedMessage(amounts[i], id, BlindMessage(c, secrets[i], rs[i]).value)
    ensures BlindSign(c.group, mem, messages).Ok?
    ensures var promises := BlindSign(c.group, mem, messages).value;
            var proofs := ProofList(c.group, promises, rs, secrets, PublicKeys(mem[id].keyset.keys));
            && proofs.Ok? && |proofs.value| == |secrets|
            && VerifyProofs(c, mem, proofs.value) == Ok(())
            && forall i :: 0 <= i < |secrets| ==>
                 && proofs.value[i].amount == amounts[i] && proofs.value[i].keysetId == id
                 && proofs.value[i].secret == secrets[i]
  {
    var keys := PublicKeys(mem[id].keyset.keys);
    forall i | 0 <= i < |rs|
      ensures var promise := SignOne(c.group, mem, messages[i]);
              && promise.Ok?
              && var proof := ProofOf(c.group, promise.value, rs[i], secrets[i], keys);
                 && proof.Ok?
                 && proof.value.amount == amounts[i] && proof.value.keysetId == id && proof.value.secret == secrets[i]
                 && VerifyOne(c, mem, proof.value) == Ok(())
    {
      IssueOne(c, mem, id, amounts[i], secrets[i], rs[i]);
    }
    BlindSignAllOrNothing(c.group, mem, messages);
    var promises := BlindSign(c.group, mem, messages).value;
    assert forall i :: 0 <= i < |rs| ==> SignOne(c.group, mem, messages[i]) == Ok(promises[i]);
    ProofListFromEach(c.group, promises, rs, secrets, keys);
    VerifyProofsIffEach(c, mem, ProofList(c.group, promises, rs, secrets, keys).value);
  }
}
