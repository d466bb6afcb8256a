/** Exactly what the signatory accepts and signs, and what the wallet makes of it, in terms of keys and
    points (crates/cdk-signatory/src/db_signatory.rs:155-202, crates/cashu/src/dhke.rs:99-191). */
module IssuanceRules {
  import opened Wrappers
  import opened PrimeField
  import opened BlindSignature
  import opened Issuance

  /** Every key in memory is a key pair of the group. */
  ghost predicate MemoryOk(grp: Group, mem: Memory)
    requires grp.q > 0
  {
    forall id :: id in mem ==> KeysOk(grp, mem[id].keyset.keys)
  }

  // ----- Verifying -----

  /** The mint knows a key for the amount under the keyset. */
  predicate Known(mem: Memory, id: nat, amount: nat) {
    id in mem && amount in mem[id].keyset.keys
  }

  function KeyOf(mem: Memory, id: nat, amount: nat): nat
    requires Known(mem, id, amount)
  {
    mem[id].keyset.keys[amount].secret
  }

  /** The proof is k times the point of its secret, for the mint's key k of its amount. */
  predicate Genuine(c: Curve, mem: Memory, p: Proof)
    requires c.group.q > 0
  {
    && Known(mem, p.keysetId, p.amount)
    && HashToCurve(c, p.secret).Ok?
    && p.c == (KeyOf(mem, p.keysetId, p.amount) * HashToCurve(c, p.secret).value) % c.group.q
  }

  /** Why a proof is refused. */
  predicate RefusedWith(c: Curve, mem: Memory, p: Proof, e: SignError)
    requires c.group.q > 0
  {
    if !Known(mem, p.keysetId, p.amount) then e == UnknownKeySet
    else if HashToCurve(c, p.secret).Err? then e == Dhke(NoValidPoint)
    else e == Dhke(TokenNotVerified)
  }

  lemma VerifyOneIff(c: Curve, mem: Memory, p: Proof)
    requires c.Valid() && MemoryOk(c.group, mem)
    ensures VerifyOne(c, mem, p) == Ok(()) <==> Genuine(c, mem, p)
    ensures VerifyOne(c, mem, p).Err? ==> RefusedWith(c, mem, p, VerifyOne(c, mem, p).error)
  {
    PointIsAKey(c, p.secret);
    FirstPointIsLeast(c, c.sha256(DOMAIN_SEPARATOR + p.secret), 0);
    if Known(mem, p.keysetId, p.amount) && HashToCurve(c, p.secret).Ok? {
      assert KeyPairOk(c.group, mem[p.keysetId].keyset.keys[p.amount]);
      TweakSucceeds(c.group, HashToCurve(c, p.secret).value, KeyOf(mem, p.keysetId, p.amount));
    }
  }

  /** A list of proofs verifies if and only if each is k times the point of its secret under a key that
      the mint has; otherwise the first one that is not decides the error. */
  lemma {:induction false} VerifyProofsIff(c: Curve, mem: Memory, proofs: seq<Proof>)
    requires c.Valid() && MemoryOk(c.group, mem)
    ensures VerifyProofs(c, mem, proofs) == Ok(()) <==> forall i :: 0 <= i < |proofs| ==> Genuine(c, mem, proofs[i])
    ensures VerifyProofs(c, mem, proofs).Err? ==>
              exists i :: 0 <= i < |proofs| && FirstRefused(c, mem, proofs, i, VerifyProofs(c, mem, proofs).error)
  {
    if proofs != [] {
      VerifyOneIff(c, mem, proofs[0]);
      VerifyProofsIff(c, mem, proofs[1..]);
      var tail := VerifyProofs(c, mem, proofs[1..]);
      if VerifyOne(c, mem, proofs[0]).Err? {
        assert FirstRefused(c, mem, proofs, 0, VerifyProofs(c, mem, proofs).error);
      } else if tail.Err? {
        var i :| 0 <= i < |proofs[1..]| && FirstRefused(c, mem, proofs[1..], i, tail.error);
        assert proofs[i + 1] == proofs[1..][i];
        forall j | 0 <= j < i + 1 ensures Genuine(c, mem, proofs[j]) {
          assert j > 0 ==> proofs[j] == proofs[1..][j - 1];
        }
        assert FirstRefused(c, mem, proofs, i + 1, tail.error);
      }
    }
  }

  ghost predicate FirstRefused(c: Curve, mem: Memory, proofs: seq<Proof>, i: nat, e: SignError)
    requires c.group.q > 0 && i < |proofs|
  {
    && (forall j :: 0 <= j < i ==> Genuine(c, mem, proofs[j]))
    && !Genuine(c, mem, proofs[i]) && RefusedWith(c, mem, proofs[i], e)
  }

  // ----- Signing -----

  /** The mint has an active key for the message. */
  predicate Signable(grp: Group, mem: Memory, m: BlindedMessage)
    requires grp.q > 0
  {
    && Known(mem, m.keysetId, m.amount) && mem[m.keysetId].info.active
    && (KeyOf(mem, m.keysetId, m.amount) * m.blinded) % grp.q != 0
  }

  /** Why a message is not signed. */
  predicate UnsignedWith(mem: Memory, m: BlindedMessage, e: SignError) {
    if m.keysetId !in mem then e == UnknownKeySet
    else if !mem[m.keysetId].info.active then e == InactiveKeyset
    else if m.amount !in mem[m.keysetId].keyset.keys then e == UnknownKeySet
    else e == Dhke(Secp256k1)
  }

  lemma SignOneIff(grp: Group, mem: Memory, m: BlindedMessage)
    requires grp.q > 0 && MemoryOk(grp, mem)
    ensures match SignOne(grp, mem, m)
            case Ok(p) =>
              && Signable(grp, mem, m)
              && p == Promise(m.amount, m.keysetId, (KeyOf(mem, m.keysetId, m.amount) * m.blinded) % grp.q)
            case Err(e) => !Signable(grp, mem, m) && UnsignedWith(mem, m, e)
  {
    if Known(mem, m.keysetId, m.amount) {
      assert KeyPairOk(grp, mem[m.keysetId].keyset.keys[m.amount]);
      ModSmall(KeyOf(mem, m.keysetId, m.amount), grp.q);
    }
  }

  /** A list of messages is signed if and only if each has an active key; then promise i is k times the
      blinded point of message i, with its amount and keyset.  Otherwise the first message that cannot be
      signed decides the error. */
  lemma BlindSignIff(grp: Group, mem: Memory, messages: seq<BlindedMessage>)
    requires grp.q > 0 && MemoryOk(grp, mem)
    ensures match BlindSign(grp, mem, messages)
            case Ok(promises) =>
              && |promises| == |messages|
              && forall i :: 0 <= i < |messages| ==>
                   var m := messages[i];
                   && Signable(grp, mem, m)
                   && promises[i] == Promise(m.amount, m.keysetId,
                                             (KeyOf(mem, m.keysetId, m.amount) * m.blinded) % grp.q)
            case Err(e) =>
              exists i :: 0 <= i < |messages| && !Signable(grp, mem, messages[i]) && UnsignedWith(mem, messages[i], e)
                && forall j :: 0 <= j < i ==> Signable(grp, mem, messages[j])
  {
    BlindSignAllOrNothing(grp, mem, messages);
    forall i | 0 <= i < |messages|
      ensures match SignOne(grp, mem, messages[i])
              case Ok(p) =>
                && Signable(grp, mem, messages[i])
                && p == Promise(messages[i].amount, messages[i].keysetId,
                                (KeyOf(mem, messages[i].keysetId, messages[i].amount) * messages[i].blinded) % grp.q)
              case Err(e) => !Signable(grp, mem, messages[i]) && UnsignedWith(mem, messages[i], e)
    {
      SignOneIff(grp, mem, messages[i]);
    }
  }

  // ----- Constructing proofs -----

  /** C - rK is a point. */
  predicate Unblindable(grp: Group, c: nat, r: nat, k: nat)
    requires grp.q > 0
  {
    r % grp.q != 0 && (r * k) % grp.q != 0 && (c - r * k) % grp.q != 0
  }

  lemma UnblindIff(grp: Group, c: nat, r: nat, k: nat)
    requires grp.q > 0
    ensures UnblindMessage(grp, c, r, k)
            == if Unblindable(grp, c, r, k) then Ok((c - r * k) % grp.q) else Err(Secp256k1)
  {
    var q, a := grp.q, (r * k) % grp.q;
    if r % q != 0 && a != 0 {
      AddMod(0 - a, c, q);
      SubMod(c, r * k, q);
      assert (c + (0 - a) % q) % q == (c - r * k) % q;
    }
  }

  /** What the wallet needs for promise i. */
  predicate Provable(grp: Group, p: Promise, r: nat, keys: map<nat, nat>)
    requires grp.q > 0
  {
    p.amount in keys && Unblindable(grp, p.c, r, keys[p.amount])
  }

  lemma ProofOfIff(grp: Group, p: Promise, r: nat, secret: seq<byte>, keys: map<nat, nat>)
    requires grp.q > 0
    ensures ProofOf(grp, p, r, secret, keys)
            == if p.amount !in keys then Err(NoKeyForAmount)
               else if !Unblindable(grp, p.c, r, keys[p.amount]) then Err(Secp256k1)
               else Ok(Proof(p.amount, p.keysetId, secret, (p.c - r * keys[p.amount]) % grp.q))
  {
    if p.amount in keys {
      UnblindIff(grp, p.c, r, keys[p.amount]);
    }
  }

  /** Lists of different lengths are refused.  Otherwise proof i has the amount and keyset of promise i,
      secret i, and the point C - rK for the key K of the amount, if every amount has a key and every such
      point exists; and if not, the first promise without one decides the error. */
  lemma {:induction false} ProofListIff(grp: Group, promises: seq<Promise>, rs: seq<nat>, secrets: seq<seq<byte>>,
                                        keys: map<nat, nat>)
    requires grp.q > 0
    ensures match ProofList(grp, promises, rs, secrets, keys)
            case Ok(proofs) =>
              && |proofs| == |promises| == |rs| == |secrets|
              && forall i :: 0 <= i < |promises| ==>
                   && Provable(grp, promises[i], rs[i], keys)
                   && proofs[i] == Proof(promises[i].amount, promises[i].keysetId, secrets[i],
                                         (promises[i].c - rs[i] * keys[promises[i].amount]) % grp.q)
            case Err(e) =>
              if |promises| != |rs| || |promises| != |secrets| then e == LengthMismatch
              else exists i :: 0 <= i < |promises| && FirstUnprovable(grp, promises, rs, keys, i, e)
  {
    if |promises| == |rs| == |secrets| && promises != [] {
      ProofOfIff(grp, promises[0], rs[0], secrets[0], keys);
      ProofListIff(grp, promises[1..], rs[1..], secrets[1..], keys);
      var first := ProofOf(grp, promises[0], rs[0], secrets[0], keys);
      var tail := ProofList(grp, promises[1..], rs[1..], secrets[1..], keys);
      ProofListCons(grp, promises, rs, secrets, keys);
      if first.Err? {
        assert FirstUnprovable(grp, promises, rs, keys, 0, first.error);
      } else if tail.Err? {
        UnprovableLater(grp, promises, rs, keys, tail.error);
      }
    }
  }

  lemma ProofListCons(grp: Group, promises: seq<Promise>, rs: seq<nat>, secrets: seq<seq<byte>>, keys: map<nat, nat>)
    requires grp.q > 0 && |promises| == |rs| == |secrets| && promises != []
    ensures var first := ProofOf(grp, promises[0], rs[0], secrets[0], keys);
            var tail := ProofList(grp, promises[1..], rs[1..], secrets[1..], keys);
            ProofList(grp, promises, rs, secrets, keys)
            == if first.Err? then Err(first.error) else if tail.Err? then tail else Ok([first.value] + tail.value)
  {
  }

  ghost predicate FirstUnprovable(grp: Group, promises: seq<Promise>, rs: seq<nat>, keys: map<nat, nat>, i: nat,
                                  e: DhkeError)
    requires grp.q > 0 && |promises| == |rs| && i < |promises|
  {
    && (forall j :: 0 <= j < i ==> Provable(grp, promises[j], rs[j], keys))
    && !Provable(grp, promises[i], rs[i], keys)
    && e == if promises[i].amount in keys then Secp256k1 else NoKeyForAmount
  }

  lemma UnprovableLater(grp: Group, promises: seq<Promise>, rs: seq<nat>, keys: map<nat, nat>, e: DhkeError)
    requires grp.q > 0 && |promises| == |rs| && promises != [] && Provable(grp, promises[0], rs[0], keys)
    requires exists i :: 0 <= i < |promises| - 1 && FirstUnprovable(grp, promises[1..], rs[1..], keys, i, e)
    ensures exists i :: 0 <= i < |promises| && FirstUnprovable(grp, promises, rs, keys, i, e)
  {
    var i :| 0 <= i < |promises| - 1 && FirstUnprovable(grp, promises[1..], rs[1..], keys, i, e);
    forall j | 0 <= j < i + 1 ensures Provable(grp, promises[j], rs[j], keys) {
      assert j > 0 ==> promises[j] == promises[1..][j - 1] && rs[j] == rs[1..][j - 1];
    }
    assert FirstUnprovable(grp, promises, rs, keys, i + 1, e);
  }
}
