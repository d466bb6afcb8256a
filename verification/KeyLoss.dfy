/** Where issued proofs are lost: a keyset id does not depend on the amounts, so a rotation on the path
    of a stored keyset can put other amounts behind its id
    (crates/cashu/src/nuts/nut02.rs:201-223, crates/cdk-signatory/src/db_signatory.rs:236-256). */
module KeyLoss {
  import opened Wrappers
  import opened BlindSignature
  import opened Issuance
  import opened KeysetStore
  import opened KeysetIds
  import opened KeysetTheorems
  import opened SignatoryRuns
  import Amount

  /** A rotation on the path of a stored keyset, with equally many amounts, overwrites that keyset; it
      keeps its keys if and only if the amounts are the same. */
  lemma RotationOverwrites(kc: Keychain, s: Store, rows: seq<KeySetInfo>, args: RotateArguments,
                           custom: map<CurrencyUnit, Path>, x: nat)
    requires kc.Valid() && WellFormed(kc, s) && x in s
    requires Rotate(kc, s, rows, args, custom).error.None?
    requires NewPath(custom, args.unit, RotationIndex(rows, args.unit)) == Ok(s[x].path)
    requires Amount.Ascending(s[x].amounts) && Amount.Ascending(args.amounts) && |s[x].amounts| == |args.amounts|
    ensures var t := Rotate(kc, s, rows, args, custom).store;
            && t.Keys == s.Keys && t[x].path == s[x].path && t[x].amounts == args.amounts
            && (KeepsKeys(kc, s, t) <==> args.amounts == s[x].amounts)
  {
    var info := NewInfo(kc, custom, args.unit, RotationIndex(rows, args.unit), args.amounts, args.feePpk).value;
    SameLengthSameId(kc, s[x].path, s[x].amounts, args.amounts);
    assert info.id == x && info.amounts == args.amounts && info.path == s[x].path;
    RotateKeepsKeysIff(kc, s, rows, args, custom);
    Overwrites(s, info);
  }

  lemma Overwrites(s: Store, info: KeySetInfo)
    requires info.id in s && Amount.Ascending(s[info.id].amounts) && Amount.Ascending(info.amounts)
    ensures var t := Activate(s, info);
            t.Keys == s.Keys && t[info.id].path == info.path && t[info.id].amounts == info.amounts
    ensures SameAmountsIfStored(s, info) <==> info.amounts == s[info.id].amounts
  {
    InOrderOfAscending(s[info.id].amounts);
    InOrderOfAscending(info.amounts);
  }

  /** Then the key of each amount is now the key of the new amount in its place. */
  lemma KeysMove(kc: Keychain, path: Path, a: seq<nat>, b: seq<nat>, k: nat)
    requires kc.group.q > 0 && Amount.Ascending(a) && Amount.Ascending(b) && k < |a| == |b|
    ensures KeysOf(kc, path, a)[a[k]] == KeysOf(kc, path, b)[b[k]]
    ensures KeysOf(kc, path, a)[a[k]].secret == kc.child(path, k)
  {
    KeyOfAscending(kc, path, a, |a|, k);
    KeyOfAscending(kc, path, b, |b|, k);
    KeyOfAmount(kc, path, a, |a|, k);
  }

  /** A proof of an amount that is no longer behind its id is refused, as of an unknown keyset. */
  lemma LostAmount(kc: Keychain, c: Curve, n: Node, p: Proof)
    requires kc.group.q > 0 && c.group == kc.group && NodeOk(kc, n) && n.live.Some?
    requires p.keysetId in n.store && p.amount !in n.store[p.keysetId].amounts
    ensures VerifyOne(c, n.live.value.memory, p) == Err(UnknownKeySet)
  {
  }

  /** Two live states verify every proof of a keyset with the same result if and only if they have the
      same amounts behind its id. */
  lemma SameVerdictIff(kc: Keychain, c: Curve, m: Node, n: Node, id: nat)
    requires kc.Valid() && c.group == kc.group && NodeOk(kc, m) && NodeOk(kc, n) && m.live.Some? && n.live.Some?
    requires id in m.store && id in n.store
    ensures (forall p: Proof :: p.keysetId == id ==>
              VerifyOne(c, n.live.value.memory, p) == VerifyOne(c, m.live.value.memory, p))
            <==> InOrder(m.store[id].amounts) == InOrder(n.store[id].amounts)
  {
    SamePubsIff(kc, m.store[id], n.store[id]);
    if InOrder(m.store[id].amounts) == InOrder(n.store[id].amounts) {
      forall p: Proof | p.keysetId == id
        ensures VerifyOne(c, n.live.value.memory, p) == VerifyOne(c, m.live.value.memory, p)
      {
        SameVerdict(kc, c, m, n, p);
      }
    } else {
      var x := DifferentAmount(m.store[id].amounts, n.store[id].amounts);
      var p := Proof(x, id, [], 0);
      OneKnows(kc, c, m, n, p);
    }
  }

  lemma OneKnows(kc: Keychain, c: Curve, m: Node, n: Node, p: Proof)
    requires kc.group.q > 0 && c.group == kc.group && NodeOk(kc, m) && NodeOk(kc, n) && m.live.Some? && n.live.Some?
    requires p.keysetId in m.store && p.keysetId in n.store
    requires p.amount in m.store[p.keysetId].amounts <==> p.amount !in n.store[p.keysetId].amounts
    ensures VerifyOne(c, n.live.value.memory, p) != VerifyOne(c, m.live.value.memory, p)
  {
  }

  lemma DifferentAmount(a: seq<nat>, b: seq<nat>) returns (x: nat)
    requires InOrder(a) != InOrder(b)
    ensures x in a <==> x !in b
  {
    if forall y :: y in a <==> y in b {
      InOrderAscends(a);
      InOrderAscends(b);
      AscendingUnique(InOrder(a), InOrder(b));
    }
    x :| x in a <==> x !in b;
  }
}
