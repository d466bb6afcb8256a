/** What a keyset id says about the keys: all the public keys in order of their amounts, but not the
    amounts (crates/cashu/src/nuts/nut02.rs:194-223 and 552-590). */
module KeysetIds {
  import opened PrimeField
  import opened BlindSignature
  import opened Issuance
  import opened KeysetStore
  import opened Amount

  // ----- Amounts in order -----

  lemma {:induction false} PlaceAscends(x: nat, xs: seq<nat>)
    requires Ascending(xs)
    ensures Ascending(Place(x, xs))
  {
    if xs != [] && x > xs[0] {
      PlaceAscends(x, xs[1..]);
      var rest := Place(x, xs[1..]);
      forall i | 0 <= i < |rest| ensures xs[0] < rest[i] {
        assert rest[i] in rest;
      }
    }
  }

  lemma {:induction false} InOrderAscends(amounts: seq<nat>)
    ensures Ascending(InOrder(amounts))
  {
    if amounts != [] {
      InOrderAscends(amounts[1..]);
      PlaceAscends(amounts[0], InOrder(amounts[1..]));
    }
  }

  /** An ascending list is determined by its elements. */
  lemma AscendingUnique(xs: seq<nat>, ys: seq<nat>)
    requires Ascending(xs) && Ascending(ys) && forall a :: a in xs <==> a in ys
    ensures xs == ys
  {
    FewerElements(xs, ys);
    FewerElements(ys, xs);
    EqualByElements(xs, ys);
  }

  lemma {:induction false} FewerElements(xs: seq<nat>, ys: seq<nat>)
    requires Ascending(xs) && Ascending(ys) && forall a :: a in xs ==> a in ys
    ensures |xs| <= |ys|
    decreases |ys|
  {
    if xs != [] {
      assert xs[0] in xs;
      forall a | a in xs[1..] ensures a in ys[1..] {
        InTail(xs, a);
        InTail(ys, a);
        LeastFirst(ys, xs);
      }
      FewerElements(xs[1..], ys[1..]);
    }
  }

  lemma {:induction false} EqualByElements(xs: seq<nat>, ys: seq<nat>)
    requires |xs| == |ys| && Ascending(xs) && Ascending(ys) && forall a :: a in xs <==> a in ys
    ensures xs == ys
  {
    if xs != [] {
      assert xs[0] in xs && ys[0] in ys;
      LeastFirst(xs, ys);
      LeastFirst(ys, xs);
      forall a ensures a in xs[1..] <==> a in ys[1..] {
        InTail(xs, a);
        InTail(ys, a);
      }
      EqualByElements(xs[1..], ys[1..]);
    }
  }

  lemma LeastFirst(xs: seq<nat>, ys: seq<nat>)
    requires Ascending(xs) && xs != [] && ys != [] && ys[0] in xs
    ensures xs[0] <= ys[0]
  {
  }

  lemma InTail(xs: seq<nat>, a: nat)
    requires Ascending(xs) && xs != []
    ensures a in xs[1..] <==> a in xs && a != xs[0]
  {
  }

  lemma InOrderOfAscending(amounts: seq<nat>)
    requires Ascending(amounts)
    ensures InOrder(amounts) == amounts
  {
    InOrderAscends(amounts);
    AscendingUnique(InOrder(amounts), amounts);
  }

  // ----- Ids -----

  function Pubs(kc: Keychain, info: KeySetInfo): map<nat, nat>
    requires kc.group.q > 0
  {
    PublicKeys(KeysOf(kc, info.path, info.amounts))
  }

  /** The id of a row is the id of its keys. */
  predicate RowIdOk(kc: Keychain, info: KeySetInfo)
    requires kc.group.q > 0
  {
    info.id == IdOf(kc, info.path, info.amounts)
  }

  lemma SamePubsUpToFlag(kc: Keychain, a: KeySetInfo, b: KeySetInfo)
    requires kc.group.q > 0 && b == a.(active := b.active)
    ensures Pubs(kc, b) == Pubs(kc, a)
  {
  }

  lemma PubAt(kc: Keychain, path: Path, amounts: seq<nat>, i: nat)
    requires kc.group.q > 0 && i < |InOrder(amounts)|
    ensures InOrder(amounts)[i] in KeysOf(kc, path, amounts)
    ensures PubList(kc, path, amounts)[i] == KeysOf(kc, path, amounts)[InOrder(amounts)[i]].public
  {
    assert InOrder(amounts)[i] in InOrder(amounts);
  }

  /** The id is a function of the keys, however their amounts were listed. */
  lemma SameKeysSameId(kc: Keychain, path: Path, a: seq<nat>, path': Path, b: seq<nat>)
    requires kc.group.q > 0 && KeysOf(kc, path, a) == KeysOf(kc, path', b)
    ensures IdOf(kc, path, a) == IdOf(kc, path', b)
  {
    InOrderAscends(a);
    InOrderAscends(b);
    forall x ensures x in InOrder(a) <==> x in InOrder(b) {
      assert x in KeysOf(kc, path, a) <==> x in KeysOf(kc, path', b);
    }
    AscendingUnique(InOrder(a), InOrder(b));
    assert PubList(kc, path, a) == PubList(kc, path', b);
  }

  /** Two rows with one id have the same public keys behind their amounts if and only if they have the
      same amounts. */
  lemma SamePubsIff(kc: Keychain, a: KeySetInfo, b: KeySetInfo)
    requires kc.Valid() && RowIdOk(kc, a) && RowIdOk(kc, b) && a.id == b.id
    ensures |InOrder(a.amounts)| == |InOrder(b.amounts)|
    ensures Pubs(kc, a) == Pubs(kc, b) <==> InOrder(a.amounts) == InOrder(b.amounts)
  {
    assert PubList(kc, a.path, a.amounts) == PubList(kc, b.path, b.amounts);
    if InOrder(a.amounts) == InOrder(b.amounts) {
      forall x | x in a.amounts ensures x in b.amounts && Pubs(kc, a)[x] == Pubs(kc, b)[x] {
        assert x in InOrder(a.amounts);
        var i :| 0 <= i < |InOrder(a.amounts)| && InOrder(a.amounts)[i] == x;
        PubAt(kc, a.path, a.amounts, i);
        PubAt(kc, b.path, b.amounts, i);
      }
      SameDomain(kc, a, b);
    }
    if Pubs(kc, a) == Pubs(kc, b) {
      SameAmounts(kc, a, b);
    }
  }

  lemma SameDomain(kc: Keychain, a: KeySetInfo, b: KeySetInfo)
    requires kc.group.q > 0 && InOrder(a.amounts) == InOrder(b.amounts)
    ensures Pubs(kc, a).Keys == Pubs(kc, b).Keys
  {
    forall x ensures x in Pubs(kc, a) <==> x in Pubs(kc, b) {
      assert x in a.amounts <==> x in InOrder(a.amounts);
      assert x in b.amounts <==> x in InOrder(b.amounts);
    }
  }

  lemma SameAmounts(kc: Keychain, a: KeySetInfo, b: KeySetInfo)
    requires kc.group.q > 0 && Pubs(kc, a) == Pubs(kc, b)
    ensures InOrder(a.amounts) == InOrder(b.amounts)
  {
    InOrderAscends(a.amounts);
    InOrderAscends(b.amounts);
    forall x ensures x in InOrder(a.amounts) <==> x in InOrder(b.amounts) {
      assert x in Pubs(kc, a) <==> x in a.amounts;
      assert x in Pubs(kc, b) <==> x in b.amounts;
    }
    AscendingUnique(InOrder(a.amounts), InOrder(b.amounts));
  }

  // ----- Keys by position -----

  lemma {:induction false} KeyOfAscending(kc: Keychain, path: Path, amounts: seq<nat>, n: nat, i: nat)
    requires kc.group.q > 0 && Ascending(amounts) && i < n <= |amounts|
    ensures amounts[i] in KeysUpTo(kc, path, amounts, n)
    ensures KeysUpTo(kc, path, amounts, n)[amounts[i]] == kc.Pair(path, i)
  {
    assert amounts[..n][i] == amounts[i];
    if i < n - 1 {
      KeyOfAscending(kc, path, amounts, n - 1, i);
    }
  }

  /** Amount i has the key of child i of the path, unless it is listed again later. */
  lemma {:induction false} KeyOfAmount(kc: Keychain, path: Path, amounts: seq<nat>, n: nat, i: nat)
    requires kc.group.q > 0 && i < n <= |amounts| && forall j :: i < j < n ==> amounts[j] != amounts[i]
    ensures amounts[i] in KeysUpTo(kc, path, amounts, n)
    ensures var k := KeysUpTo(kc, path, amounts, n)[amounts[i]];
            k.secret == kc.child(path, i) && k.public == (kc.child(path, i) * kc.group.g) % kc.group.q
  {
    assert amounts[..n][i] == amounts[i];
    if i < n - 1 {
      KeyOfAmount(kc, path, amounts, n - 1, i);
    }
  }

  /** Different amounts have the keys of different children. */
  lemma {:induction false} KeysOfTwoAmounts(kc: Keychain, path: Path, amounts: seq<nat>, n: nat, a: nat, b: nat)
    returns (i: nat, j: nat)
    requires kc.group.q > 0 && n <= |amounts| && a in amounts[..n] && b in amounts[..n] && a != b
    ensures i < n && j < n && i != j && a in KeysUpTo(kc, path, amounts, n) && b in KeysUpTo(kc, path, amounts, n)
    ensures KeysUpTo(kc, path, amounts, n)[a].secret == kc.child(path, i)
    ensures KeysUpTo(kc, path, amounts, n)[b].secret == kc.child(path, j)
  {
    i := LastPlace(amounts, n, a);
    j := LastPlace(amounts, n, b);
    KeyOfAmount(kc, path, amounts, n, i);
    KeyOfAmount(kc, path, amounts, n, j);
  }

  lemma {:induction false} LastPlace(amounts: seq<nat>, n: nat, a: nat) returns (i: nat)
    requires n <= |amounts| && a in amounts[..n]
    ensures i < n && amounts[i] == a && forall j :: i < j < n ==> amounts[j] != a
  {
    assert amounts[..n] == amounts[..n - 1] + [amounts[n - 1]];
    if amounts[n - 1] == a {
      i := n - 1;
    } else {
      i := LastPlace(amounts, n - 1, a);
    }
  }

  /** On one path, ascending lists of equal length have one id, whatever their amounts. */
  lemma SameLengthSameId(kc: Keychain, path: Path, a: seq<nat>, b: seq<nat>)
    requires kc.group.q > 0 && Ascending(a) && Ascending(b) && |a| == |b|
    ensures IdOf(kc, path, a) == IdOf(kc, path, b)
  {
    InOrderOfAscending(a);
    InOrderOfAscending(b);
    forall i | 0 <= i < |a| ensures PubList(kc, path, a)[i] == PubList(kc, path, b)[i] {
      PubAt(kc, path, a, i);
      PubAt(kc, path, b, i);
      KeyOfAscending(kc, path, a, |a|, i);
      KeyOfAscending(kc, path, b, |b|, i);
    }
    assert PubList(kc, path, a) == PubList(kc, path, b);
  }

  // ----- From public keys to secret keys -----

  lemma {:induction false} KeyAt(kc: Keychain, path: Path, amounts: seq<nat>, n: nat, a: nat) returns (i: nat)
    requires kc.group.q > 0 && n <= |amounts|
    requires a in KeysUpTo(kc, path, amounts, n)
    ensures i < n && KeysUpTo(kc, path, amounts, n)[a] == kc.Pair(path, i)
  {
    if a == amounts[n - 1] {
      i := n - 1;
    } else {
      i := KeyAt(kc, path, amounts, n - 1, a);
    }
  }

  lemma GeneratedKeysOk(kc: Keychain, path: Path, amounts: seq<nat>)
    requires kc.Valid()
    ensures KeysOk(kc.group, KeysOf(kc, path, amounts))
  {
    forall a | a in KeysOf(kc, path, amounts) ensures KeyPairOk(kc.group, KeysOf(kc, path, amounts)[a]) {
      var i := KeyAt(kc, path, amounts, |amounts|, a);
    }
  }

  /** In a group of prime order a public key has one secret key. */
  lemma PublicDeterminesPair(grp: Group, k: KeyPair, l: KeyPair)
    requires grp.Valid() && KeyPairOk(grp, k) && KeyPairOk(grp, l) && k.public == l.public
    ensures k == l
  {
    CancelFactor(k.secret, l.secret, grp.g, grp.q);
  }

  /** Rows with the same public keys generate the same keys. */
  lemma SamePubsSameKeys(kc: Keychain, a: KeySetInfo, b: KeySetInfo)
    requires kc.Valid() && Pubs(kc, a) == Pubs(kc, b)
    ensures KeysOf(kc, a.path, a.amounts) == KeysOf(kc, b.path, b.amounts)
  {
    var x, y := KeysOf(kc, a.path, a.amounts), KeysOf(kc, b.path, b.amounts);
    GeneratedKeysOk(kc, a.path, a.amounts);
    GeneratedKeysOk(kc, b.path, b.amounts);
    assert x.Keys == PublicKeys(x).Keys && y.Keys == PublicKeys(y).Keys;
    forall n | n in x ensures n in y && x[n] == y[n] {
      assert n in PublicKeys(x) && PublicKeys(x)[n] == x[n].public;
      assert PublicKeys(y)[n] == y[n].public;
      PublicDeterminesPair(kc.group, x[n], y[n]);
    }
  }
}
