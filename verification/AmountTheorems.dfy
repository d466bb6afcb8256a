/** What the splits of module Amount promise: exactness, fewest proofs, the closed form of a
    targeted split, and the split that pays its own input fee. */
module AmountTheorems {
  import opened Wrappers
  import opened Integers
  import opened Amount

  // ----- Exactness -----

  /** Greedy splitting is exact up to twice the largest denomination for exactly the keysets
      that start at 1 and never more than double. */
  lemma GreedyExactIffComplete(ds: seq<nat>)
    requires ds != [] && Positive(ds) && Ascending(ds)
    ensures (forall a: nat :: a < 2 * Last(ds) ==> Sum(Split(a, ds)) == a) <==> Complete(ds)
  {
    if Complete(ds) {
      forall a: nat | a < 2 * Last(ds) ensures Sum(Split(a, ds)) == a {
        SplitExact(a, ds);
      }
    } else {
      var a := Inexact(ds);
    }
  }

  /** The failing amount: 1, or double a denomination that is followed by a larger gap. */
  lemma Inexact(ds: seq<nat>) returns (a: nat)
    requires ds != [] && Positive(ds) && Ascending(ds) && !Complete(ds)
    ensures a < 2 * Last(ds) && Sum(Split(a, ds)) != a
  {
    if ds[0] != 1 {
      a := 1;
      SplitBelowAll(a, ds);
    } else {
      var h, i :| 0 <= h < i < |ds| && i == h + 1 && ds[i] > 2 * ds[h];
      a := 2 * ds[h];
      SplitPrefix(a, ds, i);
      assert Last(ds[..i]) == ds[i - 1] && Rem(a, ds[i - 1]) == 0;
      SplitZero(Front(ds[..i]));
    }
  }

  lemma {:induction false} SplitBelowAll(a: nat, ds: seq<nat>)
    requires Positive(ds)
    requires forall i :: 0 <= i < |ds| ==> a < ds[i]
    ensures Split(a, ds) == []
    decreases |ds|
  {
    if ds != [] {
      SplitBelowAll(a, Front(ds));
    }
  }

  /** Denominations above the amount do not matter. */
  lemma {:induction false} SplitPrefix(a: nat, ds: seq<nat>, i: nat)
    requires Positive(ds) && Ascending(ds)
    requires i <= |ds| && (i < |ds| ==> a < ds[i])
    ensures Split(a, ds) == Split(a, ds[..i])
    decreases |ds|
  {
    if i < |ds| {
      assert a < Last(ds);
      assert Front(ds)[..i] == ds[..i];
      SplitPrefix(a, Front(ds), i);
    } else {
      assert ds[..i] == ds;
    }
  }

  /** A complete keyset splits an amount exactly if and only if it is in reach. */
  lemma SplitExactIffInReach(a: nat, ds: seq<nat>)
    requires Complete(ds)
    ensures Sum(Split(a, ds)) == a <==> a < 2 * Last(ds)
  {
    SplitSumBound(a, ds);
    if a < 2 * Last(ds) {
      SplitExact(a, ds);
    }
  }

  // ----- Targeted splitting -----

  /** With a target in reach, the parts are a / t copies of the parts of t and the parts of
      a mod t, and they add up to a. */
  lemma TargetedClosedForm(a: nat, t: nat, ds: seq<nat>)
    requires Complete(ds) && 0 < t < 2 * Last(ds)
    ensures Sum(Split(t, ds)) == t
    ensures TargetedParts(a, t, ds) == Repeat(Split(t, ds), a / t) + Split(a % t, ds)
    ensures Sum(TargetedParts(a, t, ds)) == a
  {
    SplitExact(t, ds);
    TargetedPartsSum(a, t, ds);
  }

  /** The unchecked addition cannot overflow when the amount and the target fit together. */
  lemma TargetedDoesNotPanic(a: nat, t: nat, ds: seq<nat>)
    requires Complete(ds) && 0 < t && a + t <= U64_MAX
    ensures Sum(Split(t, ds)) > 0
    ensures !TargetedPanics(a, t, ds)
  {
    SplitNonEmpty(t, ds);
    SplitBelow(t, ds);
    FirstReachBelow(Split(t, ds), a % Sum(Split(t, ds)));
  }

  lemma {:induction false} FirstReachBelow(parts: seq<nat>, r: nat)
    ensures FirstReach(parts, r) <= Sum(parts)
  {
    if parts != [] && r > 0 && parts[0] <= r {
      FirstReachBelow(parts[1..], r - parts[0]);
    }
  }

  /** The limit is real: a target of 2 breaks u64::MAX. */
  lemma TargetedCanPanic()
    ensures Complete([1, 2])
    ensures Sum(Split(2, [1, 2])) == 2
    ensures TargetedPanics(U64_MAX, 2, [1, 2])
  {
    SplitExact(2, [1, 2]);
    assert Split(2, [1, 2]) == [2] + Split(0, [1]);
    SplitZero([1]);
  }

  /** A pass comes closer to the amount or changes nothing, and never goes beyond it. */
  lemma {:induction false} PassGrows(a: nat, ds: seq<nat>, value: seq<nat>, parts: seq<nat>)
    requires Positive(ds) && Sum(parts) <= a && forall i :: 0 <= i < |value| ==> value[i] > 0
    ensures Sum(parts) <= Sum(Pass(a, ds, value, parts)) <= a
    ensures Sum(parts) == Sum(Pass(a, ds, value, parts)) ==> Pass(a, ds, value, parts) == parts
    decreases |value|
  {
    if value != [] && Sum(parts) < a {
      var next := AddPart(a, ds, value[0], parts);
      AddPartProgress(a, ds, value[0], parts);
      AddPartStays(a, ds, value[0], parts);
      PassGrows(a, ds, value[1..], next);
    }
  }

  lemma AddPartStays(a: nat, ds: seq<nat>, part: nat, parts: seq<nat>)
    requires Positive(ds) && Sum(parts) < a && part > 0
    ensures Sum(AddPart(a, ds, part, parts)) == Sum(parts) ==> AddPart(a, ds, part, parts) == parts
  {
    var left := a - Sum(parts);
    SumConcat(parts, [part]);
    SumConcat(parts, Split(left, ds));
    SplitBelow(left, ds);
    if Split(left, ds) != [] {
      assert Split(left, ds)[0] in Split(left, ds);
    } else {
      assert parts + [] == parts;
    }
  }

  /** Passes only add; what `k` passes leave unchanged, no later pass changes. */
  lemma {:induction false} PassesGrow(a: nat, ds: seq<nat>, value: seq<nat>, j: nat, k: nat)
    requires Positive(ds) && j <= k && forall i :: 0 <= i < |value| ==> value[i] > 0
    ensures Sum(Passes(a, ds, value, j)) <= Sum(Passes(a, ds, value, k)) <= a
    ensures Pass(a, ds, value, Passes(a, ds, value, j)) == Passes(a, ds, value, j) ==>
              Passes(a, ds, value, k) == Passes(a, ds, value, j)
    decreases k
  {
    if k > 0 {
      PassesGrow(a, ds, value, if j < k then j else k - 1, k - 1);
      PassGrows(a, ds, value, Passes(a, ds, value, k - 1));
    }
  }

  /** After `k` passes at least `k` is reached, or nothing changes any more. */
  lemma {:induction false} PassesSettle(a: nat, ds: seq<nat>, value: seq<nat>, k: nat)
    requires Positive(ds) && forall i :: 0 <= i < |value| ==> value[i] > 0
    ensures Sum(Passes(a, ds, value, k)) >= k
            || Pass(a, ds, value, Passes(a, ds, value, k)) == Passes(a, ds, value, k)
  {
    if k > 0 {
      PassesSettle(a, ds, value, k - 1);
      PassesGrow(a, ds, value, k - 1, k - 1);
      PassGrows(a, ds, value, Passes(a, ds, value, k - 1));
    }
  }

  /** A pass that panics adds up to too much with the largest part. */
  lemma {:induction false} PassPanicsTop(a: nat, ds: seq<nat>, value: seq<nat>, parts: seq<nat>, top: nat)
    requires Positive(ds) && Sum(parts) <= a && forall i :: 0 <= i < |value| ==> 0 < value[i] <= top
    ensures PassPanics(a, ds, value, parts) ==> top + Sum(Pass(a, ds, value, parts)) > U64_MAX
    decreases |value|
  {
    if value != [] && Sum(parts) < a {
      var next := AddPart(a, ds, value[0], parts);
      AddPartProgress(a, ds, value[0], parts);
      PassGrows(a, ds, value[1..], next);
      PassPanicsTop(a, ds, value[1..], next, top);
    }
  }

  /** All passes together reach no more than the first `a` of them. */
  lemma PassesReach(a: nat, ds: seq<nat>, value: seq<nat>, k: nat)
    requires Positive(ds) && forall i :: 0 <= i < |value| ==> value[i] > 0
    ensures Sum(Passes(a, ds, value, k)) <= Sum(Passes(a, ds, value, a)) <= a
  {
    PassesSettle(a, ds, value, a);
    PassesGrow(a, ds, value, a, a);
    if k <= a {
      PassesGrow(a, ds, value, k, a);
    } else {
      PassesGrow(a, ds, value, a, k);
    }
  }

  /** The loop of a value target ends if and only if the first `a` passes, carried out without regard
      to overflow, reach the amount, or what they reach overflows with the largest part of the target;
      then the panic ends it.  Otherwise it runs for ever. */
  lemma TargetedHaltsIff(a: nat, t: nat, ds: seq<nat>)
    requires Positive(ds) && Ascending(ds)
    ensures var value := Split(t, ds);
            var reached := Sum(Passes(a, ds, value, a));
            Halts(a, t, ds) <==> reached == a || (value != [] && value[0] + reached > U64_MAX)
  {
    var value := Split(t, ds);
    var reached := Sum(Passes(a, ds, value, a));
    PartsPositive(t, ds);
    SplitDescends(t, ds);
    if Halts(a, t, ds) {
      var k: nat :| StopsAfter(a, t, ds, k);
      PassesReach(a, ds, value, k);
      if Sum(Passes(a, ds, value, k)) != a {
        PassPanicsTop(a, ds, value, Passes(a, ds, value, k), value[0]);
        PassesReach(a, ds, value, k + 1);
      }
    }
    if reached == a || (value != [] && value[0] + reached > U64_MAX) {
      assert StopsAfter(a, t, ds, a);
    }
  }

  /** With 1 as a denomination the loop of every target above 0 ends. */
  lemma TargetedHalts(a: nat, t: nat, ds: seq<nat>)
    requires Positive(ds) && ds != [] && ds[0] == 1 && t > 0
    ensures Halts(a, t, ds)
  {
    SplitNonEmpty(t, ds);
    PartsPositive(t, ds);
    var k := PassesEnd(a, ds, Split(t, ds), 0);
    assert StopsAfter(a, t, ds, k);
  }

  /** The loop ends for every u64 amount above the target if the target is above 0 and the smallest
      denomination is 1; and only then, but for the last few targets near the limit, where the panic
      may end the others too. */
  lemma TargetedAlwaysHaltsIff(t: nat, ds: seq<nat>)
    requires Positive(ds) && Ascending(ds) && ds != []
    ensures t > 0 && ds[0] == 1 ==> forall a :: t < a <= U64_MAX ==> Halts(a, t, ds)
    ensures t + 2 * Sum(Split(t, ds)) < U64_MAX ==>
              ((forall a :: t < a <= U64_MAX ==> Halts(a, t, ds)) <==> t > 0 && ds[0] == 1)
  {
    if t > 0 && ds[0] == 1 {
      forall a | t < a <= U64_MAX ensures Halts(a, t, ds) {
        TargetedHalts(a, t, ds);
      }
    } else if t + 2 * Sum(Split(t, ds)) < U64_MAX {
      var a := Stuck(t, ds);
      assert t < a <= U64_MAX && !Halts(a, t, ds);
    }
  }

  /** The number of passes after which the amount is reached. */
  lemma {:induction false} PassesEnd(a: nat, ds: seq<nat>, value: seq<nat>, k0: nat) returns (k: nat)
    requires Positive(ds) && ds != [] && ds[0] == 1
    requires value != [] && (forall i :: 0 <= i < |value| ==> value[i] > 0) && Sum(Passes(a, ds, value, k0)) <= a
    ensures Sum(Passes(a, ds, value, k)) == a
    decreases a - Sum(Passes(a, ds, value, k0))
  {
    if Sum(Passes(a, ds, value, k0)) == a {
      k := k0;
    } else {
      PassProgress(a, ds, value, Passes(a, ds, value, k0));
      k := PassesEnd(a, ds, value, k0 + 1);
    }
  }

  /** The failing amount: one more than the whole copies of the target that pass it, so at most twice
      the target and one. */
  lemma Stuck(t: nat, ds: seq<nat>) returns (a: nat)
    requires Positive(ds) && Ascending(ds) && ds != [] && (t == 0 || ds[0] > 1)
    requires t + 2 * Sum(Split(t, ds)) < U64_MAX
    ensures t < a <= U64_MAX && a <= 2 * t + 1 && !Halts(a, t, ds)
  {
    var value := Split(t, ds);
    SplitBelow(t, ds);
    PartsPositive(t, ds);
    if value == [] {
      a := t + 1;
      if Halts(a, t, ds) {
        HaltsNeedsTarget(a, t, ds);
      }
    } else {
      assert value[0] in value;
      var k;
      k, a := CopiesBeyond(t, value);
      StuckForEver(a, t, ds, k);
    }
  }

  /** Just enough copies to pass `t`. */
  lemma CopiesBeyond(t: nat, value: seq<nat>) returns (k: nat, a: nat)
    requires Sum(value) > 0
    ensures a == Sum(Repeat(value, k)) + 1 && t < a <= t + Sum(value) + 1
  {
    var q, r := DivMod(t, Sum(value));
    k := q + 1;
    SumRepeat(value, k);
    MultiplyOut(k, Sum(value));
    a := Sum(Repeat(value, k)) + 1;
  }

  lemma StuckForEver(a: nat, t: nat, ds: seq<nat>, m: nat)
    requires Positive(ds) && Ascending(ds) && ds != [] && ds[0] > 1
    requires a == Sum(Repeat(Split(t, ds), m)) + 1 && a + Sum(Split(t, ds)) <= U64_MAX
    ensures !Halts(a, t, ds)
  {
    var value := Split(t, ds);
    SplitBelow(t, ds);
    PartsPositive(t, ds);
    assert forall i :: 0 <= i < |value| ==> value[i] in value;
    forall k: nat ensures !StopsAfter(a, t, ds, k) {
      if k < m {
        RepeatMonotone(value, k, m);
        WholePasses(a, ds, value, k);
      } else {
        StuckPasses(a, ds, value, k, m);
      }
      forall i | 0 <= i < |value| ensures 0 < value[i] <= Sum(value) {
        PartBelowSum(value, i);
      }
      PassPanicsBound(a, Sum(value), ds, value, Passes(a, ds, value, k));
    }
  }

  lemma {:induction false} PartBelowSum(xs: seq<nat>, i: nat)
    requires i < |xs|
    ensures xs[i] <= Sum(xs)
  {
    if i > 0 {
      PartBelowSum(xs[1..], i - 1);
    }
  }

  /** A keyset without 1 that still ends for the amounts it can make up. */
  lemma TargetedCanHaltWithoutOne()
    ensures Halts(4, 2, [2])
  {
    assert Split(2, [2]) == [2] && Split(0, []) == [];
    assert Passes(4, [2], [2], 0) == [];
    assert Passes(4, [2], [2], 1) == [2];
    assert Passes(4, [2], [2], 2) == [2, 2];
    assert StopsAfter(4, 2, [2], 2);
  }

  lemma {:induction false} RepeatMonotone(xs: seq<nat>, m: nat, n: nat)
    requires m <= n
    ensures Sum(Repeat(xs, m)) <= Sum(Repeat(xs, n))
  {
    if m < n {
      RepeatMonotone(xs, m, n - 1);
      SumConcat(Repeat(xs, n - 1), xs);
    }
  }

  predicate AllAboveOne(xs: seq<nat>) {
    forall i :: 0 <= i < |xs| ==> 1 < xs[i]
  }

  /** One short of the amount, nothing fits any more. */
  lemma {:induction false} StuckPasses(a: nat, ds: seq<nat>, value: seq<nat>, k: nat, m: nat)
    requires Positive(ds) && AllAboveOne(ds) && AllAboveOne(value) && m <= k
    requires a == Sum(Repeat(value, m)) + 1
    ensures Passes(a, ds, value, k) == Repeat(value, m)
  {
    if k == m {
      WholePasses(a, ds, value, m);
    } else {
      StuckPasses(a, ds, value, k - 1, m);
      StuckPass(a, ds, value, Repeat(value, m));
    }
  }

  lemma {:induction false} WholePasses(a: nat, ds: seq<nat>, value: seq<nat>, k: nat)
    requires Positive(ds) && Sum(Repeat(value, k)) < a
    ensures Passes(a, ds, value, k) == Repeat(value, k)
  {
    if k > 0 {
      SumConcat(Repeat(value, k - 1), value);
      WholePasses(a, ds, value, k - 1);
      WholePass(a, ds, value, Repeat(value, k - 1));
    }
  }

  lemma {:induction false} WholePass(a: nat, ds: seq<nat>, value: seq<nat>, parts: seq<nat>)
    requires Positive(ds) && Sum(parts) + Sum(value) < a
    ensures Pass(a, ds, value, parts) == parts + value
    decreases |value|
  {
    if value != [] {
      SumConcat(parts, [value[0]]);
      WholePass(a, ds, value[1..], parts + [value[0]]);
      assert parts + [value[0]] + value[1..] == parts + value;
    }
  }

  lemma {:induction false} StuckPass(a: nat, ds: seq<nat>, value: seq<nat>, parts: seq<nat>)
    requires Positive(ds) && AllAboveOne(ds) && AllAboveOne(value)
    requires a == Sum(parts) + 1
    ensures Pass(a, ds, value, parts) == parts
    decreases |value|
  {
    if value != [] {
      SplitBelowAll(1, ds);
      assert AddPart(a, ds, value[0], parts) == parts + [] == parts;
      StuckPass(a, ds, value[1..], parts);
    }
  }

  // ----- Power-of-two keysets -----

  function Pow2(n: nat): (p: nat)
    ensures p > 0
  {
    if n == 0 then 1 else 2 * Pow2(n - 1)
  }

  lemma {:induction false} Pow2Monotone(m: nat, n: nat)
    requires m < n
    ensures Pow2(m) < Pow2(n)
  {
    if m < n - 1 {
      Pow2Monotone(m, n - 1);
    }
  }

  /** The amounts 2^0 .. 2^(n-1) that the mint generates for a unit
      (crates/cdk-signatory/src/db_signatory.rs:68-70). */
  function Keyset(n: nat): (ds: seq<nat>)
    ensures |ds| == n
    ensures Positive(ds)
  {
    if n == 0 then [] else Keyset(n - 1) + [Pow2(n - 1)]
  }

  lemma {:induction false} KeysetIsComplete(n: nat)
    requires n > 0
    ensures Complete(Keyset(n))
    ensures 2 * Last(Keyset(n)) == Pow2(n)
    ensures Front(Keyset(n)) == Keyset(n - 1)
  {
    if n > 1 {
      KeysetIsComplete(n - 1);
      AppendComplete(Keyset(n - 1), Pow2(n - 1));
    }
  }

  lemma AppendComplete(ds: seq<nat>, d: nat)
    requires Complete(ds)
    requires Last(ds) < d <= 2 * Last(ds)
    ensures Complete(ds + [d])
  {
  }

  lemma {:induction false} KeysetMember(x: nat, n: nat) returns (i: nat)
    requires x in Keyset(n)
    ensures i < n && x == Pow2(i)
  {
    if x == Pow2(n - 1) {
      i := n - 1;
    } else {
      i := KeysetMember(x, n - 1);
    }
  }

  // ----- Fewest proofs -----

  /** The number of ones in the binary form. */
  function PopCount(a: nat): nat {
    if a == 0 then 0 else a % 2 + PopCount(a / 2)
  }

  lemma {:induction false} PopCountTopBit(k: nat, b: nat)
    requires b < Pow2(k)
    ensures PopCount(Pow2(k) + b) == 1 + PopCount(b)
  {
    if k == 0 {
      assert PopCount(1) == 1 + PopCount(0);
    } else {
      var a := Pow2(k) + b;
      assert a % 2 == b % 2 && a / 2 == Pow2(k - 1) + b / 2;
      PopCountTopBit(k - 1, b / 2);
    }
  }

  lemma {:induction false} PopCountAdd(x: nat, y: nat)
    ensures PopCount(x + y) <= PopCount(x) + PopCount(y)
  {
    if x > 0 && y > 0 {
      PopCountAdd(x / 2, y / 2);
      if x % 2 == 1 && y % 2 == 1 {
        assert (x + y) / 2 == x / 2 + y / 2 + 1;
        PopCountSuccessor(x / 2 + y / 2);
      } else {
        assert (x + y) / 2 == x / 2 + y / 2;
      }
    }
  }

  lemma {:induction false} PopCountSuccessor(x: nat)
    ensures PopCount(x + 1) <= PopCount(x) + 1
  {
    if x % 2 == 1 {
      assert (x + 1) / 2 == x / 2 + 1 && (x + 1) % 2 == 0;
      PopCountSuccessor(x / 2);
    } else {
      assert (x + 1) / 2 == x / 2;
    }
  }

  lemma {:induction false} PopCountBound(a: nat, n: nat)
    requires a < Pow2(n)
    ensures PopCount(a) <= n
  {
    if a > 0 {
      assert n > 0;
      PopCountBound(a / 2, n - 1);
    }
  }

  /** The split of an amount has one part for each binary one. */
  lemma {:induction false} SplitLength(a: nat, n: nat)
    requires a < Pow2(n)
    ensures |Split(a, Keyset(n))| == PopCount(a)
  {
    if n > 0 {
      var d := Pow2(n - 1);
      SplitAtTop(a, n);
      if a >= d {
        SplitLength(a - d, n - 1);
        PopCountTopBit(n - 1, a - d);
      } else {
        SplitLength(a, n - 1);
      }
    }
  }

  lemma {:induction false} PartsAtLeastPopCount(xs: seq<nat>, n: nat)
    requires forall x :: x in xs ==> x in Keyset(n)
    ensures PopCount(Sum(xs)) <= |xs|
  {
    if xs != [] {
      PartsAtLeastPopCount(xs[1..], n);
      var i := KeysetMember(xs[0], n);
      PopCountTopBit(i, 0);
      PopCountAdd(xs[0], Sum(xs[1..]));
    }
  }

  /** No way to make up the amount from the denominations uses fewer proofs than the split. */
  lemma FewestProofs(a: nat, n: nat, xs: seq<nat>)
    requires a < Pow2(n)
    requires forall x :: x in xs ==> x in Keyset(n)
    requires Sum(xs) == a
    ensures |Split(a, Keyset(n))| <= |xs|
    ensures Sum(Split(a, Keyset(n))) == a
  {
    SplitLength(a, n);
    PartsAtLeastPopCount(xs, n);
    if n > 0 {
      KeysetIsComplete(n);
      SplitExact(a, Keyset(n));
    }
  }

  predicate Descending(xs: seq<nat>) {
    forall i, j :: 0 <= i < j < |xs| ==> xs[i] > xs[j]
  }

  lemma {:induction false} SplitDescends(a: nat, ds: seq<nat>)
    requires Positive(ds) && Ascending(ds)
    ensures Descending(Split(a, ds))
    decreases |ds|
  {
    if ds != [] {
      var rest := Split(Rem(a, Last(ds)), Front(ds));
      SplitDescends(Rem(a, Last(ds)), Front(ds));
      SplitDescends(a, Front(ds));
      SplitBelow(Rem(a, Last(ds)), Front(ds));
      assert forall p :: p in rest ==> p < Last(ds);
    }
  }

  /** Distinct denominations below 2^n are at most n and add up to less than 2^n. */
  lemma {:induction false} DistinctPowersBelow(xs: seq<nat>, n: nat)
    requires Descending(xs) && forall x :: x in xs ==> x in Keyset(n)
    ensures Sum(xs) < Pow2(n) && |xs| <= n
  {
    if xs != [] {
      var top := KeysetMember(xs[0], n);
      if xs[0] == Pow2(n - 1) {
        BelowTop(xs, n);
        DistinctPowersBelow(xs[1..], n - 1);
      } else {
        forall x | x in xs ensures x in Keyset(n - 1) {
          TopIsFirst(xs, x, n);
        }
        DistinctPowersBelow(xs, n - 1);
      }
    }
  }

  lemma BelowTop(xs: seq<nat>, n: nat)
    requires n > 0 && Descending(xs) && (forall x :: x in xs ==> x in Keyset(n)) && xs != [] && xs[0] == Pow2(n - 1)
    ensures forall x :: x in xs[1..] ==> x in Keyset(n - 1)
  {
    forall x | x in xs[1..] ensures x in Keyset(n - 1) {
      assert x in xs && x < xs[0];
    }
  }

  /** The split is the only way to make up the amount from distinct denominations, largest first. */
  lemma {:induction false} SplitIsUnique(a: nat, n: nat, xs: seq<nat>)
    requires Descending(xs) && (forall x :: x in xs ==> x in Keyset(n)) && Sum(xs) == a
    ensures xs == Split(a, Keyset(n))
  {
    if n == 0 {
      DistinctPowersBelow(xs, 0);
    } else {
      var d := Pow2(n - 1);
      if xs != [] && xs[0] == d {
        assert xs == [d] + xs[1..];
        BelowTop(xs, n);
        DistinctPowersBelow(xs[1..], n - 1);
        SplitIsUnique(a - d, n - 1, xs[1..]);
        SplitAtTop(a, n);
      } else {
        forall x | x in xs ensures x in Keyset(n - 1) {
          TopIsFirst(xs, x, n);
        }
        DistinctPowersBelow(xs, n - 1);
        SplitIsUnique(a, n - 1, xs);
        SplitAtTop(a, n);
      }
    }
  }

  /** The largest denomination of the keyset is the top bit of the amount. */
  lemma SplitAtTop(a: nat, n: nat)
    requires n > 0 && a < Pow2(n)
    ensures Split(a, Keyset(n))
            == if a >= Pow2(n - 1) then [Pow2(n - 1)] + Split(a - Pow2(n - 1), Keyset(n - 1))
                else Split(a, Keyset(n - 1))
  {
    assert Front(Keyset(n)) == Keyset(n - 1) && Last(Keyset(n)) == Pow2(n - 1);
  }

  lemma TopIsFirst(xs: seq<nat>, x: nat, n: nat)
    requires n > 0 && Descending(xs) && (forall y :: y in xs ==> y in Keyset(n)) && x in xs
    requires xs[0] != Pow2(n - 1)
    ensures x in Keyset(n - 1)
  {
    if x == Pow2(n - 1) {
      var i := KeysetMember(xs[0], n);
      if i < n - 1 {
        Pow2Monotone(i, n - 1);
      }
    }
  }

  // ----- Splitting with the fee -----

  /** The fee of `count` proofs in parts per thousand: `feePpk` once for each proof. */
  function TotalPpk(count: nat, feePpk: nat): nat {
    if count == 0 then 0 else feePpk + TotalPpk(count - 1, feePpk)
  }

  lemma {:induction false} TotalPpkIsProduct(count: nat, feePpk: nat)
    ensures TotalPpk(count, feePpk) == feePpk * count
  {
    if count > 0 {
      TotalPpkIsProduct(count - 1, feePpk);
    }
  }

  /** Division by 1000, rounded up. */
  function Thousands(x: nat): nat {
    if x == 0 then 0 else if x <= 1000 then 1 else 1 + Thousands(x - 1000)
  }

  lemma {:induction false} ThousandsIsDivCeil(x: nat)
    ensures Thousands(x) == (x + 999) / 1000
  {
    if x > 1000 {
      ThousandsIsDivCeil(x - 1000);
    }
  }

  lemma ThousandsMonotone(x: nat, y: nat)
    requires x <= y
    ensures Thousands(x) <= Thousands(y)
  {
    ThousandsIsDivCeil(x);
    ThousandsIsDivCeil(y);
  }

  /** The input fee of `count` proofs: parts per thousand, rounded up
      (section "Fees" of Cashu NUT-02). */
  function FeeOf(count: nat, feePpk: nat): nat {
    Thousands(TotalPpk(count, feePpk))
  }

  datatype Attempt = Accept(parts: seq<nat>) | Retry | Overflow

  /** One call of `split_with_fee`, up to its recursive call. */
  function TryFee(a: nat, feePpk: nat, ds: seq<nat>): Attempt
    requires Positive(ds)
  {
    var plain := |Split(a, ds)|;
    if TotalPpk(plain, feePpk) > U64_MAX then Overflow
    else
      var total := a + FeeOf(plain, feePpk);
      if total > U64_MAX then Overflow
      else
        var split := Split(total, ds);
        if TotalPpk(|split|, feePpk) > U64_MAX then Overflow
        else if total >= FeeOf(|split|, feePpk) && total - FeeOf(|split|, feePpk) >= a then Accept(split)
        else Retry
  }

  /** The outcome of an attempt depends only on the two part counts. */
  lemma AttemptByCounts(a: nat, feePpk: nat, ds: seq<nat>, plain: nat, full: nat)
    requires Positive(ds)
    requires |Split(a, ds)| == plain && TotalPpk(plain, feePpk) <= U64_MAX
    requires a + FeeOf(plain, feePpk) <= U64_MAX
    requires |Split(a + FeeOf(plain, feePpk), ds)| == full && TotalPpk(full, feePpk) <= U64_MAX
    ensures TryFee(a, feePpk, ds)
            == if FeeOf(full, feePpk) <= FeeOf(plain, feePpk)
               then Accept(Split(a + FeeOf(plain, feePpk), ds)) else Retry
  {
  }

  /** `Amount::split_with_fee`: tries the amount, then the amount plus one, and so on. */
  function SplitWithFee(a: nat, feePpk: nat, ds: seq<nat>): Result<seq<nat>, AmountError>
    requires a <= U64_MAX
    requires Positive(ds)
    decreases U64_MAX - a
  {
    match TryFee(a, feePpk, ds)
    case Accept(parts) => Ok(parts)
    case Overflow => Err(AmountOverflow)
    case Retry => if a == U64_MAX then Err(AmountOverflow) else SplitWithFee(a + 1, feePpk, ds)
  }

  /** `parts` pay the amount and their own input fee. */
  predicate Covers(parts: seq<nat>, a: nat, feePpk: nat) {
    Sum(parts) >= a + FeeOf(|parts|, feePpk)
  }

  /** A successful split was accepted at some amount `b`, after retrying everything from `a` to `b`. */
  lemma {:induction false} FeeSplitAccepted(a: nat, feePpk: nat, ds: seq<nat>) returns (b: nat)
    requires a <= U64_MAX && Positive(ds)
    requires SplitWithFee(a, feePpk, ds).Ok?
    ensures a <= b <= U64_MAX
    ensures forall c :: a <= c < b ==> TryFee(c, feePpk, ds).Retry?
    ensures TryFee(b, feePpk, ds) == Accept(SplitWithFee(a, feePpk, ds).value)
    decreases U64_MAX - a
  {
    if TryFee(a, feePpk, ds).Retry? {
      b := FeeSplitAccepted(a + 1, feePpk, ds);
    } else {
      b := a;
    }
  }

  /** What the parts of any amount are worth: the largest denomination is taken once, whatever its
      multiple in the amount. */
  lemma SplitWorth(x: nat, ds: seq<nat>)
    requires Complete(ds)
    ensures Sum(Split(x, ds)) == if x < Last(ds) then x else Last(ds) + x % Last(ds)
  {
    if x < Last(ds) {
      SplitExact(x, ds);
    } else {
      var r := Rem(x, Last(ds));
      RemIsModulo(x, Last(ds));
      SumCons(Last(ds), Split(r, Front(ds)));
      if |ds| > 1 {
        assert Complete(Front(ds)) && Last(ds) <= 2 * Last(Front(ds));
        SplitExact(r, Front(ds));
      }
    }
  }

  /** Every successful fee split over a complete keyset, with `b` the accepted amount and `total` that
      amount with its fee: the parts are worth the total if and only if the total is in reach, and then
      they pay the amount and their own fee.  Beyond the reach they are worth one largest denomination
      and a remainder, and exactly that decides whether they are worth the amount, and whether they
      cover it.  A caller whose amount is accepted at once has b == a. */
  lemma FeeSplitWorth(a: nat, feePpk: nat, ds: seq<nat>) returns (b: nat, total: nat)
    requires a <= U64_MAX && Complete(ds)
    requires SplitWithFee(a, feePpk, ds).Ok?
    ensures a <= b <= U64_MAX && total == b + FeeOf(|Split(b, ds)|, feePpk)
    ensures forall c :: a <= c < b ==> TryFee(c, feePpk, ds).Retry?
    ensures TryFee(b, feePpk, ds) == Accept(SplitWithFee(a, feePpk, ds).value)
    ensures TryFee(a, feePpk, ds).Accept? ==> b == a
    ensures var parts := SplitWithFee(a, feePpk, ds).value;
            && parts == Split(total, ds)
            && (Sum(parts) == total <==> total < 2 * Last(ds))
            && (total < 2 * Last(ds) ==> Covers(parts, a, feePpk))
            && (Sum(parts) >= a <==> total < 2 * Last(ds) || Last(ds) + total % Last(ds) >= a)
            && (Covers(parts, a, feePpk)
                <==> total < 2 * Last(ds) || Last(ds) + total % Last(ds) >= a + FeeOf(|parts|, feePpk))
  {
    b := FeeSplitAccepted(a, feePpk, ds);
    total := b + FeeOf(|Split(b, ds)|, feePpk);
    SplitExactIffInReach(total, ds);
    SplitWorth(total, ds);
  }

  lemma FeeOfIs(count: nat, feePpk: nat)
    ensures TotalPpk(count, feePpk) == feePpk * count && FeeOf(count, feePpk) == (feePpk * count + 999) / 1000
  {
    TotalPpkIsProduct(count, feePpk);
    ThousandsIsDivCeil(feePpk * count);
  }

  /** One attempt in plain arithmetic: the fee of the parts of the amount is added, and the total is
      accepted if it still pays the amount and the fee of its own parts. */
  lemma AttemptInNumbers(a: nat, feePpk: nat, ds: seq<nat>)
    requires Positive(ds)
    ensures var n := |Split(a, ds)|;
            var total := a + (feePpk * n + 999) / 1000;
            var m := |Split(total, ds)|;
            TryFee(a, feePpk, ds)
            == if feePpk * n > U64_MAX || total > U64_MAX || feePpk * m > U64_MAX then Overflow
               else if total >= a + (feePpk * m + 999) / 1000 then Accept(Split(total, ds))
               else Retry
  {
    var n := |Split(a, ds)|;
    FeeOfIs(n, feePpk);
    FeeOfIs(|Split(a + FeeOf(n, feePpk), ds)|, feePpk);
  }

  /** A fee split fails only by overflow: at the first amount that is not retried, or at u64::MAX. */
  lemma {:induction false} FeeSplitOverflows(a: nat, feePpk: nat, ds: seq<nat>) returns (b: nat)
    requires a <= U64_MAX && Positive(ds) && SplitWithFee(a, feePpk, ds).Err?
    ensures SplitWithFee(a, feePpk, ds) == Err(AmountOverflow)
    ensures a <= b <= U64_MAX && forall c :: a <= c < b ==> TryFee(c, feePpk, ds).Retry?
    ensures TryFee(b, feePpk, ds).Overflow? || (b == U64_MAX && TryFee(b, feePpk, ds).Retry?)
    decreases U64_MAX - a
  {
    if TryFee(a, feePpk, ds).Retry? && a < U64_MAX {
      b := FeeSplitOverflows(a + 1, feePpk, ds);
    } else {
      b := a;
    }
  }

  /** An amount in reach that comes back short: 7 over 1, 2, 4 with a fee of 1 for each proof. */
  lemma FeeSplitCanFallShort()
    ensures Complete([1, 2, 4]) && 7 < 2 * Last([1, 2, 4])
    ensures SplitWithFee(7, 1000, [1, 2, 4]) == Ok([4, 2]) && Sum([4, 2]) == 6
  {
    var ds := [1, 2, 4];
    FeeOfIs(3, 1000);
    FeeOfIs(2, 1000);
    SplitOver124(7);
    SplitOver124(10);
    AttemptByCounts(7, 1000, ds, 3, 2);
    SumCons(4, [2]);
    SumCons(2, []);
    assert [4] + [2] == [4, 2] && [2] + [] == [2];
  }

  lemma SplitOver124(x: nat)
    ensures Complete([1, 2, 4])
    ensures x == 7 ==> Split(x, [1, 2, 4]) == [4, 2, 1]
    ensures x == 10 ==> Split(x, [1, 2, 4]) == [4, 2]
  {
    assert Front([1, 2, 4]) == [1, 2] && Front([1, 2]) == [1] && Front([1]) == [];
    RemIsModulo(7, 4);
    RemIsModulo(10, 4);
  }

  /** And a total beyond the reach does not always mean a shortfall: 7 over 1 .. 16 with a fee of 8.333
      for each proof has the total 32 and comes back as 16, which pays the 7 and its own fee of 9. */
  lemma FeeSplitCanCoverBeyondReach()
    ensures Complete(Keyset(5)) && 7 + FeeOf(|Split(7, Keyset(5))|, 8333) == 2 * Last(Keyset(5))
    ensures SplitWithFee(7, 8333, Keyset(5)) == Ok([16]) && Covers([16], 7, 8333)
  {
    KeysetIsComplete(5);
    assert Pow2(1) == 2 && Pow2(2) == 4 && Pow2(3) == 8 && Pow2(4) == 16 && Pow2(5) == 32;
    FeeOfIs(3, 8333);
    FeeOfIs(1, 8333);
    assert PopCount(7) == 3;
    SplitLength(7, 5);
    RemIsModulo(32, 16);
    SplitZero(Keyset(4));
    assert Split(32, Keyset(5)) == [16] + [] == [16];
    AttemptByCounts(7, 8333, Keyset(5), 3, 1);
    SumCons(16, []);
  }

  /** Beyond the reach of the keyset a successful split never covers the amount. */
  lemma OutOfReachNeverCovers(a: nat, feePpk: nat, ds: seq<nat>)
    requires a <= U64_MAX && Complete(ds)
    requires SplitWithFee(a, feePpk, ds).Ok?
    requires a >= 2 * Last(ds)
    ensures Sum(SplitWithFee(a, feePpk, ds).value) < a
  {
    var b := FeeSplitAccepted(a, feePpk, ds);
    SplitSumBound(b + FeeOf(|Split(b, ds)|, feePpk), ds);
  }

  /** Without a fee the split always succeeds, and covers exactly the amounts in reach. */
  lemma FeeSplitWithoutFee(a: nat, ds: seq<nat>)
    requires a <= U64_MAX && Complete(ds)
    ensures SplitWithFee(a, 0, ds) == Ok(Split(a, ds))
    ensures Covers(Split(a, ds), a, 0) <==> a < 2 * Last(ds)
  {
    TotalPpkIsProduct(|Split(a, ds)|, 0);
    AttemptByCounts(a, 0, ds, |Split(a, ds)|, |Split(a, ds)|);
    SplitExactIffInReach(a, ds);
    SplitBelow(a, ds);
  }

  /** Nothing overflows in an attempt on `b`, and its total stays in reach of the keyset. */
  ghost predicate InRange(b: nat, feePpk: nat, ds: seq<nat>)
    requires Positive(ds) && ds != []
  {
    var total := b + FeeOf(|Split(b, ds)|, feePpk);
    && total < 2 * Last(ds) && total <= U64_MAX
    && TotalPpk(|Split(b, ds)|, feePpk) <= U64_MAX
    && TotalPpk(|Split(total, ds)|, feePpk) <= U64_MAX
  }

  /** The amount with the fee of its own parts also pays the fee of the parts of the total. */
  predicate Pays(b: nat, feePpk: nat, ds: seq<nat>)
    requires Positive(ds)
  {
    FeeOf(|Split(b + FeeOf(|Split(b, ds)|, feePpk), ds)|, feePpk) <= FeeOf(|Split(b, ds)|, feePpk)
  }

  lemma AttemptInRange(b: nat, feePpk: nat, ds: seq<nat>)
    requires Complete(ds) && InRange(b, feePpk, ds)
    ensures var total := b + FeeOf(|Split(b, ds)|, feePpk);
            && TryFee(b, feePpk, ds) == (if Pays(b, feePpk, ds) then Accept(Split(total, ds)) else Retry)
            && (Pays(b, feePpk, ds) ==> Covers(Split(total, ds), b, feePpk))
  {
    var total := b + FeeOf(|Split(b, ds)|, feePpk);
    AttemptByCounts(b, feePpk, ds, |Split(b, ds)|, |Split(total, ds)|);
    SplitExact(total, ds);
  }

  /** In any complete keyset: below an amount that pays, and while nothing overflows, the split
      succeeds, covers the amount, and retries no further than that amount. */
  lemma {:induction false} FeeSplitBelow(a: nat, feePpk: nat, ds: seq<nat>, top: nat) returns (b: nat)
    requires Complete(ds) && a <= top
    requires forall c: nat :: c <= top ==> InRange(c, feePpk, ds)
    requires Pays(top, feePpk, ds)
    ensures a <= b <= top <= U64_MAX
    ensures SplitWithFee(a, feePpk, ds).Ok?
    ensures Covers(SplitWithFee(a, feePpk, ds).value, a, feePpk)
    ensures forall c :: a <= c < b ==> TryFee(c, feePpk, ds).Retry?
    ensures TryFee(b, feePpk, ds) == Accept(SplitWithFee(a, feePpk, ds).value)
    decreases top - a
  {
    assert InRange(a, feePpk, ds) && InRange(top, feePpk, ds);
    AttemptInRange(a, feePpk, ds);
    if Pays(a, feePpk, ds) {
      b := a;
    } else {
      b := FeeSplitBelow(a + 1, feePpk, ds, top);
    }
  }

  lemma {:induction false} FeeMonotone(m: nat, n: nat, feePpk: nat)
    requires m <= n
    ensures TotalPpk(m, feePpk) <= TotalPpk(n, feePpk)
    ensures FeeOf(m, feePpk) <= FeeOf(n, feePpk)
  {
    if m < n {
      FeeMonotone(m, n - 1, feePpk);
      ThousandsMonotone(TotalPpk(n - 1, feePpk), TotalPpk(n, feePpk));
    }
  }

  /** The bounds under which no step overflows, for every amount below 2^k. */
  ghost predicate FeeInRange(feePpk: nat, k: nat, n: nat) {
    && 1 <= k < n <= 64
    && FeeOf(k, feePpk) <= Pow2(k - 1)
    && TotalPpk(k + 1, feePpk) <= U64_MAX
  }

  lemma {:induction false} Pow2Add(m: nat, n: nat)
    ensures Pow2(m + n) == Pow2(m) * Pow2(n)
  {
    if m > 0 {
      Pow2Add(m - 1, n);
    }
  }

  lemma Pow2Double(m: nat, v: nat) returns (d: nat)
    requires Pow2(m) == v
    ensures d == 2 * m && Pow2(d) == v * v
  {
    d := m + m;
    Pow2Add(m, m);
  }

  lemma U64Holds(n: nat)
    requires n <= 64
    ensures Pow2(n) <= U64_MAX + 1
  {
    assert Pow2(4) == 16;
    var d := Pow2Double(4, 16);
    d := Pow2Double(d, 0x100);
    d := Pow2Double(d, 0x1_0000);
    d := Pow2Double(d, 0x1_0000_0000);
    if n < d {
      Pow2Monotone(n, d);
    }
  }

  /** The total of an attempt on an amount below 2^k is below 2^(k+1). */
  lemma TotalInRange(b: nat, feePpk: nat, k: nat, n: nat) returns (total: nat)
    requires FeeInRange(feePpk, k, n) && b < Pow2(k)
    ensures PopCount(b) <= k && b < U64_MAX
    ensures total == b + FeeOf(PopCount(b), feePpk) < Pow2(k + 1) <= Pow2(n) <= U64_MAX + 1
    ensures TotalPpk(PopCount(b), feePpk) <= U64_MAX
    ensures TotalPpk(PopCount(total), feePpk) <= U64_MAX
  {
    U64Holds(n);
    if k + 1 < n {
      Pow2Monotone(k + 1, n);
    }
    PopCountBound(b, k);
    FeeMonotone(PopCount(b), k, feePpk);
    FeeMonotone(k, k + 1, feePpk);
    total := b + FeeOf(PopCount(b), feePpk);
    PopCountBound(total, k + 1);
    FeeMonotone(PopCount(total), k + 1, feePpk);
  }

  /** The all-ones amount below 2^k always pays: adding the fee carries into bit k and leaves
      at most as many ones as before. */
  lemma AllOnesPays(feePpk: nat, k: nat)
    requires k > 0 && FeeOf(k, feePpk) <= Pow2(k - 1)
    ensures PopCount(Pow2(k) - 1) == k
    ensures FeeOf(PopCount(Pow2(k) - 1 + FeeOf(k, feePpk)), feePpk) <= FeeOf(k, feePpk)
  {
    PopCountAllOnes(k);
    CarryKeepsOnes(k, FeeOf(k, feePpk));
    FeeMonotone(PopCount(Pow2(k) - 1 + FeeOf(k, feePpk)), k, feePpk);
  }

  lemma CarryKeepsOnes(k: nat, fee: nat)
    requires k > 0 && fee <= Pow2(k - 1)
    ensures PopCount(Pow2(k) - 1 + fee) <= k
  {
    if fee == 0 {
      PopCountAllOnes(k);
    } else {
      PopCountTopBit(k, fee - 1);
      PopCountBound(fee - 1, k - 1);
    }
  }

  lemma {:induction false} PopCountAllOnes(k: nat)
    ensures PopCount(Pow2(k) - 1) == k
  {
    if k > 0 {
      assert (Pow2(k) - 1) % 2 == 1 && (Pow2(k) - 1) / 2 == Pow2(k - 1) - 1;
      PopCountAllOnes(k - 1);
    }
  }

  lemma KeysetInRange(b: nat, feePpk: nat, k: nat, n: nat)
    requires FeeInRange(feePpk, k, n) && b < Pow2(k)
    ensures InRange(b, feePpk, Keyset(n))
  {
    var total := TotalInRange(b, feePpk, k, n);
    KeysetIsComplete(n);
    var plain, full := CountsOf(b, total, n);
    InRangeByCounts(b, feePpk, Keyset(n), plain, full);
  }

  lemma InRangeByCounts(b: nat, feePpk: nat, ds: seq<nat>, plain: nat, full: nat)
    requires Positive(ds) && ds != [] && |Split(b, ds)| == plain && |Split(b + FeeOf(plain, feePpk), ds)| == full
    requires b + FeeOf(plain, feePpk) < 2 * Last(ds) && b + FeeOf(plain, feePpk) <= U64_MAX
    requires TotalPpk(plain, feePpk) <= U64_MAX && TotalPpk(full, feePpk) <= U64_MAX
    ensures InRange(b, feePpk, ds)
  {
  }

  lemma KeysetTopPays(feePpk: nat, k: nat, n: nat)
    requires FeeInRange(feePpk, k, n)
    ensures Pays(Pow2(k) - 1, feePpk, Keyset(n))
  {
    AllOnesPays(feePpk, k);
    KeysetPays(Pow2(k) - 1, feePpk, k, n);
  }

  lemma KeysetPays(b: nat, feePpk: nat, k: nat, n: nat)
    requires FeeInRange(feePpk, k, n) && b < Pow2(k)
    requires FeeOf(PopCount(b + FeeOf(PopCount(b), feePpk)), feePpk) <= FeeOf(PopCount(b), feePpk)
    ensures Pays(b, feePpk, Keyset(n))
  {
    var total := TotalInRange(b, feePpk, k, n);
    var plain, full := CountsOf(b, total, n);
    PaysByCounts(b, feePpk, Keyset(n), plain, full);
  }

  lemma CountsOf(b: nat, total: nat, n: nat) returns (plain: nat, full: nat)
    requires b < Pow2(n) && total < Pow2(n)
    ensures plain == |Split(b, Keyset(n))| == PopCount(b)
    ensures full == |Split(total, Keyset(n))| == PopCount(total)
  {
    SplitLength(b, n);
    SplitLength(total, n);
    plain, full := PopCount(b), PopCount(total);
  }

  lemma PaysByCounts(b: nat, feePpk: nat, ds: seq<nat>, plain: nat, full: nat)
    requires Positive(ds) && |Split(b, ds)| == plain && |Split(b + FeeOf(plain, feePpk), ds)| == full
    requires FeeOf(full, feePpk) <= FeeOf(plain, feePpk)
    ensures Pays(b, feePpk, ds)
  {
  }

  /** Splitting with the fee succeeds for every amount below 2^k, after at most 2^k - 1 - a
      retries, and its parts pay the amount and their own fee. */
  lemma FeeSplitSucceedsAndCovers(a: nat, feePpk: nat, k: nat, n: nat) returns (b: nat)
    requires FeeInRange(feePpk, k, n) && a < Pow2(k)
    ensures a <= U64_MAX
    ensures SplitWithFee(a, feePpk, Keyset(n)).Ok?
    ensures Covers(SplitWithFee(a, feePpk, Keyset(n)).value, a, feePpk)
    ensures a <= b <= Pow2(k) - 1
    ensures forall c :: a <= c < b ==> TryFee(c, feePpk, Keyset(n)).Retry?
    ensures TryFee(b, feePpk, Keyset(n)) == Accept(SplitWithFee(a, feePpk, Keyset(n)).value)
  {
    var top := Pow2(k) - 1;
    forall c: nat | c <= top ensures InRange(c, feePpk, Keyset(n)) {
      KeysetInRange(c, feePpk, k, n);
    }
    KeysetTopPays(feePpk, k, n);
    KeysetIsComplete(n);
    b := FeeSplitBelow(a, feePpk, Keyset(n), top);
  }
}
