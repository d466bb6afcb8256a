/** Ecash amounts: greedy splitting, targeted splitting and splitting with the input fee
    (crates/cashu/src/amount.rs).  An amount is a natural number; the u64 limit appears
    wherever the program checks it or panics on it. */
module Amount {
  import opened Wrappers
  import opened Integers

  const U64_MAX: nat := 0xFFFF_FFFF_FFFF_FFFF

  datatype AmountError = SplitValuesGreater | AmountOverflow

  function Sum(xs: seq<nat>): nat {
    if xs == [] then 0 else xs[0] + Sum(xs[1..])
  }

  lemma {:induction false} SumConcat(xs: seq<nat>, ys: seq<nat>)
    ensures Sum(xs + ys) == Sum(xs) + Sum(ys)
  {
    if xs == [] {
      assert xs + ys == ys;
    } else {
      assert (xs + ys)[1..] == xs[1..] + ys;
      SumConcat(xs[1..], ys);
    }
  }

  lemma DivModUnique(a: nat, s: nat, k: nat, r: nat)
    requires r < s && a == k * s + r
    ensures a / s == k && a % s == r
  {
    assert a == (a / s) * s + a % s;
    if a / s < k {
      MultiplesApart(a / s, k, s);
    } else if a / s > k {
      MultiplesApart(k, a / s, s);
    }
  }

  lemma SumCons(x: nat, xs: seq<nat>)
    ensures Sum([x] + xs) == x + Sum(xs)
  {
    assert ([x] + xs)[1..] == xs;
  }

  /** `checked_add` folded over a list, as `Amount::try_sum` does. */
  function TrySum(xs: seq<nat>, acc: nat := 0): (r: Result<nat, AmountError>)
    decreases |xs|
  {
    if xs == [] then Ok(acc)
    else if acc + xs[0] > U64_MAX then Err(AmountOverflow)
    else TrySum(xs[1..], acc + xs[0])
  }

  /** Stopping at the first partial sum over the limit is the same as testing the total. */
  lemma {:induction false} TrySumIsTheSum(xs: seq<nat>, acc: nat)
    requires acc <= U64_MAX
    ensures TrySum(xs, acc) == if acc + Sum(xs) <= U64_MAX then Ok(acc + Sum(xs)) else Err(AmountOverflow)
  {
    if xs != [] && acc + xs[0] <= U64_MAX {
      TrySumIsTheSum(xs[1..], acc + xs[0]);
    }
  }

  // ----- Greedy splitting -----

  /** The denominations of a keyset; the program divides by each of them. */
  predicate Positive(ds: seq<nat>) {
    forall i :: 0 <= i < |ds| ==> ds[i] > 0
  }

  predicate Ascending(ds: seq<nat>) {
    forall i, j :: 0 <= i < j < |ds| ==> ds[i] < ds[j]
  }

  /** Each denomination is at most double the one before, starting from 1. */
  ghost predicate Complete(ds: seq<nat>) {
    && |ds| > 0 && ds[0] == 1
    && Ascending(ds)
    && Positive(ds)
    && forall i, j :: 0 <= i < j < |ds| && j == i + 1 ==> ds[j] <= 2 * ds[i]
  }

  function Last(ds: seq<nat>): nat
    requires ds != []
  {
    ds[|ds| - 1]
  }

  function Front(ds: seq<nat>): seq<nat>
    requires ds != []
  {
    ds[..|ds| - 1]
  }

  /** The remainder of a division, as repeated subtraction. */
  function Rem(a: nat, d: nat): (r: nat)
    requires d > 0
    ensures r < d && r <= a
    ensures a >= d ==> r <= a - d
    ensures a < 2 * d ==> r == if a < d then a else a - d
  {
    if a < d then a else Rem(a - d, d)
  }

  lemma {:induction false} RemIsModulo(a: nat, d: nat)
    requires d > 0
    ensures Rem(a, d) == a % d
  {
    if a >= d {
      RemIsModulo(a - d, d);
      var k, r := DivMod(a - d, d);
      MultiplyOut(k + 1, d);
      DivModUnique(a, d, k + 1, r);
    }
  }

  /** `Amount::split`: a fold from the largest denomination down, which takes a denomination
      at most once and goes on with the remainder. */
  function Split(a: nat, ds: seq<nat>): (parts: seq<nat>)
    requires Positive(ds)
    decreases |ds|
  {
    if ds == [] then []
    else if a >= Last(ds) then [Last(ds)] + Split(Rem(a, Last(ds)), Front(ds))
    else Split(a, Front(ds))
  }

  // ----- Sorting (`Vec::sort`) -----

  predicate Sorted(xs: seq<nat>) {
    forall i, j :: 0 <= i < j < |xs| ==> xs[i] <= xs[j]
  }

  function Insert(x: nat, xs: seq<nat>): (r: seq<nat>) {
    if xs == [] || x <= xs[0] then [x] + xs else [xs[0]] + Insert(x, xs[1..])
  }

  function Sort(xs: seq<nat>): (r: seq<nat>) {
    if xs == [] then [] else Insert(xs[0], Sort(xs[1..]))
  }

  lemma {:induction false} InsertIsPermutation(x: nat, xs: seq<nat>)
    ensures multiset(Insert(x, xs)) == multiset(xs) + multiset{x}
    ensures Sum(Insert(x, xs)) == x + Sum(xs)
  {
    if xs == [] || x <= xs[0] {
      SumCons(x, xs);
    } else {
      InsertIsPermutation(x, xs[1..]);
      SumCons(xs[0], Insert(x, xs[1..]));
      assert xs == [xs[0]] + xs[1..];
    }
  }

  lemma {:induction false} InsertKeepsSorted(x: nat, xs: seq<nat>)
    requires Sorted(xs)
    ensures Sorted(Insert(x, xs))
    ensures Insert(x, xs) != []
    ensures Insert(x, xs)[0] == x || (xs != [] && Insert(x, xs)[0] == xs[0])
  {
    if xs != [] && x > xs[0] {
      InsertKeepsSorted(x, xs[1..]);
      ConsSorted(xs[0], Insert(x, xs[1..]));
    }
  }

  lemma ConsSorted(x: nat, xs: seq<nat>)
    requires Sorted(xs)
    requires xs != [] ==> x <= xs[0]
    ensures Sorted([x] + xs)
  {
  }

  lemma {:induction false} SortSorts(xs: seq<nat>)
    ensures Sorted(Sort(xs))
    ensures multiset(Sort(xs)) == multiset(xs)
    ensures Sum(Sort(xs)) == Sum(xs)
  {
    if xs != [] {
      SortSorts(xs[1..]);
      InsertKeepsSorted(xs[0], Sort(xs[1..]));
      InsertIsPermutation(xs[0], Sort(xs[1..]));
      assert xs == [xs[0]] + xs[1..];
    }
  }

  // ----- Targeted splitting -----

  datatype SplitTarget = NoTarget | Value(amount: nat) | Values(amounts: seq<nat>)

  /** `Panicked` is the panic of the unchecked `+` on amounts. */
  datatype Outcome = Parts(parts: seq<nat>) | Failed(error: AmountError) | Panicked

  function Repeat(xs: seq<nat>, k: nat): seq<nat> {
    if k == 0 then [] else Repeat(xs, k - 1) + xs
  }

  /** What a target of `t` asks for: as many whole copies of the parts of `t` as fit in `a`,
      and the parts of what is left. */
  function TargetedParts(a: nat, t: nat, ds: seq<nat>): seq<nat>
    requires Positive(ds)
    requires Sum(Split(t, ds)) > 0
  {
    var s := Sum(Split(t, ds));
    Repeat(Split(t, ds), a / s) + Split(a % s, ds)
  }

  /** Walking through `parts` towards `r`: the first partial sum that reaches or passes it. */
  function FirstReach(parts: seq<nat>, r: nat): nat {
    if parts == [] || r == 0 then 0
    else if parts[0] > r then parts[0]
    else parts[0] + FirstReach(parts[1..], r - parts[0])
  }

  /** The addition that does not fit in u64: the last, unfinished copy of the target
      is tried up to its first part that is too large. */
  predicate TargetedPanics(a: nat, t: nat, ds: seq<nat>)
    requires Positive(ds)
    requires Sum(Split(t, ds)) > 0
  {
    var s := Sum(Split(t, ds));
    a - a % s + FirstReach(Split(t, ds), a % s) > U64_MAX
  }

  /** One part of the target, added to what is there, or what is still missing if it is too large. */
  function AddPart(a: nat, ds: seq<nat>, part: nat, parts: seq<nat>): seq<nat>
    requires Positive(ds)
  {
    if part + Sum(parts) <= a then parts + [part]
    else if Sum(parts) <= a then parts + Split(a - Sum(parts), ds)
    else parts
  }

  /** One pass over the parts of the target, up to the amount. */
  function Pass(a: nat, ds: seq<nat>, value: seq<nat>, parts: seq<nat>): seq<nat>
    requires Positive(ds)
    decreases |value|
  {
    if value == [] || Sum(parts) == a then parts
    else Pass(a, ds, value[1..], AddPart(a, ds, value[0], parts))
  }

  /** Some addition of the pass does not fit in u64. */
  predicate PassPanics(a: nat, ds: seq<nat>, value: seq<nat>, parts: seq<nat>)
    requires Positive(ds)
    decreases |value|
  {
    && value != [] && Sum(parts) != a
    && (value[0] + Sum(parts) > U64_MAX || PassPanics(a, ds, value[1..], AddPart(a, ds, value[0], parts)))
  }

  function Passes(a: nat, ds: seq<nat>, value: seq<nat>, k: nat): seq<nat>
    requires Positive(ds)
  {
    if k == 0 then [] else Pass(a, ds, value, Passes(a, ds, value, k - 1))
  }

  /** After `k` passes the amount is reached, or the next pass panics. */
  predicate StopsAfter(a: nat, t: nat, ds: seq<nat>, k: nat)
    requires Positive(ds)
  {
    var parts := Passes(a, ds, Split(t, ds), k);
    Sum(parts) == a || PassPanics(a, ds, Split(t, ds), parts)
  }

  /** The loop of a value target comes to an end (`AmountTheorems.TargetedHaltsIff`). */
  ghost predicate Halts(a: nat, t: nat, ds: seq<nat>)
    requires Positive(ds)
  {
    exists k :: StopsAfter(a, t, ds, k)
  }

  lemma {:induction false} SplitBelow(a: nat, ds: seq<nat>)
    requires Positive(ds)
    ensures Sum(Split(a, ds)) <= a
    ensures forall p :: p in Split(a, ds) ==> 0 < p <= a && p in ds
    decreases |ds|
  {
    if ds != [] {
      if a >= Last(ds) {
        var rest := Split(Rem(a, Last(ds)), Front(ds));
        SplitBelow(Rem(a, Last(ds)), Front(ds));
        SumCons(Last(ds), rest);
        assert Split(a, ds) == [Last(ds)] + rest;
      } else {
        SplitBelow(a, Front(ds));
      }
    }
  }

  lemma {:induction false} SplitZero(ds: seq<nat>)
    requires Positive(ds)
    ensures Split(0, ds) == []
    decreases |ds|
  {
    if ds != [] {
      SplitZero(Front(ds));
    }
  }

  /** A complete keyset splits exactly every amount below twice its largest denomination. */
  lemma {:induction false} SplitExact(a: nat, ds: seq<nat>)
    requires Complete(ds)
    requires a < 2 * Last(ds)
    ensures Sum(Split(a, ds)) == a
    decreases |ds|
  {
    var r := Rem(a, Last(ds));
    assert |ds| > 1 ==> Complete(Front(ds)) && Last(ds) <= 2 * Last(Front(ds));
    if a >= Last(ds) {
      SumCons(Last(ds), Split(r, Front(ds)));
    }
    if |ds| > 1 {
      SplitExact(r, Front(ds));
    }
  }

  lemma {:induction false} SplitNonEmpty(a: nat, ds: seq<nat>)
    requires Positive(ds) && ds != [] && ds[0] == 1 && a > 0
    ensures Split(a, ds) != [] && Sum(Split(a, ds)) > 0
    decreases |ds|
  {
    if a < Last(ds) {
      SplitNonEmpty(a, Front(ds));
    }
  }

  /** Amounts that agree with `t` on its first `i` parts and are below the next one
      share those parts. */
  lemma {:induction false} SplitSharesPrefix(t: nat, ds: seq<nat>, i: nat, left: nat)
    requires Positive(ds)
    requires i < |Split(t, ds)| && left < Split(t, ds)[i]
    ensures Split(Sum(Split(t, ds)[..i]) + left, ds) == Split(t, ds)[..i] + Split(left, ds)
    ensures Sum(Split(t, ds)[..i]) + left < Sum(Split(t, ds))
    decreases |ds|
  {
    var d := Last(ds);
    PrefixSum(Split(t, ds), i, left);
    if t < d {
      SplitBelow(t, Front(ds));
      SplitSharesPrefix(t, Front(ds), i, left);
      PrefixSum(Split(t, Front(ds)), i, left);
    } else if i == 0 {
      assert Split(t, ds)[..0] == [];
    } else {
      var rest := Split(Rem(t, d), Front(ds));
      SplitSharesPrefix(Rem(t, d), Front(ds), i - 1, left);
      SplitBelow(Rem(t, d), Front(ds));
      assert Split(t, ds)[..i] == [d] + rest[..i - 1];
      SharesTop(ds, rest[..i - 1], left);
    }
  }

  lemma SharesTop(ds: seq<nat>, head: seq<nat>, left: nat)
    requires Positive(ds) && ds != [] && Sum(head) + left < Last(ds)
    requires Split(Sum(head) + left, Front(ds)) == head + Split(left, Front(ds))
    ensures Split(Sum([Last(ds)] + head) + left, ds) == [Last(ds)] + head + Split(left, ds)
  {
    SumCons(Last(ds), head);
    SplitTaken(Sum(head) + left, ds);
    assert Split(left, ds) == Split(left, Front(ds));
    assert [Last(ds)] + (head + Split(left, ds)) == [Last(ds)] + head + Split(left, ds);
  }

  lemma SplitTaken(r: nat, ds: seq<nat>)
    requires Positive(ds) && ds != [] && r < Last(ds)
    ensures Split(Last(ds) + r, ds) == [Last(ds)] + Split(r, Front(ds))
  {
    assert Rem(Last(ds) + r, Last(ds)) == r;
  }

  lemma PrefixSum(parts: seq<nat>, i: nat, left: nat)
    requires i < |parts| && left < parts[i]
    ensures Sum(parts[..i]) + left < Sum(parts)
  {
    assert parts == parts[..i] + parts[i..];
    SumConcat(parts[..i], parts[i..]);
  }

  lemma {:induction false} FirstReachAt(parts: seq<nat>, i: nat, left: nat)
    requires i < |parts| && left < parts[i]
    requires forall p :: p in parts ==> p > 0
    ensures FirstReach(parts, Sum(parts[..i]) + left)
            == Sum(parts[..i]) + if left == 0 then 0 else parts[i]
  {
    if i > 0 {
      assert parts[..i][1..] == parts[1..][..i - 1];
      assert forall p :: p in parts[1..] ==> p in parts;
      FirstReachAt(parts[1..], i - 1, left);
    }
  }

  lemma {:induction false} SumRepeat(xs: seq<nat>, k: nat)
    ensures Sum(Repeat(xs, k)) == k * Sum(xs)
  {
    if k > 0 {
      SumRepeat(xs, k - 1);
      SumConcat(Repeat(xs, k - 1), xs);
      MultiplyOut(k, Sum(xs));
    }
  }

  /** Whatever the target, nothing is lost: the parts add up to the amount. */
  lemma TargetedPartsSum(a: nat, t: nat, ds: seq<nat>)
    requires Complete(ds) && 0 < t
    ensures Sum(Split(t, ds)) > 0
    ensures Sum(TargetedParts(a, t, ds)) == a
  {
    SplitNonEmpty(t, ds);
    var k, r := DivMod(a, Sum(Split(t, ds)));
    CopiesSum(t, ds, k, r);
  }

  lemma DivMod(a: nat, s: nat) returns (k: nat, r: nat)
    requires s > 0
    ensures k == a / s && r == a % s && r < s && a == k * s + r
  {
    k, r := a / s, a % s;
  }

  lemma CopiesSum(t: nat, ds: seq<nat>, k: nat, r: nat)
    requires Complete(ds)
    requires r < Sum(Split(t, ds))
    ensures Sum(Repeat(Split(t, ds), k) + Split(r, ds)) == k * Sum(Split(t, ds)) + r
  {
    SplitSumBound(t, ds);
    SplitExact(r, ds);
    SumRepeat(Split(t, ds), k);
    SumConcat(Repeat(Split(t, ds), k), Split(r, ds));
  }

  /** Since a denomination is taken at most once, no split reaches twice the largest one. */
  lemma SplitSumBound(a: nat, ds: seq<nat>)
    requires Positive(ds) && ds != []
    ensures Sum(Split(a, ds)) < 2 * Last(ds)
  {
    SplitBelow(Rem(a, Last(ds)), Front(ds));
    SumCons(Last(ds), Split(Rem(a, Last(ds)), Front(ds)));
    SplitBelow(a, ds);
  }

  /** `Amount::split_targeted`, whenever it returns or panics at all. */
  method SplitTargeted(a: nat, target: SplitTarget, ds: seq<nat>) returns (r: Outcome)
    requires a <= U64_MAX
    requires Positive(ds)
    requires target.Value? && a > target.amount ==> Halts(a, target.amount, ds)
    ensures target.NoTarget? ==>
              r.Parts? && Sorted(r.parts) && multiset(r.parts) == multiset(Split(a, ds))
    ensures target.Value? && a <= target.amount ==> r == Parts(Split(a, ds))
    ensures target.Value? && a > target.amount ==>
              exists k :: FirstStop(a, target.amount, ds, k)
                && (if PassPanics(a, ds, Split(target.amount, ds), Passes(a, ds, Split(target.amount, ds), k))
                    then r == Panicked && a + target.amount > U64_MAX
                    else && r.Parts? && Sorted(r.parts) && Sum(r.parts) == a
                         && multiset(r.parts) == multiset(Passes(a, ds, Split(target.amount, ds), k)))
    ensures target.Value? && a > target.amount && Complete(ds) ==>
              && Sum(Split(target.amount, ds)) > 0
              && (r == Panicked <==> TargetedPanics(a, target.amount, ds))
              && (r != Panicked ==> multiset(r.parts) == multiset(TargetedParts(a, target.amount, ds)))
    ensures target.Values? ==>
              if Sum(target.amounts) > U64_MAX then r == Failed(AmountOverflow)
              else if a < Sum(target.amounts) then r == Failed(SplitValuesGreater)
              else && r.Parts? && Sorted(r.parts)
                   && multiset(r.parts)
                      == multiset(target.amounts) + multiset(Split(a - Sum(target.amounts), ds))
  {
    var parts: seq<nat>;
    match target {
      case NoTarget =>
        parts := Split(a, ds);
      case Value(t) =>
        if a <= t {
          return Parts(Split(a, ds));
        }
        var overflow;
        ghost var k;
        overflow, parts, k := TargetedLoop(a, t, ds);
        if overflow {
          return Panicked;
        }
        SortSorts(parts);
        assert FirstStop(a, t, ds, k);
      case Values(values) =>
        TrySumIsTheSum(values, 0);
        var total := TrySum(values);
        if total.Err? {
          return Failed(total.error);
        }
        if a == total.value {
          parts := values;
          SplitZero(ds);
        } else if a < total.value {
          return Failed(SplitValuesGreater);
        } else {
          parts := values + Split(a - total.value, ds);
        }
    }
    SortSorts(parts);
    r := Parts(Sort(parts));
  }

  /** The loop stops after `k` passes and not before. */
  ghost predicate FirstStop(a: nat, t: nat, ds: seq<nat>, k: nat)
    requires Positive(ds)
  {
    StopsAfter(a, t, ds, k) && forall j :: 0 <= j < k ==> !StopsAfter(a, t, ds, j)
  }

  /** The outer loop of the value target (crates/cashu/src/amount.rs:126-149). */
  method TargetedLoop(a: nat, t: nat, ds: seq<nat>) returns (panicked: bool, parts: seq<nat>, ghost k: nat)
    requires a <= U64_MAX && t < a
    requires Positive(ds) && Halts(a, t, ds)
    ensures FirstStop(a, t, ds, k)
    ensures panicked <==> PassPanics(a, ds, Split(t, ds), Passes(a, ds, Split(t, ds), k))
    ensures panicked ==> a + t > U64_MAX
    ensures !panicked ==> Sum(parts) == a && parts == Passes(a, ds, Split(t, ds), k)
    ensures Complete(ds) ==>
              && Sum(Split(t, ds)) > 0
              && (panicked <==> TargetedPanics(a, t, ds))
              && (!panicked ==> parts == TargetedParts(a, t, ds))
  {
    var value := Split(t, ds);
    HaltsNeedsTarget(a, t, ds);
    PartsPositive(t, ds);
    var total := 0;
    parts, k := [], 0;
    ghost var last: nat :| StopsAfter(a, t, ds, last);
    while total < a
      invariant total == Sum(parts) <= a && parts == Passes(a, ds, value, k)
      invariant k <= last && forall j :: 0 <= j < k ==> !StopsAfter(a, t, ds, j)
      invariant Complete(ds) && total < a ==> parts == Repeat(value, k)
      invariant Complete(ds) && total == a ==> !TargetedPanics(a, t, ds) && parts == TargetedParts(a, t, ds)
      decreases last - k
    {
      PassPanicsBound(a, t, ds, value, parts);
      if Complete(ds) {
        LastPass(a, t, ds, k);
      }
      panicked, total, parts := TargetedPass(a, ds, value, total, parts);
      if panicked {
        return;
      }
      assert !StopsAfter(a, t, ds, k);
      k := k + 1;
    }
    panicked := false;
  }

  /** A target without parts never comes to an end. */
  lemma HaltsNeedsTarget(a: nat, t: nat, ds: seq<nat>)
    requires Positive(ds) && a > 0 && Halts(a, t, ds)
    ensures Split(t, ds) != [] && t > 0 && Sum(Split(t, ds)) > 0
  {
    var k :| StopsAfter(a, t, ds, k);
    SplitBelow(t, ds);
    if Split(t, ds) == [] {
      NoPasses(a, ds, k);
    } else {
      assert Split(t, ds)[0] in Split(t, ds);
    }
  }

  lemma {:induction false} NoPasses(a: nat, ds: seq<nat>, k: nat)
    requires Positive(ds)
    ensures Passes(a, ds, [], k) == []
  {
    if k > 0 {
      NoPasses(a, ds, k - 1);
    }
  }

  lemma PartsPositive(t: nat, ds: seq<nat>)
    requires Positive(ds)
    ensures forall i :: 0 <= i < |Split(t, ds)| ==> 0 < Split(t, ds)[i] <= t
  {
    SplitBelow(t, ds);
    assert forall i :: 0 <= i < |Split(t, ds)| ==> Split(t, ds)[i] in Split(t, ds);
  }

  lemma {:induction false} PassPanicsBound(a: nat, t: nat, ds: seq<nat>, value: seq<nat>, parts: seq<nat>)
    requires Positive(ds) && Sum(parts) <= a
    requires forall i :: 0 <= i < |value| ==> 0 < value[i] <= t
    ensures PassPanics(a, ds, value, parts) ==> a + t > U64_MAX
    decreases |value|
  {
    if value != [] && Sum(parts) < a {
      AddPartProgress(a, ds, value[0], parts);
      PassPanicsBound(a, t, ds, value[1..], AddPart(a, ds, value[0], parts));
    }
  }

  /** After `k` whole copies, the next pass adds another one, or reaches the amount or the panic. */
  lemma LastPass(a: nat, t: nat, ds: seq<nat>, k: nat)
    requires a <= U64_MAX && Complete(ds) && 0 < t && Sum(Repeat(Split(t, ds), k)) < a
    ensures Sum(Split(t, ds)) > 0
    ensures var value, parts := Split(t, ds), Repeat(Split(t, ds), k);
            if PassPanics(a, ds, value, parts) then TargetedPanics(a, t, ds)
            else if Sum(Pass(a, ds, value, parts)) == a
            then !TargetedPanics(a, t, ds) && Pass(a, ds, value, parts) == TargetedParts(a, t, ds)
            else Pass(a, ds, value, parts) == Repeat(value, k + 1)
  {
    var value, parts := Split(t, ds), Repeat(Split(t, ds), k);
    SplitNonEmpty(t, ds);
    assert value[0..] == value && parts + value[..0] == parts;
    var i, left := CompletePass(a, t, ds, parts, 0, parts);
    if PassPanics(a, ds, value, parts) || Sum(Pass(a, ds, value, parts)) == a {
      if left > 0 {
        UnfinishedCopy(a, t, ds, k, i, left);
      } else {
        FinishedOnBoundary(a, t, ds, k, i);
      }
    }
  }

  /** With 1 as a denomination, every pass comes closer to the amount, and none goes beyond it. */
  lemma {:induction false} PassProgress(a: nat, ds: seq<nat>, value: seq<nat>, parts: seq<nat>)
    requires Positive(ds) && ds != [] && ds[0] == 1
    requires Sum(parts) < a && forall i :: 0 <= i < |value| ==> value[i] > 0
    ensures value != [] ==> Sum(parts) < Sum(Pass(a, ds, value, parts))
    ensures Sum(parts) <= Sum(Pass(a, ds, value, parts)) <= a
    decreases |value|
  {
    if value != [] {
      var next := AddPart(a, ds, value[0], parts);
      AddPartProgress(a, ds, value[0], parts);
      if Sum(next) < a {
        PassProgress(a, ds, value[1..], next);
      }
    }
  }

  lemma AddPartProgress(a: nat, ds: seq<nat>, part: nat, parts: seq<nat>)
    requires Positive(ds) && Sum(parts) < a && part > 0
    ensures Sum(parts) <= Sum(AddPart(a, ds, part, parts)) <= a
    ensures ds != [] && ds[0] == 1 ==> Sum(parts) < Sum(AddPart(a, ds, part, parts))
  {
    var left := a - Sum(parts);
    SumConcat(parts, [part]);
    SumConcat(parts, Split(left, ds));
    SplitBelow(left, ds);
    if ds != [] && ds[0] == 1 {
      SplitNonEmpty(left, ds);
    }
  }

  /** A copy of `value` begun at `total` stops after its first `i` parts, `left` short of `a`. */
  ghost predicate StopsAt(a: nat, value: seq<nat>, total: nat, i: nat, left: nat) {
    && i <= |value|
    && a == total + Sum(value[..i]) + left
    && (left > 0 ==> i < |value| && left < value[i])
  }

  /** One pass of the inner loop over the parts of the target. */
  method TargetedPass(a: nat, ds: seq<nat>, value: seq<nat>, total0: nat, parts0: seq<nat>)
    returns (panicked: bool, total: nat, parts: seq<nat>)
    requires a <= U64_MAX && Positive(ds)
    requires forall i :: 0 <= i < |value| ==> value[i] > 0
    requires total0 == Sum(parts0) < a
    ensures panicked <==> PassPanics(a, ds, value, parts0)
    ensures !panicked ==> parts == Pass(a, ds, value, parts0) && total == Sum(parts) <= a
  {
    total, parts, panicked := total0, parts0, false;
    var n := 0;
    while n < |value|
      invariant 0 <= n <= |value|
      invariant !panicked && total == Sum(parts) < a
      invariant Pass(a, ds, value[n..], parts) == Pass(a, ds, value, parts0)
      invariant PassPanics(a, ds, value[n..], parts) == PassPanics(a, ds, value, parts0)
    {
      assert value[n..][1..] == value[n + 1..];
      panicked, total, parts := TargetedPart(a, ds, value[n], total, parts);
      n := n + 1;
      if panicked || total == a {
        return;
      }
    }
  }

  /** In a complete keyset a pass adds the whole target, or stops in it where the amount is reached. */
  lemma {:induction false} CompletePass(a: nat, t: nat, ds: seq<nat>, parts0: seq<nat>, n: nat, parts: seq<nat>)
    returns (i: nat, left: nat)
    requires a <= U64_MAX && Complete(ds) && n <= |Split(t, ds)|
    requires parts == parts0 + Split(t, ds)[..n] && Sum(parts) < a
    ensures PassStops(a, ds, Split(t, ds), parts0, i, left,
                      Pass(a, ds, Split(t, ds)[n..], parts), PassPanics(a, ds, Split(t, ds)[n..], parts))
    decreases |Split(t, ds)| - n
  {
    var value := Split(t, ds);
    i, left := n, a - Sum(parts);
    SumConcat(parts0, value[..n]);
    if n == |value| {
      assert value[..n] == value;
    } else {
      var part, next := value[n], AddPart(a, ds, value[n], parts);
      assert value[n..][1..] == value[n + 1..];
      PrefixStep(parts0, value, n);
      SumConcat(parts, [part]);
      if part > left {
        RemainderSplitsExactly(t, ds, n, left);
        SumConcat(parts, Split(left, ds));
        EndOfPass(a, ds, value[n + 1..], next);
      } else if part == left {
        i, left := n + 1, 0;
        SplitZero(ds);
        EndOfPass(a, ds, value[n + 1..], next);
      } else {
        i, left := CompletePass(a, t, ds, parts0, n + 1, next);
      }
    }
  }

  lemma EndOfPass(a: nat, ds: seq<nat>, value: seq<nat>, parts: seq<nat>)
    requires Positive(ds) && Sum(parts) == a
    ensures Pass(a, ds, value, parts) == parts && !PassPanics(a, ds, value, parts)
  {
  }

  /** How a pass from `parts0` ends, with `parts` or a panic. */
  ghost predicate PassStops(a: nat, ds: seq<nat>, value: seq<nat>, parts0: seq<nat>, i: nat, left: nat,
                            parts: seq<nat>, panicked: bool)
    requires Positive(ds)
  {
    if !panicked && Sum(parts) != a then parts == parts0 + value
    else
      && StopsAt(a, value, Sum(parts0), i, left)
      && (panicked <==> left > 0 && a - left + value[i] > U64_MAX)
      && (left == 0 ==> i > 0)
      && (!panicked ==> parts == parts0 + value[..i] + Split(left, ds))
  }

  /** One part of the inner loop (crates/cashu/src/amount.rs:134-145). */
  method TargetedPart(a: nat, ds: seq<nat>, part: nat, total0: nat, parts0: seq<nat>)
    returns (panicked: bool, total: nat, parts: seq<nat>)
    requires a <= U64_MAX && Positive(ds) && part > 0
    requires total0 == Sum(parts0) < a
    ensures panicked <==> part + total0 > U64_MAX
    ensures !panicked ==> parts == AddPart(a, ds, part, parts0) && total == Sum(parts) <= a
    ensures !panicked && part + total0 <= a ==> total == total0 + part
  {
    if part + total0 > U64_MAX {
      return true, total0, parts0;
    }
    AddPartProgress(a, ds, part, parts0);
    if part + total0 <= a {
      parts := parts0 + [part];
      SumConcat(parts0, [part]);
    } else {
      parts := parts0 + Split(a - total0, ds);
    }
    TrySumIsTheSum(parts, 0);
    panicked, total := false, TrySum(parts).value;
  }

  lemma RemainderSplitsExactly(t: nat, ds: seq<nat>, n: nat, left: nat)
    requires Complete(ds)
    requires n < |Split(t, ds)| && left < Split(t, ds)[n]
    ensures Sum(Split(left, ds)) == left
  {
    SplitBelow(t, ds);
    assert Split(t, ds)[n] in Split(t, ds);
    SplitExact(left, ds);
  }

  lemma PrefixStep(prefix: seq<nat>, xs: seq<nat>, i: nat)
    requires i < |xs|
    ensures prefix + xs[..i + 1] == prefix + xs[..i] + [xs[i]]
    ensures Sum(xs[..i + 1]) == Sum(xs[..i]) + xs[i]
  {
    assert xs[..i + 1] == xs[..i] + [xs[i]];
    SumConcat(xs[..i], [xs[i]]);
  }

  /** The part at `i` does not fit: the copy in progress is the last one. */
  lemma UnfinishedCopy(a: nat, t: nat, ds: seq<nat>, k: nat, i: nat, left: nat)
    requires Complete(ds) && 0 < t
    requires StopsAt(a, Split(t, ds), Sum(Repeat(Split(t, ds), k)), i, left) && left > 0
    ensures Sum(Split(t, ds)) > 0
    ensures TargetedParts(a, t, ds) == Repeat(Split(t, ds), k) + Split(t, ds)[..i] + Split(left, ds)
    ensures TargetedPanics(a, t, ds) <==> a - left + Split(t, ds)[i] > U64_MAX
  {
    var value := Split(t, ds);
    SumRepeat(value, k);
    SplitNonEmpty(t, ds);
    SplitSharesPrefix(t, ds, i, left);
    SplitBelow(t, ds);
    FirstReachAt(value, i, left);
    DivModUnique(a, Sum(value), k, Sum(value[..i]) + left);
  }

  /** The copy in progress adds up to `a` after its first `i` parts. */
  lemma FinishedOnBoundary(a: nat, t: nat, ds: seq<nat>, k: nat, i: nat)
    requires Complete(ds) && 0 < t
    requires StopsAt(a, Split(t, ds), Sum(Repeat(Split(t, ds), k)), i, 0) && i > 0
    requires a <= U64_MAX
    ensures Sum(Split(t, ds)) > 0
    ensures !TargetedPanics(a, t, ds)
    ensures TargetedParts(a, t, ds) == Repeat(Split(t, ds), k) + Split(t, ds)[..i] + Split(0, ds)
  {
    SplitNonEmpty(t, ds);
    SplitZero(ds);
    if i == |Split(t, ds)| {
      assert Split(t, ds)[..i] == Split(t, ds);
      SumConcat(Repeat(Split(t, ds), k), Split(t, ds));
      WholeCopies(a, t, ds, k + 1);
    } else {
      PartOfACopy(a, t, ds, k, i);
    }
  }

  lemma WholeCopies(a: nat, t: nat, ds: seq<nat>, k: nat)
    requires Positive(ds) && Sum(Split(t, ds)) > 0
    requires a == Sum(Repeat(Split(t, ds), k)) <= U64_MAX
    ensures TargetedParts(a, t, ds) == Repeat(Split(t, ds), k)
    ensures !TargetedPanics(a, t, ds)
  {
    SplitZero(ds);
    SumRepeat(Split(t, ds), k);
    DivModUnique(a, Sum(Split(t, ds)), k, 0);
  }

  lemma PartOfACopy(a: nat, t: nat, ds: seq<nat>, k: nat, i: nat)
    requires Positive(ds) && Sum(Split(t, ds)) > 0
    requires i < |Split(t, ds)|
    requires a == Sum(Repeat(Split(t, ds), k)) + Sum(Split(t, ds)[..i]) <= U64_MAX
    ensures TargetedParts(a, t, ds) == Repeat(Split(t, ds), k) + Split(t, ds)[..i]
    ensures !TargetedPanics(a, t, ds)
  {
    var value := Split(t, ds);
    SplitZero(ds);
    SplitBelow(t, ds);
    assert value[i] in value;
    SplitSharesPrefix(t, ds, i, 0);
    FirstReachAt(value, i, 0);
    SumRepeat(value, k);
    DivModUnique(a, Sum(value), k, Sum(value[..i]));
  }
}
