/** Blind Diffie-Hellmann key exchange (crates/cashu/src/dhke.rs; the scheme is the section
    "Blind Diffie-Hellmann key exchange (BDHKE)" of Cashu NUT-00).

    The curve is a group of prime order q, written as the integers modulo q with generator g.
    A public key is a point other than the identity 0; a secret key is a scalar from 1 to q-1. */
module BlindSignature {
  import opened Wrappers
  import opened PrimeField

  type byte = x: int | 0 <= x < 256

  datatype DhkeError = NoValidPoint | Secp256k1 | TokenNotVerified | LengthMismatch | NoKeyForAmount

  datatype Group = Group(q: nat, g: nat) {
    ghost predicate Valid() {
      Prime(q) && 0 < g < q
    }

    predicate IsKey(k: nat) {
      0 < k < q
    }

    /** Scalar multiplication; `mul_tweak` refuses a zero scalar and the identity. */
    function MulTweak(p: nat, k: nat): Result<nat, DhkeError>
      requires q > 0
    {
      if k % q == 0 || (k * p) % q == 0 then Err(Secp256k1) else Ok((k * p) % q)
    }

    /** Point addition; `combine` refuses the identity. */
    function Combine(p: nat, r: nat): Result<nat, DhkeError>
      requires q > 0
    {
      if (p + r) % q == 0 then Err(Secp256k1) else Ok((p + r) % q)
    }

    function Negate(p: nat): nat
      requires q > 0
    {
      (0 - p) % q
    }

    function PublicKey(k: nat): nat
      requires q > 0
    {
      (k * g) % q
    }
  }

  // ----- Hashing to the curve -----

  /** The hash function and the parsing of a hash as a point are left open. */
  datatype Curve = Curve(group: Group, sha256: seq<byte> -> seq<byte>, lift: seq<byte> -> Option<nat>) {
    ghost predicate Valid() {
      && group.Valid()
      && forall h: seq<byte> {:trigger lift(h)} :: lift(h).Some? ==> group.IsKey(lift(h).value)
    }
  }

  const DOMAIN_SEPARATOR: seq<byte> :=
    [83, 101, 99, 112, 50, 53, 54, 107, 49, 95, 72, 97, 115, 104, 84, 111, 67, 117, 114, 118, 101, 95, 67, 97, 115,
     104, 117, 95]

  const MAX_COUNTER: nat := 65536

  function LittleEndian(n: nat): seq<byte> {
    [n % 256, (n / 256) % 256, (n / 65536) % 256, (n / 16777216) % 256]
  }

  /** The candidate point for one value of the counter. */
  function Candidate(c: Curve, msgHash: seq<byte>, counter: nat): Option<nat> {
    c.lift(c.sha256(msgHash + LittleEndian(counter)))
  }

  function FirstPoint(c: Curve, msgHash: seq<byte>, counter: nat): Result<nat, DhkeError>
    requires counter <= MAX_COUNTER
    decreases MAX_COUNTER - counter
  {
    if counter == MAX_COUNTER then Err(NoValidPoint)
    else match Candidate(c, msgHash, counter)
      case Some(p) => Ok(p)
      case None => FirstPoint(c, msgHash, counter + 1)
  }

  function HashToCurve(c: Curve, message: seq<byte>): Result<nat, DhkeError> {
    FirstPoint(c, c.sha256(DOMAIN_SEPARATOR + message), 0)
  }

  /** `hash_to_curve`: the search loop over the counter. */
  method SearchPoint(c: Curve, message: seq<byte>) returns (r: Result<nat, DhkeError>)
    ensures r == HashToCurve(c, message)
  {
    var msgHash := c.sha256(DOMAIN_SEPARATOR + message);
    var counter := 0;
    while counter < MAX_COUNTER
      invariant counter <= MAX_COUNTER
      invariant HashToCurve(c, message) == FirstPoint(c, msgHash, counter)
    {
      var candidate := Candidate(c, msgHash, counter);
      if candidate.Some? {
        return Ok(candidate.value);
      }
      counter := counter + 1;
    }
    r := Err(NoValidPoint);
  }

  /** The search gives the point of the least counter that has one. */
  lemma {:induction false} FirstPointIsLeast(c: Curve, msgHash: seq<byte>, start: nat)
    requires start <= MAX_COUNTER
    ensures match FirstPoint(c, msgHash, start)
            case Ok(p) =>
              exists n :: start <= n < MAX_COUNTER && Candidate(c, msgHash, n) == Some(p)
                && forall m :: start <= m < n ==> Candidate(c, msgHash, m) == None
            case Err(e) => e == NoValidPoint && forall n :: start <= n < MAX_COUNTER ==>
                Candidate(c, msgHash, n) == None
    decreases MAX_COUNTER - start
  {
    if start < MAX_COUNTER && Candidate(c, msgHash, start) == None {
      FirstPointIsLeast(c, msgHash, start + 1);
    }
  }

  const SEPARATOR_TEXT: string := "Secp256k1_HashToCurve_Cashu_"

  /** The domain separator is its text, byte by byte. */
  lemma SeparatorIsText()
    ensures |DOMAIN_SEPARATOR| == |SEPARATOR_TEXT|
    ensures forall i :: 0 <= i < |SEPARATOR_TEXT| ==> DOMAIN_SEPARATOR[i] == SEPARATOR_TEXT[i] as int
  {
  }

  /** The number of four bytes, lowest first. */
  function NumberOf(b: seq<byte>): nat
    requires |b| == 4
  {
    var b0: int, b1: int, b2: int, b3: int := b[0], b[1], b[2], b[3];
    b0 + 0x100 * b1 + 0x1_0000 * b2 + 0x100_0000 * b3
  }

  lemma CounterBytes(n: nat)
    requires n < 0x1_0000_0000
    ensures |LittleEndian(n)| == 4 && NumberOf(LittleEndian(n)) == n
  {
    var x, y := n / 256, n / 65536;
    assert n == 256 * x + n % 256 && x == 256 * y + x % 256;
    assert y == 256 * (n / 16777216) + y % 256;
  }

  /** What is hashed with a counter: the hash of the separator and the message, and then the four bytes
      of the counter, lowest first. */
  ghost predicate HashedWith(input: seq<byte>, c: Curve, message: seq<byte>, n: nat) {
    && |input| >= 4
    && input[..|input| - 4] == c.sha256(DOMAIN_SEPARATOR + message)
    && NumberOf(input[|input| - 4..]) == n
  }

  /** The try with this counter gives this point, or none. */
  ghost predicate Tries(c: Curve, message: seq<byte>, n: nat, point: Option<nat>) {
    exists input :: HashedWith(input, c, message, n) && c.lift(c.sha256(input)) == point
  }

  /** The point of a message comes from the least counter below 2^16 whose hash is a point; there is none
      if and only if no such counter has one. */
  lemma PointOfMessage(c: Curve, message: seq<byte>)
    ensures match HashToCurve(c, message)
            case Ok(p) =>
              exists n: nat :: n < 0x1_0000 && Tries(c, message, n, Some(p))
                && forall m: nat :: m < n ==> Tries(c, message, m, None)
            case Err(e) => e == NoValidPoint && forall n: nat :: n < 0x1_0000 ==> Tries(c, message, n, None)
  {
    var h := c.sha256(DOMAIN_SEPARATOR + message);
    FirstPointIsLeast(c, h, 0);
    forall n: nat | n < 0x1_0000 ensures Tries(c, message, n, Candidate(c, h, n)) {
      var input := CandidateInput(c, message, n);
    }
    match HashToCurve(c, message)
    case Ok(p) =>
      var n: nat :| n < MAX_COUNTER && Candidate(c, h, n) == Some(p)
                    && forall m :: 0 <= m < n ==> Candidate(c, h, m) == None;
      forall m: nat | m < n ensures Tries(c, message, m, None) {
        assert Candidate(c, h, m) == None;
      }
    case Err(_) =>
      forall n: nat | n < 0x1_0000 ensures Tries(c, message, n, None) {
        assert Candidate(c, h, n) == None;
      }
  }

  lemma CandidateInput(c: Curve, message: seq<byte>, n: nat) returns (input: seq<byte>)
    requires n < 0x1_0000
    ensures HashedWith(input, c, message, n)
    ensures Candidate(c, c.sha256(DOMAIN_SEPARATOR + message), n) == c.lift(c.sha256(input))
  {
    var h := c.sha256(DOMAIN_SEPARATOR + message);
    input := h + LittleEndian(n);
    CounterBytes(n);
    assert input[..|input| - 4] == h && input[|input| - 4..] == LittleEndian(n);
  }

  lemma {:induction false} FirstPointIsAKey(c: Curve, msgHash: seq<byte>, counter: nat)
    requires c.Valid() && counter <= MAX_COUNTER
    ensures FirstPoint(c, msgHash, counter).Ok? ==> c.group.IsKey(FirstPoint(c, msgHash, counter).value)
    decreases MAX_COUNTER - counter
  {
    if counter < MAX_COUNTER {
      FirstPointIsAKey(c, msgHash, counter + 1);
    }
  }

  lemma PointIsAKey(c: Curve, message: seq<byte>)
    requires c.Valid()
    ensures HashToCurve(c, message).Ok? ==> c.group.IsKey(HashToCurve(c, message).value)
  {
    FirstPointIsAKey(c, c.sha256(DOMAIN_SEPARATOR + message), 0);
  }

  // ----- The exchange -----

  /** `blind_message`: B_ = Y + rG. */
  function BlindMessage(c: Curve, secret: seq<byte>, r: nat): Result<nat, DhkeError>
    requires c.group.q > 0
  {
    match HashToCurve(c, secret)
    case Err(e) => Err(e)
    case Ok(y) => c.group.Combine(y, c.group.PublicKey(r))
  }

  /** `sign_message`: C_ = kB_. */
  function SignMessage(grp: Group, k: nat, blinded: nat): Result<nat, DhkeError>
    requires grp.q > 0
  {
    grp.MulTweak(blinded, k)
  }

  /** `unblind_message`: C = C_ - rK. */
  function UnblindMessage(grp: Group, blindedKey: nat, r: nat, mintKey: nat): Result<nat, DhkeError>
    requires grp.q > 0
  {
    match grp.MulTweak(mintKey, r)
    case Err(e) => Err(e)
    case Ok(a) => grp.Combine(blindedKey, grp.Negate(a))
  }

  /** `verify_message`: C = kY. */
  function VerifyMessage(c: Curve, k: nat, unblinded: nat, message: seq<byte>): Result<(), DhkeError>
    requires c.group.q > 0
  {
    match HashToCurve(c, message)
    case Err(e) => Err(e)
    case Ok(y) =>
      match c.group.MulTweak(y, k)
      case Err(e) => Err(e)
      case Ok(expected) => if unblinded == expected then Ok(()) else Err(TokenNotVerified)
  }

  /** In a group of prime order a key times a key is a key. */
  lemma TweakSucceeds(grp: Group, p: nat, k: nat)
    requires grp.Valid() && grp.IsKey(p) && grp.IsKey(k)
    ensures grp.MulTweak(p, k) == Ok((k * p) % grp.q)
    ensures grp.IsKey((k * p) % grp.q)
  {
    ModSmall(k, grp.q);
    NoZeroDivisors(k, p, grp.q);
  }

  /** k(Y + rG) - r(kG) = kY. */
  lemma UnblindingCancels(q: nat, y: nat, r: nat, g: nat, k: nat)
    requires q > 0
    ensures ((k * ((y + (r * g) % q) % q)) % q + (-((r * ((k * g) % q)) % q)) % q) % q == (k * y) % q
  {
    var b := (y + (r * g) % q) % q;
    var c, a := (k * b) % q, (r * ((k * g) % q)) % q;
    AddMod(r * g, y, q);
    assert b == (y + r * g) % q;
    MulMod(k, y + r * g, q);
    MulMod(r, k * g, q);
    assert c == (k * (y + r * g)) % q && a == (r * (k * g)) % q;
    AddMod(-a, c, q);
    AddMod(k * (y + r * g), -a, q);
    SubMod(k * (y + r * g), r * (k * g), q);
    assert k * (y + r * g) - r * (k * g) == k * y by {
      DistributeLeft(k, y, r * g);
      MulAssoc(k, r, g);
    }
  }

  lemma DistributeLeft(a: int, b: int, c: int)
    ensures a * (b + c) == a * b + a * c
  {
  }

  /** A blinded message that was signed unblinds to kY, whatever the blinding factor; none of the
      point operations can meet the identity. */
  lemma SignedMessageUnblinds(c: Curve, secret: seq<byte>, r: nat, k: nat)
    requires c.Valid() && c.group.IsKey(r) && c.group.IsKey(k)
    requires BlindMessage(c, secret, r).Ok?
    ensures HashToCurve(c, secret).Ok?
    ensures var blinded := BlindMessage(c, secret, r).value;
            var signed := SignMessage(c.group, k, blinded);
            && signed.Ok?
            && UnblindMessage(c.group, signed.value, r, c.group.PublicKey(k))
               == Ok((k * HashToCurve(c, secret).value) % c.group.q)
  {
    var grp, q := c.group, c.group.q;
    var y := HashToCurve(c, secret).value;
    PointIsAKey(c, secret);
    var blinded := BlindMessage(c, secret, r).value;
    TweakSucceeds(grp, blinded, k);
    TweakSucceeds(grp, grp.g, k);
    TweakSucceeds(grp, grp.PublicKey(k), r);
    TweakSucceeds(grp, y, k);
    UnblindingCancels(q, y, r, grp.g, k);
  }

  /** Verification accepts a signature made with key k exactly under the key k: the exchange is
      complete, and a signature of one key is no signature of another. */
  lemma VerifiesExactlyUnderItsKey(c: Curve, secret: seq<byte>, k: nat, k': nat)
    requires c.Valid() && c.group.IsKey(k) && c.group.IsKey(k')
    requires HashToCurve(c, secret).Ok?
    ensures VerifyMessage(c, k', (k * HashToCurve(c, secret).value) % c.group.q, secret) == Ok(()) <==> k == k'
  {
    var y := HashToCurve(c, secret).value;
    PointIsAKey(c, secret);
    TweakSucceeds(c.group, y, k);
    TweakSucceeds(c.group, y, k');
    if (k * y) % c.group.q == (k' * y) % c.group.q {
      CancelFactor(k, k', y, c.group.q);
    }
  }

  // ----- Perfect hiding -----

  /** The blinding factor that takes Y to B. */
  lemma BlindingFactor(grp: Group, y: nat, b: nat) returns (r: nat)
    requires grp.Valid() && grp.IsKey(y) && grp.IsKey(b) && y != b
    ensures grp.IsKey(r) && (y + (r * grp.g) % grp.q) % grp.q == b
  {
    var q, g := grp.q, grp.g;
    var d := (b - y) % q;
    var i := Inverse(g, q);
    r := (d * i) % q;
    ScaledInverse(d, i, g, q);
    assert (y + d) % q == b by {
      AddMod(b - y, y, q);
      ModSmall(b, q);
    }
    if r == 0 {
      ModSmall(0, q);
      ModSmall(y, q);
    }
  }

  lemma ScaledInverse(d: nat, i: nat, g: nat, q: nat)
    requires d < q && (g * i) % q == 1
    ensures (((d * i) % q) * g) % q == d
  {
    MulMod(g, d * i, q);
    MulAssoc(g, d, i);
    MulMod(d, g * i, q);
    ModSmall(d, q);
  }

  /** A blinded message says nothing about its secret: every secret whose point is not the message
      itself has exactly one blinding factor that gives it, and a secret whose point is the message
      has none. */
  lemma BlindingHidesPerfectly(c: Curve, secret: seq<byte>, b: nat)
    requires c.Valid() && c.group.IsKey(b)
    requires HashToCurve(c, secret).Ok?
    ensures HashToCurve(c, secret).value != b <==>
              exists r :: c.group.IsKey(r) && BlindMessage(c, secret, r) == Ok(b)
    ensures forall r, s | c.group.IsKey(r) && c.group.IsKey(s) ::
              BlindMessage(c, secret, r) == Ok(b) && BlindMessage(c, secret, s) == Ok(b) ==> r == s
  {
    var grp, y := c.group, HashToCurve(c, secret).value;
    PointIsAKey(c, secret);
    if y != b {
      var r := BlindingFactor(grp, y, b);
      assert BlindMessage(c, secret, r) == Ok(b);
    }
    forall r | grp.IsKey(r) && BlindMessage(c, secret, r) == Ok(b) ensures y != b {
      BlindingMoves(grp, y, r);
    }
    forall r, s | grp.IsKey(r) && grp.IsKey(s)
      && BlindMessage(c, secret, r) == Ok(b) && BlindMessage(c, secret, s) == Ok(b)
      ensures r == s
    {
      BlindingUnique(grp, y, r, s);
    }
  }

  lemma BlindingMoves(grp: Group, y: nat, r: nat)
    requires grp.Valid() && grp.IsKey(y) && grp.IsKey(r)
    ensures (y + (r * grp.g) % grp.q) % grp.q != y
  {
    var x := (r * grp.g) % grp.q;
    NoZeroDivisors(r, grp.g, grp.q);
    if y + x < grp.q {
      ModSmall(y + x, grp.q);
    } else {
      ModUnique(y + x, grp.q, 1, y + x - grp.q);
    }
  }

  lemma BlindingUnique(grp: Group, y: nat, r: nat, s: nat)
    requires grp.Valid() && grp.IsKey(y) && grp.IsKey(r) && grp.IsKey(s)
    requires (y + (r * grp.g) % grp.q) % grp.q == (y + (s * grp.g) % grp.q) % grp.q
    ensures r == s
  {
    SameShift(y, (r * grp.g) % grp.q, (s * grp.g) % grp.q, grp.q);
    CancelFactor(r, s, grp.g, grp.q);
  }

  lemma SameShift(y: nat, u: nat, v: nat, q: nat)
    requires u < q && v < q && (y + u) % q == (y + v) % q
    ensures u == v
  {
    EqualRemainders(y + u, y + v, q);
    EqualRemainders(y + v, y + u, q);
    if u < v {
      ModSmall(v - u, q);
    } else {
      ModSmall(u - v, q);
    }
  }
}
