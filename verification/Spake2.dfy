/** Symmetric SPAKE2 over an abstract group, with the byte and scalar arithmetic of Ed25519 (RFC 8032, section 5.1). */
module Spake2 {
  import opened Bytes
  import opened Hex

  /** The group order and the field prime. */
  const L: nat := 0x1000000000000000000000000000000014def9dea2f79cd65812631a5cf5d3ed
  const Q: nat := 0x7fffffffffffffffffffffffffffffffffffffffffffffffffffffffffffffed

  const SCALAR_BYTES := 32
  const CANDIDATES := 1000
  const SIDE_SYMMETRIC: byte := 0x53

  // ---------- bytes and numbers ----------

  lemma {:induction false} Pow256Sum(a: nat, b: nat)
    ensures Pow256(a + b) == Pow256(a) * Pow256(b)
  {
    if a == 0 {
    } else {
      Pow256Sum(a - 1, b);
      Times(Pow256(a - 1), Pow256(b));
    }
  }

  lemma Times(a: nat, b: nat)
    ensures 256 * (a * b) == (256 * a) * b
  {
  }

  lemma Pow256Of32()
    ensures Pow256(32) == 0x1_0000000000000000_0000000000000000_0000000000000000_0000000000000000
    ensures 128 * Pow256(31) == 0x8000000000000000_0000000000000000_0000000000000000_0000000000000000
  {
    Pow256Values();
    Pow256Sum(8, 8);
    Pow256Sum(16, 16);
    assert Pow256(32) == 256 * Pow256(31);
  }

  /** 2^252 + 27742317777372353535851937790883648493 and 2^255 - 19. */
  lemma ConstantsOfEd25519()
    ensures L == 16 * Pow256(31) + 27742317777372353535851937790883648493
    ensures Q == 128 * Pow256(31) - 19
  {
    Pow256Of32();
  }

  /** `bytesToNumberLE`: the loop runs from the last byte to the first. */
  method BytesToNumberLE(b: bytes) returns (result: nat)
    ensures result == ValueLE(b)
  {
    result := 0;
    var i: nat := |b|;
    while i > 0
      invariant i <= |b| && result == ValueLE(b[i..])
    {
      i := i - 1;
      assert b[i..][1..] == b[i + 1..];
      result := result * 256 + b[i];
    }
    assert b[0..] == b;
  }

  /** `bytesToNumberBE`. */
  method BytesToNumberBE(b: bytes) returns (result: nat)
    ensures result == ValueBE(b)
  {
    result := 0;
    for i := 0 to |b|
      invariant result == ValueBE(b[..i])
    {
      assert b[..i + 1][..i] == b[..i];
      result := result * 256 + b[i];
    }
    assert b[..|b|] == b;
  }

  /** `numberToBytesLE`, filling an array. */
  method NumberToBytesLE(num: nat, length: nat) returns (a: array<byte>)
    ensures fresh(a) && a[..] == BytesLE(num, length)
  {
    a := new byte[length];
    var n := num;
    for i := 0 to length
      invariant a[..i] + BytesLE(n, length - i) == BytesLE(num, length)
    {
      a[i] := n % 256;
      assert a[..i + 1] + BytesLE(n / 256, length - i - 1) == a[..i] + ([n % 256] + BytesLE(n / 256, length - i - 1));
      n := n / 256;
    }
  }

  /** A number reduced modulo L or Q survives in 32 bytes. */
  lemma ReducedFits(n: nat)
    ensures ValueLE(BytesLE(n % L, SCALAR_BYTES)) == n % L
    ensures ValueLE(BytesLE(n % Q, SCALAR_BYTES)) == n % Q
  {
    Pow256Of32();
    ValueOfBytesLE(n % L, SCALAR_BYTES);
    ValueOfBytesLE(n % Q, SCALAR_BYTES);
  }

  // ---------- the search for a curve point ----------

  /** The candidate with offset k, before and after the sign bit is masked. */
  function Unmasked(y: nat, k: nat): bytes { BytesLE((y + k) % Q, SCALAR_BYTES) }

  function Candidate(y: nat, k: nat): bytes {
    var b := Unmasked(y, k);
    b[31 := b[31] % 128]
  }

  lemma {:induction false} TopByte(n: nat, w: nat)
    requires n < 128 * Pow256(w)
    ensures BytesLE(n, w + 1)[w] < 128
  {
    if w == 0 {
    } else {
      TopByte(n / 256, w - 1);
    }
  }

  /** The mask `& 0x7f` never changes a candidate, since it is below 2^255 - 19. */
  lemma MaskChangesNothing(y: nat, k: nat)
    ensures Candidate(y, k) == Unmasked(y, k)
  {
    TopByteOfReduced((y + k) % Q);
  }

  lemma TopByteOfReduced(n: nat)
    requires n < Q
    ensures BytesLE(n, SCALAR_BYTES)[31] < 128
  {
    Pow256Of32();
    TopByte(n, 31);
  }

  lemma ResiduesDiffer(y: nat, i: nat, j: nat)
    requires y < Q && i < j < CANDIDATES
    ensures (y + i) % Q != (y + j) % Q
  {
  }

  /** The candidates tried are pairwise different. */
  lemma CandidatesDiffer(y: nat, i: nat, j: nat)
    requires y < Q && i < j < CANDIDATES
    ensures Candidate(y, i) != Candidate(y, j)
  {
    MaskChangesNothing(y, i);
    MaskChangesNothing(y, j);
    ResiduesDiffer(y, i, j);
    ReducedBytesDiffer((y + i) % Q, (y + j) % Q);
  }

  lemma ReducedBytesDiffer(m: nat, n: nat)
    requires m < Q && n < Q && m != n
    ensures BytesLE(m, SCALAR_BYTES) != BytesLE(n, SCALAR_BYTES)
  {
    Pow256Of32();
    ValueOfBytesLE(m, SCALAR_BYTES);
    ValueOfBytesLE(n, SCALAR_BYTES);
  }

  /** The k-th candidate is the little-endian form of y + k modulo 2^255 - 19. */
  lemma CandidateCounts(y: nat, k: nat)
    ensures |Candidate(y, k)| == 32 && ValueLE(Candidate(y, k)) == (y + k) % Q
  {
    MaskChangesNothing(y, k);
    ReducedFits(y + k);
  }

  /**
   * `arbitraryElement`: the first candidate that decodes and survives the multiplication by
   * the cofactor, where either may throw; `expanded` is the HKDF output.
   */
  method FirstPoint<P>(expanded: bytes, decode: bytes -> Option<P>, clear: P -> Option<P>) returns (point: Option<P>)
    ensures var y := ValueBE(expanded) % Q;
            match point
            case Some(p) =>
              exists k :: 0 <= k < CANDIDATES
                && decode(Candidate(y, k)).Some? && clear(decode(Candidate(y, k)).value) == Some(p)
                && forall j :: 0 <= j < k ==>
                     decode(Candidate(y, j)).None? || clear(decode(Candidate(y, j)).value).None?
            case None =>
              forall k :: 0 <= k < CANDIDATES ==>
                decode(Candidate(y, k)).None? || clear(decode(Candidate(y, k)).value).None?
  {
    var n := BytesToNumberBE(expanded);
    var y := n % Q;
    for plus := 0 to CANDIDATES
      invariant forall j :: 0 <= j < plus ==>
                  decode(Candidate(y, j)).None? || clear(decode(Candidate(y, j)).value).None?
    {
      point := decode(Candidate(y, plus));
      if point.Some? {
        point := clear(point.value);
        if point.Some? {
          return;
        }
      }
    }
    point := None;
  }

  // ---------- groups ----------

  datatype Group<!P> = Group(add: (P, P) -> P, neg: P -> P, zero: P, base: P,
                           encode: P -> bytes, decode: bytes -> Option<P>)

  predicate Associates<P(==)>(g: Group<P>, a: P, b: P, c: P) {
    g.add(a, g.add(b, c)) == g.add(g.add(a, b), c)
  }

  predicate Commutes<P(==)>(g: Group<P>, a: P, b: P) { g.add(a, b) == g.add(b, a) }

  predicate HasInverse<P(==)>(g: Group<P>, a: P) { g.add(a, g.zero) == a && g.add(a, g.neg(a)) == g.zero }

  ghost predicate IsGroup<P(!new)>(g: Group<P>) {
    && (forall a, b, c :: Associates(g, a, b, c))
    && (forall a, b :: Commutes(g, a, b))
    && (forall a :: HasInverse(g, a))
  }

  /** A point has one 32-byte form, and only 32-byte strings decode. */
  predicate RoundTrips<P(==)>(g: Group<P>, a: P) { |g.encode(a)| == 32 && g.decode(g.encode(a)) == Some(a) }

  ghost predicate Encodes<P(!new)>(g: Group<P>) {
    && (forall a :: RoundTrips(g, a))
    && (forall b :: g.decode(b).Some? ==> |b| == 32)
  }

  function Mul<P>(g: Group<P>, n: nat, a: P): P {
    if n == 0 then g.zero else g.add(a, Mul(g, n - 1, a))
  }

  lemma {:induction false} MulSum<P(!new)>(g: Group<P>, m: nat, n: nat, a: P)
    requires IsGroup(g)
    ensures Mul(g, m + n, a) == g.add(Mul(g, m, a), Mul(g, n, a))
    decreases m
  {
    var rest := Mul(g, n, a);
    if m == 0 {
      assert Commutes(g, g.zero, rest) && HasInverse(g, rest);
    } else {
      MulSum(g, m - 1, n, a);
      assert Associates(g, a, Mul(g, m - 1, a), rest);
      assert Mul(g, m + n, a) == g.add(a, Mul(g, m - 1 + n, a));
    }
  }

  lemma {:induction false} MulMul<P(!new)>(g: Group<P>, m: nat, n: nat, a: P)
    requires IsGroup(g)
    ensures Mul(g, m, Mul(g, n, a)) == Mul(g, m * n, a)
    decreases m
  {
    if m == 0 {
    } else {
      MulMul(g, m - 1, n, a);
      MulSum(g, n, (m - 1) * n, a);
      OneMore(m, n);
    }
  }

  lemma MulOnce<P(!new)>(g: Group<P>, a: P)
    requires IsGroup(g)
    ensures Mul(g, 0, a) == g.zero && Mul(g, 1, a) == a && Mul(g, 2, a) == g.add(a, a)
  {
    assert HasInverse(g, a);
    assert Mul(g, 1, a) == g.add(a, Mul(g, 0, a));
  }

  lemma OneMore(m: nat, n: nat)
    requires m > 0
    ensures n + (m - 1) * n == m * n
  {
  }

  /** Unblinding takes away exactly the blinding. */
  lemma Unblind<P(!new)>(g: Group<P>, a: P, b: P)
    requires IsGroup(g)
    ensures g.add(g.add(a, b), g.neg(b)) == a
  {
    assert Associates(g, a, b, g.neg(b)) && HasInverse(g, b) && HasInverse(g, a);
  }

  // ---------- the exchange ----------

  /** sha256, the password's HKDF output, and the blinding point M. */
  datatype Suite<!P> = Suite(group: Group<P>, sha: bytes -> bytes, kdf: bytes -> bytes, m: P)

  /** `passwordToScalar`, read back as a number. */
  function PasswordScalar<P>(s: Suite<P>, password: bytes): nat {
    ValueLE(BytesLE(ValueBE(s.kdf(password)) % L, SCALAR_BYTES))
  }

  /** `passwordToScalar`: 32 bytes of the HKDF output, read as one big-endian number, modulo L. */
  method PasswordToScalar<P>(s: Suite<P>, password: bytes) returns (a: array<byte>)
    ensures fresh(a) && a.Length == 32
    ensures ValueLE(a[..]) == ValueBE(s.kdf(password)) % L == PasswordScalar(s, password)
  {
    var n := BytesToNumberBE(s.kdf(password));
    a := NumberToBytesLE(n % L, SCALAR_BYTES);
    assert |a[..]| == a.Length;
    ReducedFits(n);
  }

  /** The scalar of a password is its HKDF output as a big-endian number, modulo L. */
  lemma PasswordScalarIsReduced<P>(s: Suite<P>, password: bytes)
    ensures PasswordScalar(s, password) == ValueBE(s.kdf(password)) % L
  {
    ReducedFits(ValueBE(s.kdf(password)));
  }

  /** The random scalar: 32 bytes modulo L, and 1 instead of 0. */
  function Scalar(random: bytes): nat {
    var x := ValueLE(random) % L;
    if x == 0 then 1 else x
  }

  function Blinding<P>(s: Suite<P>, password: bytes): P {
    Mul(s.group, PasswordScalar(s, password), s.m)
  }

  function Outbound<P>(s: Suite<P>, password: bytes, x: nat): bytes {
    [SIDE_SYMMETRIC] + s.group.encode(s.group.add(Mul(s.group, x, s.group.base), Blinding(s, password)))
  }

  /** `_deriveKey`: the two points go in by the order of their hex strings. */
  function Transcript<P>(s: Suite<P>, password: bytes, id: bytes, outMsg: bytes, inMsg: bytes, k: bytes): bytes {
    var outFirst := Less(ToHex(outMsg), ToHex(inMsg));
    s.sha(password) + s.sha(id) + (if outFirst then outMsg + inMsg else inMsg + outMsg) + k
  }

  /** `finish` on a message of the peer, None where it throws. */
  function SharedKey<P>(s: Suite<P>, password: bytes, id: bytes, x: nat, outbound: bytes, inbound: bytes): Option<bytes>
    requires |outbound| > 0
  {
    if inbound == [] || inbound[0] != SIDE_SYMMETRIC then None
    else
      var blinded := s.group.decode(inbound[1..]);
      if blinded.None? then None
      else
        var y := s.group.add(blinded.value, s.group.neg(Blinding(s, password)));
        var k := s.group.encode(Mul(s.group, x, y));
        Some(s.sha(Transcript(s, password, id, outbound[1..], inbound[1..], k)))
  }

  /** `finish` fails exactly on a message without the side byte or whose rest is no point. */
  lemma FailsExactlyWhen<P>(s: Suite<P>, password: bytes, id: bytes, x: nat, outbound: bytes, inbound: bytes)
    requires |outbound| > 0
    ensures SharedKey(s, password, id, x, outbound, inbound).None?
       <==> inbound == [] || inbound[0] != 0x53 || s.group.decode(inbound[1..]).None?
  {
  }

  /** The order of the two messages does not depend on whose side one is on. */
  lemma TranscriptIsSymmetric<P>(s: Suite<P>, password: bytes, id: bytes, a: bytes, b: bytes, k: bytes)
    requires |a| == |b|
    ensures Transcript(s, password, id, a, b, k) == Transcript(s, password, id, b, a, k)
    ensures Transcript(s, password, id, a, b, k)
         == s.sha(password) + s.sha(id) + (if Less(a, b) then a + b else b + a) + k
  {
    HexOrderIsByteOrder(a, b);
    HexOrderIsByteOrder(b, a);
    LessIsTotal(a, b);
  }

  /** Unblinding the peer's message and multiplying gives x·y·G. */
  lemma SharedElement<P(!new)>(s: Suite<P>, password: bytes, x: nat, y: nat)
    requires IsGroup(s.group)
    ensures var g := s.group;
            Mul(g, x, g.add(g.add(Mul(g, y, g.base), Blinding(s, password)), g.neg(Blinding(s, password))))
            == Mul(g, x * y, g.base)
  {
    Unblind(s.group, Mul(s.group, y, s.group.base), Blinding(s, password));
    MulMul(s.group, x, y, s.group.base);
  }

  /** One end's key from a peer that used the scalar y. */
  lemma KeyFromPeer<P(!new)>(s: Suite<P>, password: bytes, id: bytes, x: nat, y: nat, outbound: bytes)
    requires IsGroup(s.group) && Encodes(s.group) && |outbound| > 0
    ensures var inbound := Outbound(s, password, y); var k := s.group.encode(Mul(s.group, x * y, s.group.base));
            |inbound| == 33 &&
            SharedKey(s, password, id, x, outbound, inbound)
            == Some(s.sha(Transcript(s, password, id, outbound[1..], inbound[1..], k)))
  {
    var g := s.group;
    var point := g.add(Mul(g, y, g.base), Blinding(s, password));
    var inbound := Outbound(s, password, y);
    assert RoundTrips(g, point);
    assert inbound[1..] == g.encode(point);
    SharedElement(s, password, x, y);
  }

  /** The key both ends should derive: from the two points in byte order and x·y·G. */
  function AgreedKey<P>(s: Suite<P>, password: bytes, id: bytes, x: nat, y: nat): bytes {
    var a, b := Outbound(s, password, x)[1..], Outbound(s, password, y)[1..];
    var k := s.group.encode(Mul(s.group, x * y, s.group.base));
    s.sha(s.sha(password) + s.sha(id) + (if Less(a, b) then a + b else b + a) + k)
  }

  /** Both ends derive the same key, whatever their scalars and the blinding point. */
  lemma KeysAgree<P(!new)>(s: Suite<P>, password: bytes, id: bytes, x: nat, y: nat)
    requires IsGroup(s.group) && Encodes(s.group)
    ensures var a, b := Outbound(s, password, x), Outbound(s, password, y);
            SharedKey(s, password, id, x, a, b)
            == SharedKey(s, password, id, y, b, a) == Some(AgreedKey(s, password, id, x, y))
  {
    var a, b := Outbound(s, password, x), Outbound(s, password, y);
    var xy := Product(x, y);
    KeyFromPeer(s, password, id, x, y, a);
    KeyFromPeer(s, password, id, y, x, b);
    TranscriptIsSymmetric(s, password, id, a[1..], b[1..], s.group.encode(Mul(s.group, xy, s.group.base)));
  }

  lemma Product(x: nat, y: nat) returns (xy: nat)
    ensures xy == x * y == y * x
  {
    xy := x * y;
  }

  /** With 32-byte digests the transcript is 160 bytes, the size of the buffer it is copied into. */
  lemma TranscriptFits<P(!new)>(s: Suite<P>, password: bytes, id: bytes, x: nat, y: nat)
    requires Encodes(s.group) && |s.sha(password)| == |s.sha(id)| == 32
    ensures var a, b := Outbound(s, password, x)[1..], Outbound(s, password, y)[1..];
            forall p :: |Transcript(s, password, id, a, b, s.group.encode(p))| == 160
  {
    var g := s.group;
    assert RoundTrips(g, g.add(Mul(g, x, g.base), Blinding(s, password)));
    assert RoundTrips(g, g.add(Mul(g, y, g.base), Blinding(s, password)));
    forall p ensures |g.encode(p)| == 32 { assert RoundTrips(g, p); }
  }

  // ---------- the object itself ----------

  datatype State = Init | Started | Finished

  class SPAKE2Symmetric<!P(!new)> {
    const suite: Suite<P>
    const password: bytes
    const idSymmetric: bytes
    var x: nat
    var outbound: bytes
    var state: State

    ghost predicate Valid()
      reads this
    {
      state != Init ==> outbound == Outbound(suite, password, x)
    }

    constructor (suite: Suite<P>, password: bytes, idSymmetric: bytes)
      ensures Valid() && state == Init
      ensures this.suite == suite && this.password == password && this.idSymmetric == idSymmetric
    {
      this.suite, this.password, this.idSymmetric := suite, password, idSymmetric;
      x, outbound, state := 0, [], Init;
    }

    /** None where the source throws: a second start. */
    method Start(random: bytes) returns (message: Option<bytes>)
      requires Valid()
      modifies this
      ensures Valid()
      ensures old(state) != Init ==> message == None && state == old(state) && x == old(x) && outbound == old(outbound)
      ensures old(state) == Init ==> state == Started && x == Scalar(random)
      ensures old(state) == Init ==> message == Some(Outbound(suite, password, x))
      ensures old(state) == Init ==> 0 < x < L && x == if ValueLE(random) % L == 0 then 1 else ValueLE(random) % L
      ensures old(state) == Init ==>
                var g := suite.group; var pw := ValueBE(suite.kdf(password)) % L;
                message == Some([0x53] + g.encode(g.add(Mul(g, x, g.base), Mul(g, pw, suite.m))))
    {
      if state != Init {
        return None;
      }
      x := BytesToNumberLE(random);
      x := x % L;
      if x == 0 {
        x := 1;
      }
      var scalar := PasswordToScalar(suite, password);
      var pw := BytesToNumberLE(scalar[..]);
      var xG, pwM := Mul(suite.group, x, suite.group.base), Mul(suite.group, pw, suite.m);
      outbound := [SIDE_SYMMETRIC] + suite.group.encode(suite.group.add(xG, pwM));
      state := Started;
      message := Some(outbound);
    }

    method Finish(inbound: bytes) returns (key: Option<bytes>)
      requires Valid()
      modifies this`state
      ensures Valid()
      ensures key == if old(state) == Started then SharedKey(suite, password, idSymmetric, x, outbound, inbound)
                     else None
      ensures state == if key.Some? then Finished else old(state)
    {
      if state != Started || inbound == [] || inbound[0] != SIDE_SYMMETRIC {
        return None;
      }
      var blinded := suite.group.decode(inbound[1..]);
      if blinded.None? {
        return None;
      }
      var scalar := PasswordToScalar(suite, password);
      var pw := BytesToNumberLE(scalar[..]);
      var y := suite.group.add(blinded.value, suite.group.neg(Mul(suite.group, pw, suite.m)));
      var k := suite.group.encode(Mul(suite.group, x, y));
      key := Some(suite.sha(Transcript(suite, password, idSymmetric, outbound[1..], inbound[1..], k)));
      state := Finished;
    }
  }

  /** Two objects with one password and identity that swap messages end with one key. */
  method Exchange<P(!new)>(a: SPAKE2Symmetric<P>, b: SPAKE2Symmetric<P>, randomA: bytes, randomB: bytes)
    returns (keyA: Option<bytes>, keyB: Option<bytes>)
    requires a != b && a.Valid() && b.Valid() && a.state == b.state == Init
    requires a.suite == b.suite && a.password == b.password && a.idSymmetric == b.idSymmetric
    requires IsGroup(a.suite.group) && Encodes(a.suite.group)
    modifies a, b
    ensures keyA == keyB == Some(AgreedKey(a.suite, a.password, a.idSymmetric, Scalar(randomA), Scalar(randomB)))
    ensures a.state == b.state == Finished
  {
    var messageA := a.Start(randomA);
    var messageB := b.Start(randomB);
    KeysAgree(a.suite, a.password, a.idSymmetric, a.x, b.x);
    keyA := a.Finish(messageB.value);
    keyB := b.Finish(messageA.value);
  }

  // ---------- the integers modulo L are such a group ----------

  type Residue = n: nat | n < L

  function AddMod(a: Residue, b: Residue): Residue { if a + b >= L then a + b - L else a + b }

  function NegMod(a: Residue): Residue { if a == 0 then 0 else L - a }

  function DecodeMod(b: bytes): Option<Residue> {
    if |b| == 32 && ValueLE(b) < L then Some(ValueLE(b)) else None
  }

  function ResidueGroup(): Group<Residue> {
    Group((a, b) => AddMod(a, b), a => NegMod(a), 0, 1, a => BytesLE(a, 32), b => DecodeMod(b))
  }

  lemma ResiduesFormAGroup()
    ensures IsGroup(ResidueGroup()) && Encodes(ResidueGroup())
  {
    var g := ResidueGroup();
    forall a: Residue ensures RoundTrips(g, a) {
      Pow256Of32();
      ValueOfBytesLE(a, 32);
    }
    forall b ensures g.decode(b).Some? ==> |b| == 32 {
    }
  }

  /** In this group multiplying by a scalar is multiplication modulo L. */
  lemma {:induction false} MulOfResidues(n: nat, a: Residue)
    ensures Mul(ResidueGroup(), n, a) == n * a % L
    decreases n
  {
    if n == 0 {
    } else {
      MulOfResidues(n - 1, a);
      OneMoreOf(n, a);
      AddReduced(a, (n - 1) * a);
    }
  }

  lemma OneMoreOf(n: nat, a: nat)
    requires n > 0
    ensures n * a == a + (n - 1) * a && (n - 1) * a >= 0
  {
  }

  lemma AddReduced(a: nat, m: nat)
    requires a < L
    ensures AddMod(a, m % L) == (a + m) % L
  {
  }
}
