/** The incrementing 24-byte nonce. */
module Nonce {
  import opened Bytes

  const LENGTH := 24

  /** The counter after one increment: one more, modulo 256^length. */
  function Successor(s: bytes): (r: bytes)
    ensures |r| == |s|
  {
    if s == [] then [] else if s[0] == 255 then [0] + Successor(s[1..]) else [s[0] + 1] + s[1..]
  }

  lemma {:induction false} SuccessorAddsOne(s: bytes)
    ensures ValueLE(Successor(s)) == if ValueLE(s) + 1 == Pow256(|s|) then 0 else ValueLE(s) + 1
  {
    if s == [] {
    } else {
      var rest := s[1..];
      SuccessorAddsOne(rest);
      ValueLEBound(rest);
      ValueOfCons(if s[0] == 255 then 0 else s[0] + 1, if s[0] == 255 then Successor(rest) else rest);
    }
  }

  lemma ValueOfCons(b: byte, rest: bytes)
    ensures ValueLE([b] + rest) == b + 256 * ValueLE(rest)
  {
    assert ([b] + rest)[1..] == rest;
  }

  /** Carrying through a run of 255s. */
  lemma {:induction false} SuccessorCarries(s: bytes, i: nat)
    requires i <= |s| && forall j :: 0 <= j < i ==> s[j] == 255
    ensures Successor(s) == seq(i, _ => 0) + Successor(s[i..])
    decreases i
  {
    if i == 0 {
      assert s[0..] == s;
    } else {
      SuccessorCarries(s[1..], i - 1);
      assert s[1..][i - 1..] == s[i..];
    }
  }

  /** The i-th array holds the counter after i calls. */
  ghost predicate InCountingOrder(nonces: seq<array<byte>>, s: bytes)
    reads nonces
  {
    forall i :: 0 <= i < |nonces| ==> nonces[i][..] == After(s, i)
  }

  ghost predicate PairwiseDifferent(nonces: seq<array<byte>>)
    reads nonces
  {
    forall i, j :: 0 <= i < j < |nonces| ==> nonces[i][..] != nonces[j][..]
  }

  lemma CountingOrderIsDistinct(nonces: seq<array<byte>>, s: bytes)
    requires InCountingOrder(nonces, s) && |nonces| <= Pow256(|s|)
    ensures PairwiseDifferent(nonces)
  {
    forall i, j | 0 <= i < j < |nonces| ensures nonces[i][..] != nonces[j][..] {
      NoncesAreDistinct(s, i, j);
    }
  }

  lemma AppendInOrder(nonces: seq<array<byte>>, nonce: array<byte>, s: bytes)
    requires InCountingOrder(nonces, s) && nonce[..] == After(s, |nonces|)
    ensures InCountingOrder(nonces + [nonce], s)
  {
  }

  class NonceCounter {
    var counter: array<byte>

    constructor ()
      ensures fresh(counter) && counter.Length == 24 && ValueLE(counter[..]) == 0
    {
      counter := new byte[LENGTH](_ => 0);
      new;
      assert counter[..] == seq(LENGTH, _ => 0);
      ValueOfZeros(LENGTH);
    }

    /** The carry loop, in place. */
    method Increment()
      modifies counter
      ensures counter[..] == Successor(old(counter[..]))
    {
      var i := 0;
      ghost var s := counter[..];
      while i < counter.Length
        invariant i <= counter.Length
        invariant forall j :: 0 <= j < i ==> s[j] == 255 && counter[j] == 0
        invariant forall j :: i <= j < counter.Length ==> counter[j] == s[j]
      {
        SuccessorCarries(s, i);
        counter[i] := (counter[i] as int + 1) % 256;
        if counter[i] != 0 {
          assert s[i..][1..] == s[i + 1..];
          assert counter[..] == seq(i, _ => 0) + ([s[i] + 1] + s[i + 1..]);
          return;
        }
        i := i + 1;
      }
      SuccessorCarries(s, i);
      assert counter[..] == seq(i, _ => 0);
    }

    method Copy() returns (nonce: array<byte>)
      ensures fresh(nonce) && nonce[..] == counter[..]
    {
      nonce := new byte[counter.Length];
      forall i | 0 <= i < counter.Length {
        nonce[i] := counter[i];
      }
    }

    /** A copy of the counter, which later increments leave alone. */
    method Next() returns (nonce: array<byte>)
      modifies counter
      ensures fresh(nonce) && nonce[..] == old(counter[..])
      ensures counter[..] == Successor(old(counter[..]))
    {
      nonce := Copy();
      Increment();
    }

    /** A run of calls: each array returned still holds its own nonce at the end. */
    method Take(n: nat) returns (nonces: seq<array<byte>>)
      modifies counter
      ensures |nonces| == n && counter[..] == After(old(counter[..]), n)
      ensures InCountingOrder(nonces, old(counter[..])) && forall a :: a in nonces ==> fresh(a)
      ensures n <= Pow256(counter.Length) ==> PairwiseDifferent(nonces)
    {
      nonces := [];
      ghost var s := counter[..];
      var k := 0;
      while k < n
        invariant k <= n && |nonces| == k
        invariant counter[..] == After(s, k)
        invariant counter !in nonces && forall a :: a in nonces ==> fresh(a)
        invariant InCountingOrder(nonces, s)
      {
        var nonce := Next();
        AppendInOrder(nonces, nonce, s);
        nonces := nonces + [nonce];
        k := k + 1;
      }
      if n <= Pow256(counter.Length) {
        CountingOrderIsDistinct(nonces, s);
      }
    }
  }

  lemma {:induction false} ValueOfZeros(n: nat)
    ensures ValueLE(seq(n, _ => 0)) == 0
  {
    if n == 0 {
    } else {
      ValueOfZeros(n - 1);
      assert seq(n, _ => 0)[1..] == seq(n - 1, _ => 0);
    }
  }

  /** The counter after n calls. */
  function After(s: bytes, n: nat): (r: bytes)
    ensures |r| == |s|
  {
    if n == 0 then s else Successor(After(s, n - 1))
  }

  /** Each of n calls counts one, modulo 256^length: the counter wraps `wraps` times and stays below it. */
  lemma {:induction false} AfterCounts(s: bytes, n: nat) returns (wraps: nat)
    ensures ValueLE(After(s, n)) + wraps * Pow256(|s|) == ValueLE(s) + n
    ensures ValueLE(After(s, n)) < Pow256(|s|)
  {
    wraps := 0;
    if n == 0 {
    } else {
      wraps := AfterCounts(s, n - 1);
      SuccessorAddsOne(After(s, n - 1));
      if ValueLE(After(s, n - 1)) + 1 == Pow256(|s|) {
        Distribute(wraps, Pow256(|s|));
        wraps := wraps + 1;
      }
    }
    ValueLEBound(After(s, n));
  }

  lemma Distribute(a: nat, m: nat)
    ensures (a + 1) * m == a * m + m
  {
  }

  lemma {:induction false} NoMultipleBetween(d: int, m: nat)
    requires m > 0
    ensures d * m <= 0 || d * m >= m
  {
    if d > 0 {
      assert d * m == (d - 1) * m + m && (d - 1) * m >= 0;
    }
  }

  lemma Difference(a: int, b: int, m: int)
    ensures (a - b) * m == a * m - b * m
  {
  }

  lemma ApartWithinOneTurn(v: int, m: nat, i: nat, j: nat, x: int, y: int, p: int, q: int)
    requires m > 0 && i < j < i + m && x + p * m == v + i && y + q * m == v + j
    ensures x != y
  {
    Difference(q, p, m);
    NoMultipleBetween(q - p, m);
  }

  /** Any 256^24 consecutive calls return pairwise different nonces. */
  lemma NoncesAreDistinct(s: bytes, i: nat, j: nat)
    requires i < j < i + Pow256(|s|)
    ensures After(s, i) != After(s, j)
  {
    var p := AfterCounts(s, i);
    var q := AfterCounts(s, j);
    ApartWithinOneTurn(ValueLE(s), Pow256(|s|), i, j, ValueLE(After(s, i)), ValueLE(After(s, j)), p, q);
  }
}
