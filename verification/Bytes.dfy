/** Bytes, fixed-width integers and text encodings shared by every wire format. */
module Bytes {

  type byte = b: int | 0 <= b < 256
  type bytes = seq<byte>

  datatype Option<+T> = None | Some(value: T)

  // ---------- integers as bytes ----------

  function Pow256(w: nat): (r: nat)
    ensures r >= 1
  {
    if w == 0 then 1 else 256 * Pow256(w - 1)
  }

  /** The number a big-endian byte string denotes. */
  function ValueBE(s: bytes): nat {
    if s == [] then 0 else ValueBE(s[..|s| - 1]) * 256 + s[|s| - 1]
  }

  /** The low `w` bytes of `n`, most significant first. */
  function BytesBE(n: nat, w: nat): (s: bytes)
    ensures |s| == w
  {
    if w == 0 then [] else BytesBE(n / 256, w - 1) + [n % 256]
  }

  /** The number a little-endian byte string denotes. */
  function ValueLE(s: bytes): nat {
    if s == [] then 0 else s[0] + 256 * ValueLE(s[1..])
  }

  /** The low `w` bytes of `n`, least significant first. */
  function BytesLE(n: nat, w: nat): (s: bytes)
    ensures |s| == w
  {
    if w == 0 then [] else [n % 256] + BytesLE(n / 256, w - 1)
  }

  function Reverse<T>(s: seq<T>): (r: seq<T>)
    ensures |r| == |s|
  {
    if s == [] then [] else Reverse(s[1..]) + [s[0]]
  }

  lemma {:induction false} ValueBEBound(s: bytes)
    ensures ValueBE(s) < Pow256(|s|)
  {
    if s == [] {
    } else {
      ValueBEBound(s[..|s| - 1]);
    }
  }

  lemma {:induction false} ValueLEBound(s: bytes)
    ensures ValueLE(s) < Pow256(|s|)
  {
    if s == [] {
    } else {
      ValueLEBound(s[1..]);
    }
  }

  lemma ValueOfSnoc(front: bytes, b: byte)
    ensures ValueBE(front + [b]) == ValueBE(front) * 256 + b
  {
    assert (front + [b])[..|front|] == front;
  }

  lemma LastDigit(n: nat, b: byte)
    ensures (n * 256 + b) / 256 == n && (n * 256 + b) % 256 == b
  {
  }

  lemma QuotientBelow(n: nat, m: nat) returns (q: nat, r: byte)
    requires n < 256 * m
    ensures q == n / 256 && r == n % 256 && q < m && q * 256 + r == n
  {
    q, r := n / 256, n % 256;
  }

  lemma {:induction false} ValueOfBytesBE(n: nat, w: nat)
    requires n < Pow256(w)
    ensures ValueBE(BytesBE(n, w)) == n
  {
    if w == 0 {
    } else {
      var q, r := QuotientBelow(n, Pow256(w - 1));
      ValueOfBytesBE(q, w - 1);
      ValueOfSnoc(BytesBE(q, w - 1), r);
    }
  }

  lemma {:induction false} BytesOfValueBE(s: bytes)
    ensures BytesBE(ValueBE(s), |s|) == s
  {
    if s == [] {
    } else {
      BytesOfValueBE(s[..|s| - 1]);
      LastDigit(ValueBE(s[..|s| - 1]), s[|s| - 1]);
      assert s == s[..|s| - 1] + [s[|s| - 1]];
    }
  }

  lemma {:induction false} ValueOfBytesLE(n: nat, w: nat)
    requires n < Pow256(w)
    ensures ValueLE(BytesLE(n, w)) == n
  {
    if w == 0 {
    } else {
      var q, _ := QuotientBelow(n, Pow256(w - 1));
      ValueOfBytesLE(q, w - 1);
      assert BytesLE(n, w)[1..] == BytesLE(q, w - 1);
    }
  }

  lemma {:induction false} BytesOfValueLE(s: bytes)
    ensures BytesLE(ValueLE(s), |s|) == s
  {
    if s == [] {
    } else {
      BytesOfValueLE(s[1..]);
      LastDigit(ValueLE(s[1..]), s[0]);
      assert s == [s[0]] + s[1..];
    }
  }

  /** Reading a string from either end gives the value of the other reading of its reverse. */
  lemma {:induction false} BigEndianIsReversedLittleEndian(s: bytes)
    ensures ValueBE(Reverse(s)) == ValueLE(s)
  {
    if s == [] {
    } else {
      BigEndianIsReversedLittleEndian(s[1..]);
      assert Reverse(s)[..|s| - 1] == Reverse(s[1..]);
    }
  }

  lemma Pow256Values()
    ensures Pow256(1) == 0x100
    ensures Pow256(2) == 0x1_0000
    ensures Pow256(4) == 0x1_0000_0000
    ensures Pow256(8) == 0x1_0000_0000_0000_0000
  {
    assert Pow256(0) == 1;
    assert Pow256(3) == 0x100_0000;
    assert Pow256(5) == 0x100_0000_0000;
    assert Pow256(6) == 0x1_0000_0000_0000;
    assert Pow256(7) == 0x100_0000_0000_0000;
  }

  lemma TwoBytes(n: nat)
    requires n < 0x1_0000
    ensures BytesBE(n, 2) == [n / 256, n % 256] && ValueBE([n / 256, n % 256]) == n
  {
    Pow256Values();
    assert BytesBE(n / 256, 1) == BytesBE(n / 256 / 256, 0) + [n / 256 % 256];
    ValueOfBytesBE(n, 2);
  }

  /** Four bytes, most significant first. */
  function FourBytes(n: nat): (s: bytes)
    requires n < 0x1_0000_0000
    ensures |s| == 4
  {
    [n / 0x100_0000, n / 0x1_0000 % 256, n / 256 % 256, n % 256]
  }

  lemma FourBytesBE(n: nat)
    requires n < 0x1_0000_0000
    ensures BytesBE(n, 4) == FourBytes(n)
  {
    var a, b := n / 256, n / 0x1_0000;
    TwoBytes(b);
    assert a / 256 == b;
    assert BytesBE(a, 3) == BytesBE(b, 2) + [a % 256];
  }

  // ---------- sequences ----------

  function Min(a: nat, b: nat): nat { if a < b then a else b }

  predicate Distinct<T(==)>(s: seq<T>) {
    forall i, j :: 0 <= i < j < |s| ==> s[i] != s[j]
  }

  lemma Associative<T>(a: seq<T>, b: seq<T>, c: seq<T>)
    ensures a + (b + c) == (a + b) + c
  {
  }

  function Flatten<T>(parts: seq<seq<T>>): seq<T> {
    if parts == [] then [] else parts[0] + Flatten(parts[1..])
  }

  lemma {:induction false} FlattenAppend<T>(a: seq<seq<T>>, b: seq<seq<T>>)
    ensures Flatten(a + b) == Flatten(a) + Flatten(b)
  {
    if a == [] {
      assert a + b == b;
    } else {
      FlattenAppend(a[1..], b);
      assert (a + b)[0] == a[0] && (a + b)[1..] == a[1..] + b;
      Associative(a[0], Flatten(a[1..]), Flatten(b));
    }
  }

  /** What is switched on by certain events and never off is on exactly when one of them happened. */
  lemma {:induction false} SwitchedOn(on: seq<bool>, events: seq<bool>)
    requires |on| == |events| + 1 && !on[0]
    requires forall n :: 0 <= n < |events| ==> (on[n + 1] <==> on[n] || events[n])
    ensures on[|events|] <==> exists i :: 0 <= i < |events| && events[i]
    decreases |events|
  {
    if events == [] {
    } else {
      var last := |events| - 1;
      SwitchedOn(on[..last + 1], events[..last]);
      assert on[last + 1] <==> on[last] || events[last];
    }
  }

  // ---------- UTF-8 (RFC 3629, section 4) ----------

  predicate Continuation(b: byte) { 0x80 <= b < 0xC0 }

  /** Length of the well-formed UTF-8 character at the front of `s`, 0 when there is none. */
  function Utf8CharLength(s: bytes): (n: nat)
    requires s != []
    ensures n <= |s|
  {
    var a := s[0];
    if a < 0x80 then 1
    else if 0xC2 <= a < 0xE0 && |s| >= 2 && Continuation(s[1]) then 2
    else if 0xE0 <= a < 0xF0 && |s| >= 3 && Continuation(s[1]) && Continuation(s[2])
            && (a == 0xE0 ==> s[1] >= 0xA0) && (a == 0xED ==> s[1] < 0xA0) then 3
    else if 0xF0 <= a < 0xF5 && |s| >= 4 && Continuation(s[1]) && Continuation(s[2]) && Continuation(s[3])
            && (a == 0xF0 ==> s[1] >= 0x90) && (a == 0xF4 ==> s[1] < 0x90) then 4
    else 0
  }

  /** What Python's `bytes.decode()` and the fatal `TextDecoder` accept. */
  predicate Utf8(s: bytes) {
    s == [] || (Utf8CharLength(s) > 0 && Utf8(s[Utf8CharLength(s)..]))
  }

  lemma {:induction false} AsciiIsUtf8(s: bytes)
    requires forall i :: 0 <= i < |s| ==> s[i] < 0x80
    ensures Utf8(s)
  {
    if s == [] {
    } else {
      AsciiIsUtf8(s[1..]);
    }
  }

  // ---------- decimal text, as ASCII bytes ----------

  /** `str(n)` and `String(n)`. */
  function Decimal(n: nat): (s: bytes)
    ensures s != []
    ensures forall i :: 0 <= i < |s| ==> 48 <= s[i] < 58
  {
    if n < 10 then [48 + n] else Decimal(n / 10) + [48 + n % 10]
  }

  function DecimalValue(s: bytes): int {
    if s == [] then 0 else DecimalValue(s[..|s| - 1]) * 10 + (s[|s| - 1] as int - 48)
  }

  lemma {:induction false} DecimalValueOfDecimal(n: nat)
    ensures DecimalValue(Decimal(n)) == n
  {
    var s := Decimal(n);
    if n < 10 {
      assert s[..|s| - 1] == [];
    } else {
      DecimalValueOfDecimal(n / 10);
      assert s[..|s| - 1] == Decimal(n / 10);
    }
  }

  /** Different numbers have different names. */
  lemma DecimalInjective(m: nat, n: nat)
    requires Decimal(m) == Decimal(n)
    ensures m == n
  {
    DecimalValueOfDecimal(m);
    DecimalValueOfDecimal(n);
  }

  function Pow10(n: nat): (r: nat)
    ensures r >= 1
  {
    if n == 0 then 1 else 10 * Pow10(n - 1)
  }

  /** Decimal text is read with the most significant digit in front. */
  lemma {:induction false} FirstDigitWeighsMost(d: nat, s: bytes)
    requires d < 10
    ensures DecimalValue([48 + d] + s) == d * Pow10(|s|) + DecimalValue(s)
  {
    var t: bytes := [48 + d] + s;
    if s == [] {
      assert t == [48 + d] && t[..0] == [];
      assert DecimalValue(t[..0]) == 0;
    } else {
      var front := s[..|s| - 1];
      FirstDigitWeighsMost(d, front);
      assert t[..|t| - 1] == [48 + d] + front;
      TimesTen(d, Pow10(|front|), DecimalValue(front));
    }
  }

  lemma TimesTen(d: nat, p: nat, v: int)
    ensures (d * p + v) * 10 == d * (10 * p) + v * 10
  {
  }

  /** `str(n)` is the only digits that denote n and do not begin with a superfluous zero. */
  lemma {:induction false} DecimalIsCanonical(n: nat)
    ensures DecimalValue(Decimal(n)) == n && (Decimal(n)[0] == 48 <==> n == 0)
  {
    DecimalValueOfDecimal(n);
    if n >= 10 {
      DecimalIsCanonical(n / 10);
    }
  }
}
