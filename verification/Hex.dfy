/** Lower-case hex text, as ASCII bytes, and the order of strings. */
module Hex {
  import opened Bytes

  function Digit(n: nat): byte
    requires n < 16
  {
    if n < 10 then 48 + n else 87 + n
  }

  predicate IsDigit(c: byte) {
    48 <= c < 58 || 65 <= c < 71 || 97 <= c < 103
  }

  function DigitValue(c: byte): (n: nat)
    requires IsDigit(c)
    ensures n < 16
  {
    if c < 58 then c - 48 else if c < 71 then c - 55 else c - 87
  }

  /** The digits in order, "0123456789abcdef", and their upper-case forms "ABCDEF". */
  const DIGITS: bytes := [48, 49, 50, 51, 52, 53, 54, 55, 56, 57, 97, 98, 99, 100, 101, 102]

  lemma DigitsInOrder(n: nat)
    requires n < 16
    ensures Digit(n) == DIGITS[n] && IsDigit(DIGITS[n]) && DigitValue(DIGITS[n]) == n
    ensures n >= 10 ==> IsDigit(DIGITS[n] - 32) && DigitValue(DIGITS[n] - 32) == n
  {
  }

  /** Nothing else is a digit. */
  lemma OnlyDigits(c: byte)
    ensures IsDigit(c) <==> c in DIGITS || 65 <= c <= 70
  {
    if IsDigit(c) && !(65 <= c <= 70) {
      assert DIGITS[DigitValue(c)] == c;
    }
  }

  predicate IsHex(s: bytes) { forall i :: 0 <= i < |s| ==> IsDigit(s[i]) }

  /** `bytesToHex`. */
  function ToHex(b: bytes): (s: bytes)
    ensures |s| == 2 * |b| && IsHex(s)
  {
    if b == [] then [] else [Digit(b[0] / 16), Digit(b[0] % 16)] + ToHex(b[1..])
  }

  /** `hexToBytes` on hex digits; an odd last digit is lost. */
  function FromHex(s: bytes): (b: bytes)
    requires IsHex(s)
    ensures |b| == |s| / 2
  {
    if |s| < 2 then [] else [DigitValue(s[0]) * 16 + DigitValue(s[1])] + FromHex(s[2..])
  }

  lemma {:induction false} FromToHex(b: bytes)
    ensures FromHex(ToHex(b)) == b
  {
    if b == [] {
    } else {
      FromToHex(b[1..]);
      assert ToHex(b)[2..] == ToHex(b[1..]);
    }
  }

  lemma {:induction false} FromHexAt(s: bytes, k: nat)
    requires IsHex(s) && k < |s| / 2
    ensures FromHex(s)[k] == DigitValue(s[2 * k]) * 16 + DigitValue(s[2 * k + 1])
  {
    if k == 0 {
    } else {
      FromHexAt(s[2..], k - 1);
    }
  }

  /** The loop of `hexToBytes`, which fills an array two digits at a time. */
  method HexToBytes(hex: bytes) returns (a: array<byte>)
    requires IsHex(hex)
    ensures fresh(a) && a[..] == FromHex(hex)
  {
    a := new byte[|hex| / 2](_ => 0);
    for k := 0 to a.Length
      invariant forall j :: 0 <= j < k ==> a[j] == FromHex(hex)[j]
    {
      FromHexAt(hex, k);
      a[k] := DigitValue(hex[2 * k]) * 16 + DigitValue(hex[2 * k + 1]);
    }
  }

  /** String order: the first difference decides, a proper prefix comes first. */
  predicate Less(a: bytes, b: bytes) {
    b != [] && (a == [] || a[0] < b[0] || (a[0] == b[0] && Less(a[1..], b[1..])))
  }

  /** Comparing hex strings is comparing the bytes they stand for. */
  lemma {:induction false} HexOrderIsByteOrder(a: bytes, b: bytes)
    requires |a| == |b|
    ensures Less(ToHex(a), ToHex(b)) <==> Less(a, b)
  {
    if a == [] {
    } else {
      HexOrderIsByteOrder(a[1..], b[1..]);
      var x, y := ToHex(a), ToHex(b);
      assert x[1..][1..] == ToHex(a[1..]) && y[1..][1..] == ToHex(b[1..]);
      assert Less(x, y)
        <==> x[0] < y[0] || (x[0] == y[0] && (x[1] < y[1] || (x[1] == y[1] && Less(x[1..][1..], y[1..][1..]))));
      DigitOrder(a[0] / 16, b[0] / 16);
      DigitOrder(a[0] % 16, b[0] % 16);
    }
  }

  lemma DigitOrder(m: nat, n: nat)
    requires m < 16 && n < 16
    ensures Digit(m) < Digit(n) <==> m < n
    ensures Digit(m) == Digit(n) <==> m == n
  {
  }

  lemma {:induction false} LessIsTotal(a: bytes, b: bytes)
    ensures a == b || Less(a, b) || Less(b, a)
    ensures !(Less(a, b) && Less(b, a))
  {
    if a != [] && b != [] {
      LessIsTotal(a[1..], b[1..]);
      assert a == [a[0]] + a[1..] && b == [b[0]] + b[1..];
    }
  }

  /** The first difference decides ... */
  lemma {:induction false} FirstDifferenceDecides(front: bytes, x: byte, y: byte, a: bytes, b: bytes)
    requires x != y
    ensures Less(front + ([x] + a), front + ([y] + b)) <==> x < y
  {
    var s, t := front + ([x] + a), front + ([y] + b);
    if front == [] {
      assert s == [x] + a && t == [y] + b;
    } else {
      FirstDifferenceDecides(front[1..], x, y, a, b);
      assert s[1..] == front[1..] + ([x] + a) && t[1..] == front[1..] + ([y] + b);
    }
  }

  /** ... and without one the shorter string comes first. */
  lemma {:induction false} PrefixComesFirst(front: bytes, more: bytes)
    ensures Less(front, front + more) <==> more != []
    ensures !Less(front + more, front)
  {
    var s := front + more;
    if front == [] {
      assert s == more;
    } else {
      PrefixComesFirst(front[1..], more);
      assert s[1..] == front[1..] + more;
    }
  }
}
