/** UTF-8 from the encoder's side (RFC 3629, section 3): what `Bytes.Utf8` accepts is what encoding text yields. */
module CodePoints {
  import opened Bytes

  /** The numbers a character may have: up to 0x10FFFF, without the surrogates. */
  predicate Scalar(c: nat) { c < 0xD800 || 0xE000 <= c < 0x11_0000 }

  /** The bytes of a character: its bits in groups of six, the length in the first byte. */
  function EncodePoint(c: nat): bytes
    requires Scalar(c)
  {
    if c < 0x80 then [c]
    else if c < 0x800 then [0xC0 + c / 64, 0x80 + c % 64]
    else if c < 0x1_0000 then [0xE0 + c / 4096, 0x80 + c / 64 % 64, 0x80 + c % 64]
    else [0xF0 + c / 262144, 0x80 + c / 4096 % 64, 0x80 + c / 64 % 64, 0x80 + c % 64]
  }

  predicate IsText(cs: seq<nat>) { forall i :: 0 <= i < |cs| ==> Scalar(cs[i]) }

  function EncodeText(cs: seq<nat>): bytes
    requires IsText(cs)
  {
    if cs == [] then [] else EncodePoint(cs[0]) + EncodeText(cs[1..])
  }

  // ---------- encoded text is accepted ----------

  lemma ThreeBytes(c: nat)
    requires 0x800 <= c < 0x1_0000 && Scalar(c)
    ensures var a, b := 0xE0 + c / 4096, 0x80 + c / 64 % 64;
            a < 0xF0 && (a == 0xE0 ==> b >= 0xA0) && (a == 0xED ==> b < 0xA0)
  {
    var q := c / 64;
    assert c / 4096 == q / 64;
  }

  lemma FourByteCharacter(c: nat)
    requires 0x1_0000 <= c < 0x11_0000
    ensures var a, b := 0xF0 + c / 262144, 0x80 + c / 4096 % 64;
            a < 0xF5 && (a == 0xF0 ==> b >= 0x90) && (a == 0xF4 ==> b < 0x90)
  {
    var q := c / 4096;
    assert c / 262144 == q / 64;
  }

  lemma EncodedIsRead(c: nat, tail: bytes)
    requires Scalar(c)
    ensures Utf8CharLength(EncodePoint(c) + tail) == |EncodePoint(c)|
  {
    if 0x800 <= c < 0x1_0000 {
      ThreeBytes(c);
    } else if c >= 0x1_0000 {
      FourByteCharacter(c);
    }
  }

  lemma {:induction false} TextIsUtf8(cs: seq<nat>)
    requires IsText(cs)
    ensures Utf8(EncodeText(cs))
  {
    if cs == [] {
    } else {
      var e, rest := EncodePoint(cs[0]), EncodeText(cs[1..]);
      EncodedIsRead(cs[0], rest);
      assert (e + rest)[|e|..] == rest;
      TextIsUtf8(cs[1..]);
    }
  }

  // ---------- what is accepted is encoded text ----------

  /** The character whose bytes are in front. */
  function Point(s: bytes): nat
    requires s != [] && Utf8CharLength(s) > 0
  {
    match Utf8CharLength(s)
    case 1 => s[0]
    case 2 => (s[0] as int - 0xC0) * 64 + (s[1] as int - 0x80)
    case 3 => (s[0] as int - 0xE0) * 4096 + (s[1] as int - 0x80) * 64 + (s[2] as int - 0x80)
    case _ =>
      (s[0] as int - 0xF0) * 262144 + (s[1] as int - 0x80) * 4096 + (s[2] as int - 0x80) * 64 + (s[3] as int - 0x80)
  }

  lemma TwoDigits(a: nat, b: nat)
    requires b < 64
    ensures (a * 64 + b) / 64 == a && (a * 64 + b) % 64 == b
  {
  }

  lemma ThreeDigits(a: nat, b: nat, c: nat)
    requires b < 64 && c < 64
    ensures var n := a * 4096 + b * 64 + c; n / 4096 == a && n / 64 % 64 == b && n % 64 == c
  {
    TwoDigits(a * 64 + b, c);
    TwoDigits(a, b);
    assert (a * 4096 + b * 64 + c) / 4096 == (a * 4096 + b * 64 + c) / 64 / 64;
  }

  lemma FourDigits(a: nat, b: nat, c: nat, d: nat)
    requires b < 64 && c < 64 && d < 64
    ensures var n := a * 262144 + b * 4096 + c * 64 + d;
            n / 262144 == a && n / 4096 % 64 == b && n / 64 % 64 == c && n % 64 == d
  {
    ThreeDigits(a * 64 + b, c, d);
    TwoDigits(a, b);
    var n := a * 262144 + b * 4096 + c * 64 + d;
    assert n / 262144 == n / 4096 / 64;
  }

  lemma ReadIsEncoded(s: bytes)
    requires s != [] && Utf8CharLength(s) > 0
    ensures Scalar(Point(s)) && EncodePoint(Point(s)) == s[..Utf8CharLength(s)]
  {
    match Utf8CharLength(s)
    case 1 =>
    case 2 => TwoDigits(s[0] - 0xC0, s[1] - 0x80);
    case 3 => ThreeDigits(s[0] - 0xE0, s[1] - 0x80, s[2] - 0x80);
    case _ => FourDigits(s[0] - 0xF0, s[1] - 0x80, s[2] - 0x80, s[3] - 0x80);
  }

  lemma OneMorePoint(c: nat, cs: seq<nat>)
    requires Scalar(c) && IsText(cs)
    ensures IsText([c] + cs) && EncodeText([c] + cs) == EncodePoint(c) + EncodeText(cs)
  {
    assert ([c] + cs)[1..] == cs;
  }

  lemma {:induction false} Utf8IsText(s: bytes) returns (cs: seq<nat>)
    requires Utf8(s)
    ensures IsText(cs) && EncodeText(cs) == s
    decreases |s|
  {
    if s == [] {
      cs := [];
    } else {
      var n := Utf8CharLength(s);
      ReadIsEncoded(s);
      var rest := Utf8IsText(s[n..]);
      cs := [Point(s)] + rest;
      OneMorePoint(Point(s), rest);
      assert s[..n] + s[n..] == s;
    }
  }

  // ---------- the theorem ----------

  predicate Spells(cs: seq<nat>, s: bytes) { IsText(cs) && EncodeText(cs) == s }

  /** A byte string is accepted as UTF-8 if and only if it is the encoding of some text. */
  lemma Utf8ExactlyWhenText(s: bytes)
    ensures Utf8(s) <==> exists cs :: Spells(cs, s)
  {
    if Utf8(s) {
      var cs := Utf8IsText(s);
      assert Spells(cs, s);
    }
    forall cs | Spells(cs, s) ensures Utf8(s) { TextIsUtf8(cs); }
  }
}
