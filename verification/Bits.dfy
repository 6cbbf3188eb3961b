/**
 * The masks and shifts of base64.c on unsigned 8-bit values, tied to arithmetic. The indices are
 * computed by methods from the values, so that callers see the arithmetic and never the bit vectors.
 */
module Bits {
  lemma Successor(b: bv8)
    requires b < 0xFF
    ensures (b + 1) as nat == b as nat + 1
  {}

  /** The unsigned 8-bit number with the value n. */
  function Byte(n: nat): (b: bv8)
    requires n < 0x100
    ensures b as nat == n
  {
    if n == 0 then 0
    else
      var p := Byte(n - 1);
      Successor(p);
      p + 1
  }

  /** triple[0] >> 2 */
  method FirstIndex(a: nat) returns (i: nat)
    requires a < 0x100
    ensures i == a / 4
  {
    var x := Byte(a);
    FirstMask(x);
    i := (x >> 2) as nat;
  }

  method SecondIndex(a: nat, b: nat) returns (i: nat)
    requires a < 0x100 && b < 0x100
    ensures i == a % 4 * 16 + b / 16
  {
    var x, y := Byte(a), Byte(b);
    SecondMask(x, y);
    i := (((x & 0x03) << 4) | ((y & 0xF0) >> 4)) as nat;
  }

  method ThirdIndex(b: nat, c: nat) returns (i: nat)
    requires b < 0x100 && c < 0x100
    ensures i == b % 16 * 4 + c / 64
  {
    var x, y := Byte(b), Byte(c);
    ThirdMask(x, y);
    i := (((x & 0x0F) << 2) | ((y & 0xC0) >> 6)) as nat;
  }

  method FourthIndex(c: nat) returns (i: nat)
    requires c < 0x100
    ensures i == c % 64
  {
    var x := Byte(c);
    FourthMask(x);
    i := (x & 0x3F) as nat;
  }

  lemma FirstMask(a: bv8)
    ensures (a >> 2) as nat == a as nat / 4
  {}

  lemma SecondMask(a: bv8, b: bv8)
    ensures (((a & 0x03) << 4) | ((b & 0xF0) >> 4)) as nat == a as nat % 4 * 16 + b as nat / 16
  {
    var s := ((a & 0x03) << 4) | ((b & 0xF0) >> 4);
    assert s >> 4 == a & 3 && s & 0xF == b >> 4;
    assert s as nat == (s >> 4) as nat * 16 + (s & 0xF) as nat by { Nibbles(s); }
    assert (a & 3) as nat == a as nat % 4 by { LowTwoBits(a); }
    assert (b >> 4) as nat == b as nat / 16 by { HighNibble(b); }
  }

  lemma ThirdMask(b: bv8, c: bv8)
    ensures (((b & 0x0F) << 2) | ((c & 0xC0) >> 6)) as nat == b as nat % 16 * 4 + c as nat / 64
  {
    var s := ((b & 0x0F) << 2) | ((c & 0xC0) >> 6);
    assert s >> 2 == b & 0xF && s & 3 == c >> 6;
    assert s as nat == (s >> 2) as nat * 4 + (s & 3) as nat by { SixAndTwoBits(s); }
    assert (b & 0xF) as nat == b as nat % 16 by { LowNibble(b); }
    assert (c >> 6) as nat == c as nat / 64 by { HighTwoBits(c); }
  }

  lemma FourthMask(c: bv8)
    ensures (c & 0x3F) as nat == c as nat % 64
  {}

  lemma Nibbles(s: bv8)
    ensures s as nat == (s >> 4) as nat * 16 + (s & 0xF) as nat
  {}

  lemma SixAndTwoBits(s: bv8)
    ensures s as nat == (s >> 2) as nat * 4 + (s & 3) as nat
  {}

  lemma LowTwoBits(s: bv8)
    ensures (s & 3) as nat == s as nat % 4
  {}

  lemma LowNibble(s: bv8)
    ensures (s & 0xF) as nat == s as nat % 16
  {}

  lemma HighNibble(s: bv8)
    ensures (s >> 4) as nat == s as nat / 16
  {}

  lemma HighTwoBits(s: bv8)
    ensures (s >> 6) as nat == s as nat / 64
  {}
}
