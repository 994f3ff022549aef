/** Bytes: big-endian numbers, bit fields and the masking of section 5.3 of RFC 6455. A byte is a bit vector, so that
    shifts and masks are those of the source; lengths are numbers, and reading undoes writing for every number
    of bytes. */
module Bytes {

  type byte = bv8

  /** The unsigned integer stored in big-endian order. */
  function ReadBE(b: seq<byte>): nat {
    if b == [] then 0 else ReadBE(b[..|b| - 1]) * 0x100 + b[|b| - 1] as nat
  }

  /** The last n bytes of the big-endian representation of a number. */
  function WriteBE(value: nat, n: nat): seq<byte> {
    if n == 0 then [] else WriteBE(value / 0x100, n - 1) + [(value % 0x100) as byte]
  }

  /** Masking of section 5.3: byte i is combined with byte i modulo 4 of the key. */
  function Mask(payload: seq<byte>, key: seq<byte>): (r: seq<byte>)
    requires |key| == 4
    ensures |r| == |payload| && forall i | 0 <= i < |payload| :: r[i] == payload[i] ^ key[i % 4]
  {
    seq(|payload|, i requires 0 <= i < |payload| => payload[i] ^ key[i % 4])
  }

  lemma {:induction false} ReadWritten(value: nat, n: nat)
    requires value < Pow256(n)
    ensures |WriteBE(value, n)| == n && ReadBE(WriteBE(value, n)) == value
  {
    if n > 0 {
      ReadWritten(value / 0x100, n - 1);
      var b := WriteBE(value, n);
      assert b[..|b| - 1] == WriteBE(value / 0x100, n - 1);
      ByteRoundTrip(value % 0x100);
    }
  }

  function Pow256(n: nat): nat {
    if n == 0 then 1 else 0x100 * Pow256(n - 1)
  }

  lemma ByteRoundTrip(n: int)
    requires 0 <= n < 0x100
    ensures (n as byte) as int == n
  {
    var b := NthByte(n);
    ByteOfInt(b);
  }

  /** The byte with a given value, reached by counting. */
  lemma {:induction false} NthByte(n: nat) returns (b: byte)
    requires n < 0x100
    ensures b as int == n
  {
    b := 0;
    if n > 0 {
      var previous := NthByte(n - 1);
      Increment(previous);
      b := previous + 1;
    }
  }

  lemma Increment(b: byte)
    requires b != 0xff
    ensures (b + 1) as int == b as int + 1
  {}

  lemma ByteOfInt(b: byte)
    ensures (b as int) as byte == b
  {}

  lemma BitFields(fin: byte, rsv: byte, opcode: byte)
    requires fin in {0, 0x80} && rsv < 8 && opcode < 16
    ensures var b := fin | (rsv << 4) | opcode;
            b & 0x80 == fin && (b & 0x70) >> 4 == rsv && b & 0x0f == opcode
  {}

  lemma LengthFields(masked: byte, indicator: byte)
    requires masked in {0, 0x80} && indicator < 128
    ensures (masked | indicator) & 0x80 == masked && (masked | indicator) & 0x7f == indicator
  {}

  lemma {:induction false} WrittenLength(value: nat, n: nat)
    ensures |WriteBE(value, n)| == n
  {
    if n > 0 { WrittenLength(value / 0x100, n - 1); }
  }

  lemma MaskTwice(payload: seq<byte>, key: seq<byte>)
    requires |key| == 4
    ensures Mask(Mask(payload, key), key) == payload
  {
    forall i | 0 <= i < |payload| ensures Mask(Mask(payload, key), key)[i] == payload[i] {
      XorTwice(payload[i], key[i % 4]);
    }
  }

  lemma XorTwice(a: byte, b: byte)
    ensures (a ^ b) ^ b == a
  {}

  lemma LowNibble(b: byte)
    requires b < 16
    ensures b & 0x0f == b && 0x80 | ((0 as byte) << 4) | b == 0x80 | b
  {}
}
