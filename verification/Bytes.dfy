/** Octets and their exclusive or, as a stream cipher applies it. */
module Bytes {
  type Byte = x: int | 0 <= x < 256

  /** Exclusive or, bit by bit. */
  function Xor(a: nat, b: nat): nat {
    if a == 0 && b == 0 then 0 else (a + b) % 2 + 2 * Xor(a / 2, b / 2)
  }

  lemma XorHalves(a: nat, b: nat)
    ensures Xor(a, b) % 2 == (a + b) % 2 && Xor(a, b) / 2 == Xor(a / 2, b / 2)
  {
    if a == 0 && b == 0 {
    } else {
      Halves((a + b) % 2, Xor(a / 2, b / 2));
    }
  }

  lemma Halves(bit: nat, half: nat)
    requires bit < 2
    ensures (bit + 2 * half) % 2 == bit && (bit + 2 * half) / 2 == half
  {
  }

  lemma Parity(x: nat, a: nat, b: nat)
    requires x % 2 == (a + b) % 2
    ensures (x + b) % 2 == a % 2
  {
  }

  lemma {:induction false} XorTwice(a: nat, b: nat)
    ensures Xor(Xor(a, b), b) == a
  {
    if a == 0 && b == 0 {
    } else {
      XorTwice(a / 2, b / 2);
      XorHalves(a, b);
      XorHalves(Xor(a, b), b);
      Parity(Xor(a, b), a, b);
    }
  }

  function Power(bits: nat): (p: nat)
    ensures p > 0
  {
    if bits == 0 then 1 else 2 * Power(bits - 1)
  }

  lemma {:induction false} XorFits(a: nat, b: nat, bits: nat)
    requires a < Power(bits) && b < Power(bits)
    ensures Xor(a, b) < Power(bits)
    decreases bits
  {
    if a == 0 && b == 0 {
    } else {
      XorFits(a / 2, b / 2, bits - 1);
    }
  }

  /** Only a zero octet leaves an octet as it is. */
  lemma {:induction false} XorChanges(a: nat, b: nat)
    ensures Xor(a, b) == a <==> b == 0
  {
    if a == 0 && b == 0 {
    } else {
      XorChanges(a / 2, b / 2);
      XorHalves(a, b);
    }
  }

  /** Bit i of a number, the least one first. */
  function Bit(n: nat, i: nat): bool {
    if i == 0 then n % 2 == 1 else Bit(n / 2, i - 1)
  }

  /** It is the exclusive or: a bit is set exactly when it is set in one of the two. */
  lemma {:induction false} XorBits(a: nat, b: nat, i: nat)
    ensures Bit(Xor(a, b), i) <==> Bit(a, i) != Bit(b, i)
    decreases i
  {
    XorHalves(a, b);
    if i == 0 {
    } else {
      XorBits(a / 2, b / 2, i - 1);
    }
  }

  function XorByte(a: Byte, b: Byte): (r: Byte)
    ensures Xor(r, b) == a
    ensures r == a <==> b == 0
  {
    assert Power(4) == 16 && Power(8) == 256;
    XorFits(a, b, 8);
    XorTwice(a, b);
    XorChanges(a, b);
    Xor(a, b)
  }

  /** Octets are copied into a buffer from an index on. */
  method Copy(buffer: array<Byte>, at: nat, bytes: seq<Byte>)
    requires at + |bytes| <= buffer.Length
    modifies buffer
    ensures buffer[..] == old(buffer[..at]) + bytes + old(buffer[at + |bytes|..])
  {
    var i := 0;
    while i < |bytes|
      invariant 0 <= i <= |bytes|
      invariant buffer[at..at + i] == bytes[..i]
      invariant forall j :: 0 <= j < buffer.Length && !(at <= j < at + i) ==> buffer[j] == old(buffer[j])
    {
      buffer[at + i] := bytes[i];
      i := i + 1;
    }
    assert buffer[..] == buffer[..at] + buffer[at..at + |bytes|] + buffer[at + |bytes|..];
  }
}
