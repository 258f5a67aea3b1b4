/** The input string from which RES* is derived (Annex A.4 of 3GPP TS 33.501), built by index in 100 octets. */
module KdfInput {
  import opened Bytes

  const FC: Byte := 0x6B
  const BUFFER_SIZE: nat := 100

  type Rand = r: seq<Byte> | |r| == 16 witness [0, 0, 0, 0, 0, 0, 0, 0, 0, 0, 0, 0, 0, 0, 0, 0]
  type Res = r: seq<Byte> | |r| == 8 witness [0, 0, 0, 0, 0, 0, 0, 0]

  function Length(n: nat): seq<Byte> {
    [n / 0x100 % 0x100, n % 0x100]
  }

  /** FC, then each parameter with its length after it. */
  function Input(name: seq<Byte>, rand: Rand, res: Res): (s: seq<Byte>)
    ensures |s| == 31 + |name|
  {
    [FC] + name + Length(|name|) + rand + [0x00, 0x10] + res + [0x00, 0x08]
  }

  /** The serving network names for which the string fits the buffer. */
  predicate Fits(name: seq<Byte>) {
    |name| <= 69
  }

  lemma FitsExactly(name: seq<Byte>, rand: Rand, res: Res)
    ensures |Input(name, rand, res)| <= BUFFER_SIZE <==> Fits(name)
  {
  }

  /** The parameters can be told apart in the string. */
  lemma InputIsInjective(name: seq<Byte>, rand: Rand, res: Res, name': seq<Byte>, rand': Rand, res': Res)
    ensures Input(name, rand, res) == Input(name', rand', res') <==> name == name' && rand == rand' && res == res'
  {
    Parts(name, rand, res);
    Parts(name', rand', res');
  }

  lemma Parts(name: seq<Byte>, rand: Rand, res: Res)
    ensures var s := Input(name, rand, res);
            s[1..1 + |name|] == name && s[3 + |name|..19 + |name|] == rand && s[21 + |name|..29 + |name|] == res
  {
  }

  /** The number two octets stand for. */
  function Number(high: nat, low: nat): nat {
    0x100 * high + low
  }

  /**
    The string octet by octet: FC 0x6B, then the three parameters in turn, each followed by its length in two octets,
    the greater one first.
   */
  ghost predicate IsKdfInput(s: seq<Byte>, name: seq<Byte>, rand: Rand, res: Res) {
    var n := |name|;
    && |s| == 31 + n && s[0] == 0x6B
    && s[1..1 + n] == name && (n < 0x1_0000 ==> Number(s[1 + n], s[2 + n]) == n)
    && s[3 + n..19 + n] == rand && Number(s[19 + n], s[20 + n]) == 16
    && s[21 + n..29 + n] == res && Number(s[29 + n], s[30 + n]) == 8
  }

  lemma InputOctets(name: seq<Byte>, rand: Rand, res: Res)
    ensures IsKdfInput(Input(name, rand, res), name, rand, res)
  {
    Parts(name, rand, res);
    var n := |name|;
    assert n < 0x1_0000 ==> n / 0x100 % 0x100 == n / 0x100;
  }

  /** Octets are put at an index; what lies before stays. */
  method Put(buffer: array<Byte>, at: nat, bytes: seq<Byte>)
    requires at + |bytes| <= buffer.Length
    modifies buffer
    ensures buffer[..at + |bytes|] == old(buffer[..at]) + bytes
  {
    Copy(buffer, at, bytes);
  }

  method Build(name: seq<Byte>, rand: Rand, res: Res) returns (s: seq<Byte>)
    requires Fits(name)
    ensures s == Input(name, rand, res) && IsKdfInput(s, name, rand, res)
  {
    InputOctets(name, rand, res);
    var buffer := new Byte[BUFFER_SIZE];
    var n := |name|;
    PutName(buffer, name);
    Put(buffer, 3 + n, rand);
    Put(buffer, 19 + n, [0x00, 0x10]);
    Put(buffer, 21 + n, res);
    Put(buffer, 29 + n, [0x00, 0x08]);
    s := buffer[..31 + n];
  }

  method PutName(buffer: array<Byte>, name: seq<Byte>)
    requires 3 + |name| <= buffer.Length
    modifies buffer
    ensures buffer[..3 + |name|] == [FC] + name + Length(|name|)
  {
    var n := |name|;
    Put(buffer, 0, [FC]);
    Put(buffer, 1, name);
    Put(buffer, 1 + n, [n / 0x100 % 0x100, n % 0x100]);
  }
}
