/** The security context of a UE and the code that works on it in place: message buffers, counts and key streams. */
module NasSecurity {
  import opened Wrappers
  import opened Bytes
  import opened NasEnvelope
  import opened NasOctets

  class SecurityContext {
    var available: bool
    var ul: Count
    var dl: Count
    var integrity: nat
    var encryption: Ea
    var intKey: seq<Byte>
    var encKey: seq<Byte>

    function Rec(): Context
      reads this
    {
      Context(ul, dl, integrity, encryption, intKey, encKey)
    }

    /** A context that is not available yet; what its other fields hold means nothing until one is made new. */
    constructor (unused: Context)
      ensures !available && Rec() == unused
    {
      available := false;
      ul, dl, integrity, encryption := unused.ul, unused.dl, unused.integrity, unused.encryption;
      intKey, encKey := unused.intKey, unused.encKey;
    }

    /** The code of a message. On the uplink its first octet becomes the sequence number, whatever the algorithm. */
    method IntegrityProtect(c: Crypto, direction: Direction, message: seq<Byte>) returns (isProtected: bool, code: Mac)
      requires message != []
      modifies this
      ensures available == old(available)
      ensures Rec() == if direction == Uplink then Seen(old(Rec()), Uplink, message[0]) else old(Rec())
      ensures CodeOf(c, old(Rec()), direction, message) == if isProtected then Some(code) else None
      ensures isProtected <==> integrity != 0
      ensures code == if integrity in {1, 2} then c.mac(integrity, intKey, message[0], direction, message)
                      else [0, 0, 0, 0]
    {
      code := [0, 0, 0, 0];
      if direction == Uplink {
        ul := ul.(seqNum := message[0]);
      }
      isProtected := integrity != 0;
      if integrity == 1 || integrity == 2 {
        code := c.mac(integrity, intKey, message[0], direction, message);
      }
    }

    /** Ciphering and deciphering. The key stream is applied to a buffer in place. */
    method Cipher(c: Crypto, direction: Direction, message: seq<Byte>, slack: Slack) returns (r: seq<Byte>)
      ensures r == Ciphered(c, Rec(), direction, message, slack)
    {
      if encryption == 0 {
        return message;
      }
      var buffer := NewBuffer(Memory(encryption, message, slack));
      var count := if direction == Downlink then dl else ul;
      ApplyStream(c, count.overflow * 256 + count.seqNum, direction, buffer);
      r := buffer[..];
    }

    method ApplyStream(c: Crypto, count: nat, direction: Direction, buffer: array<Byte>)
      modifies buffer
      ensures buffer[..] == Streamed(c, Rec(), count, direction, old(buffer[..]), 0)
    {
      ghost var was := buffer[..];
      ghost var ctx := Rec();
      var i := 0;
      while i < buffer.Length
        invariant 0 <= i <= buffer.Length
        invariant forall j :: 0 <= j < i ==>
                                buffer[j] == XorByte(was[j], c.stream(ctx.encryption, ctx.encKey, count, direction, j))
        invariant forall j :: i <= j < buffer.Length ==> buffer[j] == was[j]
      {
        buffer[i] := XorByte(buffer[i], c.stream(encryption, encKey, count, direction, i));
        i := i + 1;
      }
      assert buffer[..] == Streamed(c, ctx, count, direction, was, 0);
    }

    /** The code goes between the header and the sequence number, or the plain message over everything. */
    method Seal(c: Crypto, header: Byte, plain: seq<Byte>, buffer: array<Byte>) returns (size: nat)
      requires HEADER_SIZE + |plain| <= buffer.Length
      requires buffer[0] == EPD_5GS_MM && buffer[1] == header && buffer[6] == dl.seqNum
      modifies this, buffer
      ensures available == old(available) && Rec() == old(Rec()) && size <= buffer.Length
      ensures buffer[..size] == Protected(c, Rec(), Downlink, header, old(buffer[7..7 + |plain|]), plain)
    {
      ghost var body := buffer[7..7 + |plain|];
      assert buffer[6..7 + |plain|] == [dl.seqNum] + body;
      var isProtected, code := IntegrityProtect(c, Downlink, buffer[6..7 + |plain|]);
      if isProtected {
        Copy(buffer, 2, code);
        size := 7 + |plain|;
        assert buffer[..size] == Envelope(header, code, dl.seqNum, body);
      } else {
        Copy(buffer, 0, plain);
        size := |plain|;
      }
    }

    /** Encoding of a downlink message, in a buffer of fixed size that every write has to stay inside. */
    method EncodeProtected(c: Crypto, isNew: bool, headerType: Byte, plain: seq<Byte>, slack: Slack)
      returns (encoded: Option<seq<Byte>>)
      requires Written(headerType, encryption, |plain|) <= BUFFER_SIZE
      modifies this
      ensures available == old(available)
      ensures encoded == Encoded(c, old(Rec()), isNew, headerType, plain, slack)
      ensures IsEncoding(c, old(Rec()), isNew, headerType, plain, encoded)
      ensures Rec() == AfterEncoding(old(Rec()), isNew, headerType)
      ensures dl == if encoded.None? then old(dl) else Count(old(dl.overflow), (old(dl.seqNum) + 1) % 256)
    {
      EncodedOctets(c, Rec(), isNew, headerType, plain, slack);
      var buffer := new Byte[BUFFER_SIZE];
      var size := 0;
      var header := headerType % 16;
      if header == INTEGRITY_PROTECTED_AND_CIPHERED {
        var ciphered := Cipher(c, Downlink, plain, slack);
        CipheredSizePads(|plain|);
        size := Fill(c, header, ciphered, plain, buffer);
      } else if header == INTEGRITY_PROTECTED_WITH_NEW_CONTEXT {
        if !isNew {
          return None;
        }
        size := Fill(c, header, plain, plain, buffer);
        assert plain[..|plain|] == plain;
      }
      encoded := Some(buffer[..size]);
      dl := dl.(seqNum := (dl.seqNum + 1) % 256);
    }

    method Fill(c: Crypto, header: Byte, body: seq<Byte>, plain: seq<Byte>, buffer: array<Byte>) returns (size: nat)
      requires |plain| <= |body| && HEADER_SIZE + |body| <= buffer.Length
      modifies this, buffer
      ensures available == old(available) && Rec() == old(Rec()) && size <= buffer.Length
      ensures buffer[..size] == Protected(c, Rec(), Downlink, header, body[..|plain|], plain)
    {
      Copy(buffer, 7, body);
      buffer[0] := EPD_5GS_MM;
      buffer[1] := header;
      buffer[6] := dl.seqNum;
      assert buffer[7..7 + |plain|] == body[..|plain|];
      size := Seal(c, header, plain, buffer);
    }

    /** Decoding of an uplink message on the context of the UE that sent it. */
    method OpenUplink(c: Crypto, message: seq<Byte>, slack: Slack) returns (got: Opened)
      requires |message| >= HEADER_SIZE
      modifies this
      ensures available == old(available)
      ensures got == OpenChecked(c, old(Rec()), Uplink, message, slack)
      ensures Rec() == Seen(old(Rec()), Uplink, message[6])
    {
      var isProtected, code := IntegrityProtect(c, Uplink, message[6..]);
      if isProtected && code != message[2..6] {
        return Discarded;
      }
      var plain := Cipher(c, Uplink, message[7..], slack);
      got := Delivered(plain);
    }
  }

  /** Uplink decoding up to the dispatch on the message type; `nsc` is absent for a UE without a security context. */
  method DecodeUplink(c: Crypto, nsc: SecurityContext?, message: seq<Byte>, slack: Slack) returns (got: Opened)
    requires HasSequenceNumber(message)
    modifies nsc
    ensures got == Open(c, if nsc == null then None else Some(old(nsc.Rec())), Uplink, message, slack)
    ensures nsc != null ==>
              nsc.Rec() == if |message| >= HEADER_SIZE && message[0] == EPD_5GS_MM && 2 <= message[1] % 16 <= 4
              then Seen(old(nsc.Rec()), Uplink, message[6]) else old(nsc.Rec())
    ensures nsc != null && |message| >= HEADER_SIZE && message[0] == EPD_5GS_MM && 2 <= message[1] % 16 <= 4 ==>
              IsOpening(c, old(nsc.Rec()), Uplink, message, got)
  {
    if |message| < 2 || message[0] != EPD_5GS_MM {
      return Discarded;
    }
    var header := message[1] % 16;
    if header == 0 || header > 4 {
      return Delivered(message);
    }
    if header == 1 {
      return Delivered(message[7..]);
    }
    if nsc == null {
      return Discarded;
    }
    OpenedOctets(c, nsc.Rec(), Uplink, message, slack);
    got := nsc.OpenUplink(c, message, slack);
  }

  /** The memory an algorithm works on, by the size the code computes from the length in bits. */
  function Memory(encryption: nat, message: seq<Byte>, slack: Slack): (r: seq<Byte>)
    ensures r == Covered(encryption, message, slack)
  {
    CipheredSizePads(|message|);
    var size := if encryption == 1 then (|message| * 8 + 31) / 32 * 4 else |message|;
    message + slack[..size - |message|]
  }

  method NewBuffer(bytes: seq<Byte>) returns (buffer: array<Byte>)
    ensures fresh(buffer) && buffer[..] == bytes
  {
    buffer := new Byte[|bytes|];
    Copy(buffer, 0, bytes);
  }
}
