/**
  The octets of a protected NAS message one by one: which key, count and direction each depends on, and what
  the decoder makes of each octet that arrives.
 */
module NasOctets {
  import opened Wrappers
  import opened Bytes
  import opened NasEnvelope

  /**
    Octets 2 to 5 are the code under the integrity key of the octets that follow, with the sequence number for
    the count; zero where the code does not implement the algorithm.
   */
  ghost predicate HasCode(c: Crypto, ctx: Context, direction: Direction, message: seq<Byte>)
    requires |message| >= 7
  {
    message[2..6] == if ctx.integrity in {1, 2}
    then c.mac(ctx.integrity, ctx.intKey, message[6], direction, message[6..])
    else [0, 0, 0, 0]
  }

  /** An octet at this position under the key stream of the ciphering key, at a 24-bit count. */
  function Masked(c: Crypto, ctx: Context, overflow: nat, seqNum: Byte, direction: Direction, i: nat, octet: Byte)
    : Byte
  {
    if ctx.encryption == 0 then octet
    else XorByte(octet, c.stream(ctx.encryption, ctx.encKey, 0x100 * overflow + seqNum, direction, i))
  }

  /** On the downlink: header, code and downlink sequence number, then the message, ciphered or as it is. */
  ghost predicate IsSent(c: Crypto, ctx: Context, header: Byte, plain: seq<Byte>, ciphered: bool, message: seq<Byte>) {
    && |message| == 7 + |plain|
    && message[0] == 0x7e && message[1] == header && message[6] == ctx.dl.seqNum
    && HasCode(c, ctx, Downlink, message)
    && forall i :: 0 <= i < |plain| ==>
                     message[7 + i] == if ciphered
                     then Masked(c, ctx, ctx.dl.overflow, ctx.dl.seqNum, Downlink, i, plain[i])
                     else plain[i]
  }

  /** What the encoder makes of a message. Without an integrity algorithm it goes out as it is. */
  ghost predicate IsEncoding(c: Crypto, ctx: Context, isNew: bool, headerType: Byte, plain: seq<Byte>,
                             encoded: Option<seq<Byte>>)
  {
    match headerType % 16
    case 2 => encoded.Some? && if ctx.integrity == 0 then encoded.value == plain
              else IsSent(c, ctx, 2, plain, true, encoded.value)
    case 3 =>
      if !isNew then encoded == None
      else encoded.Some? && if ctx.integrity == 0 then encoded.value == plain
           else IsSent(c, ctx, 3, plain, false, encoded.value)
    case _ => encoded == Some([])
  }

  lemma ProtectedOctets(c: Crypto, ctx: Context, header: Byte, body: seq<Byte>, plain: seq<Byte>)
    requires ctx.integrity != 0
    ensures var message := Protected(c, ctx, Downlink, header, body, plain);
            && |message| == 7 + |body| && message[0] == 0x7e && message[1] == header
            && message[6] == ctx.dl.seqNum && message[7..] == body && HasCode(c, ctx, Downlink, message)
  {
    EnvelopeParts(header, CodeOf(c, ctx, Downlink, [ctx.dl.seqNum] + body).value, ctx.dl.seqNum, body);
  }

  lemma EncodedCiphered(c: Crypto, ctx: Context, plain: seq<Byte>, slack: Slack)
    requires ctx.integrity != 0
    ensures IsSent(c, ctx, 2, plain, true, ProtectCiphered(c, ctx, Downlink, 2, plain, slack))
  {
    CipheredSizePads(|plain|);
    var body := Ciphered(c, ctx, Downlink, plain, slack)[..|plain|];
    ProtectedOctets(c, ctx, 2, body, plain);
    var message := ProtectCiphered(c, ctx, Downlink, 2, plain, slack);
    forall i | 0 <= i < |plain|
      ensures message[7 + i] == Masked(c, ctx, ctx.dl.overflow, ctx.dl.seqNum, Downlink, i, plain[i])
    {
      assert message[7 + i] == body[i];
    }
  }

  lemma EncodedUnciphered(c: Crypto, ctx: Context, plain: seq<Byte>)
    requires ctx.integrity != 0
    ensures IsSent(c, ctx, 3, plain, false, Protected(c, ctx, Downlink, 3, plain, plain))
  {
    ProtectedOctets(c, ctx, 3, plain, plain);
    var message := Protected(c, ctx, Downlink, 3, plain, plain);
    forall i | 0 <= i < |plain| ensures message[7 + i] == plain[i] {
      assert message[7 + i] == message[7..][i];
    }
  }

  /** The encoder makes these octets, and the downlink sequence number goes up by one unless it refuses. */
  lemma EncodedOctets(c: Crypto, ctx: Context, isNew: bool, headerType: Byte, plain: seq<Byte>, slack: Slack)
    ensures var encoded := Encoded(c, ctx, isNew, headerType, plain, slack);
            && IsEncoding(c, ctx, isNew, headerType, plain, encoded)
            && AfterEncoding(ctx, isNew, headerType) ==
               if encoded.None? then ctx
               else Context(ctx.ul, Count(ctx.dl.overflow, if ctx.dl.seqNum == 255 then 0 else ctx.dl.seqNum + 1),
                            ctx.integrity, ctx.encryption, ctx.intKey, ctx.encKey)
  {
    if ctx.integrity != 0 {
      EncodedCiphered(c, ctx, plain, slack);
      EncodedUnciphered(c, ctx, plain);
    }
  }

  // ---- Uplink ----

  /** Octets that arrive in an envelope, deciphered: 128-EA1 goes on to the end of the word. */
  ghost predicate IsOpening(c: Crypto, ctx: Context, direction: Direction, message: seq<Byte>, got: Opened)
    requires |message| >= 7
  {
    var overflow := if direction == Downlink then ctx.dl.overflow else ctx.ul.overflow;
    && (got.Delivered? <==> ctx.integrity == 0 || HasCode(c, ctx, direction, message))
    && (got.Delivered? ==>
          && |message| - 7 <= |got.plain| < |message| - 3
          && (if ctx.encryption == 1 then |got.plain| % 4 == 0 else |got.plain| == |message| - 7)
          && forall i :: 0 <= i < |message| - 7 ==>
                           got.plain[i] == Masked(c, ctx, overflow, message[6], direction, i, message[7 + i]))
  }

  lemma DeliveredOctets(c: Crypto, ctx: Context, direction: Direction, message: seq<Byte>, slack: Slack, i: nat)
    requires |message| >= 7 && i < |message| - 7
    ensures var overflow := if direction == Downlink then ctx.dl.overflow else ctx.ul.overflow;
            var plain := Ciphered(c, Seen(ctx, direction, message[6]), direction, message[7..], slack);
            |plain| > i && plain[i] == Masked(c, ctx, overflow, message[6], direction, i, message[7 + i])
  {
    CipheredSizePads(|message| - 7);
    SeenCount(ctx, direction, message[6]);
    var covered := Covered(ctx.encryption, message[7..], slack);
    assert covered[..|message| - 7][i] == message[7..][i];
  }

  lemma DeliveredSize(c: Crypto, ctx: Context, direction: Direction, text: seq<Byte>, slack: Slack)
    ensures var plain := Ciphered(c, ctx, direction, text, slack);
            && |text| <= |plain| < |text| + 4
            && (if ctx.encryption == 1 then |plain| % 4 == 0 else |plain| == |text|)
  {
    CipheredSizePads(|text|);
  }

  /** An enveloped message is delivered exactly when its code is right, as its octets under the key stream. */
  lemma OpenedOctets(c: Crypto, ctx: Context, direction: Direction, message: seq<Byte>, slack: Slack)
    requires |message| >= 7 && message[0] == 0x7e && message[1] % 16 in {2, 3, 4}
    ensures IsOpening(c, ctx, direction, message, Open(c, Some(ctx), direction, message, slack))
    ensures Open(c, None, direction, message, slack) == Discarded
  {
    DeliveredSize(c, Seen(ctx, direction, message[6]), direction, message[7..], slack);
    var got := Open(c, Some(ctx), direction, message, slack);
    var plain := Ciphered(c, Seen(ctx, direction, message[6]), direction, message[7..], slack);
    assert got.Delivered? ==> got.plain == plain;
    forall i | 0 <= i < |message| - 7
      ensures var plain := Ciphered(c, Seen(ctx, direction, message[6]), direction, message[7..], slack);
              |plain| > i
              && plain[i] == Masked(c, ctx, if direction == Downlink then ctx.dl.overflow else ctx.ul.overflow,
                                    message[6], direction, i, message[7 + i])
    {
      DeliveredOctets(c, ctx, direction, message, slack, i);
    }
  }

  /** What needs no code: a message of another protocol goes, type 1 loses its header, other types stay whole. */
  lemma OpenedOtherwise(c: Crypto, context: Option<Context>, direction: Direction, message: seq<Byte>, slack: Slack)
    requires |message| < 2 || message[0] != 0x7e || message[1] % 16 !in {1, 2, 3, 4} || |message| >= 7
    requires !(|message| >= 2 && message[0] == 0x7e && message[1] % 16 in {2, 3, 4})
    ensures Open(c, context, direction, message, slack) ==
            if |message| < 2 || message[0] != 0x7e then Discarded
            else if message[1] % 16 == 1 then Delivered(message[7..])
            else Delivered(message)
  {
  }

  /** The sequence number that arrives becomes the receiver's, and nothing else changes. */
  lemma SeenOctets(ctx: Context, seqNum: Byte)
    ensures Seen(ctx, Uplink, seqNum) ==
            Context(Count(ctx.ul.overflow, seqNum), ctx.dl, ctx.integrity, ctx.encryption, ctx.intKey, ctx.encKey)
  {
  }
}
