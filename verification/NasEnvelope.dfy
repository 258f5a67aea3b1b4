/**
  The envelope of protected NAS messages (section 9.1.1 of 3GPP TS 24.501): what the encoder puts round a
  message, what the uplink decoder takes off, and when the two are inverse. Integrity and ciphering
  algorithms are parameters.
 */
module NasEnvelope {
  import opened Wrappers
  import opened Bytes

  const EPD_5GS_MM: Byte := 0x7e
  const INTEGRITY_PROTECTED_AND_CIPHERED: Byte := 2
  const INTEGRITY_PROTECTED_WITH_NEW_CONTEXT: Byte := 3
  const INTEGRITY_PROTECTED_AND_CIPHERED_WITH_NEW_CONTEXT: Byte := 4
  const BUFFER_SIZE: nat := 4096
  const HEADER_SIZE: nat := 7

  datatype Direction = Uplink | Downlink

  /** A message authentication code, in the order of its octets on the wire. */
  type Mac = m: seq<Byte> | |m| == 4 witness [0, 0, 0, 0]

  /** `mac` yields the code of a message, `stream` the octets of the key stream, by position. */
  datatype Crypto = Crypto(
    mac: (nat, seq<Byte>, nat, Direction, seq<Byte>) -> Mac,
    stream: (nat, seq<Byte>, nat, Direction, nat) -> Byte)

  /** The message count: a 16-bit overflow that nothing advances, and the sequence number. */
  datatype Count = Count(overflow: nat, seqNum: Byte)

  /** The ciphering algorithms the code implements. */
  type Ea = x: nat | x <= 2

  /** What lies in memory behind a message: at least the rest of a word. */
  type Slack = s: seq<Byte> | |s| >= 3 witness [0, 0, 0]

  datatype Context = Context(ul: Count, dl: Count, integrity: nat, encryption: Ea,
                             intKey: seq<Byte>, encKey: seq<Byte>)

  function CountOf(ctx: Context, direction: Direction): Count {
    if direction == Downlink then ctx.dl else ctx.ul
  }

  // ---- Integrity ----

  /**
    The code of a message whose first octet is its sequence number. That octet alone is the count. No
    code for 5G-IA0; zero for the algorithms the code does not implement.
   */
  function CodeOf(c: Crypto, ctx: Context, direction: Direction, message: seq<Byte>): Option<Mac>
    requires message != []
  {
    if ctx.integrity == 0 then None
    else if ctx.integrity <= 2 then Some(c.mac(ctx.integrity, ctx.intKey, message[0], direction, message))
    else Some([0, 0, 0, 0])
  }

  // ---- Ciphering ----

  function Streamed(c: Crypto, ctx: Context, count: nat, direction: Direction, message: seq<Byte>, from: nat)
    : (r: seq<Byte>)
    ensures |r| == |message|
    ensures forall i :: 0 <= i < |r| ==>
                          r[i] == XorByte(message[i], c.stream(ctx.encryption, ctx.encKey, count, direction, from + i))
  {
    if message == [] then []
    else
      [XorByte(message[0], c.stream(ctx.encryption, ctx.encKey, count, direction, from))]
      + Streamed(c, ctx, count, direction, message[1..], from + 1)
  }

  /** 128-EA1 works on whole 32-bit words. */
  function Padding(n: nat): nat {
    (4 - n % 4) % 4
  }

  function CipheredSize(encryption: nat, n: nat): nat {
    if encryption == 1 then (n * 8 + 31) / 32 * 4 else n
  }

  lemma CipheredSizePads(n: nat)
    ensures CipheredSize(1, n) == n + Padding(n)
  {
  }

  function CipherCount(count: Count): nat {
    count.overflow * 256 + count.seqNum
  }

  /** `slack` is what lies in memory behind the message; 128-EA1 ciphers up to three octets of it. */
  function Covered(encryption: nat, message: seq<Byte>, slack: Slack): (r: seq<Byte>)
    ensures |r| == CipheredSize(encryption, |message|)
    ensures |r| >= |message| && r[..|message|] == message
  {
    CipheredSizePads(|message|);
    if encryption == 1 then message + slack[..Padding(|message|)] else message
  }

  function Ciphered(c: Crypto, ctx: Context, direction: Direction, message: seq<Byte>, slack: Slack): (r: seq<Byte>)
    ensures |r| == CipheredSize(ctx.encryption, |message|)
  {
    if ctx.encryption == 0 then message
    else
      Streamed(c, ctx, CipherCount(CountOf(ctx, direction)), direction, Covered(ctx.encryption, message, slack), 0)
  }

  // ---- The envelope ----

  function Envelope(header: Byte, code: Mac, seqNum: Byte, body: seq<Byte>): seq<Byte> {
    [EPD_5GS_MM, header] + code + [seqNum] + body
  }

  /** The message as it goes out: in an envelope, or as it is where there is no integrity algorithm. */
  function Protected(c: Crypto, ctx: Context, direction: Direction, header: Byte, body: seq<Byte>, plain: seq<Byte>)
    : seq<Byte>
  {
    match CodeOf(c, ctx, direction, [CountOf(ctx, direction).seqNum] + body)
    case None => plain
    case Some(code) => Envelope(header, code, CountOf(ctx, direction).seqNum, body)
  }

  function ProtectCiphered(c: Crypto, ctx: Context, direction: Direction, header: Byte, plain: seq<Byte>,
                           slack: Slack): seq<Byte>
  {
    CipheredSizePads(|plain|);
    Protected(c, ctx, direction, header, Ciphered(c, ctx, direction, plain, slack)[..|plain|], plain)
  }

  /** What the encoder yields: nothing where it refuses, an empty message for header types it does not implement. */
  function Encoded(c: Crypto, ctx: Context, isNew: bool, headerType: Byte, plain: seq<Byte>, slack: Slack)
    : Option<seq<Byte>>
  {
    var header := headerType % 16;
    if header == INTEGRITY_PROTECTED_AND_CIPHERED then
      Some(ProtectCiphered(c, ctx, Downlink, header, plain, slack))
    else if header == INTEGRITY_PROTECTED_WITH_NEW_CONTEXT then
      if isNew then Some(Protected(c, ctx, Downlink, header, plain, plain)) else None
    else Some([])
  }

  /** A protected message counts, and so does one with an unimplemented header type; a refused one does not. */
  function AfterEncoding(ctx: Context, isNew: bool, headerType: Byte): Context {
    if headerType % 16 == INTEGRITY_PROTECTED_WITH_NEW_CONTEXT && !isNew then ctx
    else ctx.(dl := ctx.dl.(seqNum := (ctx.dl.seqNum + 1) % 256))
  }

  // ---- Taking the envelope off ----

  datatype Opened = Delivered(plain: seq<Byte>) | Discarded

  /** Header types above 4 are taken for plain messages. */
  predicate IsPlain(message: seq<Byte>)
    requires |message| >= 2
  {
    message[1] % 16 == 0 || message[1] % 16 > 4
  }

  predicate HasSequenceNumber(message: seq<Byte>) {
    |message| < 2 || message[0] != EPD_5GS_MM || IsPlain(message) || |message| >= HEADER_SIZE
  }

  function Seen(ctx: Context, direction: Direction, seqNum: Byte): Context {
    if direction == Uplink then ctx.(ul := ctx.ul.(seqNum := seqNum)) else ctx.(dl := ctx.dl.(seqNum := seqNum))
  }

  /** The decoder takes over the sequence number first, then checks the code, and then deciphers. */
  function OpenChecked(c: Crypto, ctx: Context, direction: Direction, message: seq<Byte>, slack: Slack): Opened
    requires |message| >= HEADER_SIZE
  {
    var code := CodeOf(c, ctx, direction, message[6..]);
    if code.Some? && code.value != message[2..6] then Discarded
    else Delivered(Ciphered(c, Seen(ctx, direction, message[6]), direction, message[7..], slack))
  }

  function Open(c: Crypto, context: Option<Context>, direction: Direction, message: seq<Byte>, slack: Slack): Opened
    requires HasSequenceNumber(message)
  {
    if |message| < 2 || message[0] != EPD_5GS_MM then Discarded
    else if IsPlain(message) then Delivered(message)
    else if message[1] % 16 == 1 then Delivered(message[7..])
    else if context == None then Discarded
    else OpenChecked(c, context.value, direction, message, slack)
  }

  // ---- Round trips ----

  /** The two ends share keys, algorithms and the count of this direction, but for the sequence number. */
  predicate Shared(sender: Context, receiver: Context, direction: Direction) {
    && sender.integrity == receiver.integrity && sender.encryption == receiver.encryption
    && sender.intKey == receiver.intKey && sender.encKey == receiver.encKey
    && CountOf(sender, direction).overflow == CountOf(receiver, direction).overflow
  }

  lemma StreamedTwice(c: Crypto, ctx: Context, count: nat, direction: Direction, message: seq<Byte>, n: nat,
                      tail: seq<Byte>)
    requires n <= |message|
    ensures Streamed(c, ctx, count, direction, Streamed(c, ctx, count, direction, message, 0)[..n] + tail, 0)[..n] ==
            message[..n]
  {
    var once := Streamed(c, ctx, count, direction, message, 0);
    var twice := Streamed(c, ctx, count, direction, once[..n] + tail, 0);
    forall i | 0 <= i < n ensures twice[i] == message[i] {
      assert (once[..n] + tail)[i] == once[i];
    }
  }

  /** What deciphers to what was ciphered, if the second pass has the same count. */
  lemma CipheredTwice(c: Crypto, sender: Context, receiver: Context, direction: Direction, plain: seq<Byte>,
                      slack: Slack, slack': Slack)
    requires sender.encryption == receiver.encryption
    requires sender.encKey == receiver.encKey && CountOf(sender, direction) == CountOf(receiver, direction)
    ensures |Ciphered(c, sender, direction, plain, slack)| >= |plain|
    ensures var r := Ciphered(c, receiver, direction, Ciphered(c, sender, direction, plain, slack)[..|plain|], slack');
            |r| == CipheredSize(sender.encryption, |plain|) && r[..|plain|] == plain
  {
    CipheredSizePads(|plain|);
    var n := |plain|;
    if sender.encryption != 0 {
      var count := CipherCount(CountOf(sender, direction));
      var whole := if sender.encryption == 1 then plain + slack[..Padding(n)] else plain;
      var tail := if sender.encryption == 1 then slack'[..Padding(n)] else [];
      StreamedTwice(c, sender, count, direction, whole, n, tail);
      SameStream(c, sender, receiver, count, direction, Streamed(c, sender, count, direction, whole, 0)[..n] + tail);
      assert Streamed(c, sender, count, direction, whole, 0)[..n] + []
          == Streamed(c, sender, count, direction, whole, 0)[..n];
    }
  }

  lemma SameStream(c: Crypto, ctx: Context, ctx': Context, count: nat, direction: Direction, message: seq<Byte>)
    requires ctx.encryption == ctx'.encryption && ctx.encKey == ctx'.encKey
    ensures Streamed(c, ctx, count, direction, message, 0) == Streamed(c, ctx', count, direction, message, 0)
  {
  }

  /** Whatever its body, a message in an envelope made with the shared keys is accepted and its body deciphered. */
  lemma OpenEnvelope(c: Crypto, sender: Context, receiver: Context, direction: Direction, header: Byte,
                     body: seq<Byte>, plain: seq<Byte>, slack: Slack)
    requires Shared(sender, receiver, direction) && sender.integrity != 0
    requires 2 <= header % 16 <= 4
    ensures var message := Protected(c, sender, direction, header, body, plain);
            && HasSequenceNumber(message)
            && Open(c, Some(receiver), direction, message, slack) ==
               Delivered(Ciphered(c, Seen(receiver, direction, CountOf(sender, direction).seqNum), direction, body,
                                  slack))
  {
    var seqNum := CountOf(sender, direction).seqNum;
    assert CodeOf(c, sender, direction, [seqNum] + body) == CodeOf(c, receiver, direction, [seqNum] + body);
    EnvelopeParts(header, CodeOf(c, sender, direction, [seqNum] + body).value, seqNum, body);
  }

  /**
    A message ciphered and enveloped under types 2 and 4 is accepted by the other end and deciphers to the
    octets that were sent, followed under 128-EA1 by the padding to a whole word.
   */
  lemma RoundTrip(c: Crypto, sender: Context, receiver: Context, direction: Direction, header: Byte,
                  plain: seq<Byte>, slack: Slack, slack': Slack)
    requires Shared(sender, receiver, direction) && sender.integrity != 0
    requires header in {INTEGRITY_PROTECTED_AND_CIPHERED, INTEGRITY_PROTECTED_AND_CIPHERED_WITH_NEW_CONTEXT}
    ensures var message := ProtectCiphered(c, sender, direction, header, plain, slack);
            && HasSequenceNumber(message)
            && (var got := Open(c, Some(receiver), direction, message, slack');
                && got.Delivered?
                && |got.plain| == |plain| + (if sender.encryption == 1 then Padding(|plain|) else 0)
                && got.plain[..|plain|] == plain)
  {
    CipheredSizePads(|plain|);
    var seqNum := CountOf(sender, direction).seqNum;
    var body := Ciphered(c, sender, direction, plain, slack)[..|plain|];
    OpenEnvelope(c, sender, receiver, direction, header, body, plain, slack');
    SeenCount(receiver, direction, seqNum);
    CipheredTwice(c, sender, Seen(receiver, direction, seqNum), direction, plain, slack, slack');
  }

  lemma EnvelopeParts(header: Byte, code: Mac, seqNum: Byte, body: seq<Byte>)
    ensures var e := Envelope(header, code, seqNum, body);
            && |e| == HEADER_SIZE + |body| && e[0] == EPD_5GS_MM && e[1] == header && e[2..6] == code
            && e[6] == seqNum && e[6..] == [seqNum] + body && e[7..] == body
  {
  }

  lemma SeenCount(ctx: Context, direction: Direction, seqNum: Byte)
    ensures CountOf(Seen(ctx, direction, seqNum), direction) == CountOf(ctx, direction).(seqNum := seqNum)
  {
  }

  /** Every key stream octet under the message is zero. */
  ghost predicate SilentStream(c: Crypto, ctx: Context, direction: Direction, n: nat) {
    forall i :: 0 <= i < n ==>
                  c.stream(ctx.encryption, ctx.encKey, CipherCount(CountOf(ctx, direction)), direction, i) == 0
  }

  lemma CipheredUnchanged(c: Crypto, ctx: Context, direction: Direction, message: seq<Byte>, slack: Slack)
    ensures |Ciphered(c, ctx, direction, message, slack)| >= |message|
    ensures Ciphered(c, ctx, direction, message, slack)[..|message|] == message <==>
            ctx.encryption == 0 || SilentStream(c, ctx, direction, |message|)
  {
    CipheredSizePads(|message|);
    var r := Ciphered(c, ctx, direction, message, slack);
    if r[..|message|] == message && ctx.encryption != 0 {
      forall i | 0 <= i < |message|
        ensures c.stream(ctx.encryption, ctx.encKey, CipherCount(CountOf(ctx, direction)), direction, i) == 0
      {
        assert r[..|message|][i] == message[i];
      }
    }
  }

  /**
    Type 3 is sent without ciphering but opened with deciphering, so it comes back as sent exactly when
    nothing is ciphered or the key stream is zero under the message.
   */
  lemma NewContextRoundTrip(c: Crypto, sender: Context, receiver: Context, direction: Direction,
                            plain: seq<Byte>, slack: Slack)
    requires Shared(sender, receiver, direction) && sender.integrity != 0
    ensures var message := Protected(c, sender, direction, INTEGRITY_PROTECTED_WITH_NEW_CONTEXT, plain, plain);
            && HasSequenceNumber(message)
            && (var got := Open(c, Some(receiver), direction, message, slack);
                && got.Delivered? && |got.plain| >= |plain|
                && (got.plain[..|plain|] == plain <==>
                    sender.encryption == 0 || SilentStream(c, sender, direction, |plain|)))
  {
    var seqNum := CountOf(sender, direction).seqNum;
    OpenEnvelope(c, sender, receiver, direction, INTEGRITY_PROTECTED_WITH_NEW_CONTEXT, plain, plain, slack);
    SeenCount(receiver, direction, seqNum);
    CipheredUnchanged(c, Seen(receiver, direction, seqNum), direction, plain, slack);
  }

  /** Without an integrity algorithm a message goes out as it is, and a plain one is delivered as it is. */
  lemma UnprotectedRoundTrip(c: Crypto, sender: Context, receiver: Option<Context>, direction: Direction, header: Byte,
                             plain: seq<Byte>, slack: Slack)
    requires sender.integrity == 0
    requires |plain| >= 2 && plain[0] == EPD_5GS_MM && IsPlain(plain)
    ensures ProtectCiphered(c, sender, direction, header, plain, slack) == plain
    ensures Open(c, receiver, direction, plain, slack) == Delivered(plain)
  {
  }

  /**
    Conversely, every message that is accepted under types 2 and 4 is the one the other end would have built
    from what is delivered: opening is the inverse of protecting on both sides.
   */
  lemma AcceptedIsProtected(c: Crypto, ctx: Context, direction: Direction, message: seq<Byte>, slack: Slack,
                            slack': Slack)
    requires |message| >= HEADER_SIZE && message[0] == EPD_5GS_MM
    requires message[1] in {INTEGRITY_PROTECTED_AND_CIPHERED, INTEGRITY_PROTECTED_AND_CIPHERED_WITH_NEW_CONTEXT}
    requires ctx.integrity != 0
    requires Open(c, Some(ctx), direction, message, slack).Delivered?
    ensures var delivered := Open(c, Some(ctx), direction, message, slack).plain;
            && |delivered| >= |message| - HEADER_SIZE
            && message == ProtectCiphered(c, Seen(ctx, direction, message[6]), direction, message[1],
                                          delivered[..|message| - HEADER_SIZE], slack')
  {
    var n := |message| - HEADER_SIZE;
    var seen := Seen(ctx, direction, message[6]);
    var delivered := Ciphered(c, seen, direction, message[7..], slack);
    CipheredSizePads(n);
    SeenCount(ctx, direction, message[6]);
    CipheredTwice(c, seen, seen, direction, message[7..], slack, slack');
    assert Ciphered(c, seen, direction, delivered[..n], slack')[..n] == message[7..];
    EnvelopeOf(message);
  }

  lemma EnvelopeOf(message: seq<Byte>)
    requires |message| >= HEADER_SIZE && message[0] == EPD_5GS_MM
    ensures message == Envelope(message[1], message[2..6], message[6], message[7..])
    ensures message[6..] == [message[6]] + message[7..]
  {
    assert message == [message[0], message[1]] + message[2..6] + [message[6]] + message[7..];
  }

  /** A message is delivered under types 2 to 4 exactly when its code is the one of its other octets. */
  lemma AcceptedExactly(c: Crypto, ctx: Context, direction: Direction, header: Byte, code: Mac, seqNum: Byte,
                        body: seq<Byte>, slack: Slack)
    requires 2 <= header % 16 <= 4
    ensures HasSequenceNumber(Envelope(header, code, seqNum, body))
    ensures Open(c, Some(ctx), direction, Envelope(header, code, seqNum, body), slack).Delivered? <==>
            CodeOf(c, ctx, direction, [seqNum] + body) in {None, Some(code)}
  {
    EnvelopeParts(header, code, seqNum, body);
  }

  // ---- The encoder's buffer ----

  /** How far into its buffer the encoder writes. */
  function Written(headerType: Byte, encryption: nat, n: nat): nat {
    if headerType % 16 == INTEGRITY_PROTECTED_AND_CIPHERED then HEADER_SIZE + CipheredSize(encryption, n)
    else if headerType % 16 == INTEGRITY_PROTECTED_WITH_NEW_CONTEXT then HEADER_SIZE + n
    else 0
  }

  /** The longest message whose encoding fits: whole words cost 128-EA1 one octet. */
  lemma WritesFit(headerType: Byte, encryption: nat, n: nat)
    ensures Written(headerType, encryption, n) <= BUFFER_SIZE <==>
            headerType % 16 !in {2, 3} || n <= 4088 || (n == 4089 && !(headerType % 16 == 2 && encryption == 1))
  {
    CipheredSizePads(n);
  }
}
