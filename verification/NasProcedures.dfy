/**
  The common procedures of one UE: authentication, then security mode control, on one security context.
  Which procedure runs is held in flags; the downlink count is held in the security context.
 */
module NasProcedures {
  import opened Wrappers
  import opened Bytes
  import opened NasEnvelope
  import opened NasOctets

  /** What the AMF sends to the UE. `Nas(None)` is the message whose encoding was refused. */
  datatype Sent = AuthenticationRequest | RegistrationReject | Nas(message: Option<seq<Byte>>)

  datatype Security = Security(available: bool, ctx: Context)

  datatype Ue = Ue(authentication: bool, securityMode: bool, security: Option<Security>, sent: seq<Sent>)

  /** The algorithms chosen for a new context, and the keys derived for them. */
  datatype Keys = Keys(integrity: nat, encryption: Ea, intKey: seq<Byte>, encKey: seq<Byte>)

  datatype Event =
    | VectorsReady(unused: Context)
    | AuthenticationResponse(accepted: bool, keys: Keys, command: seq<Byte>, slack: Slack)
    | SynchFailure(vectors: bool, unused: Context)
    | NgksiInUse
    | OtherFailure
    | SecurityModeComplete(accept: seq<Byte>, slack: Slack)
    | SecurityModeReject
    | Registered
    | Downlink(plain: seq<Byte>, slack: Slack)

  function Send(ue: Ue, message: Sent): Ue {
    ue.(sent := ue.sent + [message])
  }

  predicate Running(ue: Ue) {
    ue.authentication || ue.securityMode
  }

  /** A rejected start is reported once here and once by the caller. */
  function StartAuthentication(ue: Ue): Ue {
    if Running(ue) then Send(Send(ue, RegistrationReject), RegistrationReject)
    else Send(ue.(authentication := true), AuthenticationRequest)
  }

  /** The context of a UE that had none is not available yet; its counts and keys mean nothing. */
  function TakeVectors(ue: Ue, unused: Context): Ue {
    StartAuthentication(if ue.security.Some? then ue else ue.(security := Some(Security(false, unused))))
  }

  function Encode(ue: Ue, c: Crypto, isNew: bool, headerType: Byte, plain: seq<Byte>, slack: Slack): Ue
    requires ue.security.Some?
  {
    var ctx := ue.security.value.ctx;
    Send(ue.(security := Some(ue.security.value.(ctx := AfterEncoding(ctx, isNew, headerType)))),
         Nas(Encoded(c, ctx, isNew, headerType, plain, slack)))
  }

  function FreshContext(keys: Keys): Context {
    Context(Count(0, 0), Count(0, 0), keys.integrity, keys.encryption, keys.intKey, keys.encKey)
  }

  /** The flag is set first, even if there is no context. Only a context that is not available is made new. */
  function StartSecurityMode(ue: Ue, c: Crypto, keys: Keys, command: seq<Byte>, slack: Slack): Ue {
    var ue1 := ue.(securityMode := true);
    if ue1.security.None? then ue1
    else if ue1.security.value.available then
      Encode(ue1, c, false, INTEGRITY_PROTECTED_WITH_NEW_CONTEXT, command, slack)
    else
      Encode(ue1.(security := Some(Security(true, FreshContext(keys)))), c, true, INTEGRITY_PROTECTED_WITH_NEW_CONTEXT,
             command, slack)
  }

  function Step(ue: Ue, c: Crypto, e: Event): Ue {
    match e
    case VectorsReady(unused) => TakeVectors(ue, unused)
    case AuthenticationResponse(accepted, keys, command, slack) =>
      var ue1 := ue.(authentication := false);
      if accepted then StartSecurityMode(ue1, c, keys, command, slack) else Send(ue1, RegistrationReject)
    case SynchFailure(vectors, unused) =>
      var ue1 := ue.(authentication := false);
      if vectors then TakeVectors(ue1, unused) else Send(ue1, RegistrationReject)
    case NgksiInUse =>
      var ue1 := ue.(authentication := false);
      if ue1.security.None? then ue1 else StartAuthentication(ue1)
    case OtherFailure => ue.(authentication := false)
    case SecurityModeComplete(accept, slack) =>
      var ue1 := ue.(securityMode := false);
      if ue1.security.None? then ue1 else Encode(ue1, c, false, INTEGRITY_PROTECTED_AND_CIPHERED, accept, slack)
    case SecurityModeReject => ue
    case Registered =>
      if ue.security.None? then ue else ue.(security := Some(ue.security.value.(available := false)))
    case Downlink(plain, slack) =>
      if ue.security.None? then ue else Encode(ue, c, false, INTEGRITY_PROTECTED_AND_CIPHERED, plain, slack)
  }

  function Run(ue: Ue, c: Crypto, es: seq<Event>): Ue
    decreases |es|
  {
    if es == [] then ue else Run(Step(ue, c, es[0]), c, es[1..])
  }

  // ---- Exclusion ----

  predicate Exclusive(ue: Ue) {
    !(ue.authentication && ue.securityMode)
  }

  function NewlySent(ue: Ue, ue': Ue): seq<Sent>
    requires |ue.sent| <= |ue'.sent|
  {
    ue'.sent[|ue.sent|..]
  }

  lemma StepOnlySends(ue: Ue, c: Crypto, e: Event)
    ensures |ue.sent| <= |Step(ue, c, e).sent| && Step(ue, c, e).sent[..|ue.sent|] == ue.sent
  {
  }

  /** The authentication procedure that an event would start has nothing to wait for. */
  predicate MayAuthenticate(ue: Ue, e: Event) {
    match e
    case VectorsReady(_) => !Running(ue)
    case SynchFailure(vectors, _) => vectors && !ue.securityMode
    case NgksiInUse => ue.security.Some? && !ue.securityMode
    case _ => false
  }

  /**
    The two procedures never both run. An Authentication Request is sent exactly when an event starts the
    procedure while no other runs; a failure of the running one ends it before it is started again.
   */
  lemma AuthenticationIsExclusive(ue: Ue, c: Crypto, e: Event)
    requires Exclusive(ue)
    ensures Exclusive(Step(ue, c, e)) && |ue.sent| <= |Step(ue, c, e).sent|
    ensures AuthenticationRequest in NewlySent(ue, Step(ue, c, e)) <==> MayAuthenticate(ue, e)
    ensures MayAuthenticate(ue, e) ==> Step(ue, c, e).authentication && !Step(ue, c, e).securityMode
  {
    StepOnlySends(ue, c, e);
    var new1 := NewlySent(ue, Step(ue, c, e));
    assert Step(ue, c, e).sent == ue.sent + new1;
    assert |new1| <= 2;
  }

  lemma {:induction false} RunsAreExclusive(ue: Ue, c: Crypto, es: seq<Event>)
    requires Exclusive(ue)
    ensures Exclusive(Run(ue, c, es))
    decreases |es|
  {
    if es == [] {
    } else {
      AuthenticationIsExclusive(ue, c, es[0]);
      RunsAreExclusive(Step(ue, c, es[0]), c, es[1..]);
    }
  }

  // ---- What each event does, one by one ----

  /** An event that would start authentication. A failure has ended the running one before. */
  predicate Attempts(ue: Ue, e: Event) {
    match e
    case VectorsReady(_) => true
    case SynchFailure(vectors, _) => vectors
    case NgksiInUse => ue.security.Some?
    case _ => false
  }

  /** Which procedures run afterwards. */
  lemma StepRuns(ue: Ue, c: Crypto, e: Event)
    ensures var failed := e.AuthenticationResponse? || e.SynchFailure? || e.NgksiInUse? || e.OtherFailure?;
            Step(ue, c, e).authentication <==> (ue.authentication && !failed) || MayAuthenticate(ue, e)
    ensures Step(ue, c, e).securityMode <==>
            (ue.securityMode && !e.SecurityModeComplete?) || (e.AuthenticationResponse? && e.accepted)
  {
  }

  /** A context comes with the first vectors and stays; only a new one is available, until the next registration. */
  lemma StepContext(ue: Ue, c: Crypto, e: Event)
    ensures var ue' := Step(ue, c, e);
            && (ue'.security.Some? <==> ue.security.Some? || Attempts(ue, e))
            && (ue.security.None? && Attempts(ue, e) ==> ue'.security == Some(Security(false, e.unused)))
            && (ue.security.Some? ==>
                  (ue'.security.value.available <==>
                   (ue.security.value.available && !e.Registered?) || (e.AuthenticationResponse? && e.accepted)))
  {
  }

  /** What is sent without protection: a start that is refused is reported twice. */
  lemma StepReplies(ue: Ue, c: Crypto, e: Event)
    requires !(e.AuthenticationResponse? && e.accepted) && !e.SecurityModeComplete? && !e.Downlink?
    ensures Step(ue, c, e).sent == ue.sent +
                                   if MayAuthenticate(ue, e) then [AuthenticationRequest]
                                   else if Attempts(ue, e) then [RegistrationReject, RegistrationReject]
                                   else if e.AuthenticationResponse? || e.SynchFailure? then [RegistrationReject]
                                   else []
  {
  }

  /** What is sent protected: on a context only, and a Security Mode Command only on a new one. */
  lemma StepProtects(ue: Ue, c: Crypto, e: Event)
    requires (e.AuthenticationResponse? && e.accepted) || e.SecurityModeComplete? || e.Downlink?
    requires !Renews(ue, e)
    ensures var ue' := Step(ue, c, e);
            && |ue.sent| <= |ue'.sent| && ue'.sent[..|ue.sent|] == ue.sent
            && (ue.security.None? ==> NewlySent(ue, ue') == [])
            && (ue.security.Some? ==>
                  && |NewlySent(ue, ue')| == 1 && NewlySent(ue, ue')[0].Nas?
                  && var plain := if e.SecurityModeComplete? then e.accept
                                  else if e.Downlink? then e.plain else e.command;
                  var message := NewlySent(ue, ue')[0].message;
                  var headerType := if e.AuthenticationResponse? then 3 else 2;
                  IsEncoding(c, ue.security.value.ctx, false, headerType, plain, message))
  {
    if ue.security.Some? {
      var ctx := ue.security.value.ctx;
      match e
      case AuthenticationResponse(_, _, command, slack) => EncodedOctets(c, ctx, false, 3, command, slack);
      case SecurityModeComplete(accept, slack) => EncodedOctets(c, ctx, false, 2, accept, slack);
      case Downlink(plain, slack) => EncodedOctets(c, ctx, false, 2, plain, slack);
    }
  }

  // ---- The keys of a context ----

  /** The Security Mode Command on a new context: number zero, not ciphered, its code under the new integrity key. */
  ghost predicate IsCommand(c: Crypto, keys: Keys, command: seq<Byte>, message: seq<Byte>) {
    if keys.integrity == 0 then message == command
    else
      && |message| == 7 + |command| && message[0] == 0x7e && message[1] == 3
      && message[6] == 0 && message[7..] == command
      && message[2..6] == if keys.integrity in {1, 2}
                          then c.mac(keys.integrity, keys.intKey, 0, Direction.Downlink, [0] + command)
                          else [0, 0, 0, 0]
  }

  lemma CommandOctets(c: Crypto, keys: Keys, command: seq<Byte>, slack: Slack)
    ensures var encoded := Encoded(c, FreshContext(keys), true, INTEGRITY_PROTECTED_WITH_NEW_CONTEXT, command, slack);
            encoded.Some? && IsCommand(c, keys, command, encoded.value)
  {
    EncodedOctets(c, FreshContext(keys), true, INTEGRITY_PROTECTED_WITH_NEW_CONTEXT, command, slack);
    var message := Protected(c, FreshContext(keys), Direction.Downlink, 3, command, command);
    if keys.integrity != 0 {
      assert message[7..] == command;
      assert message[6..] == [0] + command;
    }
  }

  /** A context that is renewed holds the keys and algorithms chosen for it, and its counts start at zero. */
  lemma RenewedContext(ue: Ue, c: Crypto, keys: Keys, command: seq<Byte>, slack: Slack)
    requires Renews(ue, AuthenticationResponse(true, keys, command, slack))
    ensures var ue' := Step(ue, c, AuthenticationResponse(true, keys, command, slack));
            && ue'.security.Some? && ue'.security.value.available && HoldsKeys(ue'.security.value.ctx, keys)
            && ue'.security.value.ctx.ul == Count(0, 0) && ue'.security.value.ctx.dl == Count(0, 1)
            && |ue'.sent| == |ue.sent| + 1 && ue'.sent[..|ue.sent|] == ue.sent
            && ue'.sent[|ue.sent|].Nas? && ue'.sent[|ue.sent|].message.Some?
            && IsCommand(c, keys, command, ue'.sent[|ue.sent|].message.value)
  {
    CommandOctets(c, keys, command, slack);
  }

  predicate HoldsKeys(ctx: Context, keys: Keys) {
    && ctx.integrity == keys.integrity && ctx.encryption == keys.encryption
    && ctx.intKey == keys.intKey && ctx.encKey == keys.encKey
  }

  lemma StepKeepsKeys(ue: Ue, c: Crypto, e: Event)
    requires ue.security.Some? && !Renews(ue, e)
    ensures Step(ue, c, e).security.Some?
    ensures var ctx := ue.security.value.ctx;
            var ctx' := Step(ue, c, e).security.value.ctx;
            HoldsKeys(ctx', Keys(ctx.integrity, ctx.encryption, ctx.intKey, ctx.encKey)) && ctx'.ul == ctx.ul
  {
  }

  /** They stay until the next renewal, whatever comes. */
  lemma {:induction false} RunKeepsKeys(ue: Ue, c: Crypto, es: seq<Event>)
    requires ue.security.Some? && NeverRenews(ue, c, es)
    ensures Run(ue, c, es).security.Some?
    ensures var ctx := ue.security.value.ctx;
            var ctx' := Run(ue, c, es).security.value.ctx;
            HoldsKeys(ctx', Keys(ctx.integrity, ctx.encryption, ctx.intKey, ctx.encKey)) && ctx'.ul == ctx.ul
    decreases |es|
  {
    if es == [] {
    } else {
      StepKeepsKeys(ue, c, es[0]);
      RunKeepsKeys(Step(ue, c, es[0]), c, es[1..]);
    }
  }

  // ---- A security mode procedure that nothing ends ----

  /**
    While the security mode procedure runs, nothing but a Security Mode Complete ends it. A Security Mode
    Reject does not, and until then no Authentication Request is sent, whatever comes.
   */
  lemma {:induction false} SecurityModeBlocks(ue: Ue, c: Crypto, es: seq<Event>)
    requires ue.securityMode && !ue.authentication
    requires forall e <- es :: !e.SecurityModeComplete?
    ensures Run(ue, c, es).securityMode && |ue.sent| <= |Run(ue, c, es).sent|
    ensures Run(ue, c, es).sent[..|ue.sent|] == ue.sent
    ensures AuthenticationRequest !in NewlySent(ue, Run(ue, c, es))
    decreases |es|
  {
    if es == [] {
    } else {
      var ue1 := Step(ue, c, es[0]);
      AuthenticationIsExclusive(ue, c, es[0]);
      StepOnlySends(ue, c, es[0]);
      assert es[0] in es && forall e <- es[1..] :: e in es;
      SecurityModeBlocks(ue1, c, es[1..]);
      var last := Run(ue, c, es);
      assert last.sent[|ue.sent|..] == last.sent[|ue.sent|..|ue1.sent|] + last.sent[|ue1.sent|..];
      assert last.sent[|ue.sent|..|ue1.sent|] == ue1.sent[|ue.sent|..];
    }
  }

  // ---- The downlink count ----

  /** The messages among these that the encoder did not refuse. */
  function Encodings(sent: seq<Sent>): seq<seq<Byte>> {
    if sent == [] then []
    else (if sent[0].Nas? && sent[0].message.Some? then [sent[0].message.value] else []) + Encodings(sent[1..])
  }

  lemma {:induction false} EncodingsOfBoth(a: seq<Sent>, b: seq<Sent>)
    ensures Encodings(a + b) == Encodings(a) + Encodings(b)
  {
    if a == [] {
      assert a + b == b;
    } else {
      assert (a + b)[1..] == a[1..] + b;
      EncodingsOfBoth(a[1..], b);
    }
  }

  /** The sequence number octets of these messages go up by one from this value, modulo 256. */
  ghost predicate Numbered(messages: seq<seq<Byte>>, from: nat) {
    forall i :: 0 <= i < |messages| ==> |messages[i]| >= HEADER_SIZE && messages[i][6] == (from + i) % 256
  }

  /** `after` is the context `before` once n more messages have been encoded. */
  ghost predicate Advanced(before: Context, after: Context, n: nat) {
    after == before.(dl := before.dl.(seqNum := (before.dl.seqNum + n) % 256))
  }

  lemma EncodingIsNumbered(c: Crypto, ctx: Context, isNew: bool, headerType: Byte, plain: seq<Byte>, slack: Slack)
    requires ctx.integrity != 0
    requires headerType in {INTEGRITY_PROTECTED_AND_CIPHERED, INTEGRITY_PROTECTED_WITH_NEW_CONTEXT}
    ensures var encoded := Encoded(c, ctx, isNew, headerType, plain, slack);
            var messages := if encoded.Some? then [encoded.value] else [];
            Numbered(messages, ctx.dl.seqNum) && Advanced(ctx, AfterEncoding(ctx, isNew, headerType), |messages|)
  {
    CipheredSizePads(|plain|);
  }

  lemma EncodingsOfOne(sent: seq<Sent>)
    ensures |sent| == 1 ==>
              Encodings(sent) == if sent[0].Nas? && sent[0].message.Some? then [sent[0].message.value] else []
    ensures |sent| == 2 ==> Encodings(sent) == Encodings([sent[0]]) + Encodings([sent[1]])
  {
    if |sent| == 1 {
      assert sent[1..] == [];
    }
    if |sent| == 2 {
      assert sent == [sent[0]] + [sent[1]];
      EncodingsOfBoth([sent[0]], [sent[1]]);
    }
  }

  /** Messages are protected on this context, also while a registration has made it unavailable for the next command. */
  ghost predicate InUse(ue: Ue) {
    ue.security.Some? && ue.security.value.ctx.integrity != 0
  }

  /** The accepted response that replaces a context by a new one. */
  predicate Renews(ue: Ue, e: Event) {
    e.AuthenticationResponse? && e.accepted && ue.security.Some? && !ue.security.value.available
  }

  ghost predicate NeverRenews(ue: Ue, c: Crypto, es: seq<Event>)
    decreases |es|
  {
    es != [] ==> !Renews(ue, es[0]) && NeverRenews(Step(ue, c, es[0]), c, es[1..])
  }

  /** Between these states the messages sent are numbered from the count, which advances by as much. */
  ghost predicate Counts(ue: Ue, ue': Ue) {
    && InUse(ue) && InUse(ue') && |ue.sent| <= |ue'.sent| && ue'.sent[..|ue.sent|] == ue.sent
    && Numbered(Encodings(NewlySent(ue, ue')), ue.security.value.ctx.dl.seqNum)
    && Advanced(ue.security.value.ctx, ue'.security.value.ctx, |Encodings(NewlySent(ue, ue'))|)
  }

  /** Encoding on a context in use counts, whichever flags change with it. */
  lemma EncodeCounts(ue: Ue, ue0: Ue, c: Crypto, headerType: Byte, plain: seq<Byte>, slack: Slack)
    requires InUse(ue) && ue0.security == ue.security && ue0.sent == ue.sent
    requires headerType in {INTEGRITY_PROTECTED_AND_CIPHERED, INTEGRITY_PROTECTED_WITH_NEW_CONTEXT}
    ensures Counts(ue, Encode(ue0, c, false, headerType, plain, slack))
  {
    var ue' := Encode(ue0, c, false, headerType, plain, slack);
    EncodingIsNumbered(c, ue.security.value.ctx, false, headerType, plain, slack);
    assert NewlySent(ue, ue') == [Nas(Encoded(c, ue.security.value.ctx, false, headerType, plain, slack))];
    EncodingsOfOne(NewlySent(ue, ue'));
  }

  lemma {:induction false} NoEncodings(sent: seq<Sent>)
    requires forall m <- sent :: !m.Nas?
    ensures Encodings(sent) == []
  {
    if sent == [] {
    } else {
      NoEncodings(sent[1..]);
    }
  }

  lemma OthersCount(ue: Ue, ue': Ue, messages: seq<Sent>)
    requires InUse(ue) && ue'.security.Some? && ue'.security.value.ctx == ue.security.value.ctx
    requires ue'.sent == ue.sent + messages
    requires forall m <- messages :: !m.Nas?
    ensures Counts(ue, ue')
  {
    assert NewlySent(ue, ue') == messages;
    NoEncodings(messages);
  }

  /** An event that encodes nothing leaves the count alone. */
  lemma SilentStepCounts(ue: Ue, c: Crypto, e: Event)
    requires InUse(ue)
    requires e.VectorsReady? || e.SynchFailure? || e.NgksiInUse? || e.OtherFailure? || e.SecurityModeReject?
             || e.Registered?
    ensures Counts(ue, Step(ue, c, e))
  {
    var ue' := Step(ue, c, e);
    StepOnlySends(ue, c, e);
    assert ue'.sent == ue.sent + NewlySent(ue, ue');
    OthersCount(ue, ue', NewlySent(ue, ue'));
  }

  lemma StepIsNumbered(ue: Ue, c: Crypto, e: Event)
    requires InUse(ue) && !Renews(ue, e)
    ensures Counts(ue, Step(ue, c, e))
  {
    StepOnlySends(ue, c, e);
    match e
    case AuthenticationResponse(accepted, keys, command, slack) =>
      if accepted {
        EncodeCounts(ue, Ue(false, true, ue.security, ue.sent), c, INTEGRITY_PROTECTED_WITH_NEW_CONTEXT, command,
                     slack);
      } else {
        OthersCount(ue, Step(ue, c, e), [RegistrationReject]);
      }
    case SecurityModeComplete(accept, slack) =>
      EncodeCounts(ue, ue.(securityMode := false), c, INTEGRITY_PROTECTED_AND_CIPHERED, accept, slack);
    case Downlink(plain, slack) => EncodeCounts(ue, ue, c, INTEGRITY_PROTECTED_AND_CIPHERED, plain, slack);
    case VectorsReady(_) => SilentStepCounts(ue, c, e);
    case SynchFailure(_, _) => SilentStepCounts(ue, c, e);
    case NgksiInUse => SilentStepCounts(ue, c, e);
    case OtherFailure => SilentStepCounts(ue, c, e);
    case SecurityModeReject => SilentStepCounts(ue, c, e);
    case Registered => SilentStepCounts(ue, c, e);
  }

  lemma AddMod(n: nat, m: nat)
    ensures (n % 256 + m) % 256 == (n + m) % 256
  {
  }

  lemma NumberedInARow(a: seq<seq<Byte>>, b: seq<seq<Byte>>, from: nat, next: nat)
    requires Numbered(a, from) && Numbered(b, next) && next == (from + |a|) % 256
    ensures Numbered(a + b, from)
  {
    forall i | 0 <= i < |a + b| ensures |(a + b)[i]| >= HEADER_SIZE && (a + b)[i][6] == (from + i) % 256 {
      if i >= |a| {
        assert (a + b)[i] == b[i - |a|];
        AddMod(from + |a|, i - |a|);
      }
    }
  }

  lemma AdvancedInARow(before: Context, between: Context, after: Context, n: nat, m: nat)
    requires Advanced(before, between, n) && Advanced(between, after, m)
    ensures Advanced(before, after, n + m)
  {
    AddMod(before.dl.seqNum + n, m);
  }

  lemma CountsInARow(ue: Ue, ue1: Ue, ue': Ue)
    requires Counts(ue, ue1) && Counts(ue1, ue')
    ensures Counts(ue, ue')
  {
    NewlySentInARow(ue, ue1, ue');
    NumberedInARow(Encodings(NewlySent(ue, ue1)), Encodings(NewlySent(ue1, ue')),
                   ue.security.value.ctx.dl.seqNum, ue1.security.value.ctx.dl.seqNum);
    AdvancedInARow(ue.security.value.ctx, ue1.security.value.ctx, ue'.security.value.ctx,
                   |Encodings(NewlySent(ue, ue1))|, |Encodings(NewlySent(ue1, ue'))|);
    assert ue'.sent[..|ue.sent|] == ue1.sent[..|ue.sent|];
  }

  /**
    Until an authentication on an unavailable context renews it, over any run the messages are numbered on from
    the count, refused ones not counting; registrations in between make no difference.
   */
  lemma {:induction false} RunIsNumbered(ue: Ue, c: Crypto, es: seq<Event>)
    requires InUse(ue) && NeverRenews(ue, c, es)
    ensures Counts(ue, Run(ue, c, es))
    decreases |es|
  {
    if es == [] {
      assert NewlySent(ue, ue) == [];
    } else {
      var ue1 := Step(ue, c, es[0]);
      StepIsNumbered(ue, c, es[0]);
      RunIsNumbered(ue1, c, es[1..]);
      CountsInARow(ue, ue1, Run(ue1, c, es[1..]));
    }
  }

  lemma NewlySentInARow(ue: Ue, ue1: Ue, ue': Ue)
    requires |ue.sent| <= |ue1.sent| <= |ue'.sent| && ue'.sent[..|ue1.sent|] == ue1.sent
    ensures NewlySent(ue, ue') == NewlySent(ue, ue1) + NewlySent(ue1, ue')
    ensures Encodings(NewlySent(ue, ue')) == Encodings(NewlySent(ue, ue1)) + Encodings(NewlySent(ue1, ue'))
  {
    assert NewlySent(ue, ue1) == ue'.sent[|ue.sent|..|ue1.sent|];
    assert NewlySent(ue, ue') == NewlySent(ue, ue1) + NewlySent(ue1, ue');
    EncodingsOfBoth(NewlySent(ue, ue1), NewlySent(ue1, ue'));
  }

  /** The Security Mode Command on a new context is its first message. */
  lemma NewContextIsNumbered(ue: Ue, c: Crypto, keys: Keys, command: seq<Byte>, slack: Slack)
    requires ue.security.Some? && !ue.security.value.available && keys.integrity != 0
    ensures var ue1 := Step(ue, c, AuthenticationResponse(true, keys, command, slack));
            && InUse(ue1) && |ue1.sent| == |ue.sent| + 1 && ue1.security.value.ctx.dl == Count(0, 1)
            && |Encodings(NewlySent(ue, ue1))| == 1 && Numbered(Encodings(NewlySent(ue, ue1)), 0)
  {
    var ue1 := Step(ue, c, AuthenticationResponse(true, keys, command, slack));
    var ue0 := Ue(false, true, Some(Security(true, FreshContext(keys))), ue.sent);
    assert ue1 == Encode(ue0, c, true, INTEGRITY_PROTECTED_WITH_NEW_CONTEXT, command, slack);
    assert NewlySent(ue, ue1) ==
           [Nas(Encoded(c, FreshContext(keys), true, INTEGRITY_PROTECTED_WITH_NEW_CONTEXT, command, slack))];
    EncodingIsNumbered(c, FreshContext(keys), true, INTEGRITY_PROTECTED_WITH_NEW_CONTEXT, command, slack);
    EncodingsOfOne(NewlySent(ue, ue1));
  }

  /**
    From the Security Mode Command that takes a new context into use, itself included, until the next one that
    does, message i carries the sequence number i modulo 256, and the overflow stays zero.
   */
  lemma NumberedSinceNewContext(ue: Ue, c: Crypto, keys: Keys, command: seq<Byte>, slack: Slack, es: seq<Event>)
    requires Renews(ue, AuthenticationResponse(true, keys, command, slack)) && keys.integrity != 0
    requires NeverRenews(Step(ue, c, AuthenticationResponse(true, keys, command, slack)), c, es)
    ensures var ue' := Run(ue, c, [AuthenticationResponse(true, keys, command, slack)] + es);
            && |ue.sent| <= |ue'.sent| && InUse(ue')
            && (var messages := Encodings(NewlySent(ue, ue'));
                && messages != [] && Numbered(messages, 0)
                && ue'.security.value.ctx.dl == Count(0, |messages| % 256))
  {
    var e := AuthenticationResponse(true, keys, command, slack);
    var ue1 := Step(ue, c, e);
    var ue' := Run(ue, c, [e] + es);
    assert ([e] + es)[1..] == es;
    NewContextIsNumbered(ue, c, keys, command, slack);
    RunIsNumbered(ue1, c, es);
    NewlySentInARow(ue, ue1, ue');
    NumberedInARow(Encodings(NewlySent(ue, ue1)), Encodings(NewlySent(ue1, ue')), 0, 1);
  }

  /** Two messages carry the same sequence number exactly when they are a multiple of 256 apart. */
  lemma SameNumber(messages: seq<seq<Byte>>, from: nat, i: nat, j: nat)
    requires Numbered(messages, from) && i <= j < |messages|
    ensures messages[i][6] == messages[j][6] <==> (j - i) % 256 == 0
  {
  }

  // ---- A context copied to another UE ----

  /** A service request gives the UE a copy of an older UE's context, with the uplink sequence number it came with. */
  function TakenOver(ue: Ue, older: Ue, ulCount: Byte): Ue
    requires older.security.Some?
  {
    var ctx := older.security.value.ctx;
    ue.(security := Some(older.security.value.(ctx := ctx.(ul := ctx.ul.(seqNum := ulCount)))))
  }

  /** The messages sent on this context over a run. */
  function SentBy(ue: Ue, c: Crypto, es: seq<Event>): seq<seq<Byte>> {
    var sent := Run(ue, c, es).sent;
    if |sent| < |ue.sent| then [] else Encodings(sent[|ue.sent|..])
  }

  /**
    From then on the two number their messages independently from the same count: over any runs that renew neither,
    message i of one and message j of the other carry the same number exactly when they are a multiple of 256 apart,
    the same i among them, and both go on under the same algorithms, keys and overflow.
   */
  lemma CopiesNumberAlike(ue: Ue, older: Ue, ulCount: Byte, c: Crypto, es: seq<Event>, es': seq<Event>, i: nat, j: nat)
    requires InUse(older) && NeverRenews(older, c, es) && NeverRenews(TakenOver(ue, older, ulCount), c, es')
    requires i < |SentBy(older, c, es)| && j < |SentBy(TakenOver(ue, older, ulCount), c, es')|
    ensures var m := SentBy(older, c, es)[i];
            var m' := SentBy(TakenOver(ue, older, ulCount), c, es')[j];
            |m| > 6 && |m'| > 6 && (m[6] == m'[6] <==> i % 256 == j % 256)
    ensures var last := Run(older, c, es).security;
            var last' := Run(TakenOver(ue, older, ulCount), c, es').security;
            last.Some? && last'.Some? && SameKeys(last.value.ctx, last'.value.ctx)
  {
    var copy := TakenOver(ue, older, ulCount);
    RunIsNumbered(older, c, es);
    RunIsNumbered(copy, c, es');
    SameNumberApart(older.security.value.ctx.dl.seqNum, i, j);
  }

  predicate SameKeys(a: Context, b: Context) {
    && a.integrity == b.integrity && a.encryption == b.encryption && a.intKey == b.intKey && a.encKey == b.encKey
    && a.dl.overflow == b.dl.overflow
  }

  lemma SameNumberApart(from: nat, i: nat, j: nat)
    ensures (from + i) % 256 == (from + j) % 256 <==> i % 256 == j % 256
  {
  }

  // ---- The NAS COUNT ----

  /** The NAS COUNT of message i of a context (section 4.4.3.1 of 3GPP TS 24.501): its overflow counts the wraps. */
  function NasCount(i: nat): Count {
    Count(i / 256, i % 256)
  }

  /** The count the messages are ciphered with is the NAS COUNT for the first 256 messages and no others. */
  lemma CountIsNasCount(i: nat)
    ensures CipherCount(Count(0, i % 256)) == CipherCount(NasCount(i)) <==> i < 256
  {
  }
}
