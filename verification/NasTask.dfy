/** The N1 task's handlers for the common procedures, on the flags and the security context of one UE. */
module NasTask {
  import opened Wrappers
  import opened Bytes
  import opened NasEnvelope
  import opened NasSecurity
  import opened NasProcedures

  class UeProcedures {
    var isAuthenticationRunning: bool
    var isSecurityModeRunning: bool
    var nsc: SecurityContext?
    var sent: seq<Sent>

    ghost function State(): Ue
      reads this, nsc
    {
      Ue(isAuthenticationRunning, isSecurityModeRunning,
         if nsc == null then None else Some(Security(nsc.available, nsc.Rec())), sent)
    }

    constructor ()
      ensures State() == Ue(false, false, None, [])
    {
      isAuthenticationRunning, isSecurityModeRunning, nsc, sent := false, false, null, [];
    }

    method StartAuthenticationProcedure() returns (ok: bool)
      modifies this
      ensures nsc == old(nsc) && ok == !Running(old(State()))
      ensures State() == if ok then StartAuthentication(old(State()))
                         else NasProcedures.Send(old(State()), RegistrationReject)
    {
      if isAuthenticationRunning || isSecurityModeRunning {
        sent := sent + [RegistrationReject];
        return false;
      }
      isAuthenticationRunning := true;
      sent := sent + [AuthenticationRequest];
      ok := true;
    }

    /** Authentication vectors have come; a context is built for a UE that has none. */
    method HandleVectors(unused: Context)
      modifies this
      ensures nsc != null && (nsc == old(nsc) || (old(nsc) == null && fresh(nsc)))
      ensures State() == TakeVectors(old(State()), unused)
    {
      if nsc == null {
        nsc := new SecurityContext(unused);
      }
      var ok := StartAuthenticationProcedure();
      if !ok {
        sent := sent + [RegistrationReject];
      }
    }

    method EncodeAndSend(c: Crypto, isNew: bool, headerType: Byte, plain: seq<Byte>, slack: Slack)
      requires nsc != null && Written(headerType, nsc.encryption, |plain|) <= BUFFER_SIZE
      modifies this, nsc
      ensures nsc == old(nsc) && State() == Encode(old(State()), c, isNew, headerType, plain, slack)
    {
      var message := nsc.EncodeProtected(c, isNew, headerType, plain, slack);
      sent := sent + [Nas(message)];
    }

    /** The context is made new, under the algorithms and keys chosen for it. */
    method RenewContext(keys: Keys)
      requires nsc != null
      modifies nsc
      ensures nsc.available && nsc.Rec() == FreshContext(keys)
      ensures HoldsKeys(nsc.Rec(), keys) && nsc.ul == Count(0, 0) && nsc.dl == Count(0, 0)
    {
      nsc.dl := Count(0, 0);
      nsc.ul := Count(0, 0);
      nsc.integrity := keys.integrity;
      nsc.encryption := keys.encryption;
      nsc.available := true;
      nsc.intKey := keys.intKey;
      nsc.encKey := keys.encKey;
    }

    method StartSecurityModeControl(c: Crypto, keys: Keys, command: seq<Byte>, slack: Slack) returns (ok: bool)
      requires |command| <= 4088
      modifies this, nsc
      ensures nsc == old(nsc) && State() == StartSecurityMode(old(State()), c, keys, command, slack)
      ensures ok == (nsc != null)
      ensures nsc != null ==> nsc.available && (old(nsc.available) ==> nsc.Rec() == old(nsc.Rec()))
      ensures nsc != null && !old(nsc.available) ==>
                && HoldsKeys(nsc.Rec(), keys) && nsc.ul == Count(0, 0) && nsc.dl == Count(0, 1)
                && |sent| > 0 && sent[|sent| - 1].Nas? && sent[|sent| - 1].message.Some?
                && IsCommand(c, keys, command, sent[|sent| - 1].message.value)
    {
      if nsc != null {
        CommandOctets(c, keys, command, slack);
      }
      isSecurityModeRunning := true;
      if nsc == null {
        return false;
      }
      var isNew := !nsc.available;
      if isNew {
        RenewContext(keys);
      }
      WritesFit(INTEGRITY_PROTECTED_WITH_NEW_CONTEXT, nsc.encryption, |command|);
      EncodeAndSend(c, isNew, INTEGRITY_PROTECTED_WITH_NEW_CONTEXT, command, slack);
      ok := true;
    }

    method HandleAuthenticationResponse(c: Crypto, accepted: bool, keys: Keys, command: seq<Byte>, slack: Slack)
      requires |command| <= 4088
      modifies this, nsc
      ensures nsc == old(nsc)
      ensures State() == Step(old(State()), c, AuthenticationResponse(accepted, keys, command, slack))
    {
      isAuthenticationRunning := false;
      if accepted {
        var _ := StartSecurityModeControl(c, keys, command, slack);
      } else {
        sent := sent + [RegistrationReject];
      }
    }

    method HandleSynchFailure(c: Crypto, vectors: bool, unused: Context)
      modifies this
      ensures nsc == old(nsc) || (old(nsc) == null && fresh(nsc))
      ensures State() == Step(old(State()), c, SynchFailure(vectors, unused))
    {
      isAuthenticationRunning := false;
      if vectors {
        HandleVectors(unused);
      } else {
        sent := sent + [RegistrationReject];
      }
    }

    method HandleNgksiInUse(c: Crypto)
      modifies this
      ensures nsc == old(nsc) && State() == Step(old(State()), c, NgksiInUse)
    {
      isAuthenticationRunning := false;
      if nsc == null {
        return;
      }
      var ok := StartAuthenticationProcedure();
      if !ok {
        sent := sent + [RegistrationReject];
      }
    }

    method HandleSecurityModeComplete(c: Crypto, accept: seq<Byte>, slack: Slack)
      requires |accept| <= 4088
      modifies this, nsc
      ensures nsc == old(nsc) && State() == Step(old(State()), c, SecurityModeComplete(accept, slack))
    {
      isSecurityModeRunning := false;
      if nsc == null {
        return;
      }
      WritesFit(INTEGRITY_PROTECTED_AND_CIPHERED, nsc.encryption, |accept|);
      EncodeAndSend(c, false, INTEGRITY_PROTECTED_AND_CIPHERED, accept, slack);
    }

    /** Any other failure only ends the authentication. */
    method HandleOtherFailure(c: Crypto)
      modifies this
      ensures nsc == old(nsc) && State() == Step(old(State()), c, OtherFailure)
    {
      isAuthenticationRunning := false;
    }

    method HandleRegistration(c: Crypto)
      modifies nsc
      ensures State() == Step(old(State()), c, Registered)
    {
      if nsc != null {
        nsc.available := false;
      }
    }

    /**
      A service request by a UE that an older NAS context is known for: the security context is copied, unless the
      older one has none, which ends the handler with an exception.
     */
    method TakeOverSecurity(older: UeProcedures, ulCount: Byte) returns (ok: bool)
      modifies this
      ensures ok == (old(older.nsc) != null)
      ensures if ok then fresh(nsc) && State() == TakenOver(old(State()), old(older.State()), ulCount)
              else State() == old(State())
      ensures ok ==> nsc.available == old(older.nsc.available) && nsc.ul == Count(old(older.nsc.ul.overflow), ulCount)
      ensures ok ==> nsc.dl == old(older.nsc.dl) && SameKeys(nsc.Rec(), old(older.nsc.Rec()))
    {
      if older.nsc == null {
        return false;
      }
      var copy := new SecurityContext(older.nsc.Rec());
      copy.available := older.nsc.available;
      copy.ul := copy.ul.(seqNum := ulCount);
      nsc := copy;
      ok := true;
    }

    method SendDownlink(c: Crypto, plain: seq<Byte>, slack: Slack)
      requires |plain| <= 4088
      modifies this, nsc
      ensures nsc == old(nsc) && State() == Step(old(State()), c, Event.Downlink(plain, slack))
    {
      if nsc == null {
        return;
      }
      WritesFit(INTEGRITY_PROTECTED_AND_CIPHERED, nsc.encryption, |plain|);
      EncodeAndSend(c, false, INTEGRITY_PROTECTED_AND_CIPHERED, plain, slack);
    }

    method Handle(c: Crypto, e: Event)
      requires Fits(e)
      modifies this, nsc
      ensures nsc == old(nsc) || (old(nsc) == null && fresh(nsc))
      ensures State() == Step(old(State()), c, e)
    {
      match e
      case VectorsReady(unused) => HandleVectors(unused);
      case AuthenticationResponse(accepted, keys, command, slack) =>
        HandleAuthenticationResponse(c, accepted, keys, command, slack);
      case SynchFailure(vectors, unused) => HandleSynchFailure(c, vectors, unused);
      case NgksiInUse => HandleNgksiInUse(c);
      case OtherFailure => HandleOtherFailure(c);
      case SecurityModeComplete(accept, slack) => HandleSecurityModeComplete(c, accept, slack);
      case SecurityModeReject =>
      case Registered => HandleRegistration(c);
      case Downlink(plain, slack) => SendDownlink(c, plain, slack);
    }

    /**
      Whatever comes, the two procedures never both run, and on a context in use that is not renewed the messages
      sent are numbered on from its count.
     */
    method Process(c: Crypto, es: seq<Event>)
      requires Exclusive(State()) && forall e <- es :: Fits(e)
      modifies this, nsc
      ensures nsc == old(nsc) || (old(nsc) == null && fresh(nsc))
      ensures State() == Run(old(State()), c, es) && !(isAuthenticationRunning && isSecurityModeRunning)
      ensures old(InUse(State())) && NeverRenews(old(State()), c, es) ==> Counts(old(State()), State())
    {
      ghost var ue := State();
      if es != [] {
        AuthenticationIsExclusive(ue, c, es[0]);
        assert es[0] in es && forall e <- es[1..] :: e in es;
        Handle(c, es[0]);
        Process(c, es[1..]);
      }
      if InUse(ue) && NeverRenews(ue, c, es) {
        RunIsNumbered(ue, c, es);
      }
    }
  }

  /** What an event has the AMF encode fits the encoder's buffer. */
  predicate Fits(e: Event) {
    match e
    case AuthenticationResponse(_, _, command, _) => |command| <= 4088
    case SecurityModeComplete(accept, _) => |accept| <= 4088
    case Downlink(plain, _) => |plain| <= 4088
    case _ => true
  }
}
