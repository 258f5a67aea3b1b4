/** Agreement of the lookups over whole runs: exactly when it lasts, and a discipline under which it always does. */
module IndexRuns {
  import opened Wrappers
  import opened Contexts
  import opened UeIndexSpec
  import opened IndexAgreement

  // ---- Keys and ids ----

  /** Every AMF UE NGAP id in use was handed out by the generator. */
  ghost predicate IdsIssued(s: Snapshot) {
    && (forall k <- s.app.keys :: k.1 < s.app.generator)
    && (forall a <- s.ues.byAmf :: a < s.app.generator)
    && s.app.generator < GENERATOR_RANGE
  }

  ghost predicate Sound(s: Snapshot) {
    KeysApart(s) && IdsIssued(s)
  }

  /** No key is added, no id is indexed that was not known, and the generator does not move. */
  ghost predicate AddsNoId(s: Snapshot, s': Snapshot) {
    && s'.app.keys == s.app.keys && s'.app.generator == s.app.generator
    && (forall a <- s'.ues.byAmf :: a in s.ues.byAmf || (exists r :: (r, a) in s.app.keys))
  }

  lemma AddsNoIdKeepsSound(s: Snapshot, s': Snapshot)
    requires Sound(s) && AddsNoId(s, s')
    ensures Sound(s')
  {
    forall a | a in s'.ues.byAmf ensures a < s'.app.generator {
      if a !in s.ues.byAmf {
        var r :| (r, a) in s.app.keys;
        assert (r, a).1 < s.app.generator;
      }
    }
  }

  lemma ClaimKeepsKeysApart(s: Snapshot, ran: int, amf: int, gnb: int, uc: UeContext)
    requires KeysApart(s) && uc !in s.app.keys.Values
    ensures KeysApart(Claim(s, ran, amf, gnb, uc))
  {
  }

  lemma EstablishKeepsSound(s: Snapshot, ran: int, gnb: int, uc: UeContext)
    requires Sound(s) && uc !in s.app.keys.Values && s.app.generator + 1 < GENERATOR_RANGE && 0 < s.app.generator
    ensures Sound(Establish(s, ran, gnb, INVALID_AMF_UE_NGAP_ID, uc))
  {
    ClaimKeepsKeysApart(s, ran, s.app.generator, gnb, uc);
    var s' := Establish(s, ran, gnb, INVALID_AMF_UE_NGAP_ID, uc);
    assert s'.app.keys == Claim(s, ran, s.app.generator, gnb, uc).app.keys;
    assert s'.app.generator == s.app.generator + 1;
  }

  lemma NotifyKeepsSound(s: Snapshot, assoc: int, ran: int, amf: int, located: bool, uc: UeContext)
    requires Sound(s) && uc !in s.app.keys.Values
    ensures Sound(HandoverNotify(s, assoc, ran, amf, located, uc))
  {
    if NotifyAccepted(s, assoc, amf, located) {
      var s1 := Claim(s, ran, amf, GnbAt(s, assoc).id, uc);
      ClaimKeepsKeysApart(s, ran, amf, GnbAt(s, assoc).id, uc);
      assert Sound(s1);
      assert AddsNoId(s1, HandoverNotify(s, assoc, ran, amf, located, uc));
    }
  }

  lemma InitialUeAddsNoId(s: Snapshot, assoc: int, ran: int, u: UeNgapContext)
    ensures AddsNoId(s, InitialUe(s, assoc, ran, u))
  {
  }

  lemma DlNasAddsNoId(s: Snapshot, ran: int, amf: int)
    ensures AddsNoId(s, DlNas(s, ran, amf))
  {
    assert ByKey(s, ran, amf).Some? ==> (ran, amf) in s.app.keys;
  }

  lemma DropBothAddsNoId(s: Snapshot, ran: int, gnb: int, amf: int)
    ensures AddsNoId(s, DropPair(DropAmf(s, amf), ran, gnb))
  {
  }

  lemma SameLedgerThenAddsNoId(s: Snapshot, s1: Snapshot, s': Snapshot)
    requires AddsNoId(s, s1) && SameLedger(s1, s')
    ensures AddsNoId(s, s')
  {
  }

  lemma GoIdleKeepsLinks(s: Snapshot, n: NasContext)
    ensures SameLedger(s, GoIdle(s, n))
  {
  }

  lemma ReleaseUeAddsNoId(s: Snapshot, ran: int, gnb: int, amf: int)
    ensures AddsNoId(s, ReleaseUe(s, ran, gnb, amf))
  {
    if amf in s.n1.nas {
      var s1 := DropPair(DropAmf(s, amf), ran, gnb);
      DropBothAddsNoId(s, ran, gnb, amf);
      GoIdleKeepsLinks(s1, s.n1.nas[amf]);
      SameLedgerThenAddsNoId(s, s1, GoIdle(s1, s.n1.nas[amf]));
    }
  }

  lemma ReleaseCompleteAddsNoId(s: Snapshot, assoc: int, ran: int, amf: int)
    ensures AddsNoId(s, ReleaseComplete(s, assoc, ran, amf))
  {
    if ReleaseHandled(s, assoc, ran, amf) && !AfterHandover(s, GnbAt(s, assoc).id, s.ues.byAmf[amf]) {
      ReleaseUeAddsNoId(s, ran, GnbAt(s, assoc).id, amf);
    }
  }

  lemma ShrinkingAddsNoId(s: Snapshot, s': Snapshot)
    requires Shrinks(s, s')
    ensures AddsNoId(s, s')
  {
  }

  lemma ResetAddsNoId(s: Snapshot, assoc: int)
    ensures AddsNoId(s, ResetInterface(s, assoc))
    ensures AddsNoId(s, ShutdownAssoc(s, assoc))
  {
    if assoc in s.gnbs.assocGnb {
      var gnb := GnbAt(s, assoc).id;
      var s1 := Mark(s, assoc, Resetting);
      RemoveAllShrinks(s1, Collect(s1, assoc), gnb);
      ShrinkingAddsNoId(s1, RemoveAll(s1, Collect(s1, assoc), gnb));
      var s2 := Mark(s, assoc, Shutdown);
      RemoveAllShrinks(s2, Collect(s2, assoc), gnb);
      ShrinkingAddsNoId(s2, RemoveAll(s2, Collect(s2, assoc), gnb));
    }
  }

  lemma ResetPartAddsNoId(s: Snapshot, assoc: int, items: seq<ResetItem>)
    ensures AddsNoId(s, ResetPart(s, assoc, items))
  {
    if assoc in s.gnbs.assocGnb {
      var gnb := GnbAt(s, assoc).id;
      var s1 := Mark(s, assoc, Resetting);
      ResetItemsShrinks(s1, items, gnb);
      ShrinkingAddsNoId(s1, ResetItems(s1, items, gnb));
    }
  }

  lemma SameLedgerAddsNoId(s: Snapshot, s': Snapshot)
    requires SameLedger(s, s')
    ensures AddsNoId(s, s')
  {
  }

  lemma N2StepAddsNoId(s: Snapshot, e: N2Event)
    requires !e.HandoverNotifyEvent?
    ensures AddsNoId(s, N2Step(s, e))
  {
    match e
    case AssociationEvent(assoc, g) =>
    case NgSetupEvent(assoc, setup) =>
    case InitialUeEvent(assoc, ran, u) => InitialUeAddsNoId(s, assoc, ran, u);
    case DlNasEvent(ran, amf) => DlNasAddsNoId(s, ran, amf);
    case ReleaseCompleteEvent(assoc, ran, amf) => ReleaseCompleteAddsNoId(s, assoc, ran, amf);
    case ResetInterfaceEvent(assoc) => ResetAddsNoId(s, assoc);
    case ResetPartEvent(assoc, items) => ResetPartAddsNoId(s, assoc, items);
    case ShutdownEvent(assoc) => ResetAddsNoId(s, assoc);
    case HandoverAckEvent(assoc, ran, amf, admitted) =>
      HandoverAckKeepsLinks(s, assoc, ran, amf, admitted);
      SameLedgerAddsNoId(s, N2Step(s, e));
    case HandoverRequiredEvent(assoc, ran, amf, intra, target, secured) =>
      HandoverPreparationKeepsLinks(s, assoc, ran, amf, intra, target, secured);
      SameLedgerAddsNoId(s, N2Step(s, e));
  }

  lemma StepKeepsKeysApart(s: Snapshot, e: Event)
    requires KeysApart(s) && Allocates(s, e)
    ensures KeysApart(Step(s, e))
  {
    match e
    case OnN2(HandoverNotifyEvent(assoc, ran, amf, located, uc)) =>
      if NotifyAccepted(s, assoc, amf, located) {
        ClaimKeepsKeysApart(s, ran, amf, GnbAt(s, assoc).id, uc);
        assert Step(s, e).app.keys == Claim(s, ran, amf, GnbAt(s, assoc).id, uc).app.keys;
      }
    case OnN2(e2) => N2StepAddsNoId(s, e2);
    case OnApp(ran, gnb, given, uc) =>
      ClaimKeepsKeysApart(s, ran, EstablishedAmf(s, given), gnb, uc);
      assert Step(s, e).app.keys == Claim(s, ran, EstablishedAmf(s, given), gnb, uc).app.keys;
    case OnN1(e1) => N1KeepsLinks(s, e1);
  }

  // ---- Agreement lasts as long as every event is safe ----

  ghost predicate AgreesThroughout(s: Snapshot, es: seq<Event>)
    decreases |es|
  {
    Agree(s) && (es != [] ==> AgreesThroughout(Step(s, es[0]), es[1..]))
  }

  ghost predicate SafeThroughout(s: Snapshot, es: seq<Event>)
    decreases |es|
  {
    es != [] ==> Safe(s, es[0]) && SafeThroughout(Step(s, es[0]), es[1..])
  }

  /** From any state in which the lookups agree, they agree all along a run exactly when each event of it is safe. */
  lemma {:induction false} RunAgrees(s: Snapshot, es: seq<Event>)
    requires Agree(s) && KeysApart(s) && Allocating(s, es)
    ensures AgreesThroughout(s, es) <==> SafeThroughout(s, es)
    decreases |es|
  {
    if es == [] {
    } else {
      StepAgrees(s, es[0]);
      StepKeepsKeysApart(s, es[0]);
      if Agree(Step(s, es[0])) {
        RunAgrees(Step(s, es[0]), es[1..]);
      }
    }
  }

  // ---- The discipline of gNBs and of the id generator ----

  /** No UE context key leads to this pair, but for the one of this UE. */
  ghost predicate Unclaimed(s: Snapshot, ran: int, gnb: int, but: Option<int>) {
    forall a :: Claims(s, ran, gnb, a) ==> but == Some(a)
  }

  /**
    A gNB starts a UE association only under a pair that is still indexed or that was never used, whether
    by Initial UE Message or by Handover Notify, and the id generator has not come round.
   */
  ghost predicate Disciplined(s: Snapshot, e: Event) {
    match e
    case OnN2(InitialUeEvent(assoc, ran, _)) =>
      assoc in s.gnbs.assocGnb ==>
        ByPair(s, ran, GnbAt(s, assoc).id).Some? || Unclaimed(s, ran, GnbAt(s, assoc).id, None)
    case OnN2(HandoverNotifyEvent(assoc, ran, amf, located, _)) =>
      NotifyAccepted(s, assoc, amf, located) ==>
        ByPair(s, ran, GnbAt(s, assoc).id) == Some(s.ues.byAmf[amf]) || Unclaimed(s, ran, GnbAt(s, assoc).id, Some(amf))
    case OnApp(_, _, given, _) => given == INVALID_AMF_UE_NGAP_ID && s.app.generator + 1 < GENERATOR_RANGE
    case _ => true
  }

  ghost predicate DisciplinedThroughout(s: Snapshot, es: seq<Event>)
    decreases |es|
  {
    es != [] ==> Disciplined(s, es[0]) && DisciplinedThroughout(Step(s, es[0]), es[1..])
  }

  ghost predicate Started(s: Snapshot) {
    Agree(s) && Sound(s) && 0 < s.app.generator
  }

  lemma DisciplineIsSafe(s: Snapshot, e: Event)
    requires Started(s) && Disciplined(s, e)
    ensures Safe(s, e)
  {
    match e
    case OnN2(InitialUeEvent(assoc, ran, _)) =>
    case OnN2(HandoverNotifyEvent(assoc, ran, amf, located, _)) =>
      if NotifyAccepted(s, assoc, amf, located) {
        var gnb := GnbAt(s, assoc).id;
        forall a | a != amf && Claims(s, ran, gnb, a) ensures OthersGive(s, ByKeyOf(ran), a, s.ues.byAmf[amf]) {
          assert Lookup(s, ByKeyOf(ran), a) == Some(s.ues.byAmf[amf]);
        }
      }
    case OnApp(ran, gnb, given, _) =>
      forall r ensures ByKey(s, r, s.app.generator) == None {
        assert (r, s.app.generator) in s.app.keys ==> (r, s.app.generator).1 < s.app.generator;
      }
    case _ =>
  }

  lemma DisciplinedStepStaysStarted(s: Snapshot, e: Event)
    requires Started(s) && Disciplined(s, e) && Allocates(s, e)
    ensures Started(Step(s, e))
  {
    DisciplineIsSafe(s, e);
    StepAgrees(s, e);
    match e
    case OnN2(HandoverNotifyEvent(assoc, ran, amf, located, uc)) => NotifyKeepsSound(s, assoc, ran, amf, located, uc);
    case OnN2(e2) =>
      N2StepAddsNoId(s, e2);
      AddsNoIdKeepsSound(s, Step(s, e));
    case OnApp(ran, gnb, given, uc) => EstablishKeepsSound(s, ran, gnb, uc);
    case OnN1(e1) =>
      N1KeepsLinks(s, e1);
      SameLedgerAddsNoId(s, Step(s, e));
      AddsNoIdKeepsSound(s, Step(s, e));
  }

  /** Under the discipline the lookups agree in every state of every run, whatever the order of the messages. */
  lemma {:induction false} DisciplinedRunAgrees(s: Snapshot, es: seq<Event>)
    requires Started(s) && Allocating(s, es) && DisciplinedThroughout(s, es)
    ensures AgreesThroughout(s, es)
    decreases |es|
  {
    if es == [] {
    } else {
      DisciplinedStepStaysStarted(s, es[0]);
      DisciplinedRunAgrees(Step(s, es[0]), es[1..]);
    }
  }

  lemma {:induction false} AgreesAtEnd(s: Snapshot, es: seq<Event>)
    requires AgreesThroughout(s, es)
    ensures Agree(Run(s, es))
    decreases |es|
  {
    if es == [] {
    } else {
      AgreesAtEnd(Step(s, es[0]), es[1..]);
    }
  }

  /** When the AMF starts it knows no UE, whatever gNBs have set up. */
  ghost predicate NoUe(s: Snapshot) {
    s.ues.byRan == map[] && s.ues.byAmf == map[] && s.app.keys == map[] && s.app.generator == 1
  }

  lemma NoUeIsStarted(s: Snapshot)
    requires NoUe(s)
    ensures Started(s)
  {
  }

  // ---- Without the discipline ----

  lemma {:induction false} RunOfBoth(s: Snapshot, es: seq<Event>, es': seq<Event>)
    ensures Run(s, es + es') == Run(Run(s, es), es')
    decreases |es|
  {
    if es == [] {
      assert es + es' == es';
    } else {
      assert (es + es')[1..] == es[1..] + es';
      RunOfBoth(Step(s, es[0]), es[1..], es');
    }
  }

  lemma RunOfTwo(s: Snapshot, e: Event, e': Event)
    ensures Run(s, [e, e']) == Step(Step(s, e), e')
  {
    assert [e, e'][1..] == [e'] && [e'][1..] == [];
    assert Run(Step(s, e), [e']) == Run(Step(Step(s, e), e'), []);
  }

  /** A UE association starts: the Initial UE Message, and what the APP task makes of it. */
  function Attach(assoc: int, gnb: int, ran: int, u: UeNgapContext, uc: UeContext): seq<Event> {
    [OnN2(InitialUeEvent(assoc, ran, u)), OnApp(ran, gnb, INVALID_AMF_UE_NGAP_ID, uc)]
  }

  /** A gNB resets the UE by its RAN id and uses that id for another UE. */
  function Reuse(assoc: int, ran: int, u: UeNgapContext): seq<Event> {
    [OnN2(ResetPartEvent(assoc, [ResetItem(None, Some(ran))])), OnN2(InitialUeEvent(assoc, ran, u))]
  }

  ghost predicate ReadyGnb(s: Snapshot, assoc: int, gnb: int) {
    assoc in s.gnbs.assocGnb && GnbAt(s, assoc).state == Ready && GnbAt(s, assoc).id == gnb
  }

  lemma FirstAttach(s: Snapshot, assoc: int, gnb: int, ran: int, u: UeNgapContext, uc: UeContext)
    requires NoUe(s) && ReadyGnb(s, assoc, gnb)
    ensures var s' := Run(s, Attach(assoc, gnb, ran, u, uc));
            && ReadyGnb(s', assoc, gnb) && s'.app.generator == 2
            && s'.ues.byRan == map[(ran, gnb) := u] && s'.n1 == s.n1
            && ByAmf(s', 1) == Some(u) && s'.app.keys == map[(ran, 1) := uc] && KeyGnb(s', ran, 1) == Some(gnb)
  {
    var s1 := InitialUe(s, assoc, ran, u);
    assert s1.ues.byRan == map[(ran, gnb) := u];
    RunOfTwo(s, Attach(assoc, gnb, ran, u, uc)[0], Attach(assoc, gnb, ran, u, uc)[1]);
  }

  /** A repeated Initial UE Message changes no index. */
  lemma RepeatKeepsIndexes(s: Snapshot, assoc: int, gnb: int, ran: int, u: UeNgapContext)
    requires ReadyGnb(s, assoc, gnb) && ByPair(s, ran, gnb).Some?
    ensures SameLinks(s, InitialUe(s, assoc, ran, u)) && ReadyGnb(InitialUe(s, assoc, ran, u), assoc, gnb)
    ensures InitialUe(s, assoc, ran, u).app.generator == s.app.generator
  {
  }

  lemma SecondId(s: Snapshot, assoc: int, gnb: int, ran: int, u: UeNgapContext, uc: UeContext, uc': UeContext)
    requires ReadyGnb(s, assoc, gnb) && s.app.generator == 2 && ByPair(s, ran, gnb) == Some(u)
    requires ByAmf(s, 1) == Some(u) && s.app.keys == map[(ran, 1) := uc] && KeyGnb(s, ran, 1) == Some(gnb) && uc != uc'
    ensures var s' := Establish(s, ran, gnb, INVALID_AMF_UE_NGAP_ID, uc');
            && ReadyGnb(s', assoc, gnb) && ByAmf(s', 1) == Some(u) && KeyGnb(s', ran, 1) == Some(gnb)
            && ByPair(s', ran, gnb) == Some(u) && NgapOf(s', u).amf == 2
  {
  }

  lemma SecondAttach(s: Snapshot, assoc: int, gnb: int, ran: int, u: UeNgapContext, uc: UeContext, uc': UeContext)
    requires ReadyGnb(s, assoc, gnb) && s.app.generator == 2 && s.ues.byRan == map[(ran, gnb) := u]
    requires ByAmf(s, 1) == Some(u) && s.app.keys == map[(ran, 1) := uc] && KeyGnb(s, ran, 1) == Some(gnb) && uc != uc'
    ensures var s' := Run(s, Attach(assoc, gnb, ran, u, uc'));
            && ReadyGnb(s', assoc, gnb) && ByAmf(s', 1) == Some(u) && KeyGnb(s', ran, 1) == Some(gnb)
            && ByPair(s', ran, gnb) == Some(u) && NgapOf(s', u).amf == 2
  {
    RepeatKeepsIndexes(s, assoc, gnb, ran, u);
    SecondId(InitialUe(s, assoc, ran, u), assoc, gnb, ran, u, uc, uc');
    RunOfTwo(s, Attach(assoc, gnb, ran, u, uc')[0], Attach(assoc, gnb, ran, u, uc')[1]);
  }

  lemma ResetOfOne(s: Snapshot, ran: int, gnb: int)
    ensures ResetItems(s, [ResetItem(None, Some(ran))], gnb) == RemoveWithRan(s, ran, gnb)
  {
    var items := [ResetItem(None, Some(ran))];
    assert items[1..] == [];
    assert ResetItems(RemoveWithRan(s, ran, gnb), [], gnb) == RemoveWithRan(s, ran, gnb);
  }

  lemma RemovalForgetsPair(s: Snapshot, gnb: int, ran: int, u: UeNgapContext)
    requires ByAmf(s, 1) == Some(u) && ByPair(s, ran, gnb) == Some(u) && NgapOf(s, u).amf == 2
    ensures ByAmf(RemoveWithRan(s, ran, gnb), 1) == Some(u)
    ensures ByPair(RemoveWithRan(s, ran, gnb), ran, gnb) == None
  {
  }

  lemma ResetForgetsPair(s: Snapshot, assoc: int, gnb: int, ran: int, u: UeNgapContext)
    requires ReadyGnb(s, assoc, gnb)
    requires ByAmf(s, 1) == Some(u) && KeyGnb(s, ran, 1) == Some(gnb)
    requires ByPair(s, ran, gnb) == Some(u) && NgapOf(s, u).amf == 2
    ensures var s' := ResetPart(s, assoc, [ResetItem(None, Some(ran))]);
            && ByAmf(s', 1) == Some(u) && KeyGnb(s', ran, 1) == Some(gnb) && ByPair(s', ran, gnb) == None
            && assoc in s'.gnbs.assocGnb && GnbAt(s', assoc).id == gnb && GnbAt(s', assoc).state == Resetting
  {
    var s0 := Mark(s, assoc, Resetting);
    ResetOfOne(s0, ran, gnb);
    RemoveWithRanShrinks(s0, ran, gnb);
    RemovalForgetsPair(s0, gnb, ran, u);
  }

  lemma ReuseDisagrees(s: Snapshot, assoc: int, gnb: int, ran: int, u: UeNgapContext, u': UeNgapContext)
    requires ReadyGnb(s, assoc, gnb) && u != u'
    requires ByAmf(s, 1) == Some(u) && KeyGnb(s, ran, 1) == Some(gnb)
    requires ByPair(s, ran, gnb) == Some(u) && NgapOf(s, u).amf == 2
    ensures !Agree(Run(s, Reuse(assoc, ran, u')))
  {
    var s2 := ResetPart(s, assoc, [ResetItem(None, Some(ran))]);
    ResetForgetsPair(s, assoc, gnb, ran, u);
    var s3 := InitialUe(s2, assoc, ran, u');
    RunOfTwo(s, Reuse(assoc, ran, u')[0], Reuse(assoc, ran, u')[1]);
    assert Lookup(s3, ById, 1) == Some(u);
    assert Lookup(s3, ByKeyOf(ran), 1) == Some(u');
  }

  /** A repeated Initial UE Message, then a reuse: a run that each handler accepts leaves two answers for one UE. */
  lemma ReuseOfPairDisagrees(s: Snapshot, assoc: int, gnb: int, ran: int, u: UeNgapContext, u': UeNgapContext,
                             uc: UeContext, uc': UeContext)
    requires NoUe(s) && ReadyGnb(s, assoc, gnb) && u != u' && uc != uc'
    ensures !Agree(Run(s, Attach(assoc, gnb, ran, u, uc) + (Attach(assoc, gnb, ran, u, uc') + Reuse(assoc, ran, u'))))
  {
    var s2 := Run(s, Attach(assoc, gnb, ran, u, uc));
    var s4 := Run(s2, Attach(assoc, gnb, ran, u, uc'));
    FirstAttach(s, assoc, gnb, ran, u, uc);
    SecondAttach(s2, assoc, gnb, ran, u, uc, uc');
    ReuseDisagrees(s4, assoc, gnb, ran, u, u');
    RunOfBoth(s, Attach(assoc, gnb, ran, u, uc), Attach(assoc, gnb, ran, u, uc') + Reuse(assoc, ran, u'));
    RunOfBoth(s2, Attach(assoc, gnb, ran, u, uc'), Reuse(assoc, ran, u'));
  }
}
