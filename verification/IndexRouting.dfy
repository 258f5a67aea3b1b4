/**
  Where messages for a UE go over a whole handover and after it: which context an AMF UE NGAP id leads to
  over disciplined runs, and which of the ids a NAS context holds lead to the UE once it has moved.
 */
module IndexRouting {
  import opened Wrappers
  import opened Contexts
  import opened UeIndexSpec
  import opened IndexAgreement
  import opened IndexRuns
  import opened IndexHandover

  // ---- What an AMF id leads to ----

  /** Whatever lookup for this AMF id succeeds, it gives this context. */
  ghost predicate LeadsOnlyTo(s: Snapshot, amf: int, u: UeNgapContext) {
    forall v :: Lookup(s, v, amf).Some? ==> Lookup(s, v, amf) == Some(u)
  }

  lemma InitialUeKeepsLeading(s: Snapshot, assoc: int, ran: int, built: UeNgapContext, amf: int, u: UeNgapContext)
    requires Disciplined(s, OnN2(InitialUeEvent(assoc, ran, built))) && LeadsOnlyTo(s, amf, u)
    ensures LeadsOnlyTo(InitialUe(s, assoc, ran, built), amf, u)
  {
    var s' := InitialUe(s, assoc, ran, built);
    if InitialUeAccepted(s, assoc) {
      var gnb := GnbAt(s, assoc).id;
      if ByPair(s, ran, gnb).Some? {
        SameLinksNarrow(s, s');
      } else {
        forall v ensures Lookup(s', v, amf) == Lookup(s, v, amf) {
          LookupAfterPutPair(s, ran, gnb, built, v, amf);
          SameLinksNarrow(PutPair(s, ran, gnb, built), s');
        }
      }
    }
  }

  lemma EstablishKeepsLeading(s: Snapshot, ran: int, gnb: int, uc: UeContext, amf: int, u: UeNgapContext)
    requires KeysApart(s) && uc !in s.app.keys.Values && LeadsOnlyTo(s, amf, u) && amf < s.app.generator
    ensures LeadsOnlyTo(Establish(s, ran, gnb, INVALID_AMF_UE_NGAP_ID, uc), amf, u)
  {
    forall v ensures Lookup(Establish(s, ran, gnb, INVALID_AMF_UE_NGAP_ID, uc), v, amf) == Lookup(s, v, amf) {
      LookupAfterEstablish(s, ran, gnb, INVALID_AMF_UE_NGAP_ID, uc, v, amf);
    }
  }

  lemma DlNasKeepsLeading(s: Snapshot, ran: int, id: int, amf: int, u: UeNgapContext)
    requires LeadsOnlyTo(s, amf, u)
    ensures LeadsOnlyTo(DlNas(s, ran, id), amf, u)
  {
    var s' := DlNas(s, ran, id);
    if ByKey(s, ran, id).Some? && NgapOf(s, ByKey(s, ran, id).value).assoc in s.gnbs.assocGnb {
      var w := ByKey(s, ran, id).value;
      assert Lookup(s, ByKeyOf(ran), id) == Some(w);
      forall v ensures Lookup(s', v, amf).Some? ==> Lookup(s', v, amf) == Some(u) {
        LookupAfterPutAmf(s, id, w, v, amf);
        SameLinksNarrow(PutAmf(s, id, w), s');
      }
    }
  }

  lemma NotifyKeepsLeading(s: Snapshot, assoc: int, ran: int, id: int, located: bool, uc: UeContext, amf: int,
                           u: UeNgapContext)
    requires KeysApart(s) && uc !in s.app.keys.Values && LeadsOnlyTo(s, amf, u)
    requires Disciplined(s, OnN2(HandoverNotifyEvent(assoc, ran, id, located, uc)))
    ensures LeadsOnlyTo(HandoverNotify(s, assoc, ran, id, located, uc), amf, u)
  {
    if NotifyAccepted(s, assoc, id, located) {
      var s' := HandoverNotify(s, assoc, ran, id, located, uc);
      assert Lookup(s, ById, id) == Some(s.ues.byAmf[id]);
      forall v ensures Lookup(s', v, amf).Some? ==> Lookup(s', v, amf) == Some(u) {
        LookupAfterNotify(s, assoc, ran, id, uc, v, amf);
        if Claims(s, ran, GnbAt(s, assoc).id, amf) && amf != id {
          assert Lookup(s, ByKeyOf(ran), amf) == Some(s.ues.byAmf[id]);
        }
      }
    }
  }

  /** Under the discipline an AMF id that has been issued never comes to lead to another context. */
  lemma StepKeepsLeading(s: Snapshot, e: Event, amf: int, u: UeNgapContext)
    requires Started(s) && Disciplined(s, e) && Allocates(s, e)
    requires LeadsOnlyTo(s, amf, u) && amf < s.app.generator
    ensures LeadsOnlyTo(Step(s, e), amf, u)
  {
    match e
    case OnN2(InitialUeEvent(assoc, ran, built)) => InitialUeKeepsLeading(s, assoc, ran, built, amf, u);
    case OnN2(HandoverNotifyEvent(assoc, ran, id, located, uc)) =>
      NotifyKeepsLeading(s, assoc, ran, id, located, uc, amf, u);
    case OnN2(DlNasEvent(ran, id)) => DlNasKeepsLeading(s, ran, id, amf, u);
    case OnN2(e2) => OtherN2StepsNarrow(s, e2);
    case OnApp(ran, gnb, given, uc) => EstablishKeepsLeading(s, ran, gnb, uc, amf, u);
    case OnN1(e1) =>
      N1KeepsLinks(s, e1);
      SameLinksNarrow(s, Step(s, e));
  }

  lemma GeneratorGrows(s: Snapshot, e: Event)
    requires Disciplined(s, e)
    ensures s.app.generator <= Step(s, e).app.generator
  {
    match e
    case OnN2(HandoverNotifyEvent(assoc, ran, id, located, uc)) =>
    case OnN2(e2) => N2StepAddsNoId(s, e2);
    case OnApp(ran, gnb, given, uc) =>
    case OnN1(e1) => N1KeepsLinks(s, e1);
  }

  lemma {:induction false} RunKeepsLeading(s: Snapshot, es: seq<Event>, amf: int, u: UeNgapContext)
    requires Started(s) && Allocating(s, es) && DisciplinedThroughout(s, es)
    requires LeadsOnlyTo(s, amf, u) && amf < s.app.generator
    ensures Started(Run(s, es)) && LeadsOnlyTo(Run(s, es), amf, u) && amf < Run(s, es).app.generator
    decreases |es|
  {
    if es == [] {
    } else {
      StepKeepsLeading(s, es[0], amf, u);
      GeneratorGrows(s, es[0]);
      DisciplinedStepStaysStarted(s, es[0]);
      RunKeepsLeading(Step(s, es[0]), es[1..], amf, u);
    }
  }

  // ---- The AMF id a context holds ----

  ghost predicate PositiveIds(s: Snapshot) {
    && (forall k <- s.app.keys :: 0 < k.1)
    && (forall a <- s.ues.byAmf :: 0 < a)
  }

  /** The AMF id this context holds was issued, and leads to nothing but this context. */
  ghost predicate Home(s: Snapshot, u: UeNgapContext) {
    NgapOf(s, u).amf < s.app.generator && LeadsOnlyTo(s, NgapOf(s, u).amf, u)
  }

  /** Every context that is indexed is at home under the id it holds. */
  ghost predicate Bound(s: Snapshot) {
    && PositiveIds(s)
    && (forall k <- s.ues.byRan :: Home(s, s.ues.byRan[k]))
    && (forall a <- s.ues.byAmf :: Home(s, s.ues.byAmf[a]))
  }

  /** Which events give a context another AMF id, and which one. */
  function AmfAfter(s: Snapshot, e: Event, u: UeNgapContext): int {
    match e
    case OnN2(InitialUeEvent(assoc, ran, built)) =>
      if InitialUeAccepted(s, assoc) && ByPair(s, ran, GnbAt(s, assoc).id) == None && built == u then 0
      else NgapOf(s, u).amf
    case OnN2(DlNasEvent(ran, amf)) =>
      if ByKey(s, ran, amf) == Some(u) && NgapOf(s, u).assoc in s.gnbs.assocGnb then amf else NgapOf(s, u).amf
    case OnApp(ran, gnb, given, _) =>
      if ByPair(s, ran, gnb) == Some(u) then EstablishedAmf(s, given) else NgapOf(s, u).amf
    case _ => NgapOf(s, u).amf
  }

  lemma ReleaseCompleteKeepsAmf(s: Snapshot, assoc: int, ran: int, amf: int, u: UeNgapContext)
    ensures NgapOf(ReleaseComplete(s, assoc, ran, amf), u).amf == NgapOf(s, u).amf
  {
  }

  lemma HandoverRequiredKeepsAmf(s: Snapshot, assoc: int, ran: int, amf: int, intra: bool, target: int, secured: bool,
                                 u: UeNgapContext)
    ensures NgapOf(HandoverRequired(s, assoc, ran, amf, intra, target, secured), u).amf == NgapOf(s, u).amf
  {
  }

  lemma InitialUeSetsAmf(s: Snapshot, assoc: int, ran: int, built: UeNgapContext, u: UeNgapContext)
    ensures NgapOf(InitialUe(s, assoc, ran, built), u).amf == AmfAfter(s, OnN2(InitialUeEvent(assoc, ran, built)), u)
  {
  }

  lemma DlNasSetsAmf(s: Snapshot, ran: int, amf: int, u: UeNgapContext)
    ensures NgapOf(DlNas(s, ran, amf), u).amf == AmfAfter(s, OnN2(DlNasEvent(ran, amf)), u)
  {
  }

  lemma AckKeepsAmf(s: Snapshot, assoc: int, ran: int, amf: int, admitted: bool, u: UeNgapContext)
    ensures NgapOf(HandoverAck(s, assoc, ran, amf, admitted), u).amf == NgapOf(s, u).amf
  {
  }

  lemma NotifyKeepsAmf(s: Snapshot, assoc: int, ran: int, amf: int, located: bool, uc: UeContext, u: UeNgapContext)
    ensures NgapOf(HandoverNotify(s, assoc, ran, amf, located, uc), u).amf == NgapOf(s, u).amf
  {
  }

  lemma N2StepAmf(s: Snapshot, e: N2Event, u: UeNgapContext)
    ensures NgapOf(N2Step(s, e), u).amf == AmfAfter(s, OnN2(e), u)
  {
    match e
    case InitialUeEvent(assoc, ran, built) => InitialUeSetsAmf(s, assoc, ran, built, u);
    case DlNasEvent(ran, amf) => DlNasSetsAmf(s, ran, amf, u);
    case HandoverAckEvent(assoc, ran, amf, admitted) => AckKeepsAmf(s, assoc, ran, amf, admitted, u);
    case HandoverNotifyEvent(assoc, ran, amf, located, uc) => NotifyKeepsAmf(s, assoc, ran, amf, located, uc, u);
    case HandoverRequiredEvent(assoc, ran, amf, intra, target, secured) =>
      var first := HandoverRequired(s, assoc, ran, amf, intra, target, secured);
      HandoverRequiredKeepsAmf(s, assoc, ran, amf, intra, target, secured, u);
      HandoverRequiredKeepsAmf(first, assoc, ran, amf, intra, target, secured, u);
    case ReleaseCompleteEvent(assoc, ran, amf) => ReleaseCompleteKeepsAmf(s, assoc, ran, amf, u);
    case ResetInterfaceEvent(assoc) => ResetKeepsRecords(s, assoc, []);
    case ResetPartEvent(assoc, items) => ResetKeepsRecords(s, assoc, items);
    case ShutdownEvent(assoc) => ResetKeepsRecords(s, assoc, []);
    case _ =>
  }

  lemma StepAmf(s: Snapshot, e: Event, u: UeNgapContext)
    ensures NgapOf(Step(s, e), u).amf == AmfAfter(s, e, u)
  {
    match e
    case OnN2(e2) => N2StepAmf(s, e2, u);
    case OnApp(ran, gnb, given, uc) =>
    case OnN1(e1) => N1KeepsLinks(s, e1);
  }

  ghost predicate Known(s: Snapshot, u: UeNgapContext) {
    u in s.ues.byRan.Values || u in s.ues.byAmf.Values
  }

  /** A context that is indexed stays at home, whichever id a message gives it. */
  lemma StepKeepsHome(s: Snapshot, e: Event, u: UeNgapContext)
    requires Started(s) && Disciplined(s, e) && Allocates(s, e) && Home(s, u) && Known(s, u)
    ensures Home(Step(s, e), u)
  {
    var s' := Step(s, e);
    StepAmf(s, e, u);
    StepKeepsLeading(s, e, NgapOf(s, u).amf, u);
    GeneratorGrows(s, e);
    match e
    case OnApp(ran, gnb, given, uc) =>
      if ByPair(s, ran, gnb) == Some(u) {
        NewIdLeadsHome(s, ran, gnb, uc, u);
      }
    case OnN2(DlNasEvent(ran, amf)) =>
      if ByKey(s, ran, amf) == Some(u) {
        assert Lookup(s, ByKeyOf(ran), amf) == Some(u);
        assert LeadsOnlyTo(s, amf, u);
        DlNasKeepsLeading(s, ran, amf, amf, u);
        KnownIdIsIssued(s, ran, amf);
      }
    case _ =>
  }

  lemma KnownIdIsIssued(s: Snapshot, ran: int, amf: int)
    requires Started(s) && KeyGnb(s, ran, amf).Some?
    ensures amf < s.app.generator
  {
    assert (ran, amf).1 < s.app.generator;
  }

  /** An id that has just been issued leads nowhere but to the context it was issued for. */
  lemma NewIdLeadsHome(s: Snapshot, ran: int, gnb: int, uc: UeContext, u: UeNgapContext)
    requires Started(s) && uc !in s.app.keys.Values && ByPair(s, ran, gnb) == Some(u)
    requires s.app.generator + 1 < GENERATOR_RANGE
    ensures var s' := Establish(s, ran, gnb, INVALID_AMF_UE_NGAP_ID, uc);
            NgapOf(s', u).amf == s.app.generator < s'.app.generator && LeadsOnlyTo(s', s.app.generator, u)
  {
    var s' := Establish(s, ran, gnb, INVALID_AMF_UE_NGAP_ID, uc);
    forall v ensures Lookup(s', v, s.app.generator).Some? ==> Lookup(s', v, s.app.generator) == Some(u) {
      LookupAfterEstablish(s, ran, gnb, INVALID_AMF_UE_NGAP_ID, uc, v, s.app.generator);
      UnissuedLeadsNowhere(s, v, s.app.generator);
    }
  }

  lemma UnissuedLeadsNowhere(s: Snapshot, v: Route, amf: int)
    requires IdsIssued(s) && s.app.generator <= amf
    ensures Lookup(s, v, amf) == None
  {
    forall r ensures KeyGnb(s, r, amf) == None {
      assert (r, amf) in s.app.keys ==> (r, amf).1 < s.app.generator;
    }
  }

  lemma NoSuchIdLeadsNowhere(s: Snapshot, v: Route, amf: int)
    requires PositiveIds(s) && amf <= 0
    ensures Lookup(s, v, amf) == None
  {
    forall r ensures KeyGnb(s, r, amf) == None {
      assert (r, amf) in s.app.keys ==> 0 < (r, amf).1;
    }
  }

  /** The message indexes a context that was not indexed. */
  predicate Introduces(s: Snapshot, e: Event, u: UeNgapContext) {
    match e
    case OnN2(InitialUeEvent(assoc, ran, built)) =>
      InitialUeAccepted(s, assoc) && ByPair(s, ran, GnbAt(s, assoc).id) == None && built == u
    case _ => false
  }

  /** The contexts indexed afterwards were indexed before. */
  ghost predicate KnewAll(s: Snapshot, s': Snapshot) {
    && (forall k <- s'.ues.byRan :: Known(s, s'.ues.byRan[k]))
    && (forall a <- s'.ues.byAmf :: Known(s, s'.ues.byAmf[a]))
  }

  lemma KnewAllAfterShrinking(s: Snapshot, s': Snapshot)
    requires Shrinks(s, s')
    ensures KnewAll(s, s')
  {
  }

  lemma ResetKnewAll(s: Snapshot, assoc: int, items: seq<ResetItem>)
    ensures KnewAll(s, ResetInterface(s, assoc))
    ensures KnewAll(s, ShutdownAssoc(s, assoc))
    ensures KnewAll(s, ResetPart(s, assoc, items))
  {
    if assoc in s.gnbs.assocGnb {
      var gnb := GnbAt(s, assoc).id;
      var s1 := Mark(s, assoc, Resetting);
      RemoveAllShrinks(s1, Collect(s1, assoc), gnb);
      KnewAllAfterShrinking(s1, RemoveAll(s1, Collect(s1, assoc), gnb));
      ResetItemsShrinks(s1, items, gnb);
      KnewAllAfterShrinking(s1, ResetItems(s1, items, gnb));
      var s2 := Mark(s, assoc, Shutdown);
      RemoveAllShrinks(s2, Collect(s2, assoc), gnb);
      KnewAllAfterShrinking(s2, RemoveAll(s2, Collect(s2, assoc), gnb));
    }
  }

  lemma ReleaseCompleteKnewAll(s: Snapshot, assoc: int, ran: int, amf: int)
    ensures KnewAll(s, ReleaseComplete(s, assoc, ran, amf))
  {
  }

  lemma NotifyKnewAll(s: Snapshot, assoc: int, ran: int, amf: int, located: bool, uc: UeContext)
    ensures KnewAll(s, HandoverNotify(s, assoc, ran, amf, located, uc))
  {
  }

  lemma DlNasKnewAll(s: Snapshot, ran: int, amf: int)
    ensures KnewAll(s, DlNas(s, ran, amf))
  {
  }

  lemma N2StepKnewAll(s: Snapshot, e: N2Event)
    requires !e.InitialUeEvent?
    ensures KnewAll(s, N2Step(s, e))
  {
    match e
    case AssociationEvent(assoc, g) =>
    case NgSetupEvent(assoc, setup) =>
    case DlNasEvent(ran, amf) => DlNasKnewAll(s, ran, amf);
    case ReleaseCompleteEvent(assoc, ran, amf) => ReleaseCompleteKnewAll(s, assoc, ran, amf);
    case HandoverRequiredEvent(assoc, ran, amf, intra, target, secured) =>
      HandoverPreparationKeepsLinks(s, assoc, ran, amf, intra, target, secured);
    case HandoverAckEvent(assoc, ran, amf, admitted) => HandoverAckKeepsLinks(s, assoc, ran, amf, admitted);
    case HandoverNotifyEvent(assoc, ran, amf, located, uc) => NotifyKnewAll(s, assoc, ran, amf, located, uc);
    case ResetInterfaceEvent(assoc) => ResetKnewAll(s, assoc, []);
    case ResetPartEvent(assoc, items) => ResetKnewAll(s, assoc, items);
    case ShutdownEvent(assoc) => ResetKnewAll(s, assoc, []);
  }

  lemma StepKnows(s: Snapshot, e: Event, u: UeNgapContext)
    requires Known(Step(s, e), u)
    ensures Known(s, u) || Introduces(s, e, u)
  {
    match e
    case OnN2(InitialUeEvent(assoc, ran, built)) =>
    case OnN2(e2) =>
      N2StepKnewAll(s, e2);
      KnewAllKnew(s, Step(s, e), u);
    case OnApp(ran, gnb, given, uc) => EstablishKnewAll(s, ran, gnb, given, uc, u);
    case OnN1(e1) => N1KeepsLinks(s, e1);
  }

  lemma EstablishKnewAll(s: Snapshot, ran: int, gnb: int, given: int, uc: UeContext, u: UeNgapContext)
    requires Known(Establish(s, ran, gnb, given, uc), u)
    ensures Known(s, u)
  {
    assert KnewAll(s, Establish(s, ran, gnb, given, uc));
    KnewAllKnew(s, Establish(s, ran, gnb, given, uc), u);
  }

  lemma KnewAllKnew(s: Snapshot, s': Snapshot, u: UeNgapContext)
    requires KnewAll(s, s') && Known(s', u)
    ensures Known(s, u)
  {
    assert forall a <- s'.ues.byAmf :: Known(s, s'.ues.byAmf[a]);
  }

  lemma StepKeepsPositiveIds(s: Snapshot, e: Event)
    requires Started(s) && Disciplined(s, e) && PositiveIds(s)
    ensures PositiveIds(Step(s, e))
  {
    var s' := Step(s, e);
    match e
    case OnN2(HandoverNotifyEvent(assoc, ran, amf, located, uc)) =>
    case OnN2(e2) =>
      N2StepAddsNoId(s, e2);
      PositiveAfterAddingNone(s, s');
    case OnApp(ran, gnb, given, uc) =>
    case OnN1(e1) => N1KeepsLinks(s, e1);
  }

  lemma PositiveAfterAddingNone(s: Snapshot, s': Snapshot)
    requires PositiveIds(s) && AddsNoId(s, s')
    ensures PositiveIds(s')
  {
    forall a | a in s'.ues.byAmf ensures 0 < a {
      if a !in s.ues.byAmf {
        var r :| (r, a) in s.app.keys;
        assert 0 < (r, a).1;
      }
    }
  }

  lemma StepKeepsBound(s: Snapshot, e: Event)
    requires Started(s) && Bound(s) && Disciplined(s, e) && Allocates(s, e)
    ensures Bound(Step(s, e))
  {
    var s' := Step(s, e);
    StepKeepsPositiveIds(s, e);
    DisciplinedStepStaysStarted(s, e);
    forall k | k in s'.ues.byRan ensures Home(s', s'.ues.byRan[k]) {
      KnownIsHome(s, e, s'.ues.byRan[k]);
    }
    forall a | a in s'.ues.byAmf ensures Home(s', s'.ues.byAmf[a]) {
      KnownIsHome(s, e, s'.ues.byAmf[a]);
    }
  }

  lemma BoundIsHome(s: Snapshot, u: UeNgapContext)
    requires Bound(s) && Known(s, u)
    ensures Home(s, u)
  {
    assert forall a <- s.ues.byAmf :: Home(s, s.ues.byAmf[a]);
  }

  lemma KnownIsHome(s: Snapshot, e: Event, u: UeNgapContext)
    requires Started(s) && Bound(s) && Disciplined(s, e) && Allocates(s, e) && Known(Step(s, e), u)
    requires Started(Step(s, e)) && PositiveIds(Step(s, e))
    ensures Home(Step(s, e), u)
  {
    StepKnows(s, e, u);
    if Known(s, u) {
      BoundIsHome(s, u);
      StepKeepsHome(s, e, u);
    } else {
      StepAmf(s, e, u);
      forall v ensures Lookup(Step(s, e), v, 0) == None {
        NoSuchIdLeadsNowhere(Step(s, e), v, 0);
      }
    }
  }

  lemma {:induction false} RunKeepsBound(s: Snapshot, es: seq<Event>)
    requires Started(s) && Bound(s) && Allocating(s, es) && DisciplinedThroughout(s, es)
    ensures Started(Run(s, es)) && Bound(Run(s, es))
    decreases |es|
  {
    if es == [] {
    } else {
      StepKeepsBound(s, es[0]);
      DisciplinedStepStaysStarted(s, es[0]);
      RunKeepsBound(Step(s, es[0]), es[1..]);
    }
  }

  /** So in every state of every disciplined run from the start, a context's own AMF id leads to nothing else. */
  lemma BoundFromTheStart(s: Snapshot, es: seq<Event>)
    requires NoUe(s) && Allocating(s, es) && DisciplinedThroughout(s, es)
    ensures Started(Run(s, es)) && Bound(Run(s, es))
  {
    NoUeIsStarted(s);
    RunKeepsBound(s, es);
  }

  // ---- From Handover Required to Handover Notify ----

  /** An accepted Handover Required for a UE of this gNB. */
  ghost predicate Required(s: Snapshot, assoc: int, ran: int, amf: int, target: int) {
    HandoverRoutable(s, assoc, ran, amf, true) && HandoverPrepared(s, amf, target, true)
  }

  function Moving(s: Snapshot, assoc: int, ran: int): UeNgapContext
    requires assoc in s.gnbs.assocGnb && (ran, GnbAt(s, assoc).id) in s.ues.byRan
  {
    s.ues.byRan[(ran, GnbAt(s, assoc).id)]
  }

  /** These messages follow the Handover Required, keep the discipline, and give the UE's context no other ids. */
  ghost predicate Between(s: Snapshot, assoc: int, ran: int, amf: int, target: int, es: seq<Event>)
    requires Required(s, assoc, ran, amf, target)
  {
    var s1 := HandoverRequiredTask(s, assoc, ran, amf, true, target, true);
    Allocating(s1, es) && DisciplinedThroughout(s1, es) && NeverAnchors(s1, es, Moving(s, assoc, ran))
  }

  ghost function Meanwhile(s: Snapshot, assoc: int, ran: int, amf: int, target: int, es: seq<Event>): Snapshot {
    Run(HandoverRequiredTask(s, assoc, ran, amf, true, target, true), es)
  }

  /**
    From an accepted Handover Required on, the UE's AMF id leads to the UE or nowhere, and its context holds the
    source's RAN id and association and the target's association.
   */
  lemma SourceServes(s: Snapshot, assoc: int, ran: int, amf: int, target: int, es: seq<Event>)
    requires Started(s) && Bound(s) && Required(s, assoc, ran, amf, target) && Between(s, assoc, ran, amf, target, es)
    ensures var u := Moving(s, assoc, ran);
            var s2 := Meanwhile(s, assoc, ran, amf, target, es);
            && Started(s2) && LeadsOnlyTo(s2, amf, u)
            && Holds(s2, u, NgapOf(s, u).ran, assoc, GnbOf(s, s.gnbs.idGnb[target]).assoc)
  {
    var u := Moving(s, assoc, ran);
    var e := OnN2(HandoverRequiredEvent(assoc, ran, amf, true, target, true));
    var s1 := Step(s, e);
    assert u in s.ues.byRan.Values;
    BoundIsHome(s, u);
    StepKeepsLeading(s, e, amf, u);
    GeneratorGrows(s, e);
    DisciplinedStepStaysStarted(s, e);
    RunKeepsLeading(s1, es, amf, u);
    PreparationRunsTwice(s, assoc, ran, amf, target);
    RunKeepsAnchor(s1, es, u);
  }

  /**
    A Handover Request Ack that is accepted meanwhile answers the source. Until the Notify, over any messages
    that give the context no other ids, the context holds the target's RAN id as well.
   */
  lemma SourceServesUntilNotify(s: Snapshot, assoc: int, ran: int, amf: int, target: int, es: seq<Event>,
                                targetAssoc: int, targetRan: int, es': seq<Event>)
    requires Started(s) && Bound(s) && Required(s, assoc, ran, amf, target) && Between(s, assoc, ran, amf, target, es)
    requires var s2 := Meanwhile(s, assoc, ran, amf, target, es);
             var s3 := HandoverAck(s2, targetAssoc, targetRan, amf, true);
             && targetAssoc in s2.gnbs.assocGnb && amf in s2.ues.byAmf && amf in s2.n1.nas
             && NeverAnchors(s3, es', Moving(s, assoc, ran)) && NeverRetargets(s3, es', Moving(s, assoc, ran))
    ensures var u := Moving(s, assoc, ran);
            var s2 := Meanwhile(s, assoc, ran, amf, target, es);
            var s3 := HandoverAck(s2, targetAssoc, targetRan, amf, true);
            && s3.sent == s2.sent + [HandoverCommand(assoc, amf, NgapOf(s, u).ran)]
            && Holds(Run(s3, es'), u, NgapOf(s, u).ran, assoc, GnbOf(s, s.gnbs.idGnb[target]).assoc)
            && NgapOf(Run(s3, es'), u).targetRan == targetRan
  {
    var u := Moving(s, assoc, ran);
    var s2 := Meanwhile(s, assoc, ran, amf, target, es);
    var s3 := HandoverAck(s2, targetAssoc, targetRan, amf, true);
    SourceServes(s, assoc, ran, amf, target, es);
    assert Lookup(s2, ById, amf) == Some(u);
    RunKeepsAnchor(s3, es', u);
    RunKeepsTargetRan(s3, es', u);
  }

  // ---- Handover Notify ----

  /** Both lookups with these ids lead to this context. */
  ghost predicate Reaches(s: Snapshot, ran: int, amf: int, u: UeNgapContext) {
    ByAmf(s, amf) == Some(u) && ByKey(s, ran, amf) == Some(u)
  }

  /**
    An accepted Handover Notify releases the UE at the ids that served it so far. Then the lookups with
    the new RAN id and the message's AMF id lead to its context, which is on the notifying association.
   */
  lemma NotifyMovesTheUe(s: Snapshot, assoc: int, ran: int, amf: int, uc: UeContext)
    requires NotifyAccepted(s, assoc, amf, true)
    ensures var u := s.ues.byAmf[amf];
            var s' := HandoverNotify(s, assoc, ran, amf, true, uc);
            && s'.sent == s.sent + [ReleaseCommand(NgapOf(s, u).assoc, amf, NgapOf(s, u).ran)]
            && Reaches(s', ran, amf, u) && NgapOf(s', u).assoc == assoc && NgapOf(s', u).ran == ran
            && amf in s'.n1.nas && s'.n1.nas[amf] == s.n1.nas[amf]
            && NasOf(s', s'.n1.nas[amf]) == NasOf(s, s.n1.nas[amf]).(ran := ran)
  {
  }

  /** The AMF id the UE's NAS context holds is the message's, or leads to the UE itself and by its key at the target. */
  ghost predicate OwnIdLeads(s: Snapshot, assoc: int, ran: int, amf: int)
    requires NotifyAccepted(s, assoc, amf, true)
  {
    var own := NasOf(s, s.n1.nas[amf]).amf;
    var u := s.ues.byAmf[amf];
    || own == amf
    || (ByAmf(s, own) == Some(u) && (Claims(s, ran, GnbAt(s, assoc).id, own) || ByKey(s, ran, own) == Some(u)))
  }

  /**
    Downlink messages are addressed with both ids of the NAS context. After an accepted Handover Notify both
    lookups with these lead to the UE exactly when its AMF id did before.
   */
  lemma NasIdsReachTheUe(s: Snapshot, assoc: int, ran: int, amf: int, uc: UeContext)
    requires NotifyAccepted(s, assoc, amf, true) && KeysApart(s) && uc !in s.app.keys.Values
    ensures var s' := HandoverNotify(s, assoc, ran, amf, true, uc);
            && amf in s'.n1.nas
            && var rec := NasOf(s', s'.n1.nas[amf]);
            Reaches(s', rec.ran, rec.amf, s.ues.byAmf[amf]) <==> OwnIdLeads(s, assoc, ran, amf)
  {
    var own := NasOf(s, s.n1.nas[amf]).amf;
    NotifyMovesTheUe(s, assoc, ran, amf, uc);
    LookupAfterNotify(s, assoc, ran, amf, uc, ById, own);
    LookupAfterNotify(s, assoc, ran, amf, uc, ByKeyOf(ran), own);
  }

  /**
    The whole handover: whatever disciplined messages come in between, the Release Command goes to the source
    of the Handover Required, and the UE is reached on the target's association.
   */
  lemma HandoverReleasesTheSource(s: Snapshot, assoc: int, ran: int, amf: int, target: int, es: seq<Event>,
                                  targetAssoc: int, targetRan: int, uc: UeContext)
    requires Started(s) && Bound(s) && Required(s, assoc, ran, amf, target) && Between(s, assoc, ran, amf, target, es)
    requires NotifyAccepted(Meanwhile(s, assoc, ran, amf, target, es), targetAssoc, amf, true)
    ensures var u := Moving(s, assoc, ran);
            var s2 := Meanwhile(s, assoc, ran, amf, target, es);
            var s3 := HandoverNotify(s2, targetAssoc, targetRan, amf, true, uc);
            && s3.sent == s2.sent + [ReleaseCommand(assoc, amf, NgapOf(s, u).ran)]
            && Reaches(s3, targetRan, amf, u) && NgapOf(s3, u).assoc == targetAssoc
  {
    var s2 := Meanwhile(s, assoc, ran, amf, target, es);
    SourceServes(s, assoc, ran, amf, target, es);
    assert Lookup(s2, ById, amf) == Some(Moving(s, assoc, ran));
    NotifyMovesTheUe(s2, targetAssoc, targetRan, amf, uc);
  }

  // ---- Later ----

  /** The message does not remove what this lookup goes through. */
  ghost predicate Spares(s: Snapshot, e: Event, v: Route, amf: int) {
    match e
    case OnN2(ReleaseCompleteEvent(assoc, ran, id)) =>
      assoc in s.gnbs.assocGnb ==>
        (match v
         case ById => id != amf
         case ByKeyOf(r) => !(r == ran && KeyGnb(s, r, amf) == Some(GnbAt(s, assoc).id)))
    case OnN2(ResetInterfaceEvent(_)) => false
    case OnN2(ResetPartEvent(_, _)) => false
    case OnN2(ShutdownEvent(_)) => false
    case _ => true
  }

  lemma ReleaseCompleteSpares(s: Snapshot, assoc: int, ran: int, id: int, v: Route, amf: int)
    requires Spares(s, OnN2(ReleaseCompleteEvent(assoc, ran, id)), v, amf)
    ensures Lookup(ReleaseComplete(s, assoc, ran, id), v, amf) == Lookup(s, v, amf)
  {
  }

  lemma NotifySpares(s: Snapshot, assoc: int, ran: int, id: int, located: bool, uc: UeContext, v: Route, amf: int)
    requires Agree(s) && KeysApart(s) && uc !in s.app.keys.Values && Lookup(s, v, amf).Some?
    requires Disciplined(s, OnN2(HandoverNotifyEvent(assoc, ran, id, located, uc)))
    ensures Lookup(HandoverNotify(s, assoc, ran, id, located, uc), v, amf) == Lookup(s, v, amf)
  {
    if NotifyAccepted(s, assoc, id, located) {
      LookupAfterNotify(s, assoc, ran, id, uc, v, amf);
      if v == ByKeyOf(ran) && amf == id {
        assert Lookup(s, ById, id) == Lookup(s, v, id);
      }
    }
  }

  lemma InitialUeSpares(s: Snapshot, assoc: int, ran: int, built: UeNgapContext, v: Route, amf: int)
    requires Disciplined(s, OnN2(InitialUeEvent(assoc, ran, built))) && Lookup(s, v, amf).Some?
    ensures Lookup(InitialUe(s, assoc, ran, built), v, amf) == Lookup(s, v, amf)
  {
    if InitialUeAccepted(s, assoc) {
      var gnb := GnbAt(s, assoc).id;
      LookupAfterPutPair(s, ran, gnb, built, v, amf);
    }
  }

  lemma DlNasSpares(s: Snapshot, ran: int, id: int, v: Route, amf: int)
    requires Agree(s) && Lookup(s, v, amf).Some?
    ensures Lookup(DlNas(s, ran, id), v, amf) == Lookup(s, v, amf)
  {
    if ByKey(s, ran, id).Some? {
      LookupAfterPutAmf(s, id, ByKey(s, ran, id).value, v, amf);
      assert amf == id ==> Lookup(s, ByKeyOf(ran), id) == Lookup(s, v, amf);
    }
  }

  lemma EstablishSpares(s: Snapshot, ran: int, gnb: int, uc: UeContext, v: Route, amf: int)
    requires Sound(s) && uc !in s.app.keys.Values && Lookup(s, v, amf).Some?
    ensures Lookup(Establish(s, ran, gnb, INVALID_AMF_UE_NGAP_ID, uc), v, amf) == Lookup(s, v, amf)
  {
    LookupAfterEstablish(s, ran, gnb, INVALID_AMF_UE_NGAP_ID, uc, v, amf);
    UnissuedLeadsNowhere(s, v, s.app.generator);
  }

  /** A lookup that succeeds goes on giving the same context, until a message removes what it goes through. */
  lemma StepSpares(s: Snapshot, e: Event, v: Route, amf: int)
    requires Started(s) && Disciplined(s, e) && Allocates(s, e) && Spares(s, e, v, amf) && Lookup(s, v, amf).Some?
    ensures Lookup(Step(s, e), v, amf) == Lookup(s, v, amf)
  {
    match e
    case OnN2(AssociationEvent(assoc, g)) => GnbHandlersKeepUes(s, assoc, g, NoGnbId);
    case OnN2(NgSetupEvent(assoc, setup)) => assert SameLinks(s, Step(s, e));
    case OnN2(InitialUeEvent(assoc, ran, built)) => InitialUeSpares(s, assoc, ran, built, v, amf);
    case OnN2(DlNasEvent(ran, id)) => DlNasSpares(s, ran, id, v, amf);
    case OnN2(ReleaseCompleteEvent(assoc, ran, id)) => ReleaseCompleteSpares(s, assoc, ran, id, v, amf);
    case OnN2(HandoverRequiredEvent(assoc, ran, id, intra, target, secured)) =>
      HandoverPreparationKeepsLinks(s, assoc, ran, id, intra, target, secured);
    case OnN2(HandoverAckEvent(assoc, ran, id, admitted)) => HandoverAckKeepsLinks(s, assoc, ran, id, admitted);
    case OnN2(HandoverNotifyEvent(assoc, ran, id, located, uc)) =>
      NotifySpares(s, assoc, ran, id, located, uc, v, amf);
    case OnN2(ResetInterfaceEvent(_)) =>
    case OnN2(ResetPartEvent(_, _)) =>
    case OnN2(ShutdownEvent(_)) =>
    case OnApp(ran, gnb, given, uc) => EstablishSpares(s, ran, gnb, uc, v, amf);
    case OnN1(e1) => N1KeepsLinks(s, e1);
  }

  ghost predicate SparedThroughout(s: Snapshot, es: seq<Event>, v: Route, amf: int)
    decreases |es|
  {
    es != [] ==> Spares(s, es[0], v, amf) && SparedThroughout(Step(s, es[0]), es[1..], v, amf)
  }

  lemma {:induction false} LookupLasts(s: Snapshot, es: seq<Event>, v: Route, amf: int)
    requires Started(s) && Allocating(s, es) && DisciplinedThroughout(s, es) && SparedThroughout(s, es, v, amf)
    requires Lookup(s, v, amf).Some?
    ensures Lookup(Run(s, es), v, amf) == Lookup(s, v, amf)
    decreases |es|
  {
    if es == [] {
    } else {
      StepSpares(s, es[0], v, amf);
      DisciplinedStepStaysStarted(s, es[0]);
      LookupLasts(Step(s, es[0]), es[1..], v, amf);
    }
  }

  /**
    After a Handover Notify, over any later disciplined run: whatever lookup for the AMF id succeeds gives the
    UE; the two lookups with the new ids go on succeeding until a release, reset or shutdown removes what they
    go through; and the UE stays on the target's association until a message gives it other ids.
   */
  lemma RoutesAfterwards(s: Snapshot, assoc: int, ran: int, amf: int, uc: UeContext, es: seq<Event>)
    requires NotifyAccepted(s, assoc, amf, true) && Started(s)
    requires var e := OnN2(HandoverNotifyEvent(assoc, ran, amf, true, uc));
             Allocates(s, e) && Disciplined(s, e) && Allocating(Step(s, e), es) && DisciplinedThroughout(Step(s, e), es)
    ensures var u := s.ues.byAmf[amf];
            var s1 := HandoverNotify(s, assoc, ran, amf, true, uc);
            var s2 := Run(s1, es);
            && LeadsOnlyTo(s2, amf, u)
            && (SparedThroughout(s1, es, ById, amf) ==> ByAmf(s2, amf) == Some(u))
            && (SparedThroughout(s1, es, ByKeyOf(ran), amf) ==> ByKey(s2, ran, amf) == Some(u))
            && (NeverAnchors(s1, es, u) ==> NgapOf(s2, u).ran == ran && NgapOf(s2, u).assoc == assoc)
  {
    var u := s.ues.byAmf[amf];
    var e := OnN2(HandoverNotifyEvent(assoc, ran, amf, true, uc));
    var s1 := Step(s, e);
    NotifyMovesTheUe(s, assoc, ran, amf, uc);
    DisciplinedStepStaysStarted(s, e);
    assert Lookup(s1, ById, amf) == Some(u) && Lookup(s1, ByKeyOf(ran), amf) == Some(u);
    RunKeepsLeading(s1, es, amf, u);
    if SparedThroughout(s1, es, ById, amf) {
      LookupLasts(s1, es, ById, amf);
    }
    if SparedThroughout(s1, es, ByKeyOf(ran), amf) {
      LookupLasts(s1, es, ByKeyOf(ran), amf);
    }
    if NeverAnchors(s1, es, u) {
      RunKeepsAnchor(s1, es, u);
    }
  }
}
