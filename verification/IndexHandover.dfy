/** N2 handover between two gNBs: what the NGAP context holds on the way, and what a release or reset makes of it. */
module IndexHandover {
  import opened Wrappers
  import opened Contexts
  import opened UeIndexSpec

  // ---- Preparation ----

  /**
    The task runs the handler twice, so an accepted Handover Required sends two Handover Requests to the
    target, advances the NCC by two, and leaves the serving RAN id alone.
   */
  lemma PreparationRunsTwice(s: Snapshot, assoc: int, ran: int, amf: int, target: int)
    requires HandoverRoutable(s, assoc, ran, amf, true) && HandoverPrepared(s, amf, target, true)
    ensures var s' := HandoverRequiredTask(s, assoc, ran, amf, true, target, true);
            var u := s.ues.byRan[(ran, GnbAt(s, assoc).id)];
            var to := GnbOf(s, s.gnbs.idGnb[target]).assoc;
            && s'.sent == s.sent + [HandoverRequest(to, amf), HandoverRequest(to, amf)]
            && NgapOf(s', u) == NgapOf(s, u).(assoc := assoc, targetAssoc := to, state := Handover,
                                ncc := (NgapOf(s, u).ncc + 2) % 256)
            && forall v :: v != u ==> NgapOf(s', v) == NgapOf(s, v)
  {
    var first := HandoverRequired(s, assoc, ran, amf, true, target, true);
    var u := s.ues.byRan[(ran, GnbAt(s, assoc).id)];
    assert NgapOf(first, u).amf == amf && first.gnbs == s.gnbs && first.ues.byRan == s.ues.byRan;
    assert ((NgapOf(s, u).ncc + 1) % 256 + 1) % 256 == (NgapOf(s, u).ncc + 2) % 256;
  }

  /** A Preparation Failure carries the AMF UE NGAP id in both its id fields. */
  lemma PreparationFailureIds(s: Snapshot, assoc: int, ran: int, amf: int, intra: bool, target: int, secured: bool)
    requires !(HandoverRoutable(s, assoc, ran, amf, intra) && HandoverPrepared(s, amf, target, secured))
    ensures var s' := HandoverRequiredTask(s, assoc, ran, amf, intra, target, secured);
            && s'.sent == s.sent + [PreparationFailure(assoc, amf, amf)]
            && (PreparationFailure(assoc, amf, ran) in s'.sent[|s.sent|..] <==> ran == amf)
  {
    var first := HandoverRequired(s, assoc, ran, amf, intra, target, secured);
    var s' := HandoverRequiredTask(s, assoc, ran, amf, intra, target, secured);
    assert first.sent == s.sent && first.gnbs == s.gnbs && first.ues.byRan == s.ues.byRan && first.n1 == s.n1;
    assert s'.sent[|s.sent|..] == [PreparationFailure(assoc, amf, amf)];
  }

  // ---- The window between Handover Required and Handover Notify ----

  /**
    The event gives this NGAP context another serving RAN id, association or handover target. A message that
    repeats what the context holds does not.
   */
  ghost predicate Anchors(s: Snapshot, e: Event, u: UeNgapContext) {
    var rec := NgapOf(s, u);
    match e
    case OnN2(InitialUeEvent(assoc, ran, built)) =>
      InitialUeAccepted(s, assoc)
      && match ByPair(s, ran, GnbAt(s, assoc).id) {
        case Some(v) => v == u && (rec.ran, rec.assoc) != (ran, assoc)
        case None => built == u && (rec.ran, rec.assoc, rec.targetAssoc) != (ran, assoc, 0)
      }
    case OnN2(HandoverRequiredEvent(assoc, ran, amf, intra, target, secured)) =>
      HandoverRoutable(s, assoc, ran, amf, intra) && s.ues.byRan[(ran, GnbAt(s, assoc).id)] == u
      && (rec.assoc != assoc
          || (HandoverPrepared(s, amf, target, secured) && GnbOf(s, s.gnbs.idGnb[target]).assoc != rec.targetAssoc))
    case OnN2(HandoverNotifyEvent(assoc, ran, amf, located, _)) =>
      NotifyAccepted(s, assoc, amf, located) && s.ues.byAmf[amf] == u && (rec.ran, rec.assoc) != (ran, assoc)
    case _ => false
  }

  ghost predicate SameAnchor(s: Snapshot, s': Snapshot, u: UeNgapContext) {
    && NgapOf(s', u).ran == NgapOf(s, u).ran
    && NgapOf(s', u).assoc == NgapOf(s, u).assoc
    && NgapOf(s', u).targetAssoc == NgapOf(s, u).targetAssoc
  }

  lemma ResetKeepsRecords(s: Snapshot, assoc: int, items: seq<ResetItem>)
    ensures ResetInterface(s, assoc).ues.ngap == s.ues.ngap
    ensures ShutdownAssoc(s, assoc).ues.ngap == s.ues.ngap
    ensures ResetPart(s, assoc, items).ues.ngap == s.ues.ngap
  {
    if assoc in s.gnbs.assocGnb {
      var gnb := GnbAt(s, assoc).id;
      RemoveAllShrinks(Mark(s, assoc, Resetting), Collect(Mark(s, assoc, Resetting), assoc), gnb);
      RemoveAllShrinks(Mark(s, assoc, Shutdown), Collect(Mark(s, assoc, Shutdown), assoc), gnb);
      ResetItemsShrinks(Mark(s, assoc, Resetting), items, gnb);
    }
  }

  lemma InitialUeAnchors(s: Snapshot, assoc: int, ran: int, v: UeNgapContext, u: UeNgapContext)
    ensures SameAnchor(s, InitialUe(s, assoc, ran, v), u) <==> !Anchors(s, OnN2(InitialUeEvent(assoc, ran, v)), u)
  {
  }

  lemma NotifyAnchors(s: Snapshot, assoc: int, ran: int, amf: int, located: bool, uc: UeContext, u: UeNgapContext)
    ensures SameAnchor(s, HandoverNotify(s, assoc, ran, amf, located, uc), u) <==>
            !Anchors(s, OnN2(HandoverNotifyEvent(assoc, ran, amf, located, uc)), u)
  {
  }

  lemma ReleaseCompleteKeepsAnchor(s: Snapshot, assoc: int, ran: int, amf: int, u: UeNgapContext)
    ensures SameAnchor(s, ReleaseComplete(s, assoc, ran, amf), u)
  {
  }

  lemma DlNasAndAckKeepAnchor(s: Snapshot, assoc: int, ran: int, amf: int, admitted: bool, u: UeNgapContext)
    ensures SameAnchor(s, DlNas(s, ran, amf), u)
    ensures SameAnchor(s, HandoverAck(s, assoc, ran, amf, admitted), u)
  {
  }

  /** One run of the handler, on what decides about the next run and on the context's ids. */
  lemma HandoverRequiredEffect(s: Snapshot, assoc: int, ran: int, amf: int, intra: bool, target: int,
                               secured: bool, u: UeNgapContext)
    ensures var s' := HandoverRequired(s, assoc, ran, amf, intra, target, secured);
            && s'.ues.byRan == s.ues.byRan && s'.gnbs == s.gnbs && s'.n1 == s.n1
            && (HandoverRoutable(s', assoc, ran, amf, intra) <==> HandoverRoutable(s, assoc, ran, amf, intra))
            && NgapOf(s', u).ran == NgapOf(s, u).ran
            && var mine := HandoverRoutable(s, assoc, ran, amf, intra) && s.ues.byRan[(ran, GnbAt(s, assoc).id)] == u;
            && NgapOf(s', u).assoc == (if mine then assoc else NgapOf(s, u).assoc)
            && NgapOf(s', u).targetAssoc == (if mine && HandoverPrepared(s, amf, target, secured)
                                             then GnbOf(s, s.gnbs.idGnb[target]).assoc else NgapOf(s, u).targetAssoc)
  {
  }

  lemma PreparationAnchors(s: Snapshot, assoc: int, ran: int, amf: int, intra: bool, target: int,
                           secured: bool, u: UeNgapContext)
    ensures SameAnchor(s, HandoverRequiredTask(s, assoc, ran, amf, intra, target, secured), u) <==>
            !Anchors(s, OnN2(HandoverRequiredEvent(assoc, ran, amf, intra, target, secured)), u)
  {
    var first := HandoverRequired(s, assoc, ran, amf, intra, target, secured);
    HandoverRequiredEffect(s, assoc, ran, amf, intra, target, secured, u);
    HandoverRequiredEffect(first, assoc, ran, amf, intra, target, secured, u);
  }

  lemma N2StepAnchors(s: Snapshot, e: N2Event, u: UeNgapContext)
    ensures SameAnchor(s, N2Step(s, e), u) <==> !Anchors(s, OnN2(e), u)
  {
    match e
    case AssociationEvent(assoc, g) =>
    case NgSetupEvent(assoc, setup) =>
    case InitialUeEvent(assoc, ran, v) => InitialUeAnchors(s, assoc, ran, v, u);
    case DlNasEvent(ran, amf) => DlNasAndAckKeepAnchor(s, 0, ran, amf, false, u);
    case ReleaseCompleteEvent(assoc, ran, amf) => ReleaseCompleteKeepsAnchor(s, assoc, ran, amf, u);
    case HandoverRequiredEvent(assoc, ran, amf, intra, target, secured) =>
      PreparationAnchors(s, assoc, ran, amf, intra, target, secured, u);
    case HandoverAckEvent(assoc, ran, amf, admitted) => DlNasAndAckKeepAnchor(s, assoc, ran, amf, admitted, u);
    case HandoverNotifyEvent(assoc, ran, amf, located, uc) => NotifyAnchors(s, assoc, ran, amf, located, uc, u);
    case ResetInterfaceEvent(assoc) => ResetKeepsRecords(s, assoc, []);
    case ResetPartEvent(assoc, items) => ResetKeepsRecords(s, assoc, items);
    case ShutdownEvent(assoc) => ResetKeepsRecords(s, assoc, []);
  }

  lemma StepAnchors(s: Snapshot, e: Event, u: UeNgapContext)
    ensures SameAnchor(s, Step(s, e), u) <==> !Anchors(s, e, u)
  {
    match e
    case OnN2(e2) => N2StepAnchors(s, e2, u);
    case OnApp(ran, gnb, given, uc) =>
    case OnN1(e1) => N1KeepsLinks(s, e1);
  }

  ghost predicate NeverAnchors(s: Snapshot, es: seq<Event>, u: UeNgapContext)
    decreases |es|
  {
    es != [] ==> !Anchors(s, es[0], u) && NeverAnchors(Step(s, es[0]), es[1..], u)
  }

  lemma {:induction false} RunKeepsAnchor(s: Snapshot, es: seq<Event>, u: UeNgapContext)
    requires NeverAnchors(s, es, u)
    ensures SameAnchor(s, Run(s, es), u)
    decreases |es|
  {
    if es == [] {
    } else {
      StepAnchors(s, es[0], u);
      RunKeepsAnchor(Step(s, es[0]), es[1..], u);
    }
  }

  /** The event gives this NGAP context another RAN id at the target. */
  ghost predicate Retargets(s: Snapshot, e: Event, u: UeNgapContext) {
    match e
    case OnN2(InitialUeEvent(assoc, ran, built)) =>
      && InitialUeAccepted(s, assoc) && ByPair(s, ran, GnbAt(s, assoc).id) == None
      && built == u && NgapOf(s, u).targetRan != 0
    case OnN2(HandoverAckEvent(assoc, ran, amf, _)) =>
      assoc in s.gnbs.assocGnb && ByAmf(s, amf) == Some(u) && NgapOf(s, u).targetRan != ran
    case OnN2(HandoverNotifyEvent(assoc, _, amf, located, _)) =>
      NotifyAccepted(s, assoc, amf, located) && s.ues.byAmf[amf] == u && NgapOf(s, u).targetRan != 0
    case _ => false
  }

  ghost predicate SameTargetRan(s: Snapshot, s': Snapshot, u: UeNgapContext) {
    NgapOf(s', u).targetRan == NgapOf(s, u).targetRan
  }

  lemma HandoverRequiredKeepsTargetRan(s: Snapshot, assoc: int, ran: int, amf: int, intra: bool, target: int,
                                       secured: bool, u: UeNgapContext)
    ensures SameTargetRan(s, HandoverRequired(s, assoc, ran, amf, intra, target, secured), u)
  {
  }

  lemma ReleaseCompleteKeepsTargetRan(s: Snapshot, assoc: int, ran: int, amf: int, u: UeNgapContext)
    ensures SameTargetRan(s, ReleaseComplete(s, assoc, ran, amf), u)
  {
  }

  lemma N2StepRetargets(s: Snapshot, e: N2Event, u: UeNgapContext)
    ensures SameTargetRan(s, N2Step(s, e), u) <==> !Retargets(s, OnN2(e), u)
  {
    match e
    case HandoverRequiredEvent(assoc, ran, amf, intra, target, secured) =>
      var first := HandoverRequired(s, assoc, ran, amf, intra, target, secured);
      HandoverRequiredKeepsTargetRan(s, assoc, ran, amf, intra, target, secured, u);
      HandoverRequiredKeepsTargetRan(first, assoc, ran, amf, intra, target, secured, u);
    case ReleaseCompleteEvent(assoc, ran, amf) => ReleaseCompleteKeepsTargetRan(s, assoc, ran, amf, u);
    case ResetInterfaceEvent(assoc) => ResetKeepsRecords(s, assoc, []);
    case ResetPartEvent(assoc, items) => ResetKeepsRecords(s, assoc, items);
    case ShutdownEvent(assoc) => ResetKeepsRecords(s, assoc, []);
    case _ =>
  }

  lemma StepRetargets(s: Snapshot, e: Event, u: UeNgapContext)
    ensures SameTargetRan(s, Step(s, e), u) <==> !Retargets(s, e, u)
  {
    match e
    case OnN2(e2) => N2StepRetargets(s, e2, u);
    case OnApp(ran, gnb, given, uc) =>
    case OnN1(e1) => N1KeepsLinks(s, e1);
  }

  ghost predicate NeverRetargets(s: Snapshot, es: seq<Event>, u: UeNgapContext)
    decreases |es|
  {
    es != [] ==> !Retargets(s, es[0], u) && NeverRetargets(Step(s, es[0]), es[1..], u)
  }

  lemma {:induction false} RunKeepsTargetRan(s: Snapshot, es: seq<Event>, u: UeNgapContext)
    requires NeverRetargets(s, es, u)
    ensures SameTargetRan(s, Run(s, es), u)
    decreases |es|
  {
    if es == [] {
    } else {
      StepRetargets(s, es[0], u);
      RunKeepsTargetRan(Step(s, es[0]), es[1..], u);
    }
  }

  ghost predicate Holds(s: Snapshot, u: UeNgapContext, ran: int, assoc: int, targetAssoc: int) {
    NgapOf(s, u).ran == ran && NgapOf(s, u).assoc == assoc && NgapOf(s, u).targetAssoc == targetAssoc
  }

  // ---- The Release Complete of the source ----

  /**
    The release cause is compared with the gNB the UE went to. The source's Release Complete therefore leaves
    the UE indexed by its AMF id exactly when source and target are the same gNB.
   */
  lemma SourceReleaseKeepsTheUe(s: Snapshot, assoc: int, ran: int, amf: int, uc: UeContext,
                                source: int, sourceRan: int)
    requires NotifyAccepted(s, assoc, amf, true)
    requires var s1 := HandoverNotify(s, assoc, ran, amf, true, uc); ReleaseHandled(s1, source, sourceRan, amf)
    ensures var s1 := HandoverNotify(s, assoc, ran, amf, true, uc);
            var s2 := ReleaseComplete(s1, source, sourceRan, amf);
            ByAmf(s2, amf) == Some(s.ues.byAmf[amf]) <==> GnbAt(s, source).id == GnbAt(s, assoc).id
  {
    var s1 := HandoverNotify(s, assoc, ran, amf, true, uc);
    assert s1.gnbs == s.gnbs && ByAmf(s1, amf) == Some(s.ues.byAmf[amf]);
    assert NgapOf(s1, s.ues.byAmf[amf]).releaseCause == CAUSE_SUCCESSFUL_HANDOVER;
    assert NgapOf(s1, s.ues.byAmf[amf]).releaseGnb == GnbAt(s, assoc).id;
  }

  /** Otherwise a UE that is connected through the target is forgotten, and turned CM-IDLE if its SUPI is current. */
  lemma SourceReleaseForgetsTheUe(s: Snapshot, assoc: int, ran: int, amf: int, uc: UeContext,
                                  source: int, sourceRan: int)
    requires NotifyAccepted(s, assoc, amf, true) && source in s.gnbs.assocGnb
    requires GnbAt(s, source).id != GnbAt(s, assoc).id
    requires var s1 := HandoverNotify(s, assoc, ran, amf, true, uc); ReleaseHandled(s1, source, sourceRan, amf)
    ensures var s1 := HandoverNotify(s, assoc, ran, amf, true, uc);
            var s2 := ReleaseComplete(s1, source, sourceRan, amf);
            && ByAmf(s2, amf) == None && NgapOf(s2, s.ues.byAmf[amf]).state == Connected
            && amf in s2.n1.nas
            && (CurrentAmf(s1, s1.n1.nas[amf]) == amf ==> NasOf(s2, s2.n1.nas[amf]).idle)
            && ByPair(s2, ran, GnbAt(s, assoc).id) == Some(s.ues.byAmf[amf])
  {
    var s1 := HandoverNotify(s, assoc, ran, amf, true, uc);
    var u := s.ues.byAmf[amf];
    assert s1.gnbs == s.gnbs && ByAmf(s1, amf) == Some(u) && amf in s1.n1.nas;
    assert ByPair(s1, ran, GnbAt(s, assoc).id) == Some(u) && NgapOf(s1, u).state == Connected;
    assert !AfterHandover(s1, GnbAt(s1, source).id, u);
  }

  /** The first release by the target, in turn, is taken for the source's: the UE stays indexed by its AMF id only. */
  lemma TargetReleaseIsMistaken(s: Snapshot, assoc: int, ran: int, amf: int, uc: UeContext)
    requires NotifyAccepted(s, assoc, amf, true)
    ensures var s1 := HandoverNotify(s, assoc, ran, amf, true, uc);
            var s2 := ReleaseComplete(s1, assoc, ran, amf);
            && ByAmf(s2, amf) == Some(s.ues.byAmf[amf]) && ByPair(s2, ran, GnbAt(s, assoc).id) == None
            && ByKey(s2, ran, amf) == None && s2.n1 == s1.n1
  {
    var s1 := HandoverNotify(s, assoc, ran, amf, true, uc);
    assert s1.gnbs == s.gnbs && (ran, amf) in s1.app.keys && KeyGnb(s1, ran, amf) == Some(GnbAt(s, assoc).id);
    assert AfterHandover(s1, GnbAt(s1, assoc).id, s.ues.byAmf[amf]);
  }

  // ---- A gNB that has been shut down ----

  /**
    Shutting down an association erases the gNB index at the association's number. The gNB's own id stays a
    handover target unless it happens to equal that number.
   */
  lemma ShutdownLeavesTheTarget(s: Snapshot, assoc: int, target: int)
    requires assoc in s.gnbs.assocGnb && target in s.gnbs.idGnb
    ensures target in ShutdownAssoc(s, assoc).gnbs.idGnb <==> target != assoc
  {
    var s1 := Mark(s, assoc, Shutdown);
    RemoveAllShrinks(s1, Collect(s1, assoc), GnbAt(s, assoc).id);
  }
}
