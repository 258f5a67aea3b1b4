/**
  What each message does, seen from outside: which messages go out and with which ids, what the contexts it is
  for hold afterwards, and that the other ones keep what they held.
 */
module IndexEffects {
  import opened Wrappers
  import opened Contexts
  import opened UeIndexSpec
  import opened IndexHandover

  // ---- What stays ----

  /** Every other NGAP context holds what it held. */
  predicate OtherNgap(s: Snapshot, s': Snapshot, u: UeNgapContext) {
    s'.ues.ngap - {u} == s.ues.ngap - {u}
  }

  /** Every other NAS context holds what it held. */
  predicate OtherNas(s: Snapshot, s': Snapshot, n: NasContext) {
    s'.n1.nc - {n} == s.n1.nc - {n}
  }

  predicate OtherGnbs(s: Snapshot, s': Snapshot, g: GnbContext) {
    s'.gnbs.gnb - {g} == s.gnbs.gnb - {g}
  }

  /** The pair leads to this now, and other pairs to what they led to. */
  ghost predicate PairLeads(s: Snapshot, s': Snapshot, ran: int, gnb: int, to: Option<UeNgapContext>) {
    forall r, g :: ByPair(s', r, g) == if (r, g) == (ran, gnb) then to else ByPair(s, r, g)
  }

  /** The AMF id leads to this now, and other AMF ids to what they led to. */
  ghost predicate AmfLeads(s: Snapshot, s': Snapshot, amf: int, to: Option<UeNgapContext>) {
    forall a :: ByAmf(s', a) == if a == amf then to else ByAmf(s, a)
  }

  function NasUnder(s: Snapshot, amf: int): Option<NasContext> {
    if amf in s.n1.nas then Some(s.n1.nas[amf]) else None
  }

  function NasOfGuti(s: Snapshot, guti: string): Option<NasContext> {
    if guti in s.n1.gutiNas then Some(s.n1.gutiNas[guti]) else None
  }

  function NasOfSupi(s: Snapshot, supi: string): Option<NasContext> {
    if supi in s.n1.supiNas then Some(s.n1.supiNas[supi]) else None
  }

  function GnbOfId(s: Snapshot, id: int): Option<GnbContext> {
    if id in s.gnbs.idGnb then Some(s.gnbs.idGnb[id]) else None
  }

  // ---- gNBs ----

  /** The context of a new association is set back, unless it is being reset or shut down; its gNB keeps its id. */
  lemma AssociationStarts(s: Snapshot, assoc: int, g: GnbContext)
    requires g !in s.gnbs.assocGnb.Values
    ensures var s' := Step(s, OnN2(AssociationEvent(assoc, g)));
            && assoc in s'.gnbs.assocGnb && GnbAt(s', assoc).assoc == (if GnbAt(s', assoc).state == Init then assoc
                                                                       else GnbAt(s, assoc).assoc)
            && s'.gnbs.assocGnb[assoc] == (if assoc in s.gnbs.assocGnb then s.gnbs.assocGnb[assoc] else g)
            && OtherGnbs(s, s', s'.gnbs.assocGnb[assoc]) && s'.gnbs.idGnb == s.gnbs.idGnb
            && (forall a :: a != assoc ==> (a in s'.gnbs.assocGnb <==> a in s.gnbs.assocGnb))
            && if assoc !in s.gnbs.assocGnb then GnbAt(s', assoc).state == Init && GnbAt(s', assoc).id == 0
               else
                 && GnbAt(s', assoc).id == GnbAt(s, assoc).id
                 && GnbAt(s', assoc).state == if GnbAt(s, assoc).state in {Resetting, Shutdown}
                                              then GnbAt(s, assoc).state else Init
  {
  }

  /** The gNB takes the id it gives. It is found by it once there is a PLMN in common, and ready once it is answered. */
  lemma SetupTakesId(s: Snapshot, assoc: int, setup: Setup)
    requires assoc in s.gnbs.assocGnb && setup != NoGnbId
    ensures var s' := Step(s, OnN2(NgSetupEvent(assoc, setup)));
            var g := s.gnbs.assocGnb[assoc];
            && GnbOf(s', g).id == setup.id && GnbOf(s', g).assoc == GnbOf(s, g).assoc
            && GnbOf(s', g).state == (if setup.Answered? then Ready else GnbOf(s, g).state)
            && GnbOfId(s', setup.id) == (if setup.NothingInCommon? then GnbOfId(s, setup.id) else Some(g))
            && (forall id :: id != setup.id ==> GnbOfId(s', id) == GnbOfId(s, id))
            && OtherGnbs(s, s', g) && s'.gnbs.assocGnb == s.gnbs.assocGnb
  {
  }

  lemma SetupIgnored(s: Snapshot, assoc: int, setup: Setup)
    requires assoc !in s.gnbs.assocGnb || setup == NoGnbId
    ensures Step(s, OnN2(NgSetupEvent(assoc, setup))) == s
  {
  }

  lemma RemovalKeepsGnbs(s: Snapshot, assoc: int, state: GnbState)
    requires assoc in s.gnbs.assocGnb
    ensures var s' := MarkedRemoval(s, assoc, state);
            s'.gnbs == Mark(s, assoc, state).gnbs && s'.sent == s.sent
  {
    var s1 := Mark(s, assoc, state);
    RemoveAllShrinks(s1, Collect(s1, assoc), GnbAt(s, assoc).id);
  }

  /** A reset is acknowledged on the gNB's association and blocks it. */
  lemma ResetBlocks(s: Snapshot, assoc: int)
    requires assoc in s.gnbs.assocGnb
    ensures var s' := Step(s, OnN2(ResetInterfaceEvent(assoc)));
            var g := s.gnbs.assocGnb[assoc];
            && s'.sent == s.sent + [ResetAck(GnbOf(s, g).assoc)]
            && GnbOf(s', g) == GnbRec(GnbOf(s, g).id, GnbOf(s, g).assoc, Resetting)
            && OtherGnbs(s, s', g) && s'.gnbs.assocGnb == s.gnbs.assocGnb && s'.gnbs.idGnb == s.gnbs.idGnb
  {
    RemovalKeepsGnbs(s, assoc, Resetting);
  }

  /** A shutdown blocks it and sends nothing; what is forgotten is the gNB whose id is the association's number. */
  lemma ShutdownBlocks(s: Snapshot, assoc: int)
    requires assoc in s.gnbs.assocGnb
    ensures var s' := Step(s, OnN2(ShutdownEvent(assoc)));
            var g := s.gnbs.assocGnb[assoc];
            && s'.sent == s.sent && GnbOf(s', g) == GnbRec(GnbOf(s, g).id, GnbOf(s, g).assoc, Shutdown)
            && OtherGnbs(s, s', g) && s'.gnbs.assocGnb == s.gnbs.assocGnb
            && s'.gnbs.idGnb == s.gnbs.idGnb - {assoc}
  {
    RemovalKeepsGnbs(s, assoc, Shutdown);
  }

  lemma UnknownAssociationIgnored(s: Snapshot, assoc: int, ran: int, amf: int, items: seq<ResetItem>, u: UeNgapContext,
                                  uc: UeContext, flag: bool, target: int)
    requires assoc !in s.gnbs.assocGnb
    ensures Step(s, OnN2(InitialUeEvent(assoc, ran, u))) == s
    ensures Step(s, OnN2(ReleaseCompleteEvent(assoc, ran, amf))) == s
    ensures Step(s, OnN2(HandoverAckEvent(assoc, ran, amf, flag))) == s
    ensures Step(s, OnN2(HandoverNotifyEvent(assoc, ran, amf, flag, uc))) == s
    ensures Step(s, OnN2(ResetInterfaceEvent(assoc))) == s
    ensures Step(s, OnN2(ResetPartEvent(assoc, items))) == s
    ensures Step(s, OnN2(ShutdownEvent(assoc))) == s
    ensures HandoverRequired(s, assoc, ran, amf, true, target, flag) == s
  {
  }

  // ---- UE associations ----

  /** The UE's NGAP context, built if the pair is not indexed, holds the RAN id and the association of the message. */
  lemma InitialUeStarts(s: Snapshot, assoc: int, ran: int, built: UeNgapContext)
    requires assoc in s.gnbs.assocGnb && GnbAt(s, assoc).state != Init
    ensures var s' := Step(s, OnN2(InitialUeEvent(assoc, ran, built)));
            var gnb := GnbAt(s, assoc).id;
            && PairLeads(s, s', ran, gnb, if ByPair(s, ran, gnb) == None then Some(built) else ByPair(s, ran, gnb))
            && var u := s'.ues.byRan[(ran, gnb)];
            && NgapOf(s', u).ran == ran && NgapOf(s', u).assoc == assoc
            && (ByPair(s, ran, gnb).Some? ==> NgapOf(s', u) == NgapOf(s, u).(ran := ran, assoc := assoc))
            && (ByPair(s, ran, gnb) == None ==>
                  NgapOf(s', u).amf == 0 && NgapOf(s', u).state == Invalid && NgapOf(s', u).ncc == 0)
            && OtherNgap(s, s', u)
            && s'.ues.byAmf == s.ues.byAmf && s'.app == s.app && s'.n1 == s.n1 && s'.gnbs == s.gnbs && s'.sent == s.sent
  {
  }

  lemma InitialUeRefused(s: Snapshot, assoc: int, ran: int, built: UeNgapContext)
    requires assoc in s.gnbs.assocGnb && GnbAt(s, assoc).state == Init
    ensures Step(s, OnN2(InitialUeEvent(assoc, ran, built))) == s
  {
  }

  /** The UE context under the ids names them and the gNB; the UE's NGAP context holds the AMF id and is found by it. */
  lemma EstablishBinds(s: Snapshot, ran: int, gnb: int, given: int, built: UeContext)
    ensures var s' := Step(s, OnApp(ran, gnb, given, built));
            var amf := if given == -1 then s.app.generator else given;
            && (ran, amf) in s'.app.keys && UeOf(s', s'.app.keys[(ran, amf)]) == UeRec(ran, amf, gnb)
            && s'.app.keys[(ran, amf)] == (if (ran, amf) in s.app.keys then s.app.keys[(ran, amf)] else built)
            && (forall k :: k != (ran, amf) ==> (k in s'.app.keys <==> k in s.app.keys))
            && (forall k <- s.app.keys :: s'.app.keys[k] == s.app.keys[k])
            && s'.app.generator == (if given != -1 then s.app.generator
                                    else if s.app.generator == 0xFFFF_FFFF then 0
                                    else (s.app.generator + 1) % 0x1_0000_0000)
            && s'.ues.byRan == s.ues.byRan && s'.sent == s.sent
            && match ByPair(s, ran, gnb) {
                 case None => s'.ues == s.ues
                 case Some(u) =>
                   && AmfLeads(s, s', amf, Some(u)) && NgapOf(s', u) == NgapOf(s, u).(amf := amf) && OtherNgap(s, s', u)
               }
  {
  }

  lemma EstablishKeepsOthers(s: Snapshot, ran: int, gnb: int, given: int, built: UeContext, uc: UeContext)
    requires uc != Establish(s, ran, gnb, given, built).app.keys[(ran, EstablishedAmf(s, given))]
    ensures UeOf(Step(s, OnApp(ran, gnb, given, built)), uc) == UeOf(s, uc)
  {
  }

  /**
    A downlink NAS message goes out exactly when the key leads to a UE whose association has a gNB: to that gNB,
    with the two ids as they came. The UE is then connected, and found, under the AMF id.
   */
  lemma DownlinkSends(s: Snapshot, ran: int, amf: int)
    ensures var s' := Step(s, OnN2(DlNasEvent(ran, amf)));
            match ByKey(s, ran, amf)
            case None => s' == s
            case Some(u) =>
              if NgapOf(s, u).assoc !in s.gnbs.assocGnb then s' == s
              else
                && |s'.sent| == |s.sent| + 1 && s'.sent[..|s.sent|] == s.sent
                && (var m := s'.sent[|s.sent|];
                    m.DownlinkNas? && m.amf == amf && m.ran == ran && m.assoc == GnbAt(s, NgapOf(s, u).assoc).assoc)
                && NgapOf(s', u).state == Connected && NgapOf(s', u).amf == amf && AmfLeads(s, s', amf, Some(u))
                && NgapOf(s', u) == NgapOf(s, u).(amf := amf, state := Connected) && OtherNgap(s, s', u)
                && s'.ues.byRan == s.ues.byRan && s'.app == s.app && s'.n1 == s.n1 && s'.gnbs == s.gnbs
  {
  }

  /** The release after a handover drops the source's entry and remembers the handover no more. */
  lemma ReleaseAfterHandover(s: Snapshot, assoc: int, ran: int, amf: int)
    requires (ran, amf) in s.app.keys && amf in s.ues.byAmf && assoc in s.gnbs.assocGnb
    requires var rec := NgapOf(s, s.ues.byAmf[amf]); rec.releaseCause == 2 && rec.releaseGnb == GnbAt(s, assoc).id
    ensures var s' := Step(s, OnN2(ReleaseCompleteEvent(assoc, ran, amf)));
            var u := s.ues.byAmf[amf];
            && PairLeads(s, s', ran, GnbAt(s, assoc).id, None)
            && NgapOf(s', u) == NgapOf(s, u).(releaseCause := 0) && OtherNgap(s, s', u)
            && s'.ues.byAmf == s.ues.byAmf && s'.app == s.app && s'.n1 == s.n1 && s'.gnbs == s.gnbs && s'.sent == s.sent
  {
  }

  /** The release is not that of a source after a handover, and there is a NAS context for it. */
  predicate Forgets(s: Snapshot, assoc: int, ran: int, amf: int) {
    && (ran, amf) in s.app.keys && amf in s.ues.byAmf && assoc in s.gnbs.assocGnb && amf in s.n1.nas
    && var rec := NgapOf(s, s.ues.byAmf[amf]);
    rec.releaseCause != 2 || rec.releaseGnb != GnbAt(s, assoc).id
  }

  /** Any other release drops both lookups. */
  lemma ReleaseForgets(s: Snapshot, assoc: int, ran: int, amf: int)
    requires Forgets(s, assoc, ran, amf)
    ensures var s' := Step(s, OnN2(ReleaseCompleteEvent(assoc, ran, amf)));
            && PairLeads(s, s', ran, GnbAt(s, assoc).id, None) && AmfLeads(s, s', amf, None)
            && s'.ues.ngap == s.ues.ngap && s'.app == s.app && s'.gnbs == s.gnbs && s'.sent == s.sent
  {
  }

  /** The UE goes idle if the AMF id is the one last recorded for its SUPI. */
  lemma ReleaseIdles(s: Snapshot, assoc: int, ran: int, amf: int)
    requires Forgets(s, assoc, ran, amf)
    ensures var n1 := Step(s, OnN2(ReleaseCompleteEvent(assoc, ran, amf))).n1;
            var n := s.n1.nas[amf];
            var supi := "imsi-" + NasOf(s, n).imsi;
            n1 == if (if supi in s.n1.supiAmf then s.n1.supiAmf[supi] == amf else amf == -1)
            then s.n1.(nc := s.n1.nc[n := NasOf(s, n).(idle := true)]) else s.n1
  {
    var n := s.n1.nas[amf];
    assert Supi(NasOf(s, n).imsi) == "imsi-" + NasOf(s, n).imsi;
    assert !AfterHandover(s, GnbAt(s, assoc).id, s.ues.byAmf[amf]);
    assert ReleaseComplete(s, assoc, ran, amf) == ReleaseUe(s, ran, GnbAt(s, assoc).id, amf);
  }

  lemma ReleaseIgnored(s: Snapshot, assoc: int, ran: int, amf: int)
    ensures (ran, amf) !in s.app.keys || amf !in s.ues.byAmf ==>
              Step(s, OnN2(ReleaseCompleteEvent(assoc, ran, amf))) == s
    ensures (ran, amf) in s.app.keys && amf in s.ues.byAmf && assoc in s.gnbs.assocGnb && amf !in s.n1.nas
            && (var rec := NgapOf(s, s.ues.byAmf[amf]); rec.releaseCause != 2 || rec.releaseGnb != GnbAt(s, assoc).id)
            ==> Step(s, OnN2(ReleaseCompleteEvent(assoc, ran, amf))) == s
  {
  }

  // ---- Handover ----

  lemma LeavingTwice(s: Snapshot, assoc: int, ran: int, amf: int, target: int, secured: bool)
    requires HandoverRoutable(s, assoc, ran, amf, true) && !HandoverPrepared(s, amf, target, secured)
    ensures var u := s.ues.byRan[(ran, GnbAt(s, assoc).id)];
            var rec := NgapOf(s, u).(assoc := assoc, state := Handover, ncc := (NgapOf(s, u).ncc + 2) % 256);
            HandoverRequiredTask(s, assoc, ran, amf, true, target, secured) ==
            Send(SetNgap(s, u, rec), PreparationFailure(assoc, amf, amf))
  {
    var first := HandoverRequired(s, assoc, ran, amf, true, target, secured);
    var u := s.ues.byRan[(ran, GnbAt(s, assoc).id)];
    assert NgapOf(first, u).amf == amf && first.gnbs == s.gnbs && first.ues.byRan == s.ues.byRan;
    assert ((NgapOf(s, u).ncc + 1) % 256 + 1) % 256 == (NgapOf(s, u).ncc + 2) % 256;
  }

  /** A Handover Required that finds the UE marks it as leaving, twice, even where it then fails. */
  lemma RequiredMarks(s: Snapshot, assoc: int, ran: int, amf: int, target: int, secured: bool)
    requires assoc in s.gnbs.assocGnb && (ran, GnbAt(s, assoc).id) in s.ues.byRan
    requires NgapOf(s, s.ues.byRan[(ran, GnbAt(s, assoc).id)]).amf == amf
    requires !secured || amf !in s.n1.nas || target !in s.gnbs.idGnb
    ensures var s' := Step(s, OnN2(HandoverRequiredEvent(assoc, ran, amf, true, target, secured)));
            var u := s.ues.byRan[(ran, GnbAt(s, assoc).id)];
            && NgapOf(s', u) == NgapOf(s, u).(assoc := assoc, state := Handover, ncc := (NgapOf(s, u).ncc + 2) % 256)
            && OtherNgap(s, s', u) && s'.ues.byRan == s.ues.byRan && s'.ues.byAmf == s.ues.byAmf
            && s'.sent == s.sent + [PreparationFailure(assoc, amf, amf)]
  {
    LeavingTwice(s, assoc, ran, amf, target, secured);
  }

  /** When it is accepted: the id pair leads to a UE of this AMF id within 5GS, secured, and the target is known. */
  lemma RequiredAccepted(s: Snapshot, assoc: int, ran: int, amf: int, intra: bool, target: int, secured: bool)
    ensures var s' := Step(s, OnN2(HandoverRequiredEvent(assoc, ran, amf, intra, target, secured)));
            |s'.sent| == |s.sent| + 2 <==>
            && assoc in s.gnbs.assocGnb && intra && secured && amf in s.n1.nas && target in s.gnbs.idGnb
            && match ByPair(s, ran, GnbAt(s, assoc).id) {
                 case None => false
                 case Some(u) => NgapOf(s, u).amf == amf
               }
  {
    if HandoverRoutable(s, assoc, ran, amf, intra) && HandoverPrepared(s, amf, target, secured) {
      PreparationRunsTwice(s, assoc, ran, amf, target);
    } else {
      PreparationFailureIds(s, assoc, ran, amf, intra, target, secured);
    }
  }

  /** A Request Ack gives the UE its RAN id at the target; the source is told if a session was admitted. */
  lemma AckAnswers(s: Snapshot, assoc: int, ran: int, amf: int, admitted: bool)
    requires assoc in s.gnbs.assocGnb
    ensures var s' := Step(s, OnN2(HandoverAckEvent(assoc, ran, amf, admitted)));
            match ByAmf(s, amf)
            case None => s' == s
            case Some(u) =>
              && NgapOf(s', u) == NgapOf(s, u).(targetRan := ran) && OtherNgap(s, s', u)
              && s'.sent == s.sent + (if admitted && NasUnder(s, amf).Some?
                                      then [HandoverCommand(NgapOf(s, u).assoc, amf, NgapOf(s, u).ran)] else [])
              && s'.ues.byRan == s.ues.byRan && s'.ues.byAmf == s.ues.byAmf && s'.app == s.app && s'.n1 == s.n1
  {
  }

  /** A Notify puts the UE's contexts on the target and has the source release it. */
  lemma NotifyMoves(s: Snapshot, assoc: int, ran: int, amf: int, uc: UeContext)
    requires assoc in s.gnbs.assocGnb && amf in s.ues.byAmf && amf in s.n1.nas
    ensures var s' := Step(s, OnN2(HandoverNotifyEvent(assoc, ran, amf, true, uc)));
            var u := s.ues.byAmf[amf];
            var gnb := GnbAt(s, assoc).id;
            && NgapOf(s', u) == NgapOf(s, u).(ran := ran, assoc := assoc, targetRan := 0, state := Connected,
                                releaseCause := 2, releaseGnb := gnb)
            && PairLeads(s, s', ran, gnb, Some(u))
            && (ran, amf) in s'.app.keys && UeOf(s', s'.app.keys[(ran, amf)]) == UeRec(ran, amf, gnb)
            && s'.app.keys[(ran, amf)] == (if (ran, amf) in s.app.keys then s.app.keys[(ran, amf)] else uc)
            && NasOf(s', s.n1.nas[amf]) == NasOf(s, s.n1.nas[amf]).(ran := ran)
            && OtherNgap(s, s', u) && OtherNas(s, s', s.n1.nas[amf]) && s'.ues.byAmf == s.ues.byAmf
            && s'.n1.nas == s.n1.nas && s'.app.generator == s.app.generator && s'.gnbs == s.gnbs
  {
  }

  lemma NotifyIgnored(s: Snapshot, assoc: int, ran: int, amf: int, located: bool, uc: UeContext)
    requires !located || ByAmf(s, amf) == None || NasUnder(s, amf) == None
    ensures Step(s, OnN2(HandoverNotifyEvent(assoc, ran, amf, located, uc))) == s
  {
  }

  // ---- NAS contexts ----

  /** The AMF id leads to this NAS context now, and other AMF ids to what they led to. */
  ghost predicate NasLeads(s: Snapshot, s': Snapshot, amf: int, to: Option<NasContext>) {
    forall a :: NasUnder(s', a) == if a == amf then to else NasUnder(s, a)
  }

  /** The SUPI leads to this NAS context and both ids now, and other SUPIs to what they led to. */
  ghost predicate SupiLeads(s: Snapshot, s': Snapshot, supi: string, n: NasContext, ran: int, amf: int) {
    && NasOfSupi(s', supi) == Some(n) && (forall p :: p != supi ==> NasOfSupi(s', p) == NasOfSupi(s, p))
    && s'.n1.supiRan == s.n1.supiRan[supi := ran] && s'.n1.supiAmf == s.n1.supiAmf[supi := amf]
  }

  /**
    An uplink message with a known GUTI finds the UE's context by it: the context takes the new ids, keeps the old
    ones aside, and is found by the new AMF id and by its SUPI.
   */
  lemma UplinkUsesGuti(s: Snapshot, ran: int, amf: int, guti: string, readable: bool, establishing: bool, n: NasContext)
    requires guti in s.n1.gutiNas
    ensures var s' := Step(s, OnN1(UplinkNasEvent(ran, amf, Some(guti), readable, establishing, n)));
            var m := s.n1.gutiNas[guti];
            var rec := NasOf(s, m);
            && NasOf(s', m) == NasRec(ran, amf, rec.ran, rec.amf, rec.imsi, Some(guti), rec.idle) && OtherNas(s, s', m)
            && NasLeads(s, s', amf, Some(m)) && SupiLeads(s, s', "imsi-" + rec.imsi, m, ran, amf)
            && s'.n1.gutiNas == s.n1.gutiNas && s'.ues == s.ues && s'.app == s.app
  {
  }

  /** Otherwise one that establishes a connection, and can be read, gets a context where its identity has none. */
  lemma UplinkIntroduces(s: Snapshot, ran: int, amf: int, guti: Option<string>, readable: bool, establishing: bool,
                         n: NasContext)
    requires guti.Some? ==> guti.value !in s.n1.gutiNas
    ensures var s' := Step(s, OnN1(UplinkNasEvent(ran, amf, guti, readable, establishing, n)));
            if readable && establishing && (guti.Some? || amf !in s.n1.nas) then
              && NasOf(s', n) == NasRec(ran, amf, 0, -1, "", None, false) && OtherNas(s, s', n)
              && NasLeads(s, s', amf, Some(n)) && s' == s.(n1 := s.n1.(nas := s'.n1.nas, nc := s'.n1.nc))
            else s' == s
  {
    var s' := UplinkNas(s, ran, amf, guti, readable, establishing, n);
    if !(readable && establishing && (guti.Some? || amf !in s.n1.nas)) {
      assert s'.n1.nas == s.n1.nas;
    }
  }

  /** A Registration Request gives the UE's context its ids, and with a SUCI the IMSI under which it is then found. */
  lemma RegistrationRecords(s: Snapshot, ran: int, amf: int, imsi: Option<string>)
    ensures var s' := Step(s, OnN1(RegistrationEvent(ran, amf, imsi)));
            if amf !in s.n1.nas || (ran, amf) !in s.app.keys then s' == s
            else
              var n := s.n1.nas[amf];
              && NasOf(s', n) == NasOf(s, n).(ran := ran, amf := amf,
                                 imsi := if imsi.Some? then imsi.value else NasOf(s, n).imsi)
              && OtherNas(s, s', n) && s'.n1.nas == s.n1.nas && s'.n1.gutiNas == s.n1.gutiNas
              && (if imsi.Some? then SupiLeads(s, s', "imsi-" + imsi.value, n, ran, amf)
                  else s' == s.(n1 := s.n1.(nc := s'.n1.nc)))
  {
  }

  /** An Identity Response gives the UE's context, built if there is none, its ids and the IMSI, and connects it. */
  lemma IdentityRecords(s: Snapshot, ran: int, amf: int, imsi: string, built: NasContext)
    ensures var s' := Step(s, OnN1(IdentityEvent(ran, amf, imsi, built)));
            var n := if amf in s.n1.nas then s.n1.nas[amf] else built;
            && NasLeads(s, s', amf, Some(n)) && OtherNas(s, s', n)
            && NasOf(s', n) == (if amf in s.n1.nas
                                then NasOf(s, n).(ran := ran, amf := amf, imsi := imsi, idle := false)
                                else NasRec(ran, amf, 0, -1, imsi, None, false))
            && s'.n1.supiRan == s.n1.supiRan["imsi-" + imsi := ran]
            && s'.n1.supiAmf == s.n1.supiAmf["imsi-" + imsi := amf]
            && s'.n1.supiNas == s.n1.supiNas && s'.n1.gutiNas == s.n1.gutiNas && s'.ues == s.ues && s'.app == s.app
  {
  }

  /** A Security Mode Complete makes the UE's context found by the GUTI assigned to it, and by no other new one. */
  lemma SecurityModeAssigns(s: Snapshot, ran: int, amf: int, guti: Option<string>)
    ensures var s' := Step(s, OnN1(SecurityModeCompleteEvent(ran, amf, guti)));
            if guti.Some? && (ran, amf) in s.app.keys && amf in s.n1.nas then
              && NasOfGuti(s', guti.value) == Some(s.n1.nas[amf])
              && (forall g :: g != guti.value ==> NasOfGuti(s', g) == NasOfGuti(s, g))
              && s' == s.(n1 := s.n1.(gutiNas := s'.n1.gutiNas))
            else s' == s
  {
  }

  /** A Service Request by a context without a GUTI takes the IMSI and the ids over from the one the GUTI leads to. */
  lemma ServiceTakesOver(s: Snapshot, ran: int, amf: int, guti: Option<string>, secured: bool)
    ensures var s' := Step(s, OnN1(ServiceRequestEvent(ran, amf, guti, secured)));
            if amf !in s.n1.nas || (ran, amf) !in s.app.keys then s' == s
            else
              var n := s.n1.nas[amf];
              var takes := NasOf(s, n).guti == None && guti.Some? && guti.value in s.n1.gutiNas;
              && (takes ==>
                    var older := NasOf(s, s.n1.gutiNas[guti.value]);
                    && NasOf(s', n).imsi == older.imsi && NasOf(s', n).oldRan == older.ran
                    && NasOf(s', n).oldAmf == older.amf)
              && NasOf(s', n) == NasOf(s, n).(imsi := NasOf(s', n).imsi, oldRan := NasOf(s', n).oldRan,
                                 oldAmf := NasOf(s', n).oldAmf)
              && (!takes ==> NasOf(s', n) == NasOf(s, n)) && OtherNas(s, s', n)
              && s'.n1.supiRan == (if secured then s.n1.supiRan["imsi-" + NasOf(s', n).imsi := ran] else s.n1.supiRan)
              && s'.n1.supiAmf == (if secured then s.n1.supiAmf["imsi-" + NasOf(s', n).imsi := amf] else s.n1.supiAmf)
              && s'.n1.nas == s.n1.nas && s'.n1.supiNas == s.n1.supiNas && s'.n1.gutiNas == s.n1.gutiNas
  {
  }

  /** A deregistration forgets the UE's context by AMF id, SUPI and GUTI, if its own ids have a UE context. */
  lemma DeregistrationForgets(s: Snapshot, amf: int, guti: string)
    ensures var s' := Step(s, OnN1(DeregisterEvent(amf, guti)));
            match NasUnder(s, amf)
            case None => s' == s
            case Some(n) =>
              var rec := NasOf(s, n);
              if (rec.ran, rec.amf) !in s.app.keys then s' == s
              else
                && NasLeads(s, s', amf, None)
                && (forall p :: NasOfSupi(s', p) == if p == "imsi-" + rec.imsi then None else NasOfSupi(s, p))
                && (forall g :: NasOfGuti(s', g) == if g == guti then None else NasOfGuti(s, g))
                && s'.n1.nc == s.n1.nc && s'.n1.supiAmf == s.n1.supiAmf && s'.n1.supiRan == s.n1.supiRan
                && s'.ues == s.ues && s'.app == s.app
  {
  }
}
