/** A UE that attaches again with its GUTI leaves one NAS context under two AMF ids, and a handover can miss it. */
module IndexReattach {
  import opened Wrappers
  import opened Contexts
  import opened UeIndexSpec
  import opened IndexRuns
  import opened IndexRouting

  lemma {:induction false} DisciplinedInTwoParts(s: Snapshot, es: seq<Event>, es': seq<Event>)
    requires DisciplinedThroughout(s, es) && DisciplinedThroughout(Run(s, es), es')
    ensures DisciplinedThroughout(s, es + es')
    decreases |es|
  {
    if es == [] {
      assert es + es' == es';
    } else {
      assert (es + es')[0] == es[0] && (es + es')[1..] == es[1..] + es';
      DisciplinedInTwoParts(Step(s, es[0]), es[1..], es');
    }
  }

  lemma DisciplinedTwo(s: Snapshot, e: Event, e': Event)
    requires Disciplined(s, e) && Disciplined(Step(s, e), e')
    ensures DisciplinedThroughout(s, [e, e'])
  {
    assert [e, e'][1..] == [e'] && [e'][1..] == [];
    assert DisciplinedThroughout(Step(Step(s, e), e'), []);
    assert DisciplinedThroughout(Step(s, e), [e']);
  }

  /** The UE registers, and a GUTI is assigned to it. */
  function Register(ran: int, amf: int, guti: string, n: NasContext): seq<Event> {
    [OnN1(UplinkNasEvent(ran, amf, None, true, true, n)), OnN1(SecurityModeCompleteEvent(ran, amf, Some(guti)))]
  }

  ghost predicate NoNas(s: Snapshot) {
    s.n1.nas == map[] && s.n1.gutiNas == map[]
  }

  /** What the first registration leaves, as far as the second one depends on it. */
  ghost predicate Registered(s: Snapshot, assoc: int, gnb: int, ran: int, u: UeNgapContext, uc: UeContext, guti: string,
                             n: NasContext)
  {
    && ReadyGnb(s, assoc, gnb) && s.app.generator == 2 && s.ues.byRan == map[(ran, gnb) := u]
    && ByAmf(s, 1) == Some(u) && s.app.keys == map[(ran, 1) := uc] && KeyGnb(s, ran, 1) == Some(gnb)
    && s.n1.nas == map[1 := n] && guti in s.n1.gutiNas && s.n1.gutiNas[guti] == n
  }

  lemma FirstRegistration(s: Snapshot, assoc: int, gnb: int, ran: int, u: UeNgapContext, uc: UeContext, guti: string,
                          n: NasContext)
    requires NoUe(s) && NoNas(s) && ReadyGnb(s, assoc, gnb)
    ensures Registered(Run(s, Attach(assoc, gnb, ran, u, uc) + Register(ran, 1, guti, n)),
                       assoc, gnb, ran, u, uc, guti, n)
    ensures DisciplinedThroughout(s, Attach(assoc, gnb, ran, u, uc) + Register(ran, 1, guti, n))
  {
    var attach := Attach(assoc, gnb, ran, u, uc);
    var register := Register(ran, 1, guti, n);
    var s2 := Run(s, attach);
    FirstAttach(s, assoc, gnb, ran, u, uc);
    DisciplinedTwo(s, attach[0], attach[1]);
    RegisterAfterAttach(s2, assoc, gnb, ran, u, uc, guti, n);
    DisciplinedTwo(s2, register[0], register[1]);
    RunOfBoth(s, attach, register);
    DisciplinedInTwoParts(s, attach, register);
  }

  /** The uplink message indexes the new NAS context, the Security Mode Complete its GUTI. */
  lemma RegisterIndexes(s: Snapshot, ran: int, amf: int, guti: string, n: NasContext)
    requires NoNas(s) && (ran, amf) in s.app.keys
    ensures var s' := SecurityModeComplete(UplinkNas(s, ran, amf, None, true, true, n), ran, amf, Some(guti));
            && s'.ues == s.ues && s'.app == s.app && s'.gnbs == s.gnbs
            && s'.n1.nas == map[amf := n] && guti in s'.n1.gutiNas && s'.n1.gutiNas[guti] == n
  {
    UplinkNasKeepsLinks(s, ran, amf, None, true, true, n);
  }

  lemma RegisterAfterAttach(s: Snapshot, assoc: int, gnb: int, ran: int, u: UeNgapContext, uc: UeContext, guti: string,
                            n: NasContext)
    requires ReadyGnb(s, assoc, gnb) && s.app.generator == 2 && s.ues.byRan == map[(ran, gnb) := u] && NoNas(s)
    requires ByAmf(s, 1) == Some(u) && s.app.keys == map[(ran, 1) := uc] && KeyGnb(s, ran, 1) == Some(gnb)
    ensures Registered(Run(s, Register(ran, 1, guti, n)), assoc, gnb, ran, u, uc, guti, n)
  {
    var register := Register(ran, 1, guti, n);
    RunOfTwo(s, register[0], register[1]);
    RegisterIndexes(s, ran, 1, guti, n);
  }

  lemma InitialUeKeepsTheRest(s: Snapshot, assoc: int, ran: int, u: UeNgapContext)
    ensures var s' := InitialUe(s, assoc, ran, u);
            s'.app == s.app && s'.n1 == s.n1 && s'.gnbs == s.gnbs && s'.ues.byAmf == s.ues.byAmf
  {
  }

  lemma EstablishAddsOneKey(s: Snapshot, ran: int, gnb: int, uc: UeContext)
    requires s.app.generator == 2 && (ran, 2) !in s.app.keys
    ensures var s' := Establish(s, ran, gnb, INVALID_AMF_UE_NGAP_ID, uc);
            && s'.app.keys == s.app.keys[(ran, 2) := uc] && s'.n1 == s.n1
            && s'.gnbs == s.gnbs && ByAmf(s', 1) == ByAmf(s, 1)
  {
  }

  /** The same UE attaches under another RAN id. */
  lemma SecondUe(s: Snapshot, assoc: int, gnb: int, ran: int, u: UeNgapContext, uc: UeContext, guti: string,
                 n: NasContext, ran': int, u': UeNgapContext, uc': UeContext)
    requires Registered(s, assoc, gnb, ran, u, uc, guti, n) && ran' != ran && uc' != uc
    ensures var s' := Run(s, Attach(assoc, gnb, ran', u', uc'));
            && ReadyGnb(s', assoc, gnb) && ByAmf(s', 1) == Some(u) && s'.n1 == s.n1
            && s'.app.keys == map[(ran, 1) := uc, (ran', 2) := uc']
  {
    var attach := Attach(assoc, gnb, ran', u', uc');
    RunOfTwo(s, attach[0], attach[1]);
    InitialUeKeepsTheRest(s, assoc, ran', u');
    EstablishAddsOneKey(InitialUe(s, assoc, ran', u'), ran', gnb, uc');
  }

  lemma SecondUeIsDisciplined(s: Snapshot, assoc: int, gnb: int, ran: int, u: UeNgapContext, uc: UeContext,
                              guti: string, n: NasContext, ran': int, u': UeNgapContext, uc': UeContext)
    requires Registered(s, assoc, gnb, ran, u, uc, guti, n) && ran' != ran && uc' != uc
    ensures DisciplinedThroughout(s, Attach(assoc, gnb, ran', u', uc'))
  {
    var attach := Attach(assoc, gnb, ran', u', uc');
    DisciplinedTwo(s, attach[0], attach[1]);
  }

  /** It registers with the GUTI it was assigned. */
  lemma RegisterAgain(s: Snapshot, ran: int, amf: int, guti: string, n: NasContext, n': NasContext)
    requires guti in s.n1.gutiNas && s.n1.gutiNas[guti] == n && s.n1.nas == map[1 := n] && amf != 1
    ensures var s' := UplinkNas(s, ran, amf, Some(guti), true, true, n');
            && s'.ues == s.ues && s'.app == s.app && s'.gnbs == s.gnbs
            && 1 in s'.n1.nas && s'.n1.nas[1] == n && NasOf(s', n).amf == amf
  {
    UplinkNasKeepsLinks(s, ran, amf, Some(guti), true, true, n');
  }

  function Reattachment(assoc: int, gnb: int, ran: int, u: UeNgapContext, uc: UeContext, guti: string, n: NasContext,
                        ran': int, u': UeNgapContext, uc': UeContext, n': NasContext): seq<Event>
  {
    Attach(assoc, gnb, ran, u, uc) + Register(ran, 1, guti, n) + Again(assoc, gnb, ran', u', uc', guti, n')
  }

  function Again(assoc: int, gnb: int, ran: int, u: UeNgapContext, uc: UeContext, guti: string, n: NasContext)
    : seq<Event>
  {
    Attach(assoc, gnb, ran, u, uc) + [OnN1(UplinkNasEvent(ran, 2, Some(guti), true, true, n))]
  }

  /** One NAS context is indexed under both AMF ids and holds the second. */
  ghost predicate UnderTwoIds(s: Snapshot, assoc: int, ran: int, u: UeNgapContext, ran': int, n: NasContext) {
    && assoc in s.gnbs.assocGnb && ByAmf(s, 1) == Some(u) && s.app.keys.Keys == {(ran, 1), (ran', 2)}
    && 1 in s.n1.nas && s.n1.nas[1] == n && NasOf(s, n).amf == 2
  }

  /** The run is a disciplined one, from the start of the AMF. */
  lemma ReattachmentRuns(s: Snapshot, assoc: int, gnb: int, ran: int, u: UeNgapContext, uc: UeContext, guti: string,
                         n: NasContext, ran': int, u': UeNgapContext, uc': UeContext, n': NasContext)
    requires NoUe(s) && NoNas(s) && ReadyGnb(s, assoc, gnb) && ran' != ran && uc' != uc
    ensures DisciplinedThroughout(s, Reattachment(assoc, gnb, ran, u, uc, guti, n, ran', u', uc', n'))
    ensures UnderTwoIds(Run(s, Reattachment(assoc, gnb, ran, u, uc, guti, n, ran', u', uc', n')),
                        assoc, ran, u, ran', n)
  {
    var first := Attach(assoc, gnb, ran, u, uc) + Register(ran, 1, guti, n);
    var s4 := Run(s, first);
    FirstRegistration(s, assoc, gnb, ran, u, uc, guti, n);
    ReattachmentEnds(s4, assoc, gnb, ran, u, uc, guti, n, ran', u', uc', n');
    RunOfBoth(s, first, Again(assoc, gnb, ran', u', uc', guti, n'));
    DisciplinedInTwoParts(s, first, Again(assoc, gnb, ran', u', uc', guti, n'));
  }

  lemma ReattachmentEnds(s: Snapshot, assoc: int, gnb: int, ran: int, u: UeNgapContext, uc: UeContext, guti: string,
                         n: NasContext, ran': int, u': UeNgapContext, uc': UeContext, n': NasContext)
    requires Registered(s, assoc, gnb, ran, u, uc, guti, n) && ran' != ran && uc' != uc
    ensures DisciplinedThroughout(s, Again(assoc, gnb, ran', u', uc', guti, n'))
    ensures UnderTwoIds(Run(s, Again(assoc, gnb, ran', u', uc', guti, n')), assoc, ran, u, ran', n)
  {
    var attach := Attach(assoc, gnb, ran', u', uc');
    var uplink := OnN1(UplinkNasEvent(ran', 2, Some(guti), true, true, n'));
    var s2 := Run(s, attach);
    SecondUe(s, assoc, gnb, ran, u, uc, guti, n, ran', u', uc');
    SecondUeIsDisciplined(s, assoc, gnb, ran, u, uc, guti, n, ran', u', uc');
    RegisterAgain(s2, ran', 2, guti, n, n');
    RunOfOne(s2, uplink);
    RunOfBoth(s, attach, [uplink]);
    DisciplinedInTwoParts(s, attach, [uplink]);
  }

  /**
    After it, a Handover Notify for the first AMF id is accepted although the NAS context holds the second. The
    lookup with the ids the NAS context then holds fails, so that a downlink message addressed with them is dropped,
    while the lookup with the message's ids succeeds.
   */
  lemma HandoverMissesReattachedUe(s: Snapshot, assoc: int, gnb: int, ran: int, u: UeNgapContext, uc: UeContext,
                                   guti: string, n: NasContext, ran': int, u': UeNgapContext, uc': UeContext,
                                   n': NasContext, target: int, uc'': UeContext)
    requires NoUe(s) && NoNas(s) && ReadyGnb(s, assoc, gnb) && ran' != ran && uc' != uc && target !in {ran, ran'}
    ensures var es := Reattachment(assoc, gnb, ran, u, uc, guti, n, ran', u', uc', n');
            var s1 := Run(s, es);
            && DisciplinedThroughout(s, es) && NotifyAccepted(s1, assoc, 1, true)
            && var s2 := HandoverNotify(s1, assoc, target, 1, true, uc'');
            && NasOf(s2, n).ran == target && NasOf(s2, n).amf == 2
            && ByKey(s2, target, 1) == Some(u) && ByKey(s2, target, 2) == None && DlNas(s2, target, 2) == s2
  {
    ReattachmentRuns(s, assoc, gnb, ran, u, uc, guti, n, ran', u', uc', n');
    var s1 := Run(s, Reattachment(assoc, gnb, ran, u, uc, guti, n, ran', u', uc', n'));
    NotifyMisses(s1, assoc, ran, u, ran', n, target, uc'');
  }

  lemma NotifyMisses(s: Snapshot, assoc: int, ran: int, u: UeNgapContext, ran': int, n: NasContext, target: int,
                     uc: UeContext)
    requires UnderTwoIds(s, assoc, ran, u, ran', n) && target != ran'
    ensures NotifyAccepted(s, assoc, 1, true)
    ensures var s' := HandoverNotify(s, assoc, target, 1, true, uc);
            && NasOf(s', n).ran == target && NasOf(s', n).amf == 2
            && ByKey(s', target, 1) == Some(u) && ByKey(s', target, 2) == None
  {
    NotifyMovesTheUe(s, assoc, target, 1, uc);
    NotifyAddsOneKey(s, assoc, target, 1, uc);
  }

  lemma RunOfOne(s: Snapshot, e: Event)
    ensures Run(s, [e]) == Step(s, e)
    ensures e.OnN1? ==> DisciplinedThroughout(s, [e])
  {
    assert [e][1..] == [];
    assert Run(Step(s, e), []) == Step(s, e);
  }

  lemma NotifyAddsOneKey(s: Snapshot, assoc: int, ran: int, amf: int, uc: UeContext)
    requires NotifyAccepted(s, assoc, amf, true)
    ensures forall k <- HandoverNotify(s, assoc, ran, amf, true, uc).app.keys :: k in s.app.keys || k == (ran, amf)
  {
  }
}
