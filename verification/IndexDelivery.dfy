/** On which association downlink messages go out: over runs in general, and to a UE that has been handed over. */
module IndexDelivery {
  import opened Wrappers
  import opened Contexts
  import opened UeIndexSpec
  import opened IndexAgreement
  import opened IndexRuns
  import opened IndexHandover
  import opened IndexRouting
  import opened IndexEffects

  // ---- The gNB of an association ----

  /** Each association has a gNB context of its own, which holds the association's number. */
  ghost predicate Addressed(s: Snapshot) {
    && (forall a <- s.gnbs.assocGnb :: GnbAt(s, a).assoc == a)
    && (forall a <- s.gnbs.assocGnb, b <- s.gnbs.assocGnb ::
          s.gnbs.assocGnb[a] == s.gnbs.assocGnb[b] ==> a == b)
  }

  /** Associations and the numbers their gNBs hold stay. */
  ghost predicate SameAddresses(s: Snapshot, s': Snapshot) {
    && s'.gnbs.assocGnb == s.gnbs.assocGnb
    && forall a <- s.gnbs.assocGnb :: GnbAt(s', a).assoc == GnbAt(s, a).assoc
  }

  lemma ReleaseKeepsGnbs(s: Snapshot, assoc: int, ran: int, amf: int)
    ensures ReleaseComplete(s, assoc, ran, amf).gnbs == s.gnbs
  {
  }

  lemma PreparationKeepsGnbs(s: Snapshot, assoc: int, ran: int, amf: int, intra: bool, target: int, secured: bool)
    ensures HandoverRequired(s, assoc, ran, amf, intra, target, secured).gnbs == s.gnbs
  {
  }

  lemma SetupKeepsAddresses(s: Snapshot, assoc: int, setup: Setup)
    ensures SameAddresses(s, NgSetup(s, assoc, setup))
  {
    if assoc in s.gnbs.assocGnb && setup != NoGnbId {
      SetupTakesId(s, assoc, setup);
    }
  }

  lemma MarkKeepsAddresses(s: Snapshot, s': Snapshot, assoc: int, state: GnbState)
    requires assoc in s.gnbs.assocGnb
    requires s'.gnbs == Mark(s, assoc, state).gnbs.(idGnb := s'.gnbs.idGnb)
    ensures SameAddresses(s, s')
  {
  }

  lemma ResetKeepsAddresses(s: Snapshot, assoc: int)
    ensures SameAddresses(s, ResetInterface(s, assoc))
  {
    if assoc in s.gnbs.assocGnb {
      RemovalKeepsGnbs(s, assoc, Resetting);
      MarkKeepsAddresses(s, ResetInterface(s, assoc), assoc, Resetting);
    }
  }

  lemma ResetPartKeepsAddresses(s: Snapshot, assoc: int, items: seq<ResetItem>)
    ensures SameAddresses(s, ResetPart(s, assoc, items))
  {
    if assoc in s.gnbs.assocGnb {
      ResetItemsShrinks(Mark(s, assoc, Resetting), items, GnbAt(s, assoc).id);
      MarkKeepsAddresses(s, ResetPart(s, assoc, items), assoc, Resetting);
    }
  }

  lemma ShutdownKeepsAddresses(s: Snapshot, assoc: int)
    ensures SameAddresses(s, ShutdownAssoc(s, assoc))
  {
    if assoc in s.gnbs.assocGnb {
      RemovalKeepsGnbs(s, assoc, Shutdown);
      MarkKeepsAddresses(s, ShutdownAssoc(s, assoc), assoc, Shutdown);
    }
  }

  lemma TaskKeepsGnbs(s: Snapshot, assoc: int, ran: int, amf: int, intra: bool, target: int, secured: bool)
    ensures HandoverRequiredTask(s, assoc, ran, amf, intra, target, secured).gnbs == s.gnbs
  {
    var first := HandoverRequired(s, assoc, ran, amf, intra, target, secured);
    PreparationKeepsGnbs(s, assoc, ran, amf, intra, target, secured);
    PreparationKeepsGnbs(first, assoc, ran, amf, intra, target, secured);
  }

  lemma SameGnbsSameAddresses(s: Snapshot, s': Snapshot)
    requires s'.gnbs == s.gnbs
    ensures SameAddresses(s, s')
  {
  }

  lemma N2StepKeepsAddresses(s: Snapshot, e: N2Event)
    requires !e.AssociationEvent?
    ensures SameAddresses(s, N2Step(s, e))
  {
    match e
    case NgSetupEvent(assoc, setup) => SetupKeepsAddresses(s, assoc, setup);
    case ResetInterfaceEvent(assoc) => ResetKeepsAddresses(s, assoc);
    case ResetPartEvent(assoc, items) => ResetPartKeepsAddresses(s, assoc, items);
    case ShutdownEvent(assoc) => ShutdownKeepsAddresses(s, assoc);
    case _ =>
      UeMessagesKeepGnbs(s, e);
      SameGnbsSameAddresses(s, N2Step(s, e));
  }

  /** The messages that concern one UE. */
  predicate ForUe(e: N2Event) {
    match e
    case InitialUeEvent(_, _, _) => true
    case DlNasEvent(_, _) => true
    case ReleaseCompleteEvent(_, _, _) => true
    case HandoverRequiredEvent(_, _, _, _, _, _) => true
    case HandoverAckEvent(_, _, _, _) => true
    case HandoverNotifyEvent(_, _, _, _, _) => true
    case _ => false
  }

  lemma UeMessagesKeepGnbs(s: Snapshot, e: N2Event)
    requires ForUe(e)
    ensures N2Step(s, e).gnbs == s.gnbs
  {
    match e
    case InitialUeEvent(assoc, ran, u) =>
    case DlNasEvent(ran, amf) =>
    case ReleaseCompleteEvent(assoc, ran, amf) => ReleaseKeepsGnbs(s, assoc, ran, amf);
    case HandoverRequiredEvent(assoc, ran, amf, intra, target, secured) =>
      TaskKeepsGnbs(s, assoc, ran, amf, intra, target, secured);
    case HandoverAckEvent(assoc, ran, amf, admitted) =>
    case HandoverNotifyEvent(assoc, ran, amf, located, uc) =>
  }

  /** Each message keeps the numbers right and forgets no association. */
  lemma StepKeepsAddressed(s: Snapshot, e: Event)
    requires Addressed(s) && Allocates(s, e)
    ensures Addressed(Step(s, e)) && s.gnbs.assocGnb.Keys <= Step(s, e).gnbs.assocGnb.Keys
  {
    match e
    case OnN2(AssociationEvent(assoc, g)) => AssociationKeepsAddressed(s, assoc, g);
    case OnN2(e2) => N2StepKeepsAddresses(s, e2);
    case OnApp(ran, gnb, given, uc) =>
    case OnN1(e1) => N1KeepsLinks(s, e1);
  }

  lemma AssociationKeepsAddressed(s: Snapshot, assoc: int, g: GnbContext)
    requires Addressed(s) && g !in s.gnbs.assocGnb.Values
    ensures Addressed(NewAssociation(s, assoc, g))
    ensures s.gnbs.assocGnb.Keys <= NewAssociation(s, assoc, g).gnbs.assocGnb.Keys
  {
    var s' := NewAssociation(s, assoc, g);
    assert forall a <- s.gnbs.assocGnb :: s.gnbs.assocGnb[a] in s.gnbs.assocGnb.Values;
    forall a | a in s'.gnbs.assocGnb ensures GnbAt(s', a).assoc == a {
      if a != assoc {
        assert s'.gnbs.assocGnb[a] == s.gnbs.assocGnb[a];
      }
    }
  }

  lemma {:induction false} RunKeepsAddressed(s: Snapshot, es: seq<Event>)
    requires Addressed(s) && Allocating(s, es)
    ensures Addressed(Run(s, es)) && s.gnbs.assocGnb.Keys <= Run(s, es).gnbs.assocGnb.Keys
    decreases |es|
  {
    if es == [] {
    } else {
      StepKeepsAddressed(s, es[0]);
      RunKeepsAddressed(Step(s, es[0]), es[1..]);
    }
  }

  // ---- Downlink messages ----

  /** The message goes out on the association of the UE that its key leads to, with the ids it came with. */
  lemma DownlinkReaches(s: Snapshot, ran: int, amf: int, u: UeNgapContext)
    requires Addressed(s) && ByKey(s, ran, amf) == Some(u) && NgapOf(s, u).assoc in s.gnbs.assocGnb
    ensures DlNas(s, ran, amf).sent == s.sent + [DownlinkNas(NgapOf(s, u).assoc, amf, ran)]
  {
    DownlinkSends(s, ran, amf);
    var s' := DlNas(s, ran, amf);
    assert s'.sent == s'.sent[..|s.sent|] + [s'.sent[|s.sent|]];
  }

  /** Right after a Notify it goes to the target with the ids of the NAS context, if these lead to the UE. */
  lemma DownlinkAfterNotify(s: Snapshot, assoc: int, ran: int, amf: int, uc: UeContext)
    requires NotifyAccepted(s, assoc, amf, true) && KeysApart(s) && uc !in s.app.keys.Values && Addressed(s)
    ensures var s' := HandoverNotify(s, assoc, ran, amf, true, uc);
            && amf in s'.n1.nas
            && var rec := NasOf(s', s'.n1.nas[amf]);
            && rec.ran == ran
            && (OwnIdLeads(s, assoc, ran, amf) ==>
                  DlNas(s', rec.ran, rec.amf).sent == s'.sent + [DownlinkNas(assoc, rec.amf, ran)])
  {
    var s' := HandoverNotify(s, assoc, ran, amf, true, uc);
    var e := OnN2(HandoverNotifyEvent(assoc, ran, amf, true, uc));
    NotifyMovesTheUe(s, assoc, ran, amf, uc);
    NasIdsReachTheUe(s, assoc, ran, amf, uc);
    StepKeepsAddressed(s, e);
    if OwnIdLeads(s, assoc, ran, amf) {
      DownlinkReaches(s', ran, NasOf(s', s'.n1.nas[amf]).amf, s.ues.byAmf[amf]);
    }
  }

  /**
    And so it does over any later disciplined run with the new RAN id and the AMF id of the Notify, until the key's
    entry is removed or a message gives the UE other ids.
   */
  lemma DownlinkAfterwards(s: Snapshot, assoc: int, ran: int, amf: int, uc: UeContext, es: seq<Event>)
    requires NotifyAccepted(s, assoc, amf, true) && Started(s) && Addressed(s)
    requires var e := OnN2(HandoverNotifyEvent(assoc, ran, amf, true, uc));
             Allocates(s, e) && Disciplined(s, e) && Allocating(Step(s, e), es) && DisciplinedThroughout(Step(s, e), es)
    requires var s1 := HandoverNotify(s, assoc, ran, amf, true, uc);
             SparedThroughout(s1, es, ByKeyOf(ran), amf) && NeverAnchors(s1, es, s.ues.byAmf[amf])
    ensures var s2 := Run(HandoverNotify(s, assoc, ran, amf, true, uc), es);
            DlNas(s2, ran, amf).sent == s2.sent + [DownlinkNas(assoc, amf, ran)]
  {
    var e := OnN2(HandoverNotifyEvent(assoc, ran, amf, true, uc));
    var s1 := Step(s, e);
    RoutesAfterwards(s, assoc, ran, amf, uc, es);
    StepKeepsAddressed(s, e);
    RunKeepsAddressed(s1, es);
    DownlinkReaches(Run(s1, es), ran, amf, s.ues.byAmf[amf]);
  }
}
