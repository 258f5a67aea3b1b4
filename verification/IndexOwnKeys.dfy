/**
  When every NGAP context is indexed under its own RAN id and the gNB of its association, and under nothing
  else: which messages keep this, and over which runs it holds all along.
 */
module IndexOwnKeys {
  import opened LexOrder
  import opened Contexts
  import opened UeIndexSpec

  ghost predicate OwnEntry(s: Snapshot, k: Pair) {
    k in s.ues.byRan ==>
      var rec := NgapOf(s, s.ues.byRan[k]);
      rec.ran == k.0 && rec.assoc in s.gnbs.assocGnb && GnbAt(s, rec.assoc).id == k.1
  }

  ghost predicate Own(s: Snapshot) {
    forall k :: OwnEntry(s, k)
  }

  ghost predicate SameServing(s: Snapshot, s': Snapshot, u: UeNgapContext) {
    NgapOf(s', u).ran == NgapOf(s, u).ran && NgapOf(s', u).assoc == NgapOf(s, u).assoc
  }

  /** Entries only disappear, and what decides whether an entry is an own one stays as it was. */
  ghost predicate KeepsEntries(s: Snapshot, s': Snapshot) {
    && (forall k <- s'.ues.byRan :: k in s.ues.byRan && s'.ues.byRan[k] == s.ues.byRan[k]
                                    && SameServing(s, s', s.ues.byRan[k]))
    && (forall a :: a in s.gnbs.assocGnb ==> a in s'.gnbs.assocGnb && GnbAt(s', a).id == GnbAt(s, a).id)
  }

  lemma KeepingEntriesKeepsOwn(s: Snapshot, s': Snapshot)
    requires Own(s) && KeepsEntries(s, s')
    ensures Own(s')
  {
    forall k ensures OwnEntry(s', k) {
      assert OwnEntry(s, k);
    }
  }

  // ---- gNBs ----

  lemma MarkKeepsEntries(s: Snapshot, assoc: int, state: GnbState)
    requires assoc in s.gnbs.assocGnb
    ensures KeepsEntries(s, Mark(s, assoc, state))
  {
  }

  lemma AssociationKeepsEntries(s: Snapshot, assoc: int, g: GnbContext)
    requires g !in s.gnbs.assocGnb.Values
    ensures KeepsEntries(s, NewAssociation(s, assoc, g))
  {
    var s' := NewAssociation(s, assoc, g);
    forall a | a in s.gnbs.assocGnb ensures a in s'.gnbs.assocGnb && GnbAt(s', a).id == GnbAt(s, a).id {
      assert s.gnbs.assocGnb[a] in s.gnbs.assocGnb.Values;
    }
    assert s'.ues == s.ues;
  }

  /** A gNB gives itself another id while UEs are indexed under the one it has. */
  ghost predicate Renames(s: Snapshot, assoc: int, setup: Setup) {
    && assoc in s.gnbs.assocGnb && setup != NoGnbId && setup.id != GnbAt(s, assoc).id
    && exists k <- s.ues.byRan :: NgapOf(s, s.ues.byRan[k]).assoc in s.gnbs.assocGnb
                                  && s.gnbs.assocGnb[NgapOf(s, s.ues.byRan[k]).assoc] == s.gnbs.assocGnb[assoc]
  }

  lemma NgSetupOnGnb(s: Snapshot, assoc: int, setup: Setup, a: int)
    requires a in s.gnbs.assocGnb
    ensures var s' := NgSetup(s, assoc, setup);
            && s'.ues == s.ues && a in s'.gnbs.assocGnb
            && GnbAt(s', a).id == if assoc in s.gnbs.assocGnb && setup != NoGnbId
                                     && s.gnbs.assocGnb[a] == s.gnbs.assocGnb[assoc] then setup.id
                                  else GnbAt(s, a).id
  {
  }

  /** NG Setup keeps the entries own exactly when the gNB does not give itself another id under its UEs. */
  lemma NgSetupKeepsOwn(s: Snapshot, assoc: int, setup: Setup)
    requires Own(s)
    ensures Own(NgSetup(s, assoc, setup)) <==> !Renames(s, assoc, setup)
  {
    var s' := NgSetup(s, assoc, setup);
    forall a | a in s.gnbs.assocGnb
      ensures s'.ues == s.ues && a in s'.gnbs.assocGnb
      ensures GnbAt(s', a).id == if assoc in s.gnbs.assocGnb && setup != NoGnbId
                                    && s.gnbs.assocGnb[a] == s.gnbs.assocGnb[assoc] then setup.id
                                 else GnbAt(s, a).id
    {
      NgSetupOnGnb(s, assoc, setup, a);
    }
    if Renames(s, assoc, setup) {
      var k :| k in s.ues.byRan && NgapOf(s, s.ues.byRan[k]).assoc in s.gnbs.assocGnb
               && s.gnbs.assocGnb[NgapOf(s, s.ues.byRan[k]).assoc] == s.gnbs.assocGnb[assoc];
      NgSetupOnGnb(s, assoc, setup, assoc);
      assert OwnEntry(s, k) && !OwnEntry(s', k);
    } else {
      forall k ensures OwnEntry(s', k) {
        assert OwnEntry(s, k);
      }
    }
  }

  // ---- UE associations ----

  lemma ShrinkingKeepsEntries(s: Snapshot, s': Snapshot)
    requires Shrinks(s, s')
    ensures KeepsEntries(s, s')
  {
  }

  lemma InitialUeKeepsOwn(s: Snapshot, assoc: int, ran: int, u: UeNgapContext)
    requires Own(s) && u !in s.ues.byRan.Values
    ensures Own(InitialUe(s, assoc, ran, u))
  {
    var s' := InitialUe(s, assoc, ran, u);
    forall k ensures OwnEntry(s', k) {
      assert OwnEntry(s, k);
      if assoc in s.gnbs.assocGnb {
        assert OwnEntry(s, (ran, GnbAt(s, assoc).id));
      }
      if k in s.ues.byRan {
        assert s.ues.byRan[k] in s.ues.byRan.Values;
      }
    }
  }

  lemma EstablishKeepsEntries(s: Snapshot, ran: int, gnb: int, given: int, uc: UeContext)
    ensures KeepsEntries(s, Establish(s, ran, gnb, given, uc))
  {
  }

  lemma DlNasKeepsEntries(s: Snapshot, ran: int, amf: int)
    ensures KeepsEntries(s, DlNas(s, ran, amf))
  {
  }

  lemma ReleaseCompleteKeepsEntries(s: Snapshot, assoc: int, ran: int, amf: int)
    ensures KeepsEntries(s, ReleaseComplete(s, assoc, ran, amf))
  {
  }

  lemma HandoverRequiredKeepsOwn(s: Snapshot, assoc: int, ran: int, amf: int, intra: bool, target: int, secured: bool)
    requires Own(s)
    ensures Own(HandoverRequired(s, assoc, ran, amf, intra, target, secured))
  {
    var s' := HandoverRequired(s, assoc, ran, amf, intra, target, secured);
    forall k ensures OwnEntry(s', k) {
      assert OwnEntry(s, k);
      if assoc in s.gnbs.assocGnb {
        assert OwnEntry(s, (ran, GnbAt(s, assoc).id));
      }
    }
  }

  lemma PreparationKeepsOwn(s: Snapshot, assoc: int, ran: int, amf: int, intra: bool, target: int, secured: bool)
    requires Own(s)
    ensures Own(HandoverRequiredTask(s, assoc, ran, amf, intra, target, secured))
  {
    var first := HandoverRequired(s, assoc, ran, amf, intra, target, secured);
    var second := HandoverRequired(first, assoc, ran, amf, intra, target, secured);
    HandoverRequiredKeepsOwn(s, assoc, ran, amf, intra, target, secured);
    HandoverRequiredKeepsOwn(first, assoc, ran, amf, intra, target, secured);
    assert KeepsEntries(second, Send(second, PreparationFailure(assoc, amf, amf)));
    KeepingEntriesKeepsOwn(second, Send(second, PreparationFailure(assoc, amf, amf)));
  }

  lemma AckKeepsEntries(s: Snapshot, assoc: int, ran: int, amf: int, admitted: bool)
    ensures KeepsEntries(s, HandoverAck(s, assoc, ran, amf, admitted))
  {
  }

  /** The UE is still indexed under its pair at the source. */
  ghost predicate LeavesEntry(s: Snapshot, assoc: int, ran: int, amf: int, located: bool) {
    NotifyAccepted(s, assoc, amf, located)
    && exists k <- s.ues.byRan :: k != (ran, GnbAt(s, assoc).id) && s.ues.byRan[k] == s.ues.byAmf[amf]
  }

  /** Handover Notify keeps the entries own exactly when the UE is indexed under no other pair any more. */
  lemma NotifyKeepsOwn(s: Snapshot, assoc: int, ran: int, amf: int, located: bool, uc: UeContext)
    requires Own(s)
    ensures Own(HandoverNotify(s, assoc, ran, amf, located, uc)) <==> !LeavesEntry(s, assoc, ran, amf, located)
  {
    var s' := HandoverNotify(s, assoc, ran, amf, located, uc);
    if LeavesEntry(s, assoc, ran, amf, located) {
      var k :| k in s.ues.byRan && k != (ran, GnbAt(s, assoc).id) && s.ues.byRan[k] == s.ues.byAmf[amf];
      assert s'.ues.byRan[k] == s.ues.byAmf[amf] && s'.gnbs == s.gnbs;
      assert !OwnEntry(s', k);
    } else {
      forall k ensures OwnEntry(s', k) {
        assert OwnEntry(s, k);
      }
    }
  }

  /** The pair that served the UE: its RAN id and the gNB of its association. */
  function SourcePair(s: Snapshot, amf: int): Pair
    requires amf in s.ues.byAmf
  {
    var rec := NgapOf(s, s.ues.byAmf[amf]);
    (rec.ran, if rec.assoc in s.gnbs.assocGnb then GnbAt(s, rec.assoc).id else 0)
  }

  /** Every entry but these is an own one. */
  ghost predicate OwnBut(s: Snapshot, pending: set<Pair>) {
    forall k :: k !in pending ==> OwnEntry(s, k)
  }

  /** Handover Notify leaves at most the entry at the source behind, and makes the one at the target an own one. */
  lemma NotifyLeavesOneEntry(s: Snapshot, pending: set<Pair>, assoc: int, ran: int, amf: int, uc: UeContext)
    requires OwnBut(s, pending) && NotifyAccepted(s, assoc, amf, true)
    ensures OwnBut(HandoverNotify(s, assoc, ran, amf, true, uc),
                   pending + {SourcePair(s, amf)} - {(ran, GnbAt(s, assoc).id)})
  {
    var s' := HandoverNotify(s, assoc, ran, amf, true, uc);
    forall k | k !in pending + {SourcePair(s, amf)} - {(ran, GnbAt(s, assoc).id)} ensures OwnEntry(s', k) {
      assert k !in pending ==> OwnEntry(s, k);
    }
  }

  /** Whichever way the source's Release Complete is taken, it removes the source's entry. */
  lemma ReleaseRemovesTheEntry(s: Snapshot, assoc: int, ran: int, amf: int)
    requires ReleaseHandled(s, assoc, ran, amf) && amf in s.n1.nas
    ensures (ran, GnbAt(s, assoc).id) !in ReleaseComplete(s, assoc, ran, amf).ues.byRan
  {
  }

  /** So a handover that its source has completed leaves own entries only, as it found them. */
  lemma HandoverRestoresOwn(s: Snapshot, assoc: int, ran: int, amf: int, uc: UeContext)
    requires Own(s) && NotifyAccepted(s, assoc, amf, true)
    requires var rec := NgapOf(s, s.ues.byAmf[amf]);
             rec.assoc in s.gnbs.assocGnb && (rec.ran, amf) in s.app.keys
    ensures var rec := NgapOf(s, s.ues.byAmf[amf]);
            Own(ReleaseComplete(HandoverNotify(s, assoc, ran, amf, true, uc), rec.assoc, rec.ran, amf))
  {
    var rec := NgapOf(s, s.ues.byAmf[amf]);
    var source := SourcePair(s, amf);
    var s1 := HandoverNotify(s, assoc, ran, amf, true, uc);
    var s2 := ReleaseComplete(s1, rec.assoc, rec.ran, amf);
    NotifyLeavesOneEntry(s, {}, assoc, ran, amf, uc);
    assert s1.gnbs == s.gnbs && amf in s1.n1.nas && amf in s1.ues.byAmf && (rec.ran, amf) in s1.app.keys;
    ReleaseRemovesTheEntry(s1, rec.assoc, rec.ran, amf);
    ReleaseCompleteKeepsEntries(s1, rec.assoc, rec.ran, amf);
    forall k ensures OwnEntry(s2, k) {
      if k != source {
        assert OwnEntry(s1, k);
      }
    }
  }

  // ---- Resets ----

  lemma KeepsEntriesTransitively(s: Snapshot, s': Snapshot, s'': Snapshot)
    requires KeepsEntries(s, s') && KeepsEntries(s', s'')
    ensures KeepsEntries(s, s'')
  {
  }

  lemma MarkedRemovalKeepsEntries(s: Snapshot, assoc: int, state: GnbState)
    requires assoc in s.gnbs.assocGnb
    ensures KeepsEntries(s, MarkedRemoval(s, assoc, state))
  {
    var s1 := Mark(s, assoc, state);
    MarkKeepsEntries(s, assoc, state);
    RemoveAllShrinks(s1, Collect(s1, assoc), GnbAt(s, assoc).id);
    ShrinkingKeepsEntries(s1, MarkedRemoval(s, assoc, state));
    KeepsEntriesTransitively(s, s1, MarkedRemoval(s, assoc, state));
  }

  lemma SendKeepsEntries(s: Snapshot, message: NgapMessage)
    ensures KeepsEntries(s, Send(s, message))
  {
  }

  lemma ResetKeepsEntries(s: Snapshot, assoc: int)
    ensures KeepsEntries(s, ResetInterface(s, assoc))
  {
    if assoc in s.gnbs.assocGnb {
      var s1 := MarkedRemoval(s, assoc, Resetting);
      MarkedRemovalKeepsEntries(s, assoc, Resetting);
      SendKeepsEntries(s1, ResetAck(GnbAt(s, assoc).assoc));
      KeepsEntriesTransitively(s, s1, Send(s1, ResetAck(GnbAt(s, assoc).assoc)));
    }
  }

  lemma ForgettingGnbKeepsEntries(s: Snapshot, id: int)
    ensures KeepsEntries(s, s.(gnbs := s.gnbs.(idGnb := s.gnbs.idGnb - {id})))
  {
  }

  lemma ShutdownKeepsEntries(s: Snapshot, assoc: int)
    ensures KeepsEntries(s, ShutdownAssoc(s, assoc))
  {
    if assoc in s.gnbs.assocGnb {
      var s1 := MarkedRemoval(s, assoc, Shutdown);
      MarkedRemovalKeepsEntries(s, assoc, Shutdown);
      ForgettingGnbKeepsEntries(s1, assoc);
      KeepsEntriesTransitively(s, s1, s1.(gnbs := s1.gnbs.(idGnb := s1.gnbs.idGnb - {assoc})));
    }
  }

  lemma ResetPartKeepsEntries(s: Snapshot, assoc: int, items: seq<ResetItem>)
    ensures KeepsEntries(s, ResetPart(s, assoc, items))
  {
    if assoc in s.gnbs.assocGnb {
      var s1 := Mark(s, assoc, Resetting);
      var s2 := ResetItems(s1, items, GnbAt(s, assoc).id);
      MarkKeepsEntries(s, assoc, Resetting);
      ResetItemsShrinks(s1, items, GnbAt(s, assoc).id);
      ShrinkingKeepsEntries(s1, s2);
      KeepsEntriesTransitively(s, s1, s2);
      SendKeepsEntries(s2, ResetAck(GnbAt(s, assoc).assoc));
      KeepsEntriesTransitively(s, s2, Send(s2, ResetAck(GnbAt(s, assoc).assoc)));
    }
  }

  /** The messages to N2 that add no entry and give no indexed context other serving ids, and no gNB another id. */
  predicate OnlyRemoves(e: N2Event) {
    match e
    case NgSetupEvent(_, _) => false
    case InitialUeEvent(_, _, _) => false
    case HandoverRequiredEvent(_, _, _, _, _, _) => false
    case HandoverNotifyEvent(_, _, _, _, _) => false
    case _ => true
  }

  lemma OnlyRemovingKeepsEntries(s: Snapshot, e: N2Event)
    requires OnlyRemoves(e) && Allocates(s, OnN2(e))
    ensures KeepsEntries(s, N2Step(s, e))
  {
    match e
    case AssociationEvent(assoc, g) => AssociationKeepsEntries(s, assoc, g);
    case DlNasEvent(ran, amf) => DlNasKeepsEntries(s, ran, amf);
    case ReleaseCompleteEvent(assoc, ran, amf) => ReleaseCompleteKeepsEntries(s, assoc, ran, amf);
    case HandoverAckEvent(assoc, ran, amf, admitted) => AckKeepsEntries(s, assoc, ran, amf, admitted);
    case ResetInterfaceEvent(assoc) => ResetKeepsEntries(s, assoc);
    case ResetPartEvent(assoc, items) => ResetPartKeepsEntries(s, assoc, items);
    case ShutdownEvent(assoc) => ShutdownKeepsEntries(s, assoc);
  }

  lemma OtherTasksKeepEntries(s: Snapshot, e: Event)
    requires !e.OnN2?
    ensures KeepsEntries(s, Step(s, e))
  {
    match e
    case OnApp(ran, gnb, given, uc) => EstablishKeepsEntries(s, ran, gnb, given, uc);
    case OnN1(e1) => N1KeepsLinks(s, e1);
  }

  // ---- Runs ----

  ghost predicate KeepsOwn(s: Snapshot, e: Event) {
    match e
    case OnN2(NgSetupEvent(assoc, setup)) => !Renames(s, assoc, setup)
    case OnN2(HandoverNotifyEvent(assoc, ran, amf, located, _)) => !LeavesEntry(s, assoc, ran, amf, located)
    case _ => true
  }

  /** Each message keeps the entries own exactly when it renames no gNB under its UEs and leaves no source's entry. */
  lemma StepKeepsOwn(s: Snapshot, e: Event)
    requires Own(s) && Allocates(s, e)
    ensures Own(Step(s, e)) <==> KeepsOwn(s, e)
  {
    match e
    case OnN2(NgSetupEvent(assoc, setup)) => NgSetupKeepsOwn(s, assoc, setup);
    case OnN2(InitialUeEvent(assoc, ran, u)) => InitialUeKeepsOwn(s, assoc, ran, u);
    case OnN2(HandoverRequiredEvent(assoc, ran, amf, intra, target, secured)) =>
      PreparationKeepsOwn(s, assoc, ran, amf, intra, target, secured);
    case OnN2(HandoverNotifyEvent(assoc, ran, amf, located, uc)) =>
      NotifyKeepsOwn(s, assoc, ran, amf, located, uc);
    case OnN2(e2) =>
      OnlyRemovingKeepsEntries(s, e2);
      KeepingEntriesKeepsOwn(s, Step(s, e));
    case _ =>
      OtherTasksKeepEntries(s, e);
      KeepingEntriesKeepsOwn(s, Step(s, e));
  }

  ghost predicate OwnThroughout(s: Snapshot, es: seq<Event>)
    decreases |es|
  {
    Own(s) && (es != [] ==> OwnThroughout(Step(s, es[0]), es[1..]))
  }

  ghost predicate KeptThroughout(s: Snapshot, es: seq<Event>)
    decreases |es|
  {
    es != [] ==> KeepsOwn(s, es[0]) && KeptThroughout(Step(s, es[0]), es[1..])
  }

  lemma {:induction false} RunKeepsOwn(s: Snapshot, es: seq<Event>)
    requires Own(s) && Allocating(s, es)
    ensures OwnThroughout(s, es) <==> KeptThroughout(s, es)
    decreases |es|
  {
    if es == [] {
    } else {
      StepKeepsOwn(s, es[0]);
      if Own(Step(s, es[0])) {
        RunKeepsOwn(Step(s, es[0]), es[1..]);
      }
    }
  }
}
