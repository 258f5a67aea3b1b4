/**
  When the lookup by AMF UE NGAP id and the lookups through the UE context keys agree. Each handler
  that adds to the indexes keeps the agreement exactly when a condition on the state before it holds.
 */
module IndexAgreement {
  import opened Wrappers
  import opened Contexts
  import opened UeIndexSpec

  /** The ways the code gets from an AMF UE NGAP id to the NGAP context. */
  datatype Route = ById | ByKeyOf(ran: int)

  function Lookup(s: Snapshot, route: Route, amf: int): Option<UeNgapContext> {
    match route
    case ById => ByAmf(s, amf)
    case ByKeyOf(ran) => ByKey(s, ran, amf)
  }

  /** Whatever two lookups for one AMF UE NGAP id succeed, they return the same object. */
  ghost predicate Agree(s: Snapshot) {
    forall v, w, a :: Lookup(s, v, a).Some? && Lookup(s, w, a).Some? ==> Lookup(s, v, a) == Lookup(s, w, a)
  }

  /** No two keys share a UE context. */
  ghost predicate KeysApart(s: Snapshot) {
    forall k, k' :: k in s.app.keys && k' in s.app.keys && s.app.keys[k] == s.app.keys[k'] ==> k == k'
  }

  /** Every lookup for this id other than this one that succeeds returns this object. */
  ghost predicate OthersGive(s: Snapshot, route: Route, amf: int, u: UeNgapContext) {
    forall v :: v != route && Lookup(s, v, amf).Some? ==> Lookup(s, v, amf) == Some(u)
  }

  ghost predicate Claims(s: Snapshot, ran: int, gnb: int, amf: int) {
    KeyGnb(s, ran, amf) == Some(gnb)
  }

  /** Indexing u under (ran, gnb) contradicts no other lookup of a UE whose key leads there. */
  ghost predicate BindSafe(s: Snapshot, ran: int, gnb: int, u: UeNgapContext) {
    forall a :: Claims(s, ran, gnb, a) ==> OthersGive(s, ByKeyOf(ran), a, u)
  }

  // ---- Steps that only lose lookups ----

  /** What can still be looked up is what it was. */
  ghost predicate Narrows(s: Snapshot, s': Snapshot) {
    forall v, a :: Lookup(s', v, a).Some? ==> Lookup(s', v, a) == Lookup(s, v, a)
  }

  lemma NarrowingKeepsAgree(s: Snapshot, s': Snapshot)
    requires Agree(s) && Narrows(s, s')
    ensures Agree(s')
  {
  }

  lemma ShrinkingNarrows(s: Snapshot, s': Snapshot)
    requires Shrinks(s, s')
    ensures Narrows(s, s')
  {
  }

  lemma SameLinksNarrow(s: Snapshot, s': Snapshot)
    requires SameLinks(s, s')
    ensures Narrows(s, s') && Narrows(s', s)
  {
  }

  // ---- The three ways a link is added ----

  lemma LookupAfterPutPair(s: Snapshot, ran: int, gnb: int, u: UeNgapContext, v: Route, a: int)
    ensures Lookup(PutPair(s, ran, gnb, u), v, a) ==
            if v == ByKeyOf(ran) && Claims(s, ran, gnb, a) then Some(u) else Lookup(s, v, a)
  {
  }

  lemma LookupAfterPutAmf(s: Snapshot, amf: int, u: UeNgapContext, v: Route, a: int)
    ensures Lookup(PutAmf(s, amf, u), v, a) == if v == ById && a == amf then Some(u) else Lookup(s, v, a)
  {
  }

  lemma KeyGnbAfterClaim(s: Snapshot, ran: int, amf: int, gnb: int, uc: UeContext, r: int, a: int)
    requires KeysApart(s) && uc !in s.app.keys.Values
    ensures KeyGnb(Claim(s, ran, amf, gnb, uc), r, a) == if (r, a) == (ran, amf) then Some(gnb) else KeyGnb(s, r, a)
  {
    if (r, a) in s.app.keys {
      assert s.app.keys[(r, a)] in s.app.keys.Values;
    }
  }

  lemma LookupAfterClaim(s: Snapshot, ran: int, amf: int, gnb: int, uc: UeContext, v: Route, a: int)
    requires KeysApart(s) && uc !in s.app.keys.Values
    ensures Lookup(Claim(s, ran, amf, gnb, uc), v, a) ==
            if v == ByKeyOf(ran) && a == amf then ByPair(s, ran, gnb) else Lookup(s, v, a)
  {
    if v.ByKeyOf? {
      KeyGnbAfterClaim(s, ran, amf, gnb, uc, v.ran, a);
    }
  }

  lemma PutPairAgrees(s: Snapshot, ran: int, gnb: int, u: UeNgapContext)
    requires Agree(s)
    ensures Agree(PutPair(s, ran, gnb, u)) <==> BindSafe(s, ran, gnb, u)
  {
    var s' := PutPair(s, ran, gnb, u);
    forall v, a ensures Lookup(s', v, a) ==
                        if v == ByKeyOf(ran) && Claims(s, ran, gnb, a) then Some(u) else Lookup(s, v, a)
    {
      LookupAfterPutPair(s, ran, gnb, u, v, a);
    }
    if Agree(s') {
      forall a, v | Claims(s, ran, gnb, a) && v != ByKeyOf(ran) && Lookup(s, v, a).Some?
        ensures Lookup(s, v, a) == Some(u)
      {
        assert Lookup(s', v, a) == Lookup(s', ByKeyOf(ran), a);
      }
    }
  }

  // ---- What each handler that adds links does to the lookups ----

  lemma LookupAfterBind(s: Snapshot, ran: int, gnb: int, amf: int, v: Route, a: int)
    ensures Lookup(Bind(s, ran, gnb, amf), v, a) ==
            if v == ById && a == amf && ByPair(s, ran, gnb).Some? then ByPair(s, ran, gnb) else Lookup(s, v, a)
  {
    if (ran, gnb) in s.ues.byRan {
      LookupAfterPutAmf(s, amf, s.ues.byRan[(ran, gnb)], v, a);
      SameLinksNarrow(PutAmf(s, amf, s.ues.byRan[(ran, gnb)]), Bind(s, ran, gnb, amf));
    }
  }

  lemma LookupAfterEstablish(s: Snapshot, ran: int, gnb: int, given: int, uc: UeContext, v: Route, a: int)
    requires KeysApart(s) && uc !in s.app.keys.Values
    ensures Lookup(Establish(s, ran, gnb, given, uc), v, a) ==
            if a == EstablishedAmf(s, given) && (v == ByKeyOf(ran) || (v == ById && ByPair(s, ran, gnb).Some?))
            then ByPair(s, ran, gnb) else Lookup(s, v, a)
  {
    var amf := EstablishedAmf(s, given);
    var s1 := Claim(s, ran, amf, gnb, uc);
    LookupAfterClaim(s, ran, amf, gnb, uc, v, a);
    assert s1.ues.byRan == s.ues.byRan;
    LookupAfterBind(s1, ran, gnb, amf, v, a);
    SameLinksNarrow(Bind(s1, ran, gnb, amf), Establish(s, ran, gnb, given, uc));
  }

  lemma LookupAfterNotify(s: Snapshot, assoc: int, ran: int, amf: int, uc: UeContext, v: Route, a: int)
    requires KeysApart(s) && uc !in s.app.keys.Values && NotifyAccepted(s, assoc, amf, true)
    ensures Lookup(HandoverNotify(s, assoc, ran, amf, true, uc), v, a) ==
            if v == ByKeyOf(ran) && (a == amf || Claims(s, ran, GnbAt(s, assoc).id, a)) then Some(s.ues.byAmf[amf])
            else Lookup(s, v, a)
  {
    var gnb := GnbAt(s, assoc).id;
    var s1 := Claim(s, ran, amf, gnb, uc);
    LookupAfterClaim(s, ran, amf, gnb, uc, v, a);
    KeyGnbAfterClaim(s, ran, amf, gnb, uc, ran, a);
    LookupAfterPutPair(s1, ran, gnb, s.ues.byAmf[amf], v, a);
    SameLinksNarrow(PutPair(s1, ran, gnb, s.ues.byAmf[amf]), HandoverNotify(s, assoc, ran, amf, true, uc));
  }

  // ---- The exact conditions ----

  /** The Initial UE Message finds its pair indexed, or no key that leads to the pair is in use elsewhere. */
  ghost predicate InitialUeSafe(s: Snapshot, assoc: int, ran: int) {
    assoc in s.gnbs.assocGnb && GnbAt(s, assoc).state != Init && (ran, GnbAt(s, assoc).id) !in s.ues.byRan ==>
      forall a, v :: Claims(s, ran, GnbAt(s, assoc).id, a) && v != ByKeyOf(ran) ==> Lookup(s, v, a) == None
  }

  /** Another RAN id under which this AMF id is known leads to the same NGAP context. */
  ghost predicate EstablishSafe(s: Snapshot, ran: int, gnb: int, given: int) {
    ByPair(s, ran, gnb).Some? ==>
      forall r :: r != ran && ByKey(s, r, EstablishedAmf(s, given)).Some? ==>
                    ByKey(s, r, EstablishedAmf(s, given)) == ByPair(s, ran, gnb)
  }

  /** Other UEs whose key leads to the target's pair are looked up as the arriving UE already. */
  ghost predicate NotifySafe(s: Snapshot, assoc: int, ran: int, amf: int, located: bool) {
    NotifyAccepted(s, assoc, amf, located) ==>
      forall a :: a != amf && Claims(s, ran, GnbAt(s, assoc).id, a) ==> OthersGive(s, ByKeyOf(ran), a, s.ues.byAmf[amf])
  }

  lemma FreshIsNeverFound(s: Snapshot, u: UeNgapContext, v: Route, a: int)
    requires u !in s.ues.byRan.Values && u !in s.ues.byAmf.Values
    ensures Lookup(s, v, a) != Some(u)
  {
  }

  lemma InitialUeAgrees(s: Snapshot, assoc: int, ran: int, u: UeNgapContext)
    requires Agree(s) && u !in s.ues.byRan.Values && u !in s.ues.byAmf.Values
    ensures Agree(InitialUe(s, assoc, ran, u)) <==> InitialUeSafe(s, assoc, ran)
  {
    var s' := InitialUe(s, assoc, ran, u);
    if assoc in s.gnbs.assocGnb && GnbAt(s, assoc).state != Init {
      var gnb := GnbAt(s, assoc).id;
      if (ran, gnb) in s.ues.byRan {
        SameLinksNarrow(s, s');
        NarrowingKeepsAgree(s, s');
      } else {
        var s1 := PutPair(s, ran, gnb, u);
        PutPairAgrees(s, ran, gnb, u);
        SameLinksNarrow(s1, s');
        assert Agree(s') <==> Agree(s1) by { AgreeSame(s1, s'); }
        forall v, a ensures Lookup(s, v, a) != Some(u) { FreshIsNeverFound(s, u, v, a); }
      }
    }
  }

  lemma AgreeSame(s: Snapshot, s': Snapshot)
    requires SameLinks(s, s')
    ensures Agree(s) <==> Agree(s')
  {
    SameLinksNarrow(s, s');
    if Agree(s) { NarrowingKeepsAgree(s, s'); }
    if Agree(s') { NarrowingKeepsAgree(s', s); }
  }

  lemma EstablishAgrees(s: Snapshot, ran: int, gnb: int, given: int, uc: UeContext)
    requires Agree(s) && KeysApart(s) && uc !in s.app.keys.Values
    ensures Agree(Establish(s, ran, gnb, given, uc)) <==> EstablishSafe(s, ran, gnb, given)
  {
    var s' := Establish(s, ran, gnb, given, uc);
    var amf := EstablishedAmf(s, given);
    forall v, a ensures Lookup(s', v, a) ==
                        if a == amf && (v == ByKeyOf(ran) || (v == ById && ByPair(s, ran, gnb).Some?))
                        then ByPair(s, ran, gnb) else Lookup(s, v, a)
    {
      LookupAfterEstablish(s, ran, gnb, given, uc, v, a);
    }
    if Agree(s') && ByPair(s, ran, gnb).Some? {
      forall r | r != ran && ByKey(s, r, amf).Some? ensures ByKey(s, r, amf) == ByPair(s, ran, gnb) {
        assert Lookup(s', ByKeyOf(r), amf) == Lookup(s', ById, amf);
      }
    }
  }

  lemma NotifyAgrees(s: Snapshot, assoc: int, ran: int, amf: int, located: bool, uc: UeContext)
    requires Agree(s) && KeysApart(s) && uc !in s.app.keys.Values
    ensures Agree(HandoverNotify(s, assoc, ran, amf, located, uc)) <==> NotifySafe(s, assoc, ran, amf, located)
  {
    if NotifyAccepted(s, assoc, amf, located) {
      var s' := HandoverNotify(s, assoc, ran, amf, located, uc);
      var gnb := GnbAt(s, assoc).id;
      forall v, a ensures Lookup(s', v, a) ==
                          if v == ByKeyOf(ran) && (a == amf || Claims(s, ran, gnb, a)) then Some(s.ues.byAmf[amf])
                          else Lookup(s, v, a)
      {
        LookupAfterNotify(s, assoc, ran, amf, uc, v, a);
      }
      assert Lookup(s, ById, amf) == Some(s.ues.byAmf[amf]);
      if Agree(s') {
        forall a, v | a != amf && Claims(s, ran, gnb, a) && v != ByKeyOf(ran) && Lookup(s, v, a).Some?
          ensures Lookup(s, v, a) == Some(s.ues.byAmf[amf])
        {
          assert Lookup(s', v, a) == Lookup(s', ByKeyOf(ran), a);
        }
      }
    }
  }

  lemma DlNasKeepsAgree(s: Snapshot, ran: int, amf: int)
    requires Agree(s)
    ensures Agree(DlNas(s, ran, amf))
  {
    var s' := DlNas(s, ran, amf);
    if ByKey(s, ran, amf).Some? && NgapOf(s, ByKey(s, ran, amf).value).assoc in s.gnbs.assocGnb {
      var u := ByKey(s, ran, amf).value;
      assert Lookup(s, ByKeyOf(ran), amf) == Some(u);
      forall v, a ensures Lookup(PutAmf(s, amf, u), v, a) ==
                          if v == ById && a == amf then Some(u) else Lookup(s, v, a)
      {
        LookupAfterPutAmf(s, amf, u, v, a);
      }
      assert Agree(PutAmf(s, amf, u));
      AgreeSame(PutAmf(s, amf, u), s');
    }
  }

  // ---- Handlers that add no link ----

  lemma NarrowsTransitively(s: Snapshot, s': Snapshot, s'': Snapshot)
    requires Narrows(s, s') && Narrows(s', s'')
    ensures Narrows(s, s'')
  {
  }

  lemma DropBothNarrows(s: Snapshot, ran: int, gnb: int, amf: int)
    ensures Narrows(s, DropPair(DropAmf(s, amf), ran, gnb))
  {
    DropBothShrinks(s, ran, gnb, amf);
    ShrinkingNarrows(s, DropPair(DropAmf(s, amf), ran, gnb));
  }

  lemma ReleaseUeNarrows(s: Snapshot, ran: int, gnb: int, amf: int)
    ensures Narrows(s, ReleaseUe(s, ran, gnb, amf))
  {
    DropBothNarrows(s, ran, gnb, amf);
    if amf in s.n1.nas {
      var s1 := DropPair(DropAmf(s, amf), ran, gnb);
      SameLinksNarrow(s1, GoIdle(s1, s.n1.nas[amf]));
      NarrowsTransitively(s, s1, GoIdle(s1, s.n1.nas[amf]));
    }
  }

  lemma ReleaseCompleteNarrows(s: Snapshot, assoc: int, ran: int, amf: int)
    ensures Narrows(s, ReleaseComplete(s, assoc, ran, amf))
  {
    if ReleaseHandled(s, assoc, ran, amf) {
      var gnb := GnbAt(s, assoc).id;
      if AfterHandover(s, gnb, s.ues.byAmf[amf]) {
        var s1 := DropPair(s, ran, gnb);
        DropPairShrinks(s, ran, gnb);
        ShrinkingNarrows(s, s1);
        SameLinksNarrow(s1, ClearCause(s1, s.ues.byAmf[amf]));
        NarrowsTransitively(s, s1, ClearCause(s1, s.ues.byAmf[amf]));
      } else {
        ReleaseUeNarrows(s, ran, gnb, amf);
      }
    }
  }

  /** The removal loops run on a snapshot that differs from s in the gNB's state only, and only lose links. */
  lemma WholeRemovalNarrows(s: Snapshot, marked: Snapshot, removed: Snapshot, s': Snapshot)
    requires SameLinks(s, marked) && Shrinks(marked, removed) && SameLinks(removed, s')
    ensures Narrows(s, s')
  {
    SameLinksNarrow(s, marked);
    ShrinkingNarrows(marked, removed);
    SameLinksNarrow(removed, s');
    NarrowsTransitively(s, marked, removed);
    NarrowsTransitively(s, removed, s');
  }

  lemma ResetNarrows(s: Snapshot, assoc: int, items: seq<ResetItem>)
    ensures Narrows(s, ResetInterface(s, assoc))
    ensures Narrows(s, ShutdownAssoc(s, assoc))
    ensures Narrows(s, ResetPart(s, assoc, items))
  {
    if assoc in s.gnbs.assocGnb {
      var s1 := Mark(s, assoc, Resetting);
      var gnb := GnbAt(s, assoc).id;
      RemoveAllShrinks(s1, Collect(s1, assoc), gnb);
      WholeRemovalNarrows(s, s1, RemoveAll(s1, Collect(s1, assoc), gnb), ResetInterface(s, assoc));
      ResetItemsShrinks(s1, items, gnb);
      WholeRemovalNarrows(s, s1, ResetItems(s1, items, gnb), ResetPart(s, assoc, items));
      var s2 := Mark(s, assoc, Shutdown);
      RemoveAllShrinks(s2, Collect(s2, assoc), gnb);
      WholeRemovalNarrows(s, s2, RemoveAll(s2, Collect(s2, assoc), gnb), ShutdownAssoc(s, assoc));
    }
  }

  // ---- One step and whole runs ----

  /** The condition under which an event keeps the lookups in agreement. */
  ghost predicate Safe(s: Snapshot, e: Event) {
    match e
    case OnN2(InitialUeEvent(assoc, ran, _)) => InitialUeSafe(s, assoc, ran)
    case OnN2(HandoverNotifyEvent(assoc, ran, amf, located, _)) => NotifySafe(s, assoc, ran, amf, located)
    case OnApp(ran, gnb, given, _) => EstablishSafe(s, ran, gnb, given)
    case _ => true
  }

  lemma OtherN2StepsNarrow(s: Snapshot, e: N2Event)
    requires !e.InitialUeEvent? && !e.HandoverNotifyEvent? && !e.DlNasEvent?
    ensures Narrows(s, N2Step(s, e))
  {
    match e
    case AssociationEvent(assoc, g) =>
      GnbHandlersKeepUes(s, assoc, g, NoGnbId);
      SameLinksNarrow(s, N2Step(s, e));
    case NgSetupEvent(assoc, setup) =>
      assert SameLinks(s, N2Step(s, e));
      SameLinksNarrow(s, N2Step(s, e));
    case ReleaseCompleteEvent(assoc, ran, amf) => ReleaseCompleteNarrows(s, assoc, ran, amf);
    case ResetInterfaceEvent(assoc) => ResetNarrows(s, assoc, []);
    case ResetPartEvent(assoc, items) => ResetNarrows(s, assoc, items);
    case ShutdownEvent(assoc) => ResetNarrows(s, assoc, []);
    case HandoverAckEvent(assoc, ran, amf, admitted) =>
      HandoverAckKeepsLinks(s, assoc, ran, amf, admitted);
      SameLinksNarrow(s, N2Step(s, e));
    case HandoverRequiredEvent(assoc, ran, amf, intra, target, secured) =>
      HandoverPreparationKeepsLinks(s, assoc, ran, amf, intra, target, secured);
      SameLinksNarrow(s, N2Step(s, e));
  }

  /** Each event keeps the lookups in agreement exactly when it is safe. */
  lemma StepAgrees(s: Snapshot, e: Event)
    requires Agree(s) && KeysApart(s) && Allocates(s, e)
    ensures Agree(Step(s, e)) <==> Safe(s, e)
  {
    match e
    case OnN2(InitialUeEvent(assoc, ran, u)) => InitialUeAgrees(s, assoc, ran, u);
    case OnN2(HandoverNotifyEvent(assoc, ran, amf, located, uc)) => NotifyAgrees(s, assoc, ran, amf, located, uc);
    case OnN2(DlNasEvent(ran, amf)) => DlNasKeepsAgree(s, ran, amf);
    case OnN2(e2) =>
      OtherN2StepsNarrow(s, e2);
      NarrowingKeepsAgree(s, Step(s, e));
    case OnApp(ran, gnb, given, uc) => EstablishAgrees(s, ran, gnb, given, uc);
    case OnN1(e1) =>
      N1KeepsLinks(s, e1);
      AgreeSame(s, Step(s, e));
  }
}
