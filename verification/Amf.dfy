/** The handlers of the three tasks, each proved to do to the indexes and contexts what its specification says. */
module Amf {
  import opened Wrappers
  import opened Contexts
  import opened UeIndexSpec
  import opened Indexes
  import opened IndexAgreement
  import opened IndexRuns
  import opened IndexRouting

  /** The establishment handler's work in the two tasks, side by side. */
  lemma EstablishByParts(s: Snapshot, ran: int, gnb: int, given: int, built: UeContext)
    ensures Establish(s, ran, gnb, given, built) ==
            s.(ues := Bind(s, ran, gnb, EstablishedAmf(s, given)).ues, app := Establish(s, ran, gnb, given, built).app)
  {
  }

  class AmfTasks {
    const n2: NgapIndexes
    const app: UeIndexes
    const n1: NasIndexes
    const gnbs: GnbIndexes
    var sent: seq<NgapMessage>

    ghost predicate Valid()
      reads this, n2, app, n1, gnbs
    {
      n2.Valid() && app.Valid() && n1.Valid() && gnbs.Valid()
    }

    ghost function State(): Snapshot
      reads this, n2, n2.known, app, app.known, n1, n1.known, gnbs, gnbs.known
    {
      Snapshot(n2.Index(), app.Index(), n1.Index(), gnbs.Index(), sent)
    }

    constructor ()
      ensures Valid() && fresh(n2) && fresh(app) && fresh(n1) && fresh(gnbs)
      ensures State() == Snapshot(NgapIndex(map[], map[], map[]), UeIndex(map[], map[], 1),
                                  NasIndex(map[], map[], map[], map[], map[], map[]), GnbIndex(map[], map[], map[]), [])
    {
      n2 := new NgapIndexes();
      app := new UeIndexes();
      n1 := new NasIndexes();
      gnbs := new GnbIndexes();
      sent := [];
    }

    twostate lemma OnlyNgapChanged()
      requires unchanged(app) && unchanged(app.known) && unchanged(n1) && unchanged(n1.known)
      requires unchanged(gnbs) && unchanged(gnbs.known)
      ensures State() == old(State()).(ues := n2.Index(), sent := sent)
    {
    }

    twostate lemma NgapAndUeChanged()
      requires unchanged(this) && unchanged(n1) && unchanged(n1.known) && unchanged(gnbs) && unchanged(gnbs.known)
      ensures State() == old(State()).(ues := n2.Index(), app := app.Index())
    {
    }

    twostate lemma OnlyNasChanged()
      requires unchanged(this) && unchanged(app) && unchanged(app.known) && unchanged(n2) && unchanged(n2.known)
      requires unchanged(gnbs) && unchanged(gnbs.known)
      ensures State() == old(State()).(n1 := n1.Index())
    {
    }

    twostate lemma OnlyGnbsChanged()
      requires unchanged(this) && unchanged(app) && unchanged(app.known) && unchanged(n2) && unchanged(n2.known)
      requires unchanged(n1) && unchanged(n1.known)
      ensures State() == old(State()).(gnbs := gnbs.Index())
    {
    }

    // ---- gNBs ----

    method HandleNewAssociation(assoc: int, built: GnbContext)
      requires Valid() && built.Rec() == GnbRec(0, assoc, Init)
      modifies gnbs, gnbs.known
      ensures Valid() && gnbs.known <= old(gnbs.known) + {built}
      ensures State() == NewAssociation(old(State()), assoc, built)
    {
      gnbs.Associate(assoc, built);
      OnlyGnbsChanged();
    }

    method HandleNgSetup(assoc: int, setup: Setup)
      requires Valid()
      modifies gnbs, gnbs.known
      ensures Valid() && gnbs.known == old(gnbs.known)
      ensures State() == NgSetup(old(State()), assoc, setup)
    {
      if assoc !in gnbs.assocGnb || setup == NoGnbId {
        return;
      }
      gnbs.SetUp(gnbs.assocGnb[assoc], setup);
      OnlyGnbsChanged();
    }

    // ---- UE associations ----

    /** Initial UE Message. `built` is the context to index if the pair is not indexed yet. */
    method HandleInitialUe(assoc: int, ran: int, built: UeNgapContext)
      requires Valid() && built.Rec() == NEW_NGAP
      modifies n2, n2.known, built
      ensures Valid() && n2.known <= old(n2.known) + {built}
      ensures State() == InitialUe(old(State()), assoc, ran, built)
    {
      if assoc !in gnbs.assocGnb || gnbs.assocGnb[assoc].state == Init {
        return;
      }
      var gnb := gnbs.assocGnb[assoc].id;
      assert GnbAt(State(), assoc).id == gnb;
      n2.FindOrAdd(ran, gnb, assoc, built);
      OnlyNgapChanged();
    }

    /** NAS signalling establishment in the APP task. `built` is the UE context to index if the key is new. */
    method HandleEstablishment(ran: int, gnb: int, given: int, built: UeContext)
      requires Valid() && built.Rec() == NEW_UE
      modifies app, app.known, built, n2, n2.known
      ensures Valid() && n2.known == old(n2.known) && app.known <= old(app.known) + {built}
      ensures State() == Establish(old(State()), ran, gnb, given, built)
    {
      ghost var s := State();
      var amf := app.Assign(ran, gnb, given, built, s);
      n2.BindUe(ran, gnb, amf, s);
      NgapAndUeChanged();
      EstablishByParts(s, ran, gnb, given, built);
    }

    method HandleDlNas(ran: int, amf: int)
      requires Valid()
      modifies this, n2, n2.known
      ensures Valid() && n2.known == old(n2.known)
      ensures State() == DlNas(old(State()), ran, amf)
    {
      if (ran, amf) !in app.keys {
        return;
      }
      var gnb := app.keys[(ran, amf)].gnb;
      if (ran, gnb) !in n2.byRan {
        return;
      }
      var unc := n2.byRan[(ran, gnb)];
      assert ByKey(State(), ran, amf) == Some(unc);
      if unc.assoc !in gnbs.assocGnb {
        return;
      }
      var to := gnbs.assocGnb[unc.assoc].assoc;
      assert GnbAt(State(), unc.assoc).assoc == to;
      n2.Connect(unc, amf);
      sent := sent + [DownlinkNas(to, amf, ran)];
      OnlyNgapChanged();
    }

    twostate lemma NgapAndNasChanged()
      requires unchanged(app) && unchanged(app.known) && unchanged(gnbs) && unchanged(gnbs.known)
      ensures State() == old(State()).(ues := n2.Index(), n1 := n1.Index(), sent := sent)
    {
    }

    // ---- Release ----

    /** UE Context Release Complete. */
    method HandleReleaseComplete(assoc: int, ran: int, amf: int)
      requires Valid()
      modifies n2, n2.known, n1.known
      ensures Valid() && n2.known == old(n2.known)
      ensures State() == ReleaseComplete(old(State()), assoc, ran, amf)
    {
      if (ran, amf) !in app.keys || amf !in n2.byAmf || assoc !in gnbs.assocGnb {
        return;
      }
      ghost var s := State();
      var unc := n2.byAmf[amf];
      var gnb := gnbs.assocGnb[assoc].id;
      assert GnbAt(s, assoc).id == gnb && NgapOf(s, unc) == unc.Rec();
      if unc.releaseCause == CAUSE_SUCCESSFUL_HANDOVER && gnb == unc.releaseGnb {
        n2.ReleaseSource(unc, ran, gnb);
        OnlyNgapChanged();
      } else {
        ReleaseUeContexts(ran, gnb, amf);
      }
    }

    method ReleaseUeContexts(ran: int, gnb: int, amf: int)
      requires Valid()
      modifies n2, n1.known
      ensures Valid() && n2.known == old(n2.known)
      ensures State() == ReleaseUe(old(State()), ran, gnb, amf)
    {
      if amf !in n1.nas {
        return;
      }
      ghost var s := State();
      var nc := n1.nas[amf];
      var supi := "imsi-" + nc.imsi;
      var current := if supi in n1.supiAmf then n1.supiAmf[supi] else INVALID_AMF_UE_NGAP_ID;
      assert CurrentAmf(s, nc) == current;
      n2.Release(ran, gnb, amf);
      if current == amf {
        n1.GoIdle(nc);
      }
      NgapAndNasChanged();
    }

    // ---- Handover ----

    /** One run of the Handover Required handler. */
    method PrepareHandover(assoc: int, ran: int, amf: int, intra: bool, target: int, secured: bool) returns (ok: bool)
      requires Valid()
      modifies this, n2.known
      ensures Valid()
      ensures State() == HandoverRequired(old(State()), assoc, ran, amf, intra, target, secured)
      ensures ok == (HandoverRoutable(old(State()), assoc, ran, amf, intra)
                     && HandoverPrepared(old(State()), amf, target, secured))
    {
      ghost var s := State();
      ok := false;
      if assoc !in gnbs.assocGnb {
        return;
      }
      var gnb := gnbs.assocGnb[assoc].id;
      assert GnbAt(s, assoc).id == gnb;
      if (ran, gnb) !in n2.byRan {
        return;
      }
      var unc := n2.byRan[(ran, gnb)];
      assert NgapOf(s, unc) == unc.Rec();
      if unc.amf != amf || !intra {
        return;
      }
      n2.Leave(unc, assoc);
      OnlyNgapChanged();
      ok := RequestHandover(unc, amf, target, secured);
    }

    /** The second half of the handler: the Handover Request to the target. */
    method RequestHandover(unc: UeNgapContext, amf: int, target: int, secured: bool) returns (ok: bool)
      requires Valid() && unc in n2.known
      modifies this, unc
      ensures Valid() && ok == HandoverPrepared(old(State()), amf, target, secured)
      ensures State() == if ok then AskTarget(old(State()), unc, amf, target) else old(State())
    {
      ok := amf in n1.nas && secured && target in gnbs.idGnb;
      if ok {
        var to := gnbs.idGnb[target].assoc;
        assert to == GnbOf(State(), gnbs.idGnb[target]).assoc;
        n2.SetTarget(unc, to);
        sent := sent + [HandoverRequest(to, amf)];
        OnlyNgapChanged();
      }
    }

    /** The task loop calls the handler, and calls it again to learn whether it failed. */
    method HandleHandoverRequired(assoc: int, ran: int, amf: int, intra: bool, target: int, secured: bool)
      requires Valid()
      modifies this, n2.known
      ensures Valid()
      ensures State() == HandoverRequiredTask(old(State()), assoc, ran, amf, intra, target, secured)
    {
      var ok := PrepareHandover(assoc, ran, amf, intra, target, secured);
      ok := PrepareHandover(assoc, ran, amf, intra, target, secured);
      if !ok {
        sent := sent + [PreparationFailure(assoc, amf, amf)];
        OnlyNgapChanged();
      }
    }

    method HandleHandoverAck(assoc: int, ran: int, amf: int, admitted: bool)
      requires Valid()
      modifies this, n2.known
      ensures Valid()
      ensures State() == HandoverAck(old(State()), assoc, ran, amf, admitted)
    {
      if assoc !in gnbs.assocGnb || amf !in n2.byAmf {
        return;
      }
      ghost var s := State();
      var unc := n2.byAmf[amf];
      assert NgapOf(s, unc) == unc.Rec();
      n2.SetTargetRan(unc, ran);
      if admitted && amf in n1.nas {
        sent := sent + [HandoverCommand(unc.assoc, amf, unc.ran)];
      }
      OnlyNgapChanged();
    }

    method HandleHandoverNotify(assoc: int, ran: int, amf: int, located: bool, built: UeContext)
      requires Valid() && built.Rec() == NEW_UE
      modifies this, n2, n2.known, app, app.known, built, n1.known
      ensures Valid() && n2.known == old(n2.known) && app.known <= old(app.known) + {built}
      ensures State() == HandoverNotify(old(State()), assoc, ran, amf, located, built)
    {
      if assoc !in gnbs.assocGnb || amf !in n2.byAmf || !located || amf !in n1.nas {
        return;
      }
      ghost var s := State();
      var gnb := gnbs.assocGnb[assoc].id;
      var unc := n2.byAmf[amf];
      var nc := n1.nas[amf];
      assert GnbAt(s, assoc).id == gnb;
      ClaimKey(ran, amf, gnb, built);
      MoveToTarget(unc, assoc, ran, amf, gnb);
      SetNasRan(nc, ran);
    }

    method ClaimKey(ran: int, amf: int, gnb: int, built: UeContext)
      requires Valid() && built.Rec() == NEW_UE
      modifies app, app.known, built
      ensures Valid() && app.known <= old(app.known) + {built}
      ensures State() == Claim(old(State()), ran, amf, gnb, built)
    {
      app.Claim(ran, amf, gnb, built);
      OnlyUeChanged();
    }

    method MoveToTarget(unc: UeNgapContext, assoc: int, ran: int, amf: int, gnb: int)
      requires Valid() && unc in n2.known
      modifies this, n2, unc
      ensures Valid() && n2.known == old(n2.known)
      ensures State() == MoveUe(old(State()), unc, assoc, ran, amf, gnb)
    {
      assert NgapOf(State(), unc) == unc.Rec();
      sent := sent + [ReleaseCommand(unc.assoc, amf, unc.ran)];
      n2.Arrive(unc, assoc, ran, gnb);
      OnlyNgapChanged();
    }

    method SetNasRan(nc: NasContext, ran: int)
      requires Valid() && nc in n1.known
      modifies nc
      ensures Valid() && State() == SetNas(old(State()), nc, NasOf(old(State()), nc).(ran := ran))
    {
      assert NasOf(State(), nc) == nc.Rec();
      n1.SetRan(nc, ran);
      OnlyNasChanged();
    }

    twostate lemma OnlyUeChanged()
      requires unchanged(this) && unchanged(n2) && unchanged(n2.known) && unchanged(n1) && unchanged(n1.known)
      requires unchanged(gnbs) && unchanged(gnbs.known)
      ensures State() == old(State()).(app := app.Index())
    {
    }

    // ---- Removal of whole UEs ----

    method RemoveNas(amf: int)
      requires Valid() && amf in n1.nas
      modifies n1
      ensures Valid() && n1.known == old(n1.known)
      ensures State() == DropNas(old(State()), amf)
    {
      var nc := n1.nas[amf];
      assert NasOf(State(), nc) == nc.Rec();
      n1.RemoveByAmfAndSupi(amf, "imsi-" + nc.imsi);
      OnlyNasChanged();
    }

    method RemoveUeByAmf(amf: int)
      requires Valid()
      modifies n2, n1
      ensures Valid() && n2.known == old(n2.known) && n1.known == old(n1.known)
      ensures State() == RemoveWithAmf(old(State()), amf)
    {
      if amf in n1.nas {
        ghost var s := State();
        var nc := n1.nas[amf];
        assert NasOf(s, nc).ran == nc.ran;
        RemoveNas(amf);
        if (nc.ran, amf) !in app.keys {
          return;
        }
        var gnb := app.keys[(nc.ran, amf)].gnb;
        assert gnb == UeOf(s, s.app.keys[(nc.ran, amf)]).gnb;
        n2.Release(nc.ran, gnb, amf);
      } else {
        n2.RemoveByAmf(amf);
      }
      NgapAndNasChanged();
    }

    method RemoveUeByRan(ran: int, gnb: int)
      requires Valid()
      modifies n2, n1
      ensures Valid() && n2.known == old(n2.known) && n1.known == old(n1.known)
      ensures State() == RemoveWithRan(old(State()), ran, gnb)
    {
      if (ran, gnb) !in n2.byRan {
        return;
      }
      ghost var s := State();
      var amf := n2.byRan[(ran, gnb)].amf;
      assert amf == NgapOf(s, s.ues.byRan[(ran, gnb)]).amf;
      if amf in n1.nas {
        RemoveNas(amf);
      }
      n2.Release(ran, gnb, amf);
      NgapAndNasChanged();
    }

    /** The loop over the contexts collected from an association. */
    method RemoveUes(us: seq<UeNgapContext>, gnb: int)
      requires Valid() && forall u <- us :: u in n2.known
      modifies n2, n1
      ensures Valid() && n2.known == old(n2.known) && n1.known == old(n1.known)
      ensures State() == RemoveAll(old(State()), us, gnb)
    {
      var i := 0;
      while i < |us|
        invariant 0 <= i <= |us|
        invariant Valid() && n2.known == old(n2.known) && n1.known == old(n1.known)
        invariant RemoveAll(State(), us[i..], gnb) == RemoveAll(old(State()), us, gnb)
      {
        RemoveUe(us[i], gnb);
        assert us[i..][1..] == us[i + 1..];
        i := i + 1;
      }
    }

    method RemoveUe(u: UeNgapContext, gnb: int)
      requires Valid() && u in n2.known
      modifies n2, n1
      ensures Valid() && n2.known == old(n2.known) && n1.known == old(n1.known)
      ensures State() == RemoveOne(old(State()), u, gnb)
    {
      assert NgapOf(State(), u) == u.Rec();
      RemoveUeByAmf(u.amf);
      RemoveUeByRan(u.ran, gnb);
    }

    method MarkGnb(assoc: int, state: GnbState)
      requires Valid() && assoc in gnbs.assocGnb
      modifies gnbs.known
      ensures Valid() && State() == Mark(old(State()), assoc, state)
    {
      var gc := gnbs.assocGnb[assoc];
      assert GnbAt(State(), assoc) == gc.Rec();
      gnbs.SetState(gc, state);
      OnlyGnbsChanged();
    }

    // ---- NG Reset and shutdown ----

    /** The gNB is marked, then the UEs of its association are collected and removed. */
    method RemoveAssociation(assoc: int, state: GnbState)
      requires Valid() && assoc in gnbs.assocGnb
      modifies n2, n1, gnbs.known
      ensures Valid() && n2.known == old(n2.known) && n1.known == old(n1.known)
      ensures State() == MarkedRemoval(old(State()), assoc, state)
    {
      var gc := gnbs.assocGnb[assoc];
      assert GnbAt(State(), assoc) == gc.Rec();
      MarkGnb(assoc, state);
      var us := n2.OnAssociation(assoc, State());
      RemoveUes(us, gc.id);
    }

    /** NG Reset of the whole interface. */
    method HandleResetInterface(assoc: int)
      requires Valid()
      modifies this, n2, n1, gnbs.known
      ensures Valid() && n2.known == old(n2.known) && n1.known == old(n1.known)
      ensures State() == ResetInterface(old(State()), assoc)
    {
      if assoc !in gnbs.assocGnb {
        return;
      }
      var link := gnbs.assocGnb[assoc].assoc;
      assert GnbAt(State(), assoc).assoc == link;
      RemoveAssociation(assoc, Resetting);
      Answer(ResetAck(link));
    }

    method Answer(message: NgapMessage)
      requires Valid()
      modifies this
      ensures Valid() && State() == Send(old(State()), message)
    {
      sent := sent + [message];
    }

    method HandleShutdown(assoc: int)
      requires Valid()
      modifies this, n2, n1, gnbs, gnbs.known
      ensures Valid() && n2.known == old(n2.known) && n1.known == old(n1.known) && gnbs.known == old(gnbs.known)
      ensures State() == ShutdownAssoc(old(State()), assoc)
    {
      if assoc !in gnbs.assocGnb {
        return;
      }
      RemoveAssociation(assoc, Shutdown);
      ForgetGnb(assoc);
    }

    method ForgetGnb(id: int)
      requires Valid()
      modifies gnbs
      ensures Valid() && gnbs.known == old(gnbs.known)
      ensures State() == old(State()).(gnbs := old(State()).gnbs.(idGnb := old(State()).gnbs.idGnb - {id}))
    {
      gnbs.RemoveById(id);
      OnlyGnbsChanged();
    }

    /** NG Reset of some UE associations. */
    method HandleResetPart(assoc: int, items: seq<ResetItem>)
      requires Valid()
      modifies this, n2, n1, gnbs.known
      ensures Valid() && n2.known == old(n2.known) && n1.known == old(n1.known)
      ensures State() == ResetPart(old(State()), assoc, items)
    {
      if assoc !in gnbs.assocGnb {
        return;
      }
      var gc := gnbs.assocGnb[assoc];
      assert GnbAt(State(), assoc) == gc.Rec();
      MarkGnb(assoc, Resetting);
      RemoveItems(items, gc.id);
      Answer(ResetAck(gc.assoc));
    }

    method RemoveItems(items: seq<ResetItem>, gnb: int)
      requires Valid()
      modifies n2, n1
      ensures Valid() && n2.known == old(n2.known) && n1.known == old(n1.known)
      ensures State() == ResetItems(old(State()), items, gnb)
    {
      var i := 0;
      while i < |items|
        invariant 0 <= i <= |items|
        invariant Valid() && n2.known == old(n2.known) && n1.known == old(n1.known)
        invariant ResetItems(State(), items[i..], gnb) == ResetItems(old(State()), items, gnb)
      {
        RemoveItem(items[i], gnb);
        assert items[i..][1..] == items[i + 1..];
        i := i + 1;
      }
    }

    method RemoveItem(item: ResetItem, gnb: int)
      requires Valid()
      modifies n2, n1
      ensures Valid() && n2.known == old(n2.known) && n1.known == old(n1.known)
      ensures State() == ResetOne(old(State()), item, gnb)
    {
      if item.amf.Some? {
        RemoveUeByAmf(item.amf.value);
      } else if item.ran.Some? {
        RemoveUeByRan(item.ran.value, gnb);
      }
    }

    // ---- N1 handlers ----

    method UseKnownGuti(ran: int, amf: int, guti: string)
      requires Valid()
      modifies n1, n1.known
      ensures Valid() && n1.known == old(n1.known)
      ensures State() == UseGuti(old(State()), ran, amf, guti)
    {
      if guti !in n1.gutiNas {
        return;
      }
      var nc := n1.gutiNas[guti];
      assert NasOf(State(), nc) == nc.Rec();
      n1.Readdress(nc, ran, amf, guti);
      n1.SetByAmf(amf, nc);
      n1.SetSupiIds("imsi-" + nc.imsi, ran, amf);
      n1.SetBySupi("imsi-" + nc.imsi, nc);
      OnlyNasChanged();
    }

    /** Uplink NAS transport up to the dispatch on the message type. `built` is indexed if no context is found. */
    method HandleUplinkNas(ran: int, amf: int, guti: Option<string>, readable: bool, establishing: bool,
                           built: NasContext)
      requires Valid() && built.Rec() == NEW_NAS && built !in n1.known
      modifies n1, n1.known, built
      ensures Valid() && n1.known <= old(n1.known) + {built}
      ensures State() == UplinkNas(old(State()), ran, amf, guti, readable, establishing, built)
    {
      var nc: NasContext? := null;
      if guti.Some? {
        if guti.value in n1.gutiNas {
          nc := n1.gutiNas[guti.value];
        }
        UseKnownGuti(ran, amf, guti.value);
      } else if amf in n1.nas {
        nc := n1.nas[amf];
      }
      if readable && establishing {
        IndexNasContext(ran, amf, nc, built);
      }
    }

    method IndexNasContext(ran: int, amf: int, nc: NasContext?, built: NasContext)
      requires Valid() && built.Rec() == NEW_NAS && (nc != null ==> nc in n1.known)
      modifies n1, built
      ensures Valid() && n1.known <= old(n1.known) + {built}
      ensures State() == IndexNas(old(State()), ran, amf, if nc == null then None else Some(nc), built)
    {
      if nc == null {
        n1.Introduce(ran, amf, built);
      } else {
        n1.SetByAmf(amf, nc);
      }
      OnlyNasChanged();
    }

    /** Registration Request. */
    method HandleRegistration(ran: int, amf: int, imsi: Option<string>)
      requires Valid()
      modifies n1, n1.known
      ensures Valid() && n1.known == old(n1.known)
      ensures State() == RegistrationRequest(old(State()), ran, amf, imsi)
    {
      if amf !in n1.nas || (ran, amf) !in app.keys {
        return;
      }
      var nc := n1.nas[amf];
      assert NasOf(State(), nc) == nc.Rec();
      n1.Identify(nc, ran, amf, imsi);
      if imsi.Some? {
        n1.SetBySupi("imsi-" + imsi.value, nc);
        n1.SetSupiIds("imsi-" + imsi.value, ran, amf);
      }
      OnlyNasChanged();
    }

    /** Identity Response with a SUCI. `built` is the context to index if there is none. */
    method HandleIdentityResponse(ran: int, amf: int, imsi: string, built: NasContext)
      requires Valid() && built.Rec() == NEW_NAS && built !in n1.known
      modifies n1, n1.known, built
      ensures Valid() && n1.known <= old(n1.known) + {built}
      ensures State() == IdentityResponse(old(State()), ran, amf, imsi, built)
    {
      IdentifyUe(ran, amf, imsi, built);
      RecordIds("imsi-" + imsi, ran, amf);
    }

    method IdentifyUe(ran: int, amf: int, imsi: string, built: NasContext)
      requires Valid() && built.Rec() == NEW_NAS && built !in n1.known
      modifies n1, n1.known, built
      ensures Valid() && n1.known <= old(n1.known) + {built}
      ensures State() == IdentifiedUe(old(State()), ran, amf, imsi, built)
    {
      n1.FindOrAdd(ran, amf, imsi, built);
      OnlyNasChanged();
    }

    method RecordIds(supi: string, ran: int, amf: int)
      requires Valid()
      modifies n1
      ensures Valid() && n1.known == old(n1.known)
      ensures State() == RecordSupi(old(State()), supi, ran, amf)
    {
      n1.SetSupiIds(supi, ran, amf);
      OnlyNasChanged();
    }

    /** Security Mode Complete: the GUTI newly assigned to the UE is indexed, if the handler gets so far. */
    method HandleSecurityModeComplete(ran: int, amf: int, guti: Option<string>)
      requires Valid()
      modifies n1
      ensures Valid() && n1.known == old(n1.known)
      ensures State() == SecurityModeComplete(old(State()), ran, amf, guti)
    {
      if (ran, amf) !in app.keys || amf !in n1.nas || guti.None? {
        return;
      }
      n1.SetByGuti(guti.value, n1.nas[amf]);
      OnlyNasChanged();
    }

    /** Service Request. A context without a GUTI takes over what the context known by the GUTI holds. */
    method HandleServiceRequest(ran: int, amf: int, guti: Option<string>, secured: bool)
      requires Valid()
      modifies n1, n1.known
      ensures Valid() && n1.known == old(n1.known)
      ensures State() == ServiceRequest(old(State()), ran, amf, guti, secured)
    {
      if amf !in n1.nas || (ran, amf) !in app.keys {
        return;
      }
      var nc := n1.nas[amf];
      InheritContext(nc, guti);
      assert NasOf(State(), nc).imsi == nc.imsi;
      if secured {
        RecordIds("imsi-" + nc.imsi, ran, amf);
      }
    }

    method InheritContext(nc: NasContext, guti: Option<string>)
      requires Valid() && nc in n1.known
      modifies nc
      ensures Valid() && State() == SetNas(old(State()), nc, Inherited(old(State()), nc, guti))
    {
      assert NasOf(State(), nc) == nc.Rec();
      if nc.guti.None? && guti.Some? && guti.value in n1.gutiNas {
        var older := n1.gutiNas[guti.value];
        assert NasOf(State(), older) == older.Rec();
        n1.TakeOver(nc, older);
      } else {
        n1.Written(nc);
      }
      OnlyNasChanged();
    }

    /** Deregistration Request, once the UE's PDU sessions have been released. */
    method HandleDeregistration(amf: int, guti: string)
      requires Valid()
      modifies n1
      ensures Valid() && n1.known == old(n1.known)
      ensures State() == Deregister(old(State()), amf, guti)
    {
      if amf !in n1.nas {
        return;
      }
      var nc := n1.nas[amf];
      assert NasOf(State(), nc) == nc.Rec();
      if (nc.ran, nc.amf) in app.keys {
        RemoveNas(amf);
        n1.RemoveByGuti(guti);
        OnlyNasChanged();
      }
    }

    // ---- The task loops ----

    /** No index knows the context that comes with an event. */
    ghost predicate Unknown(e: Event)
      reads n2, app, n1, gnbs
    {
      && (forall u <- n2.known :: u !in Built(e)) && (forall uc <- app.known :: uc !in Built(e))
      && (forall n <- n1.known :: n !in Built(e)) && (forall g <- gnbs.known :: g !in Built(e))
    }

    /** It has just been built, too. */
    ghost predicate Fits(e: Event)
      reads n2, app, n1, gnbs, Built(e)
    {
      Unknown(e) && New(e)
    }

    ghost predicate Grown(old2: set<UeNgapContext>, oldApp: set<UeContext>, old1: set<NasContext>,
                          oldGnbs: set<GnbContext>, e: Event)
      reads n2, app, n1, gnbs
    {
      && (forall u <- n2.known :: u in old2 || u in Built(e))
      && (forall uc <- app.known :: uc in oldApp || uc in Built(e))
      && (forall n <- n1.known :: n in old1 || n in Built(e))
      && (forall g <- gnbs.known :: g in oldGnbs || g in Built(e))
    }

    method HandleN1(e: N1Event)
      requires Valid() && Fits(OnN1(e))
      modifies n1, n1.known, Built(OnN1(e))
      ensures Valid() && Grown(n2.known, app.known, old(n1.known), gnbs.known, OnN1(e))
      ensures State() == N1Step(old(State()), e)
    {
      match e
      case UplinkNasEvent(ran, amf, guti, readable, establishing, built) =>
        HandleUplinkNas(ran, amf, guti, readable, establishing, built);
      case RegistrationEvent(ran, amf, imsi) => HandleRegistration(ran, amf, imsi);
      case IdentityEvent(ran, amf, imsi, built) => HandleIdentityResponse(ran, amf, imsi, built);
      case SecurityModeCompleteEvent(ran, amf, guti) => HandleSecurityModeComplete(ran, amf, guti);
      case ServiceRequestEvent(ran, amf, guti, secured) => HandleServiceRequest(ran, amf, guti, secured);
      case DeregisterEvent(amf, guti) => HandleDeregistration(amf, guti);
    }

    /** The procedures of the NG interface itself. */
    predicate ForInterface(e: N2Event) {
      e.AssociationEvent? || e.NgSetupEvent? || e.ResetInterfaceEvent? || e.ResetPartEvent? || e.ShutdownEvent?
    }

    method HandleInterface(e: N2Event)
      requires Valid() && Fits(OnN2(e)) && ForInterface(e)
      modifies this, n2, n1, gnbs, gnbs.known
      ensures Valid() && Grown(old(n2.known), app.known, old(n1.known), old(gnbs.known), OnN2(e))
      ensures State() == N2Step(old(State()), e)
    {
      match e
      case AssociationEvent(assoc, built) => HandleNewAssociation(assoc, built);
      case NgSetupEvent(assoc, setup) => HandleNgSetup(assoc, setup);
      case ResetInterfaceEvent(assoc) => HandleResetInterface(assoc);
      case ResetPartEvent(assoc, items) => HandleResetPart(assoc, items);
      case ShutdownEvent(assoc) => HandleShutdown(assoc);
    }

    predicate ForHandover(e: N2Event) {
      e.HandoverRequiredEvent? || e.HandoverAckEvent? || e.HandoverNotifyEvent?
    }

    method HandleHandover(e: N2Event)
      requires Valid() && Fits(OnN2(e)) && ForHandover(e)
      modifies this, n2, n2.known, app, app.known, n1, n1.known, Built(OnN2(e))
      ensures Valid() && Grown(old(n2.known), old(app.known), old(n1.known), gnbs.known, OnN2(e))
      ensures State() == N2Step(old(State()), e)
    {
      match e
      case HandoverRequiredEvent(assoc, ran, amf, intra, target, secured) =>
        HandleHandoverRequired(assoc, ran, amf, intra, target, secured);
      case HandoverAckEvent(assoc, ran, amf, admitted) => HandleHandoverAck(assoc, ran, amf, admitted);
      case HandoverNotifyEvent(assoc, ran, amf, located, built) =>
        HandleHandoverNotify(assoc, ran, amf, located, built);
    }

    method HandleAssociation(e: N2Event)
      requires Valid() && Fits(OnN2(e)) && !ForInterface(e) && !ForHandover(e)
      modifies this, n2, n2.known, app, app.known, n1, n1.known, Built(OnN2(e))
      ensures Valid() && Grown(old(n2.known), old(app.known), old(n1.known), gnbs.known, OnN2(e))
      ensures State() == N2Step(old(State()), e)
    {
      match e
      case InitialUeEvent(assoc, ran, built) => HandleInitialUe(assoc, ran, built);
      case DlNasEvent(ran, amf) => HandleDlNas(ran, amf);
      case ReleaseCompleteEvent(assoc, ran, amf) => HandleReleaseComplete(assoc, ran, amf);
    }

    method HandleN2(e: N2Event)
      requires Valid() && Fits(OnN2(e))
      modifies this, n2, n2.known, app, app.known, n1, n1.known, gnbs, gnbs.known, Built(OnN2(e))
      ensures Valid() && Grown(old(n2.known), old(app.known), old(n1.known), old(gnbs.known), OnN2(e))
      ensures State() == N2Step(old(State()), e)
    {
      if ForInterface(e) {
        HandleInterface(e);
      } else if ForHandover(e) {
        HandleHandover(e);
      } else {
        HandleAssociation(e);
      }
    }

    /** One message, handled by the task whose queue it is in. */
    method Handle(e: Event)
      requires Valid() && Fits(e)
      modifies this, n2, n2.known, app, app.known, n1, n1.known, gnbs, gnbs.known, Built(e)
      ensures Valid() && Grown(old(n2.known), old(app.known), old(n1.known), old(gnbs.known), e)
      ensures State() == Step(old(State()), e)
    {
      match e
      case OnN2(e2) => HandleN2(e2);
      case OnApp(ran, gnb, given, built) => HandleEstablishment(ran, gnb, given, built);
      case OnN1(e1) => HandleN1(e1);
    }

    lemma FreshIsAllocated(e: Event)
      requires Valid() && Unknown(e)
      ensures Allocates(State(), e)
    {
    }

    /** Handling one message leaves alone the contexts that come with the others. */
    method HandleFirst(e: Event, ghost rest: seq<Event>)
      requires Valid() && Fits(e) && forall x <- rest :: Fits(x) && Built(e) !! Built(x)
      modifies this, n2, n2.known, app, app.known, n1, n1.known, gnbs, gnbs.known, Built(e)
      ensures Valid() && Grown(old(n2.known), old(app.known), old(n1.known), old(gnbs.known), e)
      ensures State() == Step(old(State()), e)
      ensures forall x <- rest :: New(x)
    {
      Handle(e);
    }

    /** Messages are handled one after the other, whatever task they are for. */
    method Process(es: seq<Event>)
      requires Valid() && forall e <- es :: Fits(e)
      requires forall i, j :: 0 <= i < j < |es| ==> Built(es[i]) !! Built(es[j])
      modifies this, n2, n2.known, app, app.known, n1, n1.known, gnbs, gnbs.known
      modifies set e, o | e in es && o in Built(e) :: o
      ensures Valid() && State() == UeIndexSpec.Run(old(State()), es)
      ensures Allocating(old(State()), es)
    {
      if es != [] {
        assert es[0] in es && forall e <- es[1..] :: e in es && Fits(e);
        FreshIsAllocated(es[0]);
        HandleFirst(es[0], es[1..]);
        assert forall e <- es[1..] :: Unknown(e);
        Process(es[1..]);
      }
    }

    /**
      However the messages of a disciplined run interleave, once they are handled all lookups of a UE agree, and
      the AMF id a context holds leads to nothing else.
     */
    method ProcessDisciplined(es: seq<Event>)
      requires Valid() && forall e <- es :: Fits(e)
      requires forall i, j :: 0 <= i < j < |es| ==> Built(es[i]) !! Built(es[j])
      requires NoUe(State()) && DisciplinedThroughout(State(), es)
      modifies this, n2, n2.known, app, app.known, n1, n1.known, gnbs, gnbs.known
      modifies set e, o | e in es && o in Built(e) :: o
      ensures Valid() && Agree(State()) && Bound(State())
    {
      ghost var s := State();
      NoUeIsStarted(s);
      Process(es);
      DisciplinedRunAgrees(s, es);
      AgreesAtEnd(s, es);
      BoundFromTheStart(s, es);
    }
  }

  /** The context that comes with an event, in case a handler has to index a new one. */
  ghost function Built(e: Event): set<object> {
    match e
    case OnN2(AssociationEvent(_, g)) => {g}
    case OnN2(InitialUeEvent(_, _, u)) => {u}
    case OnN2(HandoverNotifyEvent(_, _, _, _, uc)) => {uc}
    case OnApp(_, _, _, uc) => {uc}
    case OnN1(UplinkNasEvent(_, _, _, _, _, n)) => {n}
    case OnN1(IdentityEvent(_, _, _, n)) => {n}
    case _ => {}
  }

  /** The context that comes with an event is in the state its constructor leaves it in. */
  ghost predicate New(e: Event)
    reads Built(e)
  {
    match e
    case OnN2(AssociationEvent(assoc, g)) => g.Rec() == GnbRec(0, assoc, Init)
    case OnN2(InitialUeEvent(_, _, u)) => u.Rec() == NEW_NGAP
    case OnN2(HandoverNotifyEvent(_, _, _, _, uc)) => uc.Rec() == NEW_UE
    case OnApp(_, _, _, uc) => uc.Rec() == NEW_UE
    case OnN1(UplinkNasEvent(_, _, _, _, _, n)) => n.Rec() == NEW_NAS
    case OnN1(IdentityEvent(_, _, _, n)) => n.Rec() == NEW_NAS
    case _ => true
  }
}
