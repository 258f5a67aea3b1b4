/**
  Runs with handovers: every entry is an own one except those at sources that have not been released yet, and
  these are all a reset can leave behind.
 */
module IndexPending {
  import opened LexOrder
  import opened Contexts
  import opened UeIndexSpec
  import opened IndexReset
  import opened IndexOwnKeys

  // ---- One message ----

  /** The entries at sources of handovers that are still indexed after this message. */
  ghost function PendingAfter(s: Snapshot, pending: set<Pair>, e: Event): set<Pair> {
    (match e
     case OnN2(HandoverNotifyEvent(assoc, ran, amf, located, _)) =>
       if NotifyAccepted(s, assoc, amf, located)
       then pending + {SourcePair(s, amf)} - {(ran, GnbAt(s, assoc).id)}
       else pending
     case _ => pending)
    * Step(s, e).ues.byRan.Keys
  }

  /**
    A source does not start anything for the UE under the pair it has handed over before it has released it,
    and no gNB gives itself another id under its UEs.
   */
  ghost predicate Orderly(s: Snapshot, pending: set<Pair>, e: Event) {
    match e
    case OnN2(InitialUeEvent(assoc, ran, _)) =>
      InitialUeAccepted(s, assoc) ==> (ran, GnbAt(s, assoc).id) !in pending
    case OnN2(HandoverRequiredEvent(assoc, ran, _, _, _, _)) =>
      assoc in s.gnbs.assocGnb ==> (ran, GnbAt(s, assoc).id) !in pending
    case OnN2(NgSetupEvent(assoc, setup)) => !Renames(s, assoc, setup)
    case _ => true
  }

  lemma KeepingEntriesKeepsOwnBut(s: Snapshot, s': Snapshot, pending: set<Pair>)
    requires OwnBut(s, pending) && KeepsEntries(s, s')
    ensures OwnBut(s', pending)
  {
    forall k | k !in pending ensures OwnEntry(s', k) {
      assert OwnEntry(s, k);
    }
  }

  lemma OnlyIndexedPend(s: Snapshot, pending: set<Pair>)
    requires OwnBut(s, pending)
    ensures OwnBut(s, pending * s.ues.byRan.Keys)
  {
    forall k | k !in pending * s.ues.byRan.Keys ensures OwnEntry(s, k) {
    }
  }

  lemma InitialUeKeepsOwnBut(s: Snapshot, pending: set<Pair>, assoc: int, ran: int, u: UeNgapContext)
    requires OwnBut(s, pending) && u !in s.ues.byRan.Values
    requires InitialUeAccepted(s, assoc) ==> (ran, GnbAt(s, assoc).id) !in pending
    ensures OwnBut(InitialUe(s, assoc, ran, u), pending)
  {
    var s' := InitialUe(s, assoc, ran, u);
    if InitialUeAccepted(s, assoc) {
      assert OwnEntry(s, (ran, GnbAt(s, assoc).id));
    }
    forall k | k !in pending ensures OwnEntry(s', k) {
      assert OwnEntry(s, k);
      if k in s.ues.byRan {
        assert s.ues.byRan[k] in s.ues.byRan.Values;
      }
    }
  }

  lemma HandoverRequiredKeepsOwnBut(s: Snapshot, pending: set<Pair>, assoc: int, ran: int, amf: int, intra: bool,
                                    target: int, secured: bool)
    requires OwnBut(s, pending) && (assoc in s.gnbs.assocGnb ==> (ran, GnbAt(s, assoc).id) !in pending)
    ensures var s' := HandoverRequired(s, assoc, ran, amf, intra, target, secured);
            OwnBut(s', pending) && s'.gnbs == s.gnbs
  {
    var s' := HandoverRequired(s, assoc, ran, amf, intra, target, secured);
    if assoc in s.gnbs.assocGnb {
      assert OwnEntry(s, (ran, GnbAt(s, assoc).id));
    }
    forall k | k !in pending ensures OwnEntry(s', k) {
      assert OwnEntry(s, k);
    }
  }

  lemma PreparationKeepsOwnBut(s: Snapshot, pending: set<Pair>, assoc: int, ran: int, amf: int, intra: bool,
                               target: int, secured: bool)
    requires OwnBut(s, pending) && (assoc in s.gnbs.assocGnb ==> (ran, GnbAt(s, assoc).id) !in pending)
    ensures OwnBut(HandoverRequiredTask(s, assoc, ran, amf, intra, target, secured), pending)
  {
    var first := HandoverRequired(s, assoc, ran, amf, intra, target, secured);
    var second := HandoverRequired(first, assoc, ran, amf, intra, target, secured);
    HandoverRequiredKeepsOwnBut(s, pending, assoc, ran, amf, intra, target, secured);
    HandoverRequiredKeepsOwnBut(first, pending, assoc, ran, amf, intra, target, secured);
    KeepingEntriesKeepsOwnBut(second, Send(second, PreparationFailure(assoc, amf, amf)), pending);
  }

  lemma NgSetupKeepsOwnBut(s: Snapshot, pending: set<Pair>, assoc: int, setup: Setup)
    requires OwnBut(s, pending) && !Renames(s, assoc, setup)
    ensures OwnBut(NgSetup(s, assoc, setup), pending)
  {
    var s' := NgSetup(s, assoc, setup);
    forall k | k !in pending ensures OwnEntry(s', k) {
      assert OwnEntry(s, k);
      if k in s.ues.byRan {
        NgSetupOnGnb(s, assoc, setup, NgapOf(s, s.ues.byRan[k]).assoc);
      }
    }
  }

  /** Over each orderly message all entries stay own ones but those at sources that have not been released. */
  lemma StepKeepsOwnBut(s: Snapshot, pending: set<Pair>, e: Event)
    requires OwnBut(s, pending) && Allocates(s, e) && Orderly(s, pending, e)
    ensures OwnBut(Step(s, e), PendingAfter(s, pending, e))
  {
    var s' := Step(s, e);
    match e
    case OnN2(NgSetupEvent(assoc, setup)) =>
      NgSetupKeepsOwnBut(s, pending, assoc, setup);
      OnlyIndexedPend(s', pending);
    case OnN2(InitialUeEvent(assoc, ran, u)) =>
      InitialUeKeepsOwnBut(s, pending, assoc, ran, u);
      OnlyIndexedPend(s', pending);
    case OnN2(HandoverRequiredEvent(assoc, ran, amf, intra, target, secured)) =>
      PreparationKeepsOwnBut(s, pending, assoc, ran, amf, intra, target, secured);
      OnlyIndexedPend(s', pending);
    case OnN2(HandoverNotifyEvent(assoc, ran, amf, located, uc)) =>
      if NotifyAccepted(s, assoc, amf, located) {
        NotifyLeavesOneEntry(s, pending, assoc, ran, amf, uc);
        OnlyIndexedPend(s', pending + {SourcePair(s, amf)} - {(ran, GnbAt(s, assoc).id)});
      } else {
        OnlyIndexedPend(s', pending);
      }
    case OnN2(e2) =>
      OnlyRemovingKeepsEntries(s, e2);
      KeepingEntriesKeepsOwnBut(s, s', pending);
      OnlyIndexedPend(s', pending);
    case _ =>
      OtherTasksKeepEntries(s, e);
      KeepingEntriesKeepsOwnBut(s, s', pending);
      OnlyIndexedPend(s', pending);
  }

  // ---- Runs ----

  /** The sources of the handovers of this run that have not been released at its end. */
  ghost function Pending(s: Snapshot, pending: set<Pair>, es: seq<Event>): set<Pair>
    decreases |es|
  {
    if es == [] then pending else Pending(Step(s, es[0]), PendingAfter(s, pending, es[0]), es[1..])
  }

  ghost predicate OrderlyThroughout(s: Snapshot, pending: set<Pair>, es: seq<Event>)
    decreases |es|
  {
    es != [] ==>
      && Orderly(s, pending, es[0])
      && OrderlyThroughout(Step(s, es[0]), PendingAfter(s, pending, es[0]), es[1..])
  }

  lemma {:induction false} RunKeepsOwnBut(s: Snapshot, pending: set<Pair>, es: seq<Event>)
    requires OwnBut(s, pending) && Allocating(s, es) && OrderlyThroughout(s, pending, es)
    ensures OwnBut(Run(s, es), Pending(s, pending, es))
    decreases |es|
  {
    if es == [] {
    } else {
      StepKeepsOwnBut(s, pending, es[0]);
      RunKeepsOwnBut(Step(s, es[0]), PendingAfter(s, pending, es[0]), es[1..]);
    }
  }

  /** Event i of the run is an accepted Handover Notify for a UE that this pair served. */
  ghost predicate HandedOver(s: Snapshot, es: seq<Event>, i: nat, k: Pair)
    requires i < |es|
  {
    match es[i]
    case OnN2(HandoverNotifyEvent(assoc, ran, amf, located, _)) =>
      NotifyAccepted(Run(s, es[..i]), assoc, amf, located) && SourcePair(Run(s, es[..i]), amf) == k
    case _ => false
  }

  lemma HandedOverLater(s: Snapshot, es: seq<Event>, i: nat, k: Pair)
    requires es != [] && i + 1 < |es|
    ensures HandedOver(Step(s, es[0]), es[1..], i, k) <==> HandedOver(s, es, i + 1, k)
  {
    assert es[..i + 1][1..] == es[1..][..i];
  }

  /** What pends at the end of a run is still indexed, and is the source of a handover of the run. */
  lemma {:induction false} PendingIsHandedOver(s: Snapshot, pending: set<Pair>, es: seq<Event>, k: Pair)
    requires k in Pending(s, pending, es)
    ensures k in pending || exists i :: 0 <= i < |es| && HandedOver(s, es, i, k)
    ensures es != [] ==> k in Run(s, es).ues.byRan
    decreases |es|
  {
    if es == [] {
    } else {
      var next := PendingAfter(s, pending, es[0]);
      PendingIsHandedOver(Step(s, es[0]), next, es[1..], k);
      if k in next {
        assert es[..0] == [];
        assert k in pending || HandedOver(s, es, 0, k);
      } else {
        var i :| 0 <= i < |es[1..]| && HandedOver(Step(s, es[0]), es[1..], i, k);
        HandedOverLater(s, es, i, k);
      }
    }
  }

  // ---- Resets ----

  /** Of the entries on the association a full reset or a shutdown leaves at most those that pend. */
  lemma ResetLeavesPending(s: Snapshot, pending: set<Pair>, assoc: int, k: Pair)
    requires OwnBut(s, pending) && assoc in s.gnbs.assocGnb && OnThis(s, assoc, k)
    ensures k in ResetInterface(s, assoc).ues.byRan || k in ShutdownAssoc(s, assoc).ues.byRan ==> k in pending
    ensures NgapOf(s, s.ues.byRan[k]).amf !in ResetInterface(s, assoc).n1.nas
    ensures NgapOf(s, s.ues.byRan[k]).amf !in ShutdownAssoc(s, assoc).n1.nas
  {
    BothLeave(s, assoc);
    LeftBounds(s, assoc);
    if k !in pending {
      assert OwnEntry(s, k);
    }
  }

  lemma OwnButElsewhere(s: Snapshot, pending: set<Pair>, assoc: int)
    requires OwnBut(s, pending) && assoc in s.gnbs.assocGnb && forall k <- pending :: !OnThis(s, assoc, k)
    ensures OwnKeys(s, assoc)
  {
    forall k | OnThis(s, assoc, k) ensures k == OwnPair(s, s.ues.byRan[k], GnbAt(s, assoc).id) {
      assert OwnEntry(s, k);
    }
  }

  lemma OwnButFromTheStart(s: Snapshot, es: seq<Event>)
    requires s.ues.byRan == map[] && Allocating(s, es) && OrderlyThroughout(s, {}, es)
    ensures OwnBut(Run(s, es), Pending(s, {}, es))
  {
    assert forall k :: OwnEntry(s, k);
    RunKeepsOwnBut(s, {}, es);
  }

  /**
    After an orderly run with any handovers in it, a full reset or a shutdown removes every NAS context of the
    association and leaves at most the entries of handovers that their sources have not released.
   */
  lemma ResetAfterRun(s: Snapshot, es: seq<Event>, assoc: int, k: Pair)
    requires s.ues.byRan == map[] && Allocating(s, es) && OrderlyThroughout(s, {}, es)
    requires OnThis(Run(s, es), assoc, k) && assoc in Run(s, es).gnbs.assocGnb
    ensures var last := Run(s, es);
            && (k in ResetInterface(last, assoc).ues.byRan || k in ShutdownAssoc(last, assoc).ues.byRan
                ==> k in Pending(s, {}, es))
            && NgapOf(last, last.ues.byRan[k]).amf !in ResetInterface(last, assoc).n1.nas
            && NgapOf(last, last.ues.byRan[k]).amf !in ShutdownAssoc(last, assoc).n1.nas
  {
    OwnButFromTheStart(s, es);
    ResetLeavesPending(Run(s, es), Pending(s, {}, es), assoc, k);
  }

  /** Where none of these entries is on the association, exactly its UEs leave the NAS index. */
  lemma ResetAfterReleases(s: Snapshot, es: seq<Event>, assoc: int, a: int)
    requires s.ues.byRan == map[] && Allocating(s, es) && OrderlyThroughout(s, {}, es)
    requires assoc in Run(s, es).gnbs.assocGnb && forall k <- Pending(s, {}, es) :: !OnThis(Run(s, es), assoc, k)
    ensures var last := Run(s, es);
            && (a in ResetInterface(last, assoc).n1.nas <==>
                a in last.n1.nas && !exists k :: OnThis(last, assoc, k) && NgapOf(last, last.ues.byRan[k]).amf == a)
            && (a in ShutdownAssoc(last, assoc).n1.nas <==> a in ResetInterface(last, assoc).n1.nas)
  {
    OwnButFromTheStart(s, es);
    OwnButElsewhere(Run(s, es), Pending(s, {}, es), assoc);
    ResetRemovesTheUes(Run(s, es), assoc, a);
  }
}
