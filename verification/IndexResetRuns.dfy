/**
  NG Reset and shutdown in the states of disciplined runs: there the NAS context of a UE leads to no entry of
  another one, so what is removed are the entries, ids and NAS contexts of the association and nothing else.
 */
module IndexResetRuns {
  import opened Wrappers
  import opened LexOrder
  import opened Contexts
  import opened UeIndexSpec
  import opened IndexAgreement
  import opened IndexRuns
  import opened IndexRouting
  import opened IndexReset
  import opened IndexPending

  /** Where the AMF id a context holds leads to nothing else, its NAS context leads to no entry of another UE. */
  lemma BoundLeadsHome(s: Snapshot, u: UeNgapContext)
    requires Bound(s) && Known(s, u)
    ensures LeadsHome(s, u)
  {
    BoundIsHome(s, u);
    if LedPair(s, u).Some? && LedPair(s, u).value in s.ues.byRan {
      var k := LedPair(s, u).value;
      assert Lookup(s, ByKeyOf(k.0), NgapOf(s, u).amf) == Some(s.ues.byRan[k]);
    }
  }

  lemma BoundLeadsBack(s: Snapshot, assoc: int)
    requires Bound(s) && assoc in s.gnbs.assocGnb
    ensures LeadsBack(s, assoc)
  {
    forall k | OnThis(s, assoc, k) ensures LeadsHome(s, s.ues.byRan[k]) {
      assert s.ues.byRan[k] in s.ues.byRan.Values;
      BoundLeadsHome(s, s.ues.byRan[k]);
    }
  }

  /** An entry of another association under another gNB's id is taken by no context of this one. */
  lemma OthersAreNotTaken(s: Snapshot, assoc: int, k: Pair)
    requires Bound(s) && assoc in s.gnbs.assocGnb
    requires k in s.ues.byRan && !OnThis(s, assoc, k) && k.1 != GnbAt(s, assoc).id
    ensures !Taken(s, Collect(s, assoc), GnbAt(s, assoc).id, k)
  {
    forall u | u in Collect(s, assoc) ensures LedPair(s, u) != Some(k) {
      CollectedIsOnThis(s, assoc, u);
      assert u in s.ues.byRan.Values;
      BoundLeadsHome(s, u);
    }
  }

  /** In every state of every disciplined run the entries of other associations under other gNBs' ids are kept. */
  lemma OthersStayAfterRun(s: Snapshot, es: seq<Event>, assoc: int, k: Pair)
    requires NoUe(s) && Allocating(s, es) && DisciplinedThroughout(s, es)
    requires assoc in Run(s, es).gnbs.assocGnb && k in Run(s, es).ues.byRan
    requires !OnThis(Run(s, es), assoc, k) && k.1 != GnbAt(Run(s, es), assoc).id
    ensures var last := Run(s, es);
            && ByPair(ResetInterface(last, assoc), k.0, k.1) == Some(last.ues.byRan[k])
            && ByPair(ShutdownAssoc(last, assoc), k.0, k.1) == Some(last.ues.byRan[k])
  {
    BoundFromTheStart(s, es);
    OthersAreNotTaken(Run(s, es), assoc, k);
    LeftBounds(Run(s, es), assoc);
    BothLeave(Run(s, es), assoc);
  }

  /** A disciplined and orderly run from the start, after which no entry on the association pends. */
  ghost predicate Settled(s: Snapshot, es: seq<Event>, assoc: int) {
    && NoUe(s) && Allocating(s, es) && DisciplinedThroughout(s, es) && OrderlyThroughout(s, {}, es)
    && assoc in Run(s, es).gnbs.assocGnb && forall k <- Pending(s, {}, es) :: !OnThis(Run(s, es), assoc, k)
  }

  lemma SettledIsOwn(s: Snapshot, es: seq<Event>, assoc: int)
    requires Settled(s, es, assoc)
    ensures OwnKeys(Run(s, es), assoc) && LeadsBack(Run(s, es), assoc)
  {
    OwnButFromTheStart(s, es);
    OwnButElsewhere(Run(s, es), Pending(s, {}, es), assoc);
    BoundFromTheStart(s, es);
    BoundLeadsBack(Run(s, es), assoc);
  }

  /** After such a run a full reset and a shutdown remove exactly the entries of the association. */
  lemma EntriesAfterReleases(s: Snapshot, es: seq<Event>, assoc: int, k: Pair)
    requires Settled(s, es, assoc)
    ensures var last := Run(s, es);
            && (k in ResetInterface(last, assoc).ues.byRan <==> k in last.ues.byRan && !OnThis(last, assoc, k))
            && (k in ShutdownAssoc(last, assoc).ues.byRan <==> k in last.ues.byRan && !OnThis(last, assoc, k))
  {
    SettledIsOwn(s, es, assoc);
    ResetRemovesTheAssociation(Run(s, es), assoc, k);
  }

  /** And they remove from the index by AMF id exactly the ids of its UEs. */
  lemma IdsAfterReleases(s: Snapshot, es: seq<Event>, assoc: int, a: int)
    requires Settled(s, es, assoc)
    ensures var last := Run(s, es);
            && (a in ResetInterface(last, assoc).ues.byAmf <==>
                a in last.ues.byAmf && !exists k :: OnThis(last, assoc, k) && NgapOf(last, last.ues.byRan[k]).amf == a)
            && (a in ShutdownAssoc(last, assoc).ues.byAmf <==> a in ResetInterface(last, assoc).ues.byAmf)
  {
    SettledIsOwn(s, es, assoc);
    ResetRemovesTheIds(Run(s, es), assoc, a);
  }
}
