/**
  What a full NG Reset or the shutdown of an association removes: the loops take one NGAP context after
  the other out of the indexes, each by its AMF id and by its RAN id.
 */
module IndexReset {
  import opened Wrappers
  import opened LexOrder
  import opened Contexts
  import opened UeIndexSpec

  // ---- Which contexts are collected ----

  lemma {:induction false} OnAssocFinds(s: Snapshot, assoc: int, order: seq<Pair>, u: UeNgapContext)
    requires forall k <- order :: k in s.ues.byRan
    ensures u in OnAssoc(s, assoc, order) <==>
            NgapOf(s, u).assoc == assoc && exists k <- order :: s.ues.byRan[k] == u
  {
    if order == [] {
    } else {
      OnAssocFinds(s, assoc, order[1..], u);
      assert order == [order[0]] + order[1..];
    }
  }

  /** The walk over the index finds each NGAP context that is indexed and on this association. */
  lemma CollectFinds(s: Snapshot, assoc: int, u: UeNgapContext)
    ensures u in Collect(s, assoc) <==>
            NgapOf(s, u).assoc == assoc && exists k <- s.ues.byRan :: s.ues.byRan[k] == u
  {
    var order := Sorted(s.ues.byRan.Keys);
    OnAssocFinds(s, assoc, order, u);
    assert forall k :: k in order <==> k in s.ues.byRan;
  }

  // ---- The entries a context takes with it ----

  function OwnPair(s: Snapshot, u: UeNgapContext, gnb: int): Pair {
    (NgapOf(s, u).ran, gnb)
  }

  /** The entry that the NAS context under this AMF id leads to, by its RAN id and the UE context key. */
  function Led(s: Snapshot, amf: int): Option<Pair> {
    if amf !in s.n1.nas then None
    else
      match KeyGnb(s, NasOf(s, s.n1.nas[amf]).ran, amf)
      case None => None
      case Some(gnb) => Some((NasOf(s, s.n1.nas[amf]).ran, gnb))
  }

  function LedPair(s: Snapshot, u: UeNgapContext): Option<Pair> {
    Led(s, NgapOf(s, u).amf)
  }

  /** The entry k is an own pair of a context in us, or a NAS context of theirs leads to it. */
  ghost predicate Taken(s: Snapshot, us: seq<UeNgapContext>, gnb: int, k: Pair) {
    exists u <- us :: k == OwnPair(s, u, gnb) || LedPair(s, u) == Some(k)
  }

  ghost predicate HasAmf(s: Snapshot, us: seq<UeNgapContext>, amf: int) {
    exists u <- us :: NgapOf(s, u).amf == amf
  }

  // ---- One context ----

  lemma RemoveWithAmfEffect(s: Snapshot, u: UeNgapContext)
    ensures var s' := RemoveWithAmf(s, NgapOf(s, u).amf);
            && (forall k :: k in s'.ues.byRan <==> k in s.ues.byRan && LedPair(s, u) != Some(k))
            && (forall a :: a in s'.n1.nas <==> a in s.n1.nas && a != NgapOf(s, u).amf)
  {
  }

  lemma RemoveWithAmfOnAmfIndex(s: Snapshot, u: UeNgapContext)
    ensures var s' := RemoveWithAmf(s, NgapOf(s, u).amf);
            && (forall a :: a != NgapOf(s, u).amf ==> (a in s'.ues.byAmf <==> a in s.ues.byAmf))
            && (NgapOf(s, u).amf in s'.ues.byAmf ==> LedPair(s, u) == None)
  {
  }

  lemma RemoveWithRanEffect(s: Snapshot, ran: int, gnb: int)
    ensures var s' := RemoveWithRan(s, ran, gnb);
            && (forall k :: k in s'.ues.byRan <==> k in s.ues.byRan && k != (ran, gnb))
            && (forall a :: a in s'.n1.nas <==>
                            && a in s.n1.nas
                            && !((ran, gnb) in s.ues.byRan && a == NgapOf(s, s.ues.byRan[(ran, gnb)]).amf))
  {
  }

  lemma RemoveWithRanOnAmfIndex(s: Snapshot, ran: int, gnb: int)
    ensures var s' := RemoveWithRan(s, ran, gnb);
            forall a :: a in s'.ues.byAmf <==>
                        a in s.ues.byAmf && !((ran, gnb) in s.ues.byRan && a == NgapOf(s, s.ues.byRan[(ran, gnb)]).amf)
  {
  }

  /** On the index by RAN id, removing one context takes exactly its own pair and the pair its NAS context leads to. */
  lemma RemoveOneEffect(s: Snapshot, u: UeNgapContext, gnb: int)
    ensures var s' := RemoveOne(s, u, gnb);
            && (forall k :: k in s'.ues.byRan <==>
                            k in s.ues.byRan && k != OwnPair(s, u, gnb) && LedPair(s, u) != Some(k))
            && NgapOf(s, u).amf !in s'.n1.nas
  {
    RemoveWithAmfEffect(s, u);
    RemoveWithRanEffect(RemoveWithAmf(s, NgapOf(s, u).amf), NgapOf(s, u).ran, gnb);
  }

  // ---- The loop, from any state ----

  lemma LedPairShrinks(s: Snapshot, s': Snapshot, u: UeNgapContext)
    requires Shrinks(s, s')
    ensures LedPair(s', u) == LedPair(s, u) || NgapOf(s, u).amf !in s'.n1.nas
    ensures LedPair(s', u).Some? ==> LedPair(s', u) == LedPair(s, u)
  {
  }

  /** What is indexed after one removal is indexed as before: nothing comes back later in the loop. */
  lemma NothingComesBack(s: Snapshot, u: UeNgapContext, us: seq<UeNgapContext>, gnb: int)
    ensures Shrinks(s, RemoveOne(s, u, gnb))
    ensures Shrinks(RemoveOne(s, u, gnb), RemoveAll(RemoveOne(s, u, gnb), us, gnb))
    ensures OwnPair(s, u, gnb) !in RemoveAll(RemoveOne(s, u, gnb), us, gnb).ues.byRan
    ensures NgapOf(s, u).amf !in RemoveAll(RemoveOne(s, u, gnb), us, gnb).n1.nas
  {
    RemoveOneShrinks(s, u, gnb);
    RemoveOneEffect(s, u, gnb);
    RemoveAllShrinks(RemoveOne(s, u, gnb), us, gnb);
  }

  lemma {:induction false} RemoveAllTakes(s: Snapshot, us: seq<UeNgapContext>, gnb: int, u: UeNgapContext)
    requires u in us
    ensures OwnPair(s, u, gnb) !in RemoveAll(s, us, gnb).ues.byRan
    ensures NgapOf(s, u).amf !in RemoveAll(s, us, gnb).n1.nas
    decreases |us|
  {
    NothingComesBack(s, us[0], us[1..], gnb);
    if u == us[0] {
    } else {
      RemoveAllTakes(RemoveOne(s, us[0], gnb), us[1..], gnb, u);
    }
  }

  lemma {:induction false} RemoveAllSpares(s: Snapshot, us: seq<UeNgapContext>, gnb: int, k: Pair)
    requires k in s.ues.byRan && !Taken(s, us, gnb, k)
    ensures k in RemoveAll(s, us, gnb).ues.byRan
    decreases |us|
  {
    if us == [] {
    } else {
      var s1 := RemoveOne(s, us[0], gnb);
      RemoveOneShrinks(s, us[0], gnb);
      RemoveOneEffect(s, us[0], gnb);
      assert us[0] in us;
      forall u | u in us[1..] ensures k != OwnPair(s1, u, gnb) && LedPair(s1, u) != Some(k) {
        LedPairShrinks(s, s1, u);
        assert u in us;
      }
      RemoveAllSpares(s1, us[1..], gnb, k);
    }
  }

  // ---- The loop, exactly ----

  /** A collected context whose own pair is indexed is what the pair indexes. */
  ghost predicate Anchored(s: Snapshot, us: seq<UeNgapContext>, gnb: int) {
    forall u <- us :: OwnPair(s, u, gnb) in s.ues.byRan ==> s.ues.byRan[OwnPair(s, u, gnb)] == u
  }

  lemma AnchoredShrinks(s: Snapshot, s': Snapshot, us: seq<UeNgapContext>, gnb: int)
    requires us != [] && Anchored(s, us, gnb) && Shrinks(s, s')
    ensures Anchored(s', us[1..], gnb)
  {
    assert forall u <- us[1..] :: u in us;
  }

  lemma RemoveOneAnchored(s: Snapshot, u: UeNgapContext, gnb: int)
    requires Anchored(s, [u], gnb)
    ensures forall a :: a in RemoveOne(s, u, gnb).n1.nas <==> a in s.n1.nas && a != NgapOf(s, u).amf
  {
    var s1 := RemoveWithAmf(s, NgapOf(s, u).amf);
    RemoveWithAmfEffect(s, u);
    RemoveWithAmfShrinks(s, NgapOf(s, u).amf);
    RemoveWithRanEffect(s1, NgapOf(s, u).ran, gnb);
    assert u in [u];
  }

  lemma {:induction false} RemoveAllNasExactly(s: Snapshot, us: seq<UeNgapContext>, gnb: int, a: int)
    requires Anchored(s, us, gnb)
    ensures a in RemoveAll(s, us, gnb).n1.nas <==> a in s.n1.nas && !HasAmf(s, us, a)
    decreases |us|
  {
    if us == [] {
    } else {
      var s1 := RemoveOne(s, us[0], gnb);
      assert us == [us[0]] + us[1..];
      RemoveOneShrinks(s, us[0], gnb);
      RemoveOneAnchored(s, us[0], gnb);
      AnchoredShrinks(s, s1, us, gnb);
      RemoveAllNasExactly(s1, us[1..], gnb, a);
      assert forall u :: u in us <==> u == us[0] || u in us[1..];
      assert HasAmf(s, us, a) <==> NgapOf(s, us[0]).amf == a || HasAmf(s1, us[1..], a);
    }
  }

  /** A later context's NAS context leads where it led before, unless it has been removed as that of this one. */
  lemma TakenByRest(s: Snapshot, us: seq<UeNgapContext>, gnb: int, k: Pair)
    requires us != [] && Anchored(s, us, gnb)
    ensures var s1 := RemoveOne(s, us[0], gnb);
            Taken(s, us, gnb, k) <==>
            k == OwnPair(s, us[0], gnb) || LedPair(s, us[0]) == Some(k) || Taken(s1, us[1..], gnb, k)
  {
    var s1 := RemoveOne(s, us[0], gnb);
    RemoveOneShrinks(s, us[0], gnb);
    RemoveOneAnchored(s, us[0], gnb);
    assert us == [us[0]] + us[1..];
    forall u | u in us[1..]
      ensures OwnPair(s1, u, gnb) == OwnPair(s, u, gnb)
      ensures LedPair(s1, u) == LedPair(s, u) || LedPair(s, u) == LedPair(s, us[0])
      ensures LedPair(s1, u).Some? ==> LedPair(s1, u) == LedPair(s, u)
    {
      LedPairShrinks(s, s1, u);
      assert NgapOf(s, u).amf == NgapOf(s, us[0]).amf ==> LedPair(s, u) == LedPair(s, us[0]);
    }
  }

  lemma {:induction false} RemoveAllExactly(s: Snapshot, us: seq<UeNgapContext>, gnb: int, k: Pair)
    requires Anchored(s, us, gnb)
    ensures k in RemoveAll(s, us, gnb).ues.byRan <==> k in s.ues.byRan && !Taken(s, us, gnb, k)
    decreases |us|
  {
    if us == [] {
    } else {
      var s1 := RemoveOne(s, us[0], gnb);
      RemoveOneShrinks(s, us[0], gnb);
      RemoveOneEffect(s, us[0], gnb);
      AnchoredShrinks(s, s1, us, gnb);
      TakenByRest(s, us, gnb, k);
      RemoveAllExactly(s1, us[1..], gnb, k);
    }
  }

  /** The entry that the NAS context under the AMF id of u leads to, if there is one, is one of u. */
  ghost predicate LeadsHome(s: Snapshot, u: UeNgapContext) {
    LedPair(s, u).Some? && LedPair(s, u).value in s.ues.byRan ==> s.ues.byRan[LedPair(s, u).value] == u
  }

  /** A context still to be removed is indexed under its own pair, or its AMF id is indexed no more. */
  ghost predicate Removable(s: Snapshot, u: UeNgapContext, gnb: int) {
    ByPair(s, NgapOf(s, u).ran, gnb) == Some(u) || NgapOf(s, u).amf !in s.ues.byAmf
  }

  lemma RemoveOneIds(s: Snapshot, u: UeNgapContext, gnb: int)
    requires Removable(s, u, gnb) && LeadsHome(s, u) && Anchored(s, [u], gnb)
    ensures forall a :: a in RemoveOne(s, u, gnb).ues.byAmf <==> a in s.ues.byAmf && a != NgapOf(s, u).amf
  {
    var s1 := RemoveWithAmf(s, NgapOf(s, u).amf);
    assert u in [u];
    RemoveWithAmfEffect(s, u);
    RemoveWithAmfOnAmfIndex(s, u);
    RemoveWithAmfShrinks(s, NgapOf(s, u).amf);
    RemoveWithRanOnAmfIndex(s1, NgapOf(s, u).ran, gnb);
  }

  lemma RemovableStays(s: Snapshot, u: UeNgapContext, v: UeNgapContext, gnb: int)
    requires Removable(s, u, gnb) && LeadsHome(s, u) && Anchored(s, [u], gnb)
    requires Removable(s, v, gnb) && LeadsHome(s, v) && Anchored(s, [v], gnb)
    ensures var s' := RemoveOne(s, u, gnb); Removable(s', v, gnb) && LeadsHome(s', v)
  {
    var s' := RemoveOne(s, u, gnb);
    RemoveOneShrinks(s, u, gnb);
    RemoveOneIds(s, u, gnb);
    RemoveOneEffect(s, u, gnb);
    LedPairShrinks(s, s', v);
    assert u in [u] && v in [v];
  }

  lemma {:induction false} RemoveAllIdsExactly(s: Snapshot, us: seq<UeNgapContext>, gnb: int, a: int)
    requires Anchored(s, us, gnb) && forall u <- us :: Removable(s, u, gnb) && LeadsHome(s, u)
    ensures a in RemoveAll(s, us, gnb).ues.byAmf <==> a in s.ues.byAmf && !HasAmf(s, us, a)
    decreases |us|
  {
    if us == [] {
    } else {
      var s1 := RemoveOne(s, us[0], gnb);
      assert forall u :: u in us <==> u == us[0] || u in us[1..];
      RemoveOneShrinks(s, us[0], gnb);
      RemoveOneIds(s, us[0], gnb);
      AnchoredShrinks(s, s1, us, gnb);
      forall v | v in us[1..] ensures Removable(s1, v, gnb) && LeadsHome(s1, v) {
        RemovableStays(s, us[0], v, gnb);
      }
      RemoveAllIdsExactly(s1, us[1..], gnb, a);
      assert HasAmf(s, us, a) <==> NgapOf(s, us[0]).amf == a || HasAmf(s1, us[1..], a);
    }
  }

  // ---- The two procedures ----

  lemma {:induction false} OnAssocCongruent(s: Snapshot, t: Snapshot, assoc: int, order: seq<Pair>)
    requires s.ues == t.ues && forall k <- order :: k in s.ues.byRan
    ensures OnAssoc(s, assoc, order) == OnAssoc(t, assoc, order)
  {
    if order == [] {
    } else {
      OnAssocCongruent(s, t, assoc, order[1..]);
    }
  }

  ghost predicate SameUes(s: Snapshot, t: Snapshot) {
    s.ues == t.ues && s.app == t.app && s.n1 == t.n1
  }

  lemma RemoveWithAmfCongruent(s: Snapshot, t: Snapshot, amf: int)
    requires SameUes(s, t)
    ensures SameUes(RemoveWithAmf(s, amf), RemoveWithAmf(t, amf))
  {
  }

  lemma RemoveWithRanCongruent(s: Snapshot, t: Snapshot, ran: int, gnb: int)
    requires SameUes(s, t)
    ensures SameUes(RemoveWithRan(s, ran, gnb), RemoveWithRan(t, ran, gnb))
  {
  }

  lemma RemoveOneCongruent(s: Snapshot, t: Snapshot, u: UeNgapContext, gnb: int)
    requires SameUes(s, t)
    ensures SameUes(RemoveOne(s, u, gnb), RemoveOne(t, u, gnb))
  {
    var amf := NgapOf(s, u).amf;
    RemoveWithAmfCongruent(s, t, amf);
    RemoveWithRanCongruent(RemoveWithAmf(s, amf), RemoveWithAmf(t, amf), NgapOf(s, u).ran, gnb);
  }

  lemma {:induction false} RemoveAllCongruent(s: Snapshot, t: Snapshot, us: seq<UeNgapContext>, gnb: int)
    requires SameUes(s, t)
    ensures SameUes(RemoveAll(s, us, gnb), RemoveAll(t, us, gnb))
    decreases |us|
  {
    if us == [] {
    } else {
      RemoveOneCongruent(s, t, us[0], gnb);
      RemoveAllCongruent(RemoveOne(s, us[0], gnb), RemoveOne(t, us[0], gnb), us[1..], gnb);
    }
  }

  /** What is left of s once the contexts on an association have been removed. */
  ghost function Left(s: Snapshot, assoc: int): Snapshot
    requires assoc in s.gnbs.assocGnb
  {
    RemoveAll(s, Collect(s, assoc), GnbAt(s, assoc).id)
  }

  /** A full reset and a shutdown remove the same. */
  lemma BothLeave(s: Snapshot, assoc: int)
    requires assoc in s.gnbs.assocGnb
    ensures SameUes(ResetInterface(s, assoc), Left(s, assoc))
    ensures SameUes(ShutdownAssoc(s, assoc), Left(s, assoc))
  {
    var gnb := GnbAt(s, assoc).id;
    var us := Collect(s, assoc);
    OnAssocCongruent(s, Mark(s, assoc, Resetting), assoc, Sorted(s.ues.byRan.Keys));
    RemoveAllCongruent(Mark(s, assoc, Resetting), s, us, gnb);
    OnAssocCongruent(s, Mark(s, assoc, Shutdown), assoc, Sorted(s.ues.byRan.Keys));
    RemoveAllCongruent(Mark(s, assoc, Shutdown), s, us, gnb);
  }

  ghost predicate OnThis(s: Snapshot, assoc: int, k: Pair) {
    k in s.ues.byRan && NgapOf(s, s.ues.byRan[k]).assoc == assoc
  }

  /** From any state: what is surely gone, and what surely stays. */
  lemma LeftBounds(s: Snapshot, assoc: int)
    requires assoc in s.gnbs.assocGnb
    ensures forall k :: OnThis(s, assoc, k) ==>
                          && OwnPair(s, s.ues.byRan[k], GnbAt(s, assoc).id) !in Left(s, assoc).ues.byRan
                          && NgapOf(s, s.ues.byRan[k]).amf !in Left(s, assoc).n1.nas
    ensures forall k :: k in s.ues.byRan && !Taken(s, Collect(s, assoc), GnbAt(s, assoc).id, k) ==>
                          k in Left(s, assoc).ues.byRan && Left(s, assoc).ues.byRan[k] == s.ues.byRan[k]
    ensures Left(s, assoc).ues.ngap == s.ues.ngap && Left(s, assoc).app == s.app
  {
    var gnb := GnbAt(s, assoc).id;
    var us := Collect(s, assoc);
    RemoveAllShrinks(s, us, gnb);
    forall k | OnThis(s, assoc, k)
      ensures OwnPair(s, s.ues.byRan[k], gnb) !in Left(s, assoc).ues.byRan
      ensures NgapOf(s, s.ues.byRan[k]).amf !in Left(s, assoc).n1.nas
    {
      CollectFinds(s, assoc, s.ues.byRan[k]);
      RemoveAllTakes(s, us, gnb, s.ues.byRan[k]);
    }
    forall k | k in s.ues.byRan && !Taken(s, us, gnb, k) ensures k in Left(s, assoc).ues.byRan {
      RemoveAllSpares(s, us, gnb, k);
    }
  }

  /** When the collected contexts are indexed under their own pairs, exactly what they take is gone. */
  lemma LeftExactly(s: Snapshot, assoc: int)
    requires assoc in s.gnbs.assocGnb && Anchored(s, Collect(s, assoc), GnbAt(s, assoc).id)
    ensures forall k :: k in Left(s, assoc).ues.byRan <==>
                        k in s.ues.byRan && !Taken(s, Collect(s, assoc), GnbAt(s, assoc).id, k)
    ensures forall a :: a in Left(s, assoc).n1.nas <==> a in s.n1.nas && !HasAmf(s, Collect(s, assoc), a)
  {
    var us := Collect(s, assoc);
    forall k ensures k in Left(s, assoc).ues.byRan <==> k in s.ues.byRan && !Taken(s, us, GnbAt(s, assoc).id, k) {
      RemoveAllExactly(s, us, GnbAt(s, assoc).id, k);
    }
    forall a ensures a in Left(s, assoc).n1.nas <==> a in s.n1.nas && !HasAmf(s, us, a) {
      RemoveAllNasExactly(s, us, GnbAt(s, assoc).id, a);
    }
  }

  /** The association is left without an entry exactly when each is an own pair or one a NAS context leads to. */
  lemma NothingLeftOnAssociation(s: Snapshot, assoc: int)
    requires assoc in s.gnbs.assocGnb && Anchored(s, Collect(s, assoc), GnbAt(s, assoc).id)
    ensures (forall k :: !OnThis(Left(s, assoc), assoc, k)) <==>
            (forall k :: OnThis(s, assoc, k) ==> Taken(s, Collect(s, assoc), GnbAt(s, assoc).id, k))
  {
    LeftExactly(s, assoc);
    RemoveAllShrinks(s, Collect(s, assoc), GnbAt(s, assoc).id);
    forall k ensures OnThis(Left(s, assoc), assoc, k) <==>
                     OnThis(s, assoc, k) && !Taken(s, Collect(s, assoc), GnbAt(s, assoc).id, k)
    {
    }
  }

  /** The entries of other associations are all kept exactly when no NAS context of a removed UE leads to one. */
  lemma OthersKept(s: Snapshot, assoc: int)
    requires assoc in s.gnbs.assocGnb && Anchored(s, Collect(s, assoc), GnbAt(s, assoc).id)
    ensures (forall k <- s.ues.byRan :: !OnThis(s, assoc, k) ==> k in Left(s, assoc).ues.byRan) <==>
            (forall u <- Collect(s, assoc), k <- s.ues.byRan :: LedPair(s, u) == Some(k) ==> OnThis(s, assoc, k))
  {
    var us := Collect(s, assoc);
    var gnb := GnbAt(s, assoc).id;
    LeftExactly(s, assoc);
    forall k | k in s.ues.byRan && !OnThis(s, assoc, k)
      ensures Taken(s, us, gnb, k) <==> exists u <- us :: LedPair(s, u) == Some(k)
    {
      forall u | u in us ensures k != OwnPair(s, u, gnb) {
        CollectFinds(s, assoc, u);
      }
    }
  }

  /** Every entry of the association is the own pair of what it indexes. */
  ghost predicate OwnKeys(s: Snapshot, assoc: int)
    requires assoc in s.gnbs.assocGnb
  {
    forall k :: OnThis(s, assoc, k) ==> k == OwnPair(s, s.ues.byRan[k], GnbAt(s, assoc).id)
  }

  /** Every NAS context of a UE on the association leads to an entry of that UE, if it leads to one. */
  ghost predicate LeadsBack(s: Snapshot, assoc: int)
    requires assoc in s.gnbs.assocGnb
  {
    forall k :: OnThis(s, assoc, k) ==>
                  LeadsHome(s, s.ues.byRan[k])
  }

  lemma OwnKeysAnchor(s: Snapshot, assoc: int)
    requires assoc in s.gnbs.assocGnb && OwnKeys(s, assoc)
    ensures Anchored(s, Collect(s, assoc), GnbAt(s, assoc).id)
    ensures forall k :: OnThis(s, assoc, k) ==> Taken(s, Collect(s, assoc), GnbAt(s, assoc).id, k)
  {
    var us := Collect(s, assoc);
    var gnb := GnbAt(s, assoc).id;
    forall u | u in us ensures OwnPair(s, u, gnb) in s.ues.byRan && s.ues.byRan[OwnPair(s, u, gnb)] == u {
      CollectFinds(s, assoc, u);
      var k :| k in s.ues.byRan && s.ues.byRan[k] == u;
      assert OnThis(s, assoc, k);
    }
    forall k | OnThis(s, assoc, k) ensures Taken(s, us, gnb, k) {
      CollectFinds(s, assoc, s.ues.byRan[k]);
      assert s.ues.byRan[k] in us;
    }
  }

  lemma CollectedIsOnThis(s: Snapshot, assoc: int, u: UeNgapContext)
    ensures u in Collect(s, assoc) <==> exists k :: OnThis(s, assoc, k) && s.ues.byRan[k] == u
  {
    CollectFinds(s, assoc, u);
  }

  lemma HasAmfOnThis(s: Snapshot, assoc: int, a: int)
    ensures HasAmf(s, Collect(s, assoc), a) <==> exists k :: OnThis(s, assoc, k) && NgapOf(s, s.ues.byRan[k]).amf == a
  {
    if HasAmf(s, Collect(s, assoc), a) {
      var u :| u in Collect(s, assoc) && NgapOf(s, u).amf == a;
      CollectedIsOnThis(s, assoc, u);
    }
    if k :| OnThis(s, assoc, k) && NgapOf(s, s.ues.byRan[k]).amf == a {
      CollectedIsOnThis(s, assoc, s.ues.byRan[k]);
    }
  }

  lemma TakenIsOnThis(s: Snapshot, assoc: int, k: Pair)
    requires assoc in s.gnbs.assocGnb && OwnKeys(s, assoc) && LeadsBack(s, assoc) && k in s.ues.byRan
    ensures Taken(s, Collect(s, assoc), GnbAt(s, assoc).id, k) <==> OnThis(s, assoc, k)
  {
    OwnKeysAnchor(s, assoc);
    if Taken(s, Collect(s, assoc), GnbAt(s, assoc).id, k) {
      var u :| u in Collect(s, assoc) && (k == OwnPair(s, u, GnbAt(s, assoc).id) || LedPair(s, u) == Some(k));
      CollectedIsOnThis(s, assoc, u);
    }
  }

  /**
    With own keys and NAS contexts that lead back, a full reset and a shutdown remove from the index by
    RAN id exactly the entries of the association.
   */
  lemma ResetRemovesTheAssociation(s: Snapshot, assoc: int, k: Pair)
    requires assoc in s.gnbs.assocGnb && OwnKeys(s, assoc) && LeadsBack(s, assoc)
    ensures k in ResetInterface(s, assoc).ues.byRan <==> k in s.ues.byRan && !OnThis(s, assoc, k)
    ensures k in ShutdownAssoc(s, assoc).ues.byRan <==> k in s.ues.byRan && !OnThis(s, assoc, k)
  {
    BothLeave(s, assoc);
    OwnKeysAnchor(s, assoc);
    RemoveAllExactly(s, Collect(s, assoc), GnbAt(s, assoc).id, k);
    if k in s.ues.byRan {
      TakenIsOnThis(s, assoc, k);
    }
  }

  /** With own keys they remove from the NAS index exactly the UEs of the association. */
  lemma ResetRemovesTheUes(s: Snapshot, assoc: int, a: int)
    requires assoc in s.gnbs.assocGnb && OwnKeys(s, assoc)
    ensures a in ResetInterface(s, assoc).n1.nas <==>
            a in s.n1.nas && !(exists k :: OnThis(s, assoc, k) && NgapOf(s, s.ues.byRan[k]).amf == a)
    ensures a in ShutdownAssoc(s, assoc).n1.nas <==> a in ResetInterface(s, assoc).n1.nas
  {
    BothLeave(s, assoc);
    OwnKeysAnchor(s, assoc);
    RemoveAllNasExactly(s, Collect(s, assoc), GnbAt(s, assoc).id, a);
    HasAmfOnThis(s, assoc, a);
  }

  /** With own keys and NAS contexts that lead back they remove from the index by AMF id exactly these UEs' ids. */
  lemma ResetRemovesTheIds(s: Snapshot, assoc: int, a: int)
    requires assoc in s.gnbs.assocGnb && OwnKeys(s, assoc) && LeadsBack(s, assoc)
    ensures a in ResetInterface(s, assoc).ues.byAmf <==>
            a in s.ues.byAmf && !(exists k :: OnThis(s, assoc, k) && NgapOf(s, s.ues.byRan[k]).amf == a)
    ensures a in ShutdownAssoc(s, assoc).ues.byAmf <==> a in ResetInterface(s, assoc).ues.byAmf
  {
    var us := Collect(s, assoc);
    var gnb := GnbAt(s, assoc).id;
    BothLeave(s, assoc);
    forall u | u in us ensures ByPair(s, NgapOf(s, u).ran, gnb) == Some(u) && LeadsHome(s, u) {
      CollectedIsOnThis(s, assoc, u);
    }
    RemoveAllIdsExactly(s, us, gnb, a);
    HasAmfOnThis(s, assoc, a);
  }

  /**
    After an accepted handover the source's entry is on the target's association without being an own pair
    there, and a full reset by the target's gNB leaves it behind.
   */
  lemma HandedOverEntryIsLeftBehind(s: Snapshot, assoc: int, ran: int, amf: int, uc: UeContext, source: Pair)
    requires NotifyAccepted(s, assoc, amf, true)
    requires source in s.ues.byRan && s.ues.byRan[source] == s.ues.byAmf[amf] && source.1 != GnbAt(s, assoc).id
    requires var s' := HandoverNotify(s, assoc, ran, amf, true, uc);
             forall u <- Collect(s', assoc) :: LedPair(s', u) != Some(source)
    ensures var s' := HandoverNotify(s, assoc, ran, amf, true, uc);
            OnThis(s', assoc, source) && OnThis(ResetInterface(s', assoc), assoc, source)
  {
    var s' := HandoverNotify(s, assoc, ran, amf, true, uc);
    assert s'.gnbs == s.gnbs;
    assert OnThis(s', assoc, source);
    assert forall u :: source != OwnPair(s', u, GnbAt(s', assoc).id);
    LeftBounds(s', assoc);
    BothLeave(s', assoc);
  }
}
