/**
  What a partial NG Reset removes: item by item, the AMF UE NGAP id first if it is there, and over any list of
  items what is surely gone and what surely stays.
 */
module IndexPartialReset {
  import opened Wrappers
  import opened LexOrder
  import opened Contexts
  import opened UeIndexSpec
  import opened IndexReset

  function ByAmfId(x: int, ran: Option<int>): ResetItem {
    ResetItem(Some(x), ran)
  }

  function ByRanId(ran: int): ResetItem {
    ResetItem(None, Some(ran))
  }

  // ---- One item ----

  /** The NAS contexts and the SUPIs they are known by, once the one under this AMF id has been removed. */
  ghost predicate LosesNas(s: Snapshot, s': Snapshot, x: int) {
    && (forall a :: a in s'.n1.nas <==> a in s.n1.nas && a != x)
    && (forall supi :: supi in s'.n1.supiNas <==>
                       supi in s.n1.supiNas && !(x in s.n1.nas && supi == "imsi-" + NasOf(s, s.n1.nas[x]).imsi))
  }

  lemma AmfItemEffect(s: Snapshot, x: int)
    ensures var s' := RemoveWithAmf(s, x);
            && LosesNas(s, s', x)
            && (forall k :: k in s'.ues.byRan <==> k in s.ues.byRan && Led(s, x) != Some(k))
  {
  }

  lemma AmfItemOnIds(s: Snapshot, x: int)
    ensures forall a :: a in RemoveWithAmf(s, x).ues.byAmf <==>
                        a in s.ues.byAmf && !(a == x && (x !in s.n1.nas || Led(s, x).Some?))
  {
  }

  lemma RanItemEffect(s: Snapshot, ran: int, gnb: int)
    requires (ran, gnb) in s.ues.byRan
    ensures var x := NgapOf(s, s.ues.byRan[(ran, gnb)]).amf;
            var s' := RemoveWithRan(s, ran, gnb);
            && LosesNas(s, s', x)
            && (forall k :: k in s'.ues.byRan <==> k in s.ues.byRan && k != (ran, gnb))
            && (forall a :: a in s'.ues.byAmf <==> a in s.ues.byAmf && a != x)
  {
  }

  lemma OneItem(s: Snapshot, assoc: int, item: ResetItem)
    requires assoc in s.gnbs.assocGnb
    ensures SameUes(ResetPart(s, assoc, [item]), ResetOne(s, item, GnbAt(s, assoc).id))
  {
    var s1 := Mark(s, assoc, Resetting);
    assert [item][1..] == [];
    assert ResetItems(s1, [item], GnbAt(s, assoc).id) == ResetOne(s1, item, GnbAt(s, assoc).id);
    match item
    case ResetItem(Some(x), _) => RemoveWithAmfCongruent(s1, s, x);
    case ResetItem(None, Some(ran)) => RemoveWithRanCongruent(s1, s, ran, GnbAt(s, assoc).id);
    case ResetItem(None, None) =>
  }

  /**
    An item with an AMF id removes the NAS context under it and the entry that context leads to. The id itself
    stays indexed exactly if there is a NAS context but no UE context under its ids.
   */
  lemma ItemWithAmfId(s: Snapshot, assoc: int, x: int, ran: Option<int>)
    requires assoc in s.gnbs.assocGnb
    ensures var s' := ResetPart(s, assoc, [ByAmfId(x, ran)]);
            && LosesNas(s, s', x)
            && (forall k :: k in s'.ues.byRan <==> k in s.ues.byRan && Led(s, x) != Some(k))
            && (forall a :: a in s'.ues.byAmf <==>
                            a in s.ues.byAmf && !(a == x && (x !in s.n1.nas || Led(s, x).Some?)))
  {
    OneItem(s, assoc, ByAmfId(x, ran));
    AmfItemEffect(s, x);
    AmfItemOnIds(s, x);
  }

  /** An item with a RAN id only removes the gNB's entry under it, the AMF id its UE holds and that NAS context. */
  lemma ItemWithRanId(s: Snapshot, assoc: int, ran: int)
    requires assoc in s.gnbs.assocGnb
    ensures var s' := ResetPart(s, assoc, [ByRanId(ran)]);
            var k := (ran, GnbAt(s, assoc).id);
            if k !in s.ues.byRan then SameUes(s', s)
            else
              var x := NgapOf(s, s.ues.byRan[k]).amf;
              && LosesNas(s, s', x)
              && (forall j :: j in s'.ues.byRan <==> j in s.ues.byRan && j != k)
              && (forall a :: a in s'.ues.byAmf <==> a in s.ues.byAmf && a != x)
  {
    var gnb := GnbAt(s, assoc).id;
    OneItem(s, assoc, ByRanId(ran));
    if (ran, gnb) in s.ues.byRan {
      RanItemEffect(s, ran, gnb);
    }
  }

  /** An item without ids removes nothing. */
  lemma ItemWithoutIds(s: Snapshot, assoc: int)
    ensures SameUes(ResetPart(s, assoc, [ResetItem(None, None)]), s)
  {
    if assoc in s.gnbs.assocGnb {
      OneItem(s, assoc, ResetItem(None, None));
    }
  }

  // ---- Any items ----

  lemma {:induction false} ItemsInTwoParts(s: Snapshot, items: seq<ResetItem>, items': seq<ResetItem>, gnb: int)
    ensures ResetItems(s, items + items', gnb) == ResetItems(ResetItems(s, items, gnb), items', gnb)
    decreases |items|
  {
    if items == [] {
      assert items + items' == items';
    } else {
      assert (items + items')[0] == items[0] && (items + items')[1..] == items[1..] + items';
      ItemsInTwoParts(ResetOne(s, items[0], gnb), items[1..], items', gnb);
    }
  }

  lemma {:induction false} ItemsCongruent(s: Snapshot, t: Snapshot, items: seq<ResetItem>, gnb: int)
    requires SameUes(s, t)
    ensures SameUes(ResetItems(s, items, gnb), ResetItems(t, items, gnb))
    decreases |items|
  {
    if items == [] {
    } else {
      match items[0] {
        case ResetItem(Some(x), _) => RemoveWithAmfCongruent(s, t, x);
        case ResetItem(None, Some(ran)) => RemoveWithRanCongruent(s, t, ran, gnb);
        case ResetItem(None, None) =>
      }
      ItemsCongruent(ResetOne(s, items[0], gnb), ResetOne(t, items[0], gnb), items[1..], gnb);
    }
  }

  lemma PartIsItems(s: Snapshot, assoc: int, items: seq<ResetItem>)
    requires assoc in s.gnbs.assocGnb
    ensures SameUes(ResetPart(s, assoc, items), ResetItems(s, items, GnbAt(s, assoc).id))
    ensures var s' := ResetPart(s, assoc, items);
            && s'.sent == s.sent + [ResetAck(GnbAt(s, assoc).assoc)]
            && s'.gnbs.assocGnb == s.gnbs.assocGnb && s'.gnbs.idGnb == s.gnbs.idGnb
            && GnbAt(s', assoc) == GnbAt(s, assoc).(state := Resetting)
  {
    ItemsCongruent(Mark(s, assoc, Resetting), s, items, GnbAt(s, assoc).id);
    ResetItemsShrinks(Mark(s, assoc, Resetting), items, GnbAt(s, assoc).id);
  }

  /** The items of a list are reset one after the other, and the reset is acknowledged to the gNB. */
  lemma PartInTwoParts(s: Snapshot, assoc: int, items: seq<ResetItem>, items': seq<ResetItem>)
    requires assoc in s.gnbs.assocGnb
    ensures SameUes(ResetPart(s, assoc, items + items'), ResetPart(ResetPart(s, assoc, items), assoc, items'))
    ensures ResetPart(s, assoc, items).sent == s.sent + [ResetAck(GnbAt(s, assoc).assoc)]
  {
    var gnb := GnbAt(s, assoc).id;
    var s1 := ResetPart(s, assoc, items);
    PartIsItems(s, assoc, items);
    PartIsItems(s, assoc, items + items');
    PartIsItems(s1, assoc, items');
    ItemsInTwoParts(s, items, items', gnb);
    ItemsCongruent(s1, ResetItems(s, items, gnb), items', gnb);
  }

  /** An item names this entry, by its RAN id or by an AMF id whose NAS context leads to it. */
  ghost predicate Names(s: Snapshot, items: seq<ResetItem>, gnb: int, k: Pair) {
    exists item <- items :: match item
                            case ResetItem(Some(x), _) => Led(s, x) == Some(k)
                            case ResetItem(None, Some(ran)) => k == (ran, gnb)
                            case ResetItem(None, None) => false
  }

  /** An item has a RAN id only, and the gNB's entry under it is of a UE that holds this AMF id. */
  ghost predicate MeansByRan(s: Snapshot, items: seq<ResetItem>, gnb: int, a: int) {
    exists item <- items :: item.amf == None && item.ran.Some?
                            && (item.ran.value, gnb) in s.ues.byRan
                            && NgapOf(s, s.ues.byRan[(item.ran.value, gnb)]).amf == a
  }

  ghost predicate HasAmfId(items: seq<ResetItem>, a: int) {
    exists item <- items :: item.amf == Some(a)
  }

  lemma OneItemShrinks(s: Snapshot, item: ResetItem, gnb: int)
    ensures Shrinks(s, ResetOne(s, item, gnb))
  {
    ResetItemsShrinks(s, [item], gnb);
    assert [item][1..] == [];
    assert ResetItems(s, [item], gnb) == ResetOne(s, item, gnb);
  }

  /** What one item leaves of the entries, the NAS contexts and the AMF ids. */
  lemma OneItemEffect(s: Snapshot, item: ResetItem, gnb: int)
    ensures var s' := ResetOne(s, item, gnb);
            && (forall k :: k in s'.ues.byRan <==> k in s.ues.byRan && !Names(s, [item], gnb, k))
            && (forall a :: a in s'.n1.nas <==>
                            a in s.n1.nas && item.amf != Some(a) && !MeansByRan(s, [item], gnb, a))
            && (forall a :: a in s'.ues.byAmf <==>
                            a in s.ues.byAmf && !MeansByRan(s, [item], gnb, a)
                            && !(item.amf == Some(a) && (a !in s.n1.nas || Led(s, a).Some?)))
  {
    assert item in [item];
    match item
    case ResetItem(Some(x), _) =>
      AmfItemEffect(s, x);
      AmfItemOnIds(s, x);
    case ResetItem(None, Some(ran)) =>
      if (ran, gnb) in s.ues.byRan {
        RanItemEffect(s, ran, gnb);
      }
    case ResetItem(None, None) =>
  }

  /** What no item names or means stays, with what it indexes. */
  lemma {:induction false} ItemsSpare(s: Snapshot, items: seq<ResetItem>, gnb: int)
    ensures var s' := ResetItems(s, items, gnb);
            && (forall k :: k in s.ues.byRan && !Names(s, items, gnb, k) ==> k in s'.ues.byRan)
            && (forall a :: !HasAmfId(items, a) && !MeansByRan(s, items, gnb, a) ==>
                              (a in s.n1.nas ==> a in s'.n1.nas) && (a in s.ues.byAmf ==> a in s'.ues.byAmf))
    decreases |items|
  {
    if items == [] {
    } else {
      var s1 := ResetOne(s, items[0], gnb);
      OneItemEffect(s, items[0], gnb);
      OneItemShrinks(s, items[0], gnb);
      ItemsSpare(s1, items[1..], gnb);
      LaterItemsMeanLess(s, s1, items, gnb);
    }
  }

  lemma LedShrinks(s: Snapshot, s': Snapshot, x: int)
    requires Shrinks(s, s')
    ensures Led(s', x) == if x in s'.n1.nas then Led(s, x) else None
  {
  }

  lemma LaterItemsMeanLess(s: Snapshot, s1: Snapshot, items: seq<ResetItem>, gnb: int)
    requires items != [] && Shrinks(s, s1)
    ensures forall k :: Names(s, [items[0]], gnb, k) || Names(s1, items[1..], gnb, k) ==> Names(s, items, gnb, k)
    ensures forall a :: MeansByRan(s, [items[0]], gnb, a) || MeansByRan(s1, items[1..], gnb, a) ==>
                          MeansByRan(s, items, gnb, a)
    ensures forall a :: HasAmfId(items, a) <==> items[0].amf == Some(a) || HasAmfId(items[1..], a)
  {
    assert items[0] in items && (forall item <- items[1..] :: item in items);
    assert items == [items[0]] + items[1..];
    forall x ensures Led(s1, x) == if x in s1.n1.nas then Led(s, x) else None {
      LedShrinks(s, s1, x);
    }
  }

  /** An item with an AMF id: NAS context, id and the entry led to are gone, whatever other items there are. */
  lemma {:induction false} ItemsTakeAmfId(s: Snapshot, items: seq<ResetItem>, gnb: int, x: int)
    requires HasAmfId(items, x)
    ensures var s' := ResetItems(s, items, gnb);
            && x !in s'.n1.nas
            && (x !in s.n1.nas || Led(s, x).Some? ==> x !in s'.ues.byAmf)
            && (Led(s, x).Some? && !MeansByRan(s, items, gnb, x) ==> Led(s, x).value !in s'.ues.byRan)
    decreases |items|
  {
    var s1 := ResetOne(s, items[0], gnb);
    OneItemEffect(s, items[0], gnb);
    OneItemShrinks(s, items[0], gnb);
    LaterItemsMeanLess(s, s1, items, gnb);
    ResetItemsShrinks(s1, items[1..], gnb);
    if items[0].amf == Some(x) {
      assert items[0] in [items[0]];
    } else {
      LedShrinks(s, s1, x);
      ItemsTakeAmfId(s1, items[1..], gnb, x);
    }
  }

  lemma {:induction false} ItemsTakeRanId(s: Snapshot, items: seq<ResetItem>, gnb: int, ran: int)
    requires ByRanId(ran) in items
    ensures (ran, gnb) !in ResetItems(s, items, gnb).ues.byRan
    decreases |items|
  {
    var s1 := ResetOne(s, items[0], gnb);
    OneItemEffect(s, items[0], gnb);
    ResetItemsShrinks(s1, items[1..], gnb);
    if items[0] == ByRanId(ran) {
      assert items[0] in [items[0]];
    } else {
      ItemsTakeRanId(s1, items[1..], gnb, ran);
    }
  }

  /**
    Over any list: the NAS context of every AMF id named is gone; so is the id, if its NAS context leads to an entry or
    is missing; so is the entry led to, unless an item has the id's UE removed by its RAN id; and so is every entry
    named by its RAN id only. The reset is acknowledged to the gNB.
   */
  lemma PartRemoves(s: Snapshot, assoc: int, items: seq<ResetItem>)
    requires assoc in s.gnbs.assocGnb
    ensures var s' := Step(s, OnN2(ResetPartEvent(assoc, items)));
            var gnb := GnbAt(s, assoc).id;
            && (forall x :: HasAmfId(items, x) ==>
                              && x !in s'.n1.nas
                              && (x !in s.n1.nas || Led(s, x).Some? ==> x !in s'.ues.byAmf)
                              && (Led(s, x).Some? && !MeansByRan(s, items, gnb, x) ==>
                                    Led(s, x).value !in s'.ues.byRan))
            && (forall ran :: ByRanId(ran) in items ==> (ran, gnb) !in s'.ues.byRan)
            && s'.sent == s.sent + [ResetAck(GnbAt(s, assoc).assoc)]
  {
    var gnb := GnbAt(s, assoc).id;
    PartIsItems(s, assoc, items);
    forall x | HasAmfId(items, x)
      ensures var s' := ResetItems(s, items, gnb);
              && x !in s'.n1.nas
              && (x !in s.n1.nas || Led(s, x).Some? ==> x !in s'.ues.byAmf)
              && (Led(s, x).Some? && !MeansByRan(s, items, gnb, x) ==> Led(s, x).value !in s'.ues.byRan)
    {
      ItemsTakeAmfId(s, items, gnb, x);
    }
    forall ran | ByRanId(ran) in items ensures (ran, gnb) !in ResetItems(s, items, gnb).ues.byRan {
      ItemsTakeRanId(s, items, gnb, ran);
    }
  }

  /** The exception is real: after the entry under its RAN id, the item with the UE's AMF id finds no NAS context. */
  lemma LedEntryCanStay(s: Snapshot, assoc: int, ran: int, x: int, k: Pair)
    requires assoc in s.gnbs.assocGnb && MeansByRan(s, [ByRanId(ran)], GnbAt(s, assoc).id, x)
    requires k in s.ues.byRan && Led(s, x) == Some(k) && k != (ran, GnbAt(s, assoc).id)
    ensures k in ResetPart(s, assoc, [ByRanId(ran), ByAmfId(x, None)]).ues.byRan
    ensures k !in ResetPart(s, assoc, [ByAmfId(x, None), ByRanId(ran)]).ues.byRan
  {
    var s1 := ResetPart(s, assoc, [ByRanId(ran)]);
    var s2 := ResetPart(s, assoc, [ByAmfId(x, None)]);
    assert [ByRanId(ran), ByAmfId(x, None)] == [ByRanId(ran)] + [ByAmfId(x, None)];
    assert [ByAmfId(x, None), ByRanId(ran)] == [ByAmfId(x, None)] + [ByRanId(ran)];
    PartIsItems(s, assoc, [ByRanId(ran)]);
    PartIsItems(s, assoc, [ByAmfId(x, None)]);
    PartInTwoParts(s, assoc, [ByRanId(ran)], [ByAmfId(x, None)]);
    PartInTwoParts(s, assoc, [ByAmfId(x, None)], [ByRanId(ran)]);
    ItemWithRanId(s, assoc, ran);
    ItemWithAmfId(s1, assoc, x, None);
    ItemWithAmfId(s, assoc, x, None);
    ItemWithRanId(s2, assoc, ran);
  }

  /** And nothing else is removed: entries that no item names, and AMF ids no item has or means, stay as they are. */
  lemma PartSpares(s: Snapshot, assoc: int, items: seq<ResetItem>)
    requires assoc in s.gnbs.assocGnb
    ensures var s' := Step(s, OnN2(ResetPartEvent(assoc, items)));
            var gnb := GnbAt(s, assoc).id;
            && (forall k :: k in s.ues.byRan && !Names(s, items, gnb, k) ==>
                              ByPair(s', k.0, k.1) == Some(s.ues.byRan[k]))
            && (forall a :: !HasAmfId(items, a) && !MeansByRan(s, items, gnb, a) ==>
                              (a in s.n1.nas ==> a in s'.n1.nas) && ByAmf(s', a) == ByAmf(s, a))
            && s'.ues.ngap == s.ues.ngap && s'.app == s.app
  {
    PartIsItems(s, assoc, items);
    ItemsSpare(s, items, GnbAt(s, assoc).id);
    ResetItemsShrinks(s, items, GnbAt(s, assoc).id);
  }
}
