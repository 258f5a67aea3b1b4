/**
  Slices in common between a gNB and the AMF: what NG Setup stores for the gNB, and the S-NSSAIs read
  back from it. The gNB gives SST and SD as text; the reading of an SD is a parameter.
 */
module Slices {
  import opened Decimal

  type Uint8 = x: int | 0 <= x < 0x100
  type Uint32 = x: int | 0 <= x < 0x1_0000_0000

  const SD_NO_VALUE: Uint32 := 0xFFFFFF

  datatype GnbSlice = GnbSlice(sst: string, sd: string)
  datatype BroadcastPlmn = BroadcastPlmn(mcc: string, mnc: string, slices: seq<GnbSlice>)
  datatype Ta = Ta(tac: nat, plmns: seq<BroadcastPlmn>)

  datatype ConfigSlice = ConfigSlice(sst: Uint8, sd: Uint32)
  datatype ConfigPlmn = ConfigPlmn(mcc: string, mnc: string, tac: nat, slices: seq<ConfigSlice>)

  type SdReader = string -> Uint32

  /** An NG Setup Request's list of supported TAs, and the PLMNs configured when it comes. */
  datatype NgSetup = NgSetup(config: seq<ConfigPlmn>, list: seq<Ta>)

  // ---- What matches ----

  predicate SliceMatches(a: GnbSlice, b: ConfigSlice, sdOf: SdReader) {
    a.sst == Print(b.sst) && sdOf(a.sd) == b.sd
  }

  predicate PlmnMatches(p: ConfigPlmn, ta: Ta, b: BroadcastPlmn) {
    p.tac == ta.tac && b.mcc == p.mcc && b.mnc == p.mnc
  }

  /** The gNB's slices that match configured ones, in the order of the nested loops from here on. */
  function CommonSlices(gs: seq<GnbSlice>, cs: seq<ConfigSlice>, sdOf: SdReader, i: nat, j: nat): seq<GnbSlice>
    decreases |gs| - i, |cs| - j
  {
    if i >= |gs| then []
    else if j >= |cs| then CommonSlices(gs, cs, sdOf, i + 1, 0)
    else (if SliceMatches(gs[i], cs[j], sdOf) then [gs[i]] else []) + CommonSlices(gs, cs, sdOf, i, j + 1)
  }

  datatype Triple = Triple(i: nat, j: nat, k: nat)

  predicate Within(t: Triple, config: seq<ConfigPlmn>, list: seq<Ta>) {
    t.i < |config| && t.j < |list| && t.k < |list[t.j].plmns|
  }

  predicate Matches(t: Triple, config: seq<ConfigPlmn>, list: seq<Ta>) {
    Within(t, config, list) && PlmnMatches(config[t.i], list[t.j], list[t.j].plmns[t.k])
  }

  predicate Before(t: Triple, u: Triple) {
    t.i < u.i || (t.i == u.i && (t.j < u.j || (t.j == u.j && t.k < u.k)))
  }

  /** The matching triples of configured PLMN, advertised TA and broadcast PLMN from this one on. */
  function MatchingFrom(config: seq<ConfigPlmn>, list: seq<Ta>, t: Triple): seq<Triple>
    decreases |config| - t.i, |list| - t.j, if t.j < |list| then |list[t.j].plmns| - t.k else 0
  {
    if t.i >= |config| then []
    else if t.j >= |list| then MatchingFrom(config, list, Triple(t.i + 1, 0, 0))
    else if config[t.i].tac != list[t.j].tac || t.k >= |list[t.j].plmns| then
      MatchingFrom(config, list, Triple(t.i, t.j + 1, 0))
    else
      (if Matches(t, config, list) then [t] else []) + MatchingFrom(config, list, Triple(t.i, t.j, t.k + 1))
  }

  /** The triples are exactly the matching ones, each once, in lexicographic order. */
  lemma {:induction false} MatchingIsComplete(config: seq<ConfigPlmn>, list: seq<Ta>, t: Triple, u: Triple)
    ensures u in MatchingFrom(config, list, t) <==> Matches(u, config, list) && !Before(u, t)
    decreases |config| - t.i, |list| - t.j, if t.j < |list| then |list[t.j].plmns| - t.k else 0
  {
    if t.i >= |config| {
      assert MatchingFrom(config, list, t) == [];
    } else if t.j >= |list| {
      MatchingIsComplete(config, list, Triple(t.i + 1, 0, 0), u);
    } else if config[t.i].tac != list[t.j].tac || t.k >= |list[t.j].plmns| {
      MatchingIsComplete(config, list, Triple(t.i, t.j + 1, 0), u);
    } else {
      MatchingIsComplete(config, list, Triple(t.i, t.j, t.k + 1), u);
    }
  }

  lemma {:induction false} MatchingIsOrdered(config: seq<ConfigPlmn>, list: seq<Ta>, t: Triple, m: nat, n: nat)
    requires m < n < |MatchingFrom(config, list, t)|
    ensures Before(MatchingFrom(config, list, t)[m], MatchingFrom(config, list, t)[n])
    decreases |config| - t.i, |list| - t.j, if t.j < |list| then |list[t.j].plmns| - t.k else 0
  {
    if t.j >= |list| {
      MatchingIsOrdered(config, list, Triple(t.i + 1, 0, 0), m, n);
    } else if config[t.i].tac != list[t.j].tac || t.k >= |list[t.j].plmns| {
      MatchingIsOrdered(config, list, Triple(t.i, t.j + 1, 0), m, n);
    } else {
      var next := Triple(t.i, t.j, t.k + 1);
      var rest := MatchingFrom(config, list, next);
      if !Matches(t, config, list) {
        MatchingIsOrdered(config, list, next, m, n);
      } else if m == 0 {
        assert MatchingFrom(config, list, t)[n] == rest[n - 1];
        MatchingIsComplete(config, list, next, rest[n - 1]);
      } else {
        MatchingIsOrdered(config, list, next, m - 1, n - 1);
      }
    }
  }

  // ---- What NG Setup stores ----

  function Item(config: seq<ConfigPlmn>, list: seq<Ta>, sdOf: SdReader, t: Triple): Ta
    requires Within(t, config, list)
  {
    ItemOf(config[t.i], list[t.j].tac, list[t.j].plmns[t.k], sdOf)
  }

  function ItemOf(p: ConfigPlmn, tac: nat, b: BroadcastPlmn, sdOf: SdReader): Ta {
    Ta(tac, [BroadcastPlmn(b.mcc, b.mnc, CommonSlices(b.slices, p.slices, sdOf, 0, 0))])
  }

  function Items(config: seq<ConfigPlmn>, list: seq<Ta>, sdOf: SdReader, ts: seq<Triple>): (r: seq<Ta>)
    requires forall t <- ts :: Within(t, config, list)
    ensures |r| == |ts| && forall n :: 0 <= n < |ts| ==> r[n] == Item(config, list, sdOf, ts[n])
  {
    if ts == [] then [] else [Item(config, list, sdOf, ts[0])] + Items(config, list, sdOf, ts[1..])
  }

  /** The items for the broadcast PLMNs of one TA, from this one on. */
  function ItemsOfTa(p: ConfigPlmn, ta: Ta, sdOf: SdReader, k: nat): seq<Ta>
    decreases |ta.plmns| - k
  {
    if k >= |ta.plmns| then []
    else (if PlmnMatches(p, ta, ta.plmns[k]) then [ItemOf(p, ta.tac, ta.plmns[k], sdOf)] else [])
         + ItemsOfTa(p, ta, sdOf, k + 1)
  }

  function CommonFrom(config: seq<ConfigPlmn>, list: seq<Ta>, sdOf: SdReader, i: nat, j: nat): seq<Ta>
    decreases |config| - i, |list| - j
  {
    if i >= |config| then []
    else if j >= |list| then CommonFrom(config, list, sdOf, i + 1, 0)
    else (if config[i].tac == list[j].tac then ItemsOfTa(config[i], list[j], sdOf, 0) else [])
         + CommonFrom(config, list, sdOf, i, j + 1)
  }

  /** The items for the PLMNs in common, in the order of the loops over configured PLMNs and advertised TAs. */
  function Common(config: seq<ConfigPlmn>, list: seq<Ta>, sdOf: SdReader): seq<Ta> {
    CommonFrom(config, list, sdOf, 0, 0)
  }

  /** What is stored for the gNB after these NG Setup Requests, whether they were answered or refused. */
  function Stored(setups: seq<NgSetup>, sdOf: SdReader): seq<Ta> {
    if setups == [] then []
    else
      var last := setups[|setups| - 1];
      Stored(setups[..|setups| - 1], sdOf) + Common(last.config, last.list, sdOf)
  }

  lemma AllWithin(config: seq<ConfigPlmn>, list: seq<Ta>, t: Triple)
    ensures forall u <- MatchingFrom(config, list, t) :: Within(u, config, list)
  {
    forall u | u in MatchingFrom(config, list, t) ensures Within(u, config, list) {
      MatchingIsComplete(config, list, t, u);
    }
  }

  /** What the loops still add when they are at this triple. */
  function Remaining(config: seq<ConfigPlmn>, list: seq<Ta>, sdOf: SdReader, t: Triple): seq<Ta> {
    if t.i >= |config| || t.j >= |list| then CommonFrom(config, list, sdOf, t.i, t.j)
    else (if config[t.i].tac == list[t.j].tac then ItemsOfTa(config[t.i], list[t.j], sdOf, t.k) else [])
         + CommonFrom(config, list, sdOf, t.i, t.j + 1)
  }

  lemma NextPlmn(config: seq<ConfigPlmn>, list: seq<Ta>, sdOf: SdReader, t: Triple)
    requires Within(t, config, list) && config[t.i].tac == list[t.j].tac
    ensures Remaining(config, list, sdOf, t) ==
            (if Matches(t, config, list) then [Item(config, list, sdOf, t)] else [])
            + Remaining(config, list, sdOf, Triple(t.i, t.j, t.k + 1))
  {
    var first := if Matches(t, config, list) then [Item(config, list, sdOf, t)] else [];
    var rest := ItemsOfTa(config[t.i], list[t.j], sdOf, t.k + 1);
    var others := CommonFrom(config, list, sdOf, t.i, t.j + 1);
    assert ItemsOfTa(config[t.i], list[t.j], sdOf, t.k) == first + rest;
    assert (first + rest) + others == first + (rest + others);
  }

  lemma NextConfigured(config: seq<ConfigPlmn>, list: seq<Ta>, sdOf: SdReader, t: Triple)
    requires t.i < |config| && t.j >= |list|
    ensures Remaining(config, list, sdOf, t) == Remaining(config, list, sdOf, Triple(t.i + 1, 0, 0))
  {
    RemainingAtStart(config, list, sdOf, t.i + 1, 0);
  }

  lemma NextAdvertised(config: seq<ConfigPlmn>, list: seq<Ta>, sdOf: SdReader, t: Triple)
    requires t.i < |config| && t.j < |list| && (config[t.i].tac != list[t.j].tac || t.k >= |list[t.j].plmns|)
    ensures Remaining(config, list, sdOf, t) == Remaining(config, list, sdOf, Triple(t.i, t.j + 1, 0))
  {
    RemainingAtStart(config, list, sdOf, t.i, t.j + 1);
  }

  lemma RemainingAtStart(config: seq<ConfigPlmn>, list: seq<Ta>, sdOf: SdReader, i: nat, j: nat)
    ensures Remaining(config, list, sdOf, Triple(i, j, 0)) == CommonFrom(config, list, sdOf, i, j)
  {
  }

  lemma {:induction false} RemainingIsItems(config: seq<ConfigPlmn>, list: seq<Ta>, sdOf: SdReader, t: Triple)
    ensures forall u <- MatchingFrom(config, list, t) :: Within(u, config, list)
    ensures Items(config, list, sdOf, MatchingFrom(config, list, t)) == Remaining(config, list, sdOf, t)
    decreases |config| - t.i, |list| - t.j, if t.j < |list| then |list[t.j].plmns| - t.k else 0
  {
    AllWithin(config, list, t);
    if t.i >= |config| {
      assert MatchingFrom(config, list, t) == [] && Remaining(config, list, sdOf, t) == [];
    } else if t.j >= |list| {
      NextConfigured(config, list, sdOf, t);
      RemainingIsItems(config, list, sdOf, Triple(t.i + 1, 0, 0));
    } else if config[t.i].tac != list[t.j].tac || t.k >= |list[t.j].plmns| {
      NextAdvertised(config, list, sdOf, t);
      RemainingIsItems(config, list, sdOf, Triple(t.i, t.j + 1, 0));
    } else {
      RemainingIsItems(config, list, sdOf, Triple(t.i, t.j, t.k + 1));
      NextPlmn(config, list, sdOf, t);
      ItemsOfNext(config, list, sdOf, t);
    }
  }

  lemma ItemsOfNext(config: seq<ConfigPlmn>, list: seq<Ta>, sdOf: SdReader, t: Triple)
    requires Within(t, config, list) && config[t.i].tac == list[t.j].tac
    requires forall u <- MatchingFrom(config, list, t) :: Within(u, config, list)
    requires forall u <- MatchingFrom(config, list, Triple(t.i, t.j, t.k + 1)) :: Within(u, config, list)
    ensures Items(config, list, sdOf, MatchingFrom(config, list, t)) ==
            (if Matches(t, config, list) then [Item(config, list, sdOf, t)] else [])
            + Items(config, list, sdOf, MatchingFrom(config, list, Triple(t.i, t.j, t.k + 1)))
  {
    var rest := MatchingFrom(config, list, Triple(t.i, t.j, t.k + 1));
    if Matches(t, config, list) {
      assert MatchingFrom(config, list, t) == [t] + rest;
      assert ([t] + rest)[1..] == rest;
    } else {
      assert MatchingFrom(config, list, t) == rest;
    }
  }

  /** One item for each matching triple, in lexicographic order. */
  lemma CommonIsByTriples(config: seq<ConfigPlmn>, list: seq<Ta>, sdOf: SdReader)
    ensures forall u <- MatchingFrom(config, list, Triple(0, 0, 0)) :: Within(u, config, list)
    ensures Common(config, list, sdOf) == Items(config, list, sdOf, MatchingFrom(config, list, Triple(0, 0, 0)))
  {
    RemainingIsItems(config, list, sdOf, Triple(0, 0, 0));
  }

  predicate HasSlices(ta: Ta) {
    exists b <- ta.plmns :: b.slices != []
  }

  predicate AnyHasSlices(tas: seq<Ta>) {
    exists ta <- tas :: HasSlices(ta)
  }

  // ---- The loops, step by step ----

  lemma NextSlice(gs: seq<GnbSlice>, cs: seq<ConfigSlice>, sdOf: SdReader, i: nat, j: nat, before: seq<GnbSlice>)
    requires i < |gs| && j < |cs|
    ensures before + CommonSlices(gs, cs, sdOf, i, j) ==
            (if SliceMatches(gs[i], cs[j], sdOf) then before + [gs[i]] else before)
            + CommonSlices(gs, cs, sdOf, i, j + 1)
  {
    if SliceMatches(gs[i], cs[j], sdOf) {
      assert before + ([gs[i]] + CommonSlices(gs, cs, sdOf, i, j + 1))
          == (before + [gs[i]]) + CommonSlices(gs, cs, sdOf, i, j + 1);
    } else {
      assert [] + CommonSlices(gs, cs, sdOf, i, j + 1) == CommonSlices(gs, cs, sdOf, i, j + 1);
    }
  }

  /** What the loops have added so far, with what is still to come, makes up all. */
  ghost predicate Adding(supported: seq<Ta>, before: seq<Ta>, all: seq<Ta>, added: seq<Ta>, rest: seq<Ta>,
                         found: bool)
  {
    supported == before + added && all == added + rest && (found <==> AnyHasSlices(added))
  }

  lemma AddedSome(supported: seq<Ta>, before: seq<Ta>, all: seq<Ta>, added: seq<Ta>, items: seq<Ta>, rest: seq<Ta>,
                  found: bool)
    requires Adding(supported, before, all, added, items + rest, found)
    ensures Adding(supported + items, before, all, added + items, rest, found || AnyHasSlices(items))
  {
    assert forall ta :: ta in added + items <==> ta in added || ta in items;
    assert added + (items + rest) == (added + items) + rest;
  }

  lemma AddedAll(supported: seq<Ta>, before: seq<Ta>, all: seq<Ta>, added: seq<Ta>, found: bool)
    requires Adding(supported, before, all, added, [], found)
    ensures supported == before + all && (found <==> AnyHasSlices(all))
  {
    assert added + [] == added;
  }

  lemma NextTa(config: seq<ConfigPlmn>, list: seq<Ta>, sdOf: SdReader, i: nat, j: nat)
    requires i < |config| && j < |list|
    ensures config[i].tac == list[j].tac ==>
              CommonFrom(config, list, sdOf, i, j) ==
              ItemsOfTa(config[i], list[j], sdOf, 0) + CommonFrom(config, list, sdOf, i, j + 1)
    ensures config[i].tac != list[j].tac ==>
              CommonFrom(config, list, sdOf, i, j) == CommonFrom(config, list, sdOf, i, j + 1)
  {
  }

  lemma OneHasSlices(item: Ta)
    ensures AnyHasSlices([item]) <==> HasSlices(item)
  {
    assert forall ta :: ta in [item] <==> ta == item;
  }

  /** The part of a gNB context that NG Setup fills; `setups` are the NG Setup Requests so far. */
  class GnbSupport {
    var supported: seq<Ta>
    ghost var setups: seq<NgSetup>

    ghost predicate IsSetUp(sdOf: SdReader)
      reads this
    {
      supported == Stored(setups, sdOf)
    }

    constructor ()
      ensures supported == [] && setups == [] && forall sdOf :: IsSetUp(sdOf)
    {
      supported, setups := [], [];
    }

    /** NG Setup adds the items in common to those stored and tells whether one of them has a slice. */
    method GetCommonPlmn(config: seq<ConfigPlmn>, list: seq<Ta>, sdOf: SdReader) returns (found: bool)
      modifies this
      ensures supported == old(supported) + Common(config, list, sdOf)
      ensures found <==> AnyHasSlices(Common(config, list, sdOf))
      ensures found <==> exists ta <- Common(config, list, sdOf), b <- ta.plmns :: b.slices != []
      ensures setups == old(setups) + [NgSetup(config, list)] && (old(IsSetUp(sdOf)) ==> IsSetUp(sdOf))
    {
      found := false;
      ghost var added: seq<Ta> := [];
      ghost var all := Common(config, list, sdOf);
      for i := 0 to |config|
        invariant Adding(supported, old(supported), all, added, CommonFrom(config, list, sdOf, i, 0), found)
        invariant setups == old(setups)
      {
        for j := 0 to |list|
          invariant Adding(supported, old(supported), all, added, CommonFrom(config, list, sdOf, i, j), found)
          invariant setups == old(setups)
        {
          NextTa(config, list, sdOf, i, j);
          if config[i].tac != list[j].tac {
            continue;
          }
          ghost var items := ItemsOfTa(config[i], list[j], sdOf, 0);
          AddedSome(supported, old(supported), all, added, items, CommonFrom(config, list, sdOf, i, j + 1), found);
          var has := AddPlmns(config[i], list[j], sdOf);
          found := found || has;
          added := added + items;
        }
        assert CommonFrom(config, list, sdOf, i, |list|) == CommonFrom(config, list, sdOf, i + 1, 0);
      }
      AddedAll(supported, old(supported), all, added, found);
      assert (setups + [NgSetup(config, list)])[..|setups|] == setups;
      setups := setups + [NgSetup(config, list)];
    }

    /** The loop over the broadcast PLMNs of a TA. */
    method AddPlmns(p: ConfigPlmn, ta: Ta, sdOf: SdReader) returns (found: bool)
      requires p.tac == ta.tac
      modifies this`supported
      ensures supported == old(supported) + ItemsOfTa(p, ta, sdOf, 0)
      ensures found == AnyHasSlices(ItemsOfTa(p, ta, sdOf, 0))
    {
      found := false;
      ghost var added: seq<Ta> := [];
      for k := 0 to |ta.plmns|
        invariant Adding(supported, old(supported), ItemsOfTa(p, ta, sdOf, 0), added, ItemsOfTa(p, ta, sdOf, k), found)
      {
        var b := ta.plmns[k];
        if b.mcc == p.mcc && b.mnc == p.mnc {
          ghost var item := ItemOf(p, ta.tac, b, sdOf);
          ghost var rest := ItemsOfTa(p, ta, sdOf, k + 1);
          AddedSome(supported, old(supported), ItemsOfTa(p, ta, sdOf, 0), added, [item], rest, found);
          OneHasSlices(item);
          var has := AddItem(p, ta.tac, b, sdOf);
          found := found || has;
          added := added + [item];
        }
      }
      AddedAll(supported, old(supported), ItemsOfTa(p, ta, sdOf, 0), added, found);
    }

    method AddItem(p: ConfigPlmn, tac: nat, b: BroadcastPlmn, sdOf: SdReader) returns (found: bool)
      modifies this`supported
      ensures supported == old(supported) + [ItemOf(p, tac, b, sdOf)] && found == HasSlices(ItemOf(p, tac, b, sdOf))
    {
      var slices := GetCommonSlices(b.slices, p.slices, sdOf);
      var item := Ta(tac, [BroadcastPlmn(b.mcc, b.mnc, slices)]);
      supported := supported + [item];
      found := slices != [];
      assert item.plmns[0].slices == slices;
    }
  }

  method GetCommonSlices(gs: seq<GnbSlice>, cs: seq<ConfigSlice>, sdOf: SdReader) returns (slices: seq<GnbSlice>)
    ensures slices == CommonSlices(gs, cs, sdOf, 0, 0)
  {
    slices := [];
    for i := 0 to |gs|
      invariant CommonSlices(gs, cs, sdOf, 0, 0) == slices + CommonSlices(gs, cs, sdOf, i, 0)
    {
      for j := 0 to |cs|
        invariant CommonSlices(gs, cs, sdOf, 0, 0) == slices + CommonSlices(gs, cs, sdOf, i, j)
      {
        NextSlice(gs, cs, sdOf, i, j, slices);
        if SliceMatches(gs[i], cs[j], sdOf) {
          slices := slices + [gs[i]];
        }
      }
    }
  }
}
