/** The S-NSSAIs the AMF has in common with a gNB, read back from the slices stored for it. */
module Nssai {
  import opened Wrappers
  import opened Decimal
  import opened Slices

  /** An S-NSSAI of the NAS layer, which holds its SD as a signed number. */
  datatype Snssai = Snssai(sst: Uint8, sd: int)

  /** The number of 32 bits taken for a signed one. */
  function Int32(x: Uint32): (r: int)
    ensures -0x8000_0000 <= r < 0x8000_0000 && (r - x) % 0x1_0000_0000 == 0
  {
    if x < 0x8000_0000 then x else x - 0x1_0000_0000
  }

  // ---- The S-NSSAIs in common ----

  /** Reading an SST throws where it is not a number; what is read is truncated to eight bits. */
  function ReadSlice(slice: GnbSlice, sdOf: SdReader): Option<Snssai> {
    match Stoi(slice.sst)
    case None => None
    case Some(sst) => Some(Snssai(sst % 0x100, Int32(sdOf(slice.sd))))
  }

  /** The slices of a PLMN, from this one on, up to the first one that cannot be read. */
  function ReadSlices(slices: seq<GnbSlice>, sdOf: SdReader, k: nat): seq<Snssai>
    decreases |slices| - k
  {
    if k >= |slices| then []
    else
      match ReadSlice(slices[k], sdOf)
      case None => []
      case Some(s) => [s] + ReadSlices(slices, sdOf, k + 1)
  }

  function ReadPlmns(plmns: seq<BroadcastPlmn>, sdOf: SdReader, j: nat): seq<Snssai>
    decreases |plmns| - j
  {
    if j >= |plmns| then [] else ReadSlices(plmns[j].slices, sdOf, 0) + ReadPlmns(plmns, sdOf, j + 1)
  }

  function ReadTas(tas: seq<Ta>, sdOf: SdReader, i: nat): seq<Snssai>
    decreases |tas| - i
  {
    if i >= |tas| then [] else ReadPlmns(tas[i].plmns, sdOf, 0) + ReadTas(tas, sdOf, i + 1)
  }

  /** The S-NSSAIs read from what NG Setup stored for the gNB. */
  function CommonNssai(supported: seq<Ta>, sdOf: SdReader): seq<Snssai> {
    ReadTas(supported, sdOf, 0)
  }

  /** The N2 task's indexes on the way to the gNB of a UE: the UE's association by RAN id and gNB, and its gNB. */
  class ServingGnbs {
    var assocOf: map<(int, int), int>
    var gnbs: map<int, GnbSupport>

    constructor ()
      ensures assocOf == map[] && gnbs == map[]
    {
      assocOf, gnbs := map[], map[];
    }

    /** Absent if there is no UE NGAP context for the ids or no gNB context for its association. */
    function Serving(ran: int, gnb: int): GnbSupport?
      reads this
    {
      if (ran, gnb) in assocOf && assocOf[(ran, gnb)] in gnbs then gnbs[assocOf[(ran, gnb)]] else null
    }

    /** What is stored for the gNB that serves the UE now, and the NG Setup Requests it has sent. */
    function Support(ran: int, gnb: int): seq<Ta>
      reads this, Serving(ran, gnb)
    {
      if Serving(ran, gnb) == null then [] else Serving(ran, gnb).supported
    }

    ghost function Setups(ran: int, gnb: int): seq<NgSetup>
      reads this, Serving(ran, gnb)
    {
      if Serving(ran, gnb) == null then [] else Serving(ran, gnb).setups
    }

    /** What is stored for the gNB was built by its NG Setup Requests. */
    ghost predicate IsSetUp(ran: int, gnb: int, sdOf: SdReader)
      reads this, Serving(ran, gnb)
    {
      Support(ran, gnb) == Stored(Setups(ran, gnb), sdOf)
    }

    method GetCommonNssai(ran: int, gnb: int, sdOf: SdReader) returns (common: seq<Snssai>, found: bool)
      ensures common == CommonNssai(Support(ran, gnb), sdOf)
      ensures found == (common != [])
    {
      common, found := [], false;
      if (ran, gnb) !in assocOf || assocOf[(ran, gnb)] !in gnbs {
        return;
      }
      var tas := gnbs[assocOf[(ran, gnb)]].supported;
      for i := 0 to |tas|
        invariant ReadTas(tas, sdOf, 0) == common + ReadTas(tas, sdOf, i)
        invariant found == (common != [])
      {
        var some, any := ReadTa(tas[i], sdOf);
        common := common + some;
        found := found || any;
      }
    }
  }

  method ReadTa(ta: Ta, sdOf: SdReader) returns (common: seq<Snssai>, found: bool)
    ensures common == ReadPlmns(ta.plmns, sdOf, 0) && found == (common != [])
  {
    common, found := [], false;
    for j := 0 to |ta.plmns|
      invariant ReadPlmns(ta.plmns, sdOf, 0) == common + ReadPlmns(ta.plmns, sdOf, j)
      invariant found == (common != [])
    {
      var some, any := ReadPlmn(ta.plmns[j].slices, sdOf);
      common := common + some;
      found := found || any;
    }
  }

  /** The innermost loop, which an unreadable slice ends. */
  method ReadPlmn(slices: seq<GnbSlice>, sdOf: SdReader) returns (common: seq<Snssai>, found: bool)
    ensures common == ReadSlices(slices, sdOf, 0) && found == (common != [])
  {
    common, found := [], false;
    for k := 0 to |slices|
      invariant ReadSlices(slices, sdOf, 0) == common + ReadSlices(slices, sdOf, k)
      invariant found == (common != [])
    {
      match ReadSlice(slices[k], sdOf) {
        case None =>
          return;
        case Some(s) => common := common + [s];
      }
      found := true;
    }
  }

  // ---- Reading back what was stored ----

  ghost predicate PlmnsReadable(plmns: seq<BroadcastPlmn>, sdOf: SdReader) {
    forall b <- plmns, g <- b.slices :: ReadSlice(g, sdOf).Some?
  }

  /** No slice of this kind ends the loop early. */
  ghost predicate AllReadable(tas: seq<Ta>, sdOf: SdReader) {
    forall ta <- tas :: PlmnsReadable(ta.plmns, sdOf)
  }

  /** At these loop indexes or later, this slice of the gNB matches a configured one. */
  ghost predicate MatchesFrom(gs: seq<GnbSlice>, cs: seq<ConfigSlice>, sdOf: SdReader, i: nat, j: nat, g: GnbSlice) {
    exists a: nat, b: nat :: a < |gs| && b < |cs| && (i < a || (i == a && j <= b)) && gs[a] == g
                             && SliceMatches(gs[a], cs[b], sdOf)
  }

  lemma {:induction false} CommonSlicesFrom(gs: seq<GnbSlice>, cs: seq<ConfigSlice>, sdOf: SdReader, i: nat, j: nat,
                                            g: GnbSlice)
    ensures g in CommonSlices(gs, cs, sdOf, i, j) <==> MatchesFrom(gs, cs, sdOf, i, j, g)
    decreases |gs| - i, |cs| - j
  {
    if i >= |gs| {
    } else {
      if j >= |cs| {
        CommonSlicesFrom(gs, cs, sdOf, i + 1, 0, g);
      } else {
        CommonSlicesFrom(gs, cs, sdOf, i, j + 1, g);
      }
    }
  }

  /** The slices in common are exactly the gNB's slices that match a configured one. */
  lemma CommonSlicesExactly(gs: seq<GnbSlice>, cs: seq<ConfigSlice>, sdOf: SdReader, g: GnbSlice)
    ensures g in CommonSlices(gs, cs, sdOf, 0, 0) <==> g in gs && exists c <- cs :: SliceMatches(g, c, sdOf)
  {
    CommonSlicesFrom(gs, cs, sdOf, 0, 0, g);
    if g in gs && exists c <- cs :: SliceMatches(g, c, sdOf) {
      var a :| 0 <= a < |gs| && gs[a] == g;
      var c :| c in cs && SliceMatches(g, c, sdOf);
      var b :| 0 <= b < |cs| && cs[b] == c;
      assert SliceMatches(gs[a], cs[b], sdOf);
    }
  }

  /** A matching slice reads back as the configured slice it matches. */
  lemma ReadMatching(g: GnbSlice, c: ConfigSlice, sdOf: SdReader)
    requires SliceMatches(g, c, sdOf)
    ensures ReadSlice(g, sdOf) == Some(Snssai(c.sst, Int32(c.sd)))
  {
    StoiOfPrinted(c.sst);
  }

  // ---- What the AMF and the gNB have in common, declaratively ----

  /** This S-NSSAI is a slice configured for a PLMN whose TAC, MCC and MNC the gNB advertised with a matching slice. */
  ghost predicate Offered(config: seq<ConfigPlmn>, list: seq<Ta>, sdOf: SdReader, x: Snssai) {
    exists p <- config, ta <- list, b <- ta.plmns, g <- b.slices, c <- p.slices ::
      PlmnMatches(p, ta, b) && SliceMatches(g, c, sdOf) && x == Snssai(c.sst, Int32(c.sd))
  }

  lemma {:induction false} ReadSlicesExactly(slices: seq<GnbSlice>, sdOf: SdReader, k: nat, x: Snssai)
    requires forall g <- slices :: ReadSlice(g, sdOf).Some?
    ensures x in ReadSlices(slices, sdOf, k) <==> exists m :: k <= m < |slices| && ReadSlice(slices[m], sdOf) == Some(x)
    decreases |slices| - k
  {
    if k >= |slices| {
    } else {
      assert slices[k] in slices;
      ReadSlicesExactly(slices, sdOf, k + 1, x);
    }
  }

  ghost predicate InPlmn(b: BroadcastPlmn, sdOf: SdReader, x: Snssai) {
    exists g <- b.slices :: ReadSlice(g, sdOf) == Some(x)
  }

  ghost predicate InTa(ta: Ta, sdOf: SdReader, x: Snssai) {
    exists b <- ta.plmns :: InPlmn(b, sdOf, x)
  }

  lemma ReadPlmnExactly(b: BroadcastPlmn, sdOf: SdReader, x: Snssai)
    requires forall g <- b.slices :: ReadSlice(g, sdOf).Some?
    ensures x in ReadSlices(b.slices, sdOf, 0) <==> InPlmn(b, sdOf, x)
  {
    ReadSlicesExactly(b.slices, sdOf, 0, x);
    if InPlmn(b, sdOf, x) {
      var g :| g in b.slices && ReadSlice(g, sdOf) == Some(x);
      var m :| 0 <= m < |b.slices| && b.slices[m] == g;
    }
  }

  ghost predicate InPlmnFrom(plmns: seq<BroadcastPlmn>, sdOf: SdReader, j: nat, x: Snssai) {
    exists m :: j <= m < |plmns| && InPlmn(plmns[m], sdOf, x)
  }

  lemma {:induction false} ReadPlmnsExactly(plmns: seq<BroadcastPlmn>, sdOf: SdReader, j: nat, x: Snssai)
    requires PlmnsReadable(plmns, sdOf)
    ensures x in ReadPlmns(plmns, sdOf, j) <==> InPlmnFrom(plmns, sdOf, j, x)
    decreases |plmns| - j
  {
    if j >= |plmns| {
    } else {
      assert plmns[j] in plmns;
      ReadPlmnExactly(plmns[j], sdOf, x);
      ReadPlmnsExactly(plmns, sdOf, j + 1, x);
      assert InPlmnFrom(plmns, sdOf, j, x) <==> InPlmn(plmns[j], sdOf, x) || InPlmnFrom(plmns, sdOf, j + 1, x);
    }
  }

  lemma ReadTaExactly(ta: Ta, sdOf: SdReader, x: Snssai)
    requires PlmnsReadable(ta.plmns, sdOf)
    ensures x in ReadPlmns(ta.plmns, sdOf, 0) <==> InTa(ta, sdOf, x)
  {
    ReadPlmnsExactly(ta.plmns, sdOf, 0, x);
    if InTa(ta, sdOf, x) {
      var b :| b in ta.plmns && InPlmn(b, sdOf, x);
      var m :| 0 <= m < |ta.plmns| && ta.plmns[m] == b;
    }
  }

  ghost predicate InTaFrom(tas: seq<Ta>, sdOf: SdReader, i: nat, x: Snssai) {
    exists m :: i <= m < |tas| && InTa(tas[m], sdOf, x)
  }

  lemma {:induction false} ReadTasExactly(tas: seq<Ta>, sdOf: SdReader, i: nat, x: Snssai)
    requires AllReadable(tas, sdOf)
    ensures x in ReadTas(tas, sdOf, i) <==> InTaFrom(tas, sdOf, i, x)
    decreases |tas| - i
  {
    if i >= |tas| {
    } else {
      assert tas[i] in tas;
      ReadTaExactly(tas[i], sdOf, x);
      ReadTasExactly(tas, sdOf, i + 1, x);
      assert InTaFrom(tas, sdOf, i, x) <==> InTa(tas[i], sdOf, x) || InTaFrom(tas, sdOf, i + 1, x);
    }
  }

  /** An item stored for a matching triple. */
  ghost predicate IsItem(config: seq<ConfigPlmn>, list: seq<Ta>, sdOf: SdReader, item: Ta) {
    exists t :: Matches(t, config, list) && item == Item(config, list, sdOf, t)
  }

  lemma CommonExactly(config: seq<ConfigPlmn>, list: seq<Ta>, sdOf: SdReader, item: Ta)
    ensures item in Common(config, list, sdOf) <==> IsItem(config, list, sdOf, item)
  {
    CommonIsByTriples(config, list, sdOf);
    var ts := MatchingFrom(config, list, Triple(0, 0, 0));
    if item in Common(config, list, sdOf) {
      var n :| 0 <= n < |ts| && Common(config, list, sdOf)[n] == item;
      assert ts[n] in ts;
      MatchingIsComplete(config, list, Triple(0, 0, 0), ts[n]);
    }
    if IsItem(config, list, sdOf, item) {
      var t :| Matches(t, config, list) && item == Item(config, list, sdOf, t);
      MatchingIsComplete(config, list, Triple(0, 0, 0), t);
      var n :| 0 <= n < |ts| && ts[n] == t;
      assert Common(config, list, sdOf)[n] == item;
    }
  }

  /** Every slice of a stored item matches a configured slice, so it can be read. */
  lemma ItemIsReadable(config: seq<ConfigPlmn>, list: seq<Ta>, sdOf: SdReader, t: Triple)
    requires Matches(t, config, list)
    ensures AllReadable([Item(config, list, sdOf, t)], sdOf)
  {
    var b := list[t.j].plmns[t.k];
    forall g | g in CommonSlices(b.slices, config[t.i].slices, sdOf, 0, 0) ensures ReadSlice(g, sdOf).Some? {
      CommonSlicesExactly(b.slices, config[t.i].slices, sdOf, g);
      var c :| c in config[t.i].slices && SliceMatches(g, c, sdOf);
      ReadMatching(g, c, sdOf);
    }
  }

  lemma CommonIsReadable(config: seq<ConfigPlmn>, list: seq<Ta>, sdOf: SdReader)
    ensures AllReadable(Common(config, list, sdOf), sdOf)
  {
    forall ta | ta in Common(config, list, sdOf) ensures AllReadable([ta], sdOf) {
      CommonExactly(config, list, sdOf, ta);
      var t :| Matches(t, config, list) && ta == Item(config, list, sdOf, t);
      ItemIsReadable(config, list, sdOf, t);
    }
    assert forall ta <- Common(config, list, sdOf) :: ta in [ta];
  }

  /** On a list that NG Setups have built the loop over the slices never ends early. */
  lemma {:induction false} StoredIsReadable(setups: seq<NgSetup>, sdOf: SdReader)
    ensures AllReadable(Stored(setups, sdOf), sdOf)
  {
    if setups == [] {
    } else {
      var last := setups[|setups| - 1];
      StoredIsReadable(setups[..|setups| - 1], sdOf);
      CommonIsReadable(last.config, last.list, sdOf);
    }
  }

  /** An item holds exactly the S-NSSAIs of the configured slices its gNB slices match. */
  lemma InItem(config: seq<ConfigPlmn>, list: seq<Ta>, sdOf: SdReader, t: Triple, x: Snssai)
    requires Matches(t, config, list)
    ensures InTa(Item(config, list, sdOf, t), sdOf, x) <==>
            exists g <- list[t.j].plmns[t.k].slices, c <- config[t.i].slices ::
              SliceMatches(g, c, sdOf) && x == Snssai(c.sst, Int32(c.sd))
  {
    var b := list[t.j].plmns[t.k];
    var item := Item(config, list, sdOf, t);
    assert InTa(item, sdOf, x) <==> InPlmn(item.plmns[0], sdOf, x);
    if InPlmn(item.plmns[0], sdOf, x) {
      var g :| g in item.plmns[0].slices && ReadSlice(g, sdOf) == Some(x);
      CommonSlicesExactly(b.slices, config[t.i].slices, sdOf, g);
      var c :| c in config[t.i].slices && SliceMatches(g, c, sdOf);
      ReadMatching(g, c, sdOf);
    }
    if g, c :| g in b.slices && c in config[t.i].slices && SliceMatches(g, c, sdOf) && x == Snssai(c.sst, Int32(c.sd)) {
      CommonSlicesExactly(b.slices, config[t.i].slices, sdOf, g);
      ReadMatching(g, c, sdOf);
    }
  }

  ghost predicate IsStored(setups: seq<NgSetup>, sdOf: SdReader, item: Ta) {
    exists e <- setups :: IsItem(e.config, e.list, sdOf, item)
  }

  /** These slices are those of the gNB whose SST and SD are configured. */
  ghost predicate AreConfigured(slices: seq<GnbSlice>, gs: seq<GnbSlice>, cs: seq<ConfigSlice>, sdOf: SdReader) {
    forall g :: g in slices <==> g in gs && exists c <- cs :: g.sst == Print(c.sst) && sdOf(g.sd) == c.sd
  }

  lemma CommonAreConfigured(gs: seq<GnbSlice>, cs: seq<ConfigSlice>, sdOf: SdReader)
    ensures AreConfigured(CommonSlices(gs, cs, sdOf, 0, 0), gs, cs, sdOf)
  {
    forall g
      ensures g in CommonSlices(gs, cs, sdOf, 0, 0) <==>
              g in gs && exists c <- cs :: g.sst == Print(c.sst) && sdOf(g.sd) == c.sd
    {
      CommonSlicesExactly(gs, cs, sdOf, g);
      assert forall c <- cs :: SliceMatches(g, c, sdOf) <==> g.sst == Print(c.sst) && sdOf(g.sd) == c.sd;
    }
  }

  /** An item is a PLMN that the gNB advertised in this TA, with those of its slices that are configured for it. */
  lemma StoredItem(config: seq<ConfigPlmn>, list: seq<Ta>, sdOf: SdReader, item: Ta)
    requires item in Common(config, list, sdOf)
    ensures |item.plmns| == 1
    ensures exists p <- config, ta <- list, b <- ta.plmns ::
              && p.tac == ta.tac == item.tac && p.mcc == b.mcc == item.plmns[0].mcc
              && p.mnc == b.mnc == item.plmns[0].mnc && AreConfigured(item.plmns[0].slices, b.slices, p.slices, sdOf)
  {
    CommonExactly(config, list, sdOf, item);
    var t :| Matches(t, config, list) && item == Item(config, list, sdOf, t);
    var p, ta := config[t.i], list[t.j];
    CommonAreConfigured(ta.plmns[t.k].slices, p.slices, sdOf);
    assert p in config && ta in list && ta.plmns[t.k] in ta.plmns;
  }

  /** And there is an item for every PLMN advertised that is configured with its TAC, MCC and MNC. */
  lemma ItemIsStored(config: seq<ConfigPlmn>, list: seq<Ta>, sdOf: SdReader, i: nat, j: nat, k: nat)
    requires i < |config| && j < |list| && k < |list[j].plmns|
    requires config[i].tac == list[j].tac
    requires config[i].mcc == list[j].plmns[k].mcc && config[i].mnc == list[j].plmns[k].mnc
    ensures exists item <- Common(config, list, sdOf) ::
              && item.tac == list[j].tac && |item.plmns| == 1
              && item.plmns[0].mcc == list[j].plmns[k].mcc && item.plmns[0].mnc == list[j].plmns[k].mnc
              && AreConfigured(item.plmns[0].slices, list[j].plmns[k].slices, config[i].slices, sdOf)
  {
    var t := Triple(i, j, k);
    assert Matches(t, config, list);
    CommonAreConfigured(list[j].plmns[k].slices, config[i].slices, sdOf);
    CommonExactly(config, list, sdOf, Item(config, list, sdOf, t));
  }

  lemma {:induction false} StoredExactly(setups: seq<NgSetup>, sdOf: SdReader, item: Ta)
    ensures item in Stored(setups, sdOf) <==> IsStored(setups, sdOf, item)
  {
    if setups == [] {
    } else {
      var before := setups[..|setups| - 1];
      var last := setups[|setups| - 1];
      StoredExactly(before, sdOf, item);
      CommonExactly(last.config, last.list, sdOf, item);
      assert forall e :: e in setups <==> e in before || e == last;
    }
  }

  lemma OfferedByItem(config: seq<ConfigPlmn>, list: seq<Ta>, sdOf: SdReader, x: Snssai)
    ensures Offered(config, list, sdOf, x) <==> exists item :: IsItem(config, list, sdOf, item) && InTa(item, sdOf, x)
  {
    if item :| IsItem(config, list, sdOf, item) && InTa(item, sdOf, x) {
      var t :| Matches(t, config, list) && item == Item(config, list, sdOf, t);
      InItem(config, list, sdOf, t, x);
    }
    if Offered(config, list, sdOf, x) {
      var p, ta, b, g, c :| p in config && ta in list && b in ta.plmns && g in b.slices && c in p.slices
                            && PlmnMatches(p, ta, b) && SliceMatches(g, c, sdOf) && x == Snssai(c.sst, Int32(c.sd));
      var i :| 0 <= i < |config| && config[i] == p;
      var j :| 0 <= j < |list| && list[j] == ta;
      var k :| 0 <= k < |ta.plmns| && ta.plmns[k] == b;
      var t := Triple(i, j, k);
      assert Matches(t, config, list);
      InItem(config, list, sdOf, t, x);
      assert IsItem(config, list, sdOf, Item(config, list, sdOf, t));
    }
  }

  /** One of these NG Setup Requests offered it. */
  ghost predicate OfferedIn(setups: seq<NgSetup>, sdOf: SdReader, x: Snssai) {
    exists e <- setups :: Offered(e.config, e.list, sdOf, x)
  }

  /**
    End to end: after any NG Setups, whatever is configured at each, an S-NSSAI is read from what is stored for
    the gNB exactly when it is a configured slice that one of them offered.
   */
  lemma CommonNssaiExactly(setups: seq<NgSetup>, sdOf: SdReader, x: Snssai)
    ensures x in CommonNssai(Stored(setups, sdOf), sdOf) <==> OfferedIn(setups, sdOf, x)
  {
    var tas := Stored(setups, sdOf);
    StoredIsReadable(setups, sdOf);
    ReadTasExactly(tas, sdOf, 0, x);
    if x in CommonNssai(tas, sdOf) {
      var m :| 0 <= m < |tas| && InTa(tas[m], sdOf, x);
      StoredExactly(setups, sdOf, tas[m]);
      var e :| e in setups && IsItem(e.config, e.list, sdOf, tas[m]);
      OfferedByItem(e.config, e.list, sdOf, x);
    }
    if OfferedIn(setups, sdOf, x) {
      var e :| e in setups && Offered(e.config, e.list, sdOf, x);
      OfferedByItem(e.config, e.list, sdOf, x);
      var item :| IsItem(e.config, e.list, sdOf, item) && InTa(item, sdOf, x);
      StoredExactly(setups, sdOf, item);
      var m :| 0 <= m < |tas| && tas[m] == item;
    }
  }
}
