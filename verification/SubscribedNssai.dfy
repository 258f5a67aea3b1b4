/** Whether this AMF can serve the slices a UE needs, given what it requested and what it is subscribed to. */
module SubscribedNssai {
  import opened Wrappers
  import opened Slices
  import opened Nssai

  /** A subscribed S-NSSAI, with its SD as text. */
  datatype Subscribed = Subscribed(sst: int, sd: string)

  datatype Tai = Tai(mcc: string, mnc: string, tac: nat)

  /** The SD of the request is compared as an unsigned number. */
  function Unsigned(sd: int): int {
    sd % 0x1_0000_0000
  }

  predicate Same(s: Snssai, n: Subscribed, sdOf: SdReader) {
    s.sst == n.sst && sdOf(n.sd) == Unsigned(s.sd)
  }

  predicate Applies(p: ConfigPlmn, tai: Tai) {
    tai.mcc == p.mcc && tai.mnc == p.mnc && tai.tac == p.tac
  }

  predicate Serves(p: ConfigPlmn, n: Subscribed, sdOf: SdReader) {
    exists c <- p.slices :: c.sst == n.sst && sdOf(n.sd) == c.sd
  }

  predicate ServesAll(p: ConfigPlmn, needed: seq<Subscribed>, sdOf: SdReader) {
    forall n <- needed :: Serves(p, n, sdOf)
  }

  /** The first of these that the requested S-NSSAI is the same as. */
  function FirstSame(s: Snssai, ns: seq<Subscribed>, sdOf: SdReader, i: nat): seq<Subscribed>
    decreases |ns| - i
  {
    if i >= |ns| then [] else if Same(s, ns[i], sdOf) then [ns[i]] else FirstSame(s, ns, sdOf, i + 1)
  }

  function CommonSubscribed(requested: seq<Snssai>, defaults: seq<Subscribed>, others: seq<Subscribed>, sdOf: SdReader,
                            i: nat): seq<Subscribed>
    decreases |requested| - i
  {
    if i >= |requested| then []
    else
      FirstSame(requested[i], defaults, sdOf, 0) + FirstSame(requested[i], others, sdOf, 0)
      + CommonSubscribed(requested, defaults, others, sdOf, i + 1)
  }

  function Needed(requested: seq<Snssai>, defaults: seq<Subscribed>, others: seq<Subscribed>, sdOf: SdReader)
    : seq<Subscribed>
  {
    var common := CommonSubscribed(requested, defaults, others, sdOf, 0);
    if requested == [] || common == [] then defaults else common
  }

  // ---- The loops ----

  method FindSame(s: Snssai, ns: seq<Subscribed>, sdOf: SdReader) returns (r: seq<Subscribed>)
    ensures r == FirstSame(s, ns, sdOf, 0)
  {
    for i := 0 to |ns|
      invariant FirstSame(s, ns, sdOf, 0) == FirstSame(s, ns, sdOf, i)
    {
      if Same(s, ns[i], sdOf) {
        return [ns[i]];
      }
    }
    r := [];
  }

  method FindCommon(requested: seq<Snssai>, defaults: seq<Subscribed>, others: seq<Subscribed>, sdOf: SdReader)
    returns (common: seq<Subscribed>)
    ensures common == CommonSubscribed(requested, defaults, others, sdOf, 0)
  {
    common := [];
    for i := 0 to |requested|
      invariant CommonSubscribed(requested, defaults, others, sdOf, 0) ==
                common + CommonSubscribed(requested, defaults, others, sdOf, i)
    {
      var a := FindSame(requested[i], defaults, sdOf);
      var b := FindSame(requested[i], others, sdOf);
      common := common + a + b;
    }
  }

  method CanServe(p: ConfigPlmn, needed: seq<Subscribed>, sdOf: SdReader) returns (ok: bool)
    ensures ok <==> ServesAll(p, needed, sdOf)
  {
    for i := 0 to |needed|
      invariant forall n <- needed[..i] :: Serves(p, n, sdOf)
    {
      var found := false;
      for j := 0 to |p.slices|
        invariant !found && forall c <- p.slices[..j] :: !(c.sst == needed[i].sst && sdOf(needed[i].sd) == c.sd)
      {
        if p.slices[j].sst == needed[i].sst && sdOf(needed[i].sd) == p.slices[j].sd {
          found := true;
          break;
        }
      }
      if !found {
        assert p.slices[..|p.slices|] == p.slices;
        assert !Serves(p, needed[i], sdOf);
        return false;
      }
    }
    ok := true;
  }

  /** The last configured entry for the UE's PLMN and TAC decides. */
  ghost predicate LastServes(config: seq<ConfigPlmn>, tai: Tai, needed: seq<Subscribed>, sdOf: SdReader, upto: nat)
    requires upto <= |config|
  {
    exists i :: 0 <= i < upto && Applies(config[i], tai) && ServesAll(config[i], needed, sdOf)
                && forall j :: i < j < upto ==> !Applies(config[j], tai)
  }

  /** `where` is the UE's location, absent if its UE context is not known. */
  method CheckSubscribedNssai(config: seq<ConfigPlmn>, where: Option<Tai>, requested: seq<Snssai>,
                              defaults: seq<Subscribed>,
                              others: seq<Subscribed>, sdOf: SdReader) returns (result: bool)
    ensures result <==> where.Some? && LastServes(config, where.value, Needed(requested, defaults, others, sdOf), sdOf,
                                                  |config|)
  {
    if where.None? {
      return false;
    }
    var tai := where.value;
    ghost var needed := Needed(requested, defaults, others, sdOf);
    result := false;
    for i := 0 to |config|
      invariant result <==> LastServes(config, tai, needed, sdOf, i)
    {
      if !Applies(config[i], tai) {
        continue;
      }
      var common := FindCommon(requested, defaults, others, sdOf);
      if |requested| == 0 || |common| == 0 {
        result := CanServe(config[i], defaults, sdOf);
      } else {
        result := CanServe(config[i], common, sdOf);
      }
    }
  }

  // ---- The same, by values ----

  type Value = (int, int)

  function ValueOf(n: Subscribed, sdOf: SdReader): Value {
    (n.sst, sdOf(n.sd))
  }

  function Values(ns: seq<Subscribed>, sdOf: SdReader): set<Value> {
    set n <- ns :: ValueOf(n, sdOf)
  }

  function RequestedValues(requested: seq<Snssai>): set<Value> {
    set s <- requested :: (s.sst, Unsigned(s.sd))
  }

  function ServedValues(p: ConfigPlmn): set<Value> {
    set c <- p.slices :: (c.sst, c.sd)
  }

  /** What is requested and subscribed; the default subscriptions if there is no such S-NSSAI. */
  function NeededValues(requested: seq<Snssai>, defaults: seq<Subscribed>, others: seq<Subscribed>, sdOf: SdReader)
    : set<Value>
  {
    var common := RequestedValues(requested) * (Values(defaults, sdOf) + Values(others, sdOf));
    if common == {} then Values(defaults, sdOf) else common
  }

  lemma ValuesOfOne(n: Subscribed, sdOf: SdReader)
    ensures Values([n], sdOf) == {ValueOf(n, sdOf)}
  {
    assert n in [n];
  }

  lemma {:induction false} FirstSameValues(s: Snssai, ns: seq<Subscribed>, sdOf: SdReader, i: nat)
    ensures Values(FirstSame(s, ns, sdOf, i), sdOf) ==
            if exists m :: i <= m < |ns| && Same(s, ns[m], sdOf) then {(s.sst, Unsigned(s.sd))} else {}
    decreases |ns| - i
  {
    if i >= |ns| {
    } else {
      if Same(s, ns[i], sdOf) {
        ValuesOfOne(ns[i], sdOf);
      } else {
        FirstSameValues(s, ns, sdOf, i + 1);
      }
    }
  }

  lemma SameByValue(s: Snssai, ns: seq<Subscribed>, sdOf: SdReader)
    ensures Values(FirstSame(s, ns, sdOf, 0), sdOf) == {(s.sst, Unsigned(s.sd))} * Values(ns, sdOf)
  {
    FirstSameValues(s, ns, sdOf, 0);
    if exists m :: 0 <= m < |ns| && Same(s, ns[m], sdOf) {
      var m :| 0 <= m < |ns| && Same(s, ns[m], sdOf);
      assert ns[m] in ns && ValueOf(ns[m], sdOf) == (s.sst, Unsigned(s.sd));
    }
  }

  lemma {:induction false} CommonValues(requested: seq<Snssai>, defaults: seq<Subscribed>, others: seq<Subscribed>,
                                        sdOf: SdReader, i: nat)
    requires i <= |requested|
    ensures Values(CommonSubscribed(requested, defaults, others, sdOf, i), sdOf) ==
            RequestedValues(requested[i..]) * (Values(defaults, sdOf) + Values(others, sdOf))
    decreases |requested| - i
  {
    if i >= |requested| {
    } else {
      CommonValues(requested, defaults, others, sdOf, i + 1);
      SameByValue(requested[i], defaults, sdOf);
      SameByValue(requested[i], others, sdOf);
      assert requested[i..] == [requested[i]] + requested[i + 1..];
      assert RequestedValues(requested[i..])
          == {(requested[i].sst, Unsigned(requested[i].sd))} + RequestedValues(requested[i + 1..]);
      ValuesOfBoth(FirstSame(requested[i], defaults, sdOf, 0), FirstSame(requested[i], others, sdOf, 0), sdOf);
      ValuesOfBoth(FirstSame(requested[i], defaults, sdOf, 0) + FirstSame(requested[i], others, sdOf, 0),
                   CommonSubscribed(requested, defaults, others, sdOf, i + 1), sdOf);
    }
  }

  lemma ValuesOfBoth(a: seq<Subscribed>, b: seq<Subscribed>, sdOf: SdReader)
    ensures Values(a + b, sdOf) == Values(a, sdOf) + Values(b, sdOf)
  {
  }

  lemma NeededByValue(requested: seq<Snssai>, defaults: seq<Subscribed>, others: seq<Subscribed>, sdOf: SdReader)
    ensures Values(Needed(requested, defaults, others, sdOf), sdOf) == NeededValues(requested, defaults, others, sdOf)
  {
    var common := CommonSubscribed(requested, defaults, others, sdOf, 0);
    CommonValues(requested, defaults, others, sdOf, 0);
    assert requested[0..] == requested;
    assert common == [] <==> Values(common, sdOf) == {} by {
      if common != [] {
        assert ValueOf(common[0], sdOf) in Values(common, sdOf);
      }
    }
  }

  lemma ServesByValue(p: ConfigPlmn, needed: seq<Subscribed>, sdOf: SdReader)
    ensures ServesAll(p, needed, sdOf) <==> Values(needed, sdOf) <= ServedValues(p)
  {
    forall n ensures Serves(p, n, sdOf) <==> ValueOf(n, sdOf) in ServedValues(p) {
    }
  }

  /** With one entry for each PLMN and TAC, the last one that applies is any that applies. */
  ghost predicate UniqueEntries(config: seq<ConfigPlmn>) {
    forall i, j :: 0 <= i < j < |config| ==>
                     !(config[i].mcc == config[j].mcc && config[i].mnc == config[j].mnc
                       && config[i].tac == config[j].tac)
  }

  /**
    The check succeeds exactly when some entry applies and the last such entry serves every S-NSSAI needed;
    with unique entries, exactly when some entry applies and serves them.
   */
  lemma CheckByValue(config: seq<ConfigPlmn>, tai: Tai, requested: seq<Snssai>, defaults: seq<Subscribed>,
                     others: seq<Subscribed>, sdOf: SdReader)
    ensures LastServes(config, tai, Needed(requested, defaults, others, sdOf), sdOf, |config|) <==>
            exists i :: 0 <= i < |config| && tai == Tai(config[i].mcc, config[i].mnc, config[i].tac)
                        && NeededValues(requested, defaults, others, sdOf) <= ServedValues(config[i])
                        && forall j :: i < j < |config| ==> tai != Tai(config[j].mcc, config[j].mnc, config[j].tac)
    ensures UniqueEntries(config) ==>
              (LastServes(config, tai, Needed(requested, defaults, others, sdOf), sdOf, |config|) <==>
               exists p <- config :: tai == Tai(p.mcc, p.mnc, p.tac)
                                     && NeededValues(requested, defaults, others, sdOf) <= ServedValues(p))
  {
    var needed := Needed(requested, defaults, others, sdOf);
    assert forall p <- config :: Applies(p, tai) <==> tai == Tai(p.mcc, p.mnc, p.tac);
    NeededByValue(requested, defaults, others, sdOf);
    forall p
      ensures ServesAll(p, needed, sdOf) <==> NeededValues(requested, defaults, others, sdOf) <= ServedValues(p)
    {
      ServesByValue(p, needed, sdOf);
    }
    if UniqueEntries(config) {
      forall i, j | 0 <= i < j < |config| && Applies(config[i], tai) ensures !Applies(config[j], tai) {
      }
    }
  }
}
