/** The Allowed and Rejected NSSAI of a Registration Accept, and the slice of a PDU session that names none. */
module RegistrationNssai {
  import opened Wrappers
  import opened Slices
  import opened Nssai

  const DEFAULT_SST: Uint8 := 1

  /** A rejected S-NSSAI has no SD if it came without one. */
  datatype Rejected = Rejected(sst: Uint8, sd: Option<int>)

  function Rejection(x: Snssai): Rejected {
    Rejected(x.sst, if x.sd == SD_NO_VALUE then None else Some(x.sd))
  }

  /** The rejections of the requested S-NSSAIs that are not in common, in the order of the request, from this one on. */
  function RejectedFrom(requested: seq<Snssai>, common: seq<Snssai>, i: nat): seq<Rejected>
    decreases |requested| - i
  {
    if i >= |requested| then []
    else
      (if requested[i] in common then [] else [Rejection(requested[i])]) + RejectedFrom(requested, common, i + 1)
  }

  function RejectedNssai(requested: seq<Snssai>, common: seq<Snssai>): seq<Rejected> {
    RejectedFrom(requested, common, 0)
  }

  lemma {:induction false} RejectedFromExactly(requested: seq<Snssai>, common: seq<Snssai>, i: nat, x: Snssai)
    ensures Rejection(x) in RejectedFrom(requested, common, i) <==>
            x !in common && exists m :: i <= m < |requested| && requested[m] == x
    decreases |requested| - i
  {
    if i >= |requested| {
    } else {
      RejectedFromExactly(requested, common, i + 1, x);
      assert Rejection(x) == Rejection(requested[i]) <==> x == requested[i];
    }
  }

  /** Each requested S-NSSAI is either among the allowed or among the rejected ones, and nothing else is rejected. */
  lemma AllowedOrRejected(requested: seq<Snssai>, common: seq<Snssai>, x: Snssai)
    ensures x in requested ==> (x in common <==> Rejection(x) !in RejectedNssai(requested, common))
    ensures x !in requested ==> Rejection(x) !in RejectedNssai(requested, common)
  {
    RejectedFromExactly(requested, common, 0, x);
    if x in requested {
      var m :| 0 <= m < |requested| && requested[m] == x;
    }
  }

  /** The rejected list follows the order of the request: what comes from an earlier part comes first. */
  lemma RejectedInOrder(a: seq<Snssai>, b: seq<Snssai>, common: seq<Snssai>)
    ensures RejectedNssai(a + b, common) == RejectedNssai(a, common) + RejectedNssai(b, common)
  {
    RejectedOfSecond(a, b, common, 0);
    RejectedOfFirst(a, b, common, 0);
  }

  lemma {:induction false} RejectedOfSecond(a: seq<Snssai>, b: seq<Snssai>, common: seq<Snssai>, i: nat)
    ensures RejectedFrom(a + b, common, |a| + i) == RejectedFrom(b, common, i)
    decreases |b| - i
  {
    if i >= |b| {
    } else {
      assert (a + b)[|a| + i] == b[i];
      RejectedOfSecond(a, b, common, i + 1);
    }
  }

  lemma {:induction false} RejectedOfFirst(a: seq<Snssai>, b: seq<Snssai>, common: seq<Snssai>, i: nat)
    requires i <= |a|
    ensures RejectedFrom(a + b, common, i) == RejectedFrom(a, common, i) + RejectedFrom(a + b, common, |a|)
    decreases |a| - i
  {
    if i >= |a| {
      assert RejectedFrom(a, common, i) == [];
    } else {
      assert (a + b)[i] == a[i];
      RejectedOfFirst(a, b, common, i + 1);
      var here := if a[i] in common then [] else [Rejection(a[i])];
      var next := RejectedFrom(a, common, i + 1);
      assert here + (next + RejectedFrom(a + b, common, |a|)) == (here + next) + RejectedFrom(a + b, common, |a|);
    }
  }

  // ---- The slices a NAS context holds ----

  datatype Subscription = Subscription(isDefault: bool, snssai: Snssai)

  function Names(subscribed: seq<Subscription>): (r: seq<Snssai>)
    ensures |r| == |subscribed| && forall i :: 0 <= i < |r| ==> r[i] == subscribed[i].snssai
  {
    if subscribed == [] then [] else [subscribed[0].snssai] + Names(subscribed[1..])
  }

  /** What counts as requested: the subscribed slices if the UE requested none. */
  function Requested(requested: seq<Snssai>, subscribed: seq<Subscription>): seq<Snssai> {
    if requested != [] then requested else Names(subscribed)
  }

  function FirstDefault(subscribed: seq<Subscription>, i: nat): Option<Snssai>
    decreases |subscribed| - i
  {
    if i >= |subscribed| then None
    else if subscribed[i].isDefault then Some(subscribed[i].snssai)
    else FirstDefault(subscribed, i + 1)
  }

  predicate IsFirstDefault(subscribed: seq<Subscription>, i: int) {
    0 <= i < |subscribed| && subscribed[i].isDefault && forall j :: 0 <= j < i ==> !subscribed[j].isDefault
  }

  const DEFAULT_SLICE := Snssai(DEFAULT_SST, SD_NO_VALUE)

  /**
    The slice of a PDU session: the one named, else the first allowed, default subscribed or common one, else the
    default. `common` is absent where there is no UE context to tell the gNB; the message is dropped then.
   */
  function Chosen(named: Option<Snssai>, allowed: seq<Snssai>, subscribed: seq<Subscription>,
                  common: Option<seq<Snssai>>): Option<Snssai>
  {
    if named.Some? then named
    else if allowed != [] then Some(allowed[0])
    else
      match FirstDefault(subscribed, 0)
      case Some(s) => Some(s)
      case None =>
        match common
        case None => None
        case Some(all) => Some(if all != [] then all[0] else DEFAULT_SLICE)
  }

  // ---- Over several registrations ----

  /** The S-NSSAIs in common with a gNB after these NG Setup Requests. */
  function CommonAfter(setups: seq<NgSetup>, sdOf: SdReader): seq<Snssai> {
    CommonNssai(Stored(setups, sdOf), sdOf)
  }

  /**
    The allowed list of a NAS context after registrations at these times: for each, the NG Setup Requests that
    the gNB then serving had sent, none if there was no such gNB.
   */
  function AllowedAfter(times: seq<seq<NgSetup>>, sdOf: SdReader): seq<Snssai>
    decreases |times|
  {
    if times == [] then []
    else AllowedAfter(times[..|times| - 1], sdOf) + CommonAfter(times[|times| - 1], sdOf)
  }

  lemma CommonWasOffered(setups: seq<NgSetup>, sdOf: SdReader)
    ensures forall x :: x in CommonAfter(setups, sdOf) <==> OfferedIn(setups, sdOf, x)
  {
    forall x ensures x in CommonAfter(setups, sdOf) <==> OfferedIn(setups, sdOf, x) {
      CommonNssaiExactly(setups, sdOf, x);
    }
  }

  /** After any registrations exactly those are allowed that the gNB serving at one of them had offered. */
  lemma {:induction false} AllowedWereOffered(times: seq<seq<NgSetup>>, sdOf: SdReader, x: Snssai)
    ensures x in AllowedAfter(times, sdOf) <==> exists setups <- times :: OfferedIn(setups, sdOf, x)
    decreases |times|
  {
    if times == [] {
    } else {
      var last := times[|times| - 1];
      var before := times[..|times| - 1];
      AllowedWereOffered(before, sdOf, x);
      CommonWasOffered(last, sdOf);
      assert forall setups :: setups in times <==> setups in before || setups == last;
    }
  }

  /** This registration is the first one with something in common, and this is the first S-NSSAI it allows. */
  ghost predicate FirstToAllow(times: seq<seq<NgSetup>>, sdOf: SdReader, m: int, x: Snssai) {
    && 0 <= m < |times| && StartsWith(CommonAfter(times[m], sdOf), x)
    && forall i :: 0 <= i < m ==> CommonAfter(times[i], sdOf) == []
  }

  predicate StartsWith(all: seq<Snssai>, x: Snssai) {
    all != [] && all[0] == x
  }

  ghost predicate NothingAllowed(times: seq<seq<NgSetup>>, sdOf: SdReader) {
    forall setups <- times :: CommonAfter(setups, sdOf) == []
  }

  lemma {:induction false} NothingIsAllowed(times: seq<seq<NgSetup>>, sdOf: SdReader)
    ensures AllowedAfter(times, sdOf) == [] <==> NothingAllowed(times, sdOf)
    decreases |times|
  {
    if times == [] {
    } else {
      var n := |times| - 1;
      NothingIsAllowed(times[..n], sdOf);
      assert forall setups :: setups in times <==> setups in times[..n] || setups == times[n];
    }
  }

  /** What the first registration with something in common allowed stays at the head of the list. */
  lemma {:induction false} FirstAllowedStays(times: seq<seq<NgSetup>>, sdOf: SdReader, x: Snssai)
    requires StartsWith(AllowedAfter(times, sdOf), x)
    ensures exists m :: FirstToAllow(times, sdOf, m, x)
    decreases |times|
  {
    var n := |times| - 1;
    if AllowedAfter(times[..n], sdOf) == [] {
      NothingIsAllowed(times[..n], sdOf);
      forall i | 0 <= i < n ensures CommonAfter(times[i], sdOf) == [] {
        assert times[i] in times[..n];
      }
      assert FirstToAllow(times, sdOf, n, x);
    } else {
      FirstAllowedStays(times[..n], sdOf, x);
      var m :| FirstToAllow(times[..n], sdOf, m, x);
      assert forall i :: 0 <= i < m ==> times[..n][i] == times[i];
      assert FirstToAllow(times, sdOf, m, x);
    }
  }

  /**
    A PDU session that names no slice, at a time when these NG Setup Requests have come from the serving gNB:
    the slice is the first one that the first registration with something in common allowed, and the gNB serving
    then had offered it, however many registrations follow.
   */
  lemma DefaultSliceWasOffered(times: seq<seq<NgSetup>>, sdOf: SdReader,
                               subscribed: seq<Subscription>, now: seq<NgSetup>)
    requires exists setups <- times, x :: OfferedIn(setups, sdOf, x)
    ensures var chosen := Chosen(None, AllowedAfter(times, sdOf), subscribed,
                                 Some(CommonAfter(now, sdOf)));
            && chosen.Some?
            && exists m :: FirstToAllow(times, sdOf, m, chosen.value)
                           && OfferedIn(times[m], sdOf, chosen.value)
  {
    var setups, x :| setups in times && OfferedIn(setups, sdOf, x);
    AllowedWereOffered(times, sdOf, x);
    var first := AllowedAfter(times, sdOf)[0];
    FirstAllowedStays(times, sdOf, first);
    var m :| FirstToAllow(times, sdOf, m, first);
    CommonWasOffered(times[m], sdOf);
    assert first in CommonAfter(times[m], sdOf);
  }

  /**
    While no registration has had anything in common it is a default subscribed slice, else one that the gNB
    serving now has offered, or the default one where it has offered none.
   */
  lemma DefaultSliceOtherwise(times: seq<seq<NgSetup>>, sdOf: SdReader,
                              subscribed: seq<Subscription>, now: seq<NgSetup>)
    requires forall setups <- times, x :: !OfferedIn(setups, sdOf, x)
    ensures var chosen := Chosen(None, AllowedAfter(times, sdOf), subscribed,
                                 Some(CommonAfter(now, sdOf)));
            match FirstDefault(subscribed, 0)
            case Some(s) => chosen == Some(s)
            case None => chosen.Some? && (OfferedIn(now, sdOf, chosen.value)
                                          || (chosen.value == DEFAULT_SLICE
                                              && forall x :: !OfferedIn(now, sdOf, x)))
  {
    var allowed := AllowedAfter(times, sdOf);
    if allowed != [] {
      AllowedWereOffered(times, sdOf, allowed[0]);
      assert false;
    }
    CommonWasOffered(now, sdOf);
    var common := CommonAfter(now, sdOf);
    assert common != [] ==> common[0] in common;
  }

  /** Of what is requested exactly that is rejected which none of the NG Setup Requests offered. */
  lemma RejectedWasNotOffered(setups: seq<NgSetup>, sdOf: SdReader, requested: seq<Snssai>)
    ensures forall x :: Rejection(x) in RejectedNssai(requested, CommonAfter(setups, sdOf)) <==>
                        x in requested && !OfferedIn(setups, sdOf, x)
  {
    CommonWasOffered(setups, sdOf);
    forall x
      ensures Rejection(x) in RejectedNssai(requested, CommonAfter(setups, sdOf)) <==>
              x in requested && !OfferedIn(setups, sdOf, x)
    {
      AllowedOrRejected(requested, CommonAfter(setups, sdOf), x);
    }
  }

  /** The lists of a Registration Accept. */
  datatype Lists = Lists(allowed: seq<Snssai>, rejected: seq<Rejected>)

  /** These rejections are those of the S-NSSAIs asked for that are not offered, each as often, in the same order. */
  ghost predicate Rejects(rejected: seq<Rejected>, asked: seq<Snssai>, offered: iset<Snssai>)
    decreases |asked|
  {
    if asked == [] then rejected == []
    else if asked[0] in offered then Rejects(rejected, asked[1..], offered)
    else
      && rejected != [] && rejected[0].sst == asked[0].sst
      && rejected[0].sd == (if asked[0].sd == 0xFFFFFF then None else Some(asked[0].sd))
      && Rejects(rejected[1..], asked[1..], offered)
  }

  lemma {:induction false} RejectedRejects(asked: seq<Snssai>, common: seq<Snssai>, offered: iset<Snssai>)
    requires forall x :: x in common <==> x in offered
    ensures Rejects(RejectedNssai(asked, common), asked, offered)
    decreases |asked|
  {
    if asked == [] {
    } else {
      RejectedRejects(asked[1..], common, offered);
      var rest := RejectedNssai(asked[1..], common);
      RejectedInOrder([asked[0]], asked[1..], common);
      assert asked == [asked[0]] + asked[1..];
      RejectedOfOne(asked[0], common);
      assert [] + rest == rest && ([Rejection(asked[0])] + rest)[1..] == rest;
    }
  }

  lemma RejectedOfOne(x: Snssai, common: seq<Snssai>)
    ensures RejectedNssai([x], common) == if x in common then [] else [Rejection(x)]
  {
    assert RejectedFrom([x], common, 1) == [];
  }

  /** Allowed is exactly what these NG Setup Requests offered, rejected exactly what is asked for besides, in order. */
  ghost predicate ListsWhatWasOffered(lists: Lists, asked: seq<Snssai>, setups: seq<NgSetup>, sdOf: SdReader) {
    && (forall x :: x in lists.allowed <==> OfferedIn(setups, sdOf, x))
    && (forall x :: Rejection(x) in lists.rejected <==> x in asked && !OfferedIn(setups, sdOf, x))
    && Rejects(lists.rejected, asked, iset x | OfferedIn(setups, sdOf, x))
  }

  lemma AsOffered(lists: Lists, asked: seq<Snssai>, setups: seq<NgSetup>, sdOf: SdReader)
    requires lists == Lists(CommonAfter(setups, sdOf), RejectedNssai(asked, CommonAfter(setups, sdOf)))
    ensures ListsWhatWasOffered(lists, asked, setups, sdOf)
  {
    CommonWasOffered(setups, sdOf);
    RejectedWasNotOffered(setups, sdOf, asked);
    RejectedRejects(asked, lists.allowed, iset x | OfferedIn(setups, sdOf, x));
  }

  lemma NamesExactly(subscribed: seq<Subscription>)
    ensures forall x :: x in Names(subscribed) <==> exists i :: 0 <= i < |subscribed| && subscribed[i].snssai == x
  {
    forall x ensures x in Names(subscribed) <==> exists i :: 0 <= i < |subscribed| && subscribed[i].snssai == x {
      if i :| 0 <= i < |subscribed| && subscribed[i].snssai == x {
        assert Names(subscribed)[i] == x;
      }
    }
  }

  // ---- The NAS context ----

  class NasSlices {
    var requested: seq<Snssai>
    var subscribed: seq<Subscription>
    var allowed: seq<Snssai>
    ghost var times: seq<seq<NgSetup>>

    /** What is allowed comes from the registrations so far. */
    ghost predicate Allows(sdOf: SdReader)
      reads this
    {
      allowed == AllowedAfter(times, sdOf)
    }

    constructor (requested: seq<Snssai>, subscribed: seq<Subscription>)
      ensures this.requested == requested && this.subscribed == subscribed && allowed == [] && times == []
    {
      this.requested, this.subscribed, allowed, times := requested, subscribed, [], [];
    }

    /** A service request takes the slices over from an older NAS context, with the registrations they come from. */
    method TakeOver(older: NasSlices)
      modifies this
      ensures requested == old(older.requested) && subscribed == old(older.subscribed)
      ensures allowed == old(older.allowed) && times == old(older.times)
      ensures forall sdOf :: old(older.Allows(sdOf)) ==> Allows(sdOf)
    {
      requested, allowed, subscribed, times := older.requested, older.allowed, older.subscribed, older.times;
    }

    /**
      The lists of a Registration Accept: what the serving gNB has offered, and what of the request it has not.
      What is allowed is added to what the context holds already. `gnb` is what the UE context tells; neither list
      is set if there is none.
     */
    method InitializeRegistrationAccept(n2: ServingGnbs, ran: int, gnb: Option<int>, sdOf: SdReader)
      returns (lists: Option<Lists>)
      requires gnb.Some? ==> n2.IsSetUp(ran, gnb.value, sdOf)
      modifies this`allowed, this`times
      ensures lists.Some? <==> gnb.Some?
      ensures lists == None ==> allowed == old(allowed) && times == old(times)
      ensures lists.Some? ==>
                && times == old(times) + [n2.Setups(ran, gnb.value)] && allowed == old(allowed) + lists.value.allowed
                && lists.value.allowed == CommonNssai(n2.Support(ran, gnb.value), sdOf)
                && lists.value.rejected == RejectedNssai(Requested(requested, subscribed), lists.value.allowed)
                && ListsWhatWasOffered(lists.value, Requested(requested, subscribed), n2.Setups(ran, gnb.value), sdOf)
      ensures lists.Some? && requested != [] ==>
                ListsWhatWasOffered(lists.value, requested, n2.Setups(ran, gnb.value), sdOf)
      ensures lists.Some? && requested == [] ==>
                && ListsWhatWasOffered(lists.value, Names(subscribed), n2.Setups(ran, gnb.value), sdOf)
                && forall x :: Rejection(x) in lists.value.rejected <==>
                               && (exists i :: 0 <= i < |subscribed| && subscribed[i].snssai == x)
                               && !OfferedIn(n2.Setups(ran, gnb.value), sdOf, x)
      ensures old(Allows(sdOf)) ==> Allows(sdOf)
    {
      if gnb == None {
        return None;
      }
      var accept := FillLists(n2, ran, gnb.value, sdOf);
      lists := Some(accept);
      if requested == [] {
        assert Requested(requested, subscribed) == Names(subscribed);
        NamesExactly(subscribed);
      }
    }

    method FillLists(n2: ServingGnbs, ran: int, gnb: int, sdOf: SdReader) returns (lists: Lists)
      requires n2.IsSetUp(ran, gnb, sdOf)
      modifies this`allowed, this`times
      ensures times == old(times) + [n2.Setups(ran, gnb)] && allowed == old(allowed) + lists.allowed
      ensures lists.allowed == CommonNssai(n2.Support(ran, gnb), sdOf)
      ensures lists.rejected == RejectedNssai(Requested(requested, subscribed), lists.allowed)
      ensures ListsWhatWasOffered(lists, Requested(requested, subscribed), n2.Setups(ran, gnb), sdOf)
      ensures old(Allows(sdOf)) ==> Allows(sdOf)
    {
      var common, _ := n2.GetCommonNssai(ran, gnb, sdOf);
      assert (times + [n2.Setups(ran, gnb)])[..|times|] == times;
      times := times + [n2.Setups(ran, gnb)];
      var asked := Asked();
      var allowedIe := Allow(common);
      var rejectedIe := Reject(asked, common);
      lists := Lists(allowedIe, rejectedIe);
      AsOffered(lists, asked, n2.Setups(ran, gnb), sdOf);
    }

    method Asked() returns (asked: seq<Snssai>)
      ensures asked == Requested(requested, subscribed)
    {
      asked := requested;
      if |asked| == 0 {
        for i := 0 to |subscribed|
          invariant asked == Names(subscribed)[..i]
        {
          asked := asked + [subscribed[i].snssai];
        }
      }
    }

    method Allow(common: seq<Snssai>) returns (allowedIe: seq<Snssai>)
      modifies this`allowed
      ensures allowedIe == common && allowed == old(allowed) + common
    {
      allowedIe := [];
      for i := 0 to |common|
        invariant allowedIe == common[..i] && allowed == old(allowed) + allowedIe
      {
        allowedIe := allowedIe + [common[i]];
        allowed := allowed + [common[i]];
      }
    }

    /** `gnb` is what the UE context tells, absent if there is none. */
    method ChooseSnssai(named: Option<Snssai>, n2: ServingGnbs, ran: int, gnb: Option<int>, sdOf: SdReader)
      returns (s: Option<Snssai>)
      ensures s == Chosen(named, allowed, subscribed,
                          if gnb == None then None else Some(CommonNssai(n2.Support(ran, gnb.value), sdOf)))
      ensures named.Some? ==> s == named
      ensures named.None? && allowed != [] ==> s == Some(allowed[0])
      ensures named.None? && allowed == [] ==>
                forall i :: IsFirstDefault(subscribed, i) ==> s == Some(subscribed[i].snssai)
      ensures named.None? && allowed == [] && (forall i :: 0 <= i < |subscribed| ==> !subscribed[i].isDefault) ==>
                if gnb.None? then s == None
                else
                  var common := CommonNssai(n2.Support(ran, gnb.value), sdOf);
                  s == Some(if common != [] then common[0] else Snssai(1, 0xFFFFFF))
    {
      if named.Some? {
        return named;
      }
      if |allowed| > 0 {
        return Some(allowed[0]);
      }
      for i := 0 to |subscribed|
        invariant FirstDefault(subscribed, 0) == FirstDefault(subscribed, i)
        invariant forall j :: 0 <= j < i ==> !subscribed[j].isDefault
      {
        if subscribed[i].isDefault {
          return Some(subscribed[i].snssai);
        }
      }
      if gnb == None {
        return None;
      }
      var common, _ := n2.GetCommonNssai(ran, gnb.value, sdOf);
      s := Some(if |common| > 0 then common[0] else DEFAULT_SLICE);
    }
  }

  method Reject(asked: seq<Snssai>, common: seq<Snssai>) returns (rejectedIe: seq<Rejected>)
    ensures rejectedIe == RejectedNssai(asked, common)
  {
    rejectedIe := [];
    for i := 0 to |asked|
      invariant RejectedNssai(asked, common) == rejectedIe + RejectedFrom(asked, common, i)
    {
      var found := IsCommon(asked[i], common);
      if !found {
        rejectedIe := rejectedIe + [Rejection(asked[i])];
      }
    }
  }

  method IsCommon(x: Snssai, common: seq<Snssai>) returns (found: bool)
    ensures found <==> x in common
  {
    found := false;
    for i := 0 to |common|
      invariant x !in common[..i]
    {
      if x.sst == common[i].sst && x.sd == common[i].sd {
        return true;
      }
    }
  }
}
