/**
  Event exposure subscriptions. An entry is keyed by subscription id and event type; a delete looks for an
  entry by the low eight bits of its id.
 */
module EventSubscriptions {
  import opened LexOrder
  import opened Decimal

  type Subscriptions = map<Pair, string>

  const IDS: int := 0x1_0000_0000

  function Matching(subs: Subscriptions, sub: int): set<Pair> {
    set k <- subs.Keys | k.0 % 0x100 == sub
  }

  function Own(subs: Subscriptions, sub: int): set<Pair> {
    set k <- subs.Keys | k.0 == sub
  }

  /** What a delete leaves, and whether it found something: the first entry in the order of the keys goes. */
  ghost function Remove(subs: Subscriptions, keys: set<Pair>): (Subscriptions, bool) {
    if keys == {} then (subs, false) else (subs - {Least(keys)}, true)
  }

  /** What the code does. */
  ghost function Delete(subs: Subscriptions, sub: int): (Subscriptions, bool) {
    Remove(subs, Matching(subs, sub))
  }

  /** What is meant: the entry of this subscription with the least event type goes. */
  ghost function Intended(subs: Subscriptions, sub: int): (Subscriptions, bool) {
    Remove(subs, Own(subs, sub))
  }

  /** An entry is added for each event type, unless there is one. */
  function Subscribe(subs: Subscriptions, sub: int, events: seq<int>, uri: string): Subscriptions
    decreases |events|
  {
    if events == [] then subs
    else
      var key := (sub, events[0]);
      Subscribe(if key in subs then subs else subs[key := uri], sub, events[1..], uri)
  }

  /** `issued` counts the ids the 32-bit generator has given; none is given back. */
  class EventExposure {
    var subs: Subscriptions
    var issued: nat

    /** Entries are under ids that have been issued; the last id to be issued is 0. */
    ghost predicate Valid()
      reads this
    {
      issued <= IDS && forall k <- subs :: 0 <= k.0 < IDS && (issued < IDS ==> 0 < k.0 <= issued)
    }

    constructor ()
      ensures Valid() && subs == map[] && issued == 0
    {
      subs, issued := map[], 0;
    }

    /** The id is one that no entry has had; when all have been issued the generator looks for one forever. */
    method HandleSubscription(events: seq<int>, uri: string) returns (sub: int)
      requires Valid() && issued < IDS
      modifies this
      ensures Valid() && issued == old(issued) + 1 && sub == issued % IDS && Own(old(subs), sub) == {}
      ensures subs == Subscribe(old(subs), sub, events, uri)
    {
      issued := issued + 1;
      sub := issued % IDS;
      var i := 0;
      while i < |events|
        invariant 0 <= i <= |events| && Valid() && issued == old(issued) + 1 && sub == issued % IDS
        invariant Subscribe(subs, sub, events[i..], uri) == Subscribe(old(subs), sub, events, uri)
      {
        if (sub, events[i]) !in subs {
          subs := subs[(sub, events[i]) := uri];
        }
        assert events[i..][1..] == events[i + 1..];
        i := i + 1;
      }
    }

    /** The entries are walked in order until one matches. */
    method RemoveSubscription(sub: int) returns (found: bool)
      requires Valid()
      modifies this
      ensures Valid() && issued == old(issued) && (subs, found) == Delete(old(subs), sub)
    {
      var rest := subs.Keys;
      while rest != {}
        invariant rest <= subs.Keys && subs == old(subs) && issued == old(issued)
        invariant Matching(subs, sub) <= rest
        invariant forall k <- subs.Keys, l <- rest :: k !in rest ==> Leq(k, l)
      {
        var k := FindLeast(rest);
        if k.0 % 0x100 == sub {
          assert IsLeast(k, Matching(subs, sub));
          LeastIsUnique(Matching(subs, sub), k);
          subs := subs - {k};
          return true;
        }
        rest := rest - {k};
      }
      found := false;
    }

    method HandleDelete(id: string) returns (found: bool)
      requires Valid()
      modifies this
      ensures Valid() && issued == old(issued)
      ensures (subs, found) == match Stoi(id)
                               case None => (old(subs), false)
                               case Some(n) => Delete(old(subs), n % 0x1_0000_0000)
    {
      match Stoi(id)
      case None => found := false;
      case Some(n) => found := RemoveSubscription(n % IDS);
    }
  }

  // ---- When a delete does what is meant ----

  lemma OwnAmongMatching(subs: Subscriptions, sub: int)
    requires 0 <= sub < 0x100 && Own(subs, sub) != {} && forall k <- subs.Keys :: 0 <= k.0
    ensures Least(Matching(subs, sub)) == Least(Own(subs, sub))
  {
    var p := Least(Own(subs, sub));
    assert p in Matching(subs, sub);
    forall q | q in Matching(subs, sub) ensures Leq(p, q) {
      if q.0 == sub {
        assert q in Own(subs, sub);
      } else {
        assert q.0 > sub;
      }
    }
    LeastIsUnique(Matching(subs, sub), p);
  }

  /**
    A delete does what is meant exactly in these cases: for an id below 256 when the subscription still has an
    entry or no other one shares the low eight bits, and for any other id when the subscription has no entry.
   */
  lemma DeleteAsIntended(subs: Subscriptions, sub: int)
    requires 0 <= sub && forall k <- subs.Keys :: 0 <= k.0
    ensures Delete(subs, sub) == Intended(subs, sub) <==>
            if sub < 0x100 then Own(subs, sub) != {} || Matching(subs, sub) == {} else Own(subs, sub) == {}
  {
    if sub < 0x100 {
      if Own(subs, sub) != {} {
        OwnAmongMatching(subs, sub);
        assert Least(Own(subs, sub)) in Matching(subs, sub);
      } else if Matching(subs, sub) != {} {
        assert Delete(subs, sub).1 && !Intended(subs, sub).1;
      }
    } else {
      assert Matching(subs, sub) == {};
    }
  }

  // ---- A subscription and its deletes ----

  ghost function Deletes(subs: Subscriptions, sub: int, n: nat): Subscriptions {
    if n == 0 then subs else Deletes(Delete(subs, sub).0, sub, n - 1)
  }

  /** So many deletes of an id below 256 as it has entries remove exactly these, and each of them finds one. */
  lemma {:induction false} DeletesRemoveOwn(subs: Subscriptions, sub: int, n: nat)
    requires 0 <= sub < 0x100 && forall k <- subs.Keys :: 0 <= k.0
    requires n <= |Own(subs, sub)|
    ensures |Own(Deletes(subs, sub, n), sub)| == |Own(subs, sub)| - n
    ensures forall k: Pair :: k.0 != sub ==> (k in Deletes(subs, sub, n) <==> k in subs)
    ensures forall k :: k in Deletes(subs, sub, n) ==> k in subs && Deletes(subs, sub, n)[k] == subs[k]
    decreases n
  {
    if n == 0 {
    } else {
      assert Own(subs, sub) != {};
      OwnAmongMatching(subs, sub);
      var p := Least(Own(subs, sub));
      var next := Delete(subs, sub).0;
      assert p in Matching(subs, sub) && next == subs - {p};
      assert Own(next, sub) == Own(subs, sub) - {p};
      DeletesRemoveOwn(next, sub, n - 1);
    }
  }

  /** The keys of a subscription to these event types. */
  function Entries(sub: int, events: seq<int>): set<Pair> {
    if events == [] then {} else {(sub, events[0])} + Entries(sub, events[1..])
  }

  lemma {:induction false} EntriesExactly(sub: int, events: seq<int>, k: Pair)
    ensures k in Entries(sub, events) <==> k.0 == sub && k.1 in events
  {
    if events == [] {
    } else {
      EntriesExactly(sub, events[1..], k);
    }
  }

  function Types(events: seq<int>): set<int> {
    set e | e in events
  }

  /** There are as many keys as distinct event types. */
  lemma {:induction false} EntriesCount(sub: int, events: seq<int>)
    ensures |Entries(sub, events)| == |Types(events)|
  {
    if events == [] {
    } else {
      EntriesCount(sub, events[1..]);
      EntriesExactly(sub, events[1..], (sub, events[0]));
      assert Types(events) == {events[0]} + Types(events[1..]);
    }
  }

  lemma {:induction false} SubscribeAdds(subs: Subscriptions, sub: int, events: seq<int>, uri: string)
    ensures Own(Subscribe(subs, sub, events, uri), sub) == Own(subs, sub) + Entries(sub, events)
    ensures forall k: Pair :: k.0 != sub ==> (k in Subscribe(subs, sub, events, uri) <==> k in subs)
    ensures var after := Subscribe(subs, sub, events, uri);
            forall k <- subs :: k in after && after[k] == subs[k]
    decreases |events|
  {
    if events == [] {
    } else {
      var key := (sub, events[0]);
      var next := if key in subs then subs else subs[key := uri];
      SubscribeAdds(next, sub, events[1..], uri);
      assert Own(next, sub) == Own(subs, sub) + {key};
    }
  }

  /** A subscription with k distinct event types is gone after exactly k deletes, and the others are as before. */
  lemma GoneAfterDeletes(subs: Subscriptions, sub: int, events: seq<int>, uri: string, n: nat)
    requires 0 <= sub < 0x100 && Own(subs, sub) == {} && forall k <- subs.Keys :: 0 <= k.0
    requires n <= |Types(events)|
    ensures var left := Deletes(Subscribe(subs, sub, events, uri), sub, n);
            && (Own(left, sub) == {} <==> n == |Types(events)|)
            && (n == |Types(events)| ==> left == subs)
  {
    var all := Subscribe(subs, sub, events, uri);
    EntriesCount(sub, events);
    SubscribeAdds(subs, sub, events, uri);
    assert Own(all, sub) == Entries(sub, events);
    forall k | k in all.Keys ensures 0 <= k.0 {
      if k.0 != sub {
        assert k in subs;
      }
    }
    DeletesRemoveOwn(all, sub, n);
    var left := Deletes(all, sub, n);
    if n == |Types(events)| {
      forall k ensures k in left <==> k in subs {
        assert k in left && k.0 == sub ==> k in Own(left, sub);
        assert k in subs && k.0 == sub ==> k in Own(subs, sub);
      }
    }
  }
}
