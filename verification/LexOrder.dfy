/** The lexicographic order in which the AMF walks its maps that are keyed by a pair of numbers. */
module LexOrder {

  type Pair = (int, int)

  predicate Leq(p: Pair, q: Pair) {
    p.0 < q.0 || (p.0 == q.0 && p.1 <= q.1)
  }

  predicate Less(p: Pair, q: Pair) {
    Leq(p, q) && p != q
  }

  predicate IsLeast(p: Pair, s: set<Pair>) {
    p in s && forall q <- s :: Leq(p, q)
  }

  lemma {:induction false} LeastExists(s: set<Pair>)
    requires s != {}
    ensures exists p :: IsLeast(p, s)
    decreases |s|
  {
    var x :| x in s;
    var rest := s - {x};
    if rest == {} {
      assert s == {x};
      assert IsLeast(x, s);
    } else {
      LeastExists(rest);
      var p :| IsLeast(p, rest);
      assert s == rest + {x};
      if Leq(p, x) {
        assert IsLeast(p, s);
      } else {
        assert IsLeast(x, s);
      }
    }
  }

  /** The entry an iterator over a map with these keys meets first. */
  ghost function Least(s: set<Pair>): (p: Pair)
    requires s != {}
    ensures IsLeast(p, s)
  {
    LeastExists(s);
    var p :| IsLeast(p, s);
    p
  }

  lemma LeastIsUnique(s: set<Pair>, p: Pair)
    requires IsLeast(p, s)
    ensures p == Least(s)
  {
  }

  method FindLeast(s: set<Pair>) returns (p: Pair)
    requires s != {}
    ensures IsLeast(p, s)
  {
    LeastExists(s);
    p :| IsLeast(p, s);
  }

  /** The keys in the order an iterator meets them. */
  ghost function Sorted(s: set<Pair>): (keys: seq<Pair>)
    ensures forall p :: p in keys <==> p in s
    ensures |keys| == |s|
    decreases |s|
  {
    if s == {} then []
    else
      var p := Least(s);
      var rest := Sorted(s - {p});
      assert s == {p} + (s - {p});
      [p] + rest
  }

  lemma {:induction false} SortedIncreases(s: set<Pair>, i: nat, j: nat)
    requires i < j < |Sorted(s)|
    ensures Less(Sorted(s)[i], Sorted(s)[j])
    decreases |s|
  {
    var p := Least(s);
    var rest := Sorted(s - {p});
    if i == 0 {
      assert Sorted(s)[j] == rest[j - 1];
      assert rest[j - 1] in rest;
    } else {
      SortedIncreases(s - {p}, i - 1, j - 1);
    }
  }
}
