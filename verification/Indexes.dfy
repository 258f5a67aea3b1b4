/** The indexes of the AMF tasks, as objects that the handlers update in place. */
module Indexes {
  import opened Wrappers
  import opened LexOrder
  import opened Contexts
  import opened UeIndexSpec
  import opened IndexReset

  lemma {:induction false} OnAssocExtends(s: Snapshot, assoc: int, order: seq<Pair>, k: Pair)
    requires forall p <- order + [k] :: p in s.ues.byRan
    ensures forall p <- order :: p in s.ues.byRan
    ensures OnAssoc(s, assoc, order + [k]) ==
            OnAssoc(s, assoc, order) + (if NgapOf(s, s.ues.byRan[k]).assoc == assoc then [s.ues.byRan[k]] else [])
  {
    assert forall p <- order :: p in order + [k];
    assert k in order + [k];
    if order == [] {
      assert order + [k] == [k] && [k][1..] == [];
    } else {
      assert (order + [k])[1..] == order[1..] + [k];
      assert forall p <- order[1..] + [k] :: p in order + [k];
      OnAssocExtends(s, assoc, order[1..], k);
    }
  }

  /** The walk over the index has been to the entries done, in order, and the rest is to come. */
  ghost predicate Walked(s: Snapshot, done: seq<Pair>, rest: set<Pair>) {
    && rest <= s.ues.byRan.Keys
    && Sorted(s.ues.byRan.Keys) == done + Sorted(rest)
    && forall k <- done :: k in s.ues.byRan
  }

  lemma WalkOn(s: Snapshot, assoc: int, done: seq<Pair>, rest: set<Pair>, k: Pair)
    requires Walked(s, done, rest) && IsLeast(k, rest)
    ensures Walked(s, done + [k], rest - {k})
    ensures OnAssoc(s, assoc, done + [k]) ==
            OnAssoc(s, assoc, done) + (if NgapOf(s, s.ues.byRan[k]).assoc == assoc then [s.ues.byRan[k]] else [])
  {
    LeastIsUnique(rest, k);
    assert done + Sorted(rest) == (done + [k]) + Sorted(rest - {k});
    OnAssocExtends(s, assoc, done, k);
  }

  lemma CollectedAreIndexed(s: Snapshot, assoc: int)
    ensures forall u <- Collect(s, assoc) :: u in s.ues.byRan.Values
  {
    forall u | u in Collect(s, assoc) ensures u in s.ues.byRan.Values {
      CollectFinds(s, assoc, u);
    }
  }

  /** The N2 task's NGAP contexts. `known` is every context that was ever indexed. */
  class NgapIndexes {
    var byRan: map<Pair, UeNgapContext>
    var byAmf: map<int, UeNgapContext>
    ghost var known: set<UeNgapContext>

    ghost predicate Valid()
      reads this
    {
      byRan.Values <= known && byAmf.Values <= known
    }

    ghost function Store(): map<UeNgapContext, NgapRec>
      reads this`known, known
    {
      map u | u in known :: u.Rec()
    }

    ghost function Index(): NgapIndex
      reads this, known
    {
      NgapIndex(byRan, byAmf, Store())
    }

    constructor ()
      ensures Valid() && Index() == NgapIndex(map[], map[], map[]) && known == {}
    {
      byRan, byAmf, known := map[], map[], {};
    }

    twostate lemma Written(u: UeNgapContext)
      requires u in known && unchanged(this) && unchanged(known - {u})
      ensures Index() == old(Index()).(ngap := old(Index()).ngap[u := u.Rec()])
    {
    }

    /** The UE is served under this RAN id on this association. */
    method Serve(u: UeNgapContext, ran: int, assoc: int)
      requires Valid() && u in known
      modifies u
      ensures Index() == old(Index()).(ngap := old(Store())[u := old(u.Rec()).(ran := ran, assoc := assoc)])
    {
      u.ran := ran;
      u.assoc := assoc;
      Written(u);
    }

    method SetByRan(ran: int, gnb: int, u: UeNgapContext)
      requires Valid() && u in known
      modifies this
      ensures Valid() && known == old(known)
      ensures Index() == old(Index()).(byRan := old(byRan)[(ran, gnb) := u])
    {
      byRan := byRan[(ran, gnb) := u];
    }

    method SetByAmf(amf: int, u: UeNgapContext)
      requires Valid() && u in known
      modifies this
      ensures Valid() && known == old(known)
      ensures Index() == old(Index()).(byAmf := old(byAmf)[amf := u])
    {
      byAmf := byAmf[amf := u];
    }

    method RemoveByRan(ran: int, gnb: int)
      requires Valid()
      modifies this
      ensures Valid() && known == old(known)
      ensures Index() == old(Index()).(byRan := old(byRan) - {(ran, gnb)})
    {
      if (ran, gnb) in byRan {
        byRan := byRan - {(ran, gnb)};
      } else {
        assert byRan - {(ran, gnb)} == byRan;
      }
    }

    method RemoveByAmf(amf: int)
      requires Valid()
      modifies this
      ensures Valid() && known == old(known)
      ensures Index() == old(Index()).(byAmf := old(byAmf) - {amf})
    {
      if amf in byAmf {
        byAmf := byAmf - {amf};
      } else {
        assert byAmf - {amf} == byAmf;
      }
    }

    /** The context of this pair, the one just built if there is none, is served from this association. */
    method FindOrAdd(ran: int, gnb: int, assoc: int, built: UeNgapContext)
      requires Valid() && built.Rec() == NEW_NGAP
      modifies this, known, built
      ensures Valid() && known <= old(known) + {built}
      ensures (ran, gnb) in old(byRan) ==>
                var u := old(byRan)[(ran, gnb)];
                Index() == old(Index()).(ngap := old(Store())[u := old(u.Rec()).(ran := ran, assoc := assoc)])
      ensures (ran, gnb) !in old(byRan) ==>
                Index() == NgapIndex(old(byRan)[(ran, gnb) := built], old(byAmf),
                                     old(Store())[built := NEW_NGAP.(ran := ran, assoc := assoc)])
    {
      if (ran, gnb) in byRan {
        Serve(byRan[(ran, gnb)], ran, assoc);
      } else {
        Add(ran, gnb, built);
        Serve(built, ran, assoc);
      }
    }

    /** A context just built is indexed under its pair. */
    method Add(ran: int, gnb: int, u: UeNgapContext)
      requires Valid() && u.Rec() == NEW_NGAP
      modifies this
      ensures Valid() && known == old(known) + {u}
      ensures Index() == NgapIndex(old(byRan)[(ran, gnb) := u], old(byAmf), old(Store())[u := NEW_NGAP])
    {
      known := known + {u};
      byRan := byRan[(ran, gnb) := u];
    }

    /** The context of this pair, if there is one, is given the AMF id and indexed under it. */
    method BindUe(ran: int, gnb: int, amf: int, ghost s: Snapshot)
      requires Valid() && s.ues == Index()
      modifies this, known
      ensures Valid() && known == old(known)
      ensures Index() == Bind(s, ran, gnb, amf).ues
    {
      if (ran, gnb) in byRan {
        var u := byRan[(ran, gnb)];
        u.amf := amf;
        Written(u);
        SetByAmf(amf, u);
      }
    }

    /** The UE is connected under this AMF id. */
    method Connect(u: UeNgapContext, amf: int)
      requires Valid() && u in known
      modifies this, u
      ensures Valid() && known == old(known)
      ensures Index() == NgapIndex(old(byRan), old(byAmf)[amf := u],
                                   old(Store())[u := old(u.Rec()).(amf := amf, state := Connected)])
    {
      u.amf := amf;
      u.state := Connected;
      Written(u);
      SetByAmf(amf, u);
    }

    method Release(ran: int, gnb: int, amf: int)
      requires Valid()
      modifies this
      ensures Valid() && known == old(known)
      ensures Index() == old(Index()).(byRan := old(byRan) - {(ran, gnb)}, byAmf := old(byAmf) - {amf})
    {
      RemoveByAmf(amf);
      RemoveByRan(ran, gnb);
    }

    method ReleaseSource(u: UeNgapContext, ran: int, gnb: int)
      requires Valid() && u in known
      modifies this, u
      ensures Valid() && known == old(known)
      ensures Index() == old(Index()).(byRan := old(byRan) - {(ran, gnb)},
                         ngap := old(Store())[u := old(u.Rec()).(releaseCause := 0)])
    {
      u.releaseCause := 0;
      Written(u);
      RemoveByRan(ran, gnb);
    }

    /** The UE prepares to leave the gNB on this association; the NCC is an 8-bit counter. */
    method Leave(u: UeNgapContext, assoc: int)
      requires Valid() && u in known
      modifies u
      ensures Index() == old(Index()).(ngap := old(Store())[u := Leaving(old(u.Rec()), assoc)])
      ensures u.Rec() == Leaving(old(u.Rec()), assoc)
    {
      u.assoc := assoc;
      u.ncc := (u.ncc + 1) % 256;
      u.state := Handover;
      Written(u);
    }

    method SetTarget(u: UeNgapContext, target: int)
      requires Valid() && u in known
      modifies u
      ensures Index() == old(Index()).(ngap := old(Store())[u := old(u.Rec()).(targetAssoc := target)])
    {
      u.targetAssoc := target;
      Written(u);
    }

    method SetTargetRan(u: UeNgapContext, ran: int)
      requires Valid() && u in known
      modifies u
      ensures Index() == old(Index()).(ngap := old(Store())[u := old(u.Rec()).(targetRan := ran)])
      ensures u.ran == old(u.ran) && u.assoc == old(u.assoc)
    {
      u.targetRan := ran;
      Written(u);
    }

    /** The UE has arrived at the target, where it is indexed as well. */
    method Arrive(u: UeNgapContext, assoc: int, ran: int, gnb: int)
      requires Valid() && u in known
      modifies this, u
      ensures Valid() && known == old(known)
      ensures Index() == old(Index()).(byRan := old(byRan)[(ran, gnb) := u],
                           ngap := old(Store())[u := Arrived(old(u.Rec()), assoc, ran, gnb)])
    {
      u.releaseCause := CAUSE_SUCCESSFUL_HANDOVER;
      u.releaseGnb := gnb;
      u.ran := ran;
      u.targetRan := 0;
      u.state := Connected;
      u.assoc := assoc;
      Written(u);
      SetByRan(ran, gnb, u);
    }

    /** The contexts on an association, in the order of the index. */
    method OnAssociation(assoc: int, ghost s: Snapshot) returns (us: seq<UeNgapContext>)
      requires Valid() && s.ues == Index()
      ensures us == Collect(s, assoc)
      ensures forall u <- us :: u in known
    {
      var rest := byRan.Keys;
      ghost var done: seq<Pair> := [];
      us := [];
      while rest != {}
        invariant Walked(s, done, rest)
        invariant us == OnAssoc(s, assoc, done)
      {
        var k := FindLeast(rest);
        WalkOn(s, assoc, done, rest, k);
        var u := byRan[k];
        if u.assoc == assoc {
          us := us + [u];
        }
        done := done + [k];
        rest := rest - {k};
      }
      assert done + Sorted({}) == done;
      CollectedAreIndexed(s, assoc);
    }
  }

  /** The APP task's UE contexts and its id generator. */
  class UeIndexes {
    var keys: map<Pair, UeContext>
    var generator: int
    ghost var known: set<UeContext>

    ghost predicate Valid()
      reads this
    {
      keys.Values <= known
    }

    ghost function Store(): map<UeContext, UeRec>
      reads this`known, known
    {
      map uc | uc in known :: uc.Rec()
    }

    ghost function Index(): UeIndex
      reads this, known
    {
      UeIndex(keys, Store(), generator)
    }

    constructor ()
      ensures Valid() && Index() == UeIndex(map[], map[], 1) && known == {}
    {
      keys, known, generator := map[], {}, 1;
    }

    twostate lemma Written(uc: UeContext)
      requires uc in known && unchanged(this) && unchanged(known - {uc})
      ensures Index() == old(Index()).(ue := old(Index()).ue[uc := uc.Rec()])
    {
    }

    /** The generator is a 32-bit counter that is fetched and then incremented. */
    method GenerateAmfUeNgapId() returns (amf: int)
      requires Valid()
      modifies this
      ensures Valid() && known == old(known)
      ensures amf == old(generator) && Index() == old(Index()).(generator := NextId(old(generator)))
    {
      amf := generator;
      generator := (generator + 1) % GENERATOR_RANGE;
    }

    /** The context under this key; if there is none, the one just built is indexed. */
    method FindOrAdd(ran: int, amf: int, built: UeContext) returns (uc: UeContext)
      requires Valid() && built.Rec() == NEW_UE
      modifies this
      ensures Valid() && known == old(known) + {uc}
      ensures uc == if (ran, amf) in old(keys) then old(keys)[(ran, amf)] else built
      ensures keys == old(keys)[(ran, amf) := uc] && generator == old(generator)
      ensures Store() == if (ran, amf) in old(keys) then old(Store()) else old(Store())[built := NEW_UE]
    {
      if (ran, amf) in keys {
        uc := keys[(ran, amf)];
      } else {
        uc := built;
        known := known + {uc};
        keys := keys[(ran, amf) := uc];
      }
    }

    /** The context under this key names this gNB from now on. */
    method Claim(ran: int, amf: int, gnb: int, built: UeContext)
      requires Valid() && built.Rec() == NEW_UE
      modifies this, known, built
      ensures Valid() && known <= old(known) + {built}
      ensures var uc := if (ran, amf) in old(keys) then old(keys)[(ran, amf)] else built;
              Index() == UeIndex(old(keys)[(ran, amf) := uc], old(Store())[uc := UeRec(ran, amf, gnb)], old(generator))
    {
      var uc := FindOrAdd(ran, amf, built);
      label Found:
      uc.ran := ran;
      uc.amf := amf;
      uc.gnb := gnb;
      Written@Found(uc);
    }

    /** The id given, or a new one, and the key of the UE under it. */
    method Assign(ran: int, gnb: int, given: int, built: UeContext, ghost s: Snapshot) returns (amf: int)
      requires Valid() && built.Rec() == NEW_UE && s.app == Index()
      modifies this, known, built
      ensures Valid() && known <= old(known) + {built}
      ensures amf == EstablishedAmf(s, given)
      ensures Index() == Establish(s, ran, gnb, given, built).app
    {
      amf := given;
      if given == INVALID_AMF_UE_NGAP_ID {
        amf := GenerateAmfUeNgapId();
      }
      Claim(ran, amf, gnb, built);
    }
  }

  /** The N1 task's NAS contexts, and the ids it last recorded for a SUPI. */
  class NasIndexes {
    var nas: map<int, NasContext>
    var supiAmf: map<string, int>
    var supiRan: map<string, int>
    var supiNas: map<string, NasContext>
    var gutiNas: map<string, NasContext>
    ghost var known: set<NasContext>

    ghost predicate Valid()
      reads this
    {
      nas.Values <= known && supiNas.Values <= known && gutiNas.Values <= known
    }

    ghost function Store(): map<NasContext, NasRec>
      reads this`known, known
    {
      map n | n in known :: n.Rec()
    }

    ghost function Index(): NasIndex
      reads this, known
    {
      NasIndex(nas, supiAmf, supiRan, supiNas, gutiNas, Store())
    }

    constructor ()
      ensures Valid() && Index() == NasIndex(map[], map[], map[], map[], map[], map[]) && known == {}
    {
      nas, supiAmf, supiRan, supiNas, gutiNas, known := map[], map[], map[], map[], map[], {};
    }

    twostate lemma Written(n: NasContext)
      requires n in known && unchanged(this) && unchanged(known - {n})
      ensures Index() == old(Index()).(nc := old(Index()).nc[n := n.Rec()])
    {
    }

    method SetByAmf(amf: int, n: NasContext)
      requires Valid() && n in known
      modifies this
      ensures Valid() && known == old(known)
      ensures Index() == old(Index()).(nas := old(nas)[amf := n])
    {
      nas := nas[amf := n];
    }

    method SetBySupi(supi: string, n: NasContext)
      requires Valid() && n in known
      modifies this
      ensures Valid() && known == old(known)
      ensures Index() == old(Index()).(supiNas := old(supiNas)[supi := n])
    {
      supiNas := supiNas[supi := n];
    }

    method SetByGuti(guti: string, n: NasContext)
      requires Valid() && n in known
      modifies this
      ensures Valid() && known == old(known)
      ensures Index() == old(Index()).(gutiNas := old(gutiNas)[guti := n])
    {
      gutiNas := gutiNas[guti := n];
    }

    method SetSupiIds(supi: string, ran: int, amf: int)
      requires Valid()
      modifies this
      ensures Valid() && known == old(known)
      ensures Index() == old(Index()).(supiAmf := old(supiAmf)[supi := amf], supiRan := old(supiRan)[supi := ran])
    {
      supiAmf := supiAmf[supi := amf];
      supiRan := supiRan[supi := ran];
    }

    method RemoveByAmfAndSupi(amf: int, supi: string)
      requires Valid()
      modifies this
      ensures Valid() && known == old(known)
      ensures Index() == old(Index()).(nas := old(nas) - {amf}, supiNas := old(supiNas) - {supi})
    {
      supiNas := supiNas - {supi};
      nas := nas - {amf};
    }

    method RemoveByGuti(guti: string)
      requires Valid()
      modifies this
      ensures Valid() && known == old(known)
      ensures Index() == old(Index()).(gutiNas := old(gutiNas) - {guti})
    {
      gutiNas := gutiNas - {guti};
    }

    /** A context just built is indexed under its AMF id. */
    method Add(amf: int, n: NasContext)
      requires Valid() && n.Rec() == NEW_NAS
      modifies this
      ensures Valid() && known == old(known) + {n}
      ensures Index() == old(Index()).(nas := old(nas)[amf := n], nc := old(Store())[n := NEW_NAS])
    {
      known := known + {n};
      nas := nas[amf := n];
    }

    /** The context just built for a UE that is connecting is indexed under its AMF id. */
    method Introduce(ran: int, amf: int, built: NasContext)
      requires Valid() && built.Rec() == NEW_NAS
      modifies this, built
      ensures Valid() && known == old(known) + {built}
      ensures Index() == old(Index()).(nas := old(nas)[amf := built],
                         nc := old(Store())[built := NEW_NAS.(idle := false, amf := amf, ran := ran)])
    {
      Add(amf, built);
      label Added:
      built.idle := false;
      built.amf := amf;
      built.ran := ran;
      Written@Added(built);
    }

    method GoIdle(n: NasContext)
      requires Valid() && n in known
      modifies n
      ensures Index() == old(Index()).(nc := old(Store())[n := old(n.Rec()).(idle := true)])
    {
      n.idle := true;
      Written(n);
    }

    method SetRan(n: NasContext, ran: int)
      requires Valid() && n in known
      modifies n
      ensures Index() == old(Index()).(nc := old(Store())[n := old(n.Rec()).(ran := ran)])
    {
      n.ran := ran;
      Written(n);
    }

    /** The context known by this GUTI takes over the ids of the message and remembers its former ones. */
    method Readdress(n: NasContext, ran: int, amf: int, guti: string)
      requires Valid() && n in known
      modifies n
      ensures var rec := old(n.Rec()).(guti := Some(guti), oldRan := old(n.ran), oldAmf := old(n.amf),
                         ran := ran, amf := amf);
              n.Rec() == rec && Index() == old(Index()).(nc := old(Store())[n := rec])
    {
      n.oldAmf := n.amf;
      n.oldRan := n.ran;
      n.amf := amf;
      n.ran := ran;
      n.guti := Some(guti);
      Written(n);
    }

    /** The context is given the ids of the message and, if it carries one, the IMSI. */
    method Identify(n: NasContext, ran: int, amf: int, imsi: Option<string>)
      requires Valid() && n in known
      modifies n
      ensures var rec := old(n.Rec()).(ran := ran, amf := amf, imsi := if imsi.Some? then imsi.value else old(n.imsi));
              n.Rec() == rec && Index() == old(Index()).(nc := old(Store())[n := rec])
    {
      n.ran := ran;
      n.amf := amf;
      if imsi.Some? {
        n.imsi := imsi.value;
      }
      Written(n);
    }

    /** The UE is connected and has the identity it has just given. */
    method Connect(n: NasContext, ran: int, amf: int, imsi: string)
      requires Valid() && n in known
      modifies n
      ensures var rec := old(n.Rec()).(idle := false, ran := ran, amf := amf, imsi := imsi);
              n.Rec() == rec && Index() == old(Index()).(nc := old(Store())[n := rec])
    {
      n.idle := false;
      n.ran := ran;
      n.amf := amf;
      n.imsi := imsi;
      Written(n);
    }

    /** The context of this AMF id, the one just built if there is none, is connected under this identity. */
    method FindOrAdd(ran: int, amf: int, imsi: string, built: NasContext)
      requires Valid() && built.Rec() == NEW_NAS
      modifies this, known, built
      ensures Valid() && known <= old(known) + {built}
      ensures amf in old(nas) ==>
                var n := old(nas)[amf];
                var rec := old(n.Rec()).(idle := false, ran := ran, amf := amf, imsi := imsi);
                Index() == old(Index()).(nc := old(Store())[n := rec])
      ensures amf !in old(nas) ==>
                Index() == old(Index()).(nas := old(nas)[amf := built],
                nc := old(Store())[built := NEW_NAS.(idle := false, ran := ran, amf := amf, imsi := imsi)])
    {
      if amf in nas {
        Connect(nas[amf], ran, amf, imsi);
      } else {
        Add(amf, built);
        Connect(built, ran, amf, imsi);
      }
    }

    /** The context takes over what an older context of the same UE holds. */
    method TakeOver(n: NasContext, older: NasContext)
      requires Valid() && n in known && older in known
      modifies n
      ensures var rec := old(n.Rec()).(imsi := old(older.imsi), oldRan := old(older.ran), oldAmf := old(older.amf));
              n.Rec() == rec && Index() == old(Index()).(nc := old(Store())[n := rec])
    {
      n.imsi, n.oldRan, n.oldAmf := older.imsi, older.ran, older.amf;
      Written(n);
    }
  }

  /** The gNB contexts, which the NGAP layer indexes by association and by gNB id. */
  class GnbIndexes {
    var assocGnb: map<int, GnbContext>
    var idGnb: map<int, GnbContext>
    ghost var known: set<GnbContext>

    ghost predicate Valid()
      reads this
    {
      assocGnb.Values <= known && idGnb.Values <= known
    }

    ghost function Store(): map<GnbContext, GnbRec>
      reads this`known, known
    {
      map g | g in known :: g.Rec()
    }

    ghost function Index(): GnbIndex
      reads this, known
    {
      GnbIndex(assocGnb, idGnb, Store())
    }

    constructor ()
      ensures Valid() && Index() == GnbIndex(map[], map[], map[]) && known == {}
    {
      assocGnb, idGnb, known := map[], map[], {};
    }

    twostate lemma Written(g: GnbContext)
      requires g in known && unchanged(this) && unchanged(known - {g})
      ensures Index() == old(Index()).(gnb := old(Index()).gnb[g := g.Rec()])
    {
    }

    method SetById(id: int, g: GnbContext)
      requires Valid() && g in known
      modifies this
      ensures Valid() && known == old(known)
      ensures Index() == old(Index()).(idGnb := old(idGnb)[id := g])
    {
      idGnb := idGnb[id := g];
    }

    method RemoveById(id: int)
      requires Valid()
      modifies this
      ensures Valid() && known == old(known)
      ensures Index() == old(Index()).(idGnb := old(idGnb) - {id})
    {
      idGnb := idGnb - {id};
    }

    /** A context just built is indexed under its association. */
    method Add(assoc: int, g: GnbContext)
      requires Valid() && g.Rec() == GnbRec(0, assoc, Init)
      modifies this
      ensures Valid() && known == old(known) + {g}
      ensures Index() == GnbIndex(old(assocGnb)[assoc := g], old(idGnb), old(Store())[g := GnbRec(0, assoc, Init)])
    {
      known := known + {g};
      assocGnb := assocGnb[assoc := g];
    }

    method SetState(g: GnbContext, state: GnbState)
      requires Valid() && g in known
      modifies g
      ensures Index() == old(Index()).(gnb := old(Store())[g := old(g.Rec()).(state := state)])
    {
      g.state := state;
      Written(g);
    }

    /** A new association, for which a context is built unless it has one that is not being reset or shut down. */
    method Associate(assoc: int, built: GnbContext)
      requires Valid() && built.Rec() == GnbRec(0, assoc, Init)
      modifies this, known
      ensures Valid() && known <= old(known) + {built}
      ensures assoc !in old(assocGnb) ==>
                Index() == GnbIndex(old(assocGnb)[assoc := built], old(idGnb),
                                    old(Store())[built := GnbRec(0, assoc, Init)])
      ensures assoc in old(assocGnb) ==>
                var g := old(assocGnb)[assoc];
                if old(g.state) in {Resetting, Shutdown} then Index() == old(Index())
                else Index() == old(Index()).(gnb := old(Store())[g := old(g.Rec()).(assoc := assoc, state := Init)])
    {
      if assoc !in assocGnb {
        Add(assoc, built);
      } else if assocGnb[assoc].state != Resetting && assocGnb[assoc].state != Shutdown {
        var g := assocGnb[assoc];
        g.assoc := assoc;
        g.state := Init;
        Written(g);
      }
    }

    method SetUp(g: GnbContext, setup: Setup)
      requires Valid() && g in known && setup != NoGnbId
      modifies this, g
      ensures Valid() && known == old(known)
      ensures var rec := old(g.Rec()).(id := setup.id, state := if setup.Answered? then Ready else old(g.state));
              Index() == GnbIndex(old(assocGnb),
                                  if setup.NothingInCommon? then old(idGnb) else old(idGnb)[setup.id := g],
                                  old(Store())[g := rec])
    {
      g.id := setup.id;
      if setup.Answered? {
        g.state := Ready;
      }
      Written(g);
      if !setup.NothingInCommon? {
        SetById(setup.id, g);
      }
    }
  }
}
