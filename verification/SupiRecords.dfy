/** The two SUPI indexes are read one behind the guard of the other; in every run that is safe. */
module SupiRecords {
  import opened Wrappers
  import opened LexOrder
  import opened Contexts
  import opened UeIndexSpec

  ghost predicate SameDomain(s: Snapshot) {
    s.n1.supiAmf.Keys == s.n1.supiRan.Keys
  }

  /** The pair of ids recorded for a SUPI, when the guard on the first index lets a handler read both. */
  function Recorded(s: Snapshot, supi: string): Option<Pair>
    requires SameDomain(s)
  {
    if supi in s.n1.supiAmf then Some((s.n1.supiRan[supi], s.n1.supiAmf[supi])) else None
  }

  ghost predicate SameRecords(s: Snapshot, s': Snapshot) {
    (s'.n1.supiAmf, s'.n1.supiRan) == (s.n1.supiAmf, s.n1.supiRan)
  }

  /** The only ids a handler records for a SUPI are the two of the message it handles. */
  function Pairs(e: Event): Option<Pair> {
    match e
    case OnN1(UplinkNasEvent(ran, amf, _, _, _, _)) => Some((ran, amf))
    case OnN1(RegistrationEvent(ran, amf, _)) => Some((ran, amf))
    case OnN1(IdentityEvent(ran, amf, _, _)) => Some((ran, amf))
    case OnN1(ServiceRequestEvent(ran, amf, _, _)) => Some((ran, amf))
    case _ => None
  }

  /** Every SUPI keeps its two ids, or has both replaced by this pair. */
  ghost predicate RecordsTogether(s: Snapshot, s': Snapshot, pair: Option<Pair>) {
    && SameDomain(s) && SameDomain(s')
    && (forall supi :: supi in s.n1.supiAmf ==> supi in s'.n1.supiAmf)
    && (forall supi :: Recorded(s', supi) == Recorded(s, supi) || (pair.Some? && Recorded(s', supi) == pair))
  }

  lemma RecordSupiTogether(s: Snapshot, supi: string, ran: int, amf: int)
    requires SameDomain(s)
    ensures RecordsTogether(s, RecordSupi(s, supi, ran, amf), Some((ran, amf)))
  {
  }

  lemma SameRecordsTogether(s: Snapshot, s': Snapshot, pair: Option<Pair>)
    requires SameDomain(s) && SameRecords(s, s')
    ensures RecordsTogether(s, s', pair)
  {
  }

  lemma RecordAfterSame(s: Snapshot, s1: Snapshot, supi: string, ran: int, amf: int)
    requires SameDomain(s) && SameRecords(s, s1)
    ensures RecordsTogether(s, RecordSupi(s1, supi, ran, amf), Some((ran, amf)))
  {
    RecordSupiTogether(s1, supi, ran, amf);
  }

  lemma UseGutiTogether(s: Snapshot, ran: int, amf: int, guti: string)
    requires SameDomain(s)
    ensures RecordsTogether(s, UseGuti(s, ran, amf, guti), Some((ran, amf)))
  {
    if guti in s.n1.gutiNas {
      var n := s.n1.gutiNas[guti];
      var rec := NasOf(s, n).(guti := Some(guti), oldRan := NasOf(s, n).ran, oldAmf := NasOf(s, n).amf,
      ran := ran, amf := amf);
      RecordAfterSame(s, PutSupiNas(PutNas(SetNas(s, n, rec), amf, n), Supi(rec.imsi), n), Supi(rec.imsi), ran, amf);
    }
  }

  lemma IndexNasKeepsRecords(s: Snapshot, ran: int, amf: int, found: Option<NasContext>, n: NasContext)
    ensures SameRecords(s, IndexNas(s, ran, amf, found, n))
  {
  }

  lemma UplinkNasTogether(s: Snapshot, ran: int, amf: int, guti: Option<string>, readable: bool, establishing: bool,
                          n: NasContext)
    requires SameDomain(s)
    ensures RecordsTogether(s, UplinkNas(s, ran, amf, guti, readable, establishing, n), Some((ran, amf)))
  {
    if guti.Some? {
      UseGutiTogether(s, ran, amf, guti.value);
      IndexNasKeepsRecords(UseGuti(s, ran, amf, guti.value), ran, amf, FoundNas(s, amf, guti), n);
    } else {
      IndexNasKeepsRecords(s, ran, amf, FoundNas(s, amf, guti), n);
    }
  }

  lemma RegistrationTogether(s: Snapshot, ran: int, amf: int, imsi: Option<string>)
    requires SameDomain(s)
    ensures RecordsTogether(s, RegistrationRequest(s, ran, amf, imsi), Some((ran, amf)))
  {
  }

  lemma IdentityTogether(s: Snapshot, ran: int, amf: int, imsi: string, n: NasContext)
    requires SameDomain(s)
    ensures RecordsTogether(s, IdentityResponse(s, ran, amf, imsi, n), Some((ran, amf)))
  {
    RecordAfterSame(s, IdentifiedUe(s, ran, amf, imsi, n), Supi(imsi), ran, amf);
  }

  lemma ServiceRequestTogether(s: Snapshot, ran: int, amf: int, guti: Option<string>, secured: bool)
    requires SameDomain(s)
    ensures RecordsTogether(s, ServiceRequest(s, ran, amf, guti, secured), Some((ran, amf)))
  {
  }

  lemma N1StepTogether(s: Snapshot, e: N1Event)
    requires SameDomain(s)
    ensures RecordsTogether(s, N1Step(s, e), Pairs(OnN1(e)))
  {
    match e
    case UplinkNasEvent(ran, amf, guti, readable, establishing, n) =>
      UplinkNasTogether(s, ran, amf, guti, readable, establishing, n);
    case RegistrationEvent(ran, amf, imsi) => RegistrationTogether(s, ran, amf, imsi);
    case IdentityEvent(ran, amf, imsi, n) => IdentityTogether(s, ran, amf, imsi, n);
    case SecurityModeCompleteEvent(ran, amf, guti) =>
    case ServiceRequestEvent(ran, amf, guti, secured) => ServiceRequestTogether(s, ran, amf, guti, secured);
    case DeregisterEvent(amf, guti) =>
  }

  lemma ResetKeepsRecords(s: Snapshot, assoc: int)
    ensures SameRecords(s, ResetInterface(s, assoc))
    ensures SameRecords(s, ShutdownAssoc(s, assoc))
  {
    if assoc in s.gnbs.assocGnb {
      var gnb := GnbAt(s, assoc).id;
      RemoveAllShrinks(Mark(s, assoc, Resetting), Collect(Mark(s, assoc, Resetting), assoc), gnb);
      RemoveAllShrinks(Mark(s, assoc, Shutdown), Collect(Mark(s, assoc, Shutdown), assoc), gnb);
    }
  }

  lemma ResetPartKeepsRecords(s: Snapshot, assoc: int, items: seq<ResetItem>)
    ensures SameRecords(s, ResetPart(s, assoc, items))
  {
    if assoc in s.gnbs.assocGnb {
      ResetItemsShrinks(Mark(s, assoc, Resetting), items, GnbAt(s, assoc).id);
    }
  }

  lemma ReleaseKeepsRecords(s: Snapshot, assoc: int, ran: int, amf: int)
    ensures SameRecords(s, ReleaseComplete(s, assoc, ran, amf))
  {
  }

  lemma NotifyKeepsRecords(s: Snapshot, assoc: int, ran: int, amf: int, located: bool, uc: UeContext)
    ensures SameRecords(s, HandoverNotify(s, assoc, ran, amf, located, uc))
  {
  }

  lemma N2StepKeepsRecords(s: Snapshot, e: N2Event)
    ensures SameRecords(s, N2Step(s, e))
  {
    match e
    case ReleaseCompleteEvent(assoc, ran, amf) =>
      ReleaseKeepsRecords(s, assoc, ran, amf);
    case HandoverNotifyEvent(assoc, ran, amf, located, uc) => NotifyKeepsRecords(s, assoc, ran, amf, located, uc);
    case ResetInterfaceEvent(assoc) => ResetKeepsRecords(s, assoc);
    case ResetPartEvent(assoc, items) => ResetPartKeepsRecords(s, assoc, items);
    case ShutdownEvent(assoc) => ResetKeepsRecords(s, assoc);
    case _ =>
  }

  lemma StepTogether(s: Snapshot, e: Event)
    requires SameDomain(s)
    ensures RecordsTogether(s, Step(s, e), Pairs(e))
  {
    match e
    case OnN2(e2) =>
      N2StepKeepsRecords(s, e2);
      SameRecordsTogether(s, Step(s, e), Pairs(e));
    case OnApp(ran, gnb, given, uc) => SameRecordsTogether(s, Step(s, e), Pairs(e));
    case OnN1(e1) => N1StepTogether(s, e1);
  }

  /**
    In every state of every run the two indexes have the same SUPIs, none is lost, and the two ids read
    for a SUPI are those it started with or come from one and the same message of the run.
   */
  lemma {:induction false} SupiLookupIsTotal(s: Snapshot, es: seq<Event>, supi: string)
    requires SameDomain(s)
    ensures SameDomain(Run(s, es))
    ensures Recorded(s, supi).Some? ==> Recorded(Run(s, es), supi).Some?
    ensures Recorded(Run(s, es), supi) == Recorded(s, supi)
            || (exists e <- es :: Pairs(e).Some? && Recorded(Run(s, es), supi) == Pairs(e))
    decreases |es|
  {
    if es == [] {
    } else {
      StepTogether(s, es[0]);
      SupiLookupIsTotal(Step(s, es[0]), es[1..], supi);
      assert es[0] in es && forall e <- es[1..] :: e in es;
    }
  }
}
