/**
  What each handler of the N2, APP and N1 tasks does to the UE indexes, as a function from one
  snapshot of the indexes and contexts to the next. Objects occur in a snapshot only as identities;
  what they hold is recorded in the four stores beside the indexes.
 */
module UeIndexSpec {
  import opened Wrappers
  import opened LexOrder
  import opened Contexts

  /** The messages put on an SCTP association, with the ids they carry. */
  datatype NgapMessage =
    | DownlinkNas(assoc: int, amf: int, ran: int)
    | ResetAck(assoc: int)
    | HandoverRequest(assoc: int, amf: int)
    | HandoverCommand(assoc: int, amf: int, ran: int)
    | PreparationFailure(assoc: int, amf: int, ran: int)
    | ReleaseCommand(assoc: int, amf: int, ran: int)

  /** The N2 task: NGAP contexts by (RAN UE NGAP id, gNB id) and by AMF UE NGAP id. */
  datatype NgapIndex = NgapIndex(byRan: map<Pair, UeNgapContext>, byAmf: map<int, UeNgapContext>,
                                 ngap: map<UeNgapContext, NgapRec>)

  /** The APP task: UE contexts by (RAN UE NGAP id, AMF UE NGAP id), and the AMF UE NGAP id generator. */
  datatype UeIndex = UeIndex(keys: map<Pair, UeContext>, ue: map<UeContext, UeRec>, generator: int)

  /** The N1 task: NAS contexts by AMF UE NGAP id, SUPI and GUTI, and the ids last recorded for a SUPI. */
  datatype NasIndex = NasIndex(nas: map<int, NasContext>, supiAmf: map<string, int>, supiRan: map<string, int>,
                               supiNas: map<string, NasContext>, gutiNas: map<string, NasContext>,
                               nc: map<NasContext, NasRec>)

  /** gNB contexts by SCTP association and by gNB id. */
  datatype GnbIndex = GnbIndex(assocGnb: map<int, GnbContext>, idGnb: map<int, GnbContext>,
                               gnb: map<GnbContext, GnbRec>)

  datatype Snapshot = Snapshot(ues: NgapIndex, app: UeIndex, n1: NasIndex, gnbs: GnbIndex, sent: seq<NgapMessage>)

  const GENERATOR_RANGE: int := 0x1_0000_0000

  // What a context holds; one that is in no store counts as newly built.

  function NgapOf(s: Snapshot, u: UeNgapContext): NgapRec {
    if u in s.ues.ngap then s.ues.ngap[u] else NEW_NGAP
  }

  function UeOf(s: Snapshot, uc: UeContext): UeRec {
    if uc in s.app.ue then s.app.ue[uc] else NEW_UE
  }

  function NasOf(s: Snapshot, n: NasContext): NasRec {
    if n in s.n1.nc then s.n1.nc[n] else NEW_NAS
  }

  function GnbOf(s: Snapshot, g: GnbContext): GnbRec {
    if g in s.gnbs.gnb then s.gnbs.gnb[g] else GnbRec(0, 0, Init)
  }

  function Supi(imsi: string): string {
    "imsi-" + imsi
  }

  // ---- Lookups ----

  function ByAmf(s: Snapshot, amf: int): Option<UeNgapContext> {
    if amf in s.ues.byAmf then Some(s.ues.byAmf[amf]) else None
  }

  /** The gNB named by the UE context under this key. */
  function KeyGnb(s: Snapshot, ran: int, amf: int): Option<int> {
    if (ran, amf) in s.app.keys then Some(UeOf(s, s.app.keys[(ran, amf)]).gnb) else None
  }

  function ByPair(s: Snapshot, ran: int, gnb: int): Option<UeNgapContext> {
    if (ran, gnb) in s.ues.byRan then Some(s.ues.byRan[(ran, gnb)]) else None
  }

  /** The lookup through the UE context key, which goes by way of the gNB the UE context names. */
  function ByKey(s: Snapshot, ran: int, amf: int): Option<UeNgapContext> {
    match KeyGnb(s, ran, amf)
    case None => None
    case Some(gnb) => ByPair(s, ran, gnb)
  }

  function GnbAt(s: Snapshot, assoc: int): GnbRec
    requires assoc in s.gnbs.assocGnb
  {
    GnbOf(s, s.gnbs.assocGnb[assoc])
  }

  // ---- N2 and APP handlers ----

  function SetGnb(s: Snapshot, g: GnbContext, rec: GnbRec): Snapshot {
    s.(gnbs := s.gnbs.(gnb := s.gnbs.gnb[g := rec]))
  }

  /** A new SCTP association; one that is being reset or shut down is ignored. */
  function NewAssociation(s: Snapshot, assoc: int, newObject: GnbContext): Snapshot {
    if assoc !in s.gnbs.assocGnb then
      SetGnb(s.(gnbs := s.gnbs.(assocGnb := s.gnbs.assocGnb[assoc := newObject])), newObject, GnbRec(0, assoc, Init))
    else if GnbAt(s, assoc).state in {Resetting, Shutdown} then s
    else SetGnb(s, s.gnbs.assocGnb[assoc], GnbAt(s, assoc).(assoc := assoc, state := Init))
  }

  /** How far the handling of an NG Setup Request gets. */
  datatype Setup = NoGnbId | NothingInCommon(id: int) | NotEncoded(id: int) | Answered(id: int)

  function NgSetup(s: Snapshot, assoc: int, setup: Setup): Snapshot {
    if assoc !in s.gnbs.assocGnb || setup == NoGnbId then s
    else
      var g := s.gnbs.assocGnb[assoc];
      var rec := GnbAt(s, assoc).(id := setup.id);
      match setup
      case NothingInCommon(id) => SetGnb(s, g, rec)
      case NotEncoded(id) => SetGnb(s.(gnbs := s.gnbs.(idGnb := s.gnbs.idGnb[id := g])), g, rec)
      case Answered(id) => SetGnb(s.(gnbs := s.gnbs.(idGnb := s.gnbs.idGnb[id := g])), g, rec.(state := Ready))
  }

  function PutPair(s: Snapshot, ran: int, gnb: int, u: UeNgapContext): Snapshot {
    s.(ues := s.ues.(byRan := s.ues.byRan[(ran, gnb) := u]))
  }

  function PutAmf(s: Snapshot, amf: int, u: UeNgapContext): Snapshot {
    s.(ues := s.ues.(byAmf := s.ues.byAmf[amf := u]))
  }

  function SetNgap(s: Snapshot, u: UeNgapContext, rec: NgapRec): Snapshot {
    s.(ues := s.ues.(ngap := s.ues.ngap[u := rec]))
  }

  function SetNas(s: Snapshot, n: NasContext, rec: NasRec): Snapshot {
    s.(n1 := s.n1.(nc := s.n1.nc[n := rec]))
  }

  function PutNas(s: Snapshot, amf: int, n: NasContext): Snapshot {
    s.(n1 := s.n1.(nas := s.n1.nas[amf := n]))
  }

  function PutSupiNas(s: Snapshot, supi: string, n: NasContext): Snapshot {
    s.(n1 := s.n1.(supiNas := s.n1.supiNas[supi := n]))
  }

  function Send(s: Snapshot, message: NgapMessage): Snapshot {
    s.(sent := s.sent + [message])
  }

  /** Only a gNB that has not been through NG Setup is turned away. */
  predicate InitialUeAccepted(s: Snapshot, assoc: int) {
    assoc in s.gnbs.assocGnb && GnbAt(s, assoc).state != Init
  }

  function InitialUe(s: Snapshot, assoc: int, ran: int, newObject: UeNgapContext): Snapshot
  {
    if !InitialUeAccepted(s, assoc) then s
    else
      match ByPair(s, ran, GnbAt(s, assoc).id)
      case Some(u) => SetNgap(s, u, NgapOf(s, u).(ran := ran, assoc := assoc))
      case None =>
        SetNgap(PutPair(s, ran, GnbAt(s, assoc).id, newObject), newObject, NEW_NGAP.(ran := ran, assoc := assoc))
  }

  function NextId(generator: int): int {
    (generator + 1) % GENERATOR_RANGE
  }

  function EstablishedAmf(s: Snapshot, given: int): int {
    if given == INVALID_AMF_UE_NGAP_ID then s.app.generator else given
  }

  function SetGenerator(s: Snapshot, generator: int): Snapshot {
    s.(app := s.app.(generator := generator))
  }

  function Establish(s: Snapshot, ran: int, gnb: int, given: int, newObject: UeContext): Snapshot {
    var amf := EstablishedAmf(s, given);
    var generator := if given == INVALID_AMF_UE_NGAP_ID then NextId(s.app.generator) else s.app.generator;
    SetGenerator(Bind(Claim(s, ran, amf, gnb, newObject), ran, gnb, amf), generator)
  }

  /** The UE context under (ran, amf) is found or created, and made to name this gNB. */
  function Claim(s: Snapshot, ran: int, amf: int, gnb: int, newObject: UeContext): Snapshot {
    var uc := if (ran, amf) in s.app.keys then s.app.keys[(ran, amf)] else newObject;
    s.(app := s.app.(keys := s.app.keys[(ran, amf) := uc], ue := s.app.ue[uc := UeRec(ran, amf, gnb)]))
  }

  /** The NGAP context of (ran, gnb), if there is one, is given this AMF id and indexed under it. */
  function Bind(s: Snapshot, ran: int, gnb: int, amf: int): Snapshot {
    match ByPair(s, ran, gnb)
    case Some(u) => SetNgap(PutAmf(s, amf, u), u, NgapOf(s, u).(amf := amf))
    case None => s
  }

  function DlNas(s: Snapshot, ran: int, amf: int): Snapshot
  {
    match ByKey(s, ran, amf)
    case None => s
    case Some(u) =>
      var rec := NgapOf(s, u);
      if rec.assoc !in s.gnbs.assocGnb then s
      else
        Send(SetNgap(PutAmf(s, amf, u), u, rec.(amf := amf, state := Connected)),
             DownlinkNas(GnbAt(s, rec.assoc).assoc, amf, ran))
  }

  function DropPair(s: Snapshot, ran: int, gnb: int): Snapshot {
    s.(ues := s.ues.(byRan := s.ues.byRan - {(ran, gnb)}))
  }

  function DropAmf(s: Snapshot, amf: int): Snapshot {
    s.(ues := s.ues.(byAmf := s.ues.byAmf - {amf}))
  }

  function CurrentAmf(s: Snapshot, n: NasContext): int {
    var supi := Supi(NasOf(s, n).imsi);
    if supi in s.n1.supiAmf then s.n1.supiAmf[supi] else INVALID_AMF_UE_NGAP_ID
  }

  function GoIdle(s: Snapshot, n: NasContext): Snapshot {
    SetNas(s, n, NasOf(s, n).(idle := true))
  }

  /** The UE becomes CM-IDLE, unless its SUPI has moved on to another AMF UE NGAP id. */
  function ReleaseUe(s: Snapshot, ran: int, gnb: int, amf: int): Snapshot {
    if amf !in s.n1.nas then s
    else if CurrentAmf(s, s.n1.nas[amf]) != amf then DropPair(DropAmf(s, amf), ran, gnb)
    else GoIdle(DropPair(DropAmf(s, amf), ran, gnb), s.n1.nas[amf])
  }

  /** Whether the handler takes the release for the one of a source gNB after a handover. */
  predicate AfterHandover(s: Snapshot, gnb: int, u: UeNgapContext) {
    NgapOf(s, u).releaseCause == CAUSE_SUCCESSFUL_HANDOVER && gnb == NgapOf(s, u).releaseGnb
  }

  function ClearCause(s: Snapshot, u: UeNgapContext): Snapshot {
    SetNgap(s, u, NgapOf(s, u).(releaseCause := 0))
  }

  predicate ReleaseHandled(s: Snapshot, assoc: int, ran: int, amf: int) {
    (ran, amf) in s.app.keys && amf in s.ues.byAmf && assoc in s.gnbs.assocGnb
  }

  function ReleaseComplete(s: Snapshot, assoc: int, ran: int, amf: int): Snapshot {
    if !ReleaseHandled(s, assoc, ran, amf) then s
    else if AfterHandover(s, GnbAt(s, assoc).id, s.ues.byAmf[amf]) then
      ClearCause(DropPair(s, ran, GnbAt(s, assoc).id), s.ues.byAmf[amf])
    else ReleaseUe(s, ran, GnbAt(s, assoc).id, amf)
  }

  /** The source's ids lead to a UE with this AMF id, and the handover stays within 5GS. */
  predicate HandoverRoutable(s: Snapshot, assoc: int, ran: int, amf: int, intra: bool) {
    && assoc in s.gnbs.assocGnb
    && (ran, GnbAt(s, assoc).id) in s.ues.byRan
    && NgapOf(s, s.ues.byRan[(ran, GnbAt(s, assoc).id)]).amf == amf
    && intra
  }

  /** `secured`: the NAS context holds a security context and Kamf. */
  predicate HandoverPrepared(s: Snapshot, amf: int, target: int, secured: bool) {
    amf in s.n1.nas && secured && target in s.gnbs.idGnb
  }

  function Leaving(rec: NgapRec, assoc: int): NgapRec {
    rec.(assoc := assoc, ncc := (rec.ncc + 1) % 256, state := Handover)
  }

  /** The target's gNB is asked to take the UE over. */
  function AskTarget(s: Snapshot, u: UeNgapContext, amf: int, target: int): Snapshot
    requires target in s.gnbs.idGnb
  {
    var to := GnbOf(s, s.gnbs.idGnb[target]).assoc;
    Send(SetNgap(s, u, NgapOf(s, u).(targetAssoc := to)), HandoverRequest(to, amf))
  }

  /** The Handover Required handler proper. */
  function HandoverRequired(s: Snapshot, assoc: int, ran: int, amf: int, intra: bool, target: int, secured: bool)
    : Snapshot
  {
    if !HandoverRoutable(s, assoc, ran, amf, intra) then s
    else
      var u := s.ues.byRan[(ran, GnbAt(s, assoc).id)];
      var s1 := SetNgap(s, u, Leaving(NgapOf(s, u), assoc));
      if HandoverPrepared(s, amf, target, secured) then AskTarget(s1, u, amf, target) else s1
  }

  /** The task loop runs the Handover Required handler twice and reports the failure of the second run. */
  function HandoverRequiredTask(s: Snapshot, assoc: int, ran: int, amf: int, intra: bool, target: int, secured: bool)
    : Snapshot
  {
    var first := HandoverRequired(s, assoc, ran, amf, intra, target, secured);
    var second := HandoverRequired(first, assoc, ran, amf, intra, target, secured);
    if HandoverRoutable(first, assoc, ran, amf, intra) && HandoverPrepared(first, amf, target, secured) then second
    else Send(second, PreparationFailure(assoc, amf, amf))
  }

  function HandoverAck(s: Snapshot, assoc: int, ran: int, amf: int, admitted: bool): Snapshot
  {
    if assoc !in s.gnbs.assocGnb || amf !in s.ues.byAmf then s
    else
      var u := s.ues.byAmf[amf];
      var s1 := SetNgap(s, u, NgapOf(s, u).(targetRan := ran));
      if !admitted || amf !in s.n1.nas then s1
      else Send(s1, HandoverCommand(NgapOf(s, u).assoc, amf, NgapOf(s, u).ran))
  }

  predicate NotifyAccepted(s: Snapshot, assoc: int, amf: int, located: bool) {
    assoc in s.gnbs.assocGnb && amf in s.ues.byAmf && located && amf in s.n1.nas
  }

  /** What the NGAP context holds once the UE has arrived at the target. */
  function Arrived(rec: NgapRec, assoc: int, ran: int, gnb: int): NgapRec {
    rec.(ran := ran, assoc := assoc, targetRan := 0, state := Connected,
    releaseCause := CAUSE_SUCCESSFUL_HANDOVER, releaseGnb := gnb)
  }

  /** The source is told to release the UE, which is served by the target from now on. */
  function MoveUe(s: Snapshot, u: UeNgapContext, assoc: int, ran: int, amf: int, gnb: int): Snapshot {
    Send(SetNgap(PutPair(s, ran, gnb, u), u, Arrived(NgapOf(s, u), assoc, ran, gnb)),
         ReleaseCommand(NgapOf(s, u).assoc, amf, NgapOf(s, u).ran))
  }

  function HandoverNotify(s: Snapshot, assoc: int, ran: int, amf: int, located: bool, newObject: UeContext): Snapshot
  {
    if !NotifyAccepted(s, assoc, amf, located) then s
    else
      var gnb := GnbAt(s, assoc).id;
      var s1 := MoveUe(Claim(s, ran, amf, gnb, newObject), s.ues.byAmf[amf], assoc, ran, amf, gnb);
      SetNas(s1, s.n1.nas[amf], NasOf(s, s.n1.nas[amf]).(ran := ran))
  }

  // ---- Removal of whole UEs ----

  function DropNas(s: Snapshot, amf: int): Snapshot
    requires amf in s.n1.nas
  {
    s.(n1 := s.n1.(nas := s.n1.nas - {amf}, supiNas := s.n1.supiNas - {Supi(NasOf(s, s.n1.nas[amf]).imsi)}))
  }

  function RemoveWithAmf(s: Snapshot, amf: int): Snapshot
  {
    if amf !in s.n1.nas then DropAmf(s, amf)
    else
      var rec := NasOf(s, s.n1.nas[amf]);
      var s1 := DropNas(s, amf);
      if (rec.ran, amf) !in s.app.keys then s1
      else DropAmf(DropPair(s1, rec.ran, UeOf(s, s.app.keys[(rec.ran, amf)]).gnb), amf)
  }

  function RemoveWithRan(s: Snapshot, ran: int, gnb: int): Snapshot
  {
    if (ran, gnb) !in s.ues.byRan then s
    else
      var amf := NgapOf(s, s.ues.byRan[(ran, gnb)]).amf;
      if amf in s.n1.nas then DropPair(DropAmf(DropNas(s, amf), amf), ran, gnb)
      else DropPair(DropAmf(s, amf), ran, gnb)
  }

  /** The NGAP contexts found on an association when the index is walked in this order. */
  function OnAssoc(s: Snapshot, assoc: int, order: seq<Pair>): (us: seq<UeNgapContext>)
    requires forall k <- order :: k in s.ues.byRan
  {
    if order == [] then []
    else
      var u := s.ues.byRan[order[0]];
      (if NgapOf(s, u).assoc == assoc then [u] else []) + OnAssoc(s, assoc, order[1..])
  }

  ghost function Collect(s: Snapshot, assoc: int): seq<UeNgapContext>
  {
    OnAssoc(s, assoc, Sorted(s.ues.byRan.Keys))
  }

  function RemoveOne(s: Snapshot, u: UeNgapContext, gnb: int): Snapshot
  {
    RemoveWithRan(RemoveWithAmf(s, NgapOf(s, u).amf), NgapOf(s, u).ran, gnb)
  }

  function RemoveAll(s: Snapshot, us: seq<UeNgapContext>, gnb: int): Snapshot
    decreases |us|
  {
    if us == [] then s else RemoveAll(RemoveOne(s, us[0], gnb), us[1..], gnb)
  }

  function Mark(s: Snapshot, assoc: int, state: GnbState): Snapshot
    requires assoc in s.gnbs.assocGnb
  {
    SetGnb(s, s.gnbs.assocGnb[assoc], GnbAt(s, assoc).(state := state))
  }

  /** The gNB is marked, and the UEs of its association are removed. */
  ghost function MarkedRemoval(s: Snapshot, assoc: int, state: GnbState): Snapshot
    requires assoc in s.gnbs.assocGnb
  {
    var s1 := Mark(s, assoc, state);
    RemoveAll(s1, Collect(s1, assoc), GnbAt(s, assoc).id)
  }

  ghost function ResetInterface(s: Snapshot, assoc: int): Snapshot
  {
    if assoc !in s.gnbs.assocGnb then s
    else Send(MarkedRemoval(s, assoc, Resetting), ResetAck(GnbAt(s, assoc).assoc))
  }

  /** One item of a partial reset: the AMF UE NGAP id is used when it is present. */
  datatype ResetItem = ResetItem(amf: Option<int>, ran: Option<int>)

  function ResetOne(s: Snapshot, item: ResetItem, gnb: int): Snapshot {
    match (item.amf, item.ran)
    case (Some(amf), _) => RemoveWithAmf(s, amf)
    case (None, Some(ran)) => RemoveWithRan(s, ran, gnb)
    case (None, None) => s
  }

  function ResetItems(s: Snapshot, items: seq<ResetItem>, gnb: int): Snapshot
    decreases |items|
  {
    if items == [] then s
    else
      ResetItems(ResetOne(s, items[0], gnb), items[1..], gnb)
  }

  function ResetPart(s: Snapshot, assoc: int, items: seq<ResetItem>): Snapshot
  {
    if assoc !in s.gnbs.assocGnb then s
    else
      var s2 := ResetItems(Mark(s, assoc, Resetting), items, GnbAt(s, assoc).id);
      Send(s2, ResetAck(GnbAt(s, assoc).assoc))
  }

  /** As the code has it, the gNB index is erased at the association id, not at the gNB id. */
  ghost function ShutdownAssoc(s: Snapshot, assoc: int): Snapshot
  {
    if assoc !in s.gnbs.assocGnb then s
    else
      var s1 := MarkedRemoval(s, assoc, Shutdown);
      s1.(gnbs := s1.gnbs.(idGnb := s1.gnbs.idGnb - {assoc}))
  }

  // ---- N1 handlers ----

  /** A SUPI is always recorded with both ids of one UE association. */
  function RecordSupi(s: Snapshot, supi: string, ran: int, amf: int): Snapshot {
    s.(n1 := s.n1.(supiAmf := s.n1.supiAmf[supi := amf], supiRan := s.n1.supiRan[supi := ran]))
  }

  function UseGuti(s: Snapshot, ran: int, amf: int, guti: string): Snapshot
  {
    if guti !in s.n1.gutiNas then s
    else
      var n := s.n1.gutiNas[guti];
      var rec := NasOf(s, n).(guti := Some(guti), oldRan := NasOf(s, n).ran, oldAmf := NasOf(s, n).amf,
                 ran := ran, amf := amf);
      var supi := Supi(rec.imsi);
      RecordSupi(PutSupiNas(PutNas(SetNas(s, n, rec), amf, n), supi, n), supi, ran, amf)
  }

  function FoundNas(s: Snapshot, amf: int, guti: Option<string>): Option<NasContext> {
    match guti
    case Some(g) => if g in s.n1.gutiNas then Some(s.n1.gutiNas[g]) else None
    case None => if amf in s.n1.nas then Some(s.n1.nas[amf]) else None
  }

  function IndexNas(s: Snapshot, ran: int, amf: int, found: Option<NasContext>, newObject: NasContext): Snapshot {
    match found
    case Some(n) => PutNas(s, amf, n)
    case None => SetNas(PutNas(s, amf, newObject), newObject, NEW_NAS.(idle := false, amf := amf, ran := ran))
  }

  /** `readable`: the message passed the security checks; `establishing`: it came in an Initial UE Message. */
  function UplinkNas(s: Snapshot, ran: int, amf: int, guti: Option<string>, readable: bool, establishing: bool,
                     newObject: NasContext): Snapshot
  {
    var s1 := if guti.Some? then UseGuti(s, ran, amf, guti.value) else s;
    if !readable || !establishing then s1 else IndexNas(s1, ran, amf, FoundNas(s, amf, guti), newObject)
  }

  /** Registration Request; `imsi` is present when the mobile identity is a SUCI in IMSI format. */
  function RegistrationRequest(s: Snapshot, ran: int, amf: int, imsi: Option<string>): Snapshot
  {
    if amf !in s.n1.nas || (ran, amf) !in s.app.keys then s
    else
      var n := s.n1.nas[amf];
      var rec := NasOf(s, n).(ran := ran, amf := amf);
      match imsi
      case None => SetNas(s, n, rec)
      case Some(i) =>
        RecordSupi(PutSupiNas(SetNas(s, n, rec.(imsi := i)), Supi(i), n), Supi(i), ran, amf)
  }

  /** The UE's context, built if there is none, is given the ids of the message and the IMSI. */
  function IdentifiedUe(s: Snapshot, ran: int, amf: int, imsi: string, newObject: NasContext): Snapshot {
    if amf in s.n1.nas then
      var n := s.n1.nas[amf];
      SetNas(s, n, NasOf(s, n).(idle := false, ran := ran, amf := amf, imsi := imsi))
    else
      SetNas(PutNas(s, amf, newObject), newObject, NEW_NAS.(idle := false, ran := ran, amf := amf, imsi := imsi))
  }

  function IdentityResponse(s: Snapshot, ran: int, amf: int, imsi: string, newObject: NasContext): Snapshot {
    RecordSupi(IdentifiedUe(s, ran, amf, imsi, newObject), Supi(imsi), ran, amf)
  }

  /** `guti` is the one newly assigned, absent where the handler gives up on the registration before it is indexed. */
  function SecurityModeComplete(s: Snapshot, ran: int, amf: int, guti: Option<string>): Snapshot {
    if (ran, amf) !in s.app.keys || amf !in s.n1.nas || guti.None? then s
    else s.(n1 := s.n1.(gutiNas := s.n1.gutiNas[guti.value := s.n1.nas[amf]]))
  }

  /** A context without a GUTI takes over what the older context known by the GUTI holds. */
  function Inherited(s: Snapshot, n: NasContext, guti: Option<string>): NasRec {
    var rec := NasOf(s, n);
    if rec.guti.None? && guti.Some? && guti.value in s.n1.gutiNas then
      var older := NasOf(s, s.n1.gutiNas[guti.value]);
      rec.(imsi := older.imsi, oldRan := older.ran, oldAmf := older.amf)
    else rec
  }

  /** `secured`: a security context is available once the one of an older NAS context was taken over. */
  function ServiceRequest(s: Snapshot, ran: int, amf: int, guti: Option<string>, secured: bool): Snapshot
  {
    if amf !in s.n1.nas || (ran, amf) !in s.app.keys then s
    else
      var n := s.n1.nas[amf];
      var rec := Inherited(s, n, guti);
      var s1 := SetNas(s, n, rec);
      if secured then RecordSupi(s1, Supi(rec.imsi), ran, amf) else s1
  }

  function Deregister(s: Snapshot, amf: int, guti: string): Snapshot
  {
    if amf !in s.n1.nas || (NasOf(s, s.n1.nas[amf]).ran, NasOf(s, s.n1.nas[amf]).amf) !in s.app.keys then s
    else
      var s1 := DropNas(s, amf);
      s1.(n1 := s1.n1.(gutiNas := s1.n1.gutiNas - {guti}))
  }

  // ---- Runs ----

  datatype N2Event =
    | AssociationEvent(assoc: int, newGnb: GnbContext)
    | NgSetupEvent(assoc: int, setup: Setup)
    | InitialUeEvent(assoc: int, ran: int, newNgap: UeNgapContext)
    | DlNasEvent(ran: int, amf: int)
    | ReleaseCompleteEvent(assoc: int, ran: int, amf: int)
    | HandoverRequiredEvent(assoc: int, ran: int, amf: int, intra: bool, target: int, secured: bool)
    | HandoverAckEvent(assoc: int, ran: int, amf: int, admitted: bool)
    | HandoverNotifyEvent(assoc: int, ran: int, amf: int, located: bool, newUe: UeContext)
    | ResetInterfaceEvent(assoc: int)
    | ResetPartEvent(assoc: int, items: seq<ResetItem>)
    | ShutdownEvent(assoc: int)

  datatype N1Event =
    | UplinkNasEvent(ran: int, amf: int, guti: Option<string>, readable: bool, establishing: bool, newNas: NasContext)
    | RegistrationEvent(ran: int, amf: int, imsi: Option<string>)
    | IdentityEvent(ran: int, amf: int, identity: string, newNas: NasContext)
    | SecurityModeCompleteEvent(ran: int, amf: int, givenGuti: Option<string>)
    | ServiceRequestEvent(ran: int, amf: int, guti: Option<string>, secured: bool)
    | DeregisterEvent(amf: int, newGuti: string)

  /** What one of the three tasks takes from its queue. */
  datatype Event =
    | OnN2(n2: N2Event)
    | OnApp(ran: int, gnb: int, given: int, newUe: UeContext)
    | OnN1(n1: N1Event)

  /** An object a handler allocates is not in an index yet. */
  ghost predicate Allocates(s: Snapshot, e: Event) {
    match e
    case OnN2(AssociationEvent(_, g)) => g !in s.gnbs.assocGnb.Values
    case OnN2(InitialUeEvent(_, _, u)) => u !in s.ues.byRan.Values && u !in s.ues.byAmf.Values
    case OnN2(HandoverNotifyEvent(_, _, _, _, uc)) => uc !in s.app.keys.Values
    case OnApp(_, _, _, uc) => uc !in s.app.keys.Values
    case _ => true
  }

  ghost function N2Step(s: Snapshot, e: N2Event): Snapshot {
    match e
    case AssociationEvent(assoc, g) => NewAssociation(s, assoc, g)
    case NgSetupEvent(assoc, setup) => NgSetup(s, assoc, setup)
    case InitialUeEvent(assoc, ran, u) => InitialUe(s, assoc, ran, u)
    case DlNasEvent(ran, amf) => DlNas(s, ran, amf)
    case ReleaseCompleteEvent(assoc, ran, amf) => ReleaseComplete(s, assoc, ran, amf)
    case HandoverRequiredEvent(assoc, ran, amf, intra, target, secured) =>
      HandoverRequiredTask(s, assoc, ran, amf, intra, target, secured)
    case HandoverAckEvent(assoc, ran, amf, admitted) => HandoverAck(s, assoc, ran, amf, admitted)
    case HandoverNotifyEvent(assoc, ran, amf, located, uc) => HandoverNotify(s, assoc, ran, amf, located, uc)
    case ResetInterfaceEvent(assoc) => ResetInterface(s, assoc)
    case ResetPartEvent(assoc, items) => ResetPart(s, assoc, items)
    case ShutdownEvent(assoc) => ShutdownAssoc(s, assoc)
  }

  function N1Step(s: Snapshot, e: N1Event): Snapshot {
    match e
    case UplinkNasEvent(ran, amf, guti, readable, establishing, n) =>
      UplinkNas(s, ran, amf, guti, readable, establishing, n)
    case RegistrationEvent(ran, amf, imsi) => RegistrationRequest(s, ran, amf, imsi)
    case IdentityEvent(ran, amf, imsi, n) => IdentityResponse(s, ran, amf, imsi, n)
    case SecurityModeCompleteEvent(ran, amf, guti) => SecurityModeComplete(s, ran, amf, guti)
    case ServiceRequestEvent(ran, amf, guti, secured) => ServiceRequest(s, ran, amf, guti, secured)
    case DeregisterEvent(amf, guti) => Deregister(s, amf, guti)
  }

  ghost function Step(s: Snapshot, e: Event): Snapshot {
    match e
    case OnN2(e2) => N2Step(s, e2)
    case OnApp(ran, gnb, given, uc) => Establish(s, ran, gnb, given, uc)
    case OnN1(e1) => N1Step(s, e1)
  }

  ghost predicate Within<K, V>(m': map<K, V>, m: map<K, V>) {
    forall k <- m' :: k in m && m'[k] == m[k]
  }

  /** Removals only ever shrink the indexes; contexts keep what they hold. */
  ghost predicate Shrinks(s: Snapshot, s': Snapshot) {
    && Within(s'.ues.byRan, s.ues.byRan)
    && Within(s'.ues.byAmf, s.ues.byAmf)
    && Within(s'.n1.nas, s.n1.nas)
    && Within(s'.n1.supiNas, s.n1.supiNas)
    && s'.ues.ngap == s.ues.ngap && s'.app == s.app && s'.gnbs == s.gnbs && s'.sent == s.sent
    && s'.n1 == s.n1.(nas := s'.n1.nas, supiNas := s'.n1.supiNas)
  }

  lemma ShrinksTransitively(s: Snapshot, s': Snapshot, s'': Snapshot)
    requires Shrinks(s, s') && Shrinks(s', s'')
    ensures Shrinks(s, s'')
  {
  }

  lemma DropPairShrinks(s: Snapshot, ran: int, gnb: int)
    ensures Shrinks(s, DropPair(s, ran, gnb))
  {
  }

  lemma DropAmfShrinks(s: Snapshot, amf: int)
    ensures Shrinks(s, DropAmf(s, amf))
  {
  }

  lemma DropNasShrinks(s: Snapshot, amf: int)
    requires amf in s.n1.nas
    ensures Shrinks(s, DropNas(s, amf))
  {
  }

  lemma RemoveWithAmfShrinks(s: Snapshot, amf: int)
    ensures Shrinks(s, RemoveWithAmf(s, amf))
  {
    DropAmfShrinks(s, amf);
    if amf in s.n1.nas {
      var s1 := DropNas(s, amf);
      DropNasShrinks(s, amf);
      var rec := NasOf(s, s.n1.nas[amf]);
      if (rec.ran, amf) in s.app.keys {
        var s2 := DropPair(s1, rec.ran, UeOf(s, s.app.keys[(rec.ran, amf)]).gnb);
        DropPairShrinks(s1, rec.ran, UeOf(s, s.app.keys[(rec.ran, amf)]).gnb);
        DropAmfShrinks(s2, amf);
        ShrinksTransitively(s, s1, s2);
        ShrinksTransitively(s, s2, DropAmf(s2, amf));
      }
    }
  }

  lemma DropBothShrinks(s: Snapshot, ran: int, gnb: int, amf: int)
    ensures Shrinks(s, DropPair(DropAmf(s, amf), ran, gnb))
  {
    DropAmfShrinks(s, amf);
    DropPairShrinks(DropAmf(s, amf), ran, gnb);
    ShrinksTransitively(s, DropAmf(s, amf), DropPair(DropAmf(s, amf), ran, gnb));
  }

  lemma RemoveWithRanShrinks(s: Snapshot, ran: int, gnb: int)
    ensures Shrinks(s, RemoveWithRan(s, ran, gnb))
  {
    if (ran, gnb) in s.ues.byRan {
      var amf := NgapOf(s, s.ues.byRan[(ran, gnb)]).amf;
      if amf in s.n1.nas {
        DropNasShrinks(s, amf);
        DropBothShrinks(DropNas(s, amf), ran, gnb, amf);
        ShrinksTransitively(s, DropNas(s, amf), RemoveWithRan(s, ran, gnb));
      } else {
        DropBothShrinks(s, ran, gnb, amf);
      }
    }
  }

  lemma RemoveOneShrinks(s: Snapshot, u: UeNgapContext, gnb: int)
    ensures Shrinks(s, RemoveOne(s, u, gnb))
  {
    var s1 := RemoveWithAmf(s, NgapOf(s, u).amf);
    RemoveWithAmfShrinks(s, NgapOf(s, u).amf);
    RemoveWithRanShrinks(s1, NgapOf(s, u).ran, gnb);
    ShrinksTransitively(s, s1, RemoveOne(s, u, gnb));
  }

  lemma {:induction false} RemoveAllShrinks(s: Snapshot, us: seq<UeNgapContext>, gnb: int)
    ensures Shrinks(s, RemoveAll(s, us, gnb))
    decreases |us|
  {
    if us == [] {
    } else {
      var s1 := RemoveOne(s, us[0], gnb);
      RemoveOneShrinks(s, us[0], gnb);
      RemoveAllShrinks(s1, us[1..], gnb);
      ShrinksTransitively(s, s1, RemoveAll(s, us, gnb));
    }
  }

  lemma {:induction false} ResetItemsShrinks(s: Snapshot, items: seq<ResetItem>, gnb: int)
    ensures Shrinks(s, ResetItems(s, items, gnb))
    decreases |items|
  {
    if items == [] {
    } else {
      var s1 := ResetOne(s, items[0], gnb);
      match (items[0].amf, items[0].ran) {
        case (Some(amf), _) => RemoveWithAmfShrinks(s, amf);
        case (None, Some(ran)) => RemoveWithRanShrinks(s, ran, gnb);
        case (None, None) =>
      }
      ResetItemsShrinks(s1, items[1..], gnb);
      ShrinksTransitively(s, s1, ResetItems(s, items, gnb));
    }
  }

  // ---- What the handlers leave alone ----

  /** The indexes that lookups of a UE go through are the same. */
  ghost predicate SameLinks(s: Snapshot, s': Snapshot) {
    && s'.ues.byRan == s.ues.byRan && s'.ues.byAmf == s.ues.byAmf
    && s'.app.keys == s.app.keys && s'.app.ue == s.app.ue
  }

  ghost predicate SameLedger(s: Snapshot, s': Snapshot) {
    s'.ues.byRan == s.ues.byRan && s'.ues.byAmf == s.ues.byAmf && s'.app == s.app
  }

  /** The N1 task changes nothing but its own indexes and contexts. */
  ghost predicate OnlyN1(s: Snapshot, s': Snapshot) {
    s' == s.(n1 := s'.n1)
  }

  lemma UseGutiKeepsLinks(s: Snapshot, ran: int, amf: int, guti: string)
    ensures OnlyN1(s, UseGuti(s, ran, amf, guti))
  {
  }

  lemma IndexNasKeepsLinks(s: Snapshot, ran: int, amf: int, found: Option<NasContext>, n: NasContext)
    ensures OnlyN1(s, IndexNas(s, ran, amf, found, n))
  {
  }

  lemma UplinkNasKeepsLinks(s: Snapshot, ran: int, amf: int, guti: Option<string>, readable: bool,
                            establishing: bool, n: NasContext)
    ensures OnlyN1(s, UplinkNas(s, ran, amf, guti, readable, establishing, n))
  {
    if guti.Some? {
      UseGutiKeepsLinks(s, ran, amf, guti.value);
      IndexNasKeepsLinks(UseGuti(s, ran, amf, guti.value), ran, amf, FoundNas(s, amf, guti), n);
    } else {
      IndexNasKeepsLinks(s, ran, amf, FoundNas(s, amf, guti), n);
    }
  }

  lemma ServiceRequestKeepsLinks(s: Snapshot, ran: int, amf: int, guti: Option<string>, secured: bool)
    ensures OnlyN1(s, ServiceRequest(s, ran, amf, guti, secured))
  {
  }

  lemma RegistrationKeepsLinks(s: Snapshot, ran: int, amf: int, imsi: Option<string>)
    ensures OnlyN1(s, RegistrationRequest(s, ran, amf, imsi))
  {
  }

  lemma IdentityKeepsLinks(s: Snapshot, ran: int, amf: int, imsi: string, n: NasContext)
    ensures OnlyN1(s, IdentityResponse(s, ran, amf, imsi, n))
  {
  }

  lemma SecurityModeKeepsLinks(s: Snapshot, ran: int, amf: int, guti: Option<string>)
    ensures OnlyN1(s, SecurityModeComplete(s, ran, amf, guti))
  {
  }

  lemma DeregisterKeepsLinks(s: Snapshot, amf: int, guti: string)
    ensures OnlyN1(s, Deregister(s, amf, guti))
  {
  }

  lemma GnbHandlersKeepUes(s: Snapshot, assoc: int, g: GnbContext, setup: Setup)
    ensures NewAssociation(s, assoc, g) == s.(gnbs := NewAssociation(s, assoc, g).gnbs)
    ensures NgSetup(s, assoc, setup) == s.(gnbs := NgSetup(s, assoc, setup).gnbs)
  {
  }

  lemma HandoverRequiredKeepsLinks(s: Snapshot, assoc: int, ran: int, amf: int, intra: bool, target: int,
                                   secured: bool)
    ensures SameLedger(s, HandoverRequired(s, assoc, ran, amf, intra, target, secured))
  {
  }

  lemma HandoverAckKeepsLinks(s: Snapshot, assoc: int, ran: int, amf: int, admitted: bool)
    ensures SameLedger(s, HandoverAck(s, assoc, ran, amf, admitted))
  {
  }

  lemma N1KeepsLinks(s: Snapshot, e: N1Event)
    ensures OnlyN1(s, N1Step(s, e))
    ensures SameLedger(s, N1Step(s, e)) && SameLinks(s, N1Step(s, e))
  {
    match e
    case UplinkNasEvent(ran, amf, guti, readable, establishing, n) =>
      UplinkNasKeepsLinks(s, ran, amf, guti, readable, establishing, n);
    case RegistrationEvent(ran, amf, imsi) => RegistrationKeepsLinks(s, ran, amf, imsi);
    case IdentityEvent(ran, amf, imsi, n) => IdentityKeepsLinks(s, ran, amf, imsi, n);
    case SecurityModeCompleteEvent(ran, amf, guti) => SecurityModeKeepsLinks(s, ran, amf, guti);
    case ServiceRequestEvent(ran, amf, guti, secured) => ServiceRequestKeepsLinks(s, ran, amf, guti, secured);
    case DeregisterEvent(amf, guti) => DeregisterKeepsLinks(s, amf, guti);
  }

  lemma SendKeepsLinks(s: Snapshot, message: NgapMessage)
    ensures SameLedger(s, Send(s, message))
  {
  }

  lemma HandoverPreparationKeepsLinks(s: Snapshot, assoc: int, ran: int, amf: int, intra: bool, target: int,
                                      secured: bool)
    ensures SameLedger(s, HandoverRequiredTask(s, assoc, ran, amf, intra, target, secured))
  {
    var first := HandoverRequired(s, assoc, ran, amf, intra, target, secured);
    HandoverRequiredKeepsLinks(s, assoc, ran, amf, intra, target, secured);
    HandoverRequiredKeepsLinks(first, assoc, ran, amf, intra, target, secured);
    SendKeepsLinks(HandoverRequired(first, assoc, ran, amf, intra, target, secured),
                   PreparationFailure(assoc, amf, amf));
  }

  // ---- Runs ----

  ghost function Run(s: Snapshot, es: seq<Event>): Snapshot
    decreases |es|
  {
    if es == [] then s else Run(Step(s, es[0]), es[1..])
  }

  /** Every event of the run allocates only objects the AMF does not know when the event arrives. */
  ghost predicate Allocating(s: Snapshot, es: seq<Event>)
    decreases |es|
  {
    es != [] ==> Allocates(s, es[0]) && Allocating(Step(s, es[0]), es[1..])
  }
}
