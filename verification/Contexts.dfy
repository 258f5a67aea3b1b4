/** The context objects the AMF tasks share, with the fields the modelled handlers touch. */
module Contexts {
  import opened Wrappers

  datatype UeState = Invalid | WaitingSetup | Handover | Connected | WaitingRelease

  datatype GnbState = Init | Resetting | Ready | Shutdown

  const INVALID_AMF_UE_NGAP_ID := -1
  const CAUSE_SUCCESSFUL_HANDOVER := 2

  datatype NgapRec = NgapRec(ran: int, amf: int, targetRan: int, assoc: int, targetAssoc: int,
                             state: UeState, ncc: nat, releaseCause: int, releaseGnb: int)

  datatype UeRec = UeRec(ran: int, amf: int, gnb: int)

  datatype NasRec = NasRec(ran: int, amf: int, oldRan: int, oldAmf: int, imsi: string, guti: Option<string>,
                           idle: bool)

  datatype GnbRec = GnbRec(id: int, assoc: int, state: GnbState)

  const NEW_NGAP := NgapRec(0, 0, 0, 0, 0, Invalid, 0, 0, 0)
  const NEW_UE := UeRec(0, INVALID_AMF_UE_NGAP_ID, 0)
  const NEW_NAS := NasRec(0, 0, 0, INVALID_AMF_UE_NGAP_ID, "", None, true)

  /** One UE-associated logical NG connection, shared by the two indexes of the N2 task. */
  class UeNgapContext {
    var ran: int
    var amf: int
    var targetRan: int
    var assoc: int
    var targetAssoc: int
    var state: UeState
    var ncc: nat
    var releaseCause: int
    var releaseGnb: int

    constructor ()
      ensures Rec() == NEW_NGAP
    {
      ran, amf, targetRan, assoc, targetAssoc := 0, 0, 0, 0, 0;
      state, ncc, releaseCause, releaseGnb := Invalid, 0, 0, 0;
    }

    ghost function Rec(): NgapRec
      reads this
    {
      NgapRec(ran, amf, targetRan, assoc, targetAssoc, state, ncc, releaseCause, releaseGnb)
    }
  }

  /** The context the APP task keeps under a (RAN UE NGAP id, AMF UE NGAP id) key. */
  class UeContext {
    var ran: int
    var amf: int
    var gnb: int

    constructor ()
      ensures Rec() == NEW_UE
    {
      ran, amf, gnb := 0, INVALID_AMF_UE_NGAP_ID, 0;
    }

    ghost function Rec(): UeRec
      reads this
    {
      UeRec(ran, amf, gnb)
    }
  }

  /** The context the N1 task keeps for a UE. */
  class NasContext {
    var ran: int
    var amf: int
    var oldRan: int
    var oldAmf: int
    var imsi: string
    var guti: Option<string>
    var idle: bool

    constructor ()
      ensures Rec() == NEW_NAS
    {
      ran, amf, oldRan, oldAmf := 0, 0, 0, INVALID_AMF_UE_NGAP_ID;
      imsi, guti, idle := "", None, true;
    }

    ghost function Rec(): NasRec
      reads this
    {
      NasRec(ran, amf, oldRan, oldAmf, imsi, guti, idle)
    }
  }

  /** The context of the gNB behind one SCTP association. */
  class GnbContext {
    var id: int
    var assoc: int
    var state: GnbState

    constructor (assoc: int)
      ensures Rec() == GnbRec(0, assoc, Init)
    {
      this.id, this.assoc, this.state := 0, assoc, Init;
    }

    ghost function Rec(): GnbRec
      reads this
    {
      GnbRec(id, assoc, state)
    }
  }
}
