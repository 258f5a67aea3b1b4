# The Access and Mobility Function, modelled and proved

This project models the parts of the 5G Access and Mobility Function (AMF) where several tasks change
shared state, where octets are laid out by hand, and where loops decide what a UE is allowed to use. Three
tasks (N2 towards the gNBs, APP in the middle, N1 towards the UEs) run handlers one message at a time. The
handlers share indexes that point at the same mutable context objects.

The project has four parts.

1. **UE context indexes and NGAP procedures.** `UeIndexSpec` says what each handler does to a snapshot of
   the indexes and of the contexts they lead to; objects occur in it as identities. `Contexts`, `Indexes`
   and `Amf` are the objects themselves: classes whose fields the handlers update in place, each method
   proved to do what the specification says, down to a task loop over any sequence of messages
   (`AmfTasks.Process`). `IndexAgreement` and `IndexRuns` prove when the lookup by AMF UE NGAP ID and the
   lookups through the UE context keys agree; `IndexReset` what NG Reset and a shutdown remove from any state,
   `IndexOwnKeys` and `IndexPending` over which runs the entries they look for are where they are looked for, and
   `IndexPending` and `IndexResetRuns` what they therefore remove after a run; `IndexHandover`
   what the NGAP context holds during a handover and what the releases after it do, `IndexRouting` where messages
   for the UE go during, at and after it, and `IndexReattach` a UE that messages miss; `SupiRecords` that the SUPI
   indexes can be read one behind the guard of the other. `IndexEffects`
   says for each handler what goes out and what the contexts hold afterwards, in terms of lookups only, `IndexPartialReset`
   what a partial reset removes, and `IndexDelivery` on which association downlink messages go out. `Decimal` proves
   the UE context keys injective, so that the
   indexes may be keyed by the pair of ids. `LexOrder` is the order in which a map keyed by a pair is walked.
2. **NAS security envelope.** `NasEnvelope` specifies encoding and decoding of protected NAS messages, with
   the algorithms as parameters, and proves the two inverse to each other. `NasOctets` says octet
   by octet under which key, count and direction a message is built and read. `NasSecurity` is the code on octet buffers. `NasProcedures` is the machine of authentication and security mode control on one security
   context; it proves the exclusion of the two procedures and the numbering of downlink messages. `NasTask`
   is its handlers. `KdfInput` is the input string of the RES* derivation. `Bytes` holds octets, exclusive or
   and copying.
3. **Slices.** `Slices` and `Nssai` go from NG Setup to the S-NSSAIs in common, with an end-to-end
   characterisation; `RegistrationNssai` to the Allowed and Rejected NSSAI and the slice of a PDU session;
   `SubscribedNssai` is the check of the subscribed slices.
4. **Bookkeeping.** `SmfFanout` (requests to the SMF and their answers), `Promises` (the registry of promised
   answers), `NrfLoop` (registration and heartbeat with the NRF) and `EventSubscriptions`.

Some properties that the code or its comments suggest do not hold as stated. For these the project proves
exactly when they do hold, and what happens otherwise:

- The lookups of a UE agree as long as a pair of RAN UE NGAP ID and gNB is not used again while an old UE
  context key still leads to it (`StepAgrees`, `RunAgrees`, `ReuseOfPairDisagrees`). UE context keys are
  never erased.
- After a handover the source's UE Context Release Complete leaves the UE indexed exactly when source and
  target are the same gNB (`SourceReleaseKeepsTheUe`). The code compares the releasing gNB with the target.
- After a handover, messages addressed with the ids of the UE's NAS context reach the UE exactly when the AMF id
  in it did before or is the one of the Notify (`NasIdsReachTheUe`); a UE that has attached again with its GUTI is
  one whose downlink messages go nowhere (`HandoverMissesReattachedUe`).
- A full reset leaves an entry of the association behind if it is neither an own pair nor one a NAS context
  leads to; an entry left by a handover is such a one (`NothingLeftOnAssociation`, `HandedOverEntryIsLeftBehind`).
  Over a run these are entries at sources of handovers that have not been released (`IndexPending.ResetAfterRun`).
- A gNB whose association has been shut down stays a handover target unless its id equals the association's
  number (`ShutdownLeavesTheTarget`).
- A Handover Preparation Failure carries the AMF UE NGAP ID in both its id fields (`PreparationFailureIds`).
- Header type 3 round-trips through the decoder exactly when nothing is ciphered or the key stream is zero
  (`NewContextRoundTrip`): it is sent without ciphering and opened with deciphering.
- The count of protected downlink messages is the NAS COUNT for exactly the first 256 (`CountIsNasCount`), and only
  an authentication on an unavailable context starts it anew (`RunIsNumbered`, `NumberedSinceNewContext`).
- A Security Mode Reject ends nothing (`SecurityModeBlocks`).
- A successful deregistration from the NRF silences the heartbeat exactly when the timer it removes is all
  the loop waits for (`DeregistrationSilences`, `DeregistrationCanMiss`).
- An event unsubscription does what is meant in exactly the cases of `DeleteAsIntended`.
- A status read as an 8-bit code is a success modulo 256 (`ActivationStatus`).

## Model

| member | source | states |
|---|---|---|
| IndexAgreement.InitialUeAgrees | amf/src/amf-app/amf_n2.cpp:662-720 | An Initial UE Message keeps all lookups of every UE in agreement exactly when its pair is indexed or no key of a UE looked up elsewhere leads to the pair |
| IndexAgreement.EstablishAgrees | amf/src/amf-app/amf_app.cpp:454-502 | NAS establishment keeps the lookups in agreement exactly when every other RAN id under which the AMF id is known leads to the same context |
| IndexAgreement.NotifyAgrees | amf/src/amf-app/amf_n2.cpp:2078-2238 | Handover Notify keeps the lookups in agreement exactly when other UEs whose key leads to the target's pair are looked up as the arriving UE already |
| IndexAgreement.DlNasKeepsAgree | amf/src/amf-app/amf_n2.cpp:874-912 | Downlink NAS transport, which re-indexes the context it finds, always keeps the lookups in agreement |
| IndexAgreement.ResetNarrows | amf/src/amf-app/amf_n2.cpp:542-659 | After a reset or shutdown whatever can still be looked up is what it was |
| IndexAgreement.StepAgrees | amf/src/amf-app/amf_n2.cpp:2616-2807 | Each message to any of the three tasks keeps the lookups in agreement exactly when its condition on the state before it holds |
| IndexRuns.RunAgrees | amf/src/amf-app/amf_n2.cpp:2616-2807 | Over any run of messages in any order the lookups agree all along exactly when every message is safe when it arrives |
| IndexRuns.DisciplinedRunAgrees | amf/src/amf-app/amf_app.cpp:241-275 | If gNBs start a UE association only under pairs still indexed or never used and the id generator has not come round, the lookups agree in every state of every run |
| IndexRuns.ReuseOfPairDisagrees | amf/src/amf-app/amf_n2.cpp:703-719 | A run of messages that each handler accepts, with a repeated Initial UE Message and a reused RAN id, ends with two contexts for one UE |
| IndexRuns.StepKeepsKeysApart | amf/src/amf-app/amf_app.cpp:259-275 | No message makes two keys share a UE context |
| SupiRecords.StepTogether | amf/src/amf-app/amf_n1.cpp:1819-1853 | Any message leaves both ids of a SUPI as they were or replaces both by the ids of the message |
| SupiRecords.SupiLookupIsTotal | amf/src/amf-app/amf_n1.cpp:1826-1863 | In every run the two SUPI indexes have the same domain, lose no SUPI, and hold for each two ids recorded by one and the same message, so the read guarded by the other index succeeds |
| IndexReset.CollectFinds | amf/src/amf-app/amf_n2.cpp:2717-2725 | The walk collects exactly the contexts that are indexed and on the association |
| IndexReset.LeftBounds | amf/src/amf-app/amf_n2.cpp:567-576 | From any state: own pairs of the UEs of the association and NAS contexts under their AMF ids are gone, and every entry that is neither an own pair nor led to by a NAS context of these UEs stays |
| IndexReset.LeftExactly | amf/src/amf-app/amf_n2.cpp:2673-2714 | When collected contexts are indexed under their own pairs, the entries and NAS contexts that remain are exactly those not taken |
| IndexReset.NothingLeftOnAssociation | amf/src/amf-app/amf_n2.cpp:567-576 | When collected contexts are indexed under their own pairs, the association is left without an entry exactly when each of its entries is an own pair or led to by a NAS context |
| IndexReset.OthersKept | amf/src/amf-app/amf_n2.cpp:2768-2807 | When collected contexts are indexed under their own pairs, entries of other associations are all kept exactly when no NAS context of a removed UE leads to one |
| IndexReset.ResetRemovesTheAssociation | amf/src/amf-app/amf_n2.cpp:542-576 | With own keys and NAS contexts that lead to no entry of another UE, reset and shutdown remove from the index by RAN id exactly the entries of the association |
| IndexReset.ResetRemovesTheUes | amf/src/amf-app/amf_n2.cpp:613-651 | With own keys they remove from the NAS index exactly the UEs of the association |
| IndexReset.ResetRemovesTheIds | amf/src/amf-app/amf_n2.cpp:2752-2807 | With own keys and NAS contexts that lead to no entry of another UE they remove from the index by AMF id exactly these UEs' ids |
| IndexReset.BothLeave | amf/src/amf-app/amf_n2.cpp:624-651 | A full reset and a shutdown remove the same |
| IndexReset.HandedOverEntryIsLeftBehind | amf/src/amf-app/amf_n2.cpp:2225-2238 | After an accepted handover the source's entry is on the target's association and survives a full reset by the target |
| IndexOwnKeys.StepKeepsOwn | amf/src/amf-app/amf_n2.cpp:2616-2725 | Each message keeps every entry an own one exactly when it neither gives a gNB another id under its UEs nor leaves the entry at a handover's source behind |
| IndexOwnKeys.NgSetupKeepsOwn | amf/src/amf-app/amf_n2.cpp:433-436 | NG Setup keeps the entries own exactly when the gNB keeps its id or has no UE |
| IndexOwnKeys.NotifyKeepsOwn | amf/src/amf-app/amf_n2.cpp:2222-2238 | Handover Notify keeps the entries own exactly when the UE is indexed under no other pair any more |
| IndexOwnKeys.HandoverRestoresOwn | amf/src/amf-app/amf_n2.cpp:1468-1612 | After a handover whose source has sent its Release Complete all entries are own ones again, whichever way that release was taken |
| IndexOwnKeys.RunKeepsOwn | amf/src/amf-app/amf_n2.cpp:2654-2725 | Over any run the entries are own ones all along exactly when each message keeps them so |
| IndexPending.StepKeepsOwnBut | amf/src/amf-app/amf_n2.cpp:2616-2807 | Over each message, handovers between two gNBs included, every entry stays an own one but those at sources that are still indexed |
| IndexPending.RunKeepsOwnBut | amf/src/amf-app/amf_n2.cpp:2654-2725 | Over any orderly run all entries are own ones except those of handovers whose source has not released the UE |
| IndexPending.PendingIsHandedOver | amf/src/amf-app/amf_n2.cpp:2206-2238 | Each entry so excepted at the end of a run was the source's at an accepted Handover Notify of the run and is still indexed |
| IndexPending.ResetAfterRun | amf/src/amf-app/amf_n2.cpp:542-659 | After any orderly run a full reset or a shutdown removes every NAS context of the association and leaves at most the entries at unreleased sources |
| IndexPending.ResetAfterReleases | amf/src/amf-app/amf_n2.cpp:542-659 | Where no such entry is on the association, exactly its UEs leave the NAS index |
| IndexResetRuns.BoundLeadsBack | amf/src/amf-app/amf_n2.cpp:2768-2807 | Where the AMF ids that contexts hold lead to nothing else, as in every state of a disciplined run, no NAS context leads a removal to an entry of another UE |
| IndexResetRuns.OthersStayAfterRun | amf/src/amf-app/amf_n2.cpp:542-659 | After any disciplined run from the start a reset and a shutdown keep every entry of other associations under other gNBs' ids, with what it indexes |
| IndexResetRuns.EntriesAfterReleases | amf/src/amf-app/amf_n2.cpp:542-659 | After a disciplined and orderly run with no entry of an unreleased source on the association they remove from the index by RAN id exactly the association's entries |
| IndexResetRuns.IdsAfterReleases | amf/src/amf-app/amf_n2.cpp:2752-2807 | After such a run they remove from the index by AMF id exactly the ids of the association's UEs |
| IndexPartialReset.ItemWithAmfId | amf/src/amf-app/amf_n2.cpp:2752-2807 | An item with an AMF id removes exactly the NAS context under it and the entry that context leads to; the id stays indexed exactly if there is a NAS context without a UE context key |
| IndexPartialReset.ItemWithRanId | amf/src/amf-app/amf_n2.cpp:2673-2714 | An item with a RAN id only removes exactly the gNB's entry under it, the AMF id its UE holds and the NAS context under that |
| IndexPartialReset.ItemWithoutIds | amf/src/amf-app/amf_n2.cpp:584-592 | An item without ids removes nothing |
| IndexPartialReset.PartInTwoParts | amf/src/amf-app/amf_n2.cpp:577-610 | The items of a list are reset one after the other, and a reset is acknowledged once on the gNB's association |
| IndexPartialReset.PartRemoves | amf/src/amf-app/amf_n2.cpp:577-610 | Over any list every AMF id named loses its NAS context, its index entry unless the NAS context has no key, and the entry led to unless an item has the UE removed by RAN id; every entry named by RAN id only is gone |
| IndexPartialReset.LedEntryCanStay | amf/src/amf-app/amf_n2.cpp:584-596 | With an item by RAN id before the one by AMF id the entry led to stays, and the other way round it goes |
| IndexPartialReset.PartSpares | amf/src/amf-app/amf_n2.cpp:577-610 | Entries that no item names or leads to, and AMF ids that no item has or means, stay with what they index |
| IndexHandover.PreparationRunsTwice | amf/src/amf-app/amf_n2.cpp:212-220 | An accepted Handover Required sends two Handover Requests, advances the NCC by two, records the target's association and leaves the serving RAN id alone |
| IndexHandover.PreparationFailureIds | amf/src/amf-app/amf_n2.cpp:2558-2568 | A note: a Preparation Failure carries the AMF id as RAN id, which is right only if the two are equal |
| IndexHandover.StepAnchors | amf/src/amf-app/amf_n2.cpp:1646-2238 | Each message changes the serving RAN id, association or target association of a context exactly when it is one of three messages that name other values |
| IndexHandover.StepRetargets | amf/src/amf-app/amf_n2.cpp:1928-2238 | The RAN id at the target changes exactly by a Request Ack with another id, a Notify that clears it, or the building of the context |
| IndexHandover.RunKeepsAnchor | amf/src/amf-app/amf_n2.cpp:1646-2075 | No run of other messages, repeated ones included, changes the RAN id, association and target association a context holds |
| IndexRouting.BoundFromTheStart | amf/src/amf-app/amf_app.cpp:454-502 | In every state of every disciplined run from the start, the AMF id an indexed context holds was issued and leads to nothing else |
| IndexRouting.SourceServes | amf/src/amf-app/amf_n2.cpp:1696-1925 | From an accepted Handover Required on, over disciplined messages that give the context no other ids, its AMF id leads to nothing else and it holds the source's ids and the target's association |
| IndexRouting.SourceServesUntilNotify | amf/src/amf-app/amf_n2.cpp:1928-2072 | A Request Ack accepted meanwhile sends the Handover Command to the source, and until the Notify the context holds the target's RAN id and association with the source's ids |
| IndexRouting.NotifyMovesTheUe | amf/src/amf-app/amf_n2.cpp:2206-2238 | An accepted Notify sends the Release Command to the ids that served the UE, and then both lookups with the new RAN id and the message's AMF id lead to the same context on the notifying association |
| IndexRouting.NasIdsReachTheUe | amf/src/amf-app/amf_n1.cpp:1405-1406 | Both lookups with the ids the NAS context holds, with which downlink messages are addressed, lead to the UE after a Notify exactly when its AMF id is the message's or led to the UE before |
| IndexReattach.HandoverMissesReattachedUe | amf/src/amf-app/amf_n1.cpp:389-592 | A disciplined run in which a UE attaches again with its GUTI, after which a Notify for its first AMF id is accepted and a downlink message with the NAS context's ids is dropped |
| IndexRouting.HandoverReleasesTheSource | amf/src/amf-app/amf_n2.cpp:2206-2238 | Over any disciplined run between Handover Required and Notify that gives the context no other ids, the Release Command goes to the source of the Handover Required and the UE is reached at the target |
| IndexRouting.RoutesAfterwards | amf/src/amf-app/amf_n2.cpp:2206-2238 | Over any later disciplined run the AMF id leads to nothing else, each lookup goes on giving the UE until a release, reset or shutdown removes what it goes through, and the UE stays at the target until a message gives it other ids |
| IndexDelivery.RunKeepsAddressed | amf/src/ngap/ngap_app/ngap_app.cpp:88-118 | Over any run each association keeps a gNB context of its own that holds the association's number, and none is forgotten |
| IndexDelivery.DownlinkReaches | amf/src/amf-app/amf_n2.cpp:874-912 | A downlink message goes out on the association of the UE its key leads to, with the ids it came with |
| IndexDelivery.DownlinkAfterNotify | amf/src/amf-app/amf_n1.cpp:1405-1406 | Right after a Notify a downlink message with the NAS context's ids goes out on the target's association, where these ids lead to the UE |
| IndexDelivery.DownlinkAfterwards | amf/src/amf-app/amf_n2.cpp:874-912 | Over any later disciplined run a downlink message with the new RAN id goes out on the target's association until the key's entry is removed or the UE is given other ids |
| IndexHandover.SourceReleaseKeepsTheUe | amf/src/amf-app/amf_n2.cpp:1468-1475 | The source's Release Complete leaves the UE indexed by its AMF id exactly when source and target are the same gNB |
| IndexHandover.SourceReleaseForgetsTheUe | amf/src/amf-app/amf_n2.cpp:1477-1612 | Otherwise the UE is no longer indexed by its AMF id though it is connected through the target, and turned CM-IDLE if its SUPI is current |
| IndexHandover.TargetReleaseIsMistaken | amf/src/amf-app/amf_n2.cpp:1468-1475 | A note: the first release by the target is taken for the source's, after which the UE is found by its AMF id only |
| IndexHandover.ShutdownLeavesTheTarget | amf/src/amf-app/amf_n2.cpp:647-651 | A note: a shutdown erases the gNB index at the association's number, so the gNB's id stays a target unless it equals that number |
| IndexEffects.AssociationStarts | amf/src/ngap/ngap_app/ngap_app.cpp:88-118 | A new association puts its gNB back to the start with its id kept, unless it is being reset or shut down |
| IndexEffects.SetupTakesId | amf/src/amf-app/amf_n2.cpp:386-526 | The gNB takes the id it gives, is found by it once a PLMN is in common, and is ready once it is answered |
| IndexEffects.SetupIgnored | amf/src/amf-app/amf_n2.cpp:386-432 | An NG Setup on an unknown association or without a gNB id changes nothing |
| IndexEffects.ResetBlocks | amf/src/amf-app/amf_n2.cpp:542-610 | A full reset is acknowledged on the gNB's association and leaves only that gNB blocked |
| IndexEffects.ShutdownBlocks | amf/src/amf-app/amf_n2.cpp:613-659 | A shutdown sends nothing, blocks the gNB and forgets exactly the gNB whose id is the association's number |
| IndexEffects.UnknownAssociationIgnored | amf/src/amf-app/amf_n2.cpp:542-685 | Messages on an association without a gNB context change nothing |
| IndexEffects.InitialUeStarts | amf/src/amf-app/amf_n2.cpp:662-720 | The pair leads to the UE's context, which holds the message's RAN id and association and otherwise what it held or a new one holds |
| IndexEffects.InitialUeRefused | amf/src/amf-app/amf_n2.cpp:662-700 | Before its NG Setup a gNB starts no UE association |
| IndexEffects.EstablishBinds | amf/src/amf-app/amf_app.cpp:241-275 | The UE context under the ids names them and the gNB, the NGAP context of the pair holds the AMF id and is found by it, and the generator comes round after 2^32 ids |
| IndexEffects.EstablishKeepsOthers | amf/src/amf-app/amf_app.cpp:454-502 | Other UE contexts hold what they held |
| IndexEffects.DownlinkSends | amf/src/amf-app/amf_n2.cpp:874-912 | Exactly one message goes out, to the gNB of the UE the key leads to, with both ids as they came; the UE is then connected under the AMF id; otherwise nothing changes |
| IndexEffects.ReleaseAfterHandover | amf/src/amf-app/amf_n2.cpp:1468-1475 | The release that follows a handover drops the gNB's entry only and clears the cause |
| IndexEffects.ReleaseForgets | amf/src/amf-app/amf_n2.cpp:1477-1612 | Any other release drops the pair and the AMF id |
| IndexEffects.ReleaseIdles | amf/src/amf-app/amf_n2.cpp:1477-1612 | The UE goes idle exactly if the AMF id is the one last recorded for its SUPI |
| IndexEffects.ReleaseIgnored | amf/src/amf-app/amf_n2.cpp:1437-1500 | A release with an unknown key or AMF id, or without a NAS context, changes nothing |
| IndexEffects.RequiredAccepted | amf/src/amf-app/amf_n2.cpp:1646-1925 | Two Handover Requests go out exactly when the pair leads to a UE of the AMF id, within 5GS, secured, to a known target |
| IndexEffects.RequiredMarks | amf/src/amf-app/amf_n2.cpp:1646-1925 | A Handover Required that finds the UE and then fails leaves it marked as leaving, its NCC advanced by two |
| IndexEffects.AckAnswers | amf/src/amf-app/amf_n2.cpp:1928-2075 | A Request Ack records the RAN id at the target and sends the Handover Command to the serving ids if a session was admitted |
| IndexEffects.NotifyMoves | amf/src/amf-app/amf_n2.cpp:2078-2238 | A Notify leaves pair, key, NGAP context and NAS context naming the target, with the release cause and gNB it compares later |
| IndexEffects.NotifyIgnored | amf/src/amf-app/amf_n2.cpp:2078-2150 | A Notify without location, NGAP context or NAS context changes nothing |
| IndexEffects.UplinkUsesGuti | amf/src/amf-app/amf_n1.cpp:389-592 | A known GUTI finds the UE's context, which takes the new ids, keeps the old ones aside and is found by AMF id and SUPI |
| IndexEffects.UplinkIntroduces | amf/src/amf-app/amf_n1.cpp:536-592 | Otherwise a readable message that establishes a connection gets a new context exactly where its identity has none |
| IndexEffects.RegistrationRecords | amf/src/amf-app/amf_n1.cpp:1424-1646 | A Registration Request gives the UE's context its ids, and a SUCI the IMSI under which it is then found with both ids |
| IndexEffects.IdentityRecords | amf/src/amf-app/amf_n1.cpp:749-803 | An Identity Response gives the UE's context, found or built, its ids and IMSI and connects it |
| IndexEffects.SecurityModeAssigns | amf/src/amf-app/amf_n1.cpp:2834-3024 | A Security Mode Complete makes the context found by the GUTI assigned, and changes nothing else |
| IndexEffects.ServiceTakesOver | amf/src/amf-app/amf_n1.cpp:1020-1171 | A context without a GUTI takes IMSI and old ids over from the one the GUTI leads to; both SUPI ids become the message's where a security context is there |
| IndexEffects.DeregistrationForgets | amf/src/amf-app/amf_n1.cpp:3385-3575 | The context is forgotten by AMF id, SUPI and GUTI exactly if its own ids have a UE context |
| Amf.AmfTasks.HandleNewAssociation | amf/src/ngap/ngap_app/ngap_app.cpp:88-118 | A new association builds or re-initialises a gNB context unless it is being reset or shut down |
| Amf.AmfTasks.HandleNgSetup | amf/src/amf-app/amf_n2.cpp:386-526 | How far NG Setup gets decides which of id, index and state it sets |
| Amf.AmfTasks.HandleInitialUe | amf/src/amf-app/amf_n2.cpp:662-720 | The whole new state after an Initial UE Message, as specified |
| Amf.AmfTasks.HandleEstablishment | amf/src/amf-app/amf_app.cpp:454-502 | The whole new state after NAS establishment in the APP task |
| Amf.AmfTasks.HandleDlNas | amf/src/amf-app/amf_n2.cpp:874-912 | The whole new state and the message sent after a downlink NAS transport |
| Amf.AmfTasks.HandleReleaseComplete | amf/src/amf-app/amf_n2.cpp:1437-1613 | The whole new state after a UE Context Release Complete, in each of its outcomes |
| Amf.AmfTasks.PrepareHandover | amf/src/amf-app/amf_n2.cpp:1646-1925 | One run of the Handover Required handler: the new state, and whether it succeeded |
| Amf.AmfTasks.HandleHandoverRequired | amf/src/amf-app/amf_n2.cpp:212-220 | The task loop's two calls of that handler and the failure it reports |
| Amf.AmfTasks.HandleHandoverAck | amf/src/amf-app/amf_n2.cpp:1928-2075 | The target RAN id recorded and the Handover Command sent |
| Amf.AmfTasks.HandleHandoverNotify | amf/src/amf-app/amf_n2.cpp:2078-2238 | The whole new state over three tasks after a Handover Notify, and the Release Command sent |
| Amf.AmfTasks.RemoveUeByAmf | amf/src/amf-app/amf_n2.cpp:2768-2807 | Removal of a UE by its AMF id, including the early return that keeps the AMF index |
| Amf.AmfTasks.RemoveUeByRan | amf/src/amf-app/amf_n2.cpp:2673-2714 | Removal of a UE by its RAN id and gNB |
| Amf.AmfTasks.HandleResetInterface | amf/src/amf-app/amf_n2.cpp:542-610 | A full reset is the removal loop over the contexts collected, then the acknowledgement |
| Amf.AmfTasks.HandleResetPart | amf/src/amf-app/amf_n2.cpp:577-610 | A partial reset removes item by item, by AMF id where it is present |
| Amf.AmfTasks.HandleShutdown | amf/src/amf-app/amf_n2.cpp:613-659 | A shutdown is the same removal loop, then the erasure from the gNB index |
| Amf.AmfTasks.HandleUplinkNas | amf/src/amf-app/amf_n1.cpp:389-592 | How an uplink NAS message re-indexes the NAS context found by GUTI or AMF id, or indexes a new one |
| Amf.AmfTasks.HandleRegistration | amf/src/amf-app/amf_n1.cpp:1424-1646 | The NAS indexes and the SUPI ids after a Registration Request |
| Amf.AmfTasks.HandleIdentityResponse | amf/src/amf-app/amf_n1.cpp:749-803 | The NAS indexes and the SUPI ids after an Identity Response |
| Amf.AmfTasks.HandleSecurityModeComplete | amf/src/amf-app/amf_n1.cpp:2834-3024 | The GUTI newly assigned is indexed, unless a context is missing or the handler gives the registration up before |
| Amf.AmfTasks.HandleServiceRequest | amf/src/amf-app/amf_n1.cpp:1020-1171 | What a context takes over from the one known by the GUTI, and the SUPI ids recorded |
| Amf.AmfTasks.HandleDeregistration | amf/src/amf-app/amf_n1.cpp:3385-3575 | The NAS context leaves its three indexes |
| LexOrder.SortedIncreases | amf/src/amf-app/amf_n2.cpp:2717-2725 | The order of the walk over an index keyed by a pair is strictly lexicographic |
| Indexes.NgapIndexes.OnAssociation | amf/src/amf-app/amf_n2.cpp:2717-2725 | The walk over the index in the order of its keys yields the contexts collected by the specification |
| Amf.AmfTasks.Process | amf/src/amf-app/amf_n2.cpp:84-296 | Messages handled one after the other take the state through the specified run |
| Amf.AmfTasks.ProcessDisciplined | amf/src/amf-app/amf_n2.cpp:2616-2670 | From the start of the AMF, after the messages of any disciplined run all lookups of a UE agree and the AMF id a context holds leads to nothing else |
| Decimal.KeysAreInjective | amf/src/utils/conversions.cpp:551-556 | Two UE context keys are the same exactly when both ids are |
| Decimal.StoiOfPrinted | amf/src/amf-app/amf_n2.cpp:2897-2898 | Reading a printed number gives it back over the whole range of the result, and fails outside |
| Decimal.StoiSkipsSpace | amf/src/amf-app/amf_n2.cpp:2897-2898 | White space before a number is skipped |
| Decimal.StoiIgnoresRest | amf/src/amf-app/amf_n2.cpp:2897-2898 | What follows a number that fits is ignored |
| NasEnvelope.RoundTrip | amf/src/amf-app/amf_n1.cpp:471-528 | A message ciphered and enveloped under types 2 and 4 passes the check at the other end and deciphers to what was sent, followed under 128-EA1 by the padding to a word |
| NasEnvelope.AcceptedIsProtected | amf/src/amf-app/amf_n1.cpp:483-528 | Every message accepted under these types is the one the other end would build from what is delivered |
| NasEnvelope.AcceptedExactly | amf/src/amf-app/amf_n1.cpp:483-516 | A message in an envelope is delivered exactly when its code is the one of its other octets or there is no integrity algorithm |
| NasEnvelope.NewContextRoundTrip | amf/src/amf-app/amf_n1.cpp:3228-3249 | Type 3 comes back as sent exactly when nothing is ciphered or the key stream is zero under the message |
| NasEnvelope.UnprotectedRoundTrip | amf/src/amf-app/amf_n1.cpp:3215-3219 | Without an integrity algorithm a message goes out as it is and a plain one is delivered as it is |
| NasEnvelope.WritesFit | amf/src/amf-app/amf_n1.cpp:3194-3236 | The encoder's writes stay inside its buffer exactly for messages of up to 4088 octets, or 4089 where no word is padded |
| NasOctets.EncodedOctets | amf/src/amf-app/amf_n1.cpp:3189-3319 | Each octet of an encoded message: header, code under the integrity key of the octets from the sequence number on, sequence number, and the message under the key stream of the ciphering key at the downlink count, or as it is under type 3; the count goes up by one unless refused |
| NasOctets.OpenedOctets | amf/src/amf-app/amf_n1.cpp:483-534 | An enveloped message is delivered exactly when there is no integrity algorithm or its code is the one under the integrity key for its own sequence number and direction, each octet then under the key stream at that number |
| NasOctets.OpenedOtherwise | amf/src/amf-app/amf_n1.cpp:439-482 | A message of another protocol is discarded, type 1 loses its header unchecked, other types are delivered whole |
| NasOctets.SeenOctets | amf/src/amf-app/amf_n1.cpp:3259-3319 | The sequence number that arrives becomes the uplink one and nothing else changes |
| Bytes.XorBits | amf/src/secu_algorithms/nas_enc_int/nas_algorithms.cpp:61-108 | A bit of the result is set exactly when it is set in one of the two octets |
| NasSecurity.SecurityContext.IntegrityProtect | amf/src/amf-app/amf_n1.cpp:3259-3319 | The code is the algorithm's under the integrity key for the message's first octet, zero where it is not implemented, and the uplink sequence number is taken over whatever the algorithm |
| NasSecurity.SecurityContext.Cipher | amf/src/amf-app/amf_n1.cpp:3322-3382 | Ciphering applies the key stream of the full count to the message and its padding |
| NasSecurity.SecurityContext.ApplyStream | amf/src/secu_algorithms/nas_enc_int/nas_algorithms.cpp:61-108 | The key stream applied to a buffer in place |
| NasSecurity.SecurityContext.EncodeProtected | amf/src/amf-app/amf_n1.cpp:3189-3256 | The encoder on its buffer yields the specified message octet by octet, and advances the downlink sequence number unless it refuses |
| NasSecurity.DecodeUplink | amf/src/amf-app/amf_n1.cpp:439-534 | The decoder yields what the specification delivers and takes over the sequence number even of a message it discards |
| NasProcedures.AuthenticationIsExclusive | amf/src/amf-app/amf_n1.cpp:2488-2554 | The two procedures never both run, and an Authentication Request is sent exactly when an event starts authentication while no procedure runs |
| NasProcedures.RunsAreExclusive | amf/src/amf-app/amf_n1.cpp:2557-2738 | The exclusion over any run of responses, failures and retries |
| NasProcedures.SecurityModeBlocks | amf/src/amf-app/amf_n1.cpp:3098-3104 | Nothing but a Security Mode Complete ends the security mode procedure, and until then no Authentication Request is sent |
| NasProcedures.StepRuns | amf/src/amf-app/amf_n1.cpp:2488-2738 | Which of the two procedures runs after each event |
| NasProcedures.StepContext | amf/src/amf-app/amf_n1.cpp:2459-2471 | A context comes with the first vectors, is available only once it is new, and until the next registration |
| NasProcedures.StepReplies | amf/src/amf-app/amf_n1.cpp:2459-2532 | What is sent unprotected: a request, one reject for a refused response, two for a start that is refused |
| NasProcedures.StepProtects | amf/src/amf-app/amf_n1.cpp:2795-2805 | What is sent protected on a context that is not renewed; a Security Mode Command on an available context is refused by the encoder |
| NasProcedures.RenewedContext | amf/src/amf-app/amf_n1.cpp:2749-2798 | A new context is available, holds the algorithms and keys chosen for it and counts from zero, and its Security Mode Command is number zero with the code under the new integrity key |
| NasProcedures.RunKeepsKeys | amf/src/amf-app/amf_n1.cpp:2749-2772 | These four stay over any run that does not renew the context |
| NasProcedures.RunIsNumbered | amf/src/amf-app/amf_n1.cpp:3208-3255 | Over any run, registrations included, in which no authentication renews an unavailable context, message i carries the count the run started with plus i, modulo 256, refused messages not counting, and the overflow stays |
| NasProcedures.NumberedSinceNewContext | amf/src/amf-app/amf_n1.cpp:2749-2798 | From the Security Mode Command on a new context on, up to the next such command, message i carries i modulo 256 |
| NasProcedures.CopiesNumberAlike | amf/src/amf-app/amf_n1.cpp:1050-1065 | Once a service request has copied a security context, over any runs that renew neither, message i of one UE and message j of the other carry the same number exactly when i and j agree modulo 256, under the same keys and overflow |
| NasProcedures.SameNumber | amf/src/amf-app/amf_n1.cpp:3255 | Two messages carry the same number exactly when they are a multiple of 256 apart |
| NasProcedures.CountIsNasCount | amf/src/amf-app/amf_n1.cpp:3329-3345 | The count is the NAS COUNT for the first 256 messages and no others |
| NasTask.UeProcedures.StartAuthenticationProcedure | amf/src/amf-app/amf_n1.cpp:2488-2532 | Authentication starts unless a procedure runs, and is rejected otherwise |
| NasTask.UeProcedures.HandleVectors | amf/src/amf-app/amf_n1.cpp:2459-2485 | A context for a UE without one, then the start of authentication |
| NasTask.UeProcedures.StartSecurityModeControl | amf/src/amf-app/amf_n1.cpp:2735-2805 | The flag is set even without a context; only an unavailable context is made new, with the integrity and ciphering keys and algorithms given and its counts at the start, and its command carries the code under the new integrity key |
| NasTask.UeProcedures.HandleAuthenticationResponse | amf/src/amf-app/amf_n1.cpp:2557-2650 | The running flag is cleared, then security mode control starts or the UE is rejected |
| NasTask.UeProcedures.HandleSynchFailure | amf/src/amf-app/amf_n1.cpp:2668-2701 | Authentication starts again with new vectors |
| NasTask.UeProcedures.HandleNgksiInUse | amf/src/amf-app/amf_n1.cpp:2703-2729 | Authentication starts again on the present context |
| NasTask.UeProcedures.HandleSecurityModeComplete | amf/src/amf-app/amf_n1.cpp:3025-3036 | The flag is cleared and the Registration Accept goes out protected |
| NasTask.UeProcedures.TakeOverSecurity | amf/src/amf-app/amf_n1.cpp:1050-1065 | The copy is a context of its own with the older one's keys and counts and the uplink number that came, and there is none if the older context has none |
| NasTask.UeProcedures.Process | amf/src/amf-app/amf_n1.cpp:2459-3036 | Whatever events the handlers are given one after the other, the two procedures never both run, and the messages sent on a context in use that is not renewed are numbered on from its count |
| KdfInput.FitsExactly | amf/src/amf-app/amf_n1.cpp:2420-2432 | The string fits its 100 octets exactly for names of at most 69 |
| KdfInput.InputIsInjective | amf/src/amf-app/amf_n1.cpp:2420-2432 | Network name, RAND and RES can be told apart in the string |
| KdfInput.InputOctets | amf/src/amf-app/amf_n1.cpp:2420-2432 | FC 0x6B, then name, RAND and RES in this order, each with its length in two octets after it |
| KdfInput.Build | amf/src/amf-app/amf_n1.cpp:2414-2432 | The writes by index build the string of the standard and stay inside the buffer |
| Slices.MatchingIsComplete | amf/src/amf-app/amf_n2.cpp:2815-2829 | The triples visited are exactly the matching ones |
| Slices.MatchingIsOrdered | amf/src/amf-app/amf_n2.cpp:2815-2829 | They come in lexicographic order, each once |
| Slices.CommonIsByTriples | amf/src/amf-app/amf_n2.cpp:2830-2861 | What is added is one item for each matching triple, in that order |
| Slices.GnbSupport.GetCommonPlmn | amf/src/amf-app/amf_n2.cpp:2810-2865 | The nested loops add these items to the old list, which stays the one the NG Setups so far have built, and tell whether one of them has a slice |
| Slices.GetCommonSlices | amf/src/amf-app/amf_n2.cpp:2838-2857 | The slices of a gNB that match configured ones, in the order of the nested loops |
| Nssai.StoredItem | amf/src/amf-app/amf_n2.cpp:2810-2865 | Each item stored is a PLMN advertised in its TA and configured there, with exactly those of its slices that are configured for it |
| Nssai.ItemIsStored | amf/src/amf-app/amf_n2.cpp:2810-2865 | For every PLMN advertised that is configured with its TAC, MCC and MNC there is such an item |
| Nssai.CommonSlicesExactly | amf/src/amf-app/amf_n2.cpp:2838-2857 | A slice is in common exactly when the gNB gave it and a configured slice matches |
| Nssai.ServingGnbs.GetCommonNssai | amf/src/amf-app/amf_n2.cpp:2868-2920 | The S-NSSAIs read from the stored list of the gNB that two lookups find, none if one fails, each PLMN up to the first that cannot be read, and whether there is one |
| Nssai.StoredIsReadable | amf/src/amf-app/amf_n2.cpp:2896-2903 | On a list that NG Setups have built the loop over the slices never ends early |
| Nssai.CommonNssaiExactly | amf/src/amf-app/amf_n2.cpp:2892-2909 | After any NG Setups, whatever is configured at each, an S-NSSAI is read back exactly when it is a slice configured for a PLMN whose TAC, MCC and MNC one of them advertised with a matching slice |
| RegistrationNssai.AllowedOrRejected | amf/src/amf-app/amf_n1.cpp:4519-4572 | Each requested S-NSSAI is in exactly one of Allowed and Rejected, and nothing else is rejected |
| RegistrationNssai.RejectedInOrder | amf/src/amf-app/amf_n1.cpp:4537-4572 | The rejected list follows the order of the request |
| RegistrationNssai.NasSlices.InitializeRegistrationAccept | amf/src/amf-app/amf_n1.cpp:4475-4580 | The Allowed IE holds exactly what an NG Setup of the gNB serving then has offered, the Rejected IE exactly what is requested, or subscribed if nothing is requested, and not offered, in that order; what the NAS context allows is appended to; without a UE context nothing is set |
| RegistrationNssai.NasSlices.TakeOver | amf/src/amf-app/amf_n1.cpp:1076-1082 | A service request replaces what is allowed by what an older NAS context allows, so that it still comes from registrations |
| RegistrationNssai.AllowedWereOffered | amf/src/amf-app/amf_n1.cpp:4519-4534 | After any registrations a NAS context allows exactly what an NG Setup of the gNB serving at one of them had offered |
| RegistrationNssai.NasSlices.ChooseSnssai | amf/src/amf-app/amf_n1.cpp:3628-3697 | The slice of a PDU session, by the order of preference, or none where the UE context is missing when it is needed |
| RegistrationNssai.DefaultSliceWasOffered | amf/src/amf-app/amf_n1.cpp:3644-3652 | Once a registration had anything in common, a session that names no slice gets the first S-NSSAI of the first such registration, however many follow, and the gNB serving then had offered it |
| RegistrationNssai.DefaultSliceOtherwise | amf/src/amf-app/amf_n1.cpp:3653-3697 | Before, it gets a default subscribed slice, else one the gNB serving now has offered, or the default one where it has offered none |
| SubscribedNssai.CheckSubscribedNssai | amf/src/amf-app/amf_n1.cpp:4900-5014 | The loops succeed exactly when the last configured entry that applies serves all that is needed |
| SubscribedNssai.CheckByValue | amf/src/amf-app/amf_n1.cpp:4912-5013 | The same by values: what is needed is requested and subscribed, or all default subscriptions; with unique entries it is plain existence |
| SmfFanout.UeSessions.TriggerRelease | amf/src/amf-app/amf_app.cpp:1474-1535 | Release is all or nothing: every session goes exactly if some answer was 200 or 204 |
| SmfFanout.UeSessions.TriggerUpDeactivation | amf/src/amf-app/amf_app.cpp:1538-1619 | Each session changes by its own answer alone |
| SmfFanout.UeSessions.TriggerUpActivation | amf/src/amf-app/amf_app.cpp:1622-1690 | The same for activation, with the answer read as an 8-bit code |
| SmfFanout.ActivationStatus | amf/src/utils/conversions.cpp:403-426 | Which statuses the two readings take for a success, and when they differ |
| Promises.RunIsAtMostOnce | amf/src/amf-app/amf_app.cpp:1429-1471 | Over any run each promise is set at most once |
| Promises.StepSets | amf/src/amf-app/amf_app.cpp:1429-1471 | A trigger sets the promise pending under its key, takes it out and leaves the others |
| Promises.StepAdds | amf/src/amf-app/amf_app.cpp:1406-1427 | A promise is pending under the low 32 bits of its id unless another one is |
| Promises.AddHoldsAll | amf/src/amf-app/amf_app.cpp:1406-1427 | Adding keeps the registry complete exactly when the truncated id is not taken |
| Promises.RunHoldsAll | amf/src/amf-app/amf_app.hpp:553-555 | While the generator stays below 2^32 the registry holds exactly the ids added and not triggered |
| Promises.PromiseRegistry.Process | amf/src/amf-app/amf_app.cpp:1406-1471 | Whatever is added and triggered, no promise is set twice, and below 2^32 ids the registry is left with exactly the promises added and not set |
| NrfLoop.RunConserves | amf/src/amf-app/amf_app.cpp:859-948 | Requests in flight and timers armed are as many as the registrations started less the heartbeats stopped |
| NrfLoop.AnswersLead | amf/src/amf-app/amf_app.cpp:888-948 | What each answer of the NRF leads to: a new heartbeat timer, a retry timer, a new registration, or the removal of the timer armed last |
| NrfLoop.TimersLead | amf/src/amf-app/amf_app.cpp:859-885 | What timeouts, the start, a configuration update and the stop lead to |
| NrfLoop.NeverSilent | amf/src/amf-app/amf_app.cpp:888-948 | Before a deregistration succeeds the loop never falls silent, whatever the NRF answers |
| NrfLoop.DeregistrationSilences | amf/src/amf-app/amf_app.cpp:912-932 | A successful deregistration silences the loop exactly when the timer it removes is all it waits for |
| NrfLoop.DeregistrationCanMiss | amf/src/amf-app/amf_app.cpp:920-921 | With one configuration update a successful deregistration leaves a heartbeat going |
| NrfLoop.NrfClient.Process | amf/src/amf-app/amf_app.cpp:859-948 | Whatever events the handlers are given, requests in flight and timers armed change by the registrations started less the heartbeats stopped, and a loop that waits goes on waiting until a deregistration succeeds |
| EventSubscriptions.DeleteAsIntended | amf/src/amf-app/amf_app.cpp:1202-1219 | A delete removes the least entry of its subscription and tells whether one existed in exactly these cases |
| EventSubscriptions.GoneAfterDeletes | amf/src/amf-app/amf_app.cpp:1085-1113 | A subscription with k distinct event types is gone after exactly k deletes, and the others are as before |
| EventSubscriptions.EventExposure.HandleSubscription | amf/src/amf-app/amf_app.cpp:1086-1113 | One entry for each event type under an id of 32 bits that has no entry |
| EventSubscriptions.EventExposure.HandleDelete | amf/src/amf-app/amf_app.cpp:1168-1180 | An id that cannot be read deletes nothing; any other is reduced to 32 bits and deleted as above |
| EventSubscriptions.EventExposure.RemoveSubscription | amf/src/amf-app/amf_app.cpp:1211-1229 | The walk in key order removes the first entry whose id matches in its low eight bits |

## Left out

- SCTP, HTTP, MySQL, delivery between tasks, logging, statistics and real time: a message handled, sent or answered and a timer armed or fired are all that is modelled.
- ASN.1 and NAS information elements, Milenage, key derivation functions, SHA-256, SNOW 3G and AES: the message authentication code and the key stream are parameters (`Crypto`), and so is the reading of an SD (`SdReader`).
- Handlers that touch none of the modelled indexes (paging, PDU session resources, radio capability, rerouting), the target-AMF N1 notification, and the implicit deregistration timeout.
- The context a handler may have to build comes with its message (`built`, `newObject`), so that the specification can name it; it has just been constructed and no index knows it.
- Contexts hold only the fields the modelled handlers read or write. The SUPI to UE context index of the APP task is not modelled.
- Handlers run one at a time; two tasks inside their handlers at once are not modelled. Waits for the SMF within a handover handler change no index and are left out there.
- Whether an uplink message can be read is a parameter of the index model (`readable`) and computed in `NasSecurity.DecodeUplink`.
- The service request that comes without a security context (amf_n1.cpp:843) is not modelled.
- NasSecurity.SecurityContext.Cipher: only EA0 to EA2, because the other cases of the switch yield no output; integrity algorithms above 2 are modelled as the code has them, with a zero code.
- NasSecurity.DecodeUplink: a protected message has at least seven octets; the code does not check this before it reads them.
- NasSecurity.SecurityContext.EncodeProtected: the message fits the buffer; what the code does to a longer one is undefined.
- KdfInput.Build: names longer than 69 octets, for which what the code writes past its buffer is undefined (`FitsExactly`).
- Promises.PromiseRegistry.Process: one registry of the three, which differ in the type of the answer; ids generated for the others are an event of the run.
- EventSubscriptions.EventExposure.HandleSubscription: an id is left to issue; the code searches forever once all 2^32 have been issued.
- Amf.AmfTasks.ProcessDisciplined: holds for runs in which the 32-bit id generator does not come round.
- The JSON configuration, whose conversion is not a round trip, and small finite tables.
