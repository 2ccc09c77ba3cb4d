# SenseMate firmware: a verified model of the gossip-replicated table

Floodgate sensors and handhelds write signed, numbered and clock-stamped records, broadcast them over BLE, and merge
what they hear, the last writer winning. This project models the layers that make this work (hybrid logical clock,
tables over a key/value store, query engine, CBOR codec, signatures and identity gossip) and proves what the layers
promise one by one and what the network promises as a whole.

Each class is proved against a function on values: `TablesCtx` against `Merge` and `Put`, `HlcCtx` against `Receive`
and `Issue`, the decoder against `DecodeRecord`, the iterator against `Selected`, the identity service against
`LearnOn`. Each of these functions is pinned in turn by a statement that does not use it: a reference rule, the bytes
written out, a grammar of all bytes accepted, or what is stored and what verifies. The network is a transition system
built from exactly these functions, so its theorems are about the code's steps.

## Layout

| file | content |
|---|---|
| Types, Sequences, Keys | records, timestamps, node ids; parts of a sequence; ten-byte store keys |
| Hlc | the clock in 32-bit arithmetic, the published receive rule, the rules over unbounded integers |
| Store, Tables, Locking | key/value store; four-part storage, put, merge and subscribers; threads under the locks |
| MergeOrder | when the order of merges matters |
| Query, Gossip | direct and compiled queries; table iterator and broadcast pass |
| Cbor, Wire | RFC 8949 items, encoder and cursor; a grammar of all bytes that read as items |
| Layout, RecordCodec, IdentityCodec | messages byte for byte and item for item; their encoders and decoders |
| Crypto, IdentityStore | key rings, ideal signatures; learning, persisting and reloading identities |
| Reception | what a node does with a BLE record message and with a LoRaWAN downlink packet |
| Network | nodes, steps, runs; trust over all runs |
| Drift | no clock drift and no arithmetic wrap over all runs |
| Ordering, Guarantees | invariants and results for runs whose counters do not overflow |
| Propagation | what broadcast passes achieve at listeners, whatever else happens meanwhile |

## The network model

A state holds every node (table context, raw clock, keys and identity files), and the set of all signatures ever made.
Messages are not a separate state component: a delivery hands a node *any* byte string at *any* time, so loss,
duplication, reordering, corruption and invention of messages are all included. Signatures are ideal: a signature
verifies exactly if its key made it over exactly this content (a node's signed content is the header and the data of
the record, not the wire bytes). The steps are:

- `Tick`: all raw clocks advance together, as long as none would leave 32 bits.
- `Create`: a node draws a sequence number, reads the clock, signs, and stores its own report, observation or
  encounter. Commands and jobs are handed out without being stored; this part stands for the party that writes them,
  which the repository does not contain, and follows the documented rule that sequence numbers are unique per writer.
- `Deliver`, `Downlink`, `Identify`: bytes arrive over BLE as a record, over LoRaWAN, or over BLE as an identity
  response, for which the key store may refuse the key and the file system may fail in any of its ways.
- `Certify`: the root signs an identity; for the id of a node or its own only with the right key.
- `SignOutside`: any other party signs anything with a key of its own. Only a party whose key the root or a setup
  stands for is assumed to stamp its records no later than the furthest clock of the network.

A run is the list of its states with the steps between them (`Network.IsRun`); results speak about any state of any
run.

`heard`, `past` and `causes` are observation variables: the records a node put or could verify, and causal pasts. No
step depends on them. A run is *quiet* if none of its steps overflows a counter: no put draws the number after 2^64 -
1, no put that reads the clock and no delivery of a record that is taken over increments a logical part of 2^32 - 1.
Results about trust, locality, drift and 32-bit arithmetic hold for all runs; results about numbering, causality and
versions for quiet runs within one boot. That the hypotheses can be met, those of the strongest results included, is
shown by `Propagation.ReportRunExists`: a run in which one of two nodes puts a report and the other hears it as the
complete broadcast pass it is.

## What the proofs brought to light

- The open question in the clock code (is the offset update always safe?) has the answer yes: a catch-up never moves
  the adjusted clock past the remote timestamp, and over every run no clock passes the furthest raw clock
  (`Hlc.CatchUpAdjustedClock`, `Drift.NoNetworkDrift`). The offset is overwritten although the adjusted clock already
  contained the old one, so the adjusted clock lands on the remote timestamp minus one only from offset 0; from offset
  2^32 - 1, which one catch-up can leave behind, it lands on the timestamp itself (`Hlc.CatchUpFromMinusOne`).
- Direct and compiled evaluation of a table query differ; `Query.StoreQueryAgreesIff` gives the exact set of queries
  for which they do not, `Query.StoreQueryIsSoundIff` the exact set for which the store yields no false hits. An
  involved id of zero makes the store yield records that do not involve it.
- The broadcast loop passes one variable as signature capacity and as signature length, so a record whose signature is
  a byte longer than its predecessor's ends the pass: a pass is complete exactly if signature lengths do not grow in
  visit order (`Gossip.PassIsCompleteIff`, `Gossip.LongerSignatureIsNeverReached`).
- Records from the LoRaWAN downlink are decoded without a signature buffer and so never pass verification; no downlink
  packet changes a node (`Reception.DownlinkNeverVerifies`, `Network.DownlinkChangesNothing`).
- The encoder emits timestamp parts equal to 2^32 - 1, the decoder refuses them (`RecordCodec.RecordRoundTrip`).
- The version check and the write of a merge are two critical sections. A merge replaces only an older record if and
  only if its record is newer than the latest one put under its key in between (`Locking.MergeIsSafeIff`); any two
  signed records under one key can be merged by two threads so that the older one stays
  (`Locking.InterleavedMergesCanGoBack`).
- A put draws its number and its timestamp in two critical sections. Of two records of a node, however many puts and
  merges run at once, the one with the larger number has the later timestamp if and only if it drew that later too
  (`Locking.PutOrdersAgreeIff`). Reads, in contrast, are never torn as long as no write fails.
- Identity files are named by the last two bytes of an id, so of two ids that agree there the one learned last
  overwrites the other's file (`IdentityStore.CollidingIdsAreLost`); a certified identity of a device that is neither
  gate nor mate is used at once but reported as failed and lost at the next boot
  (`IdentityStore.OtherDevicesAreLost`). `IdentityStore.ReloadAgreesIff` says that, while storage works, these are
  the only ways to lose a key.
- Of two records under one key with the same number and timestamp the one merged first stays, so nodes that hear them
  in different orders differ until a newer one arrives (`Guarantees.TiedRecordsDiverge`). That is the only way: the
  order of merges is irrelevant if and only if no two different records are both newest under their key
  (`MergeOrder.MergesCommuteIff`, `MergeOrder.OrderIsIrrelevantIff`).
- A store write that fails after the header was written leaves a record that counts as stored: the same record is
  turned down from then on, and if it was the first under its key no read into a signature buffer succeeds
  (`Locking.TornPutIsNotRepaired`, `Locking.TornPutCannotBeRead`). A failed merge calls the subscribers all the same,
  contrary to a failed put. Likewise a failed write of an identity file is not made up for when the response is heard
  again (`IdentityStore.FailedWriteIsNotRepeated`).
- When the table iterator fails to initialise, the code sets the error state and then overwrites it with the run state
  (`tables.c` lines 486-493). The store iterator's initialisation cannot fail, so the model has no such branch.

## Model

Paths are relative to the root of the repository.

| member | source | states |
|---|---|---|
| Drift.NoNetworkDrift | nodes/firmware/custom-modules/hybrid_logical_clock/hybrid_logical_clock.c:69-98 | in every state of every run, no node's raw or adjusted clock, no clock's physical part and no timestamp that could ever be accepted exceeds the furthest raw clock, which stays that of the node furthest at the start |
| Drift.ClocksAreIntegers | nodes/firmware/custom-modules/hybrid_logical_clock/hybrid_logical_clock.c:69-97 | in every reachable state the offset is at least -1 and at most the local physical part, the adjusted clock is the exact sum, creating or accepting computes in 32 bits what unbounded integers give, and a catch-up lands on the remote timestamp minus one minus the old offset and never above it |
| Drift.RunIsBounded | nodes/firmware/custom-modules/hybrid_logical_clock/hybrid_logical_clock.c:53-138 | the invariant behind the two, by induction over runs |
| Hlc.Compare | nodes/firmware/custom-modules/hybrid_logical_clock/hybrid_logical_clock.c:41-51 | 1, -1 or 0 exactly for above, below and equal in the lexicographic order |
| Hlc.HlcCtx.Init | nodes/firmware/custom-modules/hybrid_logical_clock/hybrid_logical_clock.c:13-39 | clock at the reading, counter and offset zero; unchanged and an error code when the clock cannot be read |
| Hlc.HlcCtx.UpdateWithRemoteTimestamp | nodes/firmware/custom-modules/hybrid_logical_clock/hybrid_logical_clock.c:53-107 | the whole new clock state is that of the receive rule; unchanged on a clock error |
| Hlc.HlcCtx.GetCurrentTimestamp | nodes/firmware/custom-modules/hybrid_logical_clock/hybrid_logical_clock.c:109-138 | the whole new clock state is that of the issue rule; unchanged on a clock error |
| Hlc.ReceiveIsTheReferenceRule | nodes/firmware/custom-modules/hybrid_logical_clock/hybrid_logical_clock.c:71-98 | for all inputs the branches compute the maximum of the three physical parts and the max-plus-one or reset rule for the counter |
| Hlc.ReceiveIsStrictlyAboveBoth | nodes/firmware/custom-modules/hybrid_logical_clock/hybrid_logical_clock.c:71-98 | the result is above the old local and the remote timestamp if and only if the counter to increment is not at its end |
| Hlc.IssueIsStrictlyAboveLocal | nodes/firmware/custom-modules/hybrid_logical_clock/hybrid_logical_clock.c:124-131 | a new timestamp is above the old one if and only if the physical clock moved or the counter is not at its end |
| Hlc.CatchUpAdjustedClock | nodes/firmware/custom-modules/hybrid_logical_clock/hybrid_logical_clock.c:89-98 | after a catch-up the adjusted clock is the remote physical part minus one minus the old offset, never above the remote, and the remote minus one only from offset 0 |
| Hlc.CatchUpFromMinusOne | nodes/firmware/custom-modules/hybrid_logical_clock/hybrid_logical_clock.c:89-98 | offset 2^32 - 1 is reached from offset 0, and the catch-up after that lands on its timestamp itself |
| Hlc.ReceiveRefinesIntegers | nodes/firmware/custom-modules/hybrid_logical_clock/hybrid_logical_clock.c:69-98 | accepting keeps the clock sane and equals the rule over unbounded integers |
| Hlc.IssueRefinesIntegers | nodes/firmware/custom-modules/hybrid_logical_clock/hybrid_logical_clock.c:124-131 | issuing keeps the clock sane and equals the rule over unbounded integers |
| Hlc.LessIsStrictTotalOrder | nodes/firmware/custom-modules/hybrid_logical_clock/clock_operations.c:6-32 | timestamps are strictly totally ordered and comparison is antisymmetric |
| Keys.KeysAreInjective | nodes/firmware/custom-modules/tables/keys.c:22-126 | two records share a header key if and only if they agree on what the key is meant to identify |
| Keys.KindsAreDisjoint | nodes/firmware/custom-modules/tables/keys.c:128-182 | the four keys of a record are distinct and no two records share any |
| Keys.KeyLayout | nodes/firmware/custom-modules/tables/keys.c:22-182 | the ten bytes of every record's key and of its three companions, written out |
| Keys.GetRecordKey | nodes/firmware/custom-modules/tables/records/records.c:87-121 | the byte-wise construction leaves the record's key in the caller's buffer |
| Store.KeyMatchesQuery | nodes/firmware/custom-modules/store_service/store_service.c:62-89 | the loop decides equality of all bits under the mask, or of whole keys without one |
| Store.MaskedIff | nodes/firmware/custom-modules/store_service/store_service.c:80-86 | a key byte matches under a mask byte if and only if it agrees with the pattern in every bit the mask has |
| Store.SelectedIsExactlyTheMatches | nodes/firmware/custom-modules/flashdb_store_service/flashdb_store_service.c:190-228 | an iteration yields exactly the matching keys of a listing, each once |
| Store.SelectedInOrder | nodes/firmware/custom-modules/flashdb_store_service/flashdb_store_service.c:190-228 | in the order of the listing |
| Store.StoreIterator.Next | nodes/firmware/custom-modules/flashdb_store_service/flashdb_store_service.c:170-232 | the filter loop yields the first pending match and leaves the rest pending |
| Tables.TablesCtx.PutRecordInStore | nodes/firmware/custom-modules/tables/records/records.c:198-251 | the four writes replace exactly one record of the table; if one fails, so does the call, and exactly the parts written before it are in the store |
| Tables.TablesCtx.GetRecordFromStore | nodes/firmware/custom-modules/tables/records/records.c:253-319 | a read gives the stored record, with its signature if a buffer is given, and fails exactly if there is none or its signature does not fit |
| Tables.TablesCtx.GetRecordHeaderFromStore | nodes/firmware/custom-modules/tables/records/records.c:321-338 | the header stored under the record's key, if any |
| Tables.FourWritesAreOneUpdate | nodes/firmware/custom-modules/tables/records/records.c:211-246 | after the four writes the store stands for the table with this one record replaced |
| Tables.PartsDetermineTheTable | nodes/firmware/custom-modules/tables/records/records.c:198-319 | a store content stands for one table only, up to absent versus empty signatures |
| Tables.TablesCtx.VerifyRecord | nodes/firmware/custom-modules/tables/records/records.c:174-196 | succeeds exactly for a signature by the writer's key over header and data |
| Tables.TablesCtx.PutOwnRecord | nodes/firmware/custom-modules/tables/tables.c:94-314 | sequence, clock, signature, store, table and notified subscribers after a put, in every outcome including clock, signing and store errors, by what keys are on file |
| Tables.TablesCtx.MergeRecord | nodes/firmware/custom-modules/tables/tables.c:316-408 | an encounter changes nothing; else each flag, and when a record is taken over, by what is stored and what verifies; clock, store, table and notified subscribers in every outcome including clock and store errors |
| Tables.MergeReports | nodes/firmware/custom-modules/tables/tables.c:316-408 | the same of the merge rule that the network's steps use |
| Tables.PutReports | nodes/firmware/custom-modules/tables/tables.c:94-180 | number, timestamp, key and record of a put in the rule that the network's steps use |
| Tables.TablesCtx.CheckAndCallMemos | nodes/firmware/custom-modules/tables/tables.c:44-73 | every subscriber whose query the record matches is called as often as it subscribed, no other at all, in the order of subscription |
| Tables.TablesCtx.RemoveMemo | nodes/firmware/custom-modules/tables/tables.c:577-589 | takes out one subscriber and keeps the order of the others, or fails if there is none |
| Tables.SubscribersAreCalledOnce | nodes/firmware/custom-modules/tables/tables.c:44-73 | the same of the list of subscribers that puts and merges report |
| Tables.SubscribersAreTheMatches | nodes/firmware/custom-modules/tables/tables.c:44-73 | a subscriber is called if and only if its query matches the record directly |
| Tables.NextRecordIsNewestIff | nodes/firmware/custom-modules/tables/tables.c:80-114 | a node's next record is newer than everything numbered so far if and only if the 64-bit counter does not wrap |
| Locking.PutOrdersAgreeIff | nodes/firmware/custom-modules/tables/tables.c:80-114 | however any number of puts and merges interleave, of two records of a node the one with the larger number counts as newer, and has the later timestamp if and only if its put also drew its timestamp later |
| Locking.LockedOperationsAreAtomic | nodes/firmware/custom-modules/tables/records/records.c:211-338 | however threads interleave single store accesses, every finished put, get and header read answers as if operations happened one at a time |
| Locking.NoTornRead | nodes/firmware/custom-modules/tables/records/records.c:253-319 | body, length and signature of every read stem from the one latest put under its key |
| Locking.MergeIsSafeIff | nodes/firmware/custom-modules/tables/tables.c:345-399 | in every interleaving a merge replaces only an older record if and only if its record is newer than the latest one put under its key between its header read and its put |
| Locking.DecisionHoldsIfUndisturbed | nodes/firmware/custom-modules/tables/tables.c:345-399 | in particular if no other put under the key came between |
| Locking.InterleavedMergesCanGoBack | nodes/firmware/custom-modules/tables/tables.c:345-399 | for any two signed records under one key, two threads can merge them so that the older one ends up stored |
| Locking.TornPutIsNotRepaired | nodes/firmware/custom-modules/tables/records/records.c:213-246 | when a write of a record fails after its header was written, a merge decides to write another record under the key if and only if that is newer, so never the same one again |
| Locking.TornPutCannotBeRead | nodes/firmware/custom-modules/tables/records/records.c:253-319 | and if nothing was stored under the key before, every read fails, except one without signature buffer when only the signature is missing |
| MergeOrder.MergesCommuteIff | nodes/firmware/custom-modules/tables/tables.c:345-399 | two records can be merged into every table in either order with the same result if and only if their keys differ, they are equal, or one is newer |
| MergeOrder.TiedKeepTheFirst | nodes/firmware/custom-modules/tables/tables.c:361-379 | of two records with the same key, number and timestamp the one merged first stays, in both orders and for every table |
| MergeOrder.OrderIsIrrelevantIff | nodes/firmware/custom-modules/tables/tables.c:345-399 | for every set of records, the table after merging them is the same for every order and repetition if and only if no two different ones are both newest under their key |
| MergeOrder.MergedAllIsNewest | nodes/firmware/custom-modules/tables/tables.c:345-399 | after merging records one by one the table holds under each key a newest of them |
| Query.StoreQueryAgreesIff | nodes/firmware/custom-modules/tables/tables.c:430-469 | running a query in the store and evaluating it directly agree on all records if and only if the query lies in a stated region |
| Query.StoreQueryIsSoundIff | nodes/firmware/custom-modules/tables/tables.c:430-469 | the store yields only records that match the query directly if and only if the query lies in a stated region |
| Query.CompiledMeaning | nodes/firmware/custom-modules/tables/tables.c:444-460 | what the key pattern and bit mask ask of a record in terms of the ids in its key |
| Query.InvolvedQueryIsSoundAndMisses | nodes/firmware/custom-modules/tables/records/records.c:368-469 | with a nonzero involved id and no writer the store yields only matches and misses exactly those involving the id as writer, command gate or job gate |
| Query.ZeroInvolvedIdIsUnsound | nodes/firmware/custom-modules/tables/tables.c:457-460 | a query with involved id zero for which the store yields a record not involving it |
| Wire.ReadArrayIff | nodes/firmware/custom-modules/cbor_serialization/cbor_serialization.c:643-725 | a buffer reads as some items if and only if it starts with an array of them, in one of the forms of a grammar written out byte by byte: any argument width, definite or indefinite lengths, chunked strings |
| Wire.ReadArrayOfArray | nodes/firmware/custom-modules/cbor_serialization/cbor_serialization.c:267-334 | reading an encoded array gives back its items, whatever follows |
| RecordCodec.RecordRoundTrip | nodes/firmware/custom-modules/cbor_serialization/decode_record.c:42-490 | decoding an encoded record gives the record and signature, with or without a signature element, exactly if both clock parts are below 2^32 - 1 and the signature fits |
| RecordCodec.DecodesIff | nodes/firmware/custom-modules/cbor_serialization/decode_record.c:15-490 | for every buffer and every room for a signature, the decoder gives a record if and only if a message that says it stands at the start: version, message type, record type and state as simple values or integers, every other element as laid out, the signature in one piece or cut |
| RecordCodec.EveryFormDecodesAlike | nodes/firmware/custom-modules/cbor_serialization/decode_record.c:15-490 | whatever form says a serializable record decodes exactly as the form the encoder writes |
| RecordCodec.BackendCommandIsTaken | server/backend/src/main/java/com/riot/matesense/service/DownlinkService.java:41-65 | every gate command in the bytes the backend writes, all small numbers being integers, decodes to this command |
| RecordCodec.EncodingIsInjective | nodes/firmware/custom-modules/cbor_serialization/cbor_serialization.c:267-334 | two serializable records have the same wire bytes if and only if they are equal, whatever their timestamps |
| RecordCodec.EncodedSize | nodes/firmware/custom-modules/cbor_serialization/cbor_serialization.c:17-334 | the exact size of a message from the sizes of its variable parts |
| RecordCodec.EncodedRecordFits | nodes/firmware/custom-modules/mate_ble/mate_ble.c:69-72 | at most 121 of 128 bytes with an 80-byte signature, and exactly when 121 |
| RecordCodec.EncodedBytes | nodes/firmware/custom-modules/cbor_serialization/cbor_serialization.c:17-334 | the encoding of every record, byte for byte, and that exactly reports, observations, commands and jobs with an open or closed state have one |
| RecordCodec.SerializeRecord | nodes/firmware/custom-modules/cbor_serialization/cbor_serialization.c:267-339 | succeeds exactly if the record has such bytes and they fit, writes exactly these bytes and nothing after them |
| RecordCodec.SerializeRecordNoSig | nodes/firmware/custom-modules/cbor_serialization/cbor_serialization.c:267-344 | the same without a signature |
| RecordCodec.DeserializeRecord | nodes/firmware/custom-modules/cbor_serialization/cbor_serialization.c:643-725 | the cursor-based decoder gives a record, on every input, if and only if a message that says it stands there, in any form |
| Gossip.TableIterator.InitStoreIterator | nodes/firmware/custom-modules/tables/tables.c:430-469 | search key and mask are the compiled query and all its matches are pending |
| Gossip.TableIterator.Next | nodes/firmware/custom-modules/tables/tables.c:471-548 | the state loop yields the record under the next match and ends for good at the first that cannot be read |
| Gossip.SendQueryMatches | nodes/firmware/custom-modules/mate_ble/mate_ble.c:484-505 | a pass terminates and broadcasts exactly the messages of the keys it visits, in order |
| Gossip.OneMessageEach | nodes/firmware/custom-modules/mate_ble/mate_ble.c:484-505 | for the keys a pass visits, one message for each record that can be broadcast, in visiting order, and nothing else |
| Gossip.PassIsCompleteIff | nodes/firmware/custom-modules/mate_ble/mate_ble.c:491-504 | a pass visits a front part of the matches, and all of them if and only if signature lengths do not grow in visit order |
| Gossip.CompletePassVisitsEachMatchOnce | nodes/firmware/custom-modules/mate_ble/mate_ble.c:484-505 | a complete pass visits exactly the stored records the query matches, each once |
| Gossip.PassVisitsDirectMatches | nodes/firmware/custom-modules/mate_ble/mate_ble.c:484-505 | where both evaluations agree, a complete pass visits exactly the stored records that match the query directly, each once |
| Gossip.LongerSignatureIsNeverReached | nodes/firmware/custom-modules/mate_ble/mate_ble.c:491-504 | one byte more than the predecessor's signature already ends a pass |
| IdentityCodec.EncodedSizes | nodes/firmware/custom-modules/cbor_serialization/cbor_serialization.c:368-555 | identities are always 40 bytes, signed identities 125, identity messages 127 |
| IdentityCodec.IdentityBytesWritten | nodes/firmware/custom-modules/cbor_serialization/cbor_serialization.c:368-555 | the three encodings, byte for byte |
| IdentityCodec.IdentityIff | nodes/firmware/custom-modules/cbor_serialization/cbor_serialization.c:1023-1071 | a buffer decodes to an identity if and only if it starts with one, in any form |
| IdentityCodec.SignedIff | nodes/firmware/custom-modules/cbor_serialization/cbor_serialization.c:1073-1121 | the same for signed identities |
| IdentityCodec.IdMessageIff | nodes/firmware/custom-modules/cbor_serialization/cbor_serialization.c:795-876 | the same for identity messages, with version and type as simple values or integers |
| IdentityCodec.IdentityRoundTrips | nodes/firmware/custom-modules/cbor_serialization/cbor_serialization.c:727-1121 | each of the three decoders undoes its encoder |
| IdentityCodec.DeserializeIdMessage | nodes/firmware/custom-modules/cbor_serialization/cbor_serialization.c:795-876 | the stepwise decoder computes the specified decoding on every input, arrays of indefinite length included |
| Crypto.CredentialManager.GetKey | nodes/firmware/custom-modules/credential_manager/credential_manager.c:37-75 | the key on file for the pair of type and id, and the length reported for it, for a size query, for a short buffer and for a missing key |
| Crypto.CredentialManager.AddKey | nodes/firmware/custom-modules/credential_manager/credential_manager.c:77-102 | one entry of one ring changes and the other ring does not; if the store refuses the key, adding fails and neither changes |
| Crypto.CredentialManager.DeleteKey | nodes/firmware/custom-modules/credential_manager/credential_manager.c:104-127 | one entry of one ring goes and the other ring does not change; deleting an absent key fails |
| Crypto.CoseService.Sign | nodes/firmware/custom-modules/cose_crypto_service/cose_crypto_service.c:24-127 | result, reported length and signature for a size query, a short buffer and a real call; a signature is made exactly when both keys are on file and it is handed out |
| Crypto.CoseService.Verify | nodes/firmware/custom-modules/cose_crypto_service/cose_crypto_service.c:129-210 | accepts exactly a signature naming the expected id and made with the key on file for it |
| IdentityStore.FileNameIs | nodes/firmware/custom-modules/identity_store/identity_store.c:370-388 | gates and mates, and no other device, have a file, named after the kind and the decimal numeral of the last byte of the id |
| IdentityStore.FileNamesCollideIff | nodes/firmware/custom-modules/identity_store/identity_store.c:370-388 | two gates or mates share a file name if and only if the last two bytes of their ids agree |
| IdentityStore.IdentityService.WriteFile | nodes/firmware/custom-modules/identity_store/identity_store.c:34-57 | result and every byte of the file for an open or write that fails or stops early; an overwrite without truncation keeps a longer old tail |
| IdentityStore.WritingIsBytewise | nodes/firmware/custom-modules/identity_store/identity_store.c:34-57 | and no other file changes |
| IdentityStore.ReadIdentityIff | nodes/firmware/custom-modules/identity_store/identity_store.c:311-360 | a file reads back as an identity if and only if it has at most 256 bytes and starts with a signed identity that holds it, in any form |
| IdentityStore.IdentityService.AddSignedPublicIdentity | nodes/firmware/custom-modules/identity_store/identity_store.c:362-397 | persists a gate's or mate's identity as far as the file system does, and fails for any other without touching a file |
| IdentityStore.IdentityService.HandleIdResponse | nodes/firmware/custom-modules/mate_ble/mate_ble.c:660-723 | result, keys and files after any identity response, including those the key store or the file system fails on; success only for an identity the root signed |
| IdentityStore.LearnOnReports | nodes/firmware/custom-modules/mate_ble/mate_ble.c:660-723 | for an identity the root signed: success exactly if its key was known or both stores took it, and what changes; for anything else: failure and no change |
| IdentityStore.FailedWriteIsNotRepeated | nodes/firmware/custom-modules/mate_ble/mate_ble.c:683-722 | a certified response whose file write fails or stops early: the key is in use, and hearing it again succeeds at once and leaves the file as it is |
| IdentityStore.IdentityService.LoadIdentities | nodes/firmware/applications/senseGate/credential_manager_setup.c:98-115 | installs the stored identities over the keys present, one after the other in listing order, skipping every file that cannot be read |
| IdentityStore.LoadAllTakesTheLast | nodes/firmware/applications/senseGate/credential_manager_setup.c:98-115 | of the files for an id that can be read the last one listed decides, whatever files cannot be read |
| IdentityStore.LoadAllKeepsOthers | nodes/firmware/applications/senseGate/credential_manager_setup.c:98-115 | an id for which no file can be read keeps its key |
| IdentityStore.ReloadAgreesIff | nodes/firmware/custom-modules/identity_store/identity_store.c:311-397 | after any run of identity responses, none of which storage failed on, the files read back as exactly the learned keys if and only if all learned ids are gates or mates distinct in their last two bytes |
| IdentityStore.OtherDevicesAreLost | nodes/firmware/custom-modules/identity_store/identity_store.c:370-380 | one certified response of any device that is neither gate nor mate: key in use, failure reported, no file, and the files no longer agree with the learned keys |
| IdentityStore.CollidingIdsAreLost | nodes/firmware/custom-modules/identity_store/identity_store.c:370-388 | two certified responses of any two gates or mates equal in the last two id bytes: both keys in use, one file, holding the later identity only |
| IdentityStore.RebootRestoresKeys | nodes/firmware/custom-modules/identity_store/identity_store.c:311-360 | under that condition reloading over the setup keys, in any listing order, gives the keys in use before |
| Reception.HandleRecord | nodes/firmware/custom-modules/mate_ble/mate_ble.c:584-658 | result, flags, event and table context after any BLE record message: a handheld notes the encounter with a mate exactly if the record is of a third party and verifies or is no news |
| Reception.EncounterIsNoted | nodes/firmware/custom-modules/mate_ble/mate_ble.c:590-656 | number, timestamp, key and data of the encounter, and that nothing is filed if it cannot be signed |
| Reception.HearReports | nodes/firmware/custom-modules/mate_ble/mate_ble.c:600-636 | result, flags and table after a message on a node that notes no encounter, by what is stored and what verifies |
| Reception.HandleDownlink | nodes/firmware/custom-modules/mate_lorawan/mate_lorawan.c:326-375 | a downlink packet leaves the table context as it was; all flags, rejected exactly if it would have been newer |
| Reception.DownlinkNeverVerifies | nodes/firmware/custom-modules/mate_lorawan/mate_lorawan.c:338-356 | no packet decoded without a signature buffer passes verification, whoever signed it |
| Network.DownlinkChangesNothing | nodes/firmware/custom-modules/mate_lorawan/mate_lorawan.c:326-375 | the downlink step is the identity on every node |
| Network.ForeignRecordsAreTrusted | nodes/firmware/custom-modules/mate_ble/mate_ble.c:660-723 | over every run, every stored record carries a signature over exactly itself under a key installed at setup or root-certified for its writer, and under the right key if the writer is a node |
| Network.EncountersStayLocal | nodes/firmware/custom-modules/tables/tables.c:333-338 | over every run, every encounter in a table was written by that node and every record lies under its own key |
| Network.KeysOfNodesAreRight | nodes/firmware/custom-modules/mate_ble/mate_ble.c:671-714 | over every run, no identity response makes a node use a wrong key for another node or the root |
| Network.RunIsSafe | nodes/firmware/custom-modules/cose_crypto_service/cose_crypto_service.c:160-202 | the invariant behind the three, by induction over runs |
| Ordering.RunIsOrdered | nodes/firmware/custom-modules/tables/tables.c:80-408 | the invariant of quiet runs: numbering, timestamps, causal pasts and newest records, by induction |
| Guarantees.SequenceOrderIsTimeOrder | nodes/firmware/custom-modules/tables/tables.c:80-114 | a writer and a sequence number identify at most one record network-wide, and sequence order is timestamp order (for puts one at a time; `Locking.PutOrdersAgreeIff` says when it holds for concurrent puts) |
| Guarantees.CausesPrecede | nodes/firmware/custom-modules/tables/tables.c:94-114 | every record is stamped strictly above all it causally depends on, across any chain of nodes |
| Guarantees.CreatedAfterAccepted | nodes/firmware/custom-modules/tables/tables.c:394-399 | whatever a node creates any time after accepting a record is stamped strictly above it and above everything it depends on |
| Guarantees.TableIsNewestOfHeard | nodes/firmware/custom-modules/tables/tables.c:340-407 | after any run a table holds under each key a maximum, by sequence and timestamp, of the records put or heard there |
| Guarantees.VersionsNeverGoBack | nodes/firmware/custom-modules/tables/tables.c:352-399 | from any point of a run to any later one a stored record stays or is replaced by a newer one |
| Guarantees.RedeliveryChangesNothing | nodes/firmware/custom-modules/tables/tables.c:361-379 | hearing a record again, in whatever bytes, changes neither store nor clock nor counter |
| Guarantees.Convergence | nodes/firmware/custom-modules/tables/tables.c:316-408 | two nodes that heard the same records under a key store the same record there, for every order, duplication and interleaving, if no two of these records are newest |
| Guarantees.OneWriterConvergence | nodes/firmware/custom-modules/tables/tables.c:316-408 | which is so whenever one node wrote them all, commands and jobs included |
| Guarantees.TiedRecordsDiverge | nodes/firmware/custom-modules/tables/tables.c:361-379 | if two are, and two nodes hear them in opposite orders, both have heard the same and each keeps the one it heard first |
| Guarantees.WriterKeyedConvergence | nodes/firmware/custom-modules/tables/tables.c:316-408 | for reports and observations of a node without any proviso |
| Guarantees.WriterDominates | nodes/firmware/custom-modules/tables/tables.c:138-230 | no replica holds a newer version of a report or observation than its writer |
| Guarantees.HopDelivers | nodes/firmware/custom-modules/mate_ble/mate_ble.c:429-450 | a sendable stored record, broadcast by one node and heard any time later by another that holds the writer's key by then, verifies there and is stored from then on unless something newer is |
| Guarantees.StoredVerifiesEverywhere | nodes/firmware/custom-modules/tables/records/records.c:144-196 | a stored record of a node verifies at every node that holds a key for its writer |
| Propagation.PassArrives | nodes/firmware/custom-modules/mate_ble/mate_ble.c:484-505 | a node that hears a pass, in any order and with anything else happening in between, has heard every sendable record the pass visited whose writer's key it holds, and stores it or something newer |
| Propagation.PassBringsUpToDate | nodes/firmware/custom-modules/mate_ble/mate_ble.c:484-505 | so after a complete pass it is at least as new as the sender was on every matching record of this kind |
| Propagation.LiveReadCatchesUp | nodes/firmware/custom-modules/mate_ble/mate_ble.c:491-504 | whatever version of a record a sender read and sent since some step, who hears it any time later is at least as new from then on as the sender was at that step |
| Propagation.PassByWriterAgrees | nodes/firmware/custom-modules/mate_ble/mate_ble.c:484-505 | and stores exactly the sender's version of the sender's own records, unless the sender has put a newer one by then |
| Propagation.MutualPassesAgree | nodes/firmware/custom-modules/mate_ble/mate_ble.c:484-505 | two nodes that have each heard a complete pass of the other, begun at any times, and nothing else under a key store the same record there, one that either stored before, if one record is newest |
| Propagation.MutualPassesAgreeOnReports | nodes/firmware/custom-modules/mate_ble/mate_ble.c:484-505 | for reports and observations of a node, one of the two included, without that proviso |
| Propagation.ReportTravels | nodes/firmware/custom-modules/tables/tables.c:138-180 | a report put at one node and heard any time later by another that holds the key by then is stored there from then on unless something newer is, and exactly as signed as long as the writer has put no newer one |

## Left out

- Reboots of a node: the sequence counter restarts at 0 (`tables.c` line 129), so numbering results hold within one
  boot.
- Unserialised puts and merges on one node, except for the locking results: the network treats each put and each merge
  as one step.
- Failing store writes in the locking results, in the network and when a node handles a whole message: there every
  write succeeds. What a failing one leaves behind is stated for the put and merge methods and by the two results on
  torn puts. Refused keys and failing identity files, in contrast, are part of the network; a key store that fails
  while stored identities are loaded is not modelled.
- Records of undefined type, which the node never creates and the decoder never yields.
- The byte layout of the stored C structures: blobs are typed values, and a signature covers the header and data they
  hold.
- FlashDB internals, base64 key names and the virtual file system: an abstract map listed in any duplicate-free order,
  and files that are overwritten without truncation.
- Ed25519 and COSE: signing and verifying are ideal, the key id inside a signature is read by an unspecified function,
  and the library is taken to write the signer's id into what it signs.
- CBOR types no message has: tags, maps, floats, negative numbers, text and nested arrays, which every decoder here
  refuses. Elements after the last expected one are refused too, as a check inside the CBOR library requires; that
  library is not part of this model.
- Store.StoreIterator.Next: does not model key names that are not base64 and buffers too small for a key or header,
  which the tables never produce, nor the header value it copies, which the table iterator reads again under the lock.
- Drift.NoNetworkDrift: assumes that holders of keys the root or a setup stands for, other than the nodes, stamp no
  later than the furthest clock; the rule cannot protect against a trusted party that stamps the future.
- Which keys an iteration visits while the table changes: a pass visits the keys stored when it began. Of records read
  later `Propagation.LiveReadCatchesUp` says that they serve as well.
- NimBLE, GNRC, LoRaWAN, timers, threads and message queues: input and output only; a delivery may hand a node any
  bytes.
- The device name of a mate: the number in it is a parameter of the handler.
- In the network the mate encounter a handheld puts after hearing another one is a `Create` step of its own.
- Provisioning, LoRaMAC keys, shell commands, string formatting, logging, sensors, user interface and the web
  frontend.
