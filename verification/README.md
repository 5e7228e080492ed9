# NexusGate: a Dafny model of the deterministic half

NexusGate fuses sensor observations into tracks, turns a finding into a proposed course of
action, runs it past a deterministic interlock, asks a human, and sends the approved tasking
to a unit, while every step is appended to a hash-chained audit trail. This project models
the parts of it that are not I/O and proves what they promise.

Four components, and one small list algorithm:

- **Audit hash chain.** `AuditChain` (the three chain walks over arbitrary, possibly malformed
  records), `ChainTheorems` (what a head commits to, where an edit is noticed), `Tamper` (the
  one-character demo tamper), `EdsSidecar` and `AuditLogger` (the mutable logger with its
  cached head, quarantine and signed sidecar). The digest is an arbitrary function: theorems
  that need it to be good end in "or here is a collision among these very bodies" instead of
  assuming anything.
- **Picture-to-tasking gate.** `GateTypes`, `Geofence`, `Interlock`, `LatencyGate`, then the
  REST handlers as a transition system (`RuntimeModel`: memory, SQLite mirror, one atomic step
  per handler, any subset of store accesses failing) with every handler's exact answer
  (`RuntimeAnswers`), its safety (`RuntimeSafety`), restart (`RuntimeRestart`) and counting
  (`RuntimeAccounting`) laws, and what active keys prevent (`RuntimeDuplicates`). `RuntimeStore` and `C2Runtime` are the stateful classes, handler by
  handler, proved to take exactly the steps of that system and to write exactly its audit
  records.
- **Spatial entity graph.** `Ontology` (tracks as folds over the observations they received),
  `EntityGraph` (the dictionary of mutable tracks, proved to hold exactly those folds),
  `FusedDigest`.
- **Kinematics.** `Intercept` (the quadratic collision-course solver), `Kinematics` (dead
  reckoning, reachability ellipse, lead pursuit), `KinematicsSim` (the waypoint stepper), over
  exact reals with square root known by its square and cosine and sine by their unit circle.
- **Timeline.** Scenario events laid on a 19-step clock.

Where the source does less than its own text suggests, the code is followed and the gap is
proved: `DEFAULT_V_EST_KT` is said to be the midpoint of the speed band and is not
(`DefaultBandLeaks`); the last record of a trail can be replaced unnoticed
(`LastRecordIsReplaceable`); a trail can be truncated unnoticed (`TailTruncationIsSilent`); an
append behind a record without a hash can break the trail (`AppendAfterHashlessRecord`); two
queued duplicates can both be issued (`QueuedDuplicatesBothIssue`, and exactly when in
`DuplicateIssuedIffQueuedBefore`); a failed row delete lets one queueing be decided twice
(`FailedDeleteDecidesTwice`, and exactly when in `LawNeedsTheDelete`); a lost inbox row can leave
an acked id in no inbox (`LostRowLeavesAckAlone`, and exactly when in `LawNeedsTheAckedRow`); an
id acked before a restart can be issued again and never listed (`RestartLetsAckedIdBack`);
restoring the tamper snapshot drops the records appended since, unnoticed
(`RestoreAfterAppends`, `RestoreForgetsAppends`); repeating the first vertex of a two-vertex zone can
change its answer (`ClosingTwoVerticesMatters`, and exactly when in `ClosingTwoVertices`).

`dafny verify dfyconfig.toml` checks the project.

## Model

| member | source | states |
|---|---|---|
| `AuditChain.VerifyAuditChain` | core/audit.py:65-98 | the loop reports exactly the verdict whose meaning the next rows give, for any list of records |
| `AuditChain.ErrorsExact` | core/audit.py:74-90 | an error is reported for a record if and only if its link or its digest is wrong, link errors against the last string hash carried so far |
| `AuditChain.ErrorsOrdered` | core/audit.py:70-90 | faults are reported in record order, each once, link before digest |
| `AuditChain.VerdictOkIffIntact` | core/audit.py:65-98 | `ok` if and only if every record seals its own body and names its predecessor's digest, the first naming genesis |
| `AuditChain.BreakIndexIsFirst` | core/audit.py:71-89 | `break_index` is the least faulty record, absent exactly when `ok` |
| `AuditChain.CleanPrefix` | core/audit.py:73-90 | no error among the first n records if and only if they form an intact chain, and then the walk carries the digest of the n-th |
| `AuditChain.ChainBreakIndex` | core/audit.py:27-34 | the first record whose link is broken, none if and only if all links hold |
| `AuditChain.BrokenLinkCount` | core/audit.py:37-45 | the number of broken links |
| `AuditChain.WalksAgree` | core/audit.py:33-90 | after a record with a string hash the link walk and the full walk carry the same digest |
| `AuditChain.LinkWalkCarries` | core/audit.py:33-44 | after any other record the link walk carries nothing if the hash is absent, null, false, zero or empty, and its text otherwise |
| `AuditChain.WalksCanDisagree` | core/audit.py:33-90 | after a record without one they need not: a link the full walk accepts and the link walk rejects |
| `ChainTheorems.HeadCommits` | core/audit.py:65-98 | two intact trails with one head are the same trail, record for record, or their bodies exhibit a broken digest |
| `ChainTheorems.RewriteIsLocated` | core/audit.py:65-98 | replacing a non-last record of an intact trail by any other is reported at that record or the next |
| `ChainTheorems.LastRecordIsReplaceable` | core/audit.py:65-98 | a replaced last record passes if and only if it seals itself and keeps the link |
| `ChainTheorems.ExcisionIsLocated` | core/audit.py:65-98 | cutting records out of the middle or off the front is reported at the cut |
| `ChainTheorems.TailTruncationIsSilent` | core/audit.py:65-98 | records dropped off the end are not noticed by the walk, only by the head |
| `ChainTheorems.AppendConservesErrors` | core/audit.py:275-294 | an append leaves the error list of any trail as it was if and only if the cached head is the digest the walk carries |
| `ChainTheorems.AppendAfterHashlessRecord` | core/audit.py:270-294 | behind any trail whose last record has no hash the appended record is a broken link if and only if the walk carries a digest other than genesis |
| `ChainTheorems.HashlessRecordAfterSealed` | core/audit.py:270-294 | a sealed record followed by a record without a hash is such a trail |
| `ChainTheorems.IntactPrefix` | core/audit.py:65-98 | prefixes of an intact trail are intact, with the expected head |
| `Tamper.InjectOneCharTamper` | core/audit.py:124-165 | the tampered copy, or the error raised, for every record and index |
| `Tamper.FlipApproved` | core/audit.py:138-147 | flips the first character of a non-empty string entry and nothing else |
| `Tamper.FlipsOneChar` | core/audit.py:138-164 | the flipped text differs in exactly one position |
| `Tamper.TamperTouchesBodyOnly` | core/audit.py:124-165 | the tamper changes the hashed body and neither the stored hash nor the link |
| `Tamper.TamperIsLocalised` | core/audit.py:124-165 | on an intact trail the full walk reports one digest mismatch, at the tampered index, and every link still holds |
| `Tamper.TamperExact` | core/audit.py:124-165 | which error, or which character of which entry: a non-empty status, else verdict, else the first digit of the time, else its first character; nothing else changes |
| `EdsSidecar.AppendSeals` | core/audit_eds.py:391-423 | an append keeps the sidecar numbered 1..n, linked, signed and sealing the longer payload list if and only if the bridge signs it |
| `EdsSidecar.SealCommits` | core/audit_eds.py:391-423 | one sidecar cannot seal two payload lists without a payload-digest collision |
| `EdsSidecar.CorruptionUnseals` | app/c2_server.py:201-219 | the demo corruption leaves a sidecar that no longer seals what it sealed |
| `EdsSidecar.CorruptionIsOneByte` | app/c2_server.py:201-219 | and it changes one byte of one record, the one asked for if there is one |
| `EdsSidecar.EdsChainWriter.AppendPayload` | core/audit_eds.py:391-423 | appends the signed record for the next number and head, or nothing when the bridge refuses; number and head stay the chain's own |
| `EdsSidecar.EdsChainWriter.Rewind` | core/audit_eds.py:357-368 | number and head are those of the last record on disk |
| `EdsSidecar.EdsChainWriter.ReplaceRecords` | core/audit_eds.py:381-383 | the file holds the new records and number and head follow |
| `EdsSidecar.EdsChainWriter.Clear` | core/audit_eds.py:385-389 | an empty chain, numbering from the start |
| `AuditLog.AuditLogger.constructor` | core/audit.py:169-215 | init back-fills an empty sidecar, quarantines a trail with a broken link (sidecar emptied with it), caches the head; and exactly when trail and sidecar are then in step |
| `AuditLog.AuditLogger.QuarantineIfBroken` | core/audit.py:242-268 | archives the trail and clears both chains exactly when some link is broken, otherwise changes nothing |
| `AuditLog.AuditLogger.RewindFromDisk` | core/audit.py:270-273 | the cached head is the last record's stored hash, or genesis |
| `AuditLog.AuditLogger.Append` | core/audit.py:275-294 | one record, sealed against the old head; the verdict on what was there is unchanged when the last record has a string hash; the cached head is kept, and lock-step with the sidecar if and only if the bridge signs |
| `AuditLog.AuditLogger.ReplaceRecords` | core/audit.py:224-235 | trail replaced, head re-read, sidecar rebuilt from the new bodies, in step if and only if the bridge signs them all |
| `AuditLog.AuditLogger.OverwriteOcsfKeepEds` | core/audit.py:237-240 | trail replaced and head re-read, sidecar untouched |
| `AuditLog.RebuiltInStep` | core/audit.py:205-235 | a sidecar rebuilt from a trail seals it record by record if and only if the bridge signs every body |
| `AuditLog.RebuiltNames` | core/audit.py:205-209 | each rebuilt record is written under its device and under the number and activity of the trail record it seals, "event" if that has none |
| `AuditLog.AppendInStep` | core/audit.py:286-289 | an append to both keeps them in step if and only if the bridge signs |
| `AuditLog.InStepCommits` | core/audit.py:286-289 | a sidecar in step fixes the number of records and the payload digest of every body |
| `AuditLog.AppendKeepsVerdict` | core/audit.py:275-294 | appending against the head adds one record and leaves errors and break index as they were |
| `AuditLog.SealedRecordLinks` | core/audit.py:276-290 | the appended record seals its body and names the head it was appended to |
| `AuditLog.SealedRecordSays` | core/audit.py:276-290 | the seven entries of an appended record, the hash being the digest of the other six |
| `AuditLog.ObjectRefSays` | core/audit.py:286-289 | a sidecar reference is gate, the record number in decimal, and the activity |
| `Geofence.PointInPolygon` | core/interlock.py:15-30 | the toggling loop answers the even-odd rule over all edges, division by zero included |
| `Geofence.TestEdge` | core/interlock.py:22-26 | one edge test: hit, miss, or the division by zero the code can raise |
| `Geofence.EdgeExact` | core/interlock.py:22-26 | said without division: an edge is hit if and only if it straddles the meridian and the point is below its chord (product form, sign by sign), and divides by zero if and only if it straddles with no width |
| `Geofence.TriangleExact` | core/interlock.py:15-30 | a triangle with distinct longitudes holds a point if and only if the point is over it in longitude and between the chord of its long side and the chord of the short side it is over |
| `Geofence.TriangleReversedExact` | core/interlock.py:15-30 | and listed the other way round |
| `Geofence.RotationInvariant` | core/interlock.py:15-30 | the answer does not depend on where the vertex list starts |
| `Geofence.ClosingInvariant` | core/interlock.py:15-30 | nor on repeating the first vertex at the end, for one vertex and from three on |
| `Geofence.ClosingTwoVertices` | core/interlock.py:17-26 | with two it does for some point unless they share a longitude, or share a latitude and are not exactly 1e-15 apart, and then for none |
| `Geofence.ClosingTwoVerticesMatters` | core/interlock.py:17-26 | and it can put a point inside |
| `Geofence.RectangleExact` | core/interlock.py:15-30 | an axis-aligned rectangle, either way round, holds exactly min <= p < max in both coordinates |
| `Interlock.DeterministicInterlock.Verify` | core/interlock.py:84-110 | the first failing check in the source's order, or a pass |
| `Interlock.DeterministicInterlock.VerifyCniDebris` | core/interlock.py:57-82 | veto of the first civilian point whose buffer the debris cone reaches |
| `Interlock.DeterministicInterlock.RegisterActive` | core/interlock.py:112-114 | adds exactly the id and the target/intent key |
| `Interlock.PassMeansSafe` | core/interlock.py:84-110 | a pass means null, speed, every zone and every civilian point are all clear and neither key is active, and conversely |
| `Interlock.AnswerExact` | core/interlock.py:84-110 | which answer is given: null point, speed, first zone not outside, first civilian point in reach of a terminal intent, id, then target/intent key |
| `Interlock.ZoneCheckExact` | core/interlock.py:92-96 | the zone loop passes if and only if the point is outside every zone |
| `Interlock.CniCheckExact` | core/interlock.py:67-82 | the debris loop passes if and only if no civilian point is reached |
| `LatencyGate.Evaluate` | core/gate.py:25-91 | for every tier and channel: which verdict, who signed and why, and that the token is sealed, for this proposal, with that verdict |
| `RuntimeSafety.EveryRunIsSafe` | app/c2_server.py:777-1084 | after any run, with any store writes and restart reads failing, every pending proposal passed the checks and was queued, and every inbox entry (memory and store) has its own id as key and token id, an approved sealed token, a safe COA, and the queueing, decision and issue records that authorise it, in that order |
| `RuntimeSafety.NextOk` | app/c2_server.py:777-1084 | one step keeps that, and only extends the trail |
| `RuntimeSafety.HandleOk` | app/c2_server.py:777-1084 | one handler establishes it for its tables and for every row it writes |
| `RuntimeSafety.WritesKeepTables` | core/runtime_store.py:171-213 | any subset of a handler's writes leaves the tables in order |
| `RuntimeSafety.GuardrailQueuesSoftKill` | app/c2_server.py:777-833 | what the guardrail queues is neither a draft nor a terminal intent, under the fresh id alone |
| `RuntimeAnswers.DefaultsResolve` | core/policy.py:35-51 | after the defaults the tier is autonomous if and only if dual-key was not requested and either autonomy was, or confidence, sources and an intent of observing or keeping station earn it |
| `RuntimeAnswers.ProposalAnswer` | app/c2_server.py:836-942 | approved unasked if and only if safe, under no active key and earned in that sense; queued if and only if safe, under none and not earned; otherwise rejected with the reason, or the crash |
| `RuntimeAnswers.ProposalEffect` | app/c2_server.py:836-942 | and all that each answer does to tables, keys, trail and store, the token sealed with its verdict, signer and reason |
| `RuntimeAnswers.NoProposalAnswer` | app/c2_server.py:842-859 | 400 without a proposal, 404 without a finding to interpret, and nothing else happens |
| `RuntimeAnswers.AutoApprovalsAreEarned` | app/c2_server.py:836-942 | over every run, each unasked approval on the trail is some step that asked for a safe course of action under no active key that had earned it |
| `RuntimeAnswers.GuardrailAnswer` | app/c2_server.py:777-833 | option B, named entry by entry from the scenario, is queued if and only if the scenario can be checked and option B is safe and under no active key; otherwise an error and nothing else |
| `RuntimeAnswers.DecisionAnswer` | app/c2_server.py:945-1032 | approved if and only if pending and one of the yes words, denied if and only if pending and one of the no words, 404 if and only if not pending, 400 for any other word |
| `RuntimeAnswers.DenialEffect` | app/c2_server.py:945-1032 | a denial takes out the proposal and its row and records one decision with a sealed operator rejection |
| `RuntimeAnswers.ApprovalEffect` | app/c2_server.py:945-1032 | an approval takes it out, records the decision, issues sealed taskings to the unit and a distinct navy unit, and registers both keys; writes in order |
| `RuntimeAnswers.AckAnswer` | app/c2_server.py:1048-1084 | 404 for no tasking, 403 for another unit, otherwise the whole ack and all it changes |
| `RuntimeAnswers.ErrorsChangeNothing` | app/c2_server.py:777-1084 | an error answer of any handler leaves memory as it was and writes nothing |
| `RuntimeRestart.EveryRunIsMirrored` | app/c2_server.py:251-306 | if store accesses succeed the tables equal proposals, inbox and acked after every step of every run |
| `RuntimeRestart.FailedReadIsTemporary` | core/runtime_store.py:215-269 | a restart keeps the mirror if and only if its read succeeds or there is nothing to read; the next start that can read brings everything back |
| `RuntimeRestart.HandleMirrors` | app/c2_server.py:276-291 | each handler's writes take the tables to the mirror of its new memory |
| `RuntimeRestart.EveryRowNamesUnits` | app/c2_server.py:276-285 | over every run, whatever the store refuses, no stored proposal carries an empty navy unit |
| `RuntimeRestart.PutStoresTheRest` | app/c2_server.py:276-285 | and everything else of a proposal is stored as it is |
| `RuntimeRestart.RestartsAreInvisible` | app/c2_server.py:251-265 | over decisions, acks and resets, restarts can be put anywhere without changing tasking state or trail |
| `RuntimeRestart.SettlingSame` | app/c2_server.py:945-1084 | those handlers answer and act alike on states equal up to active keys and an empty navy unit |
| `RuntimeDuplicates.RestartShowsInProposals` | app/c2_server.py:836-942 | of two such states, one without active keys as after a restart, a proposal is answered alike if and only if it is not a safe one under an active key |
| `RuntimeDuplicates.RestartShowsInGuardrail` | app/c2_server.py:777-833 | the same of the guardrail demo and the option it queues |
| `RuntimeDuplicates.RestartLeavesSame` | app/c2_server.py:251-265 | a restart that reads a mirrored store leaves such a pair |
| `RuntimeRestart.ResetEmptiesBoth` | app/c2_server.py:293-306 | a reset empties memory and store; if the store refuses, the next start brings everything back |
| `RuntimeAccounting.DecisionsNeverExceedQueueings` | app/c2_server.py:806-982 | over every run in which no decision's row delete fails, all other writes and restart reads failing at will, decisions of an id plus one if pending in memory or store never exceed its queueings |
| `RuntimeAccounting.LawNeedsTheDelete` | core/runtime_store.py:184-191 | with no queueing to spare, a decision and a restart keep the law if and only if the delete went through or the restart could not read |
| `RuntimeAccounting.HandleAccounted` | app/c2_server.py:777-1084 | each handler queues an id once, decides it once with the delete as first write, or leaves its account alone |
| `RuntimeAccounting.FailedDeleteDecidesTwice` | core/runtime_store.py:184-191 | a run from the empty state with one failed delete and a restart: two decisions on one queueing |
| `RuntimeAccounting.DepthIsSumOfInboxes` | app/c2_server.py:503-503 | in every reachable state `inbox_depth` is the sum of the units' listed taskings |
| `RuntimeAccounting.DecideDepth` | app/c2_server.py:945-1032 | a denial changes no inbox; an approval raises the depth by one per new id, for a distinct navy unit under a second id, unit and token |
| `RuntimeAccounting.AckHidesOnlyItself` | app/c2_server.py:1035-1084 | an ack removes one tasking from one unit's list; acking again is accepted and changes no list |
| `RuntimeAccounting.AckedWithinInbox` | app/c2_server.py:1048-1084 | acked ids stay among the inbox keys, in memory and in the store, over every run in which no ack stores its mark and loses its inbox row |
| `RuntimeAccounting.LawNeedsTheAckedRow` | app/c2_server.py:1078-1082 | for a tasking the store never had, an ack and a restart keep that if and only if the ack is not one of those or the restart could not read |
| `RuntimeAccounting.LostRowLeavesAckAlone` | app/c2_server.py:1078-1082 | a run from the empty state that ends with an id acked and in no inbox |
| `RuntimeDuplicates.ActiveKeyBlocksQueueing` | core/interlock.py:102-114 | while a key is active, over any run without resets and restarts, every pending proposal under it was pending, unchanged, at the start: proposals and guardrail alike |
| `RuntimeDuplicates.DuplicateIssuedIffQueuedBefore` | app/c2_server.py:945-1032 | then some run puts a course of action under the key into an inbox if and only if it is there already or waits among the proposals (or is the navy copy of one that does) |
| `RuntimeDuplicates.ApprovalBlocksDuplicates` | core/interlock.py:102-114 | after an approval, human or autonomous, until the next reset or restart, no proposal request for its id or target/intent is queued or issued, and no step leaves a new proposal under either |
| `RuntimeDuplicates.QueuedDuplicatesBothIssue` | app/c2_server.py:945-1032 | a run from the empty state: two duplicates queued before either approval are both issued |
| `RuntimeDuplicates.ApprovedIsListed` | app/c2_server.py:1035-1045 | an approved tasking is listed for its unit if and only if its id was not acked before |
| `RuntimeDuplicates.RestartLetsAckedIdBack` | app/c2_server.py:251-265 | a run from the empty state: an acked id is queued and approved again after a restart, pending its ack, on no list and not in the depth |
| `Store.RuntimeStore.LoadAll` | core/runtime_store.py:215-269 | the row loops return exactly the tables, or nothing without a connection or on a failed read |
| `Store.RuntimeStore.UpsertProposal` | core/runtime_store.py:171-182 | one row put, or nothing on failure |
| `Store.RuntimeStore.DeleteProposal` | core/runtime_store.py:184-191 | one row dropped, or nothing on failure |
| `Store.RuntimeStore.UpsertInbox` | core/runtime_store.py:193-204 | one row put, or nothing on failure |
| `Store.RuntimeStore.AddAcked` | core/runtime_store.py:206-213 | one id added, or nothing on failure |
| `Store.RuntimeStore.Clear` | core/runtime_store.py:81-97 | all three tables emptied, or nothing on failure |
| `C2.C2Runtime.constructor` | app/c2_server.py:222-265 | a new process starts from the tables, with no active keys and no snapshots |
| `C2.C2Runtime.GateProposals` | app/c2_server.py:836-942 | takes exactly the proposal step: response, tables, store and audit records |
| `C2.C2Runtime.GateGuardrail` | app/c2_server.py:777-833 | takes exactly the guardrail step |
| `C2.C2Runtime.GateApprove` | app/c2_server.py:945-1032 | takes exactly the decision step, both rounds of issuing included |
| `C2.C2Runtime.RecipientAcknowledge` | app/c2_server.py:1048-1084 | takes exactly the ack step |
| `C2.C2Runtime.RecipientInbox` | app/c2_server.py:1035-1045 | lists exactly the unit's taskings whose own id is not acked |
| `C2.C2Runtime.Reset` | app/c2_server.py:293-306 | takes exactly the reset step and drops the tamper snapshots |
| `C2.C2Runtime.PersistProposal` | app/c2_server.py:276-285 | stores the proposal, an empty navy unit left out |
| `C2.C2Runtime.AppendEvent` | core/audit.py:275-294 | the file gains the one record of the one event |
| `C2.C2Runtime.InjectAuditTamper` | app/c2_server.py:308-339 | snapshot, tampered trail and corrupted sidecar; which failures leave what |
| `C2.C2Runtime.RestoreAuditTamper` | app/c2_server.py:341-354 | trail and sidecar are the snapshots again |
| `C2.C2Runtime.TamperDemo` | app/c2_server.py:308-354 | inject then restore gives back trail, cached head, sidecar and sidecar head exactly, also when the tamper fails |
| `C2.C2Runtime.RestoreAfterAppends` | app/c2_server.py:341-354 | after any appends in between, a restore puts the file back to the snapshot: their records are gone, while the events happened |
| `C2.RestoreForgetsAppends` | app/c2_server.py:341-354 | on an intact snapshot no walk shows that loss: both trails verify, one record per event fewer, and only the heads differ |
| `C2.HandlersKeepVerdict` | core/audit.py:275-294 | whatever a trail's faults, handlers append records without changing them |
| `C2.HandlersKeepTrailGreen` | core/audit.py:242-294 | an intact trail stays intact under handlers and is not quarantined at the next start |
| `C2.EventsAreNamed` | app/c2_server.py:814-1083 | each kind of event has its own record name, and only a queued proposal is of medium severity |
| `Ontology.TracksPartition` | core/ontology.py:50-90 | after any ingests the tracks hold every observation once, as often as ingested, under distinct keys |
| `Ontology.IdsPartition` | core/ontology.py:50-90 | so do the observation ids, repeated ones included |
| `Ontology.IngestConserves` | core/ontology.py:50-87 | one ingest adds to exactly one track; no track is lost, renamed or shortened |
| `Ontology.IngestChoice` | core/ontology.py:50-118 | it goes to the track named by its hint, or else its source, if there is one, else to one of minimal association distance, else under a key no track had |
| `Ontology.DigestFilled` | core/schema.py:45-50 | on the way in a digest that is there is kept and a missing one is the hash of the rest of the observation |
| `Ontology.NearestIsMinimal` | core/ontology.py:111-118 | the scan finds the earliest nearest track, none if and only if none is in reach |
| `Ontology.DistanceExact` | core/ontology.py:120-138 | within the radius the distance is the great-circle one; beyond it, the separation of the first seen observation among the ids of the track that associates and has one, and none if and only if there is none |
| `Ontology.ApartOpensOneTrackEach` | core/ontology.py:50-118 | observations that cannot associate, with distinct ids, open one track each |
| `Ontology.FoldIsLatestBest` | core/ontology.py:73-87 | a track's kinematics and confidence are those of its latest most confident observation; ids and digests are listed in order |
| `Ontology.FoldSeesEverySource` | core/ontology.py:73-76 | sources and modalities are listed without repetition and are exactly those seen |
| `Ontology.FoldKeepsOrder` | core/ontology.py:73-76 | and stay where they were first listed |
| `Ontology.FoldMergesAttributes` | core/ontology.py:85-86 | each attribute has the value of the last observation that carries it |
| `EntityGraph.Track.Absorb` | core/ontology.py:73-87 | the branch of field updates has the whole new state the fold prescribes |
| `EntityGraph.SpatialEntityGraph.Ingest` | core/ontology.py:50-87 | the mutable graph goes from holding the folds of its groups to holding those after the ingest, returning a track it holds |
| `EntityGraph.SpatialEntityGraph.FindNearby` | core/ontology.py:107-118 | returns the key of the target track; none means the preferred key is free |
| `EntityGraph.SpatialEntityGraph.AssociationDistance` | core/ontology.py:120-138 | static radius first, then the first seen member that associates and has a separation |
| `EntityGraph.SpatialEntityGraph.IngestMany` | core/ontology.py:89-90 | from an empty graph, the groups of the whole list; the tracks' `observation_ids` together are the ingested ids as a multiset |
| `EntityGraph.SpatialEntityGraph.TracksHoldEveryId` | core/ontology.py:50-90 | that multiset equality for any graph that holds the groups of a list of ingests, over all of its tracks |
| `FusedDigest.FusedDigestIgnoresOrder` | core/ontology.py:37-39 | the fused digest depends on the multiset of digests only |
| `FusedDigest.FusedDigestCommits` | core/ontology.py:37-39 | and pins it: two lists of non-empty digests without a bar under one fused digest have the same multiset, or their joined texts collide |
| `FusedDigest.SortedSorts` | core/ontology.py:38-38 | the sorted list is ordered and a permutation |
| `FusedDigest.LexByFirstDifference` | core/ontology.py:38-38 | the order is by the first character in which two digests differ |
| `Intercept.SolverExact` | core/kinematics.py:302-335 | away from the linear branch the answer is the least meeting time above 1e-9, and none if and only if there is none |
| `Intercept.LinearBranchExact` | core/kinematics.py:322-327 | in the linear branch the answer is t if and only if b is not cut off, b t + c = 0 and t is above 1e-9 |
| `Intercept.AtRestMeetsNothing` | core/kinematics.py:313-314 | a platform at rest has no answer away from the contact |
| `Intercept.SolverSound` | core/kinematics.py:302-335 | any answer is above 1e-9 and misses by less than 1e-9 t^2 |
| `Intercept.QuadraticExact` | core/kinematics.py:329-335 | the least root above the cut of any quadratic, missing none |
| `Intercept.FasterAlwaysMeets` | core/kinematics.py:302-335 | a platform faster by the margin, below 1e9 m/s in all, always gets the one positive meeting time |
| `Intercept.SlowerNeverMeets` | core/kinematics.py:302-335 | against an opening contact that is no slower, the answer is none in both branches |
| `Intercept.NotBeforeClosing` | core/kinematics.py:302-335 | no meeting is earlier than the closing speed allows |
| `Kinematics.OffsetOfDisplaced` | core/kinematics.py:78-105 | the offset of a displaced point is the displacement |
| `Kinematics.OneDegree` | core/kinematics.py:95-105 | a degree is 111320 m north, and the cosine of the latitude of that east |
| `Kinematics.UnknownHeadingExact` | core/kinematics.py:134-218 | with no heading a displaced contact is inside if and only if it went no farther than the radius |
| `Kinematics.UnknownHeadingCovers` | core/kinematics.py:134-218 | so every contact no faster than v_max is inside, whatever its heading |
| `Kinematics.KnownHeadingExact` | core/kinematics.py:134-218 | on the heading, inside if and only if the lead or lag is at most max(abs(dt) (v_max - v_min) / 2 + sigma, 1) |
| `Kinematics.ContactInEnvelopeExact` | core/kinematics.py:134-218 | for any heading, the contact's own displaced position is inside if and only if its lead, the eastward part stretched by the ratio of longitude scales, is in the turned ellipse |
| `Kinematics.ContactOnMeridianOrParallel` | core/kinematics.py:134-218 | due north or south, and where the scales agree, that is the lead fitting the along-track axis |
| `Kinematics.AcrossTrackExact` | core/kinematics.py:164-218 | square across the heading, inside if and only if within navigation error plus run times the tangent of the heading error |
| `Kinematics.HalfBandCovered` | core/kinematics.py:67-75 | speeds within half the band's width of the estimate are always inside |
| `Kinematics.WholeBandCovered` | core/kinematics.py:67-218 | the whole band is inside if and only if its farther end, over the time, fits the axis |
| `Kinematics.DefaultBandLeaks` | core/kinematics.py:25-30 | with the default estimate of 12 kt it does not: an hour on, a 4 kt contact is outside; with 11 kt it is inside |
| `Kinematics.EllipseBetweenCircles` | core/kinematics.py:205-218 | inside implies within the longer axis, within the shorter implies inside |
| `Kinematics.EllipseExact` | core/kinematics.py:205-218 | a point u ahead of the estimate and v across is inside if and only if (u b)^2 + (v a)^2 <= (a b)^2, the axes a along and b across the heading |
| `Kinematics.ContactReachesWaypoint` | core/kinematics.py:380-398 | a collision waypoint is exactly speed times eta down the contact's track |
| `Kinematics.OwnReachesWaypoint` | core/kinematics.py:375-398 | and own run reaches it in that time, exactly when the speeds differ |
| `Kinematics.WithinAMetreIsThere` | core/kinematics.py:311-398 | a moving contact within a metre is the waypoint itself, at once |
| `Kinematics.StaticContactExact` | core/kinematics.py:355-373 | with no heading or no speed, and only then, the waypoint is the contact where it is, with own time over the range as estimate |
| `Kinematics.AlongTrackWithinLimit` | core/kinematics.py:400-421 | the fallback waypoint is speed times lead down the contact's heading, in components, with lead = min(range / own speed, limit) and own time to it as estimate |
| `Kinematics.FasterIsSentToCollision` | core/kinematics.py:375-398 | a faster platform is sent to its one meeting point if and only if that is within the lead limit |
| `Kinematics.SlowerLeadsAlongTrack` | core/kinematics.py:338-421 | one that cannot catch an opening contact leads it along its track |
| `PlatformSim.KinematicsSim.Step` | app/adapters/kinematics_sim.py:27-51 | the field updates make exactly the step the laws below are about |
| `PlatformSim.KinematicsSim.RunUntilArrival` | app/adapters/kinematics_sim.py:53-60 | the loop makes at most the given number of steps and none after arrival |
| `PlatformSim.KinematicsSim.SetWaypoint` | app/adapters/kinematics_sim.py:18-21 | new waypoint, speed only if given, nothing else |
| `PlatformSim.KinematicsSim.StationKeep` | app/adapters/kinematics_sim.py:23-25 | no waypoint, no speed, nothing else |
| `PlatformSim.StepCoversItsLeg` | app/adapters/kinematics_sim.py:35-48 | a step covers speed times dt metres of ground, or all there is to the waypoint |
| `PlatformSim.StepOnTheWay` | app/adapters/kinematics_sim.py:27-51 | each step ends on the straight segment from where it began to the waypoint |
| `PlatformSim.StepIsDeadReckoning` | app/adapters/kinematics_sim.py:27-51 | a sailing step turns to the bearing of the waypoint and is the dead reckoning of its leg along that heading, speed and waypoint kept |
| `PlatformSim.StepSnaps` | app/adapters/kinematics_sim.py:38-43 | within a metre it is at the waypoint and done, heading kept |
| `PlatformSim.StepWaits` | app/adapters/kinematics_sim.py:28-30 | without a waypoint or a speed only the history grows |
| `PlatformSim.Progress` | app/adapters/kinematics_sim.py:35-48 | it takes at least its length off what remains, and the last one all of it |
| `PlatformSim.KeepsCourse` | app/adapters/kinematics_sim.py:27-60 | every position of a run is on the segment from every earlier one: no overshoot, no turning back |
| `PlatformSim.TrailIsHistory` | app/adapters/kinematics_sim.py:49-60 | the history grows by exactly those positions, at most one per step, ending where the platform is |
| `PlatformSim.Arrives` | app/adapters/kinematics_sim.py:53-60 | with steps enough for the straight line and one more, the run ends exactly at the waypoint, waypoint cleared, speed 0 |
| `PlatformSim.ArrivesWithin` | app/adapters/kinematics_sim.py:53-60 | the same with the bound 111320 L / (speed dt) + 1 on the number of steps |
| `Timeline.SpreadScenarioEvents` | app/scenarios/temporal.py:450-477 | 19 steps with their marks and bands, whose events concatenated are the whole restamped list |
| `Timeline.TimelineConserves` | app/scenarios/temporal.py:456-477 | that list is the original, in order, apart from `observed_at` |
| `Timeline.DroppedIsSlice` | app/scenarios/temporal.py:460-467 | the scan for one step finds one stretch of the list |
| `Timeline.FirstOpens` | app/scenarios/temporal.py:460-467 | with two events or more the first opens step 1 at T-60 |
| `Timeline.LastCloses` | app/scenarios/temporal.py:460-467 | and the last closes step 19 at T-00 |
| `Timeline.StampsNeverDecrease` | app/scenarios/temporal.py:23-43 | restamped times never run backwards, and never past T-00 |
| `Timeline.EvenlySpread` | app/scenarios/temporal.py:460-467 | up to 19 events no step holds two, from 19 on no step is empty |
| `Timeline.TargetStep` | app/scenarios/temporal.py:462-463 | every event has a step from 1 to 19 |
| `Timeline.TargetIsProportional` | app/scenarios/temporal.py:462-463 | which one: its place in the list in eighteenths, rounded down, and the tenth for a single event |
| `Timeline.PhasesFollowTheMarks` | app/scenarios/temporal.py:23-65 | the bands are more than 40 seconds out, more than 20, more than 5, and the rest |

## Left out

- HTTP, pages, TUI, GPIO, feed adapters, LLM calls and environment flags: no logic of their own.
- SHA-256, BLAKE3, Ed25519, canonical JSON text and the `eds` binary: arbitrary functions, nothing assumed of them.
- Floating-point rounding: geometry and kinematics are over exact reals.
- Wall clock: each handler takes one time reading as a parameter; the source may read the clock several times.
- `/verify/command/propose` and the admin audit snapshot as steps of a run: the first queues without the interlock, the second replaces the trail by arbitrary records (its effect on the logger is `ReplaceRecords`).
- Observations, finding and scenario id in the store: repeated observation ids are kept in memory and merged in the table, so only proposals, inbox and acked are mirrored.
- Scenario loading, interpretation, `_build_option_b_fallback` point geometry: a request arrives as a proposal; the offshore point is a parameter.
- Proposal metadata beyond the draft flag, altitude, pairing and fallback marks; the audit data of an event is any function of it.
- `load_pois` re-reading: points of interest, zones and limits are fixed for a run, as the safety claim needs.
- Ack telemetry and the JSON round trip of stored payloads: rows hold values.
- Sealing a token or filling an observation's digest in place: modelled as a new value with the digest set; aliasing of the sealed object is not captured.
- The tasking dictionary shared between inbox and response: values, so a caller's later edit of a response is not captured.
- Quarantine file names, and two quarantines in one second; a sidecar that fails to load is modelled as no sidecar.
- AuditLog.AuditLogger.Append: the object reference written to the sidecar is stated but is not part of lock-step, because append and back-fill name an empty event differently.
- Sidecar input limits: an over-long device id or object reference is one of the bridge's arbitrary refusals.
- Kinematics.HalfBandCovered: on offsets in the plane of the projected point; for the contact's own position `ContactInEnvelopeExact` carries the ratio of longitude scales, and how far that ratio can be from one is not part of the model.
- Kinematics.EllipseBetweenCircles: for envelopes with axes of at least 1 m, which is all that `project_dead_reckoning` builds.
- Kinematics.EllipseExact: for envelopes with axes of at least 1 m, which is all that `project_dead_reckoning` builds.
- Great-circle distance, bearings and the kinematic association test: arbitrary functions; `Interlock`, `Ontology` and `LeadPursuit` hold for any.
- `observations_for`, `projected_separation_m`, `eta_sec_to_point`, `as_metadata` and other read-only views: easy members.
- The hand-written S2 timeline, detectors, narratives, Dual-SAR annotation, benchmarks: tables and threshold rules.
