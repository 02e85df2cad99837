# sddgov: a verified model of its protocols

`sddgov` is a governance layer for coding agents. Its hard parts are protocols over state that others
share: directory entries replaced under a running process, a ledger that outlives crashes, commits
that must not hide an edit, evidence packages that must not change once they count. This project
models those protocols in Dafny and proves what the documentation and the tests promise of them, for
every input, every interleaving and every run.

| file | models |
|---|---|
| `Common.dfy` | bytes, options, SHA-256 as an injective function |
| `Filesystem.dfy` | one directory: names, inodes, link counts, change times, and arbitrary other writers |
| `OwnedRemoval.dfy` | `remove_owned_at` and the Broker's socket cleanup: compare-and-unlink out of exclusive renames |
| `Publication.dfy` | `_write_bytes_at`: compare-and-swap of a directory entry |
| `PredecessorLoss.dfy`, `LostPredecessor.dfy` | which schedules make a failed write lose its predecessor, and one that does |
| `Transaction.dfy`, `AllOrNothing.dfy`, `Commitment.dfy` | `_MutationTransaction`: several publications, all or nothing; when they commit, and what a commit saw |
| `Json.dfy`, `NonceLedger.dfy`, `BrokerFields.dfy` | the Broker's append-only ledger of consumed nonces, byte for byte, and what its fields are |
| `Operations.dfy`, `Approval.dfy`, `Receipts.dfy` | single-use L3 approvals over that ledger: import, choice, consumption; which envelopes and rows count |
| `Escalation.dfy`, `Envelopes.dfy`, `Verdicts.dfy` | `evaluate_escalation` and `evaluate_deployment`, over the decision store, the owner's action queue and the ledger; exactly what they let through |
| `ApprovalRuns.dfy` | runs of such evaluations by any number of agents |
| `Snapshot.dfy`, `Assumptions.dfy` | `FileSetSnapshot`: a double-collect snapshot of files; the signed files of a product decision read through it |
| `MergeGate.dfy`, `MergeVerdict.dfy` | the commit-graph and rollback checks of the merge gate; exactly when a candidate is ready |
| `DepLifecycle.dfy`, `DepProvenance.dfy`, `DepToProof.dfy` | debug evidence packages: collect, redact, verify, advance; where rows come from, and which packages reach proof |
| `TextStream.dfy`, `LogicalLines.dfy`, `PrivateKeys.dfy` | the streaming redactor: chunks, lines, key blocks |
| `KeyLines.dfy`, `LineEnds.dfy`, `LineRules.dfy` | the streaming redactor against the whole-text redactor: keys on whole lines, blanks at line ends, any line rules |
| `Bundle.dfy`, `SealedBundle.dfy` | the entry accounting of sealed bundles; exactly which archives it accepts |
| `ExternalActions.dfy`, `ActionQueue.dfy` | the queue of bounded owner actions; what asking and resolving do to it |
| `MarkedBlocks.dfy` | marked-block editing of AGENTS.md and .gitignore |
| `SshFraming.dfy` | SSH strings and the agent's identity answer |

How the pieces of the environment are modelled:

- Other writers of a directory are an arbitrary function applied before every system call of the
  modelled code. The laws asked of it (`Filesystem.Lawful`) are: public names are created, replaced,
  deleted, renamed and linked; the random private names are left alone; inodes are not rewritten in
  place. `Filesystem.ScriptIsLawful` shows that every script of such steps obeys them.
- A link ledger in the directory state counts, per inode, the links this process made and removed and
  those the others made and removed. Conservation statements are statements about that ledger.
- Snapshots are stated over an arbitrary history of the filesystem in which no change of an inode
  leaves its change time as it was.
- Clocks, random names, digests of structured values, signature checks, the text redactor and Git's
  answers are parameters; what is asked of each is written in the `requires` that uses it.
- A procedure that the source writes as a loop or as updates of an object is a method or a class here,
  proved equal to a function on values; the theorems are about those functions.

`dafny verify dfyconfig.toml` checks the whole project.

## Model

| member | source | states |
|---|---|---|
| `Filesystem.ScriptIsLawful` | src/sddgov/fs_security.py:410-424 | every script of creations, replacements, deletions, renames and links of public names, one batch per system call, is one of the schedules the theorems range over |
| `Filesystem.StandingGenerationIsLinked` | src/sddgov/fs_security.py:419-424 | a generation from which this process took no more links than it made, and which others made and did not remove, still has a name |
| `Filesystem.RenameKeeps` | src/sddgov/fs_security.py:275-320 | an exclusive rename keeps every name on a file and the link ledger balanced |
| `OwnedRemoval.ReserveKeeps` | src/sddgov/fs_security.py:425-445 | reserving either moves exactly what stood at the name to a fresh private name, leaving the name vacant, or changes nothing; absence is reported only of a vacant name |
| `OwnedRemoval.RestoreKeeps` | src/sddgov/fs_security.py:447-466 | a claim goes back to its name, or stays whole at the pending name because a later writer holds the name or the rename back failed |
| `OwnedRemoval.InspectKeeps` | src/sddgov/fs_security.py:468-537 | a claim is called owned only if identity, kind, and the size and digest asked for all match |
| `OwnedRemoval.SettleKeeps` | src/sddgov/fs_security.py:468-554 | from a held claim on, every outcome and every single fault of the inspection, the unlink, the rename back or the final sync leaves the books of a finished removal |
| `OwnedRemoval.RemoveOwnedConserves` | src/sddgov/fs_security.py:410-554 | generation conservation, under every schedule and any one fault: the only link that may go is one of the expected generation, and only if that generation was moved aside; True means exactly that link went; every other outcome took no link, and a generation moved aside is back at its name or at the reported pending name |
| `OwnedRemoval.SocketCleanupConserves` | src/sddgov/broker.py:737-796 | the same of the Broker's socket cleanup: at most the one link of its own socket goes, no other inode loses or gains a link |
| `OwnedRemoval.RemoveOwnedUnderReplacement` | src/sddgov/fs_security.py:425-445 | with writers that only create and replace, a name that was there is never found absent, and stays occupied unless the expected generation was removed |
| `OwnedRemoval.RemoveOwnedQuiet` | src/sddgov/fs_security.py:410-554 | with no other writer it is exactly a conditional unlink: removed if and only if the entry is the owned one, directory unchanged otherwise |
| `OwnedRemoval.Directory.RemoveOwnedAt` | src/sddgov/fs_security.py:425-554 | the retry loop and what follows it compute the function the theorems are about |
| `OwnedRemoval.Directory.SettleClaim` | src/sddgov/fs_security.py:468-554 | inspection, then unlink or restore, with the path of each fault |
| `OwnedRemoval.Directory.RestoreClaim` | src/sddgov/fs_security.py:447-466 | the exclusive rename back, a taken name and a failure of the rename itself |
| `Publication.ReadKeeps` | src/sddgov/evidence.py:376-460 | a reading that succeeds was of a single-linked regular file that is still at its name |
| `Publication.StageKeeps` | src/sddgov/evidence.py:1034-1104 | staging takes no link from any generation but its own and, if it succeeds, the staged file holds exactly the bytes |
| `Publication.ClaimOldKeeps` | src/sddgov/evidence.py:1105-1141 | claiming and vacating costs no other generation a link, and the predecessor exactly what the write's own account says; success means the exact predecessor (identity, size, time, digest) is held |
| `Publication.ExposeKeeps` | src/sddgov/evidence.py:1143-1185 | success means the name was vacant and now holds the new generation, alone, with exactly the bytes |
| `Publication.RestoreOldKeeps` | src/sddgov/evidence.py:982-1032 | giving the predecessor back costs no other generation a link, and drops the predecessor without linking it back only where another generation was found at the name |
| `Publication.CleanupKeeps` | src/sddgov/evidence.py:1257-1350 | the failure path keeps the same books |
| `Publication.NoLostUpdate` | src/sddgov/evidence.py:898-1255 | no lost update: in every interleaving, success replaced exactly the expected predecessor, which is still held; in every outcome no other generation lost a link this write did not make itself; on failure the predecessor loses none, except exactly where vacating removed one while another generation was aside, or while it was aside itself and then dropped for another found in its place; the first of these needs a writer that renames or links an existing file |
| `PredecessorLoss.LostIff` | src/sddgov/evidence.py:1105-1140 | what a failed write records of its predecessor loses it exactly under two kinds of schedule: the linking found another file and the reservation then took the predecessor; or both found the predecessor and it was given up for another file at the name |
| `PredecessorLoss.PredecessorLostIff` | src/sddgov/evidence.py:1105-1140 | so a predecessor found with one link, and on balance neither linked nor unlinked by others, has no name after a failed write if and only if the schedule is of one of these kinds |
| `LostPredecessor.PredecessorIsLost` | src/sddgov/evidence.py:1107-1140 | and there is such a run: a writer that renames the predecessor away and back around the linking leaves it without a name |
| `LostPredecessor.AnotherWasLinked` | src/sddgov/evidence.py:1107-1140 | it is of the first kind |
| `LostPredecessor.Removes` | src/sddgov/fs_security.py:410-554 | while others do nothing for its last three calls, an owned removal takes away exactly what its reservation found at the name |
| `Publication.RivalGenerationStaysLinked` | src/sddgov/evidence.py:1105-1185 | a generation another writer put in place and did not remove is still linked when the write ends: at a public name, at a pending or predecessor name, or at a private name it had before |
| `Publication.SuccessVacatedThePredecessor` | src/sddgov/evidence.py:1105-1160 | with writers that only create and replace, success means the write itself removed exactly one link of the expected predecessor |
| `Publication.WriteBytesAt` | src/sddgov/evidence.py:898-1255 | the procedure, step by step on the shared directory, computes the function the theorems are about |
| `Publication.StageAt` | src/sddgov/evidence.py:1034-1104 | create, link, drop the first name, re-read |
| `Publication.ClaimOldAt` | src/sddgov/evidence.py:1105-1141 | link the predecessor aside, vacate the name, re-read, give it back if it is another |
| `Publication.ExposeAt` | src/sddgov/evidence.py:1143-1185 | link at the vacant name, drop the claim, re-read twice |
| `Publication.RestoreOldAt` | src/sddgov/evidence.py:982-1032 | link the predecessor back or find a later writer, then drop the claim |
| `Publication.CleanupAt` | src/sddgov/evidence.py:1257-1350 | withdraw, restore, drop both staging names, each tried twice |
| `Transaction.UndoExact` | src/sddgov/evidence.py:1194-1204 | with no other writer, undoing one publication restores the directory before it exactly |
| `Transaction.RollbackRestores` | src/sddgov/evidence.py:106-122 | undoing any number of publications last to first restores the original directory exactly |
| `Transaction.DropKeeps` | src/sddgov/evidence.py:1217-1247 | dropping a predecessor touches no public name and, when it reports an error, no private one, whatever fault struck |
| `Transaction.FinalizeIsAtomic` | src/sddgov/evidence.py:124-157 | finalizing any number of creations and at most one replacement, whatever errors strike the verifications and whatever fault strikes each drop, ends with all new generations public or the original directory |
| `Transaction.QuietWriteTook` | src/sddgov/evidence.py:898-1255 | with no other writer a successful write is exactly one such publication: the state machine of the write and the effect rollback inverts agree |
| `AllOrNothing.QuietWrite` | src/sddgov/evidence.py:898-1350 | with no other writer a write is refused before staging, or is a creation whose name is taken, or publishes, each exactly when; in the first two cases every name is as before |
| `AllOrNothing.TransactionIsAtomic` | src/sddgov/evidence.py:69-157 | from the first write to the end of the transaction, whichever write is refused, whatever errors strike the verifications and faults the drops: every write published and every new generation public, or exactly the names found; an explicit rollback always restores them |
| `Commitment.CommittedWasSeen` | src/sddgov/evidence.py:124-157 | under every schedule of other writers: a transaction that commits had seen, in some state of its end, each publication's name holding its own staged file, which no other name had, with exactly its bytes |
| `Commitment.FinalizeCommitsIff` | src/sddgov/evidence.py:124-157 | with no other writer and no fault it commits exactly if each publication is still at its name, alone, with its bytes, and these are no more than a verification reads; then every new generation is public and no predecessor is left under a private name, and otherwise every name is as before |
| `Commitment.PublishesIff` | src/sddgov/evidence.py:898-1185 | with no other writer a write publishes exactly if the directory is as it expects: its name vacant, or held by the expected predecessor alone |
| `Commitment.TransactionCommitsIff` | src/sddgov/evidence.py:69-157 | a list of writes, begun to end, commits exactly if every one of them finds what it expects and fits a verification; then each name leads to exactly its bytes and nothing is left of the predecessors |
| `Transaction.MutationTransaction.Add` | src/sddgov/evidence.py:87-94 | a finished transaction accepts nothing |
| `Transaction.MutationTransaction.Rollback` | src/sddgov/evidence.py:106-122 | the reversed loop; a second call does nothing |
| `Transaction.MutationTransaction.Finalize` | src/sddgov/evidence.py:124-157 | verify all, then drop all, rolling back on the first failed or interrupted verification or on any drop error |
| `Transaction.MutationTransaction.DropPredecessors` | src/sddgov/evidence.py:140-146 | every predecessor is tried, errors do not stop the loop |
| `Json.ObjectRoundTrip` | src/sddgov/broker.py:221-231 | an object printed compactly parses back to exactly its members, or is refused if a character lies outside printable ASCII |
| `NonceLedger.RecordRoundTrip` | src/sddgov/broker.py:215-284 | every record the Broker appends is newline-free, at most 2048 bytes, and reads back as exactly itself |
| `NonceLedger.ScanExact` | src/sddgov/broker.py:171-194 | a scan accepts a file if and only if it is below the capacity and a list of valid one-line records with distinct nonces, and returns exactly those nonces |
| `NonceLedger.TornTailRefused` | src/sddgov/broker.py:181-186 | records followed by anything nonempty without a newline are refused |
| `NonceLedger.HandleCases` | src/sddgov/broker.py:299-318 | a request appends one valid record with a new nonce, or, if the Broker died, a prefix of it, or nothing |
| `NonceLedger.EveryRunIsSound` | src/sddgov/broker.py:215-247 | after any run of requests of any bytes and a crash anywhere, the file is valid records with distinct nonces below the capacity, or that plus one torn strict prefix of a record |
| `NonceLedger.TornLedgerIsFrozen` | src/sddgov/broker.py:171-247 | once torn, every later request of any kind is answered REJECTED and changes nothing |
| `NonceLedger.ConsumedIsFresh` | src/sddgov/broker.py:239-245 | CONSUMED means exactly one record was added, with a nonce no earlier record has |
| `NonceLedger.ConsumeExact` | src/sddgov/broker.py:232-245 | on a ledger neither torn nor full the answer is CONSUMED exactly when no record has the nonce; a full ledger rejects |
| `BrokerFields.HashIff` | src/sddgov/broker.py:59-59 | a digest field is accepted exactly if it is the lower-case hexadecimal printing of 32 bytes |
| `BrokerFields.NonceIff` | src/sddgov/broker.py:272-284 | a nonce exactly if it is 12 to 256 of the visible ASCII characters |
| `BrokerFields.StampIff` | src/sddgov/broker.py:65-68 | a time stamp exactly if it is the printing of a date of the calendar, leap years included, and a time of its day |
| `BrokerFields.ReadyIff` | src/sddgov/broker.py:299-303 | READY is the answer to the health request and to no other, exactly on a ledger that is not torn, and changes nothing |
| `BrokerFields.HealthIff` | src/sddgov/broker.py:432-441 | so the installer's health line is answered READY exactly on a ledger that is not torn, and REJECTED otherwise |
| `NonceLedger.NonceLedgerFile.ScanLocked` | src/sddgov/broker.py:171-194 | the line loop with its growing set of nonces |
| `NonceLedger.NonceLedgerFile.ConsumeNonce` | src/sddgov/broker.py:215-247 | capacity check, scan, append |
| `NonceLedger.NonceLedgerFile.HandleRequest` | src/sddgov/broker.py:287-318 | health, consume and every rejection |
| `Approval.AskedIsRecorded` | src/sddgov/autonomy.py:1404-1414 | whatever characters a nonce holds, if the Broker records anything for our request it records our nonce and our two digests |
| `Approval.ChosenIsApproved` | src/sddgov/autonomy.py:1308-1349 | an approval goes to the Broker only with this identifier and operation, and a signature that verified on a payload whose digest is the requested payload's |
| `Approval.ConsumptionEffect` | src/sddgov/autonomy.py:1308-1432 | one consumption either authorises, and then appended exactly the line of the chosen receipt and marked its row, or changes no decision, and no ledger unless the Broker died or its answer was lost |
| `Approval.ServedIff` | src/sddgov/autonomy.py:1363-1432 | the Broker answers our request CONSUMED if and only if nonce and digests have their forms, the ledger is whole and not full, and no record has the nonce |
| `Approval.SpentIff` | src/sddgov/autonomy.py:1308-1360 | exactly when an approval is spent: a row qualifies, the Broker serves it and its answer is heard |
| `Approval.ImportedIsUsable` | src/sddgov/autonomy.py:1261-1295 | what import writes a later evaluation chooses for exactly its own operation and payload, as long as the envelope verifies |
| `Approval.ImportedOnce` | src/sddgov/autonomy.py:1268-1275 | a second import with the same identifier or nonce has no effect |
| `Receipts.FreshIff` | src/sddgov/autonomy.py:1201-1258 | an envelope verifies exactly if every field says something, its payload is exact and of its scope, it was issued at most five minutes ahead, is unexpired, valid for at most a day, and signed |
| `Receipts.ImportIff` | src/sddgov/autonomy.py:1261-1305 | an import appends exactly one open row that says what the envelope says if it verifies, is for this place and is new by identifier and nonce, and changes nothing otherwise |
| `Receipts.ChosenIff` | src/sddgov/autonomy.py:1308-1349 | the Broker is asked for a row exactly if the requested payload is exact and for this place, and the row is the first with the identifier, open, of this operation, in agreement with its fresh receipt, and for the requested digest |
| `Approval.FindRow` | src/sddgov/autonomy.py:1321-1323 | the row used is the first with the identifier |
| `Approval.DecisionStore.ConsumeOperationApproval` | src/sddgov/autonomy.py:1308-1360 | undisturbed, the row is marked completed if and only if the ledger recorded the nonce; in every other case store and ledger are as before |
| `Escalation.EvaluationEffect` | src/sddgov/autonomy.py:1901-2359 | every evaluation either spent one approval, appending exactly its record, authorising its signed payload and marking its row, or left decisions and ledger alone, a lost answer or a dead Broker aside; which requests are let through is `Verdicts.VerdictIff` |
| `Escalation.AskedEvaluation` | src/sddgov/autonomy.py:2140-2199 | an evaluation that asks the Broker is exactly: one handled request, then the row marked and CONTINUE if CONSUMED was heard, and BLOCKED otherwise |
| `Escalation.HighRiskContinueIff` | src/sddgov/autonomy.py:1901-2216 | a high-risk category gets CONTINUE exactly when the request is well formed and its approval can be spent on the stores as they are, or none is known and its strict package is pending beside unrelated work |
| `Escalation.HighRiskContinue` | src/sddgov/autonomy.py:2140-2216 | then it is at L3, and either one approval was spent whose signed payload is the requested one, or nothing was spent and the attached package carries the requested payload |
| `Escalation.EffectsContinueIff` | src/sddgov/autonomy.py:2014-2098 | a request that declares an effect gets CONTINUE exactly at L3, past the envelopes, and on a spendable or pending approval, an owner's answer, or the category checkpoint, integrity mismatch or uncertainty |
| `Escalation.CheckpointWithEffectsContinues` | src/sddgov/autonomy.py:2014-2034 | at L3 a checkpoint that declares any effects of the closed list but publication gets CONTINUE and changes no store |
| `Escalation.ProductionCheckpointContinues` | src/sddgov/autonomy.py:2014-2034 | production, for one |
| `Escalation.RoutineWithEffectsNeverContinues` | src/sddgov/autonomy.py:1930-2030 | a routine category with any declared effect never gets CONTINUE, at any risk level |
| `Escalation.DangerousIsNeverDowngraded` | src/sddgov/autonomy.py:2014-2030 | a high-risk category or a declared effect below L3 never gets CONTINUE |
| `Escalation.RoutineContinueIff` | src/sddgov/autonomy.py:1901-2098 | a routine category gets CONTINUE exactly at low risk (L1 for merge and release readiness), without effects and without any further field |
| `Escalation.ProductContinue` | src/sddgov/autonomy.py:2100-2138 | a product decision gets CONTINUE only at L2, without effects, on the recorded decision with its identifier that matches in plain language or by a verified signature, or with its bound package attached and unrelated work declared |
| `Escalation.OwnerActionContinueIff` | src/sddgov/autonomy.py:2217-2359 | an owner action that passes the envelopes gets CONTINUE exactly when its bound package is there and the queue, asked with it, answers with a verified completion, or with the action pending beside unrelated work |
| `Escalation.OwnerActionContinue` | src/sddgov/autonomy.py:2217-2359 | and the row it rests on carries the identifier and the request digest of this very action, its completion verified, or pending and not expired |
| `Escalation.DeploymentContinue` | src/sddgov/autonomy.py:2438-2518 | a deployment CONTINUE implies all eight guards, L3, and one approval spent on exactly the requested payload or its pending package |
| `Envelopes.NotStoppedIff` | src/sddgov/autonomy.py:1901-2030 | a request is looked at exactly if it stands in the table written out there: a risk, a category and effects of the closed lists, effects only at L3, publication exactly with public release, and the fields and the risk of its category |
| `Envelopes.MismatchContinueIff` | src/sddgov/autonomy.py:2035-2047 | an integrity mismatch that is looked at, at any risk and with any effects, gets CONTINUE exactly if unrelated work is declared and BLOCKED otherwise; no store changes |
| `Envelopes.UncertaintyContinueIff` | src/sddgov/autonomy.py:2048-2066 | an uncertainty, likewise, exactly if it is machine-verifiable or unrelated work is declared |
| `Envelopes.CheckpointContinueIff` | src/sddgov/autonomy.py:2033-2034 | a checkpoint whenever it is looked at |
| `Verdicts.PresentableIff` | src/sddgov/autonomy.py:1595-1659 | a package is accepted exactly if nothing in it is blank, it lists something verified and two or more options with the recommended one among them, and carries an exact operation at L3 and only there |
| `Verdicts.DangerousIff` | src/sddgov/autonomy.py:2140-2359 | a dangerous request that is looked at is let through if a row qualifies and the Broker can serve it, put before a human if no row has its approval and its package is attached, and refused otherwise |
| `Verdicts.ProductIff` | src/sddgov/autonomy.py:2100-2138 | a product decision is let through if the recorded decision answers it, refused if that one does not answer its package, put before a human if its package is attached, and refused otherwise; no store changes |
| `Verdicts.OwnerIff` | src/sddgov/autonomy.py:2217-2359 | an owner action follows the queue's answer: put before the owner if just created, let through if completed with its proof or pending beside unrelated work, refused otherwise |
| `Verdicts.VerdictIff` | src/sddgov/autonomy.py:1901-2359 | exactly which requests of any kind, on any stores, get CONTINUE and which ACTION_REQUIRED, said of the request's fields and the stores' rows |
| `Verdicts.RaisedIff` | src/sddgov/autonomy.py:1901-1935 | an evaluation raises exactly if the risk is valid and the category is missing, or known while the effects are missing or not of the closed list |
| `Verdicts.DeploymentIff` | src/sddgov/autonomy.py:2438-2518 | a deployment gets exactly the answer of its nested request as an L3 high-risk operation if the eight named guards hold, the gate is L3 and the nested request names no other risk or category; BLOCKED otherwise |
| `ApprovalRuns.StepKeeps` | src/sddgov/autonomy.py:1308-1360 | every step of every agent, of the Broker and of anyone rewriting a store keeps one ledger line per granted or pending CONTINUE |
| `ApprovalRuns.AtMostOnce` | src/sddgov/autonomy.py:1901-2199 | over every run of evaluations by any number of agents, with arbitrary store rewriting and a crash anywhere, each nonce yields at most one consumed CONTINUE, and each authorises exactly the requested payload, which is the one signed, of the request's category and effects, under a signature that verified within its validity window |
| `ApprovalRuns.UndisturbedIsWhole` | src/sddgov/autonomy.py:2140-2199 | the steps of a run, taken one after the other, are the evaluation itself: same ledger, same decisions, same grant |
| `Snapshot.Unchanged` | src/sddgov/fs_security.py:20-29 | equal change times at two moments: nothing about the inode changed at any moment between |
| `Snapshot.DoubleCollect` | src/sddgov/fs_security.py:32-39 | files collected before an instant and confirmed after it all held their recorded bytes at that one instant |
| `Snapshot.SingleCollectIsNotEnough` | src/sddgov/fs_security.py:231-272 | without the second look there is a history in which two files read whole were never in place together |
| `Snapshot.FileSetSnapshot.BoundedRead` | src/sddgov/fs_security.py:107-119 | pieces of any size are the file if the file stood still |
| `Snapshot.FileSetSnapshot.Fetch` | src/sddgov/fs_security.py:159-196 | a file fetched was at its name, with its metadata and exactly these bytes, at one moment; while nothing changes it is fetched exactly if it is regular, single-linked, as long as it says, within the bound and protected where asked |
| `Snapshot.FileSetSnapshot.Read` | src/sddgov/fs_security.py:121-199 | earlier records are kept, a repeated read returns the same bytes within its bound, an error records nothing; while nothing changes a path is read exactly if it leads through directories to such a file, and then its bytes are returned |
| `Snapshot.FileSetSnapshot.Recheck` | src/sddgov/fs_security.py:234-268 | a second look that passes saw the same inode with the same metadata at the name, and every directory on the way in the one before it; while nothing changes it passes exactly if way, name, metadata and bytes are as recorded |
| `Snapshot.FileSetSnapshot.RequireRootIdentity` | src/sddgov/fs_security.py:385-400 | walking the root's path anew led to the retained root; while nothing changes exactly if it does |
| `Snapshot.FileSetSnapshot.Revalidate` | src/sddgov/fs_security.py:231-272 | if it succeeds there was one instant at which every file read, through its retained directory, held exactly its recorded bytes, regular, single-linked and protected as asked, and from that instant on the root's path was seen to lead to the root and the root to every file's directory; while nothing changes it succeeds exactly if all of it is as recorded |
| `Assumptions.VerifyAssumptions` | src/sddgov/autonomy.py:426-476 | if the signed files verify there was one instant at which every one of them was in place with its signed digest; while nothing changes they verify exactly if the paths differ and each leads to a safe file of its digest |
| `MergeGate.ParseNameStatus` | src/sddgov/merge_gate.py:402-446 | the index loop computes the specified parse |
| `MergeGate.OutputRoundTrip` | src/sddgov/merge_gate.py:402-446 | parsing what Git printed gives exactly the paths it named, renames and copies with both sides |
| `MergeGate.AcceptedIsRecords` | src/sddgov/merge_gate.py:411-418 | nothing but whole records is accepted |
| `MergeVerdict.ChangesRoundTrip` | src/sddgov/merge_gate.py:402-446 | parsing what Git prints of any changes finds exactly the paths they touch: one, or both of a rename or copy |
| `MergeGate.EveryDescendantCommitIsAuditOnly` | src/sddgov/merge_gate.py:449-493 | the loop over commits and parents, in any order, decides exactly the audit-only predicate |
| `MergeGate.EveryEdgeIsAudit` | src/sddgov/merge_gate.py:476-493 | every parent edge of a commit is checked, and a commit without parents fails |
| `MergeGate.AuditOnlyRange` | src/sddgov/merge_gate.py:449-493 | in any acyclic graph with merges, start, end and every commit between agree on all non-audit paths |
| `MergeGate.RollbackMerges` | src/sddgov/merge_gate.py:697-823 | once the three checks hold the three-way merge has no conflict at any path, and is the parent's tree off audit and evidence paths and the reviewed Head's on them |
| `MergeGate.AcceptedIffBaseIsParent` | src/sddgov/merge_gate.py:824-846 | the check then accepts if and only if Base equals that parent off those paths |
| `MergeGate.MergeReadyMeans` | src/sddgov/merge_gate.py:1085-1232 | MERGE_READY means: off audit and evidence paths the whole change from Base to Head is the one declared commit, and a differing protected path had its review verified |
| `MergeVerdict.AuditIff` | src/sddgov/merge_gate.py:394-399 | which paths are audit paths |
| `MergeVerdict.ProtectedIff` | src/sddgov/merge_gate.py:387-391 | a path is protected exactly if a pattern ends in a slash and the path goes on from it, or a pattern without one is the path |
| `MergeVerdict.MergeReadyIff` | src/sddgov/merge_gate.py:1150-1227 | exactly when a candidate is ready: only the gate's records changed since the reviewed Head, the one declared commit is between and has one parent, Base is that parent off audit and evidence paths, and a receipt is there and verified exactly if a protected path changed |
| `MergeVerdict.DirectoryIsReviewed` | src/sddgov/merge_gate.py:1195-1203 | a change of d/rest under the pattern d/ is never ready without a verified receipt |
| `MergeVerdict.FileIsReviewed` | src/sddgov/merge_gate.py:1195-1203 | nor is a change of a path that is a pattern |
| `MergeVerdict.ReadyIsOneCommit` | src/sddgov/merge_gate.py:1150-1227 | what is then merged is, off audit and evidence paths, the change of that one commit |
| `DepLifecycle.VerifyRedactionAssociations` | src/sddgov/evidence.py:2409-2597 | the error list is empty if and only if the report is associated with the manifest |
| `DepLifecycle.VerifyFiles` | src/sddgov/evidence.py:2444-2556 | the row loop: no error if and only if every row is right and no source or output comes twice; the sets and totals it leaves are those of the rows |
| `DepLifecycle.VerifyBlocked` | src/sddgov/evidence.py:2558-2589 | the same of the blocked rows |
| `DepLifecycle.TotalsAreSums` | src/sddgov/evidence.py:2497-2499 | totals are the per-rule sums over the rows, with no other rule |
| `DepLifecycle.OneToOne` | src/sddgov/evidence.py:2591-2597 | with nothing blocked, raw and shareable artifacts are paired one to one |
| `DepLifecycle.RowsAreWhole` | src/sddgov/evidence.py:2444-2505 | every row of an associated report names two plain files and counts each rule it names at least once |
| `DepLifecycle.ApplyKeeps` | src/sddgov/evidence.py:2230-2282 | every operation keeps the package lawful |
| `DepLifecycle.EveryRunIsLawful` | src/sddgov/evidence.py:2692-2750 | over every run the history is the exact prefix of the five phases; past red nothing is blocked, the report is associated with the manifest and the files are as registered |
| `DepLifecycle.NewDepIsLawful` | src/sddgov/evidence.py:1749-1758 | and a new package starts so |
| `DepLifecycle.PastRedIsFrozen` | src/sddgov/evidence.py:1839-1862 | once there is a report, and so past red, rows, report and both zones never change again |
| `DepLifecycle.BlockedStaysRed` | src/sddgov/evidence.py:2738-2740 | a package whose report blocks an artifact never leaves red |
| `DepLifecycle.RunCollects` | src/sddgov/evidence.py:1976-1995 | until the report exists, rows and raw files match one to one in every run |
| `DepLifecycle.RedactedIsAssociated` | src/sddgov/evidence.py:2009-2220 | redact writes a report if and only if no file makes the stream give up, and changes nothing otherwise; the verifier accepts the report if and only if, on every shared file, the streaming and the whole-text redactor give the same text and counts and that text is left alone by a second redaction |
| `DepLifecycle.DisagreementStaysRed` | src/sddgov/evidence.py:2507-2556 | a package with one shared file on which the two redactors differ never leaves red |
| `DepProvenance.RowsAreCollected` | src/sddgov/evidence.py:1976-1986 | over every run from a new package each raw row carries the collector, media type, digest and size of the very collection that added its file, whose bytes are still there, and every file has exactly one row |
| `DepProvenance.HarIsNeverShared` | src/sddgov/redaction.py:914-930 | over every run: what the HAR collector brought under any name, and what is a HAR by detected type or name, is blocked by redact, never shared, and keeps the package red |
| `DepProvenance.SuffixIs` | src/sddgov/redaction.py:914-930 | the suffix those checks look at is what follows the last dot, in lower case |
| `DepToProof.TransitionIff` | src/sddgov/evidence.py:2230-2282 | a package moves exactly one phase on, exactly if its evidence is complete and the documents named for that phase are |
| `DepToProof.ReachesProofIff` | src/sddgov/evidence.py:1976-2282 | a new package into which files are collected, redacted and advanced four times ends at proof exactly if there are files, all of them text that is no HAR and on which the two redactors agree, and the six documents are complete |
| `LineEnds.PiecesIff` | src/sddgov/redaction.py:70-70 | trimming blanks at line ends piece by piece is trimming the whole, count included, if and only if no piece ends between such blanks and the end of their line |
| `KeyLines.TidyRefinesBatch` | src/sddgov/redaction.py:325-433 | on logical lines that leave no marker unfinished, where there is nothing to hold back, streaming equals the whole-text private-key rule in output and count, dashes and all; a block left open is refused |
| `LineEnds.BothIff` | src/sddgov/redaction.py:355-433 | of the private-key and the blank rule only: where the private-key stage agrees with the whole-text rule, the two together agree exactly when that stage makes no such cut |
| `LineRules.EachIsWhole` | src/sddgov/redaction.py:407-418 | rules that do not reach across a line end give the same piece by piece as on the whole text, if every cut is at a line end |
| `LineRules.LinesAgree` | src/sddgov/redaction.py:187-198 | for any such rules: on lines that leave no marker unfinished and end their blocks at the end of a line, the streaming and the whole-text redactor give the same text, counts and refusals, except that an open block is refused by the stream alone |
| `LineRules.BlankRuleIsLocal` | src/sddgov/redaction.py:70-70 | the trailing-whitespace rule is such a rule |
| `LineRules.FieldRuleIsLocal` | src/sddgov/redaction.py:58-58 | so is the secret-field rule on unquoted values of one field |
| `LineRules.DashAgreeIff` | src/sddgov/redaction.py:325-418 | for any rules at all: on a line that ends in its one dash the redactors agree exactly if the rules may be applied on the two sides of the cut before it |
| `LineRules.DashInValue` | src/sddgov/redaction.py:325-418 | they may not where the dash ends an unquoted secret value: for every such value the two redactors differ |
| `LineRules.PlainLinesAgree` | src/sddgov/redaction.py:424-433 | in particular the redactors agree on every text of whole lines without dashes |
| `LineEnds.DashAtLineEnd` | src/sddgov/redaction.py:325-353 | they differ on a line that ends in a blank and a dash |
| `TextStream.StreamText` | src/sddgov/redaction.py:584-617 | the loop over the chunks, its decoder and its pending line compute the outcome of the division: a text, a decoding error or an error that ends the call |
| `TextStream.AcceptedAlike` | src/sddgov/redaction.py:584-617 | accepting, and the output, are those of the whole file, for every division into chunks |
| `TextStream.DivisionMattersIff` | src/sddgov/redaction.py:584-617 | which error is raised depends on the division if and only if one prefix of the file raises a decoding error and another an error of the redactor or a limit |
| `TextStream.ValidTextIsNeverBlocked` | src/sddgov/redaction.py:593-594 | no division of a file that is UTF-8 raises a decoding error |
| `TextStream.DivisionCanMatter` | src/sddgov/redaction.py:588-608 | for every redactor there are bytes, one letter more than a line may hold and then a byte that is no UTF-8, that block the artifact if the last two are read together and abort the call if they are read apart, after full reads of the code's size |
| `TextStream.DecodeSplit` | src/sddgov/redaction.py:593-594 | decoding UTF-8 piece by piece is decoding it at once |
| `TextStream.DecodeExact` | src/sddgov/redaction.py:550-594 | the byte-wise decoder accepts exactly the UTF-8 encodings of code point sequences, and inverts them |
| `TextStream.LimitsReject` | src/sddgov/redaction.py:589-616 | a file over the size limit or with any logical line over the line limit is rejected |
| `LogicalLines.AcceptedIff` | src/sddgov/redaction.py:584-617 | a file is accepted, with this output, exactly if it is UTF-8 within the size limit, none of its lines is over the line limit, and the redactor makes this of its lines in order and of the end |
| `PrivateKeys.BatchIsExpected` | src/sddgov/redaction.py:187-193 | the whole-text rule leaves the text outside blocks and one notice per block |
| `PrivateKeys.LineIsExpected` | src/sddgov/redaction.py:376-404 | so does the streaming rule on one line, from any state |
| `PrivateKeys.NothingHeld` | src/sddgov/redaction.py:325-353 | dash-free text is never held back as a possible marker |
| `LineEnds.OpenMarkerIsHeld` | src/sddgov/redaction.py:325-353 | a line that opens a marker and does not close it lets out what stands before and carries the marker over, or is refused if that is longer than 4096 characters |
| `PrivateKeys.StreamRefinesBatch` | src/sddgov/redaction.py:355-433 | however such a text is cut into lines, streaming output and count equal the whole-text rule; a block left open is refused at the end |
| `PrivateKeys.OutputHidesBodies` | src/sddgov/redaction.py:376-404 | two texts that differ only inside blocks come out the same |
| `PrivateKeys.StreamingTextRedactor.RedactKeys` | src/sddgov/redaction.py:355-404 | the object's method computes the streaming rule, fragment handling and refusals included |
| `Bundle.VerifyBundle` | src/sddgov/trusted_runner.py:945-1054 | the entry accounting accepts exactly the archives described |
| `Bundle.CheckEntries` | src/sddgov/trusted_runner.py:946-973 | entry count, distinct names, safe paths, stored entries, total size |
| `Bundle.CheckManifest` | src/sddgov/trusted_runner.py:992-1046 | the manifest loop with its growing sets |
| `Bundle.EntryIsFixed` | src/sddgov/trusted_runner.py:1022-1054 | every entry of an accepted archive is fixed by the source tree digest, a manifest row or a managed digest |
| `Bundle.ManagedHaveOriginals` | src/sddgov/trusted_runner.py:1027-1038 | every managed file has its original beside it, with the containment profile's digest |
| `Bundle.AcceptedIsDetermined` | src/sddgov/trusted_runner.py:945-1054 | any two archives accepted for the same operation hold the same names with the same bytes |
| `SealedBundle.SafeIff` | src/sddgov/trusted_runner.py:955-964 | a name is safe exactly if it is a relative path of parts none of which is "..", without a NUL or a backslash |
| `SealedBundle.AcceptedIff` | src/sddgov/trusted_runner.py:945-1054 | exactly which archives are accepted, entry by entry: the count and size, plain stored files under distinct safe names, a canonical manifest of the signed digest, its rows with their files and originals, the managed files, and nothing else |
| `SealedBundle.TotalsAdd` | src/sddgov/trusted_runner.py:970-973 | the size is the sum over the entries |
| `ExternalActions.ApplyKeeps` | src/sddgov/governance.py:282-485 | each operation keeps the queue sound, changes no identity and moves rows only off pending |
| `ExternalActions.EveryRunIsSound` | src/sddgov/governance.py:188-485 | over every run with any clock: identifiers unique, every row passes the validator on the next load, terminal rows carry proof dated within the lifetime, expired rows are dated after it, and the only moves are from pending to a final status |
| `ExternalActions.CreatedOnce` | src/sddgov/governance.py:309-367 | an identifier is created at most once, whatever runs in between |
| `ExternalActions.ExistingIsCurrent` | src/sddgov/governance.py:322-355 | asking again never returns a pending row that has expired, and answers about the very request made |
| `ExternalActions.FinalIsFinal` | src/sddgov/governance.py:443-448 | a final row never changes again |
| `ExternalActions.ResolveIsIdempotent` | src/sddgov/governance.py:443-446 | resolving again with the same receipt changes nothing and says so |
| `ExternalActions.Find` | src/sddgov/governance.py:315-321 | the one row with an identifier, none, or several |
| `ActionQueue.EnqueueIff` | src/sddgov/governance.py:282-367 | asking appends one new pending row exactly if nobody asked for the action; answers with the one row about it, expired if its time is over, exactly if that row is about this very request; and refuses without a change otherwise |
| `ActionQueue.ResolveIff` | src/sddgov/governance.py:370-485 | a resolution settles exactly the pending row it is about, within its lifetime, with exactly its proof; one recorded with the same receipt is answered again unchanged; anything else is refused without a change |
| `ActionQueue.StandsIff` | src/sddgov/governance.py:188-279 | which rows the validator lets stand |
| `ExternalActions.ExternalActionStore.EnqueueAction` | src/sddgov/governance.py:282-367 | load, validate all, then create, expire or return the row |
| `ExternalActions.ExternalActionStore.ResolveAction` | src/sddgov/governance.py:370-485 | load, validate all, match identity and lifetime, then resolve |
| `ExternalActions.ExternalActionStore.Load` | src/sddgov/governance.py:308-321 | every row is validated before anything is done |
| `MarkedBlocks.Find` | src/sddgov/installer.py:126-127 | the first occurrence at or after a position |
| `MarkedBlocks.ExtractAfterUpsert` | src/sddgov/installer.py:125-156 | extract after upsert returns the block, in a text without markers and in one that had a block, and replacing keeps all text outside the block |
| `MarkedBlocks.UpsertTwice` | src/sddgov/installer.py:147-156 | upsert is idempotent |
| `MarkedBlocks.RemoveAfterUpsert` | src/sddgov/installer.py:175-193 | remove after upsert leaves the original up to outer white space, or no file if there was nothing else |
| `MarkedBlocks.BodyMakesBlock` | src/sddgov/installer.py:117-122 | every body without markers makes a block the other statements apply to |
| `MarkedBlocks.InstallerMarksAreOk` | src/sddgov/installer.py:18-21 | both marker pairs in use meet the demands on markers |
| `MarkedBlocks.TextFile.UpsertBlock` | src/sddgov/installer.py:147-172 | a malformed file is left alone |
| `MarkedBlocks.TextFile.RemoveBlock` | src/sddgov/installer.py:175-213 | rewritten, deleted, or left alone |
| `SshFraming.TakeUndoesFrame` | src/sddgov/owner_approval.py:547-560 | taking undoes framing at any offset before any suffix |
| `SshFraming.TakenWasFramed` | src/sddgov/owner_approval.py:553-560 | what is taken was framed: the bytes passed over are exactly its encoding |
| `SshFraming.KeyBlobHoldsKey` | src/sddgov/owner_approval.py:603-606 | a key blob is two strings, the algorithm name and the key, and nothing more |
| `SshFraming.RequireAgentIdentity` | src/sddgov/owner_approval.py:609-634 | the loop decides exactly the specified acceptance |
| `SshFraming.AcceptsExactly` | src/sddgov/owner_approval.py:609-634 | a response is accepted if and only if it is the byte-exact encoding of at most 128 bounded pairs in which the expected key occurs exactly once |
| `SshFraming.AcceptedIff` | src/sddgov/owner_approval.py:609-634 | the same in the protocol's numbers: message 12, big-endian lengths, at most 128 pairs, no string over a mebibyte, the key at exactly one place |

## Findings

Where the code does not do what its documentation or its tests promise, with the condition under which it does.

- The predecessor of a failed write can be left without a name (`src/sddgov/evidence.py:1107-1140`). The write reads one generation, another writer renames it away and puts a second one at the name, the write links the second aside, the writer renames the first back, and the write vacates the name by identity. `LostPredecessor.PredecessorIsLost` is that run; `PredecessorLoss.PredecessorLostIff` says for which schedules it happens, and `Publication.NoLostUpdate` that a writer which only creates, replaces and deletes cannot bring this one about.
- The streaming redactor that writes and the whole-text redactor that verifies are two functions (`src/sddgov/redaction.py:407-418`, `src/sddgov/evidence.py:2548-2556`). A dash at the end of a line is held back as a possible marker, so the rules see the line without it. On `a -`, newline, `b`, newline the first removes the blank before the dash and the second does not (`LineEnds.DashAtLineEnd`); on `api_key=abc-`, newline, `next`, newline the first keeps the dash and the second takes it for part of the value (`LineRules.DashInValue`). The verifier then refuses what redact wrote and the package never leaves red (`DepLifecycle.DisagreementStaysRed`). They agree, for all rules that do not reach across line ends, on lines that leave no marker unfinished and end their blocks at the end of a line, which can be told from the text (`LineRules.LinesAgree`); on a line that ends in its one dash, exactly if the rules commute with the cut (`LineRules.DashAgreeIff`); `LineEnds.BothIff` is exact for the private-key and the blank rule.
- Whether a file with two faults is blocked or aborts the redaction depends on how it was read (`src/sddgov/redaction.py:588-608, 944-955`): a line of letters one too long and then a byte that is no UTF-8 is blocked if the last two bytes come together, and aborts the call if a short read parts them, whatever the rules (`TextStream.DivisionCanMatter`); the exact condition is `TextStream.DivisionMattersIff`.
- At L3 a request that declares external effects gets CONTINUE without any authority under the categories checkpoint, integrity mismatch and uncertainty (`src/sddgov/autonomy.py:2032-2066`): `Escalation.ProductionCheckpointContinues` is one such request, and `Escalation.EffectsContinueIff` says exactly which are let through. `docs/AUTONOMOUS_DEVELOPMENT_V1_2.md:76` promises otherwise.

## Left out

Environment:

- Directory walks, file modes, ownership, fsync and descriptor handling are reduced to exclusive rename, exclusive create, hard link, stat, read and unlink on one directory; one fault per removal is injected, at the reservation, the inspection, the unlink, the rename back or the final sync, and any number of errors at the verifications of a transaction; none between linking a predecessor claim and recording its identity, and none inside a write.
- Inode numbers are not reused within a run, and other writers replace files instead of rewriting them in place; a writer that rewrites an inode is outside the model.
- Directory components of a snapshot, and the path of its root, are looked at again by identity only, in the source as here: each was seen in place at some moment after the instant at which the files were, not all at one.
- `git merge-tree` is a path-wise three-way merge: a path that is a file on one side and a directory on the other, which Git reports as a conflict, is not modelled, nor are rename detection inside the merge and Git's own object checks.
- Signature verification, base64, ZIP parsing, time zones and the ISO 8601 parser are parameters or plain integers; the Broker's stamps are the one form its own clock prints, so a ledger holding other spellings of a time is refused here.
- JSON in the ledger and its requests is the object of ASCII strings; values of other types are refused at once, where the source could still accept a record in which a later duplicate key replaces such a value.

Parts of the system:

- Commitment.TransactionCommitsIff: for writes on names of their own; a transaction that writes one name twice is outside it.
- AllOrNothing.TransactionIsAtomic: with other writers about, only the link conservation of `Publication.NoLostUpdate` and `OwnedRemoval.RemoveOwnedConserves` is stated, not atomicity of names; more than one replacing write per transaction, which no caller builds, is outside the statement.
- Publication.WriteBytesAt: operating-system errors inside a write, and the finalize step a write without a transaction performs itself, are not modelled.
- NonceLedger.ScanExact: a stamp is accepted in the one form the Broker's clock prints; the source accepts other ISO 8601 spellings too.
- NonceLedger.NonceLedgerFile.ScanLocked: the same of the loop.
- ApprovalRuns.AtMostOnce: asks that no two payloads share a SHA-256 digest; the decision lock and the several clock readings inside one evaluation are not modelled; the statement does not need the lock, and one evaluation uses one time.
- Escalation.ProductContinue: the digests behind a plain-language match and the verification of L2 signatures are parameters.
- DepLifecycle.DisagreementStaysRed: the two redactors are parameters there, and are not instantiated with those of `LineRules`.
- LineRules.LinesAgree: that the rules do not reach across a line end of the text is asked for; it is proved of two rules, the others being regular expressions, and the fields that do reach across, which the stream refuses or gathers, are not modelled.
- DepLifecycle.EveryRunIsLawful: documents are either complete or not, schema validation, attachments, pending-residue names and the portable mode are not modelled, and nobody edits the package's files behind its back.
- PrivateKeys.StreamRefinesBatch: the statement is for any cut of texts without stray dashes or nested blocks; for cuts at line ends `KeyLines.TidyRefinesBatch` covers those too; the other redaction rules are regular expressions and stay an arbitrary line redactor in `TextStream`.
- Bundle.VerifyBundle: the seal over the whole archive and the operation's own validation come before it; that `managed_hashes` names exactly the managed paths is a precondition of the determinism statement because the operation validator enforces it.
- The order of steps in `TrustedRunner.execute`, the merge gate's rollback document grammar, local checks, review receipts and digests of changes.
- MergeVerdict.MergeReadyIff: exact for the steps of the gate that are modelled; the others (the gate file's own contract, strict package verification, the rollback document, raw evidence tracked by Git, the digest of the change, the local checks) can refuse a candidate it calls ready, and the verification of a receipt is a parameter.
- The quoted-field and cross-line state of the streaming redactor, whose meaning lies in its regular expressions.
- `reviewer.py`, `pilot.py`, `benchmark.py`, `production_containment.py`, `ci_guard.py`, the command-line front ends and the release scripts: they parse arguments, examine the host and apply short rules in sequence, and the protocols modelled here do not depend on them.
- The signing and import of product decisions: what a later evaluation asks of a recorded decision is modelled, how it was signed and stored is not.
