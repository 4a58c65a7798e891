# Verified model of the JeRyu forge's hard core

JeRyu is a Git forge: it hosts repositories, runs a merge queue whose heads are
audited by a scoring tool, mirrors to GitHub, and relays provider calls through a
gateway. This project models the parts of it that carry real state, protocol or
string-matching logic and proves what they promise, over every input and every
run, and where calls of the forge interleave, over every interleaving of them.

| file | what it models |
|---|---|
| `Wildcard`, `StarLoop`, `SplitMatch` | the two `*` matchers, against one definition of a wildcard match |
| `AuditQueue`, `QueueLeases` | the bounded ticket queue with leases |
| `Verdict`, `ReportFields` | the audit verdict, and the report fields it is read from |
| `ProofProtocol`, `PushDecisions`, `ProofOrigins`, `ProofSafety`, `StrandingRun`, `Bridge` | the verdict's storage and recovery, and the push, report, restore and restart protocol around it |
| `RestorePass`, `RestoreRuns` | what the pass after a restart promises, and when it keeps it |
| `ReportRaces`, `RaceRun` | reports taken apart and interleaved |
| `LineReader`, `RelayBody`, `RelayRequest`, `Chunks` | the gateway's line reader and the two relayed bodies |
| `CanonicalJson`, `CanonicalProofs`, `Capability` | canonical signing text |
| `Ancestry`, `GreenRef`, `Mirror`, `HeadCleanup` | the ref protocols: green ref, GitHub reconcile, merged-head cleanup |
| `Utf8`, `PktLine`, `Refusal` | pkt-line framing and side-band answers |
| `MockProvider`, `MockGrants`, `MockSafety`, `MockState` | the mock OAuth provider |
| `Substring`, `Redact`, `WorkflowId` | token redaction, synthetic workflow ids |
| `Prelude`, `Lex`, `JsonValue` | shared types |

`dafny verify dfyconfig.toml` checks all of it.

## How it is modelled

- Code that changes state in place is a class or a method with a loop, proved
  against a function; the results are then proved about that function. Where
  calls interleave (green ref, head cleanup, reports) each git call or write is one
  step of a machine, and the method is shown to be those steps with nothing in between.
- Git, clocks, random names, the check service and the score store answer
  through parameters. In the ref protocols a write may take effect and still be
  reported as failed.
- A ref update that expects no old value creates the ref and fails if it exists,
  as its use for new session branches says (`crates/jeryu-api/src/web/sessions.rs:549`).
- Whether the score store keeps or overwrites the row of an earlier report of the
  same branch and commit is not in this repository; both are modelled.
- Strings are byte or character sequences. Dafny's `int` stands for the source's
  integers; the FNV-1a hash, where wrap-around matters, is computed on 64 bits.

## Where the code falls short of its description

Each of these is stated with the input or run that shows it and the exact
condition under which the code does what is wanted.

- The branch-filter loop tests equality before the star, so a `*` inside a value
  uses up the pattern's star (`StarLoop.WitnessFails`, `StarLoop.ExactlyWhenComplete`).
  This is about the function: it is called on branch names, and git refuses a `*`
  in those.
- The green ref can go back when the branch moves between a call's two reads
  (`GreenRef.AStaleHeadRewinds`, `GreenRef.EveryMoveIsSound`).
- With an overwriting store, a failing report whose check is lost, or any backfill
  of the same branch and commit, can leave a green head without support
  (`StrandingRun.AGreenHeadCanBeStranded`, `StrandingRun.ABackfillCanStrand`;
  `ProofSafety.ReportStrandsExactlyWhen`, `ProofSafety.BackfillStrandsExactlyWhen`,
  and over whole runs `ProofSafety.EveryGreenHeadIsBacked`).
- With an overwriting store, a passing check that goes out after a later report of
  the same head was recorded does the same, although no check is lost
  (`RaceRun.AnOldCheckCanComeLast`, `ReportRaces.EveryGreenHeadIsBackedInRaces`).
- Every open pull request head whose proof is pending is promised a ticket after a
  restart. One whose report was recorded while its check was lost gets neither a
  ticket nor its proof (`StrandingRun.ALostCheckStaysPending`), of more than 512 some
  lose theirs to later ones (`RestoreRuns.OneTooMany`), and so does one of two whose
  branches have one name (`RestoreRuns.OneOfTwo`). For heads that differ,
  `RestorePass.PromiseKeptExactlyWhen` says when the promise is kept.
- Notices added to an answer that ends in a data packet whose last bytes are `0000`
  make it unreadable, where the comment says nothing already in the body is touched
  (`Refusal.UnendedReportBreaks`, `Refusal.AppendReadsExactlyWhen`).
- A workflow's id is said to depend on its name alone; for all names of a projection
  it does if and only if no two of them hash alike (`WorkflowId.NamesCollide`,
  `WorkflowId.AssignIds`).

## Model

| member | source | states |
|---|---|---|
| `StarLoop.GlobMatch` | crates/jeryu-api/src/ci_bridge.rs:962-991 | the one-star backtracking loop ends on every input and computes `StarGlob`, the recursive form of its scan |
| `StarLoop.Sound` | crates/jeryu-api/src/ci_bridge.rs:962-991 | every `true` is a wildcard match, for any pattern and any value |
| `StarLoop.Complete` | crates/jeryu-api/src/ci_bridge.rs:971-978 | every wildcard match is found when a `*` in the value can only be its last byte |
| `StarLoop.WitnessFails` | crates/jeryu-api/src/ci_bridge.rs:971-978 | for any other value with a `*`, the pattern `Witness` matches it and the loop says no |
| `StarLoop.ExactlyWhenComplete` | crates/jeryu-api/src/ci_bridge.rs:962-991 | the loop decides the wildcard relation for all patterns if and only if the value's only possible `*` is its last byte |
| `SplitMatch.GlobMatch` | crates/jeryu-api/src/github_mirror.rs:94-111 | splitting at `*` and taking leftmost finds answers `true` exactly when the wildcard relation holds, for every pattern and text |
| `SplitMatch.MoveLeft` | crates/jeryu-api/src/github_mirror.rs:104-109 | the exchange argument: placing a middle part at its leftmost find loses no match |
| `SplitMatch.TagExcluded` | crates/jeryu-api/src/github_mirror.rs:90-92 | a tag is excluded exactly when some pattern matches it |
| `SplitMatch.BothMatchers` | crates/jeryu-api/src/ci_bridge.rs:962-991 | run side by side, the branch matcher never accepts more than the tag matcher, and the two agree on every value without an inner `*` |
| `AuditQueue.Queue.ExpireStaleClaims` | crates/jeryu-api/src/ci_bridge/audit_queue.rs:238-249 | every ticket keeps its place and all but its claim; it is free if and only if it was or its claim is more than 1800 s old, and else unchanged |
| `AuditQueue.Queue.Enqueue` | crates/jeryu-api/src/ci_bridge/audit_queue.rs:149-197 | the new ticket list and the outcome are `Enqueued` of the old list |
| `AuditQueue.Queue.Claim` | crates/jeryu-api/src/ci_bridge/audit_queue.rs:200-216 | hands out the first min(max, 8) free or expired tickets in order, or as many as there are, each now under this runner's claim; every other ticket has only aged |
| `AuditQueue.Queue.Take` | crates/jeryu-api/src/ci_bridge/audit_queue.rs:220-226 | removes and returns the ticket of that head, or changes nothing |
| `AuditQueue.EnqueueAccounts` | crates/jeryu-api/src/ci_bridge/audit_queue.rs:149-197 | accounts for every outcome: `Full` only with 512 live claims and no change beyond expiry, superseding never also evicts, and no live claim is lost except by a queue-ref replacement |
| `AuditQueue.AlwaysGood` | crates/jeryu-api/src/ci_bridge/audit_queue.rs:149-249 | in every run there is at most one ticket per (owner, repo, head), at most 512 tickets, and claim fields agree |
| `AuditQueue.LeasesKeepApart` | crates/jeryu-api/src/ci_bridge/audit_queue.rs:200-249 | in every run with a non-decreasing clock, two claims of a head with no take and no queue-ref replacement between them are more than 1800 s apart |
| `AuditQueue.TakenOnce` | crates/jeryu-api/src/ci_bridge/audit_queue.rs:220-226 | after a take, a second take of that head finds nothing until it is enqueued again |
| `QueueLeases.EnqueueHeld` | crates/jeryu-api/src/ci_bridge/audit_queue.rs:155-169 | a head that has a ticket gets a new one, in its place, if and only if it is a queue ref's and asks for another base or mode |
| `QueueLeases.EnqueueNew` | crates/jeryu-api/src/ci_bridge/audit_queue.rs:170-196 | a new head drops its branch's unclaimed tickets, with 512 left also the oldest unclaimed one, and goes last; it is refused if and only if all 512 are claimed |
| `QueueLeases.KeptInPlace` | crates/jeryu-api/src/ci_bridge/audit_queue.rs:172-177 | each ticket is kept in its place or, if it is unclaimed and of the new one's branch, left out, whatever stands around it |
| `QueueLeases.TakeHeld` | crates/jeryu-api/src/ci_bridge/audit_queue.rs:220-226 | a take removes and returns the head's ticket and nothing else |
| `QueueLeases.LeaseEndsExactly` | crates/jeryu-api/src/ci_bridge/audit_queue.rs:200-249 | in every run, more than 1800 s after its last claim a head that still has a ticket is handed out by a claim if and only if fewer free or expired ones stand before it than min(max, 8) |
| `QueueLeases.NeverMoreThan512` | crates/jeryu-api/src/ci_bridge/audit_queue.rs:179-187 | in every run at most 512 tickets wait |
| `Verdict.JudgedRowPasses` | crates/jeryu-api/src/ci_bridge/jankurai.rs:431-497 | the pass flag of a judged report is exactly the passing of the row it is stored as |
| `ReportFields.JudgedByItsFields` | crates/jeryu-api/src/ci_bridge/jankurai.rs:431-497 | for any report and exit, by the JSON fields alone: it passes if and only if the exit is 0 and it is the no-changes report, or holds a score and a minimum up to 100, the score at least the minimum and 85, no hard finding and an empty list of caps; the row's score, hard findings and caps are those fields; and which of the two other decisions a report without them gets |
| `ReportFields.RecoversExactlyWhen` | crates/jeryu-api/src/ci_bridge/jankurai.rs:529-575 | a stored row gives its verdict back if and only if it was scored, its report is stamped by a governed audit, and it keeps what the report says; the verdict is what the report clears |
| `ReportFields.StampDecidesNothing` | crates/jeryu-api/src/web/repositories.rs:586-604 | the stamp replaces any the report came with and changes nothing a verdict is read from |
| `Verdict.RecoveryAgreesWithRow` | crates/jeryu-api/src/ci_bridge/jankurai.rs:529-575 | recovering a stored verdict neither invents a pass nor overturns one |
| `Verdict.RecordedVerdictRecovers` | crates/jeryu-api/src/web/repositories.rs:586-604 | round trip: a recorded, stamped verdict is recovered with the same request, the same pass flag and the base it was audited against, if and only if it was scored |
| `PushDecisions.RecoversTheNewest` | crates/jeryu-api/src/ci_bridge/audit_queue.rs:536-548 | a verdict is recovered if and only if some row of that base can be; none of them is newer; at one instant a failing one wins, then the greater branch, then the greater id |
| `PushDecisions.PublishesTheNewest` | crates/jeryu-api/src/ci_bridge.rs:249-354 | while its proof is not seen complete, a push of a queue ref publishes the newest usable verdict of the ticket's base, green or red, unless it stands already or the post fails |
| `PushDecisions.NewerFailureStands` | crates/jeryu-api/src/ci_bridge/audit_queue.rs:536-548 | a green proof a push adds beside a failing row of the ticket's base comes from a newer row |
| `PushDecisions.QueuePushDecides` | crates/jeryu-api/src/ci_bridge/audit_queue.rs:489-522 | a push of a queue ref counts receipted rows of the ticket's own base only: with a complete proof it is left alone if there is one, without one it is published from the newest usable one, and in every other case it asks for an audit |
| `PushDecisions.BranchPushDecides` | crates/jeryu-api/src/ci_bridge/audit_queue.rs:489-522 | a pushed branch is left alone if and only if any row of its head is seen, and asks for an audit otherwise |
| `PushDecisions.BranchWants` | crates/jeryu-api/src/ci_bridge/audit_queue.rs:423-476 | which branches ask for an audit, and against what: `main` against what it was, any other against its merge base, a head with no base as a whole |
| `PushDecisions.QueueRefWants` | crates/jeryu-api/src/ci_bridge/audit_queue.rs:417-476 | a queue ref asks for an audit against its merge base unless the repository has declined and nothing requires it |
| `PushDecisions.QueueBaseExactly` | crates/jeryu-api/src/ci_bridge/audit_queue.rs:417-422 | a ref is a queue ref of a base exactly when it is that base and a number of 64 bits behind the prefix |
| `PushDecisions.OtherRefsWantNothing` | crates/jeryu-api/src/ci_bridge/audit_queue.rs:426-428 | any other ref asks for nothing |
| `PushDecisions.AskedHeadWaits` | crates/jeryu-api/src/ci_bridge.rs:262-299 | a head that is asked for gets a pending check, whether or not the queue took it, and the answer says if it did |
| `PushDecisions.RetiresExactlyWhen` | crates/jeryu-api/src/ci_bridge.rs:356-368 | the head's ticket goes if and only if it asks for the very audit that was recovered |
| `ProofProtocol.RecoveryIgnoresListOrder` | crates/jeryu-api/src/ci_bridge/audit_queue.rs:536-548 | the row chosen for recovery does not depend on the order rows are listed in |
| `ProofSafety.QueueingNeverDecides` | crates/jeryu-api/src/ci_bridge.rs:249-300 | queueing writes no score and adds at most one proof, in progress unless it publishes a stored verdict of a queue ref again |
| `ProofSafety.RestoringNeverCompletes` | crates/jeryu-api/src/ci_bridge.rs:378-407 | restoring a head's audit never completes its proof |
| `ProofSafety.EveryGreenProofIsBacked` | crates/jeryu-api/src/ci_bridge.rs:249-523 | over every run of pushes, claims, reports, backfills, restarts and restores whose store keeps earlier rows, each green proof has a stored scored row of that head whose own report is stamped by a governed audit and clears it: at or above its floor, with no hard finding and no cap |
| `ProofOrigins.EveryStampedRowWasEarned` | crates/jeryu-api/src/web/repositories.rs:551-688 | in every run, whatever the store does, each row with a stamped base was earned by an accepted report of an open ticket for that very head, branch and base, and keeps what that report said |
| `ProofOrigins.ReportEffect` | crates/jeryu-api/src/ci_bridge.rs:476-523 | a report that answers an open ticket takes it, stores its row and completes the proof, green if and only if what was submitted clears the head; any other changes nothing |
| `ProofOrigins.AuthorizedExactly` | crates/jeryu-api/src/web/jankurai/audits.rs:135-213 | a submission is accepted exactly for a named runner, full object ids, a well-formed receipt, the governed auditor, and the ticket's own head, branch and base, with a full audit where the ticket asks for one |
| `ProofSafety.ReportStrandsExactlyWhen` | crates/jeryu-api/src/ci_bridge.rs:476-523 | with a store that overwrites rows, a report keeps every green head supported if and only if it is not the stranding kind |
| `ProofSafety.BackfillStrandsExactlyWhen` | crates/jeryu-api/src/web/repositories.rs:640-688 | with a store that overwrites rows, an administrator's backfill keeps every green head supported if and only if it is not the stranding kind |
| `ProofSafety.EveryGreenHeadIsBacked` | crates/jeryu-api/src/ci_bridge.rs:249-523 | whatever the store does with earlier rows, every head whose newest proof is green is supported all along a run if and only if no step of it is a report or a backfill of the stranding kind |
| `ProofSafety.RestoringGivesATicket` | crates/jeryu-api/src/ci_bridge.rs:378-407 | after one head's restore it has a ticket, or live claims fill the queue, if and only if that was so before or the head is auditable and no stored score of it is seen |
| `RestorePass.DueServedExactlyWhen` | crates/jeryu-api/src/ci_bridge.rs:409-459 | after a restart, and when no branch is due with two heads, the whole pass leaves a ticket for every due head if and only if there are at most 512 of them |
| `RestorePass.PromiseKeptExactlyWhen` | crates/jeryu-api/src/ci_bridge.rs:409-459 | for heads that differ, every open pull request whose head's proof is pending has a ticket after a restart and the pass if and only if all of them are due, no two are of one branch, and they are at most 512 |
| `RestorePass.Displaced` | crates/jeryu-api/src/ci_bridge/audit_queue.rs:172-177 | on an empty queue, the head of a branch that is enqueued again with another head has no ticket at the end |
| `RestoreRuns.RunServesExactlyWhen` | crates/jeryu-api/src/ci_bridge.rs:409-459 | a run from the empty forge that pushes open, auditable pull requests with different heads, whose reads and posts work, restarts and restores ends with a ticket for each if and only if their branches differ and they are at most 512 |
| `RestoreRuns.OneTooMany` | crates/jeryu-api/src/ci_bridge/audit_queue.rs:179-187 | the run over 513 pull requests on as many branches ends with one of them pending and without a ticket |
| `RestoreRuns.OneOfTwo` | crates/jeryu-api/src/ci_bridge/audit_queue.rs:172-177 | the run over two pull requests whose branches have one name ends with one of them pending and without a ticket |
| `ProofSafety.LostCheckStaysPending` | crates/jeryu-api/src/ci_bridge.rs:497-520 | a pending branch head whose report is recorded while its check is lost stays pending without a ticket, and no restore that can read the scores changes anything |
| `StrandingRun.AGreenHeadCanBeStranded` | crates/jeryu-api/src/ci_bridge.rs:476-523 | a run of two pushes and two reports ends with a green head no row supports |
| `StrandingRun.ABackfillCanStrand` | crates/jeryu-api/src/web/repositories.rs:640-688 | a run of a push, a passing report and a backfill of the same branch and commit ends the same way |
| `StrandingRun.ALostCheckStaysPending` | crates/jeryu-api/src/ci_bridge.rs:409-459 | a run of a push, a report whose check is lost, a restart and a restore ends with an open pull request's head pending and without a ticket |
| `ReportRaces.ReportIsThreeMoves` | crates/jeryu-api/src/ci_bridge.rs:476-523 | consume, record and publish with nothing in between are the whole report |
| `ReportRaces.EveryGreenProofIsBackedInRaces` | crates/jeryu-api/src/ci_bridge.rs:476-523 | with a store that keeps its rows, every green proof and every passing verdict still to be posted is backed, in every interleaving of reports taken apart with one another and with all other operations, and with a stop after any move |
| `ReportRaces.EveryGreenHeadIsBackedInRaces` | crates/jeryu-api/src/ci_bridge.rs:476-523 | whatever the store does, every head whose newest proof is green is supported all along such an interleaving if and only if no move strands one |
| `RaceRun.AnOldCheckCanComeLast` | crates/jeryu-api/src/ci_bridge.rs:491-520 | two reports of one head whose checks all go out, the older one last, end with a green head no row supports |
| `Bridge.PushBridge.RetireRecoveredTicket` | crates/jeryu-api/src/ci_bridge.rs:356-368 | takes the ticket whose base a recovered verdict covers, and leaves any other |
| `Bridge.PushBridge.RepublishRecordedProof` | crates/jeryu-api/src/ci_bridge.rs:308-354 | posts the stored verdict again unless the same proof stands already |
| `Bridge.PushBridge.ProofAlreadyPosted` | crates/jeryu-api/src/ci_bridge/jankurai.rs:208-238 | true exactly when the checks can be read and the newest proof is this one |
| `Bridge.PushBridge.PlanPushAudit` | crates/jeryu-api/src/ci_bridge/audit_queue.rs:407-532 | decides a push as `Plan` does and enqueues what it decides |
| `Bridge.PushBridge.QueueHeadAudit` | crates/jeryu-api/src/ci_bridge.rs:249-300 | one push step of the protocol, on the stores in place |
| `Bridge.PushBridge.RestoreHeadAudit` | crates/jeryu-api/src/ci_bridge.rs:378-407 | one restore step of the protocol |
| `Bridge.PushBridge.RestorePendingAudits` | crates/jeryu-api/src/ci_bridge.rs:413-459 | runs over the pull requests of every repository that can be listed, restores each open one whose newest proof is seen to be in progress, and counts those queued |
| `Bridge.PushBridge.RecordAuditedHead` | crates/jeryu-api/src/ci_bridge.rs:476-523 | records the row, then posts its proof, as the protocol's report does |
| `Bridge.PushBridge.Ingest` | crates/jeryu-api/src/web/repositories.rs:551-635 | authorize, consume the ticket, stamp, record: one submit step of the protocol |
| `LineReader.Reader.NextLine` | crates/jeryu-gateway/src/stream.rs:78-98 | one call hands out the first line of all bytes still to come, or the reason there is none, and keeps the buffer within one line and its newline |
| `LineReader.ReadAll` | crates/jeryu-gateway/src/stream.rs:78-98 | for every chunking, the lines handed out are the newline split of all bytes up to the first over-long line |
| `LineReader.StopsExactly` | crates/jeryu-gateway/src/stream.rs:90-95 | reading times out exactly if the first answer that cannot be used is silence; an end, a failure or a chunk over 1 MiB make the stream invalid |
| `LineReader.LinesAreLines` | crates/jeryu-gateway/src/stream.rs:78-98 | the split is the split: no line holds a newline, and lines, newlines and tail are the whole stream |
| `LineReader.ReadBoth` | crates/jeryu-gateway/src/stream.rs:78-98 | two chunkings of the same bytes, with anything after them, hand out the same lines and stop the same way |
| `RelayBody.RequestStream.NextChunk` | crates/jeryu-gateway/src/body.rs:76-107 | releases line n exactly when it is chunk n of this request, re-checked, decodable and within the limits; ends exactly on an end line naming the count |
| `RelayBody.RequestStream.Poll` | crates/jeryu-gateway/src/body.rs:112-145 | one item of the upstream body; after a refusal the body is over and the failure kept |
| `RelayBody.Upstream` | crates/jeryu-gateway/src/body.rs:76-145 | bytes sent are the gap-free chunks 1..n, never above 8 MiB, the body ends cleanly if and only if a whole request was sent, and otherwise the recorded failure is that of the first line it stopped at |
| `RelayRequest.Relay` | crates/jeryu-gateway/src/body.rs:76-145 | reader and body together: what goes upstream is what the parsed lines of the whole byte stream allow |
| `RelayRequest.RelayBoth` | crates/jeryu-gateway/src/stream.rs:78-98 | end to end: two chunkings of the node's bytes, with anything after them, send the same chunks upstream and end the request the same way |
| `RelayBody.SendChunk` | crates/jeryu-gateway/src/upstream.rs:94-104 | sends a provider chunk as lines of 1 to 32768 bytes, each after its own re-check, and stops at the first that fails |
| `RelayBody.Forward` | crates/jeryu-gateway/src/upstream.rs:82-110 | for any provider chunking, lines 1..m concatenate to the provider's bytes and the end line names m; success if and only if the provider finished and no line was held back, and any failure is that of the first line or chunk in the way |
| `RelayBody.BreaksExactly` | crates/jeryu-gateway/src/upstream.rs:84-90 | the provider's error is that of its first answer that is no chunk: invalid for a failure, a timeout for silence |
| `Capability.Canonical` | crates/jeryu-gateway/src/capability.rs:115-152 | appends the canonical text, and refuses exactly the values that hold a float |
| `CanonicalProofs.ReadText` | crates/jeryu-gateway/src/capability.rs:115-152 | round trip: canonical text in front of anything reads back as the value and stops where it stops |
| `CanonicalProofs.KeysAscend` | crates/jeryu-gateway/src/capability.rs:136-150 | members are written in ascending order of their keys, none lost |
| `CanonicalProofs.EscapesExactlyWhen` | crates/jeryu-gateway/src/capability.rs:117-119 | a character stands for itself unless it is a quote, a backslash or a control character, and has its short escape where there is one |
| `CanonicalProofs.NoLeadingZero` | crates/jeryu-gateway/src/capability.rs:120-125 | no number but zero starts with a zero |
| `CanonicalProofs.SignExactly` | crates/jeryu-gateway/src/capability.rs:120-125 | a minus sign stands before exactly the negative numbers |
| `CanonicalProofs.SameTextExactlyWhenSame` | crates/jeryu-gateway/src/capability.rs:115-152 | two float-free values have the same canonical text if and only if they are equal up to object key order |
| `Capability.SigningBytes` | crates/jeryu-gateway/src/capability.rs:106-112 | the signed text is the canonical text of the capability without its signature |
| `Capability.SignedTextBindsEveryField` | crates/jeryu-gateway/src/capability.rs:33-51 | two capabilities are signed over the same text if and only if they agree in every field but the signature |
| `Capability.SignedTextSays` | crates/jeryu-gateway/src/capability.rs:106-112 | the signed text is the domain and one JSON object, which a reader takes for this capability, each of the 14 fields under its own key |
| `GreenRef.MovesFormAChain` | crates/jeryu-api/src/green_ref.rs:100-168 | in every interleaving the moves of the ref, reported or not, form one chain from the first green commit to the last |
| `GreenRef.EveryMoveIsSound` | crates/jeryu-api/src/green_ref.rs:100-168 | each move's target was on the branch at that call's head read, and goes forward if and only if that head still descended from the green commit |
| `GreenRef.NeverRewinds` | crates/jeryu-api/src/green_ref.rs:132-160 | with a head snapshot that descends from the green commit, the ref never moves to an ancestor |
| `GreenRef.AStaleHeadRewinds` | crates/jeryu-api/src/green_ref.rs:116-150 | the snapshot hypothesis is needed: a fast-forward between two reads lets a call take the ref back |
| `GreenRef.Refs.AdvanceTo` | crates/jeryu-api/src/green_ref.rs:100-168 | a call alone is `AdvanceAlone` |
| `GreenRef.AloneIsThreeSteps` | crates/jeryu-api/src/green_ref.rs:100-168 | three steps of a call with nothing between them are that call alone |
| `GreenRef.OverIsOver` | crates/jeryu-api/src/green_ref.rs:100-168 | a finished call stays as it is, and one that is cut off is over with nothing moved by that |
| `GreenRef.NewestProvedWins` | crates/jeryu-api/src/green_ref.rs:100-168 | on a linear fast-forward branch, calls in any order leave the newest proved commit |
| `Mirror.TagPass` | crates/jeryu-api/src/github_mirror.rs:539-599 | each wanted tag of forge or GitHub is filed exactly once as pushed, present or drift; what GitHub gains is exactly the tags it lacked whose push reached it, and no ref it had is touched |
| `Mirror.FileForgeTag` | crates/jeryu-api/src/github_mirror.rs:548-580 | one forge tag is filed by its fate, and pushed only when GitHub has none |
| `Mirror.GithubOnlyTags` | crates/jeryu-api/src/github_mirror.rs:582-597 | tags only GitHub has are drift; nothing is pushed for them |
| `Mirror.TwoPasses` | crates/jeryu-api/src/github_mirror.rs:539-599 | after a pass none of whose pushes was refused, a second one pushes nothing and leaves GitHub's refs as they are, whatever happens to pushes then |
| `Mirror.Reconcile` | crates/jeryu-api/src/github_mirror.rs:418-535 | GitHub's branch is pushed if and only if GitHub has none or is known to be behind; all else changes by the tag pass; the state says how forge and GitHub stand as far as git has answered |
| `Mirror.BranchOnlyGoesForward` | crates/jeryu-api/src/github_mirror.rs:482-529 | GitHub's branch changes only to the forge's head, and only from nothing or from an ancestor of it, even if the push is unconditional or its answer is lost |
| `Mirror.ReconcileBranch` | crates/jeryu-api/src/github_mirror.rs:482-533 | the five states are exclusive, and `Diverged` is the only one an unanswered ancestry question can leave |
| `Mirror.ExactlyWhenAnswered` | crates/jeryu-api/src/github_mirror.rs:482-533 | unless the state is unknown, it is exactly how the forge stands to what GitHub then holds if and only if no push was lost on the way back and every ancestry between the two heads was found out |
| `HeadCleanup.DeletesOnlyWhatIsPinned` | crates/jeryu-api/src/github/head_cleanup.rs:97-178 | in every interleaving and with a crash after any step, a branch is deleted only while it names the merged head, after its "requested" row, and the pull ref names that head from before the delete onward |
| `HeadCleanup.AnswersPairUp` | crates/jeryu-api/src/github/head_cleanup.rs:126-168 | each outcome row answers one earlier request, and no request is answered twice |
| `HeadCleanup.OverIsOver` | crates/jeryu-api/src/github/head_cleanup.rs:97-178 | a finished call stays as it is, and one that is cut off is over without a deletion to its name |
| `HeadCleanup.CompletedMeansDeleted` | crates/jeryu-api/src/github/head_cleanup.rs:143-178 | a "completed" row stands for a deletion that took place |
| `HeadCleanup.Repository.PinPullHead` | crates/jeryu-api/src/github/head_cleanup.rs:299-321 | succeeds if and only if the ref can be read and names the merged head or is moved to it; writes nothing else, and nothing at all unless the read worked |
| `HeadCleanup.Repository.DeleteMergedHead` | crates/jeryu-api/src/github/head_cleanup.rs:97-178 | a call alone is its six steps, and it reports a deletion if and only if every one of them was let through |
| `Utf8.Truncate` | crates/jeryu-api/src/git_transport.rs:327-330 | walking back to a character boundary keeps the longest run of whole characters within the budget |
| `Utf8.FitIsLongest` | crates/jeryu-api/src/git_transport.rs:327-330 | no longer run of whole characters would fit |
| `PktLine.ParsePrinted` | crates/jeryu-api/src/git_transport.rs:295-299 | packets within 65520 bytes read back as printed |
| `PktLine.HexIsNumber` | crates/jeryu-api/src/git_transport.rs:295-299 | a length of any size is printed as at least four hexadecimal digits that read as it |
| `PktLine.ReadsBackExactlyWhenAllFit` | crates/jeryu-api/src/git_transport.rs:295-299 | packets and a flush read back as printed if and only if every packet is within 65520 bytes |
| `Refusal.ReceivePackRefusal` | crates/jeryu-api/src/git_transport.rs:301-361 | read as packets, the answer is the unpack line, then for each ref in order its name and the longest whole-character part that fits of the cleaned message, for the blocked ref, or of the sentence naming the blocked ref; with side-band that is band 1, and band 2 is the message and a line for each of the first 64 refs |
| `Refusal.ReportReadsBack` | crates/jeryu-api/src/git_transport.rs:307-338 | the report parses as one line per ref in order, then a flush, if and only if every ref name is at most 65511 bytes |
| `Refusal.ReportSaysWhy` | crates/jeryu-api/src/git_transport.rs:312-338 | what a client reads in the report, packet by packet |
| `Refusal.RefusalSays` | crates/jeryu-api/src/git_transport.rs:339-356 | what a client reads on each band |
| `Refusal.ReceivedReportReadsBack` | crates/jeryu-api/src/git_transport.rs:307-338 | so the report of every push whose commands came in pkt-lines reads back |
| `Refusal.RefusalDemultiplexes` | crates/jeryu-api/src/git_transport.rs:339-356 | for any refusal the answer parses as packets within the limit and a final flush; band 1 is exactly the report, band 2 exactly the notices |
| `Refusal.AppendSideband` | crates/jeryu-api/src/git_transport.rs:267-293 | adds the notices before the final flush, or changes nothing |
| `Refusal.AppendReadsExactlyWhen` | crates/jeryu-api/src/git_transport.rs:267-293 | adding to a well-formed answer whose last bytes look like a flush leaves it readable if and only if it does end in a flush; then band 1 is unchanged and each line is one band 2 packet |
| `Refusal.FlushTakesLines` | crates/jeryu-api/src/git_transport.rs:271-275 | every well-formed answer that ends in a flush is taken for one |
| `Refusal.UnendedReportBreaks` | crates/jeryu-api/src/git_transport.rs:267-293 | a band 1 report whose own flush ends the stream, the stream's flush missing, can be read, and no longer once lines are added |
| `MockSafety.GenerationsNeverDecrease` | crates/jeryu-mock-provider/src/state.rs:267-392 | in every run a connection stays, its generation never decreases, and a disconnected one never changes again |
| `MockSafety.FencedForGood` | crates/jeryu-mock-provider/src/state.rs:349-427 | a token minted before its connection was replaced or disconnected opens nothing in any later state, at any time |
| `MockSafety.OtherStepsLeaveTokens` | crates/jeryu-mock-provider/src/state.rs:267-306 | every other step, refresh included, leaves each earlier token exactly as good as it was |
| `MockSafety.WinsAtMostOnce` | crates/jeryu-mock-provider/src/state.rs:267-306 | with rotation on, a refresh token wins at most one refresh in any run |
| `MockSafety.GoodUntilItWins` | crates/jeryu-mock-provider/src/state.rs:267-287 | in any run, until it wins or its connection is replaced or disconnected, a refresh token wins a try that can persist if and only if it has not expired, however many tries with it failed to persist |
| `MockProvider.CheckBearer` | crates/jeryu-mock-provider/src/state.rs:405-427 | a header is let in if and only if it carries a live token: known, unexpired, of a connected connection at the same generation; and which refusal any other gets |
| `Utf8.Clean` | crates/jeryu-api/src/git_transport.rs:307-311 | the first 4000 of the printable characters, and a short printable message as it is |
| `Utf8.KeepsInPlace` | crates/jeryu-api/src/git_transport.rs:307-311 | each character is kept in its place or, if it is a control character, left out, whatever stands around it |
| `Utf8.ControlExactly` | crates/jeryu-api/src/git_transport.rs:307-311 | a character is dropped as a control exactly if its code point is below U+0020 or from U+007F to U+009F |
| `MockSafety.BooksBalance` | crates/jeryu-mock-provider/src/state.rs:464-484 | in every run events are numbered 1..n; generation bumps equal the sum of generations; lease events, lease counter and token table agree; persisted refresh tokens equal connections, refreshes and replacements |
| `MockGrants.EveryConnectionWasApproved` | crates/jeryu-mock-provider/src/state.rs:178-262 | in every run each connection comes from the exchange of a code that was started for a known provider, then approved by its user code, not started again since, and not expired |
| `MockGrants.OneConnectionPerStart` | crates/jeryu-mock-provider/src/state.rs:217-233 | two exchanges of one code have a new start of it in between |
| `MockGrants.ExchangesExactlyWhen` | crates/jeryu-mock-provider/src/state.rs:217-247 | a code is exchanged if and only if it is known, unexpired, approved and the write succeeds; which refusal each other case gets; and when it is used up |
| `MockGrants.ExchangeGrants` | crates/jeryu-mock-provider/src/state.rs:217-262 | the grant's refresh token is the one the new connection holds, written before the access token exists, and its access token opens the chat exactly until it expires |
| `MockGrants.RefreshesExactlyWhen` | crates/jeryu-mock-provider/src/state.rs:267-287 | when a refresh goes through, which refusal each other case gets, and that a refusal changes nothing but the spent failure |
| `MockGrants.RefreshGrants` | crates/jeryu-mock-provider/src/state.rs:267-306 | a refresh keeps generation and sessions, and answers the tokens the connection then holds, good exactly until they expire |
| `MockGrants.ReplacesExactlyWhen` | crates/jeryu-mock-provider/src/state.rs:349-358 | when a credential is replaced, and which refusal each other case gets |
| `MockGrants.ReplaceGrants` | crates/jeryu-mock-provider/src/state.rs:349-378 | a replacement begins the next generation without sessions, and answers the tokens the connection then holds, good exactly until they expire |
| `MockGrants.LeasesExactlyWhen` | crates/jeryu-mock-provider/src/state.rs:310-333 | a session is leased if and only if the connection stands, at that generation, with its access window open; which refusal each other case gets; and every use of another generation is counted |
| `MockGrants.LeaseGrants` | crates/jeryu-mock-provider/src/state.rs:310-346 | a leased token opens the chat exactly until the access window closes, and one more session is counted |
| `MockGrants.DisconnectEnds` | crates/jeryu-mock-provider/src/state.rs:381-392 | a disconnect ends the connection, its refresh token and its sessions, once |
| `MockGrants.StartsExactlyWhen` | crates/jeryu-mock-provider/src/state.rs:178-202 | a device is started for exactly three providers, unapproved |
| `MockGrants.ApprovesExactlyWhen` | crates/jeryu-mock-provider/src/state.rs:204-213 | an approval marks exactly one device of that user code, or none |
| `MockGrants.ChatCounts` | crates/jeryu-mock-provider/src/state.rs:395-403 | each attempt is counted once, under its answer |
| `MockGrants.AttemptsAddUp` | crates/jeryu-mock-provider/src/state.rs:308-403 | in every run the chat counters add up to the attempts and the stale counter to the uses of another generation |
| `MockGrants.PeakIsReached` | crates/jeryu-mock-provider/src/state.rs:334-341 | in every run the peak is the most sessions any connection ever had at once: none has more, and one had that many |
| `MockState.Mock.constructor` | crates/jeryu-mock-provider/src/state.rs:167-176 | starts empty |
| `MockState.Mock.Note` | crates/jeryu-mock-provider/src/state.rs:465-468 | appends the next numbered event |
| `MockState.Mock.MintAccess` | crates/jeryu-mock-provider/src/state.rs:470-483 | adds the token, counts it and logs it |
| `MockState.Mock.StartDevice` | crates/jeryu-mock-provider/src/state.rs:178-202 | is `StartDevice` of the model |
| `MockState.Mock.Approve` | crates/jeryu-mock-provider/src/state.rs:204-213 | approves one device with that code, and fails exactly when there is none |
| `MockState.Mock.DeviceToken` | crates/jeryu-mock-provider/src/state.rs:217-262 | is `DeviceToken` of the model, which uses up the device code even when the write fails |
| `MockState.Mock.Refresh` | crates/jeryu-mock-provider/src/state.rs:267-306 | is `Refresh` of the model |
| `MockState.Mock.LeaseSession` | crates/jeryu-mock-provider/src/state.rs:310-345 | is `LeaseSession` of the model; a stale use is counted before the refusal is chosen |
| `MockState.Mock.Replace` | crates/jeryu-mock-provider/src/state.rs:349-378 | is `Replace` of the model |
| `MockState.Mock.Disconnect` | crates/jeryu-mock-provider/src/state.rs:381-392 | is `Disconnect` of the model |
| `MockState.Mock.CheckBearer` | crates/jeryu-mock-provider/src/state.rs:405-427 | is `CheckBearer` of the model |
| `MockState.Mock.AuthorizeChat` | crates/jeryu-mock-provider/src/state.rs:395-403 | counts the attempt under its verdict |
| `Redact.RedactText` | crates/jeryu-api/src/github_mirror.rs:727-747 | the loop ends and computes `Redacted` |
| `Redact.ShowsNoToken` | crates/jeryu-api/src/github_mirror.rs:727-747 | in the output every mark with an `@` anywhere after it is followed at once by `***@` |
| `Redact.ChangesExactlyWhenUnclean` | crates/jeryu-api/src/github_mirror.rs:727-747 | a text is changed if and only if a token could show in it, and redacting twice is redacting once |
| `Redact.KeepsTheRest` | crates/jeryu-api/src/github_mirror.rs:727-747 | text and output are the same pieces in order, around runs without `@` in the one and stars in the other |
| `WorkflowId.HashName` | crates/jeryu-api/src/github/actions.rs:402-406 | the loop computes the FNV-1a hash at 64 bits |
| `WorkflowId.Folded` | crates/jeryu-api/src/github/actions.rs:407 | a hash stands for its lower 63 bits, or for 1 if they are zero |
| `WorkflowId.AssignId` | crates/jeryu-api/src/github/actions.rs:401-412 | the probe ends whenever an id is left, at the first free id from the hashed one on; the id is the hashed one if and only if that was free |
| `WorkflowId.AssignIds` | crates/jeryu-api/src/github/actions.rs:200-204 | ids of one projection are pairwise distinct and in 1..i64::MAX; every name has the id that depends on it alone if and only if no two names hash alike |
| `WorkflowId.NamesCollide` | crates/jeryu-api/src/github/actions.rs:401-412 | two names of eleven characters hash alike |

## Left out

- Process spawning, git and curl calls, timeouts, TLS, HTTP routing and the sandboxed CI jobs.
- Ed25519, SHA-256, base64 and gzip: a payload either decodes to bytes or does not.
- The merge queue's replay, gate claims and the parts of `ForgeCore` and `jeryu_gitd` that are not in this repository.
- Wording of check output and details links beyond the equality the republish rule needs.
- `ref_updates`, workflow triggers and pull-base following (`crates/jeryu-api/src/ci_bridge.rs:43-240`): they would only add easy members.
- Why a head branch is kept (`crates/jeryu-api/src/github/head_cleanup.rs:181-297`): the answer of that check is a parameter of the cleanup.
- The commits only GitHub has, named in a reconcile report, and the allow-list that decides whether a mirror is used.
- The choice whether a client reads side-band (`crates/jeryu-api/src/git_transport.rs:232-258`).
- The head line of a relayed response and the re-check's own reasons; a re-check passes or fails with some error.
- Grouping of check runs into workflows: `AssignIds` starts from the grouped names.
- UTF-8 decoding: characters are an ASCII byte, or a lead byte and its continuation bytes; canonical JSON text is modelled as characters, not bytes.
- Interleaving inside one operation of the mock provider: each holds its connection's lock, and is one step; it reads the clock once where the source may read it twice.
- Mirror.Reconcile: assumes commit ancestry is a partial order, and GitHub's refs do not move on their own between the listing and the end of the pass.
- HeadCleanup.DeletesOnlyWhatIsPinned: assumes only cleanups write pull refs and a pull request merges one head.
- Who may submit a report, and the refusal of one by the head's own author: a refused submission changes nothing and is no step.
- Races inside a push, a restore or a backfill: each is one step, beside which the moves of reports interleave.
- The order in which repositories and pull requests are listed: the restore pass takes any.
- In the proof protocol a write to the score store or the check service that takes effect and reports a failure: effect and answer are one flag there.
- The parser of push commands, which is not in this repository; `Received` takes a ref name to stand in its packet byte for byte.
- Manifest, lock and URL validators, JSON renderers and the command line.
