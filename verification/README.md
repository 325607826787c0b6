# Verified models of LCM's state machines and budgeted selections

This project models the crash-tolerant state machines and the budgeted selection algorithms of a lossless
conversation store, and proves what each of them keeps over every run of its steps, cut at any point, and over every
input; where a promise needs a condition, the condition is exact.  `dafny verify dfyconfig.toml` checks all of it.

| files | what they model |
|---|---|
| `BackfillTable`, `BackfillStore`, `BackfillProtocol`, `BackfillRuns` | the embedding backfill: a stealable lease, the in-flight table, and any number of runs around a paid remote call |
| `GapCoverage`, `GapFilter`, `GapProof`, `GapStore`, `GapSlips`, `GapSteady`, `GapPages`, `GapProgress`, `GapScan`, `GapRounds`, `GapCampaign`, `GapLoss` | the resumable chunk gap scan: certificates of coverage, which messages it lists and which edits its triggers hear, the records of both bands behind their fence, calls cut at any row among other writers, how calls come to an end, and the rows that slip through |
| `CaptureCursor`, `CaptureLedger`, `CaptureValid`, `CaptureLinks`, `CapturePlan`, `CaptureIngest`, `CaptureBatches` | transcript capture: the cursor, what one line does to the ledger, and the batched writer |
| `CaptureRecord`, `CaptureAudit`, `CaptureRun`, `CaptureTold` | the separately written auditor, whole capture runs, and what becomes of each line in them |
| `Spool`, `SpoolRuns`, `SpoolEnds` | hooks, workers, the lock and the spool directory, and why they come to an end |
| `AuxGenerations`, `AuxOutcomes`, `AuxRuns`, `AuxSessions`, `DelegateChild` | auxiliary session generations; resuming the storage of a delegated child |
| `TailPlan`, `Chunking`, `ChunkOutcomes`, `Retrieval`, `RetrievalOutcomes`, `Receipts`, `ReceiptOutcomes`, `ReceiptRuns`, `ReceiptStore` | tail selection, chunk windows, the bounded retrieval controller, assertion receipts |
| `Wrappers` | `Option` |

How the models are cut:

- One `BEGIN IMMEDIATE` block, one held lock, or one file operation is one step, and what is read outside them is a
  step of its own: a handoff's look before its lock, a drain's look before its batches.  Everything a caller, the clock,
  the provider, the file system or another process decides is a parameter or a step of its own.
- Digests are injective, so a digest is the thing it digests; uuid tokens are fresh.  A content digest only fixes an
  entry's class and uid (`CaptureRecord.Faithful`).
- Where the source changes fields, tables or buffers step by step there is a class or a method with loops, proved
  against a function; what the source promises is then proved about that function, over runs where it spans calls.
- The outcome lemmas say when each operation goes through and what it then changes, in both directions and in terms of
  the tables, sets and texts alone, so they bound the functions they are about from outside.

Six promises turned out to hold only under a condition; each condition is stated exactly, with an input outside it:

- A handoff looks at the retired set before it takes the lock, and does not look again (aux_session.py:328-336).  The
  locked part keeps the invariant exactly when its token is then not retired (`AuxGenerations.EntryExactly`), and a run
  keeps it exactly as long as every entry is so (`AuxRuns.RunKeeps`).  An entry that is not is a race, in which another
  call retired the token after the look (`AuxRuns.UnsafeMeansRaced`): a session unmarked in between has its retired
  generation live again (`AuxRuns.RaceRevives`).  As a fact about the method alone, the same happens with no race when
  the holder of a live generation hands the session to itself (`AuxGenerations.SelfHandoffBreaks`); its only caller,
  engine.py:4876, has checked at engine.py:4790 that the two sessions differ.
- Publishing the same assertion output again always restores the assertions, but a relation comes back only if no
  version it touches was removed meanwhile, although the receipt answers already current (`ReceiptRuns.RelationsLost`).
- The gap scan's query trims only spaces off a role, the chunker all white space, and store.py:700 stores roles as
  given.  A message that is chunked is never listed exactly when its role, without its outer spaces, still begins or
  ends with white space (`GapFilter.MissedExactly`); a sound certificate speaks for all chunkable messages exactly when
  no role it covers is like that (`GapProof.CoverageOfChunkable`), and a turn of role `user` and a newline is certified
  without a chunk (`GapProof.UnlistedTurnMissed`).
- A trigger drops the gap scan's records when an edit may create a need, but it calls a tool row blank by six characters,
  the chunker by all white space.  An edit it does not hear creates a need exactly when it replaces a text that is blank
  to the chunker alone, under `heads` (`GapFilter.UnheardExactly`, with a no-break space in `GapFilter.UnheardEdit`),
  and then a certificate stays on record that is no longer true (`GapProof.UnheardBreaks`).
- A call forgets the saved candidates below its low end but keeps the walk's position (command.py:4774-4778), and the low
  end, the oldest id with a chunk embedded or in flight, rises when the oldest in-flight row is given back.  What is kept
  of a walk is true exactly when none of the candidates it forgets is still wanted (`GapProof.KeptExactly`, with an input
  in `GapProof.KeptLoses`); `GapLoss.LoseRow` carries it through two calls to a certificate that names a row without its
  chunk.
- A pass reads the cursor and the certificate before the record (command.py:4976-4977, 4693).  If another exhausts a band
  that begins higher in between, the pass takes its own band for finished and certifies rows nobody read; `GapLoss.SkipRow`
  is such a run.  Under one policy this cannot happen to a pass that reads the certificate again after the record and finds
  the one it read before (`GapSlips.ReadAgain`).  The embedding lease keeps two passes apart (command.py:4970-4973) unless
  it is stolen.

For the last two, `GapSlips.SparesExactly` says when: with what a call has read, no write of it can let a row slip exactly
when the walk it took up stands no lower than its low end, or holds no open candidate there and was not overtaken by it,
and the finished record it took up begins no higher.

As the scan is meant to run, with one policy, a low end that stays, messages that are not edited and chunks that are not
taken back, every certificate is true without any condition, over any number of passes and other calls, cut anywhere
(`GapCampaign.SteadyCampaign`, `GapSteady.CertificatesTrue`).  In general, whatever happens around any number of passes, a
certificate is true exactly when none of its rows that slipped since the triggers last fired still needs its chunk, and a
row slips only by one of the last three causes (`GapCampaign.Campaign`, `GapCampaign.SlipHasCause`).

What is safe also comes to pass: any row can be published by one more backfill run (`BackfillRuns.NoRowStuck`), gap scan
calls with any budget above what they left to revisit end with the band certified (`GapRounds.Rounds`), and hooks and
workers, interleaved in any way, stop with every record processed (`SpoolEnds.EveryRecordProcessed`).

## Model

| member | source | states |
|---|---|---|
| BackfillStore.Store.Acquire | command.py:2798-2839 | a lease is taken exactly when none is recorded or its heartbeat is too old, under the next generation, and then is owned by that holder alone; otherwise nothing changes |
| BackfillStore.Store.Renew | command.py:2741-2770 | a renewal by the owner and generation on record moves only the heartbeat; by anyone else it changes nothing |
| BackfillStore.Store.Release | command.py:2772-2796 | only the holder on record clears the lease |
| BackfillStore.Store.Recover | command.py:2869-2969 | under the lease, predecessors' claims are dropped and their dispatches become uncertain, all or nothing |
| BackfillStore.Store.MarkInflight | command.py:2972-3045 | a reservation goes through exactly when the lease is owned, every authorized id is on record as uncertain and every other id occurs once and is absent; then it marks exactly the selected rows, otherwise none |
| BackfillStore.Store.MarkDispatched | command.py:3048-3101 | a dispatch goes through exactly when the lease is owned and every row, each once, is reserved by this holder in its phase without a request; then it moves exactly those rows to the new request, otherwise none |
| BackfillStore.Store.Fail | command.py:3104-3244 | an unclear failure leaves the request's rows uncertain and no other row touched |
| BackfillStore.Store.Reject | command.py:3104-3244 | a definitive refusal frees the request's ordinary rows and returns its authorized retries to uncertain |
| BackfillStore.Store.Skip | command.py:3104-3244 | a skipped document alone gives up its marker |
| BackfillStore.Store.Publish | vector_store.py:886-998 | a vector is published, and its marker removed, only while lease and marker match |
| BackfillTable.ReserveEffect | command.py:2972-3045 | a reservation that goes through wrote exactly the selected rows, each free or an authorized uncertain retry before |
| BackfillTable.DispatchEffect | command.py:3048-3101 | a dispatch that goes through changed exactly the reserved rows |
| BackfillTable.ReserveExactly | command.py:2972-3045 | the loop of reservations goes through exactly when every authorized id is on record as uncertain and every other one occurs once and is absent |
| BackfillTable.DispatchExactly | command.py:3048-3101 | the loop of dispatches goes through exactly when each row occurs once and is reserved by this holder, in its phase, without a request |
| BackfillTable.TransitionEffects | command.py:2869-3244 | recovery, an unclear failure and a refusal keep, drop and turn uncertain exactly the rows they should |
| BackfillTable.SkipEffect | command.py:3104-3244 | a skipped row gives its marker back in exactly the cases in which it is this holder's to give, and no other row changes |
| BackfillProtocol.StepKeeps | command.py:2503-3244 | every step of any run, in any order, keeps the protocol invariant |
| BackfillRuns.BehaviorKeeps | command.py:2503-3244 | so it holds in every state of every run, crashes and steals included |
| BackfillRuns.NoSilentResend | command.py:2503-2556 | a row some request carried and nobody refused or skipped is published or still marked, so discovery never offers it |
| BackfillRuns.StaleSelectionRefused | command.py:2972-3045 | nor can a run that selected it earlier reserve it as ordinary work |
| BackfillRuns.SendsBounded | command.py:2559-2604 | sends of a row are at most one plus refusals and skips plus explicit authorizations |
| BackfillRuns.NoRowStuck | command.py:2503-3244 | in any state of any run, once the lease can be had, one more run can publish any eligible row that has no vector: it takes over, recovers, reserves, sends and publishes it |
| BackfillRuns.AtMostOneHolder | command.py:2725-2839 | at most one run passes the owner and generation check |
| BackfillRuns.StaleHolderFenced | command.py:2725-2796 | a run that lost the lease never holds it again, and whatever it tries leaves lease, markers and vectors as they were |
| GapCoverage.MergeExact | command.py:4628-4637 | a merged certificate names exactly the ids one of the two named: nothing neither certified |
| GapCoverage.RangesPartition | command.py:4656-4683 | every id within the bounds lies in exactly one of the certified interval and the returned ranges |
| GapCoverage.MalformedCertificateOverlaps | command.py:4671-4683 | a certificate that starts after it ends would break that partition |
| GapProof.NeedsExactly | db_bootstrap.py:1809-1841 | when no trigger fires, a row comes to need a chunk exactly when its edit is one the triggers cannot hear, whatever else is published, edited, deleted or added |
| GapProof.CertificateSound | command.py:4628-4637 | a certificate joined with any exhausted range leaves no wanted message uncovered |
| GapFilter.StripTrim | chunking.py:203-243 | the chunker sees no difference between a text and the same text without its outer spaces, which is all the query trims |
| GapFilter.MissedExactly | command.py:4785-4792 | a chunked message is not listed exactly when its role without outer spaces still begins or ends with white space |
| GapProof.CoverageOfChunkable | command.py:4686-4901 | whatever has been published, a sound certificate means that every chunkable message it names has a chunk, exactly when the roles of all those messages trim clean |
| GapProof.UnlistedTurnMissed | command.py:4785-4792 | a turn of role `user` and a newline: covered, chunkable, and without a chunk |
| GapFilter.UnheardExactly | db_bootstrap.py:1829-1841 | an edit the trigger does not hear creates a need exactly when, under heads, it replaces a tool text that is blank to the chunker but not to the trigger |
| GapFilter.UnheardEdit | db_bootstrap.py:1829-1841 | such an edit: a no-break space becomes a letter |
| GapProof.UnheardBreaks | db_bootstrap.py:1829-1841 | it leaves a certificate on record that is no longer true |
| GapProof.KeptExactly | command.py:4774-4778 | what a call with a higher low end keeps of a true walk is true exactly when none of the pending rows it forgets is still wanted |
| GapProof.KeptLoses | command.py:4774-4778 | such a walk: the low end rises from 5 to 50 over a candidate at 7 |
| GapStore.RunOk | command.py:4904-4937 | publications, arrivals, edits, deletions, removed chunks, a moving cursor and calls' writes keep every stored claim true but for what slips; a call whose fence one of them broke never passes it again |
| GapSlips.SlippedExactly | command.py:4904-4937 | a row has slipped exactly when some event let it slip and no trigger fired since |
| GapSlips.WalkExactly | command.py:4838-4845 | a walk saved on top of a true one is true exactly when no row is still wanted that the other held, or that came after it, below the call's low end; those rows are all that slips |
| GapSlips.SparesExactly | command.py:4750-4778 | with what a call has read, none of its writes can let a row slip exactly when the walk it took up reaches no lower than its low end, or holds no open candidate there and was not overtaken by it, and the finished record it took up begins no higher |
| GapSlips.ReadAgain | command.py:4976-4977 | under one policy, a call that finds the certificate unchanged on reading it again after a finished record takes up nothing that can let a row slip |
| GapSteady.NothingSlips | command.py:4904-4937 | under one policy and a low end that stays, no write lets a row slip, for below its low end everything is certified |
| GapSteady.RunAligned | command.py:4686-4901 | so it is over any run of publications, arrivals, deletions and calls' writes: nothing slips, certificates begin at the low end, and no record reaches below it or begins above what is certified |
| GapSteady.CertificatesTrue | command.py:4686-4901 | and every certificate there has ever been names only messages that have their chunk, if they should have one |
| GapPages.FetchPage | command.py:4785-4792 | one page: the newest listed unpublished ids in range, newest first, and none skipped between them |
| GapScan.Identity.OpenUpper | command.py:4693-4724 | a call reads the upper record, and makes a missing one first, so that dropping it shows |
| GapScan.Identity.OpenLower | command.py:4698-4724 | a call of the lower band reads that band's record, and makes a missing one only under the parent record it has read |
| GapScan.Identity.Swap | command.py:4904-4937 | the band's record and the certificate are replaced exactly when the record is the one this call knows, for the lower band under its parent record too; otherwise the other writer's record stays; a call writes only what the others allow for, joined to the certificate it read before |
| GapScan.Identity.SaveWalk | command.py:4940-4943 | a walk is saved exactly when the record is still the call's, and undisturbed lets exactly those wanted rows slip that the walk it took up held, or that came after it, below the call's low end |
| GapScan.Identity.WalkRange | command.py:4813-4857 | the walk hands out every wanted row down to where it stopped, or leaves it in the saved candidates, as long as the fence stands; with a budget above the saved candidates it exhausts the range or comes further down |
| GapScan.Identity.GapRows | command.py:4686-4901 | one call over either band, cut at any row: what it saves is true down to its low end and names every row handed out, and when it is exhausted it has handed out all that is wanted down to where a finished record began; whatever it took up but a finished record, a call that ends unproven leaves its walk to save, no higher than where it began, and lower with a budget above the saved candidates |
| GapScan.Identity.Scan | command.py:4686-4943 | undisturbed, a call that takes up no finished record either certifies its band and records its end, or leaves on record a walk of the band that names every row handed out and all that is wanted from its position up; with a budget above the saved candidates that walk stands lower than the one before it |
| GapRounds.Round | command.py:4686-4985 | so each such call certifies the upper band or leaves less of it to read |
| GapRounds.Rounds | command.py:4686-4985 | call after call, with messages arriving, deleted and published in between: after at most one call more than there were ids left to read the band is certified, and the last call has handed out every row in it that is still wanted |
| GapScan.Identity.Certify | command.py:4877-4891 | exhaustion certifies from the band's low end up to the oldest row handed out, all wanted rows above having been handed out; undisturbed it lets exactly those wanted rows slip that lie below the finished record it took up; others may come between the certificate read and the write |
| GapScan.Identity.Pass | command.py:4961-4985 | one automatic pass, with others coming before each of its reads, keeps every certificate and record true but for what slips; undisturbed it lets nothing slip if the records spare its bands, and with a budget above its range it hands out all that is wanted in its band and certifies up to the oldest of that |
| GapCampaign.Campaign | command.py:4686-4901 | over any number of cut passes among all of that, every certificate of the epoch on record is true exactly when none of its rows that slipped still needs its chunk, and whenever no cause for a slip has occurred since the triggers last fired |
| GapCampaign.SlipHasCause | command.py:4750-4778 | a row slips only by an edit no trigger hears, a walk taken up below the call's low end that held the row or came before it, or a finished record taken up that begins above the row |
| GapCampaign.TrueWithoutCause | command.py:4686-4901 | a certificate that covers all but what slipped is true when none of these has occurred since the triggers last fired |
| GapCampaign.SteadyCampaign | command.py:4686-4901 | any number of passes under one policy, a low end that stays, no edits and no chunk taken back: every certificate there has ever been is true, without condition |
| GapLoss.LoseRow | command.py:4774-4891 | two calls, the first cut while the low end is 3 because row 1 was given back, the second undisturbed once row 1 has its chunk: the certificate names row 2, which needs one and has none |
| GapLoss.SkipRow | command.py:4750-4891 | a pass whose reads straddle another's exhaustion certifies a row nobody read |
| CaptureCursor.GrowthIsOk | claude_code_store.py:294-316 | append-only growth always reads as ok |
| CaptureCursor.MatchIsOk | claude_code_store.py:294-316 | a file that holds the consumed lines passes the constant-time check |
| CaptureCursor.StateMeans | claude_code_store.py:294-316 | for a cursor that consumed some lines of what the file was: replaced by device or inode, truncated below the offset, else ok exactly when the first and the last consumed line still stand where they stood |
| CaptureCursor.NewGenerationMatches | claude_code_store.py:319-324 | a new generation starts at the file's beginning under a larger number |
| CaptureCursor.ReadLines | claude_code_store.py:327-342 | a batch is complete lines only, chained from the offset; empty only when no complete line is left |
| CaptureCursor.AdvanceMatches | claude_code_store.py:547-551 | the cursor moves over exactly the batch's lines |
| CaptureCursor.RewriteUnseen | claude_code_store.py:374-382 | a transcript rewritten in place between two batches of one drain is later taken for unchanged exactly when its first line is kept |
| CaptureCursor.RewriteCosts | claude_code_store.py:374-382 | and then a changed line is never consumed |
| CaptureCursor.ConsumedExactly | claude_code_store.py:374-382 | what was consumed is the first complete lines of the file, each once and in order, and all of them when none is left |
| CaptureCursor.CursorCounts | claude_code_store.py:547-551 | the offset is a line boundary and the line index counts the newlines before it |
| CaptureLedger.Decide | claude_code_store.py:453-486 | a line is a duplicate exactly by a held digest, canonical exactly when nothing is held, and projected only with a new digest; what makes a projected line a copy is `CaptureTold.CopiesExactly` |
| CaptureLedger.Origin | claude_code_store.py:577-596 | the origin is the first event of another session that wrote the content, never a copy |
| CaptureLedger.RawHolder | claude_code_store.py:618-640 | a shared raw line is looked up in the event that keeps its bytes for the session, and missed only if there is none |
| CaptureLedger.BindRowsEffect | store.py:1539-1553 | a projected entry's rows are bound one each; no canonical binding is silently ignored |
| CaptureValid.Reloaded | claude_code_store.py:570-574 | the rows reloaded through the bindings are the rows the line wrote, in projection order |
| CaptureValid.StepValid | claude_code_store.py:412-507 | every line leaves consecutive new row ids, one binding each, and every earlier row as it was |
| CaptureLinks.PairsExactly | claude_code_store.py:536-544 | the links of two versions pair their rows in order, the longer side's extra rows with the other's last row, and pair nothing else |
| CaptureLinks.NoneUntied | claude_code_store.py:536-544 | neither side is left with a row that no link reaches |
| CaptureLinks.LinksExactly | claude_code_store.py:462-499 | a relation is on record exactly when it is such a pair of two successive versions, or of a copy and the first event of another session that wrote its content |
| CaptureLinks.SupersededExactly | claude_code_store.py:472-499 | a row is superseded exactly when the next version of its entry exists and has rows |
| CaptureLinks.LatestRows | claude_code_store.py:472-499 | when all versions have rows, those no supersedes link reaches are exactly the latest version's |
| CaptureLinks.CopyEndsAtWriter | claude_code_store.py:577-596 | a copy link leads from a copy to a row its own session wrote, never to another copy |
| CaptureIngest.Ledger.LoadVersions | claude_code_store.py:554-574 | the reloaded versions are those in the ledger, oldest first, with their rows |
| CaptureIngest.Ledger.LoadOrigins | claude_code_store.py:577-596 | the reloaded origins are the first writers of each content |
| CapturePlan.PlanKeeps | claude_code_store.py:448-486 | planning a line against versions in memory agrees with taking it against the ledger |
| CaptureIngest.Ledger.WriteEntries | claude_code_store.py:487-499 | rows, bindings and relations of a batch, with version ids filled in as they become known |
| CaptureIngest.Ledger.WriteLedger | claude_code_store.py:618-643 | ledger events of a batch, shared raw bytes kept once, with the in-memory cache of holders |
| CaptureIngest.Ledger.IngestLines | claude_code_store.py:412-507 | one batch does exactly what its lines do one at a time: ledger, rows, bindings, relations, links, fork state, cursor |
| CaptureBatches.BatchIndependent | claude_code_store.py:412-507 | two batches leave exactly what one leaves |
| CaptureRecord.StepRecords | claude_code_store.py:412-507 | every line is recorded with its identity, its bytes reachable, and no identity projected twice |
| CaptureAudit.LedgerChecks | claude_code_audit.py:60-142 | corrupt is zero exactly when all bytes are found; row_count exactly when all counts fit and no row is claimed twice |
| CaptureAudit.Compare | claude_code_audit.py:239-256 | lost_lines and digest_mismatch are zero exactly when every complete line has its row |
| CaptureAudit.MatchesGeneration | claude_code_audit.py:217-229 | a set-aside copy matches exactly when it is its generation whole, line by line, with no row left over |
| CaptureAudit.Transcripts | claude_code_audit.py:259-284 | the line counters are zero exactly when the current transcript agrees with its rows up to the cursor; older generations never fail |
| CaptureAudit.PresentPairs | claude_code_audit.py:305-320 | duplicates are found exactly when two projected events share an identity |
| CaptureAudit.CountLost | claude_code_audit.py:305-319 | lost is zero exactly when every expected identity is projected or its failure is noted |
| CaptureAudit.CountRows | claude_code_audit.py:324-330 | missing_rows and stray_rows are zero exactly when claimed and stored rows agree |
| CaptureAudit.Audit | claude_code_audit.py:376-398 | on a ledger the writer keeps, the auditor reports nothing |
| CaptureRun.ActionKeeps | claude_code_store.py:352-382 | appends, detected replacements, registrations, and drains of any lineage, which look at the cursor once and then read batch after batch, keep all of it |
| CaptureRun.AppendIsTame | claude_code_store.py:294-316 | appending to a transcript that passes the check is never taken for a replacement |
| CaptureRun.AuditAnyRun | claude_code_audit.py:60-330 | in any state of any run, for any lineage: zero lost_lines, digest_mismatch, surplus_lines, corrupt, lost, duplicates, missing_rows, stray_rows, row_count |
| CaptureRun.PositionsFresh | claude_code_store.py:610-615 | the next batch of a drain under way starts right after the positions its generation holds, so each is written once and no ledger insert is ever ignored |
| CaptureRun.DrainedWhole | claude_code_store.py:352-382 | a drained transcript is in the ledger whole, every complete line once and in order |
| CaptureRun.RunLinks | claude_code_store.py:472-499 | the revision and copy links are exact in every state of every run |
| CaptureTold.RunTold | claude_code_store.py:412-507 | in every state of every run: each line is raw, duplicate, new, revision or copy by what came before it, with its note and its rows; those rows are bound as canonical or as a version, and with the proof of a copy exactly when it is one; a fork is linked to the writer of its latest copy exactly at its first own entry, a subagent to its session exactly by its first line |
| CaptureTold.CopiesExactly | claude_code_store.py:462-486 | a projected event is a copy exactly when it was taken in as a fork's and its entry is from before the fork's start, or, with either time unknown, another session's first writer of the content was on record; it is new exactly when it is no copy and its entry's first version |
| Spool.StepSafe | claude_code_store.py:825-859 | renames, reads, removals and lock moves keep one holder, whose claims are what it read, and every key's latest record waiting, claimed or processed |
| Spool.StepAwake | claude_code_store.py:884-921 | every step but the crash of a worker nobody waits for keeps someone who will see to the spool |
| SpoolRuns.NoLostWakeup | claude_code_store.py:884-985 | once all hooks and workers have exited and none crashed since some record was written, the spool is empty and every key's latest record was processed |
| SpoolRuns.NothingLost | claude_code_store.py:825-850 | whatever crashes, every key's latest record is waiting, claimed or processed: none is deleted unread |
| SpoolEnds.StepCounts | claude_code_store.py:825-985 | every step of a hook or worker leaves fewer steps to take, whatever the others do |
| SpoolEnds.NotStuck | claude_code_store.py:825-985 | until every hook and worker has exited, one of them can take a step |
| SpoolEnds.RunEnds | claude_code_store.py:825-985 | without new records and crashes, any interleaving of them ends within a number of steps known beforehand |
| SpoolEnds.EveryRecordProcessed | claude_code_store.py:825-985 | and when no step is left, the spool is empty and the latest record of every key was processed, whatever crashed before the last one was written |
| AuxGenerations.RegisterKeeps | aux_session.py:182-235 | registering never revives a retired generation, and retires the one it replaces |
| AuxGenerations.DeactivateKeeps | aux_session.py:258-292 | deactivation retires what was live |
| AuxGenerations.UnmarkKeeps | aux_session.py:496-513 | unmarking retires what was live |
| AuxGenerations.EntryExactly | aux_session.py:336-494 | the locked part of a handoff keeps the invariant exactly when its token is not retired at entry and it does not retire it itself |
| AuxGenerations.EntryBreaks | aux_session.py:336-494 | any other entry always makes a retired generation live |
| AuxGenerations.HandoffExactly | aux_session.py:321-494 | with nothing between look and lock, a handoff keeps the invariant exactly when it is not the self-handoff of a live generation |
| AuxGenerations.SelfHandoffBreaks | aux_session.py:340-352 | and that one always makes the retired generation live again |
| AuxOutcomes.RegisterOutcome | aux_session.py:182-235 | when a registration goes through, which generation is then live, which one is retired, and what becomes of usage, guard, parent and the foreground's marker; no other session changes |
| AuxOutcomes.DeactivateOutcome | aux_session.py:258-292 | who may end a session, with and without a live generation; ending it leaves nothing of it but its retired generation, a refusal changes nothing |
| AuxOutcomes.UnmarkOutcome | aux_session.py:496-513 | unmarking ends the session, retires what was live, and marks a known one as reused when asked to |
| AuxOutcomes.EnterOutcome | aux_session.py:354-494 | in the new session: a late handoff without a token leaves the newer generation alone; otherwise who is live, what is retired, and who is guarded |
| AuxOutcomes.EntryOutcome | aux_session.py:336-494 | the locked part between two sessions as a whole: what becomes of the old one, of the new one, and that no other changes |
| AuxRuns.RunKeeps | aux_session.py:182-513 | with looks and entries of any threads interleaved, no live generation is retired, in all states up to a point, exactly when every entry before it was safe |
| AuxRuns.UnsafeMeansRaced | aux_session.py:328-336 | an entry that is not safe is a session handed to itself, or its token was retired by another call after the look |
| AuxRuns.RaceRevives | aux_session.py:328-336 | a session unmarked between look and entry has its retired generation live again |
| AuxRuns.NeverReturns | aux_session.py:237-256 | while entries are safe, a generation that stopped being live for a session never is again |
| AuxSessions.Sessions.RegisterSession | aux_session.py:182-235 | the engine's fields change as the register function says; it is refused exactly for a retired token of an active session, otherwise the token, or a new one for a retired one, is live, and a bare registration leaves what is live alone |
| AuxSessions.Sessions.DeactivateSession | aux_session.py:258-292 | the engine's fields change as the deactivate function says; a session with a live generation ends exactly by that token, or by none when it is unguarded or has cached usage, and a refusal changes nothing |
| AuxSessions.Sessions.LookHandoff | aux_session.py:321-335 | the look before the lock issues the token and remembers whether it was retired |
| AuxSessions.Sessions.EnterLocked | aux_session.py:336-494 | under the lock, the engine's fields change as the entry function says, with the exact condition; an entry between two sessions whose token was not retired at the look makes it live |
| AuxSessions.Sessions.HandoffSession | aux_session.py:321-494 | both parts in a row are the uninterrupted handoff |
| AuxSessions.Sessions.UnmarkSession | aux_session.py:496-513 | the engine's fields change as the unmark function says |
| DelegateChild.UniqueEndMeans | aux_session.py:912-919 | an answer is the end of the anchor's only occurrence, and there is one whenever it occurs once |
| DelegateChild.ResolvesExactly | aux_session.py:921-929 | on any extension of the remembered view the boundary resolves to the old end or to nothing, the latter exactly when it occurs again |
| DelegateChild.BoundaryOutcome | aux_session.py:921-929 | the boundary of a view that is not empty ends it and occurs in it once: its last three rows, or all of fewer, unless they occur earlier too, and then the whole view |
| DelegateChild.CountedSuffix | aux_session.py:1178-1190 | each identity ends up stored as often as stored before or seen in the view, whichever is more |
| DelegateChild.CountedTwice | aux_session.py:1178-1190 | counting the same view again stores nothing |
| DelegateChild.AnchorEnd | aux_session.py:1207-1218 | the widest stored tail that occurs once wins |
| DelegateChild.ResumeMeans | aux_session.py:1160-1190 | where storing resumes: after the boundary's only occurrence, else after the stored prefix, else after the only occurrence of the widest stored tail that has one |
| DelegateChild.ResumeOutcome | aux_session.py:1138-1218 | which of the three applies, in both directions, and that there is no resume point exactly when none does |
| DelegateChild.NewRows | aux_session.py:1138-1205 | the rows stored are those after the resume point, or those counted beyond the stored ones, the latter exactly when no resume point is found |
| DelegateChild.ResumeAfterPrefix | aux_session.py:1165-1167 | a session whose stored rows are the view's start ends up storing exactly the view |
| DelegateChild.ResumeAfterBoundary | aux_session.py:1160-1164 | a turn that extends the remembered view stores exactly its new rows when the boundary resolves |
| TailPlan.MissingCount | assembly_plan.py:122-138 | stubs per call id are its calls beyond the results in its own group |
| TailPlan.SelectTail | assembly_plan.py:93-153 | a contiguous suffix, charged exactly its recomputed cost, within the cap when not empty, everything when everything fits; else cut just past the first row that does not fit, and past the tool rows after it exactly when a turn is rejected whose results they would be |
| Chunking.SentencesTile | chunking.py:79-117 | sentences tile the text with no gap, overlap or empty span |
| Chunking.SentenceBreaks | chunking.py:79-117 | sentences end only after stops with white space, after newlines, or at the end |
| ChunkOutcomes.SentenceEndsExactly | chunking.py:79-117 | sentences end exactly at the end of all white space after a stop, at the end of a run of newlines where no stop came before the white space, and at the end of the text |
| Chunking.PartsWindowed | chunking.py:139-156 | windows are runs of whole sentences within the target unless a single one, starts strictly increase, ends do not decrease, a window begins with the last sentence of one before it that has two or more, none skipped |
| Chunking.WindowsCover | chunking.py:120-157 | the windows of any text cover it |
| ChunkOutcomes.WindowsOutcome | chunking.py:120-157 | a text of at most six hundred tokens is one window; of a longer one each window is one sentence or has at most six hundred tokens, could not have taken the next sentence too, and begins with the last sentence of a longer one before it |
| Chunking.WindowSpans | chunking.py:120-157 | the loops compute exactly those windows, and terminate |
| Chunking.EmittedIsWindow | chunking.py:203-243 | every emitted chunk is the full windowing's chunk at its own index |
| Chunking.IndexIsStable | chunking.py:172-243 | an index names the same span under every policy that emits it |
| Chunking.PickedExactly | chunking.py:179-200 | head and error selection is the head and the first three error windows, in window order |
| Chunking.HeadAndErrorChunks | chunking.py:179-200 | the loop over windows emits exactly that selection, with each window's own index |
| ChunkOutcomes.ChunkOutcome | chunking.py:203-243 | which windows of a message become chunks under each policy and role, and that a chunk is its window's place, text and token count |
| Chunking.IdRoundTrip | chunking.py:53-56 | a chunk id parses back to its store id and index |
| Chunking.RebuildEmitted | command.py:5115-5143 | rebuilding any emitted chunk from its id gives back its text and span |
| Chunking.Rebuild | command.py:5115-5143 | a chunk is found exactly when the message still produces it, cached or not |
| Receipts.PublishKeeps | assertion_store.py:521-755 | a publication keeps the store's invariant and a failed one changes nothing |
| Receipts.OneActive | db_bootstrap.py:2130-2132 | at most one active receipt per source and version |
| Receipts.RepublishRestores | assertion_store.py:623-667 | invalidate then publish the same output restores the receipt and every row |
| Receipts.OtherOutputRefused | assertion_store.py:597-638 | any other output for the same content and version is refused |
| ReceiptOutcomes.AssertionsExactly | assertion_store.py:409-479 | the prepared rows are exactly those of the candidates, each with its quote; invalid exactly when some span is not in the text, and otherwise duplicate exactly when a candidate repeats |
| ReceiptOutcomes.PublishOutcome | assertion_store.py:521-755 | when a publication is invalid, duplicate, stale, in conflict, current or new, and exactly what each leaves |
| ReceiptOutcomes.EditOutcome | db_bootstrap.py:2272-2291 | an edit leaves a source's receipts active exactly for the content it keeps, a deletion none, and nothing else changes |
| Receipts.PendingExactly | assertion_store.py:348-407 | the plan, which compares no hash, asks for exactly the sources without a receipt for their current content |
| ReceiptRuns.DigestTied | assertion_store.py:521-755 | one output per source content and version, with exactly its assertions, until that version is removed |
| ReceiptRuns.RelationsLost | db_bootstrap.py:2293-2315 | a published relation is still there exactly when no version it touches was removed |
| ReceiptRuns.LostRelation | assertion_store.py:639-667 | removing another version loses a relation that publishing again does not bring back |
| ReceiptStore.AssertionStore.PublishSource | assertion_store.py:521-755 | the transaction with its row loops and rollback is the publish function |
| ReceiptStore.AssertionStore.InvalidateSource | assertion_store.py:1038-1066 | the source's receipts stop being active and nothing else changes |
| ReceiptStore.AssertionStore.Remove | assertion_store.py:1068-1098 | a version's receipts and rows go, with every relation that touches them |
| ReceiptStore.AssertionStore.PlanRebuild | assertion_store.py:366-407 | the bounded plan is the first pending sources in id order, all of them when they fit |
| Retrieval.SearchKeeps | adaptive_retrieval.py:1032-1161 | accounts stay exact sums within the limits, at most three rounds, slots only fill; a refused search changes only slots and the exhausted mark |
| RetrievalOutcomes.ResolvesExactly | adaptive_retrieval.py:997-1023 | resolutions go through exactly when each names a required slot and held refs, and every slot then holds what it held and what they give it |
| RetrievalOutcomes.SearchOutcome | adaptive_retrieval.py:1032-1161 | a round is made exactly for an open slot of an active retrieval with rounds left, by a tool that answers; what it adds is the new items in order as far as the budgets go |
| Retrieval.FinishKeeps | adaptive_retrieval.py:1271-1386 | finished implies a selection of held refs that gives every slot its minimum of different ones |
| RetrievalOutcomes.FinishOutcome | adaptive_retrieval.py:1271-1386 | when a finish fails, falls back with the open slots named, ends with evidence alone, or finishes, and with which refs |
| Retrieval.DefaultAccepted | adaptive_retrieval.py:1297-1316 | with every slot closed by different refs, selecting them all is always accepted |
| Retrieval.StartKeeps | adaptive_retrieval.py:865-994 | a start succeeds exactly on valid requirements; a cached view makes it ready only within the budgets with every slot closed |
| RetrievalOutcomes.StartOutcome | adaptive_retrieval.py:865-994 | a start succeeds exactly on valid requirements, and is ready exactly when a confirmed view of the same digest closes every slot within the budgets; otherwise it holds nothing |
| Retrieval.RunKept | adaptive_retrieval.py:865-1406 | after any run of starts, searches, finishes, touches, abandonments and clears, at most 32 retrievals, each within all its budgets |
| Retrieval.ClosedForGood | adaptive_retrieval.py:1025-1030 | over any such run, as long as a retrieval is held, a closed slot stays closed and it never becomes active again |
| Retrieval.LeavesOnly | adaptive_retrieval.py:777-788 | a retrieval leaves only expired, abandoned, cleared, or least recently updated when a start finds the registry full of live ones |
| Retrieval.Registry.Start | adaptive_retrieval.py:865-994 | exactly one retrieval is added to what the purge keeps, which is unchanged |
| Retrieval.Registry.Purge | adaptive_retrieval.py:777-788 | exactly the expired retrievals go, and only when that leaves the registry full one more, least recently updated |
| Retrieval.Registry.Touch | adaptive_retrieval.py:1388-1396 | looking a retrieval up drops it when expired, and otherwise changes only when it was last updated |
| RetrievalOutcomes.LookedOutcome | adaptive_retrieval.py:845-863 | a retrieval is found exactly when it is held, owned and not expired, and dropped exactly when it is owned and expired |
| Retrieval.Registry.Abandon | adaptive_retrieval.py:1398-1406 | an abandoned retrieval goes, and no other changes |
| Retrieval.Registry.Search | adaptive_retrieval.py:1032-1161 | the loops over evidence and leads make exactly one round of the named retrieval, or refuse exactly when the function does |
| Retrieval.Registry.Finish | adaptive_retrieval.py:1271-1386 | a retrieval becomes finished only by an accepted selection |
| Retrieval.EvidenceUnambiguous | adaptive_retrieval.py:441-490 | undeclared evidence stands at its offset or at the only place its quote occurs |

## Left out

- Rendering, doctor, backup, rotation, presets, rollups, cost reports, schema creation and repair, registration: user interface and platform.
- Provider calls, tokenizers, privacy transforms, JSON projection and regular expressions: parameters of the models.
- Backfill: the provider's answer is one of refused, skipped, unclear or accepted; clocks are parameters of acquire and renew.
- Gap scan: legacy integer coverage, malformed metadata, the partial-message record, restamping an unchanged certificate and certificates of a complete manual pass; a page limit of zero (callers pass 2000; with zero a walk record would claim an unread range).
- Gap scan: how calls come to an end is proved of the upper band and from any record but a finished one; above a finished record the source keeps no walk (command.py:4838-4845), so a call there has to exhaust what arrived within its budget.
- Gap scan: which of two bands a pass takes first is a parameter; other calls are writes of the same form, taken over only when they follow on what such a call can have read and are true but for the rows that this lets slip, and `GapScan.Identity.Swap` proves that a call makes no other.  Roles are lowered in ASCII only, which differs from the chunker's lowering in no role it takes.
- Capture: tool-results files and their events, forgetting a session, deletions, and transcripts replaced in the middle of one drain: a drain does not look again between its batches, so in the model what it reads only grows (`CaptureRun.Steady`); `CaptureCursor.RewriteCosts` shows a line lost otherwise.
- Capture: an entry's own uuid is taken to hold no `#`, so a row uid names one entry; ledger relations are kept as groups, one per earlier version, whose pairs are the relation rows. A group is never recorded twice because its rows are new.
- CaptureIngest.Ledger.IngestLines: needs the offset to be zero exactly when the line index is, which `CaptureRun.CursorFits` keeps in every run.
- CaptureAudit.Audit: orphans, doubles, held files, the projection-version skip and the report's lag figures are not counted.
- Spool: a hook that cannot find its runtime starts no worker; embedding after a drain and the store's journal mode are not modelled.
- AuxGenerations: stack inspection, weak references, the thread's own stack of markers and the fallback compressor.
- DelegateChild: reading rows by session and limit; a view whose messages are all ignored stores nothing.
- TailPlan: prefix selection, whose budget depends on a caller outside this model.
- Chunking: which characters are white space, and how tokens are counted, are parameters; `ChunkOutcomes.SentenceEndsExactly` takes it that a newline is white space and a stop is not.  Also normalizing roles, policies and content; ids with anything but decimal digits around the first colon do not parse, where the source also takes signs, spaces and underscores.
- Receipts: field validation of candidates beyond spans, duplicates and self-relations; quoting and hashing of payloads.
- Retrieval: parsing of questions, identities and tool arguments, persisting a query view, and the computation itself, which is one of four outcomes; ownership is a parameter.
