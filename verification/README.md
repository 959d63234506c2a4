# Verified model of the stateful core

A Dafny model, with proofs, of the parts of this backend whose correctness depends on
sequences of requests: refresh-token rotation, the coding-agent loop, prompt sanitising and
wrapping, audit retention, knowledge-base counters, the GDPR export and deletion lifecycles,
the billing fold done at deletion, and the sub-agent markdown format.

`dafny verify dfyconfig.toml` checks everything.

## How it is organised

| file | what it holds |
|---|---|
| `RefreshRotation.dfy` | the rotation protocol as a state machine with one clock reading per request; invariant, family conservation, when a family is dead for good |
| `RefreshInterleaving.dfy`, `StampInterleaving.dfy`, `RevokeInterleaving.dfy` | concurrent refreshes of one token, split into their database accesses; what that does to the rotation stamp; a revoke-all between those accesses |
| `TokenTable.dfy` | the token table in place, each method proved to perform its protocol step |
| `ToolBatch.dfy` | loop detection and the greedy merge of one batch of tool calls |
| `AgentLoop.dfy` | the loop around it: transcript, todos, totals |
| `PromptSanitizer.dfy`, `PromptWrapping.dfy` | the rewrites as a string-rewriting system; the two wrappers and their inverse |
| `AuditRetention.dfy` | retention passes over the log table and the archive |
| `KnowledgeCounters.dfy`, `KnowledgeRuns.dfy`, `KnowledgeRequests.dfy`, `KnowledgeBase.dfy` | denormalised counters against the tables; deliveries and executions of the processing task; overlapping deletions, reprocesses and reindexes; the views and tasks in place |
| `DataExports.dfy`, `AccountDeletion.dfy`, `PurgeOverlap.dfy`, `BillingSummary.dfy` | the GDPR lifecycles; several deletion purges at once |
| `SubAgentMarkdown.dfy` | export to and import from markdown |
| `RotationLaws.dfy`, `AgentLaws.dfy`, `SanitizerLaws.dfy`, `RetentionLaws.dfy`, `KnowledgeLaws.dfy`, `ExportLaws.dfy`, `DeletionLaws.dfy`, `BillingLaws.dfy`, `MarkdownLaws.dfy` | what each operation answers and writes, in terms of stored fields, texts and constants alone |
| `Common.dfy`, `Text.dfy` | shared vocabulary |

Pure code is modelled by functions. Code that changes stored rows or local variables step by
step is modelled by classes and loops, each method proved against a step function; the
theorems are about that function. Every lemma switches Dafny's automatic induction off, so
each induction is written out and no proof rests on a hypothesis the verifier guessed.

## Conventions

* Times are integers, in microseconds; a JWT expiry is cut to whole seconds.
* Issued tokens, families, rows and requests are numbered in order of creation. That makes
  fresh identifiers fresh and the digest of an issued token injective.
* What the code gets from elsewhere is a parameter that the theorems quantify over: clock
  readings, the model's replies, tool output, which processing run fails, the YAML library,
  which characters count as word characters.

## Where the code and its documentation differ

The model follows the code.

* `refresh_access_token` says that reuse revokes the whole family. It does, but a member
  rotated within the grace window before that can still be presented and forks a new live
  member (`KilledFamilyForks`). `KillIsFinalIffQuiet` gives the exact condition.
* The grace window is said to be anchored to the original rotation and never to slide. With
  each refresh atomic that is so (`GraceNeverSlides`). But a rotation is written without
  looking at the row again, so refreshes that all read it live each write a stamp, and the
  window moves (`WindowSlides`, `AcceptedHundredSecondsApart`). `StampStaysIff` says exactly
  when the stamp stays, and `AcceptedTogetherIff` when any two accepted presentations lie
  within one window.
* The comment on merging says that results come back in original order. For a batch that
  repeats a call they may not (`DuplicateReadMisplacesResult`, and for a whole run
  `RepeatedReadBreaksRun`). `InvertsIffAligned` and `IdsMatchIffInStep` give the exact
  conditions, and `OutOfStepMeansInterleavedRepeat` says what such a batch must contain.
* The untrusted-content wrapper escapes quotes in the source label, but the label also goes
  unescaped into the notice. The block is closed once exactly when the label does not contain
  the closing tag (`UntrustedClosedOnceIff`).
* The cancel link is documented as valid until `scheduled_for`; it lapses up to a second
  earlier, and in that fraction of a second the request can be neither cancelled nor purged
  (`NeverBothSometimesNeither`).
* The export task is configured to retry, but a failed request is never processed again
  (`DataExports.OutcomesAreFinal`).
* Knowledge-base counters drift when a processing run commits on top of chunks that are
  already there (`OverlapThenDestroyDrifts`). With each request and each reindex atomic nothing
  else makes them drift (`AgreeIffCleanCommits`), and `StaysAgreeingIffTidy` says which state of
  the task queue is safe. They are not atomic: deletions and reprocesses debit what they
  fetched before their transaction, and a reindex counts, deletes and debits on its own
  (`TwoDeletionsDebitTwice`, `CommitBeforeDeleteDrifts`). `AgreeIffRight` gives the exact
  condition for every interleaving.
* Tasks are acknowledged late and requeued when a worker is lost (`core/sterna/celery.py`, lines
  127-128), so two executions of one export can be under way. Then the 24 hours between
  exports are not kept (`OverlappingExecutionsBreakSpacing`). `SpacingLastsIffExclusive` gives
  the exact condition on the executions under way.
* Revoking all sessions does not stop a refresh that has already read its row
  (`RefreshSurvivesRevokeAll`). `RevokeAllIsFinalIff` says exactly when it is final.
* The same redelivery can start a deletion purge while another is under way, and the second
  can complete what the first left failed (`SecondPurgeUndoesFailure`). `StaysFinalIffExclusive`
  gives the exact condition on the lists of the purges under way.

## Model

| member | source | states |
|---|---|---|
| RefreshRotation.StepKeepsInv | core/authentication/jwt_utils.py:167-291 | every request keeps the protocol invariant: rotated rows are revoked and stamped, each non-root row has a rotated parent in its family, and the family count balances |
| RefreshRotation.RunKeepsInv | core/authentication/jwt_utils.py:167-291 | so does every history with a non-decreasing clock |
| RefreshRotation.FamilyConservation | core/authentication/jwt_utils.py:239-258 | with atomic requests, in every reachable state, for every family that has rows: live members plus members revoked other than by rotation are one plus the grace reuses; each non-root member was created within grace of its parent's rotation and shares its user and session |
| RefreshRotation.GraceNeverSlides | core/authentication/jwt_utils.py:201-245 | with atomic requests, two accepted presentations of one token, however far apart in a run, lie within one grace window |
| RefreshRotation.RevokedUnrotatedIsFinal | core/authentication/jwt_utils.py:201-212 | with atomic requests, a token revoked before it was ever rotated is never accepted again |
| RefreshRotation.RunAdvances | core/authentication/jwt_utils.py:239-245 | over any run of atomic requests revocation is never undone and the rotation stamp is written at most once |
| RefreshRotation.SuccessorInheritsFamily | core/authentication/jwt_utils.py:239-258 | an accepted refresh issues one new live token with the presented one's family, user and session and a full lifetime, leaves the presented one revoked, and changes no other row |
| RefreshRotation.RefreshStaysInFamily | core/authentication/jwt_utils.py:212-258 | a presentation, accepted or punished, leaves the rows and members of every other family as they were |
| RefreshRotation.ExtinctForever | core/authentication/jwt_utils.py:201-258 | a family all of whose members are revoked and out of grace never accepts, nor gains a member, in any later run |
| RefreshRotation.DeadForeverIffRefusing | core/authentication/jwt_utils.py:186-258 | any family is dead forever exactly when none of its members would be accepted now |
| RefreshRotation.DeadForeverIffExtinct | core/authentication/jwt_utils.py:201-258 | for a wholly revoked family, being dead forever is the same as having no member that can still fork |
| RefreshRotation.KillIsFinalIffQuiet | core/authentication/jwt_utils.py:212-225 | a reuse detection or revoke-all kills a family for good exactly when no member was rotated within the grace window before |
| RefreshRotation.KilledFamilyForks | core/authentication/jwt_utils.py:201-258 | a run in which a killed family gains a live member again |
| RotationLaws.AcceptedIff | core/authentication/jwt_utils.py:188-245 | a presentation is accepted exactly if the token is stored, the reading is before the whole second of its stored expiry, and, if it is revoked, it was rotated within the grace window |
| RotationLaws.ReuseDetectedIff | core/authentication/jwt_utils.py:201-225 | reuse is detected exactly for an unexpired revoked token out of its window |
| RotationLaws.PresentationWrites | core/authentication/jwt_utils.py:201-258 | which stored rows a presentation changes and how, for each of its three answers |
| RotationLaws.PresentingIsAStep | core/authentication/jwt_utils.py:167-267 | presenting a token in a run is that step, and the clock moves to each reading |
| RotationLaws.SuccessorLives | core/authentication/jwt_utils.py:247-258 | a successor is accepted at every reading up to a second before one lifetime from its issue |
| RotationLaws.LoginStores | core/authentication/views.py:198-219 | a login stores one live token with the request's session, in a family no row has, for one lifetime, and changes nothing else |
| RotationLaws.LoginLives | core/authentication/jwt_utils.py:126-150 | that token is accepted up to a second before one lifetime from the login |
| RotationLaws.RevocationRows | core/authentication/jwt_utils.py:269-291 | which rows a logout, a revoke-all, a session revocation and a revocation of the others revoke; every other field and row stays |
| RotationLaws.LiveTokens | core/authentication/jwt_utils.py:289-291 | which tokens a revoke-all counts and among which a session is found |
| RotationLaws.LogoutIsFinal | core/authentication/jwt_utils.py:270-280 | with atomic requests a logged-out token that was never rotated is refused in every later state |
| RotationLaws.RevokeAllIsFinal | core/authentication/jwt_utils.py:285-291 | so is each of the user's never rotated tokens after a revoke-all |
| RotationLaws.AccountRows | core/authentication/jwt_utils.py:234-237 | registering adds a user, deleting takes the user and just their rows away |
| RotationLaws.InterleavedRevokeAll | core/authentication/jwt_utils.py:285-291 | the revoke-all between accesses writes what the atomic one does |
| TokenTable.JwtManager.CreateTokenPair | core/authentication/jwt_utils.py:126-150 | stores one live row in a new family, without session data |
| TokenTable.JwtManager.Login | core/authentication/views.py:198-223 | performs the login step: a new family whose root carries the request's session; nothing for an unknown user |
| TokenTable.JwtManager.RefreshAccessToken | core/authentication/jwt_utils.py:167-267 | performs the refresh step with the same outcome and keeps the invariant |
| TokenTable.JwtManager.RevokeRefreshToken | core/authentication/jwt_utils.py:270-282 | revokes just the presented token and says whether it was found |
| TokenTable.JwtManager.RevokeAllUserTokens | core/authentication/jwt_utils.py:285-291 | revokes the user's live tokens and returns how many there were |
| TokenTable.JwtManager.RevokeOneSession | core/authentication/views.py:490-504 | revokes a live session of its owner only |
| TokenTable.JwtManager.RevokeOtherSessions | core/authentication/views.py:444-449 | revokes the user's live tokens but the kept one |
| RefreshInterleaving.UnharmedIffWithinGrace | core/authentication/jwt_utils.py:152-164 | every interleaving of the requests' accesses is free of refusals and family kills exactly when their clock readings lie within grace of each other |
| RefreshInterleaving.ConcurrentRefreshesAllSucceed | core/authentication/jwt_utils.py:186-267 | then, given its turns, each request obtains its own live successor, the token ends revoked and stamped with one of the readings, and no other row changes |
| RefreshInterleaving.LateReuseKills | core/authentication/jwt_utils.py:208-225 | a request that decides later than the window after another's rotation turns to the family kill, and its next access leaves no member live |
| StampInterleaving.StampStaysIff | core/authentication/jwt_utils.py:194-245 | the stamp of a rotated token is never moved again, in any interleaving, exactly when every request about to rotate carries the reading already stamped |
| StampInterleaving.AnchoredWindow | core/authentication/jwt_utils.py:201-212 | from then on a request that has not begun, or has read that stamp, and gets a successor decided within grace of it |
| StampInterleaving.WindowSlides | core/authentication/jwt_utils.py:201-245 | after two requests that both read the row live, a third is accepted within grace of the second, however long after the first |
| StampInterleaving.AcceptedHundredSecondsApart | core/authentication/jwt_utils.py:201-245 | an interleaving with a grace of 60 seconds in which presentations 100 seconds apart are both accepted |
| StampInterleaving.AcceptedTogetherIff | core/authentication/jwt_utils.py:152-164 | any two accepted of the concurrent presentations lie within one window, in every interleaving, exactly when all readings do |
| RevokeInterleaving.RevokeAllIsFinalIff | core/authentication/jwt_utils.py:186-291 | a revoke-all between the accesses of refreshes leaves the user without a live token, in every continuation, exactly when no refresh is about to issue at that moment |
| RevokeInterleaving.RevokeDuringRefreshesIff | core/authentication/jwt_utils.py:186-291 | the same at any point of any interleaving of refreshes of a live token |
| RevokeInterleaving.RevokeAtRestIsFinalIff | core/authentication/jwt_utils.py:201-212 | with every refresh either not begun or over, final exactly when the token is out of its grace window for those not begun |
| RevokeInterleaving.RefreshSurvivesRevokeAll | core/authentication/jwt_utils.py:193-258 | a refresh that read the token live before the revoke-all can still end with a live successor |
| RefreshInterleaving.UninterruptedIsAtomic | core/authentication/jwt_utils.py:186-267 | the accesses of one request, run together, are the atomic step |
| ToolBatch.PartitionCalls | core/code_sessions/tasks.py:734-770 | counts every read and splits the batch into executed and refused calls, in order |
| ToolBatch.MergeResults | core/code_sessions/tasks.py:790-801 | the merge loop stays within both streams and computes the merge |
| ToolBatch.MergeAlwaysCompletes | core/code_sessions/tasks.py:790-801 | for any batch, duplicates included, and any partition, the greedy merge never runs out of range and uses every result exactly once |
| ToolBatch.InvertsIffAligned | core/code_sessions/tasks.py:790-801 | the merge undoes the partition, for whatever results, exactly when no executed call equals the next refused call after it |
| ToolBatch.DistinctIsAligned | core/code_sessions/tasks.py:790-801 | pairwise distinct calls meet that condition |
| ToolBatch.IdsMatchIffInStep | core/code_sessions/tasks.py:794-801 | result i carries the id of call i, whatever the executed calls return, exactly when every call that is not the next refused one has the id of the next executed one |
| ToolBatch.AlignedIsInStep | core/code_sessions/tasks.py:790-801 | batches in which the merge undoes the partition are in step |
| ToolBatch.OutOfStepMeansInterleavedRepeat | core/code_sessions/tasks.py:794-801 | if ids go astray, some call has a later refused copy and, between the two, a call with another id |
| ToolBatch.DuplicateReadMisplacesResult | core/code_sessions/tasks.py:794-801 | a batch with a repeated read in which another call receives the read's result |
| AgentLoop.ScanTodos | core/code_sessions/tasks.py:841-853 | the todos kept are those of the last successful update in the batch, the old ones if there is none |
| AgentLoop.AppendExchange | core/code_sessions/tasks.py:883-916 | appends the calls and then one tool message per result, compressed or not |
| AgentLoop.Iterate | core/code_sessions/tasks.py:610-916 | one iteration of the loop |
| AgentLoop.RunAgentLoop | core/code_sessions/tasks.py:605-943 | the whole loop |
| AgentLoop.BatchReads | core/code_sessions/tasks.py:738-770 | within a batch, reads of a path already executed plus reads let through are the reads requested so far, capped at two |
| AgentLoop.RunBounds | core/code_sessions/tasks.py:598-651 | over every run each path is read the smaller of two and the requested number of times, and the totals are the sums over all model calls |
| AgentLoop.PruningKeepsTranscript | core/code_sessions/tasks.py:617-622 | pruning that only rewrites tool results keeps the transcript well formed |
| AgentLoop.ExchangeIsWellFormedIff | core/code_sessions/tasks.py:883-916 | the messages an iteration appends answer each call once, in order, under its id, exactly when its batch is in step |
| AgentLoop.RunKeepsBroken | core/code_sessions/tasks.py:605-916 | a transcript in which calls were answered under wrong ids stays so for the rest of the run, pruning or not |
| AgentLoop.RunKeepsNoReminder | core/code_sessions/tasks.py:627-645 | in every run, whatever the batches, no todo reminder enters the transcript kept, and what is sent is that transcript with at most one reminder at its end |
| AgentLoop.RunTranscriptsIff | core/code_sessions/tasks.py:627-645 | the transcripts of a run, shown to the model and kept, are all well formed exactly when every batch of the run is in step |
| AgentLoop.RepeatedReadBreaksRun | core/code_sessions/tasks.py:734-916 | a whole run, from any well-formed conversation, whose transcript ends ill formed: one reply reads a file, reads it again, makes another call and reads it once more |
| AgentLoop.DistinctRunIsLabelled | core/code_sessions/tasks.py:680-689 | replies that repeat no call give such a run |
| AgentLoop.AgentRun | core/code_sessions/tasks.py:605-943 | for the whole loop from any well-formed conversation, within 100 iterations, compression on or off: totals, read bound and no reminder kept in every run, well-formed transcripts exactly when every batch is in step |
| AgentLaws.HandledCallByCall | core/code_sessions/tasks.py:685-689 | the calls handled are the reply's calls of offered tools, in order |
| AgentLaws.FilledAt | core/code_sessions/tasks.py:680-683 | a call without an id gets one, the others keep theirs |
| AgentLaws.BatchOfReply | core/code_sessions/tasks.py:680-689 | both together; every handled call is of an offered tool and has an id |
| AgentLaws.RefusedIff | core/code_sessions/tasks.py:738-768 | a call is refused exactly if it reads a file asked for at least twice before, in earlier iterations or the batch |
| AgentLaws.RefusalSays | core/code_sessions/tasks.py:754-767 | the refusal carries the call's id and the error naming its file |
| AgentLaws.SelectedCallByCall | core/code_sessions/tasks.py:734-770 | executed and refused calls are each in the batch's order |
| AgentLaws.ResultsOfBatch | core/code_sessions/tasks.py:776-801 | in an aligned batch refused calls get their refusals and executed calls what they returned, each at its place |
| AgentLaws.ExchangeAt | core/code_sessions/tasks.py:883-916 | the messages appended, one by one, with compression on or off |
| AgentLaws.PrunedAt | core/code_sessions/tasks.py:617-622 | pruning starts with the second iteration and the seventh message and rewrites just tool texts |
| AgentLaws.RunEndsAtIdleReply | core/code_sessions/tasks.py:610-693 | the loop ends at the first reply that calls no offered tool, or after 100 |
| AgentLaws.SentAtEachCall | core/code_sessions/tasks.py:627-645 | at each model call the messages sent are the pruned transcript, alone if no todos are in force, else followed by one user message with the heading and the rendering of exactly those todos |
| AgentLaws.TodosInForce | core/code_sessions/tasks.py:841-853 | the todos in force are those of the last successful update in the run so far, none before the first |
| AgentLaws.AgentSends | core/code_sessions/tasks.py:605-645 | both for the loop from any conversation |
| AgentLaws.ContentsAreSaid | core/code_sessions/tasks.py:661-662 | the texts collected over a run are the non-empty contents of the replies, in order |
| PromptSanitizer.SanitizeInstructions | core/conversations/prompt_protection.py:143-181 | the loop over rules computes the sanitised text |
| PromptSanitizer.BracketTagsReplaces | core/conversations/prompt_protection.py:168-169 | both ends of every closing tag become square brackets |
| PromptSanitizer.BracketTagsKeeps | core/conversations/prompt_protection.py:168-169 | every other character stays |
| PromptSanitizer.RewriteReplaces | core/conversations/prompt_protection.py:172-179 | every match of a rule becomes the replacement |
| PromptSanitizer.RewriteKeeps | core/conversations/prompt_protection.py:178-179 | characters outside the matches stay |
| PromptSanitizer.RewrittenIsNormal | core/conversations/prompt_protection.py:168-179 | after the rules no rule changes anything, no closing tag is left, and the last rule never had anything to match |
| PromptSanitizer.SanitizedIsNormal | core/conversations/prompt_protection.py:156-181 | for every input: no closing tag, the exact length (4003 for long inputs), and sanitising again changes nothing, across the truncation boundary too |
| SanitizerLaws.NoEscapeIsLeft | core/conversations/prompt_protection.py:171-179 | no position of sanitised text holds `[/INST]`, `[/SYS]` or `<<SYS>>` |
| SanitizerLaws.EscapesBecome | core/conversations/prompt_protection.py:172-179 | wherever the shortened content spells one of them in any mixture of cases, the result holds `[/inst]`, `[/sys]` or `[[SYS]]` |
| SanitizerLaws.TagBecomesBrackets | core/conversations/prompt_protection.py:168-169 | a closing tag keeps its slash and gets square brackets |
| SanitizerLaws.HarmlessTextPasses | core/conversations/prompt_protection.py:159-181 | content without `<` and `[` passes as it is, or cut to 4000 characters and three dots |
| SanitizerLaws.QuotesAreEscaped | core/conversations/prompt_protection.py:260 | each quote of a source label becomes its entity, other text stays |
| SanitizerLaws.WrappedText | core/conversations/prompt_protection.py:195-271 | the whole of both wrapped texts, for empty and other content |
| PromptWrapping.InstructionsClosedOnce | core/conversations/prompt_protection.py:195-208 | wrapped instructions contain their closing tag once, at the very end |
| PromptWrapping.UntrustedClosedOnceIff | core/conversations/prompt_protection.py:260-271 | wrapped external content does exactly when the label does not contain the closing tag |
| PromptWrapping.WrappersInvert | core/conversations/prompt_protection.py:195-271 | stripping the known header up to the first closing tag recovers exactly the sanitised content |
| RetentionLaws.DaysKept | core/audit_logging/models.py:319-327 | the days in each unit |
| RetentionLaws.OnePolicyDeletesIff | core/audit_logging/services.py:229-246 | a policy deletes a log exactly if it is active, applies to its category, and the log is older than its days at that reading |
| RetentionLaws.OnePolicyArchivesIff | core/audit_logging/services.py:240-285 | and archives it, under its id and the policy's name, exactly if it archives at all |
| AuditRetention.AuditStore.ArchiveLog | core/audit_logging/services.py:248-285 | appends one archive row for the log and policy |
| AuditRetention.AuditStore.ApplyOne | core/audit_logging/services.py:229-246 | archive-then-delete over the queried logs leaves exactly the unexpired ones |
| AuditRetention.AuditStore.ApplyRetentionPolicies | core/audit_logging/services.py:220-246 | performs one pass of all active policies in order |
| AuditRetention.PassSurvivors | core/audit_logging/services.py:227-246 | a log survives a pass exactly when no active policy that applies to it has a cutoff, at that policy's reading, after it |
| AuditRetention.PolicyOrderIsIrrelevant | core/audit_logging/services.py:227-246 | at one reading the survivors do not depend on policy order |
| AuditRetention.PolicyOrderDecidesArchive | core/audit_logging/services.py:240-246 | the archive does |
| AuditRetention.LastPassDecides | core/audit_logging/services.py:220-246 | inserts and passes before a later pass leave no trace in the live table: it is what the last pass alone would have left |
| AuditRetention.RunConserves | core/audit_logging/services.py:240-246 | live, archived and dropped logs are together all logs ever inserted |
| AuditRetention.NothingLostOrDoubled | core/audit_logging/services.py:280-285 | no id is archived twice, or both live and archived, or dropped and kept |
| AuditRetention.PassAttributes | core/audit_logging/models.py:308-327 | an archive row of a pass names the first policy in order that expires the log, and exists only if that policy archives |
| KnowledgeLaws.UploadWrites | core/knowledge_base/services/upload.py:89-123 | an upload is stored only if it fits under the limit in mebibytes, its type is supported and its content new, and then is pending, empty and credited |
| KnowledgeLaws.CommitWrites | core/knowledge_base/tasks.py:94-135 | one row per chunk numbered from 0, a ready document that counts them, and that many on the counter |
| KnowledgeLaws.DocumentWrites | core/knowledge_base/views.py:147-210 | what deleting, reprocessing and reindexing a document leaves of documents, rows and counters |
| KnowledgeLaws.RowsLeft | core/knowledge_base/views.py:147-207 | the rows left are those of other documents, in order |
| KnowledgeLaws.BulkDeletesOneByOne | core/knowledge_base/views.py:166-192 | a bulk deletion is one deletion after the other, unknown documents doing nothing |
| KnowledgeLaws.ProcessingLeaves | core/knowledge_base/tasks.py:53-173 | the status and chunk count a run leaves, wherever it fails |
| KnowledgeLaws.TokensAddUp | core/knowledge_base/tasks.py:93-98 | the tokens reported are those of the chunks added up |
| KnowledgeLaws.EndMoves | core/knowledge_base/tasks.py:121-173 | what the end of an execution does to the tables and the deliveries |
| KnowledgeLaws.ViewMoves | core/knowledge_base/views.py:194-210 | a view's request is its step, and queues one delivery when it sends a document off |
| KnowledgeLaws.AloneIsAtomic | core/knowledge_base/tasks.py:198-210 | the accesses of a request that nothing comes between are the atomic request |
| KnowledgeCounters.CountersNeverNegative | core/knowledge_base/models.py:38-61 | in every history the document and storage counters equal the tables, the chunk counter is never behind the rows, none goes negative |
| KnowledgeCounters.CommitAndReindexKeepDrift | core/knowledge_base/tasks.py:94-135 | uploads, commits and reindexes, each atomic, in any order and number never move the chunk counter against the rows |
| KnowledgeCounters.DriftStep | core/knowledge_base/views.py:147-207 | the drift added by a step is the rows it deletes beyond the chunk counts it takes off |
| KnowledgeCounters.AgreeIffCleanCommits | core/knowledge_base/tasks.py:121-135 | with each request and each reindex atomic, all counters agree with the tables throughout a history exactly when every commit finds its document without chunks |
| KnowledgeRuns.DisciplinedRunsAgree | core/knowledge_base/tasks.py:47-173 | if a document is sent for processing only while no delivery for it is outstanding, and no execution that fails after its commit is delivered again, every commit finds its document without chunks and all counters agree in every state |
| KnowledgeRuns.StaysAgreeingIffTidy | core/knowledge_base/tasks.py:47-218 | from agreeing counters, they agree in every state of every such continuation exactly when each document has at most one delivery outstanding, and none once it has chunks |
| KnowledgeRequests.AgreeIffRight | core/knowledge_base/views.py:147-207 | over every interleaving of fetches, transactions and the accesses of reindexes, the counters agree in every state, up to the debits reindexes owe, exactly when commits are clean and each transaction debits what the tables then hold |
| KnowledgeRequests.NoDebtsAgree | core/knowledge_base/tasks.py:201-210 | with no reindex between its deletion and its debit that is plain agreement |
| KnowledgeRequests.LockedRunsAgree | core/knowledge_base/views.py:147-207 | if each request locked its document from fetch to transaction, they would agree in every state |
| KnowledgeRequests.TwoDeletionsDebitTwice | core/knowledge_base/views.py:149-162 | two deletions that both fetched a document leave the document counter one short |
| KnowledgeRequests.CommitBeforeDeleteDrifts | core/knowledge_base/tasks.py:201-210 | a commit between the count and the deletion of a reindex leaves the chunk counter ahead by its chunks |
| KnowledgeCounters.AgreeSums | core/knowledge_base/models.py:38-41 | then the chunk counter is the sum of the documents' counts |
| KnowledgeCounters.OverlapThenDestroyDrifts | core/knowledge_base/views.py:147-162 | two overlapping runs and a deletion leave the counter ahead by one run's chunks |
| KnowledgeBase.Library.AdjustStats | core/knowledge_base/models.py:53-61 | adds the three deltas and changes nothing else |
| KnowledgeBase.Library.UploadDocument | core/knowledge_base/services/upload.py:89-123 | stores a pending document and credits the counters, unless the limit is exceeded, the type unsupported or the content already there, checked in that order |
| KnowledgeBase.Library.StoreChunks | core/knowledge_base/tasks.py:93-135 | the chunk loop and transaction perform the commit step and sum the tokens; nothing is stored for a document deleted meanwhile |
| KnowledgeBase.Library.AggregateStats | core/knowledge_base/views.py:176-182 | the stored chunk counts and sizes of the chosen documents, added up |
| KnowledgeBase.Library.ProcessDocument | core/knowledge_base/tasks.py:53-173 | a run performs its status steps up to where it fails, also after the commit |
| KnowledgeBase.Library.DestroyDocument | core/knowledge_base/views.py:147-164 | performs the deletion step |
| KnowledgeBase.Library.BulkDeleteDocuments | core/knowledge_base/views.py:166-192 | performs the bulk step and returns how many documents it hit |
| KnowledgeBase.Library.ReprocessDocument | core/knowledge_base/views.py:194-210 | performs the reprocess step, debiting the stored count |
| KnowledgeBase.Library.ReindexDocument | core/knowledge_base/tasks.py:190-218 | performs the reindex step, debiting the actual rows |
| ExportLaws.RefusedIff | core/authentication/views.py:984-1002 | a user is refused exactly while an export of theirs is pending or processing, and for 24 hours after one became ready |
| ExportLaws.RequestWrites | core/authentication/views.py:1004-1010 | an accepted request adds one pending row, a refused one nothing |
| ExportLaws.TaskWrites | core/authentication/tasks.py:76-150 | what starting, finishing and failing do to the task's own row; no other row changes |
| ExportLaws.ExecutionLeaves | core/authentication/tasks.py:76-150 | an execution leaves its request ready at the moment its archive was built, or failed |
| ExportLaws.FailureFreesUser | core/authentication/tasks.py:145-150 | a failed export no longer stands in its user's way |
| ExportLaws.PurgeWrites | core/authentication/tasks.py:174-199 | a purge expires exactly the stored exports ready more than seven days ago |
| DataExports.ExportDesk.RequestExport | core/authentication/views.py:980-1015 | refuses exactly while one is in progress or one became ready within 24 hours, else adds a pending request |
| DataExports.ExportDesk.ExportUserData | core/authentication/tasks.py:44-150 | which of the four results an execution has, and the steps it performs |
| DataExports.ExportDesk.PurgeExpiredExports | core/authentication/tasks.py:168-201 | the loop expires exactly the stale rows and counts them |
| DataExports.PurgeExpiresExactly | core/authentication/tasks.py:174-199 | after a purge exactly the exports with a live link are still ready, no row names an archive past its seven days, and ready times are kept |
| DataExports.OnlyLatestInProgress | core/authentication/views.py:984-995 | in every run whatever, overlapping executions included, of a user's exports only the latest can be in progress |
| DataExports.ExportSpacing | core/authentication/views.py:997-1010 | in every run in which no execution ends on a request that is already over, any two exports of a user that became ready did so in the order requested and at least 24 hours apart, expired ones included |
| DataExports.StaysSpacedIffExclusive | core/authentication/tasks.py:65-133 | from a state of such a run, the spacing holds in every continuation that starts no second execution of a request exactly when each execution under way is the only one of a request still being processed |
| DataExports.SpacingLastsIffExclusive | core/authentication/tasks.py:65-133 | the same for every state reached from the empty table |
| DataExports.OneAtATimeEndsOnce | core/authentication/tasks.py:65-77 | with one execution of a request at a time, none ends on a request that is already over |
| DataExports.OverlappingExecutionsBreakSpacing | core/authentication/tasks.py:120-133 | with overlapping executions two exports can become ready at the same moment |
| DataExports.OutcomesAreFinal | core/authentication/tasks.py:65-77 | under the same hypothesis as the spacing, failed and expired exports stay so and keep their ready time; a ready one can only expire |
| DataExports.LostTaskRefusesForever | core/authentication/views.py:984-995 | a request whose task is lost keeps refusing its user in every later state |
| DeletionLaws.RequestWrites | core/authentication/views.py:1080-1107 | who is refused, and the request, schedule, token and inactive account an accepted one leaves |
| DeletionLaws.CancellableIff | core/authentication/views.py:1146-1169 | which tokens cancel |
| DeletionLaws.CancelWrites | core/authentication/views.py:1171-1179 | a good token cancels its own request at that reading and switches its account on; every other request and account stays |
| DeletionLaws.CancellingUndoes | core/authentication/views.py:1080-1179 | a request and its cancellation give the accounts back as they were |
| DeletionLaws.PurgeWrites | core/authentication/tasks.py:240-295 | one deletion of a purge takes the account, settles its request and orphans the others, or marks it failed and leaves the account |
| DeletionLaws.OverlappingPurgeWrites | core/authentication/tasks.py:240-295 | the same for a purge beside others, on what it read |
| DeletionLaws.DueNewestFirst | core/authentication/tasks.py:231-236 | a purge lists the pending, due requests that have an account, once, newest first |
| DeletionLaws.OverlappingPurgeLists | core/authentication/tasks.py:231-236 | so does a purge beside others, each request with its account |
| DeletionLaws.OtherWrites | core/authentication/tasks.py:230-236 | starting a purge changes nothing but its list; registering and switching touch one account |
| DeletionLaws.SuccessesCount | core/authentication/tasks.py:238-296 | the deletions reported are the successful ones |
| AccountDeletion.Accounts.RequestDeletion | core/authentication/views.py:1060-1125 | which answer is given when, the request and token created, the account made inactive |
| AccountDeletion.Accounts.CancelDeletion | core/authentication/views.py:1128-1208 | succeeds exactly for a live token of a pending request, and then restores the account |
| AccountDeletion.Accounts.HardDeleteAccounts | core/authentication/tasks.py:204-296 | the loop performs a purge and counts deletions and failures |
| AccountDeletion.RunKeepsInv | core/authentication/tasks.py:230-283 | in every history of one purge at a time, steps in the middle of a purge included: at most one pending request per user, and what a purge has still to do is still pending and due |
| AccountDeletion.OutcomesAreFinal | core/authentication/views.py:1165-1179 | with one purge at a time, canceled, completed and failed are never left, although the purge re-checks no status |
| AccountDeletion.NeverBothSometimesNeither | core/authentication/tokens.py:14-51 | a pending request is never both cancellable and due, and neither exactly in the fraction of a second cut off the token's expiry |
| AccountDeletion.DeletionTakesSevenDays | core/authentication/tasks.py:231-283 | an account disappears only through its own pending request, made at least seven days before |
| AccountDeletion.InactivityStep | core/authentication/views.py:1101-1103 | one step keeps accounts with a pending request inactive unless an administrator switches on one of them |
| AccountDeletion.InactiveThroughoutIff | core/authentication/views.py:1080-1103 | over every history, a user is inactive whenever a request of theirs is pending exactly when no administrator switches on an account while it has one |
| AccountDeletion.InactiveFromTheStart | core/authentication/views.py:1080-1103 | the same from the empty tables |
| AccountDeletion.PurgeSettles | core/authentication/tasks.py:240-296 | a purge leaves each request it found due completed or failed, as its own deletion went |
| AccountDeletion.FailedDeletionStrandsAccount | core/authentication/tasks.py:290-295 | a failed deletion leaves its account inactive with nothing pending, and so it stays in every later state until an administrator switches it on |
| AccountDeletion.FailedAccountIsStranded | core/authentication/views.py:1080-1103 | an inactive account with nothing pending stays so until then |
| PurgeOverlap.StaysFinalIffExclusive | core/authentication/tasks.py:230-296 | with purges overlapping or lost midway, canceled, completed and failed are never left again, in any continuation that starts no purge beside another, exactly when the lists under way hold only pending requests and none twice |
| PurgeOverlap.OutcomesLastIffExclusive | core/authentication/tasks.py:230-296 | the same for every state reached from the empty tables while deletions fell on pending requests |
| PurgeOverlap.PlayKeepsBase | core/authentication/tasks.py:230-283 | until then every listed request that is still pending is due, belongs to the account it was read with, and all other invariants hold |
| PurgeOverlap.SecondPurgeUndoesFailure | core/authentication/tasks.py:240-296 | two purges that read one due request: the first leaves it failed and the second completes it |
| BillingLaws.MonthRows | core/authentication/tasks.py:313-326 | one row per month with a log, keyed by its first day and no country, holding that month's costs and no tax; every other row as before |
| BillingSummary.SumByMonth | core/authentication/tasks.py:309-316 | the loop over logs computes the fold |
| BillingSummary.Billing.AggregateBilling | core/authentication/tasks.py:299-326 | writes the sums of one user under the token and nothing else |
| BillingSummary.MonthlyTotals | core/authentication/tasks.py:309-326 | every month with a log gets what the ledger charges for it; every other row of the table is as before |
| BillingSummary.MonthsAddUp | core/authentication/tasks.py:309-316 | the monthly totals add up to everything ever charged |
| BillingSummary.RerunAbsorbsEarlier | core/authentication/tasks.py:317-326 | a run over a grown or unchanged ledger leaves what it alone would have left |
| BillingSummary.EveryUserBilled | core/authentication/tasks.py:252-255 | after any users in any order, with distinct tokens, each one's rows are right and everyone else's unchanged |
| BillingSummary.UsersCommute | core/authentication/models.py:506-550 | two users with different tokens can be aggregated in either order |
| MarkdownLaws.ModelLine | core/code_sessions/models.py:915-937 | the model line for each tier |
| MarkdownLaws.OtherLines | core/code_sessions/models.py:928-945 | the other lines: always, or unless at their default |
| MarkdownLaws.PrintedText | core/code_sessions/models.py:947-949 | the printed document |
| MarkdownLaws.StripTakesEnds | core/code_sessions/models.py:947-962 | stripping takes space off both ends and nothing else |
| MarkdownLaws.ImportReads | core/code_sessions/models.py:954-962 | what the loader is handed, what the body is, and the two loader errors |
| MarkdownLaws.ImportedFields | core/code_sessions/models.py:965-982 | what each field is given, with its default |
| MarkdownLaws.ImportedIff | core/code_sessions/models.py:954-984 | which documents are imported |
| SubAgentMarkdown.FillFrontMatter | core/code_sessions/models.py:926-945 | the dictionary filled key by key says exactly what the agent's non-default fields are |
| SubAgentMarkdown.ToMarkdown | core/code_sessions/models.py:947-949 | the printed document |
| SubAgentMarkdown.LoaderSeesTheDumpIff | core/code_sessions/models.py:954-958 | parsing hands the loader exactly the dumped text, and the rest to the body, if and only if the dump contains no fence |
| SubAgentMarkdown.MissingDelimitersIff | core/code_sessions/models.py:954-956 | the delimiter error is raised exactly when there are no two separate fences |
| SubAgentMarkdown.RoundTrip | core/code_sessions/models.py:926-984 | with a fence-free dump, importing an export gives every field back, but for the tier `inherit` and white space around the body |
| SubAgentMarkdown.SecondRoundTripChangesNothing | core/code_sessions/models.py:926-984 | that normalisation is idempotent and a second round trip changes nothing |
| SubAgentMarkdown.ImportedSurvives | core/code_sessions/models.py:952-984 | any imported document is normal already, and survives export and import if its fields have their declared types, the library loads its dump back and the dump is fence-free |
| SubAgentMarkdown.UnchangedIffNormal | core/code_sessions/models.py:965-981 | an agent comes back unchanged exactly when its tier is concrete and its body stripped |

## Left out

- JWT signing, SHA-256, HMAC and randomness: a token verifies when it was issued and has not expired; the development-token bypass is not modelled.
- Other races between requests than those of `RefreshInterleaving`, `StampInterleaving`, `RevokeInterleaving`, `KnowledgeRequests` and the deletion purges: requests are atomic, in particular a login with its metadata save, and a logout's whole-row save. A bulk deletion is atomic, and a reindex deletes the rows and saves the document in one access.
- Access tokens, permissions, e-mail verification, session listing.
- ToolBatch.Refusal: the error text, without the JSON object around it.
- The step log, display truncation, progress events, modified files, pull-request metadata and the final joining of contents in the agent loop; costs are exact numbers.
- History pruning and result compression are functions that rewrite the text of tool messages; what they write is not modelled. The file-tool service returns one result per call, in order, under the call's id.
- `detect_injection_attempts` and validation on saving: heuristics without a structural property.
- PromptWrapping.InstructionsClosedOnce: the fixed sentences of the wrappers are a parameter, of which only the absence of `<` and the parentheses around the label are used.
- The order in which one policy's query returns its logs, and a crash between archiving and deleting one log.
- Text extraction, chunking, embeddings and usage billing of documents; one user's knowledge base at a time.
- Building, uploading and signing an export archive: one outcome with a time.
- AccountDeletion.RunKeepsInv: two purges do not overlap there, and none is lost; `PurgeOverlap` covers both. Token revocation on request, e-mails, Stripe and storage clean-up, and deletion of an account by other means are not modelled.
- Decimal rounding of billing amounts; the tax column stays zero as in the source.
- SubAgentMarkdown.RoundTrip: assumes the YAML library loads back this agent's front matter; YAML itself, validation and storage of sub-agents are not modelled.
- OAuth, GitHub, payments, search, e-mail, task dispatch and websockets; CodeJob status changes; serializers, admin and settings.
