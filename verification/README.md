# Verification of the drawing-duel service and editor

A Dafny 4.11 model of the parts of the repository whose correctness spans several functions:
the duel protocol and its database transactions, the client reducer that follows it, the editor's
undo history and its AI proposals, the document and proposal validators, coordinate rounding, the
evicting rate limiter, the AI budget ledger and the WebSocket presence hub.

Check everything with `dafny verify dfyconfig.toml`.

## How the model is laid out

**Duel protocol** (`server/internal/game`, `server/internal/db`). `DuelState` holds the rows
(`Match`, `Seat`, ratings, ledger) and the guards of the list and lock queries; `DuelTransactions`
gives each transaction as a function on the tables; `DuelService` is the same code in imperative
form, a `Store` whose SQL statements update fields and a `Service` whose methods are proved equal to
those functions, with the sweeper's loops. `DuelMachine` is the protocol as a state machine: requests,
any number of processes with judging slots, sweepers working through lists that may be stale, judging
passes that read without a lock and persist later, crashes. Every interleaving is a run.
`DuelInvariants`, `DuelRows`, `DuelTables`, `DuelCommits` and `DuelSteps` prove the invariant,
`DuelRuns` and `DuelMatchmaking` what holds over whole runs, `DuelLists`, `DuelBacklog`, `DuelRanks`
and `DuelLiveness` that sweeping ends. `DuelVerdicts` and `DuelEffects` say what each transaction
answers and leaves, read off the rows. `Elo` is the rating update over reals, `EloScale` what a result
is worth.

**Client** (`apps/web/src/features/play/duel.ts`). `Client` is the reducer; `ClientRuns` composes it
with runs of the duel machine: every snapshot and frame a client hears was true at some earlier
moment, and may be late, repeated, reordered or lost. `ClientEnds` is about the reason shown for a
match nobody finished, `ClientCatchesUp` about a client not lagging behind what it hears.

**Editor** (`packages/editor/src/history.ts`, `editor.ts`). `Editing` has the commands over live
layer objects and their meaning on a `Sheet`, the contents of the document and of every layer object;
`EditorObjects` and `EditorClass` are the mutating classes, proved against it. `CommandEffects` says
what each command changes; `Exactness`, `HistoryRuns` and `Marks` are about undo, redo and the history
mark. `Reinsertion`, `CommandLists`, `AcceptOps`, `ReplaceUndo` and `Proposals` are about accepted AI
proposals.

**Documents** (`server/internal/document`, `packages/editor/src/document/round.ts`). `DocumentRules`
and `OpBatch` prove the early-exit validators equal to declarative rules, and that a validated
proposal does to the document what it says, `ReplaceBatch` the same in 'replace' mode. `Rounding`
and `RoundedGeometry` are about rounding.

**Rate limiter, ledger, hub.** `RateLimit` and `RateAdmission`, `AiLedger` and `AiAnswers`, `Hub` and
`HubClosings`.

## Model

| member | source | states |
|---|---|---|
| `Elo.EloZeroSum` | server/internal/game/elo.go:16-32 | For every pair of integer ratings and score 0, 1/2 or 1 the two rounded changes are opposite, at most 32, and the winner never loses points. No tie in rounding can occur, so no hypothesis about it is needed. |
| `EloScale.ExpectedScores` | server/internal/game/elo.go:29-32 | The two expected scores sum to one; an equal expects one half, a lead of 400 points expects ten elevenths, and a stronger opponent never raises the expectation. |
| `Elo.EloIsSymmetric` | server/internal/game/elo.go:21-27 | Swapping the players swaps the results. |
| `EloScale.MoveIsNearest` | server/internal/game/elo.go:16-32 | The change is the integer nearest to 32 times the score less 1/(1+w), w being 10 to the rating difference over 400. |
| `EloScale.EqualsWin16` | server/internal/game/elo.go:16-32 | Between equals a win moves exactly 16 points and a tie none. |
| `EloScale.UpsetsGainMore` | server/internal/game/elo.go:16-32 | A win over a higher rating never gains less than a win over a lower one. |
| `EloScale.FavouritesGainLess` | server/internal/game/elo.go:16-32 | A favourite's win gains at most 16, an underdog's at least 16. |
| `EloScale.LeadOf400` | server/internal/game/elo.go:16-32 | With a lead of 400 points a win gains exactly 3 and a loss costs exactly 29. |
| `EloScale.TiesFavourTheLower` | server/internal/game/elo.go:16-32 | A tie never gains the favourite points nor costs the underdog any. |
| `DuelVerdicts.VerdictDecides` | server/internal/game/service.go:563-648 | Persisting a verdict on a judging match: the row is done and judged, the verdict's winner is the winner and does not lose points, a tie has none, both seats show the judge's scores and the move from old to new rating, the move is the formula's for the ratings read, and no other row, rating or ledger entry changes. |
| `DuelVerdicts.SubmissionOrder` | server/internal/db/match_players.sql.go:145-171 | A pass gets both players exactly when both have submitted: the earlier submission is A, the smaller id on a tie. |
| `DuelVerdicts.SoleSubmitterWins` | server/internal/game/deadline.go:37-116 | An expired round with one drawing in is that player's win without scores, for the points a win is worth at both current ratings. |
| `DuelVerdicts.OnlyExpiredResolved` | server/internal/game/deadline.go:28-116 | Resolving changes the tables if and only if the round is drawing and its deadline has come. |
| `DuelVerdicts.JudgedByVerdict` | server/internal/game/service.go:514-682 | In every run, whenever a match becomes judged that step persisted a verdict, and the row and ratings are that verdict's for ratings the two players had at an earlier moment of the run. |
| `DuelEffects.SubmitAnswers` | server/internal/game/service.go:357-463 | Each answer to a submit, if and only if: match missing; not a player; round expired; not drawing; already submitted; stored, and whether it was the last drawing. |
| `DuelEffects.SubmitLeaves` | server/internal/game/service.go:357-489 | A stored submit stamps the caller's seat alone; the last one starts a pass, its attempt and its provider row with a slot and only queues without; a late one resolves the round; a refused one changes nothing. |
| `DuelEffects.PlayChooses` | server/internal/db/matches.sql.go:57-123 | A player in play, and no other, gets the newest such match back; a joined match is open for less than 120 s and its one player, somebody else, was seen in the last 45 s. |
| `DuelEffects.PlayLeaves` | server/internal/game/service.go:130-228 | A join seats the player last, starts the round with 90 s and bills both once; a creation opens a match and bills nobody; a resume is at most a pulse. |
| `DuelEffects.CancelLeaves` | server/internal/game/service.go:233-265 | Each answer to a cancel by the state of the row, and what it leaves. |
| `DuelEffects.RefireLeaves` | server/internal/game/sweeper.go:225-260 | Re-firing acts exactly on a judging row with fewer than three attempts and no start in the last 75 s, and records one start, attempt and provider row. |
| `DuelEffects.StaleOrJoinable` | server/internal/db/matches.sql.go:95-123 | An open match is on the stale list (lines 346-368) exactly when no other player could join it. |
| `DuelEffects.ListedIsWritten` | server/internal/db/matches.sql.go:216-427 | A listed row is one the phase's write would change at that time, and for expired rounds and stuck passes every such row is listed. |
| `DuelCommits.CommitStep` | server/internal/game/service.go:617-682 | Every transaction, re-checking its row under the lock, keeps all table invariants and moves every match at most down its rank, whatever stale data it was planned on. |
| `DuelSteps.StepKeepsInv` | server/internal/game/sweeper.go:72-310 | Every step of the machine keeps the invariant of tables, slots and goroutines. |
| `DuelRuns.TerminalFrozen` | server/internal/db/matches.sql.go:507-588 | In every run a done or abandoned match never changes again (but for the time a player was last seen), and ranks never rise, although the status updates have no guard. |
| `DuelRuns.EloAtMostOnce` | server/internal/game/service.go:651-682 | In every run at most one step applies ratings for a match, late and re-fired judging passes included. |
| `DuelRuns.RatingsConservedOverRuns` | server/internal/game/service.go:617-648 | In every run the ratings sum to their start, each rating is its start plus its owner's recorded changes, and each finished match's changes cancel or are absent. |
| `DuelRuns.BillingConserved` | server/internal/db/ai_calls.sql.go:125-160 | In every run provider rows equal judging attempts over all matches, and a player's rows equal the matches started with that player. |
| `DuelRuns.AtMostSevenChanges` | server/internal/game/service.go:397-445 | In every run a match changes at most seven times (but for last-seen times). |
| `DuelRuns.JudgingTrichotomy` | server/internal/db/matches.sql.go:216-397 | Every judging match is, at any time, in exactly one of: pass fresh, stuck list, exhausted list; attempts stay at most 3 and a start is recorded exactly when there was one. |
| `DuelRuns.AbortsOnlyStale` | server/internal/game/sweeper.go:159-222 | Whenever an exhausted-judging sweep changes the tables, it aborts a match on its third attempt whose start was stale when listed, although staleness is not checked again. |
| `DuelRuns.DeadlineSafety` | server/internal/game/deadline.go:28-116 | In every run a drawing match holds at most one submission and every stamp is before the deadline; an expired round ends abandoned, or as a forfeit won by the one who submitted, and never in judging. |
| `DuelRuns.RosterSizes` | server/internal/game/service.go:130-218 | In every run an open match has one player and a drawing, judging or done one has two. |
| `DuelRuns.SlotsOverRuns` | server/internal/game/limiter.go:24-54 | In every run the slots taken are exactly those held by goroutines and the drain, within the limit; once drained, none is held by a goroutine. |
| `DuelRuns.DrainIsFinal` | server/internal/game/limiter.go:48-54 | Once a process has drained, no judging pass of it runs or can start again. |
| `DuelMatchmaking.OneMatchInPlay` | server/internal/game/service.go:130-218 | If matchmaking transactions take the lock in the order of their clocks, no player is ever in two matches that are drawing, judging or open within the TTL, at the last decision or any later time. |
| `DuelMatchmaking.LatePlayIff` | server/internal/db/matches.sql.go:95-123 | With a clock that lags behind, a matchmaking decision keeps that property if and only if it is not a join of a match whose creator is in play elsewhere. |
| `DuelMatchmaking.ClocksOutOfOrder` | server/internal/db/matches.sql.go:95-123 | A run one second out of lock order in which one player is drawing in two matches. |
| `DuelLists.BatchIsWorkList` | server/internal/db/matches.sql.go:216-427 | The ordered, limited list of a phase, with the rows others hold locked skipped, is distinct candidates, oldest first, at most one batch, none older left out, and complete but for locked rows when shorter. |
| `DuelLists.OldestServedFirst` | server/internal/db/matches.sql.go:216-427 | A list is in the order its rows became due, and a due row left out for lack of room is due no earlier than any of the 256 listed. |
| `DuelBacklog.SweptRowClears` | server/internal/game/sweeper.go:92-310 | Handling a row at any time since it was listed takes it off its phase's backlog, puts it on no other, and changes no other row, whether or not it still is a candidate. |
| `DuelBacklog.WorkListIsBacklog` | server/internal/game/sweeper.go:56-68 | A list is part of the backlog, and all of it but for locked rows when it is shorter than a batch. |
| `DuelLiveness.DueIsListed` | server/internal/db/matches.sql.go:216-427 | Every match past its TTL, deadline or stale window is a candidate of exactly one phase. |
| `DuelRanks.SweptRowMoves` | server/internal/game/sweeper.go:92-310 | Sweeping a candidate strictly lowers its rank. |
| `DuelRanks.SweptTotal` | server/internal/game/sweeper.go:92-310 | Sweeping any row, stale or not, raises no rank of the table, and sweeping a candidate lowers their sum. |
| `DuelLiveness.SweepAdvances` | server/internal/game/sweeper.go:72-182 | From every state with a free slot and a match due at a time, a sweep of the real ordered list at that time strictly lowers the sum of all ranks and ends with a slot free. |
| `DuelLiveness.EveryMatchCanEnd` | server/internal/game/sweeper.go:33-310 | From every state with a free slot any given match is brought to its end by finitely many sweeps, each of which lists what the query lists, on a clock that starts at any given time and never runs back. |
| `DuelService.JudgeLimiter.TryAcquire` | server/internal/game/limiter.go:26-33 | Takes a slot exactly when one is left, and never passes the limit. |
| `DuelService.Store.ListCandidates` | server/internal/db/matches.sql.go:216-427 | The query's result is the ordered and limited list of the phase without the rows others hold locked. |
| `DuelService.Service.WriteFinalResult` | server/internal/game/service.go:617-648 | The loop over the players writes what the transaction function says, in user order. |
| `DuelService.Service.ResolveExpiry` | server/internal/game/deadline.go:37-116 | Partitioning the roster and deciding equals the transaction function, on every path. |
| `DuelService.Service.Submit` | server/internal/game/service.go:357-463 | On every path the slots taken grow by one exactly when a pass is started, a failed transaction leaves the tables alone, and otherwise the tables are those of the transaction function. |
| `DuelService.Service.Cancel` | server/internal/game/service.go:233-265 | Cancels an open match of the caller, or answers and changes nothing. |
| `DuelService.Service.CreateOrJoin` | server/internal/game/service.go:130-228 | A match in play is given back, before the budget is looked at; a spent budget refuses exactly the others; under the lock the player resumes, joins the oldest joinable match that is not locked, or creates one if there is none; a failed commit changes nothing. |
| `DuelService.Service.PersistResult` | server/internal/game/service.go:651-682 | Writes exactly when the match is still judging under the lock and the commit succeeds, and then what the verdict decides: winner, scores, both ratings; otherwise the tables stay. |
| `DuelService.Service.RefireJudging` | server/internal/game/sweeper.go:225-260 | Re-fires exactly when the row is still stuck under the lock, and then records one start and one provider row. |
| `DuelService.Service.AbortJudging` | server/internal/game/sweeper.go:188-222 | Aborts exactly when the row still is judging with its attempts used up. |
| `DuelService.Service.SweepStuckJudging` | server/internal/game/sweeper.go:123-154 | Over a list that may be stale, each row at some later time: slots taken grow by exactly the passes started, with one provider row each; on a list just read, handled counts the passes started; everything is handled when nothing fails and a slot is left. |
| `DuelService.Service.SweepPhase` | server/internal/game/sweeper.go:72-282 | One batch of any phase, each row at some time after the list, shrinks that phase's backlog by exactly the rows it reports and lowers the rank of the table if there is one, grows no other backlog, and leaves only locked rows when it comes back short without an error or a lack of slots. |
| `DuelService.Service.Drain` | server/internal/game/sweeper.go:56-68 | Ends, on a clock that goes forward and whatever rows are locked at each batch; without errors (and with a slot left when judging) only rows locked at its last batch are left on the phase's backlog. |
| `DuelService.Service.DrainAll` | server/internal/game/sweeper.go:33-54 | The four drains in a row, without errors, leave of everything due at their start only locked rows, and stuck matches if the slots ran out. |
| `Client.PhaseMovesBackIff` | apps/web/src/features/play/duel.ts:162-205 | A phase moves back if and only if the event starts anew or fails the submit in progress. |
| `Client.StatusNeverDrops` | apps/web/src/features/play/duel.ts:108-205 | The shown status never drops, judging and done counted as one; the one drop from done to judging is stated exactly. |
| `Client.RoundNeverRunsBack` | apps/web/src/features/play/duel.ts:120-205 | Over any sequence of events of one round the client's view never gets worse. |
| `Client.SubmittedMarkStays` | apps/web/src/features/play/duel.ts:116-140 | The submitted mark of an opponent who stays shown is never taken back. |
| `ClientRuns.NeverAheadOfServer` | apps/web/src/features/play/duel.ts:120-205 | For every server run and every late, repeated, reordered or lossy delivery, whatever phase, status, result, end or mark a client shows, the server had reached. |
| `ClientRuns.ClientsStayBehind` | apps/web/src/features/play/duel.ts:162-205 | The invariant behind it, kept by every event heard. |
| `ClientRuns.ClientsAgree` | apps/web/src/features/play/duel.ts:162-205 | Two clients of one match, at any times of their own, never show a result and an abandonment, nor two results. |
| `ClientEnds.EndReasonIff` | apps/web/src/features/play/duel.ts:112-114 | Whenever a client of a run shows that nobody finished its match, the reason shown is the match's own if and only if a snapshot heard before the end told it of a deadline, or the match had none. |
| `ClientEnds.WrongEnd` | apps/web/src/features/play/duel.ts:112-114 | A run and a client of it, told only the truth, that shows the queue ended when a round began and ran out. |
| `ClientCatchesUp.SnapshotCatchesUp` | apps/web/src/features/play/duel.ts:120-160 | A snapshot of its match moves a client exactly to the later of the phase it is in and the phase the snapshot shows: waiting, drawing, submitted once my drawing is marked in, judging; an abandoned one ends it with the reason. |
| `ClientCatchesUp.SnapshotTells` | apps/web/src/features/play/duel.ts:120-160 | It carries over prompt, clock and opponent, whose drawing shows as in exactly when the snapshot says so, judging has begun, or it showed before. |
| `ClientCatchesUp.NewsCatchesUp` | apps/web/src/features/play/duel.ts:162-205 | Frames and result polls show what they say at once. |
| `ClientCatchesUp.AnsweredSubmit` | apps/web/src/features/play/duel.ts:162-205 | A submit sent while drawing and answered, whatever was heard in between but a failure, leads to submitted or further. |
| `ClientCatchesUp.SubmitReplyTells` | apps/web/src/features/play/duel.ts:186-196 | The reply to the submit that is out leads to judging or submitted by the furthest status, and anchors the clock; a late reply changes nothing. |
| `ClientCatchesUp.SnapshotLeavesNoLag` | apps/web/src/features/play/duel.ts:120-205 | In every server run, whatever a client heard before, one snapshot of the match as it is leaves the client where the match is. |
| `ClientCatchesUp.PollLeavesNoLag` | apps/web/src/features/play/duel.ts:162-205 | So does the answer to its poll, with the result itself once the client knew to ask for it. |
| `Exactness.FittingIsExact` | packages/editor/src/history.ts:41-181 | Every command executed where it was built, with fresh ids for what it adds, is undone exactly, composites of such commands included. |
| `Exactness.MoveBack` | packages/editor/src/history.ts:31-100 | Moving a layer anywhere and back by its recorded index restores the order. |
| `CommandEffects.LayerEdits` | packages/editor/src/history.ts:41-160 | Drawing, renaming, showing and fading change that one property of the first layer with the id, and nothing else in the sheet. |
| `CommandEffects.ListEdits` | packages/editor/src/history.ts:31-100 | Adding, removing and moving: where the layer is afterwards, and that all others stay as and in the order they were. |
| `HistoryRuns.SessionOnRecord` | packages/editor/src/history.ts:188-238 | In every session of executes, undos and redos the document is always a recorded state, at its place on the line of the two stacks, although commands share live layers. |
| `HistoryRuns.EqualMarksEqualDocuments` | packages/editor/src/history.ts:200-206 | Equal marks mean equal documents in every session of exact commands, also after undoing and branching off. |
| `HistoryRuns.ExecuteUndoIff` | packages/editor/src/history.ts:200-232 | Executing a command and undoing it leads to the same mark, and to the same document if and only if the command is exact. |
| `HistoryRuns.UndoRedoCancel` | packages/editor/src/history.ts:209-232 | Undo and redo cancel. |
| `Marks.FromExactIff` | packages/editor/src/editor.ts:327-374 | Of all commands the editor builds, a 'replace' with new stroke ids included, exactly the orderly ones are exact: all but a 'replace' that does not meet its condition. |
| `Marks.EditorMarks` | packages/editor/src/editor.ts:292-299 | In every session of the editor in which each 'replace' is orderly, accepted proposals included, equal marks mean equal documents. |
| `Marks.ReplaceMarkIff` | packages/editor/src/editor.ts:292-299 | Accepting a 'replace' with new stroke ids and undoing it leads to the same mark, and to the same document if and only if it is orderly. |
| `Marks.SameMarkOtherDocument` | packages/editor/src/history.ts:200-206 | Four layers replaced by one, then undone: no mark again, on a different document. |
| `EditorObjects.ApplyTo` | packages/editor/src/history.ts:41-181 | Applying a command to the live document, which splices lists and assigns fields of shared layers, does what the command means on sheets. |
| `EditorObjects.InvertOn` | packages/editor/src/history.ts:41-181 | The same for inverting. |
| `EditorClass.History.Execute` | packages/editor/src/history.ts:209-214 | Pushes, clears the redo stack and applies. |
| `EditorClass.History.Undo` | packages/editor/src/history.ts:216-223 | Pops and inverts, or reports that nothing was there. |
| `EditorClass.History.Redo` | packages/editor/src/history.ts:225-232 | The same for redo. |
| `EditorClass.Editor.AddLayer` | packages/editor/src/editor.ts:408-421 | Adds an empty layer on top and makes it active, or does nothing at the cap; no layer object changes. |
| `EditorClass.Editor.RemoveLayer` | packages/editor/src/editor.ts:424-436 | Removes just that layer unless it is the last one, as one command; if it was active, the layer above it becomes active, or the top one. |
| `EditorClass.Editor.MoveLayer` | packages/editor/src/editor.ts:438-444 | Tells whether it moved; then the layer is at the clamped index, without it the lists before and after are equal, no contents change, and it is one command. |
| `EditorClass.Editor.ReconcileActiveLayer` | packages/editor/src/editor.ts:500-504 | The active layer stays if it is one of the document, and is the lowest one otherwise. |
| `EditorClass.Editor.AcceptOps` | packages/editor/src/editor.ts:327-374 | One command on the undo stack, built on the document with the new layers, made the document; and what is left of the layers and of the active one is exactly as LeftAfter says. |
| `AcceptOps.AcceptedAddFits` | packages/editor/src/editor.ts:335-360 | An 'add' proposal with fresh ids is one command that is undone exactly, whatever layers its strokes name. |
| `AcceptOps.PlannedData` | packages/editor/src/editor.ts:335-360 | When the strokes' layers are there, every layer has afterwards what it had and then exactly the strokes drawn for it, in order. |
| `Reinsertion.UndoneIff` | packages/editor/src/history.ts:72-86 | Appending, taking elements out with indexes from the original list, putting them back in reverse and dropping the appended restores the list if and only if at most two more were taken out than appended and nothing was kept above the second lowest taken out. |
| `Reinsertion.NothingLost` | packages/editor/src/history.ts:72-86 | In any case every element comes back once. |
| `ReplaceUndo.ReplaceUndone` | packages/editor/src/editor.ts:362-374 | For a batch whose stroke ids are new: one undo of an accepted 'replace' restores background and contents, and gives the layers in the order that reinsertion gives. |
| `ReplaceUndo.ReplaceUndoIff` | packages/editor/src/editor.ts:362-374 | For a batch whose stroke ids are new: one undo of an accepted 'replace' is exact if and only if at most two more layers were removed than added and none drawn into lay above the second lowest removed one. |
| `ReplaceUndo.ReplaceAllUndoIff` | packages/editor/src/editor.ts:362-374 | For a batch whose stroke ids are new, when no old layer is drawn into: if and only if there were at most two more old layers than new ones. |
| `ReplaceUndo.ReplaceUndoRestores` | packages/editor/src/editor.ts:362-374 | For a batch whose stroke ids are new, in any case: every removed layer is back once, with its contents. |
| `ReplaceUndo.DescendingExact` | packages/editor/src/editor.ts:362-374 | For a batch whose stroke ids are new, the same removals from the top layer down would be undone exactly, always. |
| `Proposals.FourByOneProposal` | packages/editor/src/editor.ts:362-374 | Layers a, b, c, d replaced by one new layer: one undo gives a, b, d, c, so the command is not exact. |
| `Proposals.UndoTakesAnotherWay` | packages/editor/src/history.ts:171-181 | There undo passes through a list of layers, the last old layer above the new one, that no prefix of the redo has. |
| `Proposals.AcceptedLayers` | packages/editor/src/editor.ts:335-370 | An accepted proposal leaves the old layers ('replace': those drawn into) and the new ones on top. |
| `Proposals.LayerRemainsIff` | packages/editor/src/editor.ts:362-370 | A 'replace' leaves a layer if and only if it adds one or draws into one that is there. |
| `Proposals.ReplaceCanEmpty` | packages/editor/src/editor.ts:362-370 | One layer and one stroke on a layer that is gone: 'replace' empties the document. |
| `Proposals.ActiveFoundIff` | packages/editor/src/editor.ts:364-370 | The active layer is one of the document after a proposal if and only if it was an 'add', or something was drawn on the active layer, or a layer was added, or the first stroke names a layer that is there. |
| `Proposals.ReplaceCanLoseActive` | packages/editor/src/editor.ts:364-370 | Two layers and strokes on a layer that is gone and then on the lower one: the missing layer becomes active. |
| `DocumentRules.CheckFreehand` | server/internal/document/validate.go:109-132 | The checks and the point loop accept exactly the valid freehand shapes, with their point count. |
| `DocumentRules.CheckLine` | server/internal/document/validate.go:150-174 | The same for lines. |
| `DocumentRules.CheckStrokes` | server/internal/document/validate.go:68-77 | The inner loop accepts exactly the stroke lists whose ids are new and whose points fit the total, and returns both totals. |
| `DocumentRules.CheckLayers` | server/internal/document/validate.go:47-79 | The accumulating early-exit loop accepts exactly the layers that meet the rules: ids unique across layers and strokes, totals within the caps. |
| `DocumentRules.Validate` | server/internal/document/validate.go:28-80 | Accepts exactly the documents that meet the declared rules. |
| `OpBatch.ValidateOpBatch` | server/internal/document/ops.go:210-244 | The loop over ids and layer references accepts exactly the batches that meet the rules. |
| `OpBatch.AcceptedAdd` | packages/editor/src/editor.ts:335-373 | A batch valid against the document's summary and accepted in 'add' mode adds one layer per add_layer on top, in order, appends every stroke to the layer its id names, and changes nothing else. |
| `OpBatch.NoStrokeDropped` | packages/editor/src/editor.ts:335-373 | Every stroke of such a batch is in the document afterwards, on the layer it names. |
| `OpBatch.AcceptedIdsUnique` | server/internal/document/ops.go:210-244 | Layer and stroke ids stay unique across the document, if the batch's stroke ids avoid those in it. |
| `OpBatch.AcceptedUndone` | packages/editor/src/editor.ts:327-374 | One undo of such a batch is exact. |
| `ReplaceBatch.AcceptedReplace` | packages/editor/src/editor.ts:335-373 | A batch valid against the summary and accepted in 'replace' mode keeps, in order, the old layers its strokes name, puts its own on top in order, and draws on each exactly what names it. |
| `ReplaceBatch.ActiveIs` | packages/editor/src/editor.ts:362-370 | The active layer afterwards: the same after an 'add' or if drawn on, else the last new layer, else the first stroke's layer. |
| `Rounding.RoundKeepsValid` | packages/editor/src/document/round.ts:68-76 | Rounding a valid document gives a valid document. |
| `Rounding.RoundTwice` | packages/editor/src/document/round.ts:68-76 | Rounding is idempotent on every document. |
| `Rounding.RoundMovesLittle` | packages/editor/src/document/round.ts:4-66 | It moves a coordinate by at most 0.005 and a size by less than 0.01. |
| `RoundedGeometry.RoundsGeometryOnly` | packages/editor/src/document/round.ts:32-76 | A rounded document differs in geometry only: ids, names, flags, composite, colours, brush, caps, joins, background and all counts stay. |
| `RoundedGeometry.RoundsToGrid` | packages/editor/src/document/round.ts:4-76 | Every coordinate becomes a multiple of 0.01, every pressure one of 0.001, every positive size a positive multiple of 0.01. |
| `RateLimit.Limiter.AllowRequest` | server/internal/platform/ratelimit/limiter.go:72-109 | The bucket map and the answer are those of the model's step, fail-open at capacity included. |
| `RateLimit.SameAnswersIff` | server/internal/platform/ratelimit/limiter.go:72-132 | The evicting limiter answers like the never-evicting one on every call sequence that never fails open, if and only if burst times interval is at most the TTL plus one tick. |
| `RateLimit.SameAnswers` | server/internal/assist/ratelimit.go:52-76 | The sufficient half, for one sequence with evictions at any times. |
| `RateLimit.WindowBound` | server/internal/assist/ratelimit.go:52-76 | Any span of time admits at most burst plus span over interval calls of a key. |
| `RateLimit.EvictingWindowBound` | server/internal/platform/ratelimit/limiter.go:72-132 | So does the evicting limiter. |
| `RateLimit.MapBounded` | server/internal/platform/ratelimit/limiter.go:72-132 | The map never exceeds its bound. |
| `RateAdmission.AdmittedIff` | server/internal/assist/ratelimit.go:52-76 | A call is let through if and only if, counted with it, no window from an earlier event to now holds more admitted calls of the key than burst plus span over interval. |
| `RateAdmission.EvictingAdmittedIff` | server/internal/platform/ratelimit/limiter.go:72-132 | The same of the evicting limiter, when its TTL covers a full refill and no call of the sequence fails open. |
| `RateAdmission.NewKey` | server/internal/platform/ratelimit/limiter.go:72-132 | A new key is not remembered exactly when the map is full of keys active within the TTL, and then it is let through; otherwise it starts with a full burst less this call. |
| `RateAdmission.FullMapFailsOpen` | server/internal/platform/ratelimit/limiter.go:76-94 | At a map full of active keys a new key is let through and nothing changes. |
| `AiLedger.DailyCap` | server/internal/db/ai_calls.sql.go:79-111 | Over any run, any 24 hours hold at most the cap of a user's rows of a kind billed through spend. |
| `AiLedger.ProviderRowsAreSpends` | server/internal/aibudget/aibudget.go:129-154 | Provider rows of a kind are exactly its successful spends. |
| `AiLedger.RetentionUnseen` | server/internal/aibudget/sweeper.go:58-76 | The retention delete changes no window count. |
| `AiLedger.CheckedSpend` | server/internal/aibudget/aibudget.go:98-154 | On unchanged rows a spend that the advisory check allowed is recorded, at that time or later. |
| `AiLedger.Budget.Spend` | server/internal/aibudget/aibudget.go:129-154 | Inserts under the cap, or reports the kind spent. |
| `AiAnswers.CheckIff` | server/internal/aibudget/aibudget.go:98-127 | Each answer of the check, if and only if, in rows of the last 24 hours: the player's own ceiling for the kind first, then the provider's over all players and kinds. |
| `AiAnswers.SpendIff` | server/internal/aibudget/aibudget.go:129-154 | A spend goes through exactly under the player's ceiling, clamped to 32 bits, and then writes one player row and one provider row. |
| `AiAnswers.SweepKeepsAWeek` | server/internal/aibudget/sweeper.go:58-76 | The retention delete keeps every row of the last seven days and no other. |
| `Hub.PresenceOverRuns` | server/internal/ws/hub.go:179-226 | Over any run the frames about a user in a room alternate, starting with connected; the last was connected exactly when a client is there; never more than five are. |
| `Hub.EvictionIsQuiet` | server/internal/ws/hub.go:179-212 | An eviction takes out and closes the oldest client alone, says nothing, and touches no other user. |
| `Hub.EvictedUnregisters` | server/internal/ws/hub.go:214-226 | The evicted client's own unregistration, at any later time at which it has not registered again, changes and says nothing. |
| `Hub.OneOldest` | server/internal/ws/room.go:56-64 | The oldest client is unique. |
| `Hub.Hub.HandleRegister` | server/internal/ws/hub.go:179-212 | The mutating rooms do what the step says, evicting the oldest exactly at the cap; exactly the evicted client is closed, and the newcomer is in the room. |
| `Hub.Hub.HandleUnregister` | server/internal/ws/hub.go:214-226 | The same for unregistering: the client is gone, nobody is closed, empty rooms are dropped. |
| `HubClosings.Registered` | server/internal/ws/hub.go:179-212 | In every run a registration adds the newcomer under the next number; exactly when its user has five clients the oldest goes and exactly it is closed; the room is told exactly when it is the user's first. |
| `HubClosings.Unregistered` | server/internal/ws/hub.go:214-226 | In every run an unregistration closes nobody, takes out that client alone, and is told exactly when it was the user's only one. |
| `HubClosings.ClosedWasOldest` | server/internal/ws/hub.go:179-212 | Every client ever closed was the oldest of five of its user at some earlier registration, which closed it. |
| `HubClosings.EvictedCameFirst` | server/internal/ws/room.go:56-64 | The evicted client registered before every other client its user has in the room. |

Some facts are proved as remarks and are not main results: `ClientRuns.TwoPollsSettle` (two truthful
polls settle an ended match), `RateLimit.LateBurstDiffers`, and the rows above that say what a single
step answers or leaves and that follow from its definition at once (`DuelVerdicts.OnlyExpiredResolved`,
`DuelEffects.PlayLeaves`, `DuelEffects.CancelLeaves`, `DuelEffects.RefireLeaves`,
`ClientCatchesUp.NewsCatchesUp`, `ClientCatchesUp.SubmitReplyTells`, `CommandEffects.LayerEdits`).

## Findings

Where the code does not do what its comments promise, the input and the exact condition are proved.

- **Undo of 'replace' can reorder layers** (`packages/editor/src/editor.ts:362-366`, removals built on
  the original document, against `packages/editor/src/history.ts:72-85`, which puts each back at its
  recorded index). Input: `Proposals.FourByOneProposal`, four layers replaced by one. Condition:
  `ReplaceUndo.ReplaceUndoIff`, and `ReplaceUndo.ReplaceAllUndoIff` when no old layer is drawn into.
  Removing from the top down would always be exact: `ReplaceUndo.DescendingExact`.
- **Equal history marks can mean different documents** (`packages/editor/src/history.ts:200-206`,
  `packages/editor/src/editor.ts:292-299` say they cannot). Input: `Marks.SameMarkOtherDocument`.
  Condition: `Marks.ReplaceMarkIff` for one proposal, `Marks.EditorMarks` for sessions.
- **'replace' can leave a document without layers** (`packages/editor/src/editor.ts:362-370`; the
  comment at line 423 says documents need one), when the layer a stroke names was removed after the
  proposal was made. Input: `Proposals.ReplaceCanEmpty`. Condition: `Proposals.LayerRemainsIff`.
- **'replace' can make a missing layer active** (`packages/editor/src/editor.ts:364-370`). Input:
  `Proposals.ReplaceCanLoseActive`. Condition: `Proposals.ActiveFoundIff`.
- **A player can be in two matches in play** when a matchmaking transaction that started earlier takes
  the lock later (`server/internal/db/matches.sql.go:95-112` looks only at the joined match). Input:
  `DuelMatchmaking.ClocksOutOfOrder`. Condition: `DuelMatchmaking.LatePlayIff`.
- **A client can show the wrong end** (`apps/web/src/features/play/duel.ts:112-114` decides by what it
  happened to hear before). Input: `ClientEnds.WrongEnd`, a player who sees the open match once and
  hears next that it is abandoned. Condition: `ClientEnds.EndReasonIff`.
- **The limiters differ when the TTL is short** (`server/internal/platform/ratelimit/limiter.go:126-132`).
  Input: `RateLimit.ShortTTLDiffers`. Condition: `RateLimit.SameAnswersIff`.

## Left out

- Users and matches are their indexes in the tables; times are integers.
- The last-seen time of a player can still be written on a finished match by a stale poll, as in the
  code, so `DuelRuns.TerminalFrozen` leaves it out.
- DuelService.Service.SweepPhase: other transactions do not commit between its list and its rows; that
  is in the state machine, where every list may be stale.
- DuelService.Service.Drain: the same between its batches.
- DuelService.Service.DrainAll: the same between its batches.
- DuelService.Service.CreateOrJoin: nothing commits between the first lookup and the lock; the budget's
  answer is a parameter.
- DuelLiveness.EveryMatchCanEnd: its lists are of tables no row of which is locked.
- Prompts, drawings, rendering and the judge's call: a pass ends with an arbitrary verdict or fails.
- The drain's blocking sends are one step per slot; a process that crashes loses its goroutines.
- A submit may queue judging although a slot is free, which the model allows and the code does not.
- `ResultOf` orders a result's players by seat, not by submission time.
- Error texts, display names, DTO redaction, HTTP, JSON, authentication, logging and configuration.
- Floating point: numbers are reals or not finite; the power in the expected score is any function with
  the power laws that are used. Elo scores are 0, 1/2 or 1, as the code passes them.
- WebSocket send buffers, the presence frames that seed a newcomer, fan-out and heartbeats; one hub in
  one process. The sequence number of a client is kept in its room.
- AI ledger inserts are serialized, as the code's own comment on the cap requires; kinds billed through
  the split functions have no cap to prove.
- Konva projection, pointer gestures, the stage and the ghost overlay; layer names are not trimmed;
  fresh ids are parameters.
- In sessions of `HistoryRuns` and `Marks` every layer object a later command adds exists from the
  start, outside the document.
- Stroke fields of an unknown type, bounding boxes and document metadata.
