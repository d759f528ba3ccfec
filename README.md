# Game phase advancement, modelled and proved in Dafny

This project models the cron pass that moves a multiplayer drawing-and-voting
game forward. The pass lives in `api/cron/check-game-phases.js`. On each run it:

- lists the rooms that are `playing` and whose `phase_end_time` is set and already in the past;
- moves each listed room to its next phase: drawing → voting, next drawing, next round, or game end;
- scores every member when the final round ends;
- catches a failure in one room, re-reads that room, and pushes its deadline 30 seconds ahead;
- replies with the number of rooms it processed.

The modules follow the components of the pass:

- `Rooms` (rooms.dfy): the data model. It holds room rows, the UPDATE statements as values (`RoomUpdate`, `Apply`, `Write`), the expired-room query, the room invariant `Steady`, and the read-only tables (drawings, stars, room players, users).
- `Engine` (engine.dfy): the pure branch decision `PlanFor`. It takes the branches in the source's precedence order.
- `Scoring` (scoring.dfy): the ratings join, the score `round(20 × mean)` with integer arithmetic, and the upsert of `game_results` rows.
- `Scheduler` (scheduler.dfy): the pure specification of one pass. It covers the try block of each room (`Attempt`, `OutcomeOf`), the recovery block (`Recover`), the loop (`RunPass`, `Pass`, the counter `CountIn`), and the proof that rooms do not interfere with each other (`PassAt`).
- `PassProperties` (properties.dfy): what a pass guarantees, one lemma per branch, plus counting, invariants and repeated passes.
- `Store` (store.dfy): a class `GameStore` holding the tables. Its handler `CheckGamePhases` loops over the expired rooms, one `ProcessOne` per room. `SaveScores` is the score upsert loop and `RecoverRoom` is the recovery write. Each method is proved against the `Scheduler` functions.

What has to be supplied from outside:

- `now` is an integer parameter.
- The random prompt row and any store failures come as an `Oracle`:
  - `draws[id]` is the prompt the random query returned for room `id`. No entry means the prompts table is empty, so `rows[0].id` throws.
  - `faults[id] = k` lets the first k writes for the room succeed and makes the next write throw. A read that throws before that write has the same effect.
  - `recoveryFaults` lists the rooms whose recovery block throws.

The model follows what the code does. In particular:

- The code's updates are plain `WHERE id = $1` writes. They are not compare-and-swap writes that check the old phase and deadline, so a concurrent run could apply the same transition twice.
- The scoring branch is not all-or-nothing. A scoring branch that fails halfway keeps the rows it has already upserted, because there is no transaction to roll back (`FailedScoringKeepsRows`).
- The upsert's `ON CONFLICT` clause updates only `score` and `rank`, so an existing row keeps its `username`.
- The members query joins `room_players` with `users`. A member without a users row gets no result row.
- A room listed in the `results` phase is neither written nor counted.
- In the voting branch the zero-drawings test comes first. A "next drawing" step therefore needs at least one drawing.

Where each part of the handler is modelled (lines of `api/cron/check-game-phases.js`):

- `Rooms.ExpiredRooms`: the expired-room query, lines 18-24.
- `Rooms.Apply`: the SET lists of the room UPDATE statements. These are drawing → voting (lines 33-36), empty final round (56-59), next round (69-73 and 132-136), game end after scoring (119-122), next drawing (144-146) and the recovery deadline (167-168).
- `Rooms.Write`: every `UPDATE rooms ... WHERE id = $1`, which `Apply`s the SET list to an existing row and matches nothing for a missing id.
- `Rooms.CountDrawings` and `Rooms.MatchingRows`: the drawing count and the rows it counts, lines 44-49.
- `Engine.PlanFor`: the branch structure, lines 30-150.
- `Scoring.Players`: the members query joining `room_players` and `users`, lines 86-92.
- `Scoring.RatingsIn` (with `StarRatings`): the ratings join, lines 96-102.
- `Scoring.MeanScore` and `Scoring.RoundHalfUp`: `Math.round((avg || 0) * 20)`, lines 104-105.
- `Scoring.Upsert`: one `INSERT ... ON CONFLICT DO UPDATE`, lines 107-114.
- `Scoring.UpsertScores`: the loop over players, lines 95-115.
- `Scheduler.Attempt` and `Scheduler.OutcomeOf`: the try block for one room, lines 29-152.
- `Scheduler.Recover`: the recovery block, lines 157-176.
- `Scheduler.ProcessRoom`: one iteration of the room loop, lines 28-177.
- `Scheduler.RunPass`, `Scheduler.CountIn` and `Scheduler.Pass`: the query and the loop with its counter, lines 18-178.
- `Store.GameStore`: the same steps as imperative code. `SaveScores` is lines 94-115, `Advance` lines 29-152, `RecoverRoom` lines 156-176, `ProcessOne` lines 29-177 and `CheckGamePhases` lines 10-188.

## Model

| member | source | states |
|---|---|---|
| Rooms.ExpiredRooms | api/cron/check-game-phases.js:18-24 | the listing holds exactly the rooms that are playing with a non-null deadline earlier than now, with their rows unchanged |
| Rooms.Write | api/cron/check-game-phases.js:32-39 | an `UPDATE rooms ... WHERE id = $1` keeps the set of rooms, changes no other room, and gives an existing row the update's SET list; a missing id changes nothing |
| Rooms.CountDrawings | api/cron/check-game-phases.js:44-49 | the count is zero exactly when no drawing of the room has the given round number, and it never exceeds the drawing table's size |
| Rooms.CountDrawingsExact | api/cron/check-game-phases.js:44-49 | the count equals the number of positions in the drawing table holding a row of that room and round, the count that lines 83 and 141 compare the drawing index against |
| Engine.PlanFor | api/cron/check-game-phases.js:30-150 | each branch is chosen exactly under its condition in the source's precedence: drawing opens voting; voting with no drawings ends the game without scores on the final round and otherwise starts a round; voting at or past the last drawing scores and ends on the final round and otherwise starts a round; otherwise the next drawing is shown; a round starts only below the total, and only with a drawn prompt; a results-phase room is ignored |
| Engine.PlanKeepsSteady | api/cron/check-game-phases.js:52-76 | every planned write keeps the room invariants, including current_round ≤ rounds, because a round is only added when current_round < rounds |
| Scoring.PlayersMembers | api/cron/check-game-phases.js:86-92 | a player is listed exactly when the room_players row exists and the user has a users row, and it carries that username |
| Scoring.MemberIds | api/cron/check-game-phases.js:86-95 | the loop visits exactly the members of the room that have a users row |
| Scoring.StarRatingsMembers | api/cron/check-game-phases.js:96-102 | a value is among a drawing's ratings exactly when some star on that drawing has that rating, and it occurs exactly as many times as there are such stars, so every star counts once in the average |
| Scoring.RatingsInMembers | api/cron/check-game-phases.js:96-102 | a value is among the member's ratings exactly when some star on some drawing of that member in that room (any round) has it; a member with no drawing in the room has none |
| Scoring.RoundHalfUpBounds | api/cron/check-game-phases.js:105 | the result is the integer nearest to n/d, with halves rounded up, as Math.round does |
| Scoring.ScoreInRange | api/cron/check-game-phases.js:104-105 | ratings in 0..5 give a score in 0..100 |
| Scoring.PlayerScoreInRange | api/cron/check-game-phases.js:96-105 | if every star is in 0..5, every player's score is in 0..100 |
| Scoring.UnratedScoresZero | api/cron/check-game-phases.js:104 | a member none of whose drawings in the room was rated scores exactly 0 |
| Scoring.UpsertScoresAt | api/cron/check-game-phases.js:95-115 | after the loop, each visited member has exactly one row for the room, with its score and rank 0; an earlier row keeps its username and a new row takes the member's; every other row is unchanged |
| Scoring.RescoringConverges | api/cron/check-game-phases.js:107-114 | re-running the loop after it threw partway leaves the same rows as one clean run |
| Scheduler.OutcomeOf | api/cron/check-game-phases.js:29-152 | a room is skipped, not counted and not failed, exactly when it is in the results phase; a drawing room fails exactly when its single write throws; the new-round branch fails when the prompts table is empty; a voting room with a single write is counted exactly when that write succeeds; the scoring branch is counted exactly when every upsert and the final room write succeed |
| Scheduler.Recover | api/cron/check-game-phases.js:157-176 | if recovery does not throw and the re-read room still has the snapshot's phase, only its deadline becomes now + 30; otherwise nothing is written, including for a missing room; no other room changes |
| Scheduler.ProcessRoomFrame | api/cron/check-game-phases.js:28-178 | one room's iteration changes no other room and no result row of another room |
| Scheduler.UpdatedRoomAt | api/cron/check-game-phases.js:30-151 | a single-write branch whose write goes through changes the room's row exactly as its update says and writes no result row |
| Scheduler.ScoredResultsAt | api/cron/check-game-phases.js:83-125 | a scoring branch that completes leaves every member with one row for the room, its score and rank 0 (an existing row keeps its username), and other rows as they were |
| Scheduler.PartialResultsAt | api/cron/check-game-phases.js:94-115 | a scoring branch that throws after k upserts leaves rows exactly for the first k players visited, and other rows as they were |
| Scheduler.ScoredRoomAt | api/cron/check-game-phases.js:117-125 | a scoring branch that completes leaves the room completed, in the results phase, with a null deadline |
| Scheduler.ProcessResultLocal | api/cron/check-game-phases.js:28-178 | what one room's iteration leaves in one of its result rows depends only on that row's old value |
| Scheduler.ProcessRoomLocal | api/cron/check-game-phases.js:28-178 | what one room's iteration leaves for that room depends only on that room's row and result rows |
| Scheduler.PassAt | api/cron/check-game-phases.js:28-178 | after the loop, each listed room and its result rows are as that room's own iteration would leave them, and everything else is as before, whatever the listing order |
| Scheduler.CountInSize | api/cron/check-game-phases.js:27-151 | over a list without duplicates, counting one per completed room gives exactly the number of distinct completed rooms in the list |
| PassProperties.PassRoom | api/cron/check-game-phases.js:18-178 | a pass depends on each room alone: listed rooms get their own iteration, and unlisted rooms and their result rows are untouched |
| PassProperties.UnlistedRoomUntouched | api/cron/check-game-phases.js:18-24 | a room that is not playing, has a null deadline or a deadline not before now is untouched, and so are its result rows; a completed room is never changed again |
| PassProperties.DrawingOpensVoting | api/cron/check-game-phases.js:30-40 | a drawing room becomes voting with index 0 and deadline now + voting_time; round, prompt, status and everything else stay the same; no result rows are written; the room is counted |
| PassProperties.RoundAdvances | api/cron/check-game-phases.js:52-76 | a voting room below the last round, with no drawings or at the last drawing, gets phase drawing, round + 1, the drawn prompt and deadline now + drawing_time; the round stays within rounds; no result rows are written; the room is counted |
| PassProperties.EmptyFinalRoundEnds | api/cron/check-game-phases.js:52-62 | a voting room on the final round with no drawings ends (results, completed, null deadline), and its result rows are unchanged; the room is counted |
| PassProperties.FinalRoundScored | api/cron/check-game-phases.js:83-125 | on the last drawing of the final round the room ends; every member has exactly one result row with score round(20 × mean rating) (0 without ratings) and rank 0, an existing row being overwritten, and non-members' rows are untouched; the room is counted |
| PassProperties.NextDrawingShown | api/cron/check-game-phases.js:141-149 | with more drawings to show, only the drawing index is incremented and the deadline becomes now + voting_time; phase and round stay; no result rows are written; the room is counted |
| PassProperties.ResultsPhaseIgnored | api/cron/check-game-phases.js:28-42 | a listed room in any phase other than drawing or voting is neither changed nor counted |
| PassProperties.FailedRoomRecovered | api/cron/check-game-phases.js:153-176 | in this fault model a write that throws never takes effect, so after a failed transition the re-read room still has the snapshot's phase and recovery sets only its deadline to now + 30, or leaves it as it was if recovery throws; the room is not counted; outside the scoring branch its result rows are unchanged |
| PassProperties.FailedScoringKeepsRows | api/cron/check-game-phases.js:95-115 | scoring that throws after k upserts keeps exactly those k rows, and the room's other rows are as before |
| PassProperties.PassCountsDone | api/cron/check-game-phases.js:27-151 | the reply counts exactly the listed rooms whose drawing or voting transition completed without error |
| PassProperties.ProcessRoomSteady | api/cron/check-game-phases.js:28-178 | one room's iteration keeps the room invariants: playing means a non-null deadline, completed means results with a null deadline, and current_round ≤ rounds |
| PassProperties.PassKeepsSteady | api/cron/check-game-phases.js:28-178 | a pass keeps the room invariants of every room |
| PassProperties.ProcessedRoomSettles | api/cron/check-game-phases.js:36-176 | a processed room is not due again at the same time unless its recovery threw |
| PassProperties.SecondPassLeavesSettled | api/cron/check-game-phases.js:18-178 | a second pass right after the first leaves every room the first settled, and its result rows, exactly as the first left them |
| PassProperties.SingleRoundGameEnds | api/cron/check-game-phases.js:83-125 | a one-round game voting on its only drawing, rated 4 and 5, ends in one pass with a single result row: score 90, rank 0 |
| Store.GameStore.SaveScores | api/cron/check-game-phases.js:94-115 | the loop writes min(k, members) rows after a fault k, or all of them without a fault, and the table equals the upsert of those players in order |
| Store.GameStore.Advance | api/cron/check-game-phases.js:29-152 | the try block leaves the store as the pass specification says and reports its outcome |
| Store.GameStore.ProcessOne | api/cron/check-game-phases.js:29-177 | one loop iteration, the try block and the recovery when it threw, leaves the store as that room's iteration in the specification does and reports its outcome |
| Store.GameStore.RecoverRoom | api/cron/check-game-phases.js:156-176 | the recovery block writes exactly what `Recover` says |
| Store.GameStore.CheckGamePhases | api/cron/check-game-phases.js:10-188 | an unauthorized call or a failing listing changes nothing; otherwise the rooms are visited in an order that lists every expired room once, the store ends as the pass specification says for that order, and the reply is the number of rooms whose transition completed |

## Left out

- The `pg` pool, the SQL text, and HTTP request and response handling are left out. The tables are in-memory maps and sequences, and the reply is a value.
- The `x-vercel-cron` header check is reduced to the `authorized` flag. An unauthorized call changes nothing.
- A failing expired-room query is the `listingFails` flag. The server error it produces changes nothing.
- `console.error` logging is not modelled.
- A write that commits and then throws (the UPDATE takes effect, then the driver reports an error) is not modelled: a throwing write has no effect. Inside a pass the recovery re-read therefore always shows the snapshot's phase, and the changed-phase and missing-room branches of recovery (lines 160 and 164) are reached only through the contracts of `Recover` and `RecoverRoom`, not from `Pass`.
- The wall clock is one integer `now` for the whole pass. In Postgres each statement reads its own `NOW()`.
- Random prompt choice is a supplied prompt id per room. An empty prompts table is modelled as a failure.
- Overlapping or concurrent cron runs are not modelled. Only the sequential run of the code is. Guarding against them would take compare-and-swap writes, which the code does not use.
- `AVG` and `Math.round` on floating point are replaced by integer ratings and half-up rounding of 20·sum/count.
- The `total_drawings` subquery of the listing is unused by the code. The model uses the later count.
- Rooms, users, prompts and drawings are identified by naturals. Usernames are strings. Phases and statuses are enumerations, so other column values are not represented.
- The state query endpoint (`api/game/[roomId]/state.js`) is not part of this model.
- Scoring.RatingsInMembers: its contract states which rating values occur, not how many times each occurs. The mean is computed from the definition of `RatingsIn`.
- Rows are listed in table order. The order SQL returns rows in is unspecified, so the score loop visits players in `room_players` order. `CheckGamePhases` picks the room order itself, as any order that lists every expired room once, and returns it as a ghost value. `Pass` and `RunPass` take the order as a parameter, and `PassAt` shows the result does not depend on it.
