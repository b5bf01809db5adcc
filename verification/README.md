# Gemline: verified model of the rules, the bot, the single-writer protocol, matchmaking and hosted games

Gemline is an alignment-and-capture game for 2 to 6 players on a hexagonal board, served by several pods over one
database. This project models, in Dafny, the parts of it whose correctness spans many steps, and proves what they
promise over every input and every run:

- **Rules engine** (`Hex`, `Board`, `Captures`, `Runs`, `Engine`): the hexagon in its square array, sandwich captures,
  run counting, and the game object with stocks, turns, clocks and endings. The objects are classes over arrays and
  fields, proved against functions on game values. `Play` and `Laws` prove what holds after every sequence of moves,
  clock starts, forfeits, resignations and draws; `Clocks` ties readings, charges and flags to the time that passed;
  `Cuts` and `Thresholds` say exactly which win thresholds can stand unnoticed.
- **Replay and loading** (`Replay`, `Load`): re-running a history without clocks, rebuilding the cells in the browser,
  and reloading a game from its stored moves.
- **Bot** (`Search`, `Candidates`, `Evaluation`, `Bot`, `BotLaws`, `ScoreLaws`, `Tactics`): alpha-beta over abstract trees, the
  in-place sort and the evaluation loops, the two put together on the real engine, and the wins the bot never misses.
- **Single writer** (`Lease`, `Fencing`, `LeaseRefinement`, `Journal`, `Client`): lease rows, leader election, fenced writes, the per-game
  event journal and the browser's catch-up. Every SQL statement or transaction is one atomic step; the answers to
  statements, heartbeats, bus messages and fetches may be late, lost, repeated or reordered.
- **Matchmaking and ratings** (`Matcher`, `Matchmaking`, `Elo`).
- **Hosted games and rematches** (`Store`, `StoreLaws`, `StoreAnswers`, `Rematch`): seats, status and draw offers around the engine, and
  the agreement of several pods on one rematch.

`Wrappers` and `Arith` hold an option and a result type and facts of integer arithmetic. Several datatypes carry
auxiliary fields that are not columns of any table (a lease row's `life`, a journal row's `author`, `owner` and `life`, a
ticket's `id` and its `enqueuer`, a record's `log` and `acts`, the rematch state's `asked`, `merges`, `writes` and `withdrawn`); they record
history, and nothing the modelled code does depends on them. Where the code does not give a property outright, the model
keeps the code's behaviour, states the exact condition and shows an input outside it:

- A stale epoch is admitted after a lease row was deleted and inserted afresh (`Fencing.StaleEpochAdmittedAfterRestart`),
  and such a write lands in the next owner's reign (`Journal.OutlivedTokenWrites`). A fenced row is the owner's own
  exactly when its token dates from the lease row's lifetime (`Journal.SingleWriterLaw`).
- A late answer makes an owner believe an old epoch (`Fencing.LateAnswerMisleadsOwner`). A belief is right exactly when
  the pod was never granted a later reign than the one it believes (`Fencing.BeliefIff`), which a pod can arrange by
  keeping one request per game in flight (`Fencing.BeliefLaw`).
- A client skips events for good after a failed fetch: `Client.GaplessIff` says exactly when a message leaves a hole and
  `Client.HoleIsPermanent` that it stays. It may miss the first event after a snapshot of an empty journal
  (`Client.EmptyJournalSnapshotHidesGap`), exactly when the first numbered message is not event 1
  (`Client.FirstMessageIff`, `Client.FirstConnectionLaw`).
- A game whose moves were accepted need not load again, because moves are stored with their time of storage; the exact
  condition is `Load.LoadLaw`, a failing run by the rulebook of two players `Load.AcceptedRunMayNotLoad`.
- In a tree, a root move tied for best may be worth less (`Search.TiedMoveMayBeWorse`). In every position of the game, a
  later pooled move is worth the best exactly when the search skipped no better reply (`BotLaws.PooledMoveExactIff`).
- A player can stand at the winning number of four-runs without having won, by the rulebook of two players too
  (`Thresholds.ThresholdReachedUnnoticed`). A move leaves another player there exactly when it does not win and that
  player's four-runs, less those that lose a stone to the move's captures, plus the five-runs cut at exactly one end,
  reach the threshold (`Thresholds.UnnoticedIff`). Over a whole run, a player stands there exactly when its four-runs
  after its last move and the balances since then reach it (`Thresholds.ThresholdLaw`).
- Waiting does not make everybody acceptable as a partner, although the comment on the band says so
  (`Matcher.EventuallyWithinIffUnderCap`).
- A withdrawn rematch acceptance may still count (`Rematch.WithdrawnSeatStillCounts`): exactly when another seat's merge
  comes after the withdrawal and before the clearing of the row (`Rematch.WithdrawnCountsIff`).

## Model

| member | source | states |
|---|---|---|
| `Hex.HexagonSize` | internal/game/board.go:30-33 | a board of side N has exactly 3N(N-1)+1 intersections |
| `Hex.IdxBijective` | internal/game/board.go:25-28 | the row-major index maps the bounding square one-to-one into the array |
| `Hex.BetweenIsIn` | internal/game/rules.go:23-38 | the board is convex along an axis, so two in-board ends make the unchecked middle reads safe |
| `Boards.HoldsIsOneToOne` | internal/game/board.go:10-22 | array and grid determine each other |
| `Boards.HoldsPut` | internal/game/board.go:39-41 | writing an in-board slot changes exactly that cell of the grid |
| `Boards.Board.constructor` | internal/game/board.go:10-22 | a new board has every intersection empty and every slot outside marked |
| `Boards.Board.MarkRow` | internal/game/board.go:13-20 | one pass of the loop marks the row's outside slots and no other |
| `Boards.Board.Set` | internal/game/board.go:39-41 | the new grid is the old one with one cell replaced |
| `Boards.Board.Clone` | internal/game/board.go:44-48 | a copy holds the same grid in an array of its own |
| `Captures.TryCapture` | internal/game/rules.go:23-38 | finds the sandwich starting at a cell along an axis, if there is one |
| `Captures.DetectCaptures` | internal/game/rules.go:7-20 | the loop lists the captures of the placed stone |
| `Captures.CapturesExact` | internal/game/rules.go:7-38 | the list holds a capture if and only if it is a sandwich with the placed stone as an end |
| `Captures.CapturesDisjoint` | internal/game/rules.go:7-20 | at most six captures, no victim stone in two of them |
| `Captures.CaptureTakesOpponents` | internal/game/rules.go:23-38 | victims are two in-board stones of one other colour, never the mover's |
| `Runs.RunsAreMaximal` | internal/game/rules.go:67-91 | the runs found from their first cells are exactly the maximal segments of the colour |
| `Runs.ForEachMaximalRun` | internal/game/rules.go:67-91 | the visitor gets the length of every maximal run exactly once, until it stops the walk |
| `Runs.HasRun` | internal/game/rules.go:40-50 | true if and only if some minLen consecutive cells carry the colour |
| `Runs.CountMaximalRuns` | internal/game/rules.go:54-63 | the number of maximal runs of exactly the given length |
| `Runs.ContainsRunIffMaximal` | internal/game/rules.go:40-50 | consecutive cells exist exactly when a maximal run is at least as long |
| `Runs.RunLengthsSumToStones` | internal/game/rules.go:67-91 | on each axis the visited lengths sum to the colour's stone count |
| `Runs.SharedCellSameRun` | internal/game/rules.go:67-91 | two maximal runs of an axis never share a cell |
| `Engine.GameState.constructor` | internal/game/state.go:81-96 | the new object is the start position for the given colours |
| `Engine.GameState.Clone` | internal/game/state.go:101-113 | an independent copy, without the history |
| `Engine.GameState.StartClock` | internal/game/state.go:117-121 | the turn's start is recorded when clocks are on |
| `Engine.GameState.RemainingForActive` | internal/game/state.go:133-146 | the active clock's reading, never negative while it runs |
| `Engine.GameState.ApplyMove` | internal/game/state.go:157-213 | refuses with the first failing test and no change, or places, captures, credits, wins or passes the turn, clocks charged |
| `Engine.GameState.Finish` | internal/game/state.go:196-212 | a win ends the game on the mover's turn, otherwise the turn passes and the clock restarts |
| `Engine.PlaceStone` | internal/game/state.go:188-195 | the stone is set and both stones of every capture are lifted |
| `Engine.GameState.CheckWin` | internal/game/state.go:271-285 | the first win reached in order of precedence |
| `Engine.GameState.Forfeit` | internal/game/state.go:218-238 | with two players the other wins; with more nobody, and the loser's clock is zeroed |
| `Engine.GameState.Resign` | internal/game/state.go:243-257 | the same ending by resignation, clocks untouched |
| `Engine.GameState.AgreeDraw` | internal/game/state.go:261-267 | a game that is on ends without a winner |
| `Clocks.EmptyIff` | internal/game/state.go:133-146 | once the turn has begun, a running clock reads 0 if and only if at least the stored milliseconds have passed since |
| `Clocks.ReadingFalls` | internal/game/state.go:133-146 | a reading never rises with time, and falls by one for every full millisecond until it is 0 |
| `Clocks.ReadingStandsStill` | internal/game/state.go:133-146 | without a running clock, or once the game is over, the reading is what is stored |
| `Clocks.ElapsedSaturates` | internal/game/state.go:140-177 | time differences beyond 64 bits count as the largest, and whole milliseconds are cut off toward zero on both sides |
| `Clocks.MoveKeepsReading` | internal/game/state.go:176-211 | an accepted move leaves its player what the clock read plus the increment, the others what they had, and starts the next clock |
| `Clocks.FlaggedIff` | internal/game/state.go:176-187 | a move is refused with a fallen flag exactly when nothing else is wrong with it and more than the stored time has passed; the clock then reads 0 |
| `Clocks.ForfeitReading` | internal/game/state.go:218-267 | who wins by a forfeit and whose clock it empties; resignations and draws touch no clock |
| `Clocks.TurnLaw` | internal/game/state.go:117-211 | in every reachable state with clocks that is on, the clock runs from the last start or accepted move |
| `Play.ConservationLaw` | internal/game/state.go:188-197 | over every run, stocks plus stones plus twice the captured pairs is 50 per player, in total and for each colour |
| `Play.MoveSizes` | internal/game/state.go:188-195 | one move adds its stone and removes exactly the victims, colour by colour |
| `Play.RosterLaw` | internal/game/state.go:157-267 | no action changes the players' order or colours or the rules, and the history is the log of accepted moves |
| `Laws.RotationLaw` | internal/game/state.go:188-208 | after m accepted moves without a win the turn is m mod n and player i has placed the ceiling of (m-i)/n stones |
| `Laws.OutOfGemsTogether` | internal/game/state.go:171-174 | a refusal for want of gems happens only when every stock is empty |
| `Laws.RunLengthBound` | internal/game/types.go:21-25 | no run has more than 50 accepted moves per player |
| `Laws.EmptyCellExists` | internal/game/board.go:30-33 | on a board at least as large as the gem count, a mover with a gem finds an empty intersection |
| `Laws.Progress` | internal/game/state.go:157-213 | with 2 to 6 players on side 11, while the game is on and any gem is left, some move is accepted |
| `Laws.AnyFreeCellWillDo` | internal/game/state.go:157-187 | in every reachable state that is on, a placement of the player to move is accepted if and only if the intersection is empty, some stock is not, and the clock covers the time |
| `Laws.PrecedenceLaw` | internal/game/state.go:271-285 | of several thresholds met at once, the first in the order six, fives, fours, captures is reported; no win exactly when none is met |
| `Laws.QuietLaw` | internal/game/state.go:200-285 | while the game is on, no colour has a run of six and no player has reached the capture threshold |
| `Thresholds.MoverIsBelow` | internal/game/state.go:200-285 | after an accepted move that leaves the game on, the mover is below all four thresholds |
| `Thresholds.CountGrowsByShortening` | internal/game/state.go:188-200 | another colour's count of runs of a length grows only when a capture lifts the end of a segment one longer |
| `Cuts.StaysIff` | internal/game/state.go:188-200 | the stones of another colour that a move leaves are exactly those that none of its captures takes |
| `Cuts.FourRunsAfter` | internal/game/state.go:188-200 | another colour's number of four-runs changes exactly by the five-runs cut at one end, less the four-runs that lose a stone |
| `Thresholds.UnnoticedIff` | internal/game/state.go:188-215 | in every reachable state, a move leaves the game on with another colour at the four-run threshold if and only if it does not win and that colour's count with the balance of its captures reaches the threshold |
| `Thresholds.ThresholdLaw` | internal/game/state.go:200-285 | in every reachable state that is on, every colour is below the five-run threshold; it stands at the four-run one if and only if its count after its last move and the balances since reach it, and then one of its five-runs was cut since |
| `Thresholds.ThresholdReachedUnnoticed` | internal/game/state.go:22-32 | a whole game of two by the rulebook, still on, in which a player stands at eight four-runs |
| `Laws.OthersGainNoRun` | internal/game/state.go:200 | a move never gives another colour a longer run, which is why only the mover's six are tested |
| `Laws.OverIsFinal` | internal/game/state.go:157-267 | once over, no sequence of actions changes board, log, stocks, winner or kind of win |
| `Replay.ApplySimulates` | internal/game/state.go:176-212 | games equal up to clocks accept the same moves with the same effect unless a clock has run out |
| `Replay.ReplayLaw` | internal/server/replay.go:33-52 | re-running any live history at zero time never fails and repeats every step and position, whatever the live clocks did |
| `Replay.GetReplay` | internal/server/replay.go:33-52 | the loop returns the steps of that re-run, or fails when it does |
| `Replay.CellsAtStep` | web/src/lib/replay.ts:6-29 | the cells after the clamped number of steps, from recorded captures alone |
| `Replay.RebuiltGridLaw` | web/src/lib/replay.ts:6-29 | after every prefix, the rebuilt grid is the engine's |
| `Replay.ClientCellsMatchEngine` | web/src/lib/hex.ts:19-30 | slot by slot, the browser's cells are the array of any engine board in that position |
| `Load.LoadGame` | internal/server/repo_postgres.go:140-182 | the loading loop is the re-run at stored times with the stored outcome laid over |
| `Load.LoadLaw` | internal/server/repo_postgres.go:135-171 | loading reproduces the run exactly when every stored interval fits its clock, and otherwise fails with a fallen flag |
| `Load.LoadedIsLive` | internal/server/repo_postgres.go:140-182 | what comes back for the rows and the outcome that a run stored: the live game, clocks apart, over exactly when that is, with clocks that go on from the stored times, or from now when nothing was played |
| `Load.AcceptedRunMayNotLoad` | internal/server/repo_postgres.go:135-167 | a run of two by the rulebook, accepted live, that does not load |
| `Search.AlphaBetaSound` | internal/ai/heuristic.go:80-111 | for every tree and window: exact inside, upper bound at or below, lower bound at or above |
| `Search.RootExact` | internal/ai/heuristic.go:40-77 | the root's best is the unpruned maximum, the first pooled move attains it, none exceeds it |
| `Search.CutEndsScan` | internal/ai/heuristic.go:99-109 | nothing after a cutoff influences the value |
| `Search.TiedMoveMayBeWorse` | internal/ai/heuristic.go:60-66 | a tree with a pooled tie worth strictly less than the best |
| `Search.TieExactIff` | internal/ai/heuristic.go:60-66 | a tied move over leaves is worth the best if and only if no reply after the cut is better for the opponent |
| `Search.PooledMovesTie` | internal/ai/heuristic.go:52-73 | every pooled move after the first was searched against the final best and tied with it |
| `Search.HealthyValue` | internal/ai/heuristic.go:93-111 | when every mover met can move, the search value is the game value |
| `Search.GameValueUnique` | internal/ai/heuristic.go:80-111 | a tree has at most one game value |
| `Candidates.SortDescending` | internal/ai/heuristic.go:310-320 | the in-place insertion sort leaves the stable descending ranking |
| `Candidates.ShiftIn` | internal/ai/heuristic.go:311-319 | one pass inserts an element into the sorted prefix and touches nothing after it |
| `Candidates.RankingIsStableSort` | internal/ai/heuristic.go:310-320 | descending, a permutation, ties in their original order |
| `Candidates.BoardPositions` | web/src/lib/hex.ts:33-42 | every intersection exactly once, in scan order, 3N(N-1)+1 in all |
| `Evaluation.ShallowScoring` | internal/ai/heuristic.go:197-246 | the one-ply score of a placement, line by line |
| `Evaluation.ScorePosition` | internal/ai/heuristic.go:128-166 | the static evaluation: own runs and captures against the opponents' |
| `Evaluation.ConsecutiveSameColor` | internal/ai/heuristic.go:250-258 | the length of the ray of one colour, origin excluded |
| `Evaluation.RankedCandidates` | internal/ai/heuristic.go:171-188 | the scan, the scores and the sort give the first k of the ranking |
| `Evaluation.CandidatesAreFree` | internal/ai/heuristic.go:171-188 | candidates are empty intersections, and there are none only on a full board |
| `Evaluation.KeepsTheBest` | internal/ai/heuristic.go:171-188 | as many different empty intersections as k and the board allow, best first; whatever is left out scores less than every one listed, or as much and is scanned later |
| `Bot.Negamax` | internal/ai/heuristic.go:80-111 | computes the pruned value of the engine's own game tree and leaves the state alone |
| `Bot.SearchKids` | internal/ai/heuristic.go:93-111 | the loop over candidates is the tree scan, refused moves skipped |
| `Bot.RootPool` | internal/ai/heuristic.go:52-73 | the root loop keeps exactly the moves tied for best |
| `Bot.BestMove` | internal/ai/heuristic.go:40-77 | returns the pooled move that the roll picks, and none exactly when the game is over or no candidate is accepted |
| `BotLaws.PositionScoreBound` | internal/ai/heuristic.go:128-166 | evaluations of reachable positions lie strictly inside the search's bounds |
| `BotLaws.RootIsExact` | internal/ai/heuristic.go:40-111 | in every reachable position and at every depth, the root is exact |
| `BotLaws.PooledMoveExactIff` | internal/ai/heuristic.go:40-77 | in every reachable position, a later pooled move is worth the best exactly when it is searched no further or no better reply was skipped |
| `BotLaws.TreeHealthy` | internal/ai/heuristic.go:93-98 | with enough gems left, the search never meets a mover who cannot move |
| `BotLaws.BestMoveIsExact` | internal/ai/heuristic.go:40-77 | for the player to move with two gems left in all, the bot's best score is the game value of its two-ply tree |
| `BotLaws.NoMoveOverlooked` | internal/ai/heuristic.go:22-50 | the search compares every accepted placement, save when 60 others at the root, 20 below, rank before it |
| `ScoreLaws.ShallowScoreIff` | internal/ai/heuristic.go:197-246 | the one-ply score is within two points of a win exactly for placements that win by alignment |
| `ScoreLaws.FirstCandidateAligns` | internal/ai/heuristic.go:171-188 | when some placement wins by alignment, the first candidate does |
| `ScoreLaws.PlacementScore` | internal/ai/heuristic.go:197-246 | what a placement that wins nothing scores: lines gained and taken, by the balance of its captures, lines blocked on each axis, captures, and nearness to the centre |
| `ScoreLaws.RayIsSegment` | internal/ai/heuristic.go:250-258 | the counted cells carry the colour and the next one does not |
| `ScoreLaws.BoardIsBall` | internal/ai/heuristic.go:279-298 | the board is the ball around the centre in the distance that the score uses |
| `ScoreLaws.OpeningIsCentre` | internal/ai/heuristic.go:171-246 | a bot that opens the game ranks the centre first |
| `ScoreLaws.StaticScoreOfTwo` | internal/ai/heuristic.go:128-166 | in a game of two, the static score is one's own lines and captures less the rival's threat |
| `ScoreLaws.PairsCount` | internal/ai/heuristic.go:128-166 | with any number of players, a rival's extra pair costs 40 points and one's own is worth 40 and its part in the race |
| `Tactics.RootPrefersWins` | internal/ai/heuristic.go:52-73 | among moves that win at once or stay undecided, only winning ones are pooled if there is one |
| `Tactics.WinIsTaken` | internal/ai/heuristic.go:40-111 | in every reachable position with two gems left, when an alignment win exists, every move the bot may choose wins at once |
| `Lease.Manager.Acquire` | internal/lease/lease.go:157-173 | inserts, renews, takes over after expiry or reports the holder; belief follows an answered grant only |
| `Lease.Manager.EnsureHeld` | internal/lease/lease.go:184-198 | does nothing when held, else is an acquisition, whatever becomes of its statement; belief follows exactly an answered grant |
| `Lease.Manager.Release` | internal/lease/lease.go:203-212 | deletes only its own row and always drops the belief |
| `Lease.Manager.Renew` | internal/lease/lease.go:242-282 | extends exactly its own rows and forgets exactly the leases found lost |
| `Lease.Manager.Close` | internal/lease/lease.go:287-305 | deletes all its rows; a failed statement keeps the beliefs |
| `Lease.Elector.Campaign` | internal/lease/elector.go:102-116 | after an answered campaign it leads exactly when the row is its own, at the row's epoch |
| `Lease.Elector.BecomeLeader` | internal/lease/elector.go:118-135 | the workload starts once per gain of leadership, not on renewals |
| `Lease.Elector.Close` | internal/lease/elector.go:151-163 | steps down and deletes only its own row |
| `Lease.LiveLeaseIsExclusive` | internal/lease/lease.go:105-148 | a pod is refused exactly when routing sees a live owner other than it |
| `Lease.GrantNames` | internal/lease/lease.go:105-173 | a granted row carries the pod, its address and a full TTL; a refusal names the live owner and its address; no other row changes |
| `Lease.ReleaseFrees` | internal/lease/lease.go:203-305 | after a release any pod may take the key at once |
| `Lease.ReleaseIsScoped` | internal/lease/lease.go:203-305 | a release removes exactly the pod's own row, or rows, and changes no other |
| `Fencing.FencedLaw` | internal/lease/lease.go:130-173 | in every run, an epoch of a row lifetime names one pod and the row carries the highest one granted |
| `Fencing.FencingLaw` | internal/server/repo_postgres.go:859-872 | in every run, an admitted write whose token dates from the row's lifetime comes from the current owner |
| `Fencing.AdmittedIff` | internal/server/repo_postgres.go:859-890 | in every run, a token of the row's lifetime is admitted if and only if no later epoch of it was granted, and then it is the owner's |
| `Fencing.ChangeOfHands` | internal/lease/lease.go:130-148 | within a lifetime the owner changes only after expiry and only with the next epoch |
| `Fencing.StaleEpochAdmittedAfterRestart` | internal/lease/lease.go:203-212 | the lifetime condition is needed: a run with a stale admitted write |
| `Fencing.BeliefIff` | internal/lease/lease.go:90-173 | in every run, an owner's belief is the row's epoch and lifetime if and only if it was granted no later reign than the one it believes |
| `Fencing.BeliefLaw` | internal/lease/lease.go:184-198 | a pod that keeps one request in flight for a key, whatever the others do, believes the row's epoch whenever it owns the row |
| `Fencing.LateAnswerMisleadsOwner` | internal/lease/lease.go:157-173 | without that, a late answer leaves an owner with an old epoch |
| `Fencing.StabilityLaw` | internal/lease/lease.go:130-148 | extensions within a TTL of each other keep owner, epoch and lifetime, and nobody else is granted the row, in any interleaving |
| `Fencing.AbandonedLaw` | internal/lease/lease.go:130-148 | a row its owner no longer extends is free for any pod one TTL later, unless another pod has it |
| `Fencing.PunctualStep` | internal/lease/elector.go:64-74 | no single statement, including any other candidate's campaign, takes a row extended within its TTL |
| `LeaseRefinement.AcquireIsRun` | internal/lease/lease.go:157-173 | an acquisition, however its statement fares, is a run of the protocol with the same table and beliefs |
| `LeaseRefinement.RenewIsRun` | internal/lease/lease.go:242-282 | so is a heartbeat with the leases it forgets |
| `LeaseRefinement.CallIsRun` | internal/lease/lease.go:157-305 | every call of any pod's manager continues a run of the protocol, other pods' beliefs untouched, and keeps the fencing invariant |
| `LeaseRefinement.CampaignIsRun` | internal/lease/elector.go:102-116 | a campaign, however its statement fares, is a run of the protocol with the same table; the candidate leads exactly when it believes to hold the role's row, in the same epoch |
| `LeaseRefinement.ElectorCallIsRun` | internal/lease/elector.go:102-163 | every campaign and resignation continues a run of the protocol, no other belief touched, and keeps the fencing invariant |
| `Journal.EventStore.AppendEvent` | internal/server/repo_postgres.go:859-890 | appends the next number exactly when the game exists and the fence admits, with the right error otherwise |
| `Journal.EventStore.UpdateOutcome` | internal/server/repo_postgres.go:235-256 | writes one game's outcome exactly when the fence admits; a missing game is no error |
| `Journal.EventStore.EventsSince` | internal/server/repo_postgres.go:909-932 | returns what the ordered, limited query may return |
| `Journal.SelectionIsSlice` | internal/server/repo_postgres.go:909-932 | on a contiguous journal that is exactly the slice after `since`, cut at the limit |
| `Journal.AppendedIsRead` | internal/server/repo_postgres.go:859-932 | after an append, a client that had everything before reads exactly the new event, or nothing when the fence refused it |
| `Journal.JournalLaw` | internal/server/repo_postgres.go:851-872 | in every run of pods, leases and writes, journals are contiguous and fenced rows stand in the order of the lease row's reigns at their appends |
| `Journal.SingleWriterLaw` | internal/server/repo_postgres.go:851-872 | a fenced row was written under the token of the pod that owned the lease at the append if and only if its token dates from the lease row's lifetime |
| `Journal.WritersTakeTurns` | internal/server/repo_postgres.go:851-872 | of two such rows the later is of the same reign and writer, or of a later reign |
| `Journal.OutlivedTokenWrites` | internal/lease/lease.go:203-212 | a run in which a token that outlived its lease row writes in the next owner's reign |
| `Client.GameSocket.ProcessEvent` | web/src/api/gameSocket.ts:194-215 | skips, fetches and applies as specified, closing included |
| `Client.GameSocket.FetchCatchup` | web/src/api/gameSocket.ts:220-237 | applies the new rows in order until closed; a failure changes nothing |
| `Client.UnnumberedReaches` | web/src/api/gameSocket.ts:194-215 | a message without a number reaches the listeners of an open socket and leaves the count alone |
| `Client.AtMostOnceLaw` | web/src/api/gameSocket.ts:189-237 | under any messages and replies, numbered events are applied in strictly increasing order, each at most once |
| `Client.GaplessIff` | web/src/api/gameSocket.ts:202-213 | a message is processed without a hole exactly when it shows none, the socket closes meanwhile, or the fetch succeeds and it is at most 1001 ahead or a listener closes the socket on a fetched row |
| `Client.ExactlyOnceLaw` | web/src/api/gameSocket.ts:189-237 | when every triggered fetch covers its gap, the applied list is exactly a contiguous slice of the journal |
| `Client.HoleIsPermanent` | web/src/api/gameSocket.ts:203-213 | a skipped event is never applied later |
| `Client.FirstMessageIff` | web/src/api/gameSocket.ts:198-214 | the first numbered message leaves the client with the whole journal up to it if and only if it is event 1 |
| `Client.FirstConnectionLaw` | web/src/api/gameSocket.ts:194-237 | from an empty journal's snapshot on, a well-served client has the whole journal up to where it stands if and only if the first numbered message it was sent is event 1 |
| `Client.EmptyJournalSnapshotHidesGap` | web/src/api/gameSocket.ts:198-214 | an unnumbered first snapshot lets event 1 be missed without a fetch |
| `Matcher.EventuallyWithinIffUnderCap` | internal/server/matchmaking.go:18-24 | two users are ever acceptable to each other exactly when their ratings differ by at most 1000 |
| `Matcher.WaitingTime` | internal/server/matchmaking.go:12-24 | users accept each other if and only if they are within 100 points, or within 1000 and one has waited a second for every ten points beyond 100 |
| `Matcher.AlonePairedIff` | internal/server/matcher.go:162-201 | two users alone in the queue are paired exactly from that moment on |
| `Matcher.PairUsers` | internal/server/matcher.go:162-201 | the loops compute the greedy pairing |
| `Matcher.ClosestFree` | internal/server/matcher.go:176-193 | the inner loop finds the first closest free user within band |
| `Matcher.BestIsClosest` | internal/server/matcher.go:176-193 | no candidate is closer, ties go to the earlier one, and none is found only if there is none |
| `Matcher.MatchingLaw` | internal/server/matcher.go:162-201 | pairs are disjoint and within band, each first user gets a closest free partner, and nobody left over is within band of another |
| `Matcher.MultiRoomLaw` | internal/server/matcher.go:212-249 | at most one room, of the longest-waiting users, between quorum and size; one more user never delays it |
| `Matcher.PartialRoomIff` | internal/server/matcher.go:212-249 | a room that is not full starts if and only if somebody has waited 20, 10, 5 or 0 seconds, by its size |
| `Matchmaking.MatchDb.MatchmakeTick` | internal/server/repo_postgres.go:1129-1186 | the transaction seats the groups or, failing, changes nothing, and announces exactly the seated |
| `Matchmaking.CommitLaw` | internal/server/repo_postgres.go:1136-1186 | exactly the matched users leave the queue, each group gets one new game of 2 to players seats, nothing else changes |
| `Matchmaking.EverybodySitsOnce` | internal/server/repo_postgres.go:1136-1186 | after a commit, exactly the matched users sit in the new games, each on one seat of one game |
| `Matchmaking.AnnouncedIffSeated` | internal/server/repo_postgres.go:1136-1186 | a user is sent to a game if and only if it is new and the user sits in it |
| `Matchmaking.GroupsSplit` | internal/server/matcher.go:159-229 | the groups of a tick are well formed and share no user |
| `Matchmaking.GroupsLaw` | internal/server/matcher.go:159-249 | what a tick groups: for two-player rooms pairs within band, leaving no two users within band behind; for larger rooms at most one, of the longest-waiting |
| `Matchmaking.TicketLaw` | internal/server/repo_postgres.go:1088-1186 | over any interleaving of ticks, enqueuings and cancellations, every ticket is queued once, seated once or withdrawn, never two of these |
| `Matchmaking.SeatUserLaw` | internal/server/repo_postgres.go:1088-1186 | over any such interleaving, a seat's user is the one who enqueued its ticket |
| `Elo.UpdateMulti` | internal/elo/elo.go:60-96 | the field's ratings after a game: shares as specified, and the sum of all ratings unchanged |
| `Elo.ZeroSumLaw` | internal/elo/elo.go:37-47 | 1v1 deltas cancel, lie within K, and favour upsets |
| `Elo.StrongerPaysMore` | internal/elo/elo.go:37-47 | a win against an opponent expected to be stronger pays no less, and more once the expectations differ by 1/32 |
| `Elo.GainOfField` | internal/elo/elo.go:60-75 | the winner's gain depends on the field only through its size and rating sum |
| `Elo.GainOverEquals` | internal/elo/elo.go:60-75 | beating a field of equals is worth what beating one of them is |
| `Elo.SharesLaw` | internal/elo/elo.go:75-94 | gain between 0 and 32, losers after the first pay equally, the first at most n-1 more |
| `Elo.AllPaid` | internal/elo/elo.go:77-80 | the shares add up to the gain for gains of either sign |
| `Store.GameRecord.Create` | internal/server/store.go:664-697 | a created game is waiting with all seats free |
| `Store.GameRecord.Join` | internal/server/store.go:776-840 | claims the wished or best free seat with the right refusals; the last seat starts play |
| `Store.GameRecord.FindFree` | internal/server/store.go:1459-1473 | a seat reserved for the user first, else an unreserved free one |
| `Store.GameRecord.ResolveSeat` | internal/server/store.go:845-875 | rotates the token of the user's own seat |
| `Store.GameRecord.AddBot` | internal/server/store.go:980-1030 | a bot takes a free seat of a private waiting game; the last seat starts play |
| `Store.GameRecord.RemoveBot` | internal/server/store.go:1034-1069 | vacates a bot's seat and no other |
| `Store.GameRecord.InviteSeat` | internal/server/store.go:1075-1116 | reserves a free seat without occupying it |
| `Store.GameRecord.CancelSeatInvite` | internal/server/store.go:1120-1157 | clears a reservation only |
| `Store.GameRecord.DeclineSeatInvite` | internal/server/store.go:1161-1205 | the same for the invited user alone |
| `Store.GameRecord.LeaveSeat` | internal/server/store.go:1209-1235 | frees the token's seat while waiting |
| `Store.GameRecord.StartGame` | internal/server/store.go:432-473 | drops the free seats, renumbers, rebuilds the engine under the rulebook of the seated count |
| `Store.GameRecord.CheckStart` | internal/server/store.go:943-976 | only the holder of seat 0 of a private waiting game may start |
| `Store.GameRecord.PlayMove` | internal/server/store.go:879-937 | the token's colour moves; an accepted move rescinds offers and a win finishes the game |
| `Store.GameRecord.PlayBotTurnIfNeeded` | internal/server/bot.go:43-101 | the active bot's move, through the same engine call |
| `Store.GameRecord.Resign` | internal/server/store.go:1239-1278 | the token's colour resigns a game that is on |
| `Store.GameRecord.HandleFlag` | internal/server/store.go:621-660 | forfeits the active player exactly when its clock, read again, is empty |
| `Store.GameRecord.HandleDisconnectTimeout` | internal/server/store.go:579-618 | forfeits the seat of a game that is on |
| `Store.GameRecord.OfferDraw` | internal/server/draw.go:20-58 | one standing offer at a time, in two-seat games only |
| `Store.GameRecord.AcceptDraw` | internal/server/draw.go:62-105 | ends the game only on the other seat's standing offer |
| `Store.GameRecord.DeclineDraw` | internal/server/draw.go:109-136 | either seat clears the offer |
| `StoreLaws.RunLaw` | internal/server/store.go:432-1278 | every sequence of commands keeps the invariant, whatever the repository answers |
| `StoreLaws.EndingLaw` | internal/server/store.go:579-1278 | a game ends only by the turn's winning move, the token's resignation, an empty clock or timeout, or an accepted draw, and the seat that gave up never wins |
| `StoreLaws.SeatHolderLaw` | internal/server/store.go:776-1235 | nobody loses a seat to anybody else: only its token's holder leaves it, and only a bot is removed |
| `StoreLaws.CreatedCoherent` | internal/server/store.go:664-697 | a created game is waiting, with all its seats free for anybody, and satisfies the invariant |
| `StoreLaws.RecordLaw` | internal/server/store.go:65-90 | seats match the engine's players, playing means all seats taken, finished means the engine's game is over |
| `StoreLaws.DrawLaw` | internal/server/draw.go:20-136 | a drawn game had two seats and ended with one seat's offer directly followed by the other's acceptance |
| `StoreLaws.StatusForward` | internal/server/store.go:432-937 | status only moves forward, and a finished game's position, outcome and seats stay |
| `StoreLaws.HostedGameConserves` | internal/server/store.go:879-937 | every hosted game conserves its gems |
| `StoreLaws.HostedGameProgress` | internal/server/store.go:879-937 | while a hosted game plays and a gem is left, the seat to move has a move the store accepts |
| `StoreAnswers.JoinAnswered` | internal/server/store.go:776-840 | a join is answered exactly when a seat is open to the user, who then holds the wished or, if there is one, the reserved seat |
| `StoreAnswers.SeatCommandAnswered` | internal/server/store.go:845-1235 | every other seat command is answered exactly when it may be and has then done to its seat what it is for, and to no other |
| `StoreAnswers.PlayCommandAnswered` | internal/server/store.go:432-1278 | the same for starts, moves, resignations and draws |
| `StoreAnswers.HostIsFirst` | internal/server/store.go:943-976 | who may start early is whoever holds the first seat of a private waiting game |
| `StoreAnswers.BotPlays` | internal/server/bot.go:43-101 | a bot's turn has the effect of the same move made with its seat's token |
| `StoreAnswers.RefusalChangesNothing` | internal/server/store.go:776-1278 | a refused command changes nothing, and a failure to save changes only the answer |
| `StoreAnswers.ClockFollows` | internal/server/store.go:432-937 | while a game plays, the clock of the seat to move runs from the command that began the play or from the last move |
| `StoreAnswers.FlagLaw` | internal/server/store.go:621-660 | in every reachable record that plays, the timer ends the game, lost by the seat to move, if and only if its stored time has passed |
| `StoreAnswers.DisconnectLaw` | internal/server/store.go:579-618 | a seat that stays away loses by timeout |
| `StoreAnswers.RulebookLaw` | internal/game/state.go:22-66 | every created game, whatever its seats went through, is played by the rulebook of the number of seats it has |
| `StoreAnswers.RulebookScales` | internal/game/state.go:22-53 | the more players, the lower the thresholds; board and time are the same |
| `Rematch.RematchCoherent` | internal/server/rematch.go:199-253 | a rematch's record satisfies the invariant, keeps the places of users and bots and no others, follows the rulebook, and plays at once exactly when nobody is missing |
| `Rematch.BuildSeats` | internal/server/rematch.go:209-236 | the loop builds these seats |
| `Rematch.RematchOfferComplete` | internal/server/rematch.go:36-46 | complete exactly when every occupied human seat has accepted |
| `Rematch.GamesRow.MergeRematchAcceptance` | internal/server/repo_postgres.go:995-1045 | adds the seat to the stored offer, or to the bots' when there is none |
| `Rematch.GamesRow.SetRematchLink` | internal/server/repo_postgres.go:497-518 | keeps a link already set and returns the one that stands |
| `Rematch.OneRematchLaw` | internal/server/rematch.go:52-301 | over any interleaving the link is written at most once, every answered request got the linked game, and every human seat had asked and was in one merged offer |
| `Rematch.RecordRematchLaw` | internal/server/rematch.go:12-46 | for a hosted game's own seats: a linked rematch exists, and every seat held by a person had asked for it |
| `Rematch.WithdrawnCountsIff` | internal/server/repo_postgres.go:995-1045 | after any run, a merge counts a withdrawn seat if and only if it merges another seat and that seat's last withdrawal came after its last merge with no clearing of the row since |
| `Rematch.PromptWithdrawalsHold` | internal/server/rematch.go:138-162 | when every withdrawal is directly followed by the clearing of the row, no merge counts a withdrawn seat |
| `Rematch.WithdrawnSeatStillCounts` | internal/server/rematch.go:138-162 | a merge before the decline reaches the row counts the withdrawn seat |

## Left out

- HTTP and WebSocket handlers, proxying between pods, authentication, rate limits, metrics, Redis and the user interface: glue around what is modelled.
- Presence and connection counts, chat, profiles, lobby lists and queue snapshots: no property that spans operations.
- Timers are steps that may happen at any moment; arming them, bot delays and the sweeper that adopts orphaned games are not modelled.
- Random ids and tokens are inputs; token hashing is taken as injective, so a seat keeps the token itself.
- Clock arithmetic uses unbounded integers except for the saturating 64-bit difference of two times; overflow of a 64-bit clock is not modelled.
- Board sides below 1 and games without seats, which no handler lets through.
- The run visitor's closure is a function that threads the captured variables as a state.
- Floating point: bands and rating deltas are exact reals, and the expected-score curve is abstract, of which only the range (0, 1), complementarity and at least one half for the higher rated are assumed.
- Weights of the bot's evaluation are as in the code, but beyond alignment wins nothing is proved about their quality; the random choice among pooled moves is an input.
- Appending a move carries no epoch in the code, so fencing speaks of journal appends and outcome updates only.
- Exact clock values after a reload: the stored times differ from the live ones.
- After a start that dropped seats, memory renumbers them and the database does not; reloading such a game is not modelled, and rematches are modelled with seat numbers equal to positions.
- Deletion of games and of their rows, and snapshots standing in for journal rows on reconnect.
- The two queries of a refused append are answered from one state.
- Applying ratings to the database once per game, which is a single guarded transaction.
- Fencing.BeliefLaw: one request in flight per pod and game is a condition of the lemma; the code does not enforce it. Fencing.BeliefIff covers the runs without it.
- Search.TiedMoveMayBeWorse: the witness is a tree; no position of the game is shown to have it.
- StoreLaws.HostedGameProgress: requires time left on the clock and one gem left in some stock; a game whose stocks are all empty ends only by a flag, a resignation or a draw.
