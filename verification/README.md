# Chain Reaction: the game engine, modelled and proved

Chain Reaction is a quiz game for a room of players and a quizmaster.  This project models
the game engine of `internal/room`, the controller page's guards, and the hand-written
question parsers on both sides, and proves what they keep over every run.

## How the model is built

- **Values** (`Types`, `Text`, `Deck`, `Roster`, `Voting`, `Duel`, `Game`, `Views`): what each
  operation means, as functions on immutable game values.  A refused operation is `None`.
- **Objects** (`GameState`, `RoomActor`): the classes `State`, `Shootout` and `Room`, whose
  methods update their fields in place with the loops of the source.  Every method is proved
  equal to its operation on values: `Model() == Apply(old(Model()), operation)`.
- **The actor** (`Actor`): one inbox message or tick at a time, as `Step` over an `Event`.
  The clock reading, random choices and fresh ids come with the event.
- **Runs** (`Basis`, `ShootoutRule`, `ShootoutRuns`, `BallotRuns`, `Ledger`, `MoneyRuns`,
  `ConnectionRuns`, `UiRuns`, `TurnRuns`, `ProgressRuns`, `WinnerRuns`, `Secrecy`, `Eliminations`,
  `Runs`, `Theorems`, `Histories`).
  `IsRun` is any sequence of events from a new room, in any phase, as the handlers dispatch
  them.  `IsUiRun` adds that controller actions are those the controller page shows for the
  current state.  `Ledger.Book` is what an onlooker writes down during a run: marks, chain
  events, questions shown, joins, eliminations, phase changes.  The theorems compare the
  engine's counters with that book.
- **Meanings** (`Meaning`, `Messages`, `Shown`): an account of the program that does not use the
  operations: what a message, tick, join, attach or detach means as a relation between the room
  before and after, and what a view shows as facts about the game.  `Runs.Happens` says that an
  event leads from one room to another in some run; `Messages` and `Shown` prove that every such
  event and view agrees with the account, refusals and untouched fields included.
- **Scenarios** (`Scenarios`): runs told event by event over connections that have attached,
  where something can really happen.
- **Service** (`Service`): the actor loop over the `Room` object, which ties the theorems about
  runs to the imperative program.
- **Parsers** (`Csv`, `Lines`): the client's CSV scanner and the line parser that exists in
  Go and in JavaScript.

`dafny verify dfyconfig.toml` checks everything.

## What is assumed of the outside

- `NewID` returns an id that is not empty and not in use (`Basis.Legal`).
- `randIntn(i + 1)` is a supplied choice; a missing or out-of-range one stands for a failing
  random source, where the code uses 0.
- `strings.EqualFold` is equality of a character-wise fold that fixes digits and the blank;
  the fold itself is arbitrary.
- JSON decoding is an arbitrary function.

## Where the code falls short of its intent

- `revealInfo` indexes `RevealOrder` without a length check.  On all runs this fails exactly
  during a reveal that was started with nobody alive (`Theorems.RevealIsDefinedExactly`); the
  test before starting is whether anybody is alive (`Theorems.StartNeedsSomebodyAlive`).  A
  controller alone in a room can get there, because continuing after an elimination asks for no
  phase (`Scenarios.RevealCanFail`).  On runs through the controller page it never happens
  (`Theorems.EveryBroadcastIsDefined`).
- A reveal outlives the host's own tie-break.  If it then eliminates somebody else, the tally
  counts the vote of a player who has died meanwhile and can exceed the number alive
  (`Scenarios.TallyCanOverrun`).  It stays within it exactly when no more votes than living
  players name a living player, which is so while voting and on all runs through the controller
  page (`Theorems.TalliesFitExactly`).  Who is eliminated is right even then
  (`Theorems.EliminationsAreJust`).
- The second tie-break looks for the lowest score starting at 2^30.  The decision is right
  exactly when one player has most votes or some top-voted score is not above that; otherwise
  the candidate list is empty (`Voting.DecisionIsRightExactly`,
  `Voting.NoCandidatesExactlyAboveTheCeiling`, and at concrete scores `Voting.CeilingExample`).
  The controller page then offers nothing but closing the room, and that is the only way to get
  stuck (`Theorems.PageRunsMoveOnExactly`); it does happen (`Scenarios.CeilingCanStick`), but
  takes more than 2^30 marks in one game (`Theorems.ShortGamesMoveOn`).
- Go's `TrimSpace` and JavaScript's `trim` differ on U+0085 and U+FEFF, so the preview and the
  server can read different questions.  They read the same from a text exactly when they trim
  each of its lines alike (`Lines.SameReadingExactly`); an alphabet with a bar and a letter is
  safe exactly when it has neither of the two (`Lines.AgreementNeedsBoth`).

## Model

| member | source | states |
|---|---|---|
| Theorems.NoOperationFails | internal/room/room.go:174-355 | On all runs no event meets a missing shootout, or an index out of range into the money ladder or the two seats: every event with fresh ids can be taken |
| Theorems.ShootoutsAreExact | internal/room/actions.go:337-467 | On all runs: a declared winner wins every completion to "five waves, then the first differing wave", and at every earlier wave boundary both finalists could still win; without a winner both still can |
| Theorems.ShootoutsKeepShape | internal/room/actions.go:337-456 | On all runs: waves before the current one are complete, turn 1 means only the first finalist has answered, a winner leaves no question, sudden death is level, and before it a lead can be made up in the waves left |
| Theorems.MoneyAddsUp | internal/room/actions.go:134-181 | On all runs the bank is the fold of the chain events, the chain is the streak since its last reset capped at 13, Correct + Incorrect over all players is the number of accepted marks, and 13 * Bank + 1000 * (ChainIndex + 1) <= 1000 * right answers |
| Theorems.BankBoundIsTight | internal/room/actions.go:134-181 | Wherever the bank bound is met with equality, thirteen right answers and a banking meet it again, 1000 richer |
| Theorems.BankBoundIsReached | internal/room/actions.go:134-181 | The first thirteen right answers of a game, banked, meet the bound with equality |
| Scenarios.EveryThousandIsReached | internal/room/actions.go:134-181 | For every k some run through the controller page, over attached connections, has a bank of 1000 k with the bound met with equality |
| Theorems.NamesStayApart | internal/room/actions.go:32-49 | On all runs no two players share a name up to case folding |
| Theorems.VotersAreAlive | internal/room/actions.go:612-622 | On all runs, while voting, every vote key is a living player |
| Theorems.EliminationsAreJust | internal/room/actions.go:215-295 | On all runs, in any phase, a reveal that kills somebody kills exactly the unique weakest player; the tally shown is a stable descending permutation of the living roster's votes, and sums to the number of votes for living players |
| Theorems.TalliesFitExactly | internal/room/actions.go:215-295 | That sum is at most the number alive if and only if no more votes than living players name a living player; so it is if only living players have voted, hence while voting and on all runs through the controller page |
| Scenarios.TallyCanOverrun | internal/room/actions.go:215-312 | A run over attached connections in which the host breaks a tie during a reveal, and the reveal then ends with a tally of 3 among 2 living players |
| Theorems.CountdownsLeadSomewhere | internal/room/actions.go:73-94 | On all runs a countdown has a target, and a shootout ahead or in play exists |
| Theorems.RosterIsFixed | internal/room/actions.go:482-582 | Over any stretch of a run outside the lobby nobody joins, leaves or moves in the roster |
| Theorems.PileIsRestOfAShuffle | internal/room/state.go:187-211 | On all runs the draw pile is a proper prefix of some permutation of the bank in use |
| Theorems.QuestionsAreDealtFairly | internal/room/state.go:187-211 | On all runs, since the pile was last thrown away: any k whole rounds of questions show each entry exactly k times its multiplicity, and any 2N-1 in a row show every entry |
| Theorems.RegistryAgrees | internal/room/room.go:191-255 | On all runs each registered connection is keyed by its own player id and that player exists; a player is Connected exactly when a connection is registered or a join happened since the last attach or effective detach |
| Theorems.SupersededStaysSilent | internal/room/room.go:241-255 | Once another connection has taken its place, a connection that does not attach again changes nothing by detaching, however much later |
| Theorems.AnswersStayErasable | internal/room/sanitize.go:3-6 | Two runs with the same actions and choices over banks that differ only in answers stay equal up to answers |
| Theorems.AnswersNeverLeak | internal/room/sanitize.go:148-170 | In two such runs every player and the big screen are sent the same state at every step at which the view is defined |
| Theorems.BroadcastsNeverLeak | internal/room/room.go:130-172 | In two such runs the same events ask for a broadcast, and the connections it goes to are the same |
| Theorems.RevealIsDefinedExactly | internal/room/sanitize.go:33-51 | On all runs the reveal information is defined without a reveal; during one, if and only if somebody was alive at the event that started it |
| Theorems.RevealHasStart | internal/room/actions.go:198-226 | A reveal in progress goes on since one accepted start, over the players alive then |
| Theorems.StartNeedsSomebodyAlive | internal/room/actions.go:198-211 | After an accepted start the reveal information is defined if and only if somebody was alive before it |
| Scenarios.RevealCanFail | internal/room/sanitize.go:33-37 | A run over attached connections, of a controller alone in a room, after which the controller's own view indexes the reveal order out of range |
| Theorems.EveryBroadcastIsDefined | internal/room/sanitize.go:33-51 | On runs through the controller page every broadcast is defined |
| Theorems.GameHasStart | internal/room/actions.go:100-111 | On runs through the controller page a game in play was started by one start event in the lobby, and its roster is still the one that started it |
| Theorems.RoundsKeepStep | internal/room/actions.go:183-333 | On runs through the controller page, for the n players who started the game, Round + alive = n + 1 through a round, with at least three alive, and = n after its elimination |
| Theorems.ShootoutComesOnTime | internal/room/actions.go:314-333 | On runs through the controller page, for the n players who started the game, the shootout is reached after exactly n-2 eliminations and 4(n-2)+2 phase changes, between the two distinct survivors |
| Theorems.FinalScoresAreShootoutScores | internal/room/actions.go:337-406 | On runs through the controller page each finalist's Correct grows in the final by exactly the shootout score |
| Theorems.PageRunsMoveOnExactly | web/js/game/controller.js:339-506 | On runs through the controller page of an open room, an offered action other than closing, or in a countdown the tick, changes the game if and only if there is no tie without candidates |
| Theorems.ShortGamesMoveOn | internal/room/actions.go:256-279 | Such a run with at most 2^30 marks in the game always moves on |
| Scenarios.CeilingCanStick | internal/room/actions.go:256-279 | A run through the controller page, over attached connections, that ends in a tie without candidates and cannot move on |
| Theorems.TurnsRotate | internal/room/actions.go:53-67 | On runs through the controller page, between two selections in a round, the j-th mark goes to the (i + j) mod m-th of the m living players |
| Theorems.TurnsAreFair | internal/room/actions.go:53-67 | Over such a stretch any two living players' answer counts grow by numbers at most one apart, and m marks give each exactly one |
| Histories.WinnersAreAnnounced | internal/room/actions.go:458-467 | On all runs, once the shootout has a winner, the name announced is that of the roster row with the winner's id |
| Histories.GamesEndWithAWinner | internal/room/actions.go:458-467 | On all runs a game is over only with a winner; the event that sets a winner is a shootout mark, and turns the phase to game over |
| Histories.TieBreaksShowTheVote | internal/room/actions.go:268-312 | On runs through the controller page the tally shown after a host's tie-break is the living roster's vote at the reveal step that made the tie |
| Histories.TieHasOrigin | internal/room/actions.go:268-279 | On runs through the controller page every tie was made by one earlier reveal step, over the voters still alive |
| Messages.ControllerMessages | internal/room/room.go:290-355 | On all runs each of the controller's messages changes the game as that message means, or not at all if refused; only a kick and closing touch connections |
| Messages.PlayerMessages | internal/room/room.go:274-288 | On all runs a vote, bank call or rename acts for the connection's own player as it means, and touches no connection |
| Messages.UnheardMessages | internal/room/room.go:257-272 | On all runs messages in a closed room, from a connection in another role, or asking for a summary leave the room as it was |
| Messages.Ticks | internal/room/room.go:397-411 | On all runs a tick changes nothing before a deadline; at it the countdown ends in a round with a timer of the set length or in the shootout, and a due round ends |
| Messages.Joins | internal/room/actions.go:545-582 | On all runs a join claims the row of its id and token, else the first offline namesake, else adds a row in the lobby, else changes nothing; no connection is touched |
| Messages.Attaches | internal/room/room.go:202-239 | On all runs a player is registered, and shown as connected, exactly with that player's non-empty token; a controller exactly with the key; the big screen always |
| Messages.Detaches | internal/room/room.go:241-255 | On all runs only the registered connection takes its player offline; any other detaching leaves the game and the other connections alone |
| Messages.BroadcastsExactly | internal/room/room.go:174-355 | On all runs the events that ask for a broadcast are exactly: joins not denied, returns of offline players, losses of live connections, messages that are taken, deadlines that are met |
| Histories.TokensAreIssued | internal/room/actions.go:545-582 | On all runs a player's token is the one issued by the last join that brought that player in; players added by hand hold none |
| Histories.AttachesNeedTheToken | internal/room/actions.go:588-599 | On all runs a player's connection to an open room is registered if it presents the non-empty token issued last for that player; otherwise the whole room stays as it was |
| Histories.RegisteredMeansToken | internal/room/room.go:202-215 | On all runs a registered connection has earlier presented the token then in force for its player |
| Histories.ControllersMeanKey | internal/room/room.go:218-230 | On all runs a connection that controls the room has earlier presented its key |
| Histories.LastUploadIsInUse | internal/room/actions.go:472-536 | On all runs the bank in use is the last one uploaded that was not empty, the community's after a reset, or else the room's first; playing again does not change it |
| Shown.ViewsShowTheGame | internal/room/sanitize.go:17-170 | On all runs, wherever it is defined, the view has row i of the roster in row i, question texts without answers, the voter at the reveal index and that vote, both finalists; its bank and chain are the onlooker's and the shown marks sum to the book's |
| Shown.ControllerSeesAnswers | internal/room/sanitize.go:205-227 | On all runs the controller's view is such a view with the answers of the live questions, the number of voters, the tie candidates, the bank's size and the log |
| Meaning.CorrectMeans | internal/room/actions.go:134-150 | The asked player alone has one right answer more, the chain climbs one step up to the thirteenth, bank and round stay |
| Meaning.IncorrectMeans | internal/room/actions.go:152-166 | The asked player alone has one wrong answer more and the chain is lost |
| Meaning.AdvanceMeans | internal/room/actions.go:215-279 | A step of the reveal moves the index only; past the end one player dies who is alone weakest, or the weakest become candidates, or above the ceiling nobody does |
| Meaning.TieBreakMeans | internal/room/actions.go:305-312 | Exactly the row the host named is turned to dead and its name shown as eliminated, in any phase; an unknown id changes nothing |
| Meaning.ContinueMeans | internal/room/actions.go:314-333 | With two left they are the finalists of a blank shootout in roster order; else the next round is up, first living player first, streak and question gone |
| Meaning.KickMeans | internal/room/actions.go:364-406 | The mark lands in the wave and seat whose turn it is and in that finalist's counts; then either a winner is announced and the game over, or the turn passes with a new question |
| Meaning.KickOutMeans | internal/room/actions.go:482-500 | In the lobby the rows but the named one stay, in order; else nothing changes |
| Meaning.JoinMeans | internal/room/actions.go:545-582 | Whom a join brings in, under which name and token, what is left alone, and when it is denied |
| Meaning.VoteMeans | internal/room/actions.go:612-622 | A living voter's vote replaces that voter's earlier one, nobody else's |
| Meaning.CallBankMeans | internal/room/actions.go:626-635 | Banks if and only if the caller is the asked player, on the roster, with a chain alive in a round |
| Meaning.CountdownMeans | internal/room/actions.go:81-94 | The end of a countdown opens a round with a running timer of the set length, or the shootout, with a question |
| Meaning.NewStateIsEmptyLobby | internal/room/state.go:155-170 | A new game is an empty lobby: nobody there, no money, no question, no timer, no shootout |
| Game.LogKeepsTheNewest | internal/room/state.go:175-180 | The newest entry is first, followed by the most recent others, at most eight in all |
| Runs.AllRuns | internal/room/room.go:174-189 | The joint invariant of ids, targets, shootout, ballot, names, scores, cards and connections holds at every point of every run |
| Runs.AllUiRuns | web/js/game/controller.js:339-506 | On runs through the controller page the round, reveal, turn and candidate invariants hold as well |
| UiRuns.OfferedIsLegal | web/js/game/controller.js:339-506 | What the page offers meets the phase guards that the operations themselves lack |
| UiRuns.UiKept | internal/room/actions.go:100-333 | Every operation within those guards keeps rounds, eliminations, phase changes, tie candidates and the final in step |
| ProgressRuns.CandidatesKept | internal/room/actions.go:228-279 | Every operation within those guards keeps it so that a tie without candidates has taken more than 2^30 marks |
| ProgressRuns.MovesOnExactly | web/js/game/controller.js:339-506 | In every phase of such a run, what is on offer suffices to change the game, except in a tie without candidates |
| TurnRuns.MarkPassesTurn | internal/room/actions.go:134-166 | One mark gives the asked player one answer more, nobody else, and the turn to the next living player, cyclically |
| TurnRuns.TurnsAreEven | internal/room/actions.go:53-67 | Of any d consecutive turns over m positions, two positions get numbers at most one apart, and of m turns each gets one |
| ShootoutRule.StopIsExact | internal/room/actions.go:410-456 | At every wave boundary the engine reaches, it stops for a finalist if and only if the rule is settled for that finalist |
| ShootoutRule.PlayingOnMeansOpen | internal/room/actions.go:410-456 | While the engine plays on, a completion with each winner exists |
| ShootoutRule.StoppingMeansSettled | internal/room/actions.go:410-456 | When it stops, every completion has that winner, and at no earlier boundary was it so |
| ShootoutRuns.CheckIsStop | internal/room/actions.go:410-456 | In every reachable shape the end check on the recorded waves is that stopping rule, and is silent in the middle of a wave |
| ShootoutRuns.DuelKept | internal/room/actions.go:355-467 | Every operation in any phase keeps the shootout's shape and its finalists on the roster |
| ShootoutRuns.UndecidedScores | internal/room/actions.go:419-455 | Undecided sudden death is level; undecided regulation leads by at most the waves left |
| Basis.BaseKept | internal/room/actions.go:73-658 | Every operation in any phase keeps ids distinct, the chain index in range, the lobby fresh and the countdown targets right |
| BallotRuns.BallotKept | internal/room/actions.go:183-226 | Every operation keeps votes to the living while voting and the reveal index within a non-empty order |
| BallotRuns.RevealStarts | internal/room/actions.go:198-211 | Only an accepted start begins a reveal, and nothing else changes whom it runs over |
| BallotRuns.NamesKept | internal/room/actions.go:502-517 | Join, add, rename, kick and play again keep names apart up to case folding |
| MoneyRuns.ScoresKept | internal/room/actions.go:134-181 | Every operation keeps bank, chain, mark totals and the bank bound in line with the book |
| MoneyRuns.CardsKept | internal/room/state.go:190-201 | Every operation either shows the next card of the pile, or leaves the cards alone, or throws the pile away; the dealt history stays whole rounds of the bank |
| ConnectionRuns.RegistryKept | internal/room/room.go:191-355 | Every event keeps registry, Connected flags and pending joins in agreement |
| ConnectionRuns.LateDetachIsSilent | internal/room/room.go:241-255 | Detaching a connection that is not the registered one changes nothing and asks for no broadcast |
| Secrecy.EveryOpCommutes | internal/room/actions.go:73-658 | Performing any operation and blanking out all answers commute |
| Secrecy.StepErases | internal/room/room.go:174-189 | One event in the blanked-out room is the event in the room, blanked out |
| Secrecy.ChangedErases | internal/room/room.go:174-189 | The blanked-out event asks for a broadcast in the blanked-out room exactly when the event does in the room |
| Secrecy.SameTextsLookAlike | internal/room/sanitize.go:3-6 | Two banks become equal by blanking answers exactly when they have the same texts in the same order |
| Secrecy.ViewsIgnoreAnswers | internal/room/sanitize.go:90-170 | What players and the big screen are sent is the same after blanking out every answer |
| Actor.QuietStepsChangeNothing | internal/room/room.go:174-355 | No broadcast is skipped: an event that reports no change leaves the whole game as it was |
| Eliminations.ResolvedVote | internal/room/actions.go:228-295 | Resolving kills the unique weakest player and nobody else, with the sorted tally, or makes exactly the weakest players, at least two and in roster order, the tie candidates |
| Eliminations.SortDescIsStable | internal/room/actions.go:297-303 | The shown tally is descending, a permutation of the rows, and keeps the order of rows with equal votes |
| Eliminations.VotesAreBounded | internal/room/actions.go:228-303 | The shown tally sums to the number of votes for living players, which is at most the number alive |
| Voting.ResolvePicksTheWeakest | internal/room/actions.go:228-279 | A player is eliminated if and only if that player alone has the lowest score among those with most votes; otherwise exactly those players are the candidates |
| Voting.DecisionIsRightExactly | internal/room/actions.go:228-279 | With somebody alive, the decision is the right one if and only if a single player has most votes or some top-voted score does not exceed 2^30 |
| Voting.EliminationsAreRight | internal/room/actions.go:228-279 | Whatever the scores, a player who is eliminated is the unique weakest; the 2^30 ceiling can only prevent an elimination |
| Voting.NoCandidatesExactlyAboveTheCeiling | internal/room/actions.go:256-279 | The candidate list is empty if and only if two or more are top-voted and all their scores exceed 2^30 |
| Voting.EverybodyAboveTheCeiling | internal/room/actions.go:256-279 | With no votes and every living score, of two or more, above 2^30, nobody is eliminated and nobody becomes a candidate |
| Voting.CeilingExample | internal/room/actions.go:256-279 | Two players with 2^30 + 1 right answers and no votes: both are weakest, neither becomes a candidate |
| Voting.ResolveNamesTheLiving | internal/room/actions.go:228-279 | Whatever the scores, only living players are eliminated or become candidates |
| Voting.CountVotes | internal/room/actions.go:229-238 | In whatever order the votes are visited, each living player's count is the number of voters who named that player |
| Voting.DecideVotes | internal/room/actions.go:228-279 | The loops of the decision yield the verdict and tally that the lemmas are about |
| Voting.SortTallyDesc | internal/room/actions.go:297-303 | The in-place insertion sort leaves the rows stably sorted, most votes first |
| Voting.ShownTally | internal/room/actions.go:281-290 | The rows shown are those of tallied players in roster order, stably sorted |
| Deck.ShuffledCopy | internal/room/state.go:203-211 | The in-place swap loop yields the shuffle that the lemmas are about, and leaves the bank alone |
| Deck.ShuffleIsBijective | internal/room/state.go:203-211 | Over distinct entries every permutation comes from exactly one vector of choices j_i in 0..i |
| Deck.ShuffleMovesPositions | internal/room/state.go:203-211 | A bank with repeated entries is shuffled by position |
| Deck.DrawKeepsDeck | internal/room/state.go:190-201 | Drawing keeps the pile the rest of one shuffle of the bank |
| Deck.WholeRoundsDrawEvenly | internal/room/state.go:187-201 | k * N draws from an empty pile give each entry exactly k times |
| Deck.WindowHoldsEveryEntry | internal/room/state.go:187-201 | Any 2N-1 consecutive draws contain every entry |
| Text.DedupeName | internal/room/actions.go:41-49 | The name found is free up to case folding, and is the name itself or one of the first n suffixed spellings for n players |
| Text.Dedupe | internal/room/actions.go:41-49 | The loop stops after at most n + 1 attempts with the first free spelling |
| Text.NameTaken | internal/room/actions.go:32-39 | True if and only if some player's name is equal up to case folding |
| Text.TakenCandidatesBound | internal/room/actions.go:41-49 | The first k spellings can all be taken only by k or more players |
| Text.CandidatesDiffer | internal/room/actions.go:41-49 | Spellings with different numbers stay different after case folding |
| Text.DecimalRoundTrip | internal/room/actions.go:45 | A printed number reads back as itself and has only digits |
| Text.CleanNamesAreClean | internal/room/actions.go:10-30 | A cleaned name has at most 18 characters and no white space at its ends, and such a name is left as it is; a joiner without a name is "Player" |
| GameState.State.constructor | internal/room/state.go:155-170 | A new state is the empty lobby over the given bank |
| GameState.State.PushLog | internal/room/state.go:175-180 | The entry is put first and only the newest eight are kept |
| GameState.State.PullQuestion | internal/room/state.go:190-201 | Returns and removes the last card of the pile, refilled if exhausted; an empty bank yields the fixed question |
| GameState.State.AlivePlayers | internal/room/state.go:227-235 | The living players' positions in roster order |
| GameState.State.FindPlayer | internal/room/state.go:238-245 | The first position with this id, none if there is none |
| GameState.State.AdvanceTurn | internal/room/actions.go:53-67 | The turn goes to the next living player, cyclically; to the first if the asked one is not alive; to nobody if none is |
| GameState.State.FinishCountdown | internal/room/actions.go:81-94 | The new state is the operation's: a round with a running timer, or the shootout |
| GameState.State.DoStartGame | internal/room/actions.go:100-111 | Refused below three players; otherwise the new state is the operation's |
| GameState.State.DoSelectAsked | internal/room/actions.go:113-124 | Refused outside a round and for players who are not alive; otherwise the new state is the operation's |
| GameState.State.DoNextQuestion | internal/room/actions.go:126-132 | The new state and the answer are the operation's |
| GameState.State.DoMarkCorrect | internal/room/actions.go:134-150 | Credits the asked player, climbs the ladder, passes the turn and draws the next question |
| GameState.State.DoMarkIncorrect | internal/room/actions.go:152-166 | Debits the asked player, resets the chain, passes the turn and draws the next question |
| GameState.State.DoBankChain | internal/room/actions.go:168-181 | Moves the chain's value to the bank and resets the chain |
| GameState.State.DoEndRound | internal/room/actions.go:183-196 | Opens the vote with no votes and no reveal, and stops the timer |
| GameState.State.DoStartVoteReveal | internal/room/actions.go:198-211 | Starts the reveal over the living players |
| GameState.State.DoAdvanceReveal | internal/room/actions.go:215-226 | Moves the reveal on; past the end it resolves the vote |
| GameState.State.ResolveVotes | internal/room/actions.go:228-279 | Carries out the verdict of the votes |
| GameState.State.FinalizeElimination | internal/room/actions.go:281-295 | Kills the player and records the sorted tally |
| GameState.State.DoManualTieBreak | internal/room/actions.go:305-312 | The new state is the tie-break that Meaning.TieBreakMeans describes: the named player dies, with the tally stored when the tie was made |
| GameState.State.DoContinueAfterElimination | internal/room/actions.go:314-333 | Sets up the final for two survivors, else the next round |
| GameState.State.DoShootoutNextQuestion | internal/room/actions.go:355-362 | Refused without a shootout or after a win; otherwise a new question |
| GameState.State.DoShootoutMark | internal/room/actions.go:364-406 | Records and counts the mark, checks for the end, passes the turn unless somebody has won |
| GameState.State.CheckShootoutEnd | internal/room/actions.go:410-467 | Turns on sudden death, or declares the winner of the rule, whose own name Histories.WinnersAreAnnounced shows to be the one announced |
| GameState.State.DoPlayAgain | internal/room/actions.go:472-480 | A fresh lobby with the roster revived and the bank kept |
| GameState.State.DoKickPlayer | internal/room/actions.go:482-500 | Only in the lobby, removes exactly that player |
| GameState.State.DoAddPlayer | internal/room/actions.go:502-517 | Only in the lobby, adds an offline player under a free name |
| GameState.State.DoSetQuestionBank | internal/room/actions.go:519-528 | Refuses an empty bank; otherwise replaces it and throws the pile away |
| GameState.State.DoResetQuestionBank | internal/room/actions.go:530-536 | Goes back to the community bank and throws the pile away |
| GameState.State.Join | internal/room/actions.go:545-582 | Claims the row of the id and token, else the first offline namesake, else adds a player in the lobby, else is denied; a joined player is connected with the new token |
| GameState.State.AttachPlayer | internal/room/actions.go:588-599 | Accepted only with the player's non-empty token, which is the one issued (Histories.AttachesNeedTheToken); tells whether the player was offline |
| GameState.State.DetachPlayer | internal/room/actions.go:603-610 | Marks a connected player offline, nothing else |
| GameState.State.SubmitVote | internal/room/actions.go:612-622 | Only while voting and only for living voters; the last vote counts |
| GameState.State.CallBank | internal/room/actions.go:626-635 | Only the asked player may bank, and banks the chain |
| GameState.State.Rename | internal/room/actions.go:637-658 | Only in the lobby, only to a clean name no other player has |
| GameState.Shootout.Score | internal/room/actions.go:337-353 | The number of recorded "correct" answers of that finalist |
| GameState.Shootout.Record | internal/room/actions.go:374-388 | Appends empty waves as needed and writes the mark for the finalist whose turn it is |
| GameState.Shootout.Decide | internal/room/actions.go:410-456 | The decision on the recorded waves |
| GameState.State.PublicPlayers | internal/room/sanitize.go:17-23 | Every roster row without its token, as Shown.ViewsShowTheGame spells out |
| GameState.State.ShootoutSeats | internal/room/sanitize.go:77-88 | Both finalists with their names, or no name if not on the roster |
| GameState.State.CurrentReveal | internal/room/sanitize.go:33-51 | The voter at the reveal index and whom they named; defined within the order |
| GameState.State.ToPlayerState | internal/room/sanitize.go:158-170 | Builds the view that Shown.ViewsShowTheGame and the secrecy theorems are about |
| GameState.State.ToControllerState | internal/room/sanitize.go:205-227 | The player view with the answers, the reveal and tie details and the log |
| Service.Run | internal/room/room.go:132-172 | The loop over the room object goes through a run of the machine, ends in its last state, and after exactly the events that ask for it builds the big screen's view of that moment; on page-driven events every such view is defined |
| RoomActor.Room.constructor | internal/room/room.go:76-84 | A new room has no connections and is open |
| RoomActor.Room.Dispatch | internal/room/room.go:174-189 | One turn of the actor is one step of the machine, and asks for a broadcast exactly when the step says so |
| RoomActor.Room.HandleJoin | internal/room/room.go:191-200 | A join changes the game as the operation does and the registry not at all |
| RoomActor.Room.HandleAttach | internal/room/room.go:202-239 | An accepted player connection replaces the registered one; the controller needs the key |
| RoomActor.Room.HandleDetach | internal/room/room.go:241-255 | Only the registered connection of a player takes the player offline |
| RoomActor.Room.HandlePlayerMessage | internal/room/room.go:274-288 | Votes, bank calls and renames act for the connection's own player |
| RoomActor.Room.HandleControllerMessage | internal/room/room.go:290-355 | Each action takes the step whose effect Messages.ControllerMessages states by action; a kick also drops the connection, closing drops all |
| RoomActor.Room.CloseRoom | internal/room/room.go:363-380 | No connection is left and the room is stopped |
| RoomActor.Room.HandleTick | internal/room/room.go:397-411 | A due countdown finishes, a due round ends, nothing else happens |
| Csv.ParseCsvQuestions | web/js/core/questions-parse.js:6-40 | The scanning loop yields the pairs that the round trips are about |
| Csv.CsvRoundTrip | web/js/core/questions-parse.js:6-29 | Printing any rows as section 2 of RFC 4180 says, fields quoted where needed or anywhere, each row ended by CR LF, LF or CR, and scanning returns the same rows; line breaks inside fields come back as LF (a lone CR before an empty line that ends in LF is excluded: the two are one break) |
| Csv.FinalBreak | web/js/core/questions-parse.js:28-29 | A line break after the last row reads as one more row, blank |
| Csv.HeaderExactly | web/js/core/questions-parse.js:31-40 | A pair reads as the header exactly if it spells "question" and "answer", each letter in either case |
| Csv.CsvPairsRoundTrip | web/js/core/questions-parse.js:31-40 | Pairs printed so, with or without a final line break, come back exactly if trimmed and non-empty; only a first pair that is the header is dropped |
| Lines.ParseLinesLoop | internal/questionbank/parse.go:46-64 | The loop yields the questions that the lemmas are about |
| Lines.ParsingInvertsPrinting | internal/questionbank/parse.go:46-64 | Printed pairs without line breaks and without a bar in the question come back trimmed, blank ones dropped |
| Lines.ParsingIsNormalizing | internal/questionbank/parse.go:46-64 | For every text, printing the parsed questions and parsing again returns the same questions |
| Lines.ServerAndClientAgree | internal/questionbank/parse.go:112-119 | With one white-space test, server and client read the same questions from every text that does not look like a JSON array |
| Lines.SameReadingExactly | web/js/core/questions-parse.js:42-74 | With their own white-space tests server and client read the same questions from a text that neither takes for a JSON array if and only if they trim each of its lines alike |
| Lines.CollectExactly | internal/questionbank/parse.go:46-64 | For any two white-space tests, equal readings of a text can only come from equal readings of each line |
| Lines.GoAndJsAgree | web/js/core/questions-parse.js:42-74 | So they do on every text without U+0085 and U+FEFF that the server does not take for a JSON array |
| Lines.AgreementNeedsBoth | web/js/core/questions-parse.js:42-74 | An alphabet with a bar and a letter is safe for both sides if and only if it has neither of these two |
| Lines.BracketsMeanJson | internal/questionbank/parse.go:112-119 | Both sides try JSON exactly on a text that begins with a bracket, white space aside, and read the lines if that yields nothing |
| Lines.SpacesDifferOnTwo | internal/questionbank/parse.go:49-58 | The two white-space tests differ on exactly these two characters |

## Left out

- Player rows are values in a sequence, not shared pointers: aliasing between a row held by one function and the roster is not captured.
- The fields of `State` are grouped into records (table, clock, ballot, cards, setup), each assigned as a whole field by field.
- Integers are unbounded: overflow of Go's `int` and `int64` counters is not modelled.
- The clock, random choices and fresh ids come with each event; their generation is not modelled.
- Log wording: an entry says what it is about, not how it reads; which line an operation adds is stated by the operation itself, while that the newest eight are kept is proved.
- Sending to sockets, closing superseded connections and the delayed teardown after closing a room: sends are no-ops here, only the registry is kept.
- Goroutine scheduling, idle timers and shutdown in `Run`: the actor handles one message or tick per step.
- JSON decoding of messages and question lists, including malformed messages: events arrive decoded.
- Strings are sequences of characters: invalid UTF-8 in Go and surrogate pairs in JavaScript are not modelled.
- Room codes, the room registry and its retry loop.
- `ParseCSV`, `ParseJSON` and `Clamp` on the server: library decoding and a length cut.
- The question store, submissions, HTTP handlers, rate limits, authentication and cookies.
- Rendering, sound and styling; of the controller page only which actions it offers.
