/** The values of the game: what `State` and its records hold, as immutable data. */
module Types {
  datatype Option<+T> = None | Some(value: T)

  datatype Phase =
    | PhaseLobby
    | PhaseCountdown
    | PhasePlaying
    | PhaseVoting
    | PhaseElimination
    | PhaseShootout
    | PhaseGameOver

  datatype Target = TargetNone | TargetRound | TargetShootout

  datatype Question = Question(q: string, a: string)

  datatype Timer = Timer(duration: int, endsAt: int, running: bool)

  datatype TallyRow = TallyRow(name: string, votes: nat)

  datatype Elimination = Elimination(name: string, tally: seq<TallyRow>, note: string)

  datatype PlayerValue = PlayerValue(
    id: string, name: string, alive: bool, correct: nat, incorrect: nat, connected: bool, token: string)

  /** One wave of the shootout; None is "not answered yet". */
  datatype Wave = Wave(p0: Option<string>, p1: Option<string>)

  datatype ShootoutValue = ShootoutValue(
    order0: string, order1: string, rounds: seq<Wave>, roundIndex: nat, turn: nat,
    question: Option<Question>, sudden: bool, winnerId: string)

  /** What a log line is about; its wording is not part of the model. */
  datatype Msg =
    | GameStarted(players: nat)
    | RoundBegins(round: int)
    | ShootoutBegins
    | MarkedCorrect(name: string, chain: nat)
    | MarkedIncorrect(name: string)
    | Banked(who: string, amount: nat, total: nat)
    | RoundEnded(round: int)
    | VotedOff(name: string)
    | FinalTwo
    | KickMarked(name: string, correct: bool)
    | WinsGame(name: string)
    | RemovedByHost(name: string)
    | AddedByHost(name: string)
    | LoadedQuestions(count: nat)
    | DefaultBank
    | Reconnected(name: string)
    | Joined(name: string)
    | Disconnected(name: string)
    | Renamed(from: string, to: string)

  datatype LogEntry = LogEntry(t: int, msg: Msg)

  /** The money ladder. */
  const CHAIN_VALUES: seq<nat> := [20, 50, 100, 150, 200, 300, 400, 500, 600, 700, 800, 900, 1000]

  const COUNTDOWN_MS := 5000
  const MAX_LOG_ENTRIES := 8
  const REGULATION_ROUNDS := 5
  const EMPTY_BANK_QUESTION := Question("No questions available — ask the admin to add some.", "—")
}
