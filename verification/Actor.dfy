/** The room's actor as a step machine: the game and the connection registry, one
    inbox message or tick at a time. */
module Actor {
  import opened Types
  import opened Roster
  import opened Game

  datatype Role = RolePlayer | RoleController | RoleHost

  /** A live connection.  `handle` tells connections apart; role and player id are fixed. */
  datatype Conn = Conn(handle: nat, role: Role, playerId: string)

  /** The operations on the game that messages and ticks trigger. */
  datatype Op =
    | StartGame(now: int)
    | SelectAsked(id: string, rand: seq<nat>)
    | NextQuestion(rand: seq<nat>)
    | MarkCorrect(now: int, rand: seq<nat>)
    | MarkIncorrect(now: int, rand: seq<nat>)
    | BankChain(now: int)
    | EndRound(now: int)
    | StartVoteReveal
    | AdvanceReveal(now: int)
    | ManualTieBreak(id: string, now: int)
    | ContinueAfterElimination(now: int)
    | ShootoutNextQuestion(rand: seq<nat>)
    | ShootoutMark(result: string, now: int, rand: seq<nat>)
    | PlayAgain
    | KickPlayer(id: string, now: int)
    | AddPlayer(name: string, newId: string, now: int)
    | SetQuestionBank(questions: seq<Question>, now: int)
    | ResetQuestionBank(now: int)
    | JoinGame(name: string, rejoinId: string, rejoinToken: string, newId: string, newToken: string, now: int)
    | Attach(id: string, token: string, now: int)
    | Detach(id: string, now: int)
    | Vote(voter: string, target: string)
    | CallBank(id: string, now: int)
    | Rename(id: string, newName: string, now: int)
    | FinishCountdown(now: int, rand: seq<nat>)

  /** What the operation does; None when it is refused. */
  function Perform(g: GameValue, op: Op): Option<GameValue>
    requires Safe(g)
  {
    match op
    case StartGame(now) => DoStartGame(g, now)
    case SelectAsked(id, rand) => DoSelectAsked(g, id, rand)
    case NextQuestion(rand) => DoNextQuestion(g, rand)
    case MarkCorrect(now, rand) => DoMarkCorrect(g, now, rand)
    case MarkIncorrect(now, rand) => DoMarkIncorrect(g, now, rand)
    case BankChain(now) => DoBankChain(g, "", now)
    case EndRound(now) => DoEndRound(g, now)
    case StartVoteReveal => DoStartVoteReveal(g)
    case AdvanceReveal(now) => DoAdvanceReveal(g, now)
    case ManualTieBreak(id, now) => DoManualTieBreak(g, id, now)
    case ContinueAfterElimination(now) => DoContinueAfterElimination(g, now)
    case ShootoutNextQuestion(rand) => DoShootoutNextQuestion(g, rand)
    case ShootoutMark(result, now, rand) => DoShootoutMark(g, result, now, rand)
    case PlayAgain => Some(DoPlayAgain(g))
    case KickPlayer(id, now) => DoKickPlayer(g, id, now)
    case AddPlayer(name, newId, now) => DoAddPlayer(g, name, newId, now)
    case SetQuestionBank(questions, now) => DoSetQuestionBank(g, questions, now)
    case ResetQuestionBank(now) => Some(DoResetQuestionBank(g, now))
    case JoinGame(name, rejoinId, rejoinToken, newId, newToken, now) =>
      Game.Join(g, name, rejoinId, rejoinToken, newId, newToken, now)
    case Attach(id, token, now) => AttachPlayer(g, id, token, now)
    case Detach(id, now) => DetachPlayer(g, id, now)
    case Vote(voter, target) => SubmitVote(g, voter, target)
    case CallBank(id, now) => Game.CallBank(g, id, now)
    case Rename(id, newName, now) => Game.Rename(g, id, newName, now)
    case FinishCountdown(now, rand) => Some(Game.FinishCountdown(g, now, rand))
  }

  function Performed(g: GameValue, op: Op): GameValue
    requires Safe(g)
  {
    Apply(g, Perform(g, op))
  }

  lemma KickPerformed(g: GameValue, id: string, now: int)
    requires Safe(g)
    ensures Perform(g, KickPlayer(id, now)) == DoKickPlayer(g, id, now)
  {
  }

  datatype PlayerMsg = VoteMsg(targetId: string) | CallBankMsg | RenameMsg(newName: string) | OtherMsg

  datatype Action =
    | ActStartGame
    | ActSelectAsked(id: string)
    | ActNextQuestion
    | ActMarkCorrect
    | ActMarkIncorrect
    | ActBankChain
    | ActEndRound
    | ActStartVoteReveal
    | ActAdvanceReveal
    | ActManualTieBreak(id: string)
    | ActContinueAfterElimination
    | ActShootoutNextQuestion
    | ActShootoutMark(result: string)
    | ActPlayAgain
    | ActKickPlayer(id: string)
    | ActAddPlayer(name: string)
    | ActSetQuestionBank(questions: seq<Question>)
    | ActResetQuestionBank
    | ActRequestQuestionBank
    | ActCloseRoom
    | ActOther

  predicate RoundAction(a: Action) {
    a.ActStartGame? || a.ActSelectAsked? || a.ActNextQuestion? || a.ActMarkCorrect? || a.ActMarkIncorrect?
    || a.ActBankChain? || a.ActEndRound?
  }

  predicate VotingAction(a: Action) {
    a.ActStartVoteReveal? || a.ActAdvanceReveal? || a.ActManualTieBreak? || a.ActContinueAfterElimination?
  }

  predicate ShootoutAction(a: Action) {
    a.ActShootoutNextQuestion? || a.ActShootoutMark?
  }

  predicate BankAction(a: Action) {
    a.ActSetQuestionBank? || a.ActResetQuestionBank?
  }

  /** What reaches the actor: inbox messages and the 500 ms tick.  The clock reading, the
      shuffle choices and freshly drawn ids come with the event. */
  datatype Event =
    | JoinRequest(name: string, rejoinId: string, rejoinToken: string, newId: string, newToken: string, now: int)
    | AttachRequest(conn: Conn, token: string, now: int)
    | DetachMsg(conn: Conn, now: int)
    | FromPlayer(conn: Conn, msg: PlayerMsg, now: int)
    | FromController(conn: Conn, action: Action, now: int, rand: seq<nat>, newId: string)
    | SummaryRequest
    | Tick(now: int, rand: seq<nat>)

  datatype RoomValue = RoomValue(
    game: GameValue, players: map<string, Conn>, controllers: set<Conn>, hosts: set<Conn>, stopped: bool)

  function NewRoom(game: GameValue): RoomValue {
    RoomValue(game, map[], {}, {}, false)
  }

  function ControlOp(action: Action, now: int, rand: seq<nat>, newId: string): Option<Op> {
    match action
    case ActStartGame => Some(StartGame(now))
    case ActSelectAsked(id) => Some(SelectAsked(id, rand))
    case ActNextQuestion => Some(NextQuestion(rand))
    case ActMarkCorrect => Some(MarkCorrect(now, rand))
    case ActMarkIncorrect => Some(MarkIncorrect(now, rand))
    case ActBankChain => Some(BankChain(now))
    case ActEndRound => Some(EndRound(now))
    case ActStartVoteReveal => Some(StartVoteReveal)
    case ActAdvanceReveal => Some(AdvanceReveal(now))
    case ActManualTieBreak(id) => Some(ManualTieBreak(id, now))
    case ActContinueAfterElimination => Some(ContinueAfterElimination(now))
    case ActShootoutNextQuestion => Some(ShootoutNextQuestion(rand))
    case ActShootoutMark(result) => Some(ShootoutMark(result, now, rand))
    case ActPlayAgain => Some(PlayAgain)
    case ActKickPlayer(id) => Some(KickPlayer(id, now))
    case ActAddPlayer(name) => Some(AddPlayer(name, newId, now))
    case ActSetQuestionBank(questions) => Some(SetQuestionBank(questions, now))
    case ActResetQuestionBank => Some(ResetQuestionBank(now))
    case ActRequestQuestionBank => None
    case ActCloseRoom => None
    case ActOther => None
  }

  function TickOp(g: GameValue, now: int, rand: seq<nat>): Option<Op> {
    if g.phase == PhaseCountdown && now >= g.clock.countdownEndsAt then Some(FinishCountdown(now, rand))
    else if g.phase == PhasePlaying && g.clock.timer.running && now >= g.clock.timer.endsAt then Some(EndRound(now))
    else None
  }

  /** This connection is the live one of its player. */
  predicate Registered(r: RoomValue, conn: Conn) {
    conn.playerId in r.players && r.players[conn.playerId] == conn
  }

  /** The game operation an event leads to, given the current room. */
  function OpOf(r: RoomValue, e: Event): Option<Op> {
    if r.stopped then None
    else
      match e
      case JoinRequest(name, rejoinId, rejoinToken, newId, newToken, now) =>
        Some(JoinGame(name, rejoinId, rejoinToken, newId, newToken, now))
      case AttachRequest(conn, token, now) =>
        if conn.role == RolePlayer then Some(Attach(conn.playerId, token, now)) else None
      case DetachMsg(conn, now) =>
        if conn.role == RolePlayer && Registered(r, conn) then Some(Detach(conn.playerId, now)) else None
      case FromPlayer(conn, msg, now) =>
        if conn.role != RolePlayer then None
        else (
          match msg
          case VoteMsg(targetId) => Some(Vote(conn.playerId, targetId))
          case CallBankMsg => Some(CallBank(conn.playerId, now))
          case RenameMsg(newName) => Some(Rename(conn.playerId, newName, now))
          case OtherMsg => None)
      case FromController(conn, action, now, rand, newId) =>
        if conn.role == RoleController then ControlOp(action, now, rand, newId) else None
      case SummaryRequest => None
      case Tick(now, rand) => TickOp(r.game, now, rand)
  }

  /** The registry after an event whose game operation was accepted or not. */
  function Registry(r: RoomValue, e: Event, accepted: bool): RoomValue {
    match e
    case AttachRequest(conn, token, _) =>
      (match conn.role
       case RolePlayer => if accepted then r.(players := r.players[conn.playerId := conn]) else r
       case RoleController =>
         if token != "" && token == r.game.setup.controllerKey then r.(controllers := r.controllers + {conn}) else r
       case RoleHost => r.(hosts := r.hosts + {conn}))
    case DetachMsg(conn, _) =>
      (match conn.role
       case RolePlayer => if Registered(r, conn) then r.(players := r.players - {conn.playerId}) else r
       case RoleController => r.(controllers := r.controllers - {conn})
       case RoleHost => r.(hosts := r.hosts - {conn}))
    case FromController(conn, action, _, _, _) =>
      if conn.role != RoleController then r
      else if action.ActKickPlayer? && accepted then r.(players := r.players - {action.id})
      else if action.ActCloseRoom? then r.(players := map[], controllers := {}, hosts := {}, stopped := true)
      else r
    case _ => r
  }

  function Step(r: RoomValue, e: Event): RoomValue
    requires Safe(r.game)
  {
    if r.stopped then r
    else
      match OpOf(r, e)
      case None => Registry(r, e, false)
      case Some(op) =>
        var accepted := Perform(r.game, op).Some?;
        Registry(r, e, accepted).(game := Performed(r.game, op))
  }

  /** Whether the handlers ask for a broadcast after this event. */
  function Changed(r: RoomValue, e: Event): bool
    requires Safe(r.game)
  {
    match OpOf(r, e)
    case None => false
    case Some(Attach(id, token, now)) => AttachPlayer(r.game, id, token, now).Some? && Offline(r.game, id)
    case Some(Detach(_, _)) => true
    case Some(op) => Perform(r.game, op).Some?
  }

  /** A message of a player or the controller that drops no connection changes the game only. */
  lemma MessageStep(r: RoomValue, e: Event)
    requires Safe(r.game) && !r.stopped
    requires e.FromPlayer? || (e.FromController? && !e.action.ActKickPlayer? && !e.action.ActCloseRoom?)
    ensures match OpOf(r, e)
      case None => Step(r, e) == r && !Changed(r, e)
      case Some(op) =>
        Step(r, e) == r.(game := Performed(r.game, op)) && Changed(r, e) == Perform(r.game, op).Some?
  {
    hide Perform, Performed;
  }

  /** What the controller's messages do, apart from kicking. */
  lemma ControllerStep(r: RoomValue, conn: Conn, a: Action, now: int, rand: seq<nat>, newId: string)
    requires Safe(r.game) && !r.stopped
    ensures var e := FromController(conn, a, now, rand, newId);
      if conn.role != RoleController then Step(r, e) == r && !Changed(r, e)
      else if a.ActCloseRoom? then
        Step(r, e) == r.(players := map[], controllers := {}, hosts := {}, stopped := true) && !Changed(r, e)
      else if a.ActKickPlayer? then true
      else
        match ControlOp(a, now, rand, newId)
        case None => Step(r, e) == r && !Changed(r, e)
        case Some(op) =>
          Step(r, e) == r.(game := Performed(r.game, op)) && Changed(r, e) == Perform(r.game, op).Some?
  {
    hide Perform, Performed;
  }

  lemma PlayerPerformed(g: GameValue, id: string, msg: PlayerMsg, now: int)
    requires Safe(g)
    ensures msg.VoteMsg? ==> Perform(g, Vote(id, msg.targetId)) == SubmitVote(g, id, msg.targetId)
    ensures msg.CallBankMsg? ==> Perform(g, CallBank(id, now)) == Game.CallBank(g, id, now)
    ensures msg.RenameMsg? ==> Perform(g, Rename(id, msg.newName, now)) == Game.Rename(g, id, msg.newName, now)
  {
    hide SubmitVote, Game.CallBank, Game.Rename;
  }

  /** No broadcast is skipped: an event that asks for none leaves the whole game as it was. */
  lemma QuietStepsChangeNothing(r: RoomValue, e: Event)
    requires Safe(r.game) && !Changed(r, e)
    ensures Step(r, e).game == r.game
  {
    hide DoStartGame, DoSelectAsked, DoNextQuestion, DoMarkCorrect, DoMarkIncorrect, DoBankChain, DoEndRound,
         DoStartVoteReveal, DoAdvanceReveal, DoManualTieBreak, DoContinueAfterElimination, DoShootoutNextQuestion,
         DoShootoutMark, DoKickPlayer, DoAddPlayer, DoSetQuestionBank, Game.Join, SubmitVote,
         Game.CallBank, Game.Rename;
    var op := OpOf(r, e);
    if op.Some? && op.value.Attach? {
      var i := Find(r.game.players, op.value.id);
      if i.Some? && r.game.players[i.value].connected {
        assert r.game.players[i.value := r.game.players[i.value].(connected := true)] == r.game.players;
      }
    }
  }
}
