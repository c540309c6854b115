/** What an onlooker writes down during a run, to compare the engine against: marks
    given, money events, questions shown, joins, eliminations and phase changes. */
module Ledger {
  import opened Types
  import opened Roster
  import opened Game
  import opened Actor
  import Text

  datatype Money = Right | ChainReset | Banking

  datatype Book = Book(
    marks: nat,               // accepted round and shootout marks since the last play-again
    money: seq<Money>,        // chain events since the last play-again
    shown: seq<Question>,     // questions shown since the draw pile was last thrown away
    joined: set<string>,      // players who joined since their last attach or effective detach
    eliminations: nat,        // players voted off since the game started
    phaseChanges: nat,        // phase changes since the game started
    finals: (nat, nat))       // the finalists' correct answers when the final two were set

  const EMPTY_BOOK := Book(0, [], [], {}, 0, 0, (0, 0))

  function RecordMarks(b: Book, op: Op, accepted: bool): nat {
    if !accepted then b.marks
    else if op.PlayAgain? then 0
    else if op.MarkCorrect? || op.MarkIncorrect? || op.ShootoutMark? then b.marks + 1
    else b.marks
  }

  function RecordMoney(b: Book, g: GameValue, op: Op, accepted: bool): seq<Money> {
    if !accepted then b.money
    else if op.PlayAgain? then []
    else if op.MarkCorrect? then b.money + [Right]
    else if op.BankChain? || op.CallBank? then b.money + [Banking]
    else if op.MarkIncorrect? || op.StartGame? then b.money + [ChainReset]
    else if op.ContinueAfterElimination? && |AliveIdx(g.players)| != 2 then b.money + [ChainReset]
    else b.money
  }

  /** The question put up by this operation, if it puts one up. */
  function NewQuestion(op: Op, h: GameValue): Option<Question> {
    if op.SelectAsked? || op.NextQuestion? || op.MarkCorrect? || op.MarkIncorrect? then h.table.question
    else if op.ShootoutNextQuestion? || op.ShootoutMark? then
      if h.shootout.Some? then h.shootout.value.question else None
    else if op.FinishCountdown? then
      if h.phase == PhaseShootout then (if h.shootout.Some? then h.shootout.value.question else None)
      else h.table.question
    else None
  }

  function RecordShown(b: Book, op: Op, h: GameValue, accepted: bool): seq<Question> {
    if !accepted then b.shown
    else if op.PlayAgain? || op.SetQuestionBank? || op.ResetQuestionBank? then []
    else
      match NewQuestion(op, h)
      case Some(q) => b.shown + [q]
      case None => b.shown
  }

  function CorrectOf(ps: seq<PlayerValue>, id: string): nat {
    match Find(ps, id)
    case Some(i) => ps[i].correct
    case None => 0
  }

  /** The correct answers of the two finalists, by roster. */
  function FinalistScores(g: GameValue): (nat, nat) {
    if g.shootout.None? then (0, 0)
    else (CorrectOf(g.players, g.shootout.value.order0), CorrectOf(g.players, g.shootout.value.order1))
  }

  function RecordGame(b: Book, g: GameValue, op: Op): Book
    requires Safe(g)
  {
    var accepted := Perform(g, op).Some?;
    var h := Performed(g, op);
    b.(marks := RecordMarks(b, op, accepted),
       money := RecordMoney(b, g, op, accepted),
       shown := RecordShown(b, op, h, accepted),
       eliminations :=
         if h.phase == PhaseLobby then 0
         else if g.phase != PhaseElimination && h.phase == PhaseElimination then b.eliminations + 1
         else b.eliminations,
       phaseChanges :=
         if h.phase == PhaseLobby then 0 else if g.phase != h.phase then b.phaseChanges + 1 else b.phaseChanges,
       finals := if accepted && op.ContinueAfterElimination? then FinalistScores(h) else b.finals)
  }

  /** Who has joined without a connection since: a join adds its player, an accepted
      attach or an effective detach takes the player out, a kick too. */
  function RecordJoined(b: Book, r: RoomValue, e: Event): set<string>
    requires Safe(r.game)
  {
    if r.stopped then b.joined
    else
      match e
      case JoinRequest(name, rejoinId, rejoinToken, newId, newToken, now) =>
        (match Game.Join(r.game, name, rejoinId, rejoinToken, newId, newToken, now)
         case None => b.joined
         case Some(_) =>
           match Claimed(r.game, Text.JoinName(name), rejoinId, rejoinToken)
           case Some(i) => b.joined + {r.game.players[i].id}
           case None => b.joined + {newId})
      case AttachRequest(conn, token, now) =>
        if conn.role == RolePlayer && AttachPlayer(r.game, conn.playerId, token, now).Some? then
          b.joined - {conn.playerId}
        else b.joined
      case DetachMsg(conn, _) =>
        if conn.role == RolePlayer && Registered(r, conn) then b.joined - {conn.playerId} else b.joined
      case FromController(conn, action, now, _, _) =>
        if conn.role == RoleController && action.ActKickPlayer? && DoKickPlayer(r.game, action.id, now).Some? then
          b.joined - {action.id}
        else b.joined
      case _ => b.joined
  }

  function Record(b: Book, r: RoomValue, e: Event): Book
    requires Safe(r.game)
  {
    var b1 := match OpOf(r, e) case None => b case Some(op) => RecordGame(b, r.game, op);
    b1.(joined := RecordJoined(b, r, e))
  }

  // --- what the money events are worth ---

  /** Right answers since the chain was last reset or banked. */
  function Streak(money: seq<Money>): nat {
    if money == [] || money[|money| - 1] != Right then 0 else Streak(money[..|money| - 1]) + 1
  }

  function LadderSteps(money: seq<Money>): (n: nat)
    ensures n <= |CHAIN_VALUES|
  {
    if Streak(money) < |CHAIN_VALUES| then Streak(money) else |CHAIN_VALUES|
  }

  /** Each banking pays the ladder value of the right answers before it, at most thirteen. */
  function Winnings(money: seq<Money>): nat {
    if money == [] then 0
    else
      var before := money[..|money| - 1];
      Winnings(before) +
      if money[|money| - 1] == Banking && LadderSteps(before) > 0 then CHAIN_VALUES[LadderSteps(before) - 1] else 0
  }
}
