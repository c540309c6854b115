/** What each audience is sent: players and the big screen without answers, the
    controller with them. */
module Views {
  import opened Types
  import opened Roster
  import opened Game

  datatype PlayerPublic = PlayerPublic(
    id: string, name: string, alive: bool, correct: nat, incorrect: nat, connected: bool)

  datatype RevealInfo = RevealInfo(voterName: string, votedForName: Option<string>, index: nat, total: nat)

  datatype ShootoutSeat = ShootoutSeat(id: string, name: string)

  /** A question without its answer. */
  datatype PlayerQuestion = PlayerQuestion(q: string)

  datatype ShootoutPublic = ShootoutPublic(
    order: seq<ShootoutSeat>, rounds: seq<Wave>, roundIndex: nat, turn: nat, sudden: bool, winnerId: string,
    question: Option<PlayerQuestion>)

  datatype PlayerState = PlayerState(
    phase: Phase, roomCode: string, players: seq<PlayerPublic>, chainIndex: int, chainValue: nat, bank: nat,
    round: int, askedId: string, question: Option<PlayerQuestion>, timer: Timer, countdownEndsAt: int,
    myId: string, votedAlready: bool, revealing: bool, revealInfo: Option<RevealInfo>,
    lastElimination: Option<Elimination>, shootout: Option<ShootoutPublic>, winner: string)

  datatype ControllerState = ControllerState(
    shared: PlayerState, askedName: string, question: Option<Question>, votedCount: nat,
    revealOrder: Option<seq<string>>, revealIndex: nat, tieCandidates: Option<seq<string>>,
    shootoutQuestion: Option<Question>, questionBankCount: nat, usingCustom: bool, log: seq<LogEntry>)

  function Public(p: PlayerValue): PlayerPublic {
    PlayerPublic(p.id, p.name, p.alive, p.correct, p.incorrect, p.connected)
  }

  function ToPlayerPublic(ps: seq<PlayerValue>): (r: seq<PlayerPublic>)
    ensures |r| == |ps| && forall i :: 0 <= i < |ps| ==> r[i] == Public(ps[i])
  {
    seq(|ps|, i requires 0 <= i < |ps| => Public(ps[i]))
  }

  function NameOf(ps: seq<PlayerValue>, id: string): string {
    match Find(ps, id)
    case Some(i) => ps[i].name
    case None => ""
  }

  /** `revealInfo` indexes the reveal order: without this it fails. */
  predicate RevealDefined(g: GameValue) {
    g.ballot.revealing && g.ballot.revealOrder.Some? ==> g.ballot.revealIndex < |g.ballot.revealOrder.value|
  }

  function RevealInfoOf(g: GameValue): Option<RevealInfo>
    requires RevealDefined(g)
  {
    if !g.ballot.revealing || g.ballot.revealOrder.None? then None
    else
      var order := g.ballot.revealOrder.value;
      var voter := order[g.ballot.revealIndex];
      var votedFor :=
        if voter in g.ballot.votes && Find(g.players, g.ballot.votes[voter]).Some? then
          Some(NameOf(g.players, g.ballot.votes[voter]))
        else None;
      Some(RevealInfo(NameOf(g.players, voter), votedFor, g.ballot.revealIndex, |order|))
  }

  function WithoutAnswer(q: Option<Question>): Option<PlayerQuestion> {
    match q
    case None => None
    case Some(q) => Some(PlayerQuestion(q.q))
  }

  function Seats(ps: seq<PlayerValue>, sh: ShootoutValue): seq<ShootoutSeat> {
    [ShootoutSeat(sh.order0, NameOf(ps, sh.order0)), ShootoutSeat(sh.order1, NameOf(ps, sh.order1))]
  }

  function ShootoutPublicOf(g: GameValue): Option<ShootoutPublic> {
    match g.shootout
    case None => None
    case Some(sh) =>
      Some(ShootoutPublic(Seats(g.players, sh), sh.rounds, sh.roundIndex, sh.turn, sh.sudden, sh.winnerId,
                          WithoutAnswer(sh.question)))
  }

  function ChainValue(g: GameValue): nat
    requires Safe(g)
  {
    if g.table.chainIndex >= 0 then CHAIN_VALUES[g.table.chainIndex] else 0
  }

  /** The state sent to a player, or with an empty id to the host screen. */
  function ToPlayerState(g: GameValue, forId: string): PlayerState
    requires Safe(g) && RevealDefined(g)
  {
    PlayerState(
      g.phase, g.setup.roomCode, ToPlayerPublic(g.players), g.table.chainIndex, ChainValue(g), g.table.bank,
      g.table.round, g.table.askedId, WithoutAnswer(g.table.question), g.clock.timer, g.clock.countdownEndsAt,
      forId, forId != "" && forId in g.ballot.votes, g.ballot.revealing, RevealInfoOf(g),
      g.lastElimination, ShootoutPublicOf(g), g.winner)
  }

  function ToControllerState(g: GameValue): ControllerState
    requires Safe(g) && RevealDefined(g)
  {
    ControllerState(
      ToPlayerState(g, ""), NameOf(g.players, g.table.askedId), g.table.question, |g.ballot.votes|,
      g.ballot.revealOrder, g.ballot.revealIndex, g.ballot.tieCandidates,
      if g.shootout.Some? then g.shootout.value.question else None,
      |g.cards.questionBank|, g.cards.usingCustom, g.log)
  }
}
