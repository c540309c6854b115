/** The game state as one value, and every operation on it as a function.  An
    operation that the code refuses (returns false, changes nothing) is None. */
module Game {
  import opened Types
  import opened Text
  import opened Roster
  import opened Voting
  import opened Duel
  import opened Deck

  /** Fixed when the room is created. */
  datatype Setup = Setup(
    fold: Fold, roomCode: string, controllerKey: string, roundDuration: int, communityBank: seq<Question>)

  datatype Table = Table(chainIndex: int, bank: nat, round: int, askedId: string, question: Option<Question>)

  datatype Clock = Clock(timer: Timer, countdownEndsAt: int, target: Target)

  datatype Ballot = Ballot(
    votes: map<string, string>, tieCandidates: Option<seq<string>>, tieTally: map<string, nat>,
    revealing: bool, revealOrder: Option<seq<string>>, revealIndex: nat)

  datatype Cards = Cards(questionBank: seq<Question>, usingCustom: bool, deck: seq<Question>)

  datatype GameValue = GameValue(
    setup: Setup,
    phase: Phase,
    players: seq<PlayerValue>,
    table: Table,
    clock: Clock,
    ballot: Ballot,
    lastElimination: Option<Elimination>,
    shootout: Option<ShootoutValue>,
    winner: string,
    log: seq<LogEntry>,
    cards: Cards)

  /** Refused operations leave the state alone. */
  function Apply(g: GameValue, r: Option<GameValue>): GameValue {
    match r
    case None => g
    case Some(g') => g'
  }

  /** What the indexing and dereferencing in the operations relies on. */
  predicate Safe(g: GameValue) {
    && -1 <= g.table.chainIndex < |CHAIN_VALUES|
    && (g.clock.target == TargetShootout ==> g.shootout.Some?)
    && (g.shootout.Some? ==> g.shootout.value.turn <= 1)
  }

  const EMPTY_BALLOT := Ballot(map[], None, map[], false, None, 0)
  const OPENING_TABLE := Table(-1, 0, 1, "", None)

  function NewState(setup: Setup, bank: seq<Question>, usingCustom: bool): GameValue {
    GameValue(
      setup, PhaseLobby, [], OPENING_TABLE, Clock(Timer(setup.roundDuration, 0, false), 0, TargetNone),
      EMPTY_BALLOT, None, None, "", [], Cards(bank, usingCustom, []))
  }

  // --- plumbing ---

  function PushLog(log: seq<LogEntry>, now: int, msg: Msg): (r: seq<LogEntry>)
    ensures |r| <= MAX_LOG_ENTRIES
  {
    var l := [LogEntry(now, msg)] + log;
    if |l| > MAX_LOG_ENTRIES then l[..MAX_LOG_ENTRIES] else l
  }

  /** The newest entry comes first, then as many of the others as fit into eight. */
  lemma LogKeepsTheNewest(log: seq<LogEntry>, now: int, msg: Msg)
    ensures var r := PushLog(log, now, msg);
      && r != [] && r[0] == LogEntry(now, msg)
      && |r| == (if |log| < 8 then |log| + 1 else 8) && r[1..] == log[..|r| - 1]
  {
  }

  function Logged(g: GameValue, now: int, msg: Msg): GameValue {
    g.(log := PushLog(g.log, now, msg))
  }

  function PulledQuestion(g: GameValue, rand: seq<nat>): Question {
    match DrawCard(g.cards.questionBank, g.cards.deck, rand).card
    case Some(q) => q
    case None => EMPTY_BANK_QUESTION
  }

  function PulledDeck(g: GameValue, rand: seq<nat>): seq<Question> {
    DrawCard(g.cards.questionBank, g.cards.deck, rand).deck
  }

  function AskNext(g: GameValue, rand: seq<nat>): GameValue {
    g.(table := g.table.(question := Some(PulledQuestion(g, rand))),
       cards := g.cards.(deck := PulledDeck(g, rand)))
  }

  function ShootoutAskNext(g: GameValue, sh: ShootoutValue, rand: seq<nat>): GameValue {
    g.(shootout := Some(sh.(question := Some(PulledQuestion(g, rand)))),
       cards := g.cards.(deck := PulledDeck(g, rand)))
  }

  function BeginCountdown(g: GameValue, now: int, target: Target): GameValue {
    g.(phase := PhaseCountdown, clock := g.clock.(countdownEndsAt := now + COUNTDOWN_MS, target := target))
  }

  function WithPlayer(g: GameValue, i: nat, p: PlayerValue): GameValue
    requires i < |g.players|
  {
    g.(players := g.players[i := p])
  }

  // --- rounds ---

  function FinishCountdown(g: GameValue, now: int, rand: seq<nat>): GameValue
    requires Safe(g)
  {
    if g.clock.target == TargetShootout then
      var g1 := g.(clock := g.clock.(target := TargetNone), phase := PhaseShootout);
      Logged(ShootoutAskNext(g1, g.shootout.value, rand), now, ShootoutBegins)
    else
      var timer := Timer(g.setup.roundDuration, now + g.setup.roundDuration * 1000, true);
      var g1 := g.(clock := g.clock.(target := TargetNone, timer := timer), phase := PhasePlaying);
      Logged(AskNext(g1, rand), now, RoundBegins(g.table.round))
  }

  function DoStartGame(g: GameValue, now: int): Option<GameValue> {
    if |g.players| < 3 then None
    else
      var g1 := g.(table := Table(-1, g.table.bank, 1, g.players[0].id, None));
      Some(BeginCountdown(Logged(g1, now, GameStarted(|g.players|)), now, TargetRound))
  }

  function DoSelectAsked(g: GameValue, id: string, rand: seq<nat>): Option<GameValue> {
    if g.phase != PhasePlaying then None
    else
      match Find(g.players, id)
      case None => None
      case Some(i) =>
        if !g.players[i].alive then None else Some(AskNext(g.(table := g.table.(askedId := id)), rand))
  }

  function DoNextQuestion(g: GameValue, rand: seq<nat>): Option<GameValue> {
    if g.phase != PhasePlaying || g.table.askedId == "" then None else Some(AskNext(g, rand))
  }

  /** The player a round mark goes to, if a mark is possible at all. */
  function Marked(g: GameValue): (r: Option<nat>)
    ensures r.Some? ==> r.value < |g.players| && g.table.question.Some?
  {
    if g.table.question.None? || g.table.askedId == "" then None else Find(g.players, g.table.askedId)
  }

  function DoMarkCorrect(g: GameValue, now: int, rand: seq<nat>): Option<GameValue>
    requires Safe(g)
  {
    match Marked(g)
    case None => None
    case Some(i) =>
      var p := g.players[i];
      var g1 := WithPlayer(g, i, p.(correct := p.correct + 1));
      var chain := if g.table.chainIndex < |CHAIN_VALUES| - 1 then g.table.chainIndex + 1 else g.table.chainIndex;
      var asked := NextAsked(g1.players, g.table.askedId);
      var g2 := Logged(g1, now, MarkedCorrect(p.name, CHAIN_VALUES[chain]));
      Some(AskNext(g2.(table := g.table.(chainIndex := chain, askedId := asked)), rand))
  }

  function DoMarkIncorrect(g: GameValue, now: int, rand: seq<nat>): Option<GameValue> {
    match Marked(g)
    case None => None
    case Some(i) =>
      var p := g.players[i];
      var g1 := Logged(WithPlayer(g, i, p.(incorrect := p.incorrect + 1)), now, MarkedIncorrect(p.name));
      var asked := NextAsked(g1.players, g.table.askedId);
      Some(AskNext(g1.(table := g.table.(chainIndex := -1, askedId := asked)), rand))
  }

  function DoBankChain(g: GameValue, banker: string, now: int): Option<GameValue>
    requires Safe(g)
  {
    if g.phase != PhasePlaying || g.table.chainIndex < 0 then None
    else
      var amt := CHAIN_VALUES[g.table.chainIndex];
      var g1 := g.(table := g.table.(bank := g.table.bank + amt, chainIndex := -1));
      Some(Logged(g1, now, Banked(banker, amt, g1.table.bank)))
  }

  function DoEndRound(g: GameValue, now: int): Option<GameValue> {
    if g.phase != PhasePlaying then None
    else
      var g1 := g.(
        phase := PhaseVoting,
        table := g.table.(question := None),
        ballot := g.ballot.(votes := map[], revealing := false, revealOrder := None, revealIndex := 0),
        clock := g.clock.(timer := g.clock.timer.(running := false)));
      Some(Logged(g1, now, RoundEnded(g.table.round)))
  }

  // --- voting ---

  function DoStartVoteReveal(g: GameValue): Option<GameValue> {
    if g.phase != PhaseVoting || g.ballot.revealing then None
    else
      var order := IdsAt(g.players, AliveIdx(g.players));
      Some(g.(ballot := g.ballot.(revealOrder := Some(order), revealIndex := 0, revealing := true)))
  }

  function FinalizeElimination(g: GameValue, i: nat, tally: map<string, nat>, note: string, now: int): GameValue
    requires i < |g.players|
  {
    var g1 := WithPlayer(g, i, g.players[i].(alive := false));
    var name := g.players[i].name;
    var rows := SortDesc(TallyRows(g1.players, tally));
    Logged(
      g1.(lastElimination := Some(Elimination(name, rows, note)),
          ballot := g.ballot.(tieCandidates := None, tieTally := map[]),
          phase := PhaseElimination),
      now, VotedOff(name))
  }

  function ResolveVotes(g: GameValue, now: int): GameValue {
    var tally := Tally(g.players, g.ballot.votes);
    match Resolve(g.players, g.ballot.votes)
    case Eliminate(i, note) => FinalizeElimination(g, i, tally, note, now)
    case Tie(candidates) =>
      g.(ballot := g.ballot.(tieCandidates := Some(IdsAt(g.players, candidates)), tieTally := tally))
  }

  function DoAdvanceReveal(g: GameValue, now: int): Option<GameValue> {
    if !g.ballot.revealing || g.ballot.revealOrder.None? then None
    else
      var next := g.ballot.revealIndex + 1;
      var last := next >= |g.ballot.revealOrder.value|;
      var g1 := g.(ballot := g.ballot.(revealIndex := next, revealing := !last));
      Some(if last then ResolveVotes(g1, now) else g1)
  }

  function DoManualTieBreak(g: GameValue, id: string, now: int): Option<GameValue> {
    match Find(g.players, id)
    case None => None
    case Some(i) => Some(FinalizeElimination(g, i, g.ballot.tieTally, HOST_BROKE_NOTE, now))
  }

  function DoContinueAfterElimination(g: GameValue, now: int): Option<GameValue> {
    var alive := AliveIdx(g.players);
    if |alive| == 2 then
      var sh := ShootoutValue(g.players[alive[0]].id, g.players[alive[1]].id, [], 0, 0, None, false, "");
      Some(BeginCountdown(Logged(g.(shootout := Some(sh)), now, FinalTwo), now, TargetShootout))
    else
      var asked := if |alive| > 0 then g.players[alive[0]].id else g.table.askedId;
      Some(BeginCountdown(g.(table := Table(-1, g.table.bank, g.table.round + 1, asked, None)), now, TargetRound))
  }

  // --- shootout ---

  function DoShootoutNextQuestion(g: GameValue, rand: seq<nat>): Option<GameValue> {
    if g.shootout.None? || g.shootout.value.winnerId != "" then None
    else Some(ShootoutAskNext(g, g.shootout.value, rand))
  }

  /** `declareShootoutWinner`, the part outside the shootout record. */
  function WinnerDeclared(g: GameValue, sh: ShootoutValue, now: int): GameValue {
    var g1 := g.(phase := PhaseGameOver);
    match Find(g.players, sh.winnerId)
    case None => g1
    case Some(w) => Logged(g1.(winner := g.players[w].name), now, WinsGame(g.players[w].name))
  }

  /** The player a shootout mark goes to, if a mark is possible at all. */
  function ShootoutMarked(g: GameValue): (r: Option<nat>)
    requires Safe(g)
    ensures r.Some? ==> g.shootout.Some? && r.value < |g.players|
  {
    if g.shootout.None? || g.shootout.value.question.None? then None
    else Find(g.players, Seat(g.shootout.value, g.shootout.value.turn))
  }

  function ScoredPlayer(p: PlayerValue, result: string): PlayerValue {
    if result == CORRECT then p.(correct := p.correct + 1) else p.(incorrect := p.incorrect + 1)
  }

  /** The mark recorded, counted and logged, before the end check. */
  function Marking(g: GameValue, i: nat, result: string, now: int): GameValue
    requires g.shootout.Some? && i < |g.players|
  {
    var p := g.players[i];
    var g1 := WithPlayer(g, i, ScoredPlayer(p, result)).(shootout := Some(Recorded(g.shootout.value, result)));
    Logged(g1, now, KickMarked(p.name, result == CORRECT))
  }

  /** The end check after a mark. */
  function Judged(g: GameValue, now: int): GameValue
    requires g.shootout.Some?
  {
    var sh := Checked(g.shootout.value);
    var g1 := g.(shootout := Some(sh));
    if CheckEnd(g.shootout.value).Wins? then WinnerDeclared(g1, sh, now) else g1
  }

  /** The end check, and the next turn unless somebody has won. */
  function AfterMark(g: GameValue, now: int, rand: seq<nat>): GameValue
    requires g.shootout.Some?
  {
    var sh := Checked(g.shootout.value);
    if sh.winnerId == "" then ShootoutAskNext(Judged(g, now), Passed(sh), rand) else Judged(g, now)
  }

  function DoShootoutMark(g: GameValue, result: string, now: int, rand: seq<nat>): Option<GameValue>
    requires Safe(g)
  {
    match ShootoutMarked(g)
    case None => None
    case Some(i) => Some(AfterMark(Marking(g, i, result, now), now, rand))
  }

  // --- lobby ---

  function Revived(p: PlayerValue): PlayerValue {
    PlayerValue(p.id, p.name, true, 0, 0, p.connected, p.token)
  }

  function RevivedAll(ps: seq<PlayerValue>): (r: seq<PlayerValue>)
    ensures |r| == |ps| && forall i :: 0 <= i < |ps| ==> r[i] == Revived(ps[i])
  {
    seq(|ps|, i requires 0 <= i < |ps| => Revived(ps[i]))
  }

  function DoPlayAgain(g: GameValue): GameValue {
    NewState(g.setup, g.cards.questionBank, g.cards.usingCustom).(players := RevivedAll(g.players))
  }

  function DoKickPlayer(g: GameValue, id: string, now: int): Option<GameValue> {
    if g.phase != PhaseLobby then None
    else
      match Find(g.players, id)
      case None => None
      case Some(i) =>
        Some(Logged(g.(players := g.players[..i] + g.players[i + 1..]), now, RemovedByHost(g.players[i].name)))
  }

  function DoAddPlayer(g: GameValue, name: string, newId: string, now: int): Option<GameValue> {
    if g.phase != PhaseLobby then None
    else
      var n := CleanName(if name == "" then "Player" else name);
      if n == "" then None
      else
        var final := DedupeName(g.setup.fold, n, NamesOf(g.players));
        var p := PlayerValue(newId, final, true, 0, 0, false, "");
        Some(Logged(g.(players := g.players + [p]), now, AddedByHost(final)))
  }

  function DoSetQuestionBank(g: GameValue, questions: seq<Question>, now: int): Option<GameValue> {
    if questions == [] then None
    else
      Some(Logged(g.(cards := Cards(questions, true, [])), now, LoadedQuestions(|questions|)))
  }

  function DoResetQuestionBank(g: GameValue, now: int): GameValue {
    Logged(g.(cards := Cards(g.setup.communityBank, false, [])), now, DefaultBank)
  }

  // --- players ---

  /** The existing row a join claims: by id and token, else the first offline row of that name. */
  function OfflineNamesake(g: GameValue, name: string, k: nat): (r: Option<nat>)
    requires k <= |g.players|
    ensures r.Some? ==> k <= r.value < |g.players| && !g.players[r.value].connected
    ensures r.Some? ==> EqualFold(g.setup.fold, g.players[r.value].name, name)
    ensures forall j :: k <= j < (if r.Some? then r.value else |g.players|) ==>
      g.players[j].connected || !EqualFold(g.setup.fold, g.players[j].name, name)
    decreases |g.players| - k
  {
    if k == |g.players| then None
    else if !g.players[k].connected && EqualFold(g.setup.fold, g.players[k].name, name) then Some(k)
    else OfflineNamesake(g, name, k + 1)
  }

  function Claimed(g: GameValue, name: string, rejoinId: string, rejoinToken: string): (r: Option<nat>)
    ensures r.Some? ==> r.value < |g.players|
  {
    var byId := if rejoinId != "" then Find(g.players, rejoinId) else None;
    if byId.Some? && g.players[byId.value].token == rejoinToken then byId
    else OfflineNamesake(g, name, 0)
  }

  function Join(g: GameValue, name: string, rejoinId: string, rejoinToken: string,
                newId: string, newToken: string, now: int): Option<GameValue> {
    var incoming := JoinName(name);
    match Claimed(g, incoming, rejoinId, rejoinToken)
    case Some(i) =>
      var p := g.players[i];
      Some(Logged(WithPlayer(g, i, p.(connected := true, token := newToken)), now,
                  if p.connected then Joined(p.name) else Reconnected(p.name)))
    case None =>
      if g.phase != PhaseLobby then None
      else
        var final := DedupeName(g.setup.fold, incoming, NamesOf(g.players));
        Some(Logged(g.(players := g.players + [PlayerValue(newId, final, true, 0, 0, true, newToken)]),
                    now, Joined(final)))
  }

  function AttachPlayer(g: GameValue, id: string, token: string, now: int): Option<GameValue> {
    match Find(g.players, id)
    case None => None
    case Some(i) =>
      var p := g.players[i];
      if token == "" || p.token != token then None
      else
        var g1 := WithPlayer(g, i, p.(connected := true));
        Some(if p.connected then g1 else Logged(g1, now, Reconnected(p.name)))
  }

  predicate Offline(g: GameValue, id: string) {
    var i := Find(g.players, id);
    i.Some? && !g.players[i.value].connected
  }

  function DetachPlayer(g: GameValue, id: string, now: int): Option<GameValue> {
    match Find(g.players, id)
    case None => None
    case Some(i) =>
      var p := g.players[i];
      if !p.connected then None
      else Some(Logged(WithPlayer(g, i, p.(connected := false)), now, Disconnected(p.name)))
  }

  function SubmitVote(g: GameValue, voter: string, target: string): Option<GameValue> {
    if g.phase != PhaseVoting then None
    else
      match Find(g.players, voter)
      case None => None
      case Some(i) =>
        if !g.players[i].alive then None
        else Some(g.(ballot := g.ballot.(votes := g.ballot.votes[voter := target])))
  }

  function CallBank(g: GameValue, id: string, now: int): Option<GameValue>
    requires Safe(g)
  {
    if g.phase != PhasePlaying || g.table.askedId != id then None
    else
      match Find(g.players, id)
      case None => None
      case Some(i) => DoBankChain(g, g.players[i].name, now)
  }

  predicate NameInUse(g: GameValue, id: string, name: string) {
    exists k :: 0 <= k < |g.players| && g.players[k].id != id && EqualFold(g.setup.fold, g.players[k].name, name)
  }

  function Rename(g: GameValue, id: string, newName: string, now: int): Option<GameValue> {
    var n := CleanName(newName);
    if g.phase != PhaseLobby || n == "" || NameInUse(g, id, n) then None
    else
      match Find(g.players, id)
      case None => None
      case Some(i) =>
        Some(Logged(WithPlayer(g, i, g.players[i].(name := n)), now, Renamed(g.players[i].name, n)))
  }
}
