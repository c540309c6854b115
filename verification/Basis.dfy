/** The invariant every other one rests on: ids, the fresh lobby, and where the
    countdown leads.  It holds after any operation in any phase. */
module Basis {
  import opened Types
  import opened Roster
  import opened Game
  import opened Actor
  import Voting
  import Text
  import Duel

  ghost predicate Ids(ps: seq<PlayerValue>) {
    DistinctIds(ps) && forall i :: 0 <= i < |ps| ==> ps[i].id != ""
  }

  /** Rows as they are before a game. */
  ghost predicate FreshRows(ps: seq<PlayerValue>) {
    forall i :: 0 <= i < |ps| ==> ps[i].alive && ps[i].correct == 0 && ps[i].incorrect == 0
  }

  /** In the lobby nothing of a game is left over. */
  ghost predicate FreshLobby(g: GameValue) {
    g.phase == PhaseLobby ==>
      && g.table == OPENING_TABLE
      && g.ballot == EMPTY_BALLOT
      && g.shootout.None?
      && g.clock.target == TargetNone
      && FreshRows(g.players)
  }

  /** A countdown has a target, and a shootout ahead or in play exists; one that is
      about to start has no winner yet. */
  ghost predicate Targets(g: GameValue) {
    && (g.phase == PhaseCountdown ==> g.clock.target != TargetNone)
    && (g.clock.target == TargetShootout || g.phase == PhaseShootout ==> g.shootout.Some?)
    && (g.phase == PhaseCountdown && g.clock.target == TargetShootout ==> g.shootout.value.winnerId == "")
  }

  ghost predicate Base(g: GameValue) {
    && Safe(g)
    && Ids(g.players) && FreshLobby(g) && Targets(g)
  }

  lemma BaseIsSafe(g: GameValue)
    requires Base(g)
    ensures Safe(g)
  {
  }

  /** `NewID` never repeats an id in use and is never empty; the tick finishes a countdown
      only while there is one. */
  ghost predicate Legal(g: GameValue, op: Op) {
    match op
    case FinishCountdown(_, _) => g.phase == PhaseCountdown
    case AddPlayer(_, newId, _) => newId != "" && forall i :: 0 <= i < |g.players| ==> g.players[i].id != newId
    case JoinGame(_, _, _, newId, newToken, _) =>
      newId != "" && forall i :: 0 <= i < |g.players| ==> g.players[i].id != newId
    case _ => true
  }

  /** The same for the operation an event leads to, if any. */
  ghost predicate LegalEvent(r: RoomValue, e: Event) {
    var op := OpOf(r, e);
    op.Some? ==> Legal(r.game, op.value)
  }

  // --- every operation belongs to one of five groups ---

  predicate PlayOp(op: Op) {
    op.StartGame? || op.SelectAsked? || op.NextQuestion? || op.MarkCorrect? || op.MarkIncorrect? || op.BankChain?
    || op.CallBank? || op.EndRound? || op.FinishCountdown?
  }

  predicate BallotOp(op: Op) {
    op.StartVoteReveal? || op.AdvanceReveal? || op.ManualTieBreak? || op.ContinueAfterElimination? || op.Vote?
  }

  predicate DuelOp(op: Op) {
    op.ShootoutNextQuestion? || op.ShootoutMark?
  }

  predicate RosterOp(op: Op) {
    op.KickPlayer? || op.AddPlayer? || op.JoinGame? || op.Rename?
  }

  predicate MetaOp(op: Op) {
    op.PlayAgain? || op.SetQuestionBank? || op.ResetQuestionBank? || op.Attach? || op.Detach?
  }

  // --- the effect of the shootout's operations ---

  lemma RecordedFrame(sh: ShootoutValue, result: string)
    ensures Duel.Recorded(sh, result) == sh.(rounds := Duel.Recorded(sh, result).rounds, question := None)
  {
  }

  /** What a mark and the end check after it do to the game, apart from the log and the cards. */
  lemma AfterMarkEffect(g: GameValue, i: nat, result: string, now: int, rand: seq<nat>)
    requires Safe(g) && g.shootout.Some? && i < |g.players|
    ensures var sh, h := g.shootout.value, AfterMark(Marking(g, i, result, now), now, rand);
      var rec := Duel.Recorded(sh, result);
      && h.players == g.players[i := ScoredPlayer(g.players[i], result)]
      && h.setup == g.setup && h.ballot == g.ballot && h.table == g.table && h.clock == g.clock
      && h.phase == (if Duel.CheckEnd(rec).Wins? then PhaseGameOver else g.phase)
      && h.shootout.Some?
      && h.shootout.value.order0 == sh.order0 && h.shootout.value.order1 == sh.order1
      && h.shootout.value.turn <= 1 && h.shootout.value.rounds == rec.rounds
      && h.shootout.value.winnerId == Duel.Checked(rec).winnerId
  {
    hide PushLog, PulledQuestion, PulledDeck, Duel.CheckEnd, Duel.Recorded, Find, ScoredPlayer;
    RecordedFrame(g.shootout.value, result);
  }

  /** Rows that agree on everything but their counts. */
  ghost predicate SamePersons(ps: seq<PlayerValue>, qs: seq<PlayerValue>) {
    && |ps| == |qs|
    && forall i :: 0 <= i < |ps| ==> ps[i].(correct := 0, incorrect := 0) == qs[i].(correct := 0, incorrect := 0)
  }

  lemma SamePersonsAgree(ps: seq<PlayerValue>, qs: seq<PlayerValue>)
    requires SamePersons(ps, qs)
    ensures SameLiving(ps, qs) && SameIds(ps, qs)
    ensures forall i :: 0 <= i < |ps| ==> ps[i].name == qs[i].name && ps[i].connected == qs[i].connected
  {
    forall i | 0 <= i < |ps|
      ensures ps[i].id == qs[i].id && ps[i].alive == qs[i].alive && ps[i].name == qs[i].name
      ensures ps[i].connected == qs[i].connected
    {
      assert ps[i].(correct := 0, incorrect := 0) == qs[i].(correct := 0, incorrect := 0);
    }
  }

  lemma DuelOpEffect(g: GameValue, op: Op)
    requires Safe(g) && DuelOp(op)
    ensures var h := Performed(g, op);
      && (g.shootout.None? ==> h == g) && h.shootout.Some? == g.shootout.Some?
      && SamePersons(g.players, h.players)
      && h.setup == g.setup && h.table == g.table && h.clock == g.clock && h.ballot == g.ballot
      && (h.phase == g.phase || h.phase == PhaseGameOver)
      && (h.shootout.Some? ==> h.shootout.value.turn <= 1)
      && (h.shootout.Some? && h.phase != PhaseGameOver ==> h.shootout.value.winnerId == g.shootout.value.winnerId)
  {
    hide PushLog, PulledQuestion, PulledDeck, Find, Duel.CheckEnd, Duel.Recorded, AfterMark;
    if op.ShootoutMark? && ShootoutMarked(g).Some? {
      AfterMarkEffect(g, ShootoutMarked(g).value, op.result, op.now, op.rand);
      RecordedFrame(g.shootout.value, op.result);
    }
  }

  // --- what every operation keeps ---

  lemma BaseKeptPlay(g: GameValue, op: Op)
    requires Base(g) && Legal(g, op) && PlayOp(op)
    ensures Base(Performed(g, op))
  {
    hide PushLog, PulledQuestion, PulledDeck, NextAsked, Find;
  }

  lemma ContinueKeepsBase(g: GameValue, now: int)
    requires Base(g)
    ensures Base(DoContinueAfterElimination(g, now).value)
  {
    hide PushLog, AliveIdx;
  }

  lemma BaseKeptBallot(g: GameValue, op: Op)
    requires Base(g) && Legal(g, op) && BallotOp(op)
    ensures Base(Performed(g, op))
  {
    hide PushLog, Voting.SortDesc, Voting.TallyRows, Voting.Tally, Voting.Resolve, Voting.IdsAt, AliveIdx, Find,
         DoContinueAfterElimination;
    if op.ContinueAfterElimination? {
      ContinueKeepsBase(g, op.now);
    }
  }

  lemma BaseKeptDuel(g: GameValue, op: Op)
    requires Base(g) && Legal(g, op) && DuelOp(op)
    ensures Base(Performed(g, op))
  {
    hide Perform, Performed;
    DuelOpEffect(g, op);
    SamePersonsAgree(g.players, Performed(g, op).players);
  }

  /** The operations on the roster touch nothing but the rows and the log. */
  lemma RosterOpEffect(g: GameValue, op: Op)
    requires Safe(g) && RosterOp(op)
    ensures var h := Performed(g, op); h == g.(players := h.players, log := h.log)
  {
    hide PushLog, Text.CleanName, Text.JoinName, Text.DedupeName, Text.EqualFold, NamesOf, NameInUse, Find, Claimed;
  }

  lemma RosterOpRows(g: GameValue, op: Op)
    requires Safe(g) && Ids(g.players) && Legal(g, op) && RosterOp(op)
    ensures var h := Performed(g, op);
      && Ids(h.players) && (FreshRows(g.players) ==> FreshRows(h.players))
  {
    hide PushLog, Text.CleanName, Text.JoinName, Text.DedupeName, Text.EqualFold, NamesOf, NameInUse, Find, Claimed;
  }

  /** Once the lobby is left they change no id, no life and no count. */
  lemma RosterOpOutsideLobby(g: GameValue, op: Op)
    requires Safe(g) && RosterOp(op) && g.phase != PhaseLobby
    ensures SameLiving(g.players, Performed(g, op).players) && SameScores(g.players, Performed(g, op).players)
  {
    hide PushLog, Text.CleanName, Text.JoinName, Text.DedupeName, Text.EqualFold, NamesOf, NameInUse, Find, Claimed;
  }

  lemma BaseKeptRoster(g: GameValue, op: Op)
    requires Base(g) && Legal(g, op) && RosterOp(op)
    ensures Base(Performed(g, op))
  {
    hide Perform, Performed, Ids;
    RosterOpEffect(g, op);
    RosterOpRows(g, op);
  }

  lemma PlayAgainKeepsBase(g: GameValue)
    requires Base(g)
    ensures Base(DoPlayAgain(g))
  {
  }

  lemma BaseKeptMeta(g: GameValue, op: Op)
    requires Base(g) && Legal(g, op) && MetaOp(op)
    ensures Base(Performed(g, op))
  {
    hide PushLog, Find, DoPlayAgain;
    if op.PlayAgain? {
      PlayAgainKeepsBase(g);
    }
  }

  lemma BaseKept(g: GameValue, op: Op)
    requires Base(g) && Legal(g, op)
    ensures Base(Performed(g, op))
  {
    if PlayOp(op) {
      BaseKeptPlay(g, op);
    } else if BallotOp(op) {
      BaseKeptBallot(g, op);
    } else if DuelOp(op) {
      BaseKeptDuel(g, op);
    } else if RosterOp(op) {
      BaseKeptRoster(g, op);
    } else {
      BaseKeptMeta(g, op);
    }
  }
}
