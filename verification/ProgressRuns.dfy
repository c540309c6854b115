/** Runs driven through the controller page do not get stuck: there is always something on
    offer that changes the game, unless a tie has come out without candidates. */
module ProgressRuns {
  import opened Types
  import opened Roster
  import opened Game
  import opened Actor
  import opened Basis
  import opened Ledger
  import opened ShootoutRuns
  import opened BallotRuns
  import opened MoneyRuns
  import opened UiRuns
  import Text
  import Voting

  // --- ties without candidates ---

  /** A tie without candidates has taken more marks than the ceiling of the minimum search. */
  ghost predicate CandidatesInv(g: GameValue, b: Book) {
    g.ballot.tieCandidates == Some([]) ==> b.marks > Voting.SCORE_CEILING
  }

  lemma {:induction false} SumHoldsEach(ps: seq<PlayerValue>, i: nat)
    requires i < |ps|
    ensures ps[i].correct <= SumCorrect(ps)
  {
    if i < |ps| - 1 {
      SumHoldsEach(ps[..|ps| - 1], i);
    }
  }

  lemma EmptyTieIsExpensive(g: GameValue, b: Book)
    requires MarksInv(g, b) && AliveIdx(g.players) != []
    requires Voting.Resolve(g.players, g.ballot.votes) == Voting.Tie([])
    ensures b.marks > Voting.SCORE_CEILING
  {
    hide Voting.Resolve, Voting.TopOf, Voting.TopVoted, AliveIdx;
    var top := Voting.TopOf(g.players, g.ballot.votes);
    Voting.NoCandidatesExactlyAboveTheCeiling(g.players, g.ballot.votes);
    Voting.TopIsTopVoted(g.players, g.ballot.votes);
    assert top[0] in top && Voting.Score(g.players[top[0]]) > Voting.SCORE_CEILING;
    SumHoldsEach(g.players, top[0]);
  }

  lemma ResolvedCandidates(g: GameValue, now: int)
    requires Voting.Resolve(g.players, g.ballot.votes) != Voting.Tie([])
    ensures ResolveVotes(g, now).ballot.tieCandidates != Some([])
  {
    hide PushLog, Voting.Resolve, Voting.Tally, Voting.SortDesc, Voting.TallyRows;
  }

  lemma AdvanceKeepsCandidates(g: GameValue, b: Book, op: Op)
    requires Base(g) && UiInv(g, b) && UiLegal(g, op) && ScoreInv(g, b) && CandidatesInv(g, b) && op.AdvanceReveal?
    ensures CandidatesInv(Performed(g, op), RecordGame(b, g, op))
  {
    hide PushLog, Voting.Resolve, Voting.Tally, AliveIdx, FinalizeElimination;
    if Voting.Resolve(g.players, g.ballot.votes) == Voting.Tie([]) {
      EmptyTieIsExpensive(g, b);
    } else {
      ResolvedCandidates(g.(ballot := g.ballot.(revealIndex := g.ballot.revealIndex + 1, revealing := false)), op.now);
    }
  }

  lemma MarksNeverDrop(g: GameValue, b: Book, op: Op)
    requires Safe(g)
    ensures RecordGame(b, g, op).marks >= b.marks || op.PlayAgain?
  {
    hide Perform, Performed;
  }

  lemma PlayAgainClearsBallot(g: GameValue, op: Op)
    requires Safe(g) && op.PlayAgain?
    ensures Performed(g, op).ballot.tieCandidates == None
  {
  }

  lemma CandidatesKept(g: GameValue, b: Book, op: Op)
    requires Base(g) && UiInv(g, b) && UiLegal(g, op) && ScoreInv(g, b) && CandidatesInv(g, b)
    ensures CandidatesInv(Performed(g, op), RecordGame(b, g, op))
  {
    hide Perform, Performed, Base, UiInv, UiLegal, ScoreInv, RecordGame;
    BaseIsSafe(g);
    if op.AdvanceReveal? {
      AdvanceKeepsCandidates(g, b, op);
    } else if op.PlayAgain? {
      PlayAgainClearsBallot(g, op);
    } else {
      CandidatesStart(g, op);
      MarksNeverDrop(g, b, op);
    }
  }

  // --- moving on ---

  /** The next thing that can happen through the page: an action it offers, other than
      closing the room, or the tick that ends a countdown. */
  ghost predicate PageEvent(r: RoomValue, e: Event) {
    && LegalEvent(r, e)
    && (if r.game.phase == PhaseCountdown then e.Tick?
        else e.FromController? && e.conn.role == RoleController && Offered(r.game, e.action) && !e.action.ActCloseRoom?)
  }

  /** Something can happen that changes the game. */
  ghost predicate CanMoveOn(r: RoomValue) {
    Safe(r.game) && exists e :: PageEvent(r, e) && Step(r, e).game != r.game
  }

  lemma ActionMovesOn(r: RoomValue, conn: Conn, a: Action, newId: string, op: Op)
    requires Safe(r.game) && !r.stopped && conn.role == RoleController && r.game.phase != PhaseCountdown
    requires Offered(r.game, a) && !a.ActCloseRoom? && !a.ActKickPlayer?
    requires ControlOp(a, 0, [], newId) == Some(op) && Legal(r.game, op) && Performed(r.game, op) != r.game
    ensures CanMoveOn(r)
  {
    hide Perform, Performed, Offered, Legal, Step, Changed, Safe;
    var e := FromController(conn, a, 0, [], newId);
    MessageStep(r, e);
    assert PageEvent(r, e) && Step(r, e).game != r.game;
  }

  lemma CountdownMovesOn(r: RoomValue)
    requires Safe(r.game) && !r.stopped && r.game.phase == PhaseCountdown
    ensures CanMoveOn(r)
  {
    hide PushLog, PulledQuestion, PulledDeck;
    var e := Tick(r.game.clock.countdownEndsAt, []);
    assert Step(r, e).game.phase != PhaseCountdown;
    assert PageEvent(r, e) && Step(r, e).game != r.game;
  }

  /** An id longer than every id in use. */
  lemma {:induction false} FreshId(ps: seq<PlayerValue>) returns (id: string)
    ensures id != "" && forall i :: 0 <= i < |ps| ==> |ps[i].id| < |id|
  {
    if ps == [] {
      id := "x";
    } else {
      var rest := FreshId(ps[..|ps| - 1]);
      id := rest + ps[|ps| - 1].id;
      assert forall i :: 0 <= i < |ps| - 1 ==> ps[..|ps| - 1][i] == ps[i];
    }
  }

  lemma PlainNameIsClean()
    ensures Text.CleanName("1") == "1"
  {
    assert Text.TrimLeft(Text.GoSpace, "1") == "1" && Text.TrimRight(Text.GoSpace, "1") == "1";
  }

  lemma LobbyMovesOn(r: RoomValue, conn: Conn)
    requires Base(r.game) && !r.stopped && conn.role == RoleController && r.game.phase == PhaseLobby
    ensures CanMoveOn(r)
  {
    hide PushLog, Text.CleanName, Text.DedupeName, NamesOf, CanMoveOn;
    PlainNameIsClean();
    var id := FreshId(r.game.players);
    assert |Performed(r.game, AddPlayer("1", id, 0)).players| == |r.game.players| + 1;
    ActionMovesOn(r, conn, ActAddPlayer("1"), id, AddPlayer("1", id, 0));
  }

  lemma PlayingMovesOn(r: RoomValue, conn: Conn)
    requires Safe(r.game) && !r.stopped && conn.role == RoleController && r.game.phase == PhasePlaying
    ensures CanMoveOn(r)
  {
    hide PushLog, CanMoveOn;
    assert Performed(r.game, EndRound(0)).phase == PhaseVoting;
    ActionMovesOn(r, conn, ActEndRound, "", EndRound(0));
  }

  lemma BreakingTieMovesOn(r: RoomValue, conn: Conn)
    requires Base(r.game) && CandidatesLive(r.game) && !r.stopped && conn.role == RoleController
    requires r.game.phase == PhaseVoting && r.game.ballot.tieCandidates.Some? && r.game.ballot.tieCandidates != Some([])
    ensures CanMoveOn(r)
  {
    hide PushLog, Voting.SortDesc, Voting.TallyRows, CanMoveOn, FreshLobby, Targets;
    var id := r.game.ballot.tieCandidates.value[0];
    assert AliveListed(r.game.players, id);
    assert Find(r.game.players, id).Some?;
    assert Performed(r.game, ManualTieBreak(id, 0)).phase == PhaseElimination;
    ActionMovesOn(r, conn, ActManualTieBreak(id), "", ManualTieBreak(id, 0));
  }

  lemma AdvanceChangesReveal(g: GameValue, now: int)
    requires g.ballot.revealing && g.ballot.revealOrder.Some?
    ensures DoAdvanceReveal(g, now).Some?
    ensures DoAdvanceReveal(g, now).value.ballot.revealIndex == g.ballot.revealIndex + 1
  {
    hide PushLog, Voting.Resolve, Voting.Tally, Voting.SortDesc, Voting.TallyRows;
  }

  lemma RevealMovesOn(r: RoomValue, conn: Conn)
    requires Safe(r.game) && !r.stopped && conn.role == RoleController && r.game.phase == PhaseVoting
    requires r.game.ballot.tieCandidates.None? && (r.game.ballot.revealing ==> r.game.ballot.revealOrder.Some?)
    ensures CanMoveOn(r)
  {
    hide CanMoveOn, AliveIdx, ResolveVotes, DoAdvanceReveal;
    if r.game.ballot.revealing {
      AdvanceChangesReveal(r.game, 0);
      ActionMovesOn(r, conn, ActAdvanceReveal, "", AdvanceReveal(0));
    } else {
      assert Performed(r.game, StartVoteReveal).ballot.revealing;
      ActionMovesOn(r, conn, ActStartVoteReveal, "", StartVoteReveal);
    }
  }

  lemma EliminationMovesOn(r: RoomValue, conn: Conn)
    requires Safe(r.game) && !r.stopped && conn.role == RoleController && r.game.phase == PhaseElimination
    ensures CanMoveOn(r)
  {
    hide PushLog, AliveIdx, CanMoveOn;
    assert Performed(r.game, ContinueAfterElimination(0)).phase == PhaseCountdown;
    ActionMovesOn(r, conn, ActContinueAfterElimination, "", ContinueAfterElimination(0));
  }

  lemma MarkChangesRow(g: GameValue, i: nat, result: string, now: int, rand: seq<nat>)
    requires Safe(g) && ShootoutMarked(g) == Some(i)
    ensures DoShootoutMark(g, result, now, rand).Some? && DoShootoutMark(g, result, now, rand).value != g
  {
    hide AfterMark, Marking, Find;
    AfterMarkEffect(g, i, result, now, rand);
    assert g.players[i := ScoredPlayer(g.players[i], result)][i] != g.players[i];
  }

  lemma ShootoutMovesOn(r: RoomValue, conn: Conn)
    requires Base(r.game) && DuelInv(r.game) && !r.stopped && conn.role == RoleController
    requires r.game.phase == PhaseShootout && r.game.shootout.Some? && r.game.shootout.value.winnerId == ""
    ensures CanMoveOn(r)
  {
    hide PushLog, PulledQuestion, PulledDeck, CanMoveOn, Shape, Find, DoShootoutMark, FreshLobby, Targets;
    if r.game.shootout.value.question.Some? {
      MarkChangesRow(r.game, ShootoutMarked(r.game).value, "correct", 0, []);
      ActionMovesOn(r, conn, ActShootoutMark("correct"), "", ShootoutMark("correct", 0, []));
    } else {
      assert Performed(r.game, ShootoutNextQuestion([])).shootout.value.question.Some?;
      ActionMovesOn(r, conn, ActShootoutNextQuestion, "", ShootoutNextQuestion([]));
    }
  }

  lemma GameOverMovesOn(r: RoomValue, conn: Conn)
    requires Safe(r.game) && !r.stopped && conn.role == RoleController && r.game.phase == PhaseGameOver
    ensures CanMoveOn(r)
  {
    hide CanMoveOn, RevivedAll;
    assert Performed(r.game, PlayAgain).phase == PhaseLobby;
    ActionMovesOn(r, conn, ActPlayAgain, "", PlayAgain);
  }

  /** With a tie without candidates the page offers nothing but closing the room. */
  lemma NothingOnOffer(r: RoomValue, e: Event)
    requires r.game.phase == PhaseVoting && r.game.ballot.tieCandidates == Some([])
    ensures !PageEvent(r, e)
  {
  }

  lemma VotingMovesOnExactly(r: RoomValue, b: Book, conn: Conn)
    requires Base(r.game) && UiInv(r.game, b) && r.game.phase == PhaseVoting
    requires !r.stopped && conn.role == RoleController
    ensures CanMoveOn(r) <==> r.game.ballot.tieCandidates != Some([])
  {
    hide Base, InRound, InFinal, AfterElimination, CandidatesLive, PageEvent, Step;
    BaseIsSafe(r.game);
    if r.game.ballot.tieCandidates.None? {
      RevealMovesOn(r, conn);
    } else if r.game.ballot.tieCandidates == Some([]) {
      forall e ensures !PageEvent(r, e) {
        NothingOnOffer(r, e);
      }
    } else {
      BreakingTieMovesOn(r, conn);
    }
  }

  lemma FinalHasShootout(g: GameValue, b: Book)
    requires UiInv(g, b) && g.phase == PhaseShootout
    ensures g.shootout.Some? && g.shootout.value.winnerId == ""
  {
  }

  lemma MovesOnExactly(r: RoomValue, b: Book)
    requires Base(r.game) && DuelInv(r.game) && UiInv(r.game, b) && !r.stopped
    ensures CanMoveOn(r) <==> r.game.ballot.tieCandidates != Some([])
  {
    hide CanMoveOn, Base, DuelInv, InRound, InFinal, AfterElimination;
    BaseIsSafe(r.game);
    var conn := Conn(0, RoleController, "");
    match r.game.phase
    case PhaseLobby => LobbyMovesOn(r, conn);
    case PhaseCountdown => CountdownMovesOn(r);
    case PhasePlaying => PlayingMovesOn(r, conn);
    case PhaseVoting => VotingMovesOnExactly(r, b, conn);
    case PhaseElimination => EliminationMovesOn(r, conn);
    case PhaseShootout =>
      FinalHasShootout(r.game, b);
      ShootoutMovesOn(r, conn);
    case PhaseGameOver => GameOverMovesOn(r, conn);
  }
}
