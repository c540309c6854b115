/** Whose name is announced at the end: what every operation keeps. */
module WinnerRuns {
  import opened Types
  import opened Roster
  import opened Game
  import opened Actor
  import opened Basis
  import opened ShootoutRuns
  import opened Meaning
  import Duel
  import Text
  import Voting

  /** A winner's name is the name of the row with the winner's id; the game is over only
      with a winner. */
  ghost predicate WinnerInv(g: GameValue) {
    && (g.shootout.Some? && g.shootout.value.winnerId != "" ==> Announced(g, g.shootout.value.winnerId))
    && (g.phase == PhaseGameOver ==> g.shootout.Some? && g.shootout.value.winnerId != "")
  }

  /** Nothing about the winner has changed. */
  ghost predicate SameWinner(g: GameValue, h: GameValue) {
    && h.winner == g.winner && h.shootout.Some? == g.shootout.Some?
    && (g.shootout.Some? ==> h.shootout.value.winnerId == g.shootout.value.winnerId)
    && (h.phase == PhaseGameOver ==> g.phase == PhaseGameOver)
    && |h.players| == |g.players|
    && forall k :: 0 <= k < |g.players| ==> h.players[k].id == g.players[k].id && h.players[k].name == g.players[k].name
  }

  lemma SameWinnerKeeps(g: GameValue, h: GameValue)
    requires WinnerInv(g) && SameWinner(g, h)
    ensures WinnerInv(h)
  {
    if g.shootout.Some? && g.shootout.value.winnerId != "" {
      var k :| 0 <= k < |g.players| && g.players[k].id == g.shootout.value.winnerId && g.winner == g.players[k].name;
      assert h.players[k].id == h.shootout.value.winnerId;
    }
  }

  lemma WinnerKeptPlay(g: GameValue, op: Op)
    requires Safe(g) && Legal(g, op) && PlayOp(op)
    ensures SameWinner(g, Performed(g, op))
  {
    hide PushLog, PulledQuestion, PulledDeck, NextAsked, Find;
  }

  lemma WinnerKeptBallot(g: GameValue, op: Op)
    requires Safe(g) && BallotOp(op) && !op.ContinueAfterElimination?
    ensures SameWinner(g, Performed(g, op))
  {
    hide PushLog, Voting.SortDesc, Voting.TallyRows, Voting.Tally, Voting.Resolve, Voting.IdsAt, AliveIdx, Find;
  }

  lemma WinnerKeptContinue(g: GameValue, now: int)
    requires WinnerInv(g)
    ensures WinnerInv(DoContinueAfterElimination(g, now).value)
  {
    hide PushLog, AliveIdx;
  }

  lemma WinnerKeptMeta(g: GameValue, op: Op)
    requires Safe(g) && MetaOp(op) && !op.PlayAgain?
    ensures SameWinner(g, Performed(g, op))
  {
    hide PushLog, Find;
  }

  lemma WinnerKeptPlayAgain(g: GameValue)
    ensures WinnerInv(DoPlayAgain(g))
  {
  }

  lemma RosterKeepsNames(g: GameValue, op: Op)
    requires Safe(g) && RosterOp(op) && g.phase != PhaseLobby
    ensures SameWinner(g, Performed(g, op))
  {
    hide PushLog, Text.CleanName, Text.JoinName, Text.DedupeName, Text.EqualFold, NamesOf, NameInUse, Find, Claimed;
  }

  lemma WinnerKeptRoster(g: GameValue, op: Op)
    requires Base(g) && WinnerInv(g) && Legal(g, op) && RosterOp(op)
    ensures WinnerInv(Performed(g, op))
  {
    hide Perform, Performed, FreshRows, Ids;
    RosterOpEffect(g, op);
    if g.phase != PhaseLobby {
      RosterKeepsNames(g, op);
      SameWinnerKeeps(g, Performed(g, op));
    }
  }

  lemma WinnerKeptQuestion(g: GameValue, op: Op)
    requires Safe(g) && op.ShootoutNextQuestion?
    ensures SameWinner(g, Performed(g, op))
  {
    hide PulledQuestion, PulledDeck;
  }

  lemma QuestionMeansOpen(sh: ShootoutValue)
    requires Shape(sh) && sh.question.Some?
    ensures sh.winnerId == ""
  {
  }

  lemma WinnerKeptMark(g: GameValue, result: string, now: int, rand: seq<nat>)
    requires Base(g) && DuelInv(g) && WinnerInv(g)
    ensures WinnerInv(Apply(g, DoShootoutMark(g, result, now, rand)))
  {
    hide DoShootoutMark, Base, OneMoreRight, OneMoreWrong, Announced, Shape, Mark;
    BaseIsSafe(g);
    KickMeans(g, result, now, rand);
    if g.shootout.Some? && g.shootout.value.question.Some? {
      QuestionMeansOpen(g.shootout.value);
    }
  }

  lemma WinnerKept(g: GameValue, op: Op)
    requires Base(g) && DuelInv(g) && WinnerInv(g) && Legal(g, op)
    ensures WinnerInv(Performed(g, op))
  {
    hide Base, DuelInv, WinnerInv, SameWinner, DoContinueAfterElimination, DoPlayAgain, DoShootoutMark;
    BaseIsSafe(g);
    if op.ContinueAfterElimination? {
      WinnerKeptContinue(g, op.now);
    } else if op.PlayAgain? {
      WinnerKeptPlayAgain(g);
    } else if op.ShootoutMark? {
      WinnerKeptMark(g, op.result, op.now, op.rand);
    } else if RosterOp(op) {
      WinnerKeptRoster(g, op);
    } else {
      if PlayOp(op) {
        WinnerKeptPlay(g, op);
      } else if BallotOp(op) {
        WinnerKeptBallot(g, op);
      } else if op.ShootoutNextQuestion? {
        WinnerKeptQuestion(g, op);
      } else {
        WinnerKeptMeta(g, op);
      }
      SameWinnerKeeps(g, Performed(g, op));
    }
  }

  /** Once a game is over only continuing, playing again or starting leads on; a winner is set
      by no event that does not end the game. */
  lemma WinnerEndsGame(g: GameValue, op: Op)
    requires Base(g) && DuelInv(g) && WinnerInv(g) && Legal(g, op)
    requires g.shootout.Some? && g.shootout.value.winnerId == ""
    requires var h := Performed(g, op); h.shootout.Some? && h.shootout.value.winnerId != ""
    ensures op.ShootoutMark? && g.phase != PhaseGameOver && Performed(g, op).phase == PhaseGameOver
  {
    hide Base, DuelInv, DoContinueAfterElimination, DoPlayAgain, DoShootoutMark, Announced, FreshLobby;
    BaseIsSafe(g);
    if op.ShootoutMark? {
      KickMeans(g, op.result, op.now, op.rand);
    } else if op.ContinueAfterElimination? {
      ContinueMeans(g, op.now);
    } else if op.PlayAgain? {
      PlayAgainMeans(g);
    } else if RosterOp(op) {
      RosterOpEffect(g, op);
    } else if PlayOp(op) {
      WinnerKeptPlay(g, op);
    } else if BallotOp(op) {
      WinnerKeptBallot(g, op);
    } else if op.ShootoutNextQuestion? {
      WinnerKeptQuestion(g, op);
    } else {
      WinnerKeptMeta(g, op);
    }
  }
}
