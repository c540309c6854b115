/** Runs driven through the controller page: which actions it offers, and how rounds,
    eliminations and the roster then keep step. */
module UiRuns {
  import opened Types
  import opened Roster
  import opened Game
  import opened Actor
  import opened Basis
  import opened Ledger
  import opened ShootoutRuns
  import Duel
  import Text
  import Voting

  /** The actions the controller page shows for this state.  Closing the room is always there. */
  predicate Offered(g: GameValue, a: Action) {
    a.ActCloseRoom? ||
    match g.phase
    case PhaseLobby =>
      (a.ActStartGame? && |g.players| >= 3) || a.ActAddPlayer? || a.ActKickPlayer? || a.ActSetQuestionBank?
      || (a.ActResetQuestionBank? && g.cards.usingCustom)
    case PhaseCountdown => false
    case PhasePlaying =>
      ((a.ActMarkCorrect? || a.ActMarkIncorrect?) && g.table.question.Some?)
      || a.ActNextQuestion? || (a.ActSelectAsked? && AliveListed(g.players, a.id))
      || (a.ActBankChain? && g.table.chainIndex >= 0) || a.ActEndRound?
    case PhaseVoting =>
      if g.ballot.tieCandidates.Some? then
        a.ActManualTieBreak? && a.id in g.ballot.tieCandidates.value && Find(g.players, a.id).Some?
      else if g.ballot.revealing && g.ballot.revealOrder.Some? then a.ActAdvanceReveal?
      else a.ActStartVoteReveal?
    case PhaseElimination => a.ActContinueAfterElimination?
    case PhaseShootout =>
      if g.shootout.Some? && g.shootout.value.question.Some? then
        a.ActShootoutMark? && (a.result == "correct" || a.result == "incorrect")
      else a.ActShootoutNextQuestion?
    case PhaseGameOver => a.ActPlayAgain?
  }

  predicate UiEvent(r: RoomValue, e: Event) {
    e.FromController? ==> Offered(r.game, e.action)
  }

  /** The same guard on the operation an event leads to. */
  ghost predicate UiLegal(g: GameValue, op: Op) {
    && Legal(g, op)
    && match op
       case StartGame(_) => g.phase == PhaseLobby
       case MarkCorrect(_, _) => g.phase == PhasePlaying
       case MarkIncorrect(_, _) => g.phase == PhasePlaying
       case AdvanceReveal(_) => g.phase == PhaseVoting && g.ballot.tieCandidates.None?
       case StartVoteReveal => g.phase == PhaseVoting && g.ballot.tieCandidates.None?
       case ManualTieBreak(id, _) =>
         g.phase == PhaseVoting && g.ballot.tieCandidates.Some? && id in g.ballot.tieCandidates.value
       case ContinueAfterElimination(_) => g.phase == PhaseElimination
       case ShootoutNextQuestion(_) => g.phase == PhaseShootout
       case ShootoutMark(_, _, _) => g.phase == PhaseShootout
       case PlayAgain => g.phase == PhaseGameOver
       case _ => true
  }

  lemma OfferedIsLegal(r: RoomValue, e: Event)
    requires UiEvent(r, e) && OpOf(r, e).Some? && Legal(r.game, OpOf(r, e).value)
    ensures UiLegal(r.game, OpOf(r, e).value)
  {
  }

  function Living(g: GameValue): nat {
    |AliveIdx(g.players)|
  }

  /** Every tie candidate is a living player. */
  ghost predicate CandidatesLive(g: GameValue) {
    g.ballot.tieCandidates.Some? ==>
      forall k :: 0 <= k < |g.ballot.tieCandidates.value| ==> AliveListed(g.players, g.ballot.tieCandidates.value[k])
  }

  /** Rounds, eliminations and phase changes keep step with the n players who started.
      `stage` is how many of a round's four phase changes have happened. */
  ghost predicate InRound(g: GameValue, b: Book, stage: nat) {
    var n := |g.players|;
    && g.shootout.None? && g.table.round >= 1
    && g.table.round + Living(g) == n + 1 && Living(g) >= 3
    && b.eliminations == n - Living(g)
    && b.phaseChanges == 4 * (g.table.round - 1) + stage
  }

  ghost predicate AfterElimination(g: GameValue, b: Book) {
    var n := |g.players|;
    && g.shootout.None? && g.table.round >= 1
    && g.table.round + Living(g) == n && Living(g) >= 2
    && b.eliminations == n - Living(g)
    && b.phaseChanges == 4 * g.table.round
  }

  /** The finalists are the two survivors of n - 2 eliminations; their correct answers
      since then are their shootout scores. */
  ghost predicate InFinal(g: GameValue, b: Book, stage: nat) {
    var n := |g.players|;
    && g.shootout.Some? && Living(g) == 2 && n >= 3
    && g.shootout.value.order0 == g.players[AliveIdx(g.players)[0]].id
    && g.shootout.value.order1 == g.players[AliveIdx(g.players)[1]].id
    && b.eliminations == n - 2
    && b.phaseChanges == 4 * (n - 2) + stage
    && FinalistScores(g).0 == b.finals.0 + Duel.ScoreOf(g.shootout.value.rounds, 0)
    && FinalistScores(g).1 == b.finals.1 + Duel.ScoreOf(g.shootout.value.rounds, 1)
  }

  ghost predicate UiInv(g: GameValue, b: Book) {
    && CandidatesLive(g)
    && (g.ballot.tieCandidates.Some? ==> g.phase == PhaseVoting && !g.ballot.revealing)
    && (g.ballot.revealing ==> g.ballot.revealOrder.Some? && g.ballot.revealOrder.value != [])
    && match g.phase
       case PhaseLobby => b.eliminations == 0 && b.phaseChanges == 0
       case PhaseCountdown =>
         if g.clock.target == TargetShootout then InFinal(g, b, 1) else InRound(g, b, 1)
       case PhasePlaying => InRound(g, b, 2)
       case PhaseVoting => InRound(g, b, 3)
       case PhaseElimination => AfterElimination(g, b)
       case PhaseShootout => InFinal(g, b, 2) && g.shootout.value.winnerId == ""
       case PhaseGameOver => InFinal(g, b, 3)
  }

  // --- steps that stay within a phase ---

  predicate SameButQuestion(s: ShootoutValue, t: ShootoutValue) {
    t == s.(question := t.question)
  }

  /** Same phase, same living players, same round, reveal, final and book-keeping. */
  ghost predicate Steady(g: GameValue, h: GameValue, b: Book, c: Book) {
    && h.phase == g.phase && h.table.round == g.table.round && h.clock.target == g.clock.target
    && SameLiving(g.players, h.players)
    && h.ballot == g.ballot.(votes := h.ballot.votes)
    && h.shootout.Some? == g.shootout.Some?
    && (g.shootout.Some? ==> SameScores(g.players, h.players) && SameButQuestion(g.shootout.value, h.shootout.value))
    && c.eliminations == b.eliminations && c.phaseChanges == b.phaseChanges && c.finals == b.finals
  }

  lemma SteadyKeeps(g: GameValue, h: GameValue, b: Book, c: Book)
    requires UiInv(g, b) && Steady(g, h, b, c)
    ensures UiInv(h, c)
  {
    SameLivingIds(g.players, h.players);
    SameAlive(g.players, h.players);
    if g.shootout.Some? {
      SameIdsFind(g.players, h.players, g.shootout.value.order0);
      SameIdsFind(g.players, h.players, g.shootout.value.order1);
    }
  }

  /** Operations that never leave the phase. */
  predicate SteadyOp(op: Op) {
    op.SelectAsked? || op.NextQuestion? || op.MarkCorrect? || op.MarkIncorrect? || op.BankChain? || op.CallBank?
    || op.Vote? || op.ShootoutNextQuestion? || op.SetQuestionBank? || op.ResetQuestionBank? || op.Attach? || op.Detach?
    || RosterOp(op)
  }

  lemma SteadyShootout(g: GameValue, b: Book, op: Op)
    requires Base(g) && op.ShootoutNextQuestion? && g.phase != PhaseLobby
    ensures Steady(g, Performed(g, op), b, RecordGame(b, g, op))
  {
    hide PushLog, PulledQuestion, PulledDeck, FinalistScores, RecordMoney, RecordMarks, RecordShown, FreshLobby;
  }

  lemma SteadyPlay(g: GameValue, b: Book, op: Op)
    requires Base(g) && UiInv(g, b) && UiLegal(g, op) && g.phase != PhaseLobby && SteadyOp(op) && PlayOp(op)
    ensures Steady(g, Performed(g, op), b, RecordGame(b, g, op))
  {
    hide PushLog, PulledQuestion, PulledDeck, NextAsked, Find, AliveIdx, FinalistScores, RecordMoney,
         RecordMarks, RecordShown, AfterElimination, CandidatesLive, FreshLobby;
  }

  lemma SteadyRoster(g: GameValue, b: Book, op: Op)
    requires Base(g) && UiInv(g, b) && UiLegal(g, op) && g.phase != PhaseLobby && RosterOp(op)
    ensures Steady(g, Performed(g, op), b, RecordGame(b, g, op))
  {
    hide PushLog, Text.JoinName, Text.CleanName, Text.DedupeName, NamesOf, Find, Claimed, NameInUse, FinalistScores,
         AliveIdx, InRound, InFinal, AfterElimination, CandidatesLive;
  }

  lemma SteadyMeta(g: GameValue, b: Book, op: Op)
    requires Base(g) && UiInv(g, b) && UiLegal(g, op) && g.phase != PhaseLobby
    requires SteadyOp(op) && !PlayOp(op) && !DuelOp(op) && !RosterOp(op)
    ensures Steady(g, Performed(g, op), b, RecordGame(b, g, op))
  {
    hide PushLog, Find, AliveIdx, FinalistScores, RecordMoney, RecordMarks, RecordShown, InRound, InFinal,
         AfterElimination, CandidatesLive;
  }

  // --- steps between phases ---

  lemma LobbyHolds(g: GameValue, b: Book)
    requires Base(g) && g.phase == PhaseLobby && b.eliminations == 0 && b.phaseChanges == 0
    ensures UiInv(g, b)
  {
  }

  lemma StartGameKeeps(g: GameValue, b: Book, op: Op)
    requires Base(g) && UiInv(g, b) && UiLegal(g, op) && op.StartGame?
    ensures UiInv(Performed(g, op), RecordGame(b, g, op))
  {
    hide PushLog, AliveIdx;
    AllAlive(g.players);
  }

  lemma CountdownKeeps(g: GameValue, b: Book, op: Op)
    requires Base(g) && UiInv(g, b) && UiLegal(g, op) && op.FinishCountdown?
    ensures UiInv(Performed(g, op), RecordGame(b, g, op))
  {
    hide PushLog, PulledQuestion, PulledDeck, AliveIdx, Find;
  }

  lemma EndRoundKeeps(g: GameValue, b: Book, op: Op)
    requires Base(g) && UiInv(g, b) && UiLegal(g, op) && op.EndRound?
    ensures UiInv(Performed(g, op), RecordGame(b, g, op))
  {
    hide PushLog, AliveIdx;
  }

  lemma StartRevealKeeps(g: GameValue, b: Book, op: Op)
    requires Base(g) && UiInv(g, b) && UiLegal(g, op) && op.StartVoteReveal?
    ensures UiInv(Performed(g, op), RecordGame(b, g, op))
  {
    hide AliveIdx;
  }

  lemma FinalizeKeeps(g: GameValue, b: Book, i: nat, tally: map<string, nat>, note: string, now: int, c: Book)
    requires Base(g) && g.phase == PhaseVoting && InRound(g, b, 3)
    requires i < |g.players| && g.players[i].alive && !g.ballot.revealing
    requires c.eliminations == b.eliminations + 1 && c.phaseChanges == b.phaseChanges + 1
    ensures UiInv(FinalizeElimination(g, i, tally, note, now), c)
  {
    hide PushLog, Voting.SortDesc, Voting.TallyRows, AliveIdx;
    AliveAfterDeath(g.players, g.players[i := g.players[i].(alive := false)], i);
  }

  lemma EliminationPhase(g: GameValue, i: nat, tally: map<string, nat>, note: string, now: int)
    requires i < |g.players|
    ensures FinalizeElimination(g, i, tally, note, now).phase == PhaseElimination
  {
  }

  lemma RevealKeeps(g: GameValue, b: Book, op: Op)
    requires Base(g) && UiInv(g, b) && UiLegal(g, op) && op.AdvanceReveal?
    ensures UiInv(Performed(g, op), RecordGame(b, g, op))
  {
    hide PushLog, Voting.SortDesc, Voting.TallyRows, Voting.Tally, Voting.Resolve, AliveIdx, FinalizeElimination;
    if g.ballot.revealing {
      var next := g.ballot.revealIndex + 1;
      if next >= |g.ballot.revealOrder.value| {
        var g1 := g.(ballot := g.ballot.(revealIndex := next, revealing := false));
        Voting.ResolveNamesTheLiving(g.players, g.ballot.votes);
        match Voting.Resolve(g.players, g.ballot.votes)
        case Eliminate(i, note) =>
          EliminationPhase(g1, i, Voting.Tally(g.players, g.ballot.votes), note, op.now);
          FinalizeKeeps(g1, b, i, Voting.Tally(g.players, g.ballot.votes), note, op.now, RecordGame(b, g, op));
        case Tie(candidates) =>
      }
    }
  }

  lemma TieBreakKeeps(g: GameValue, b: Book, op: Op)
    requires Base(g) && UiInv(g, b) && UiLegal(g, op) && op.ManualTieBreak?
    ensures UiInv(Performed(g, op), RecordGame(b, g, op))
  {
    hide PushLog, Voting.SortDesc, Voting.TallyRows, AliveIdx, FinalizeElimination;
    assert AliveListed(g.players, op.id);
    var i :| 0 <= i < |g.players| && g.players[i].id == op.id && g.players[i].alive;
    FindUnique(g.players, i);
    EliminationPhase(g, i, g.ballot.tieTally, Voting.HOST_BROKE_NOTE, op.now);
    FinalizeKeeps(g, b, i, g.ballot.tieTally, Voting.HOST_BROKE_NOTE, op.now, RecordGame(b, g, op));
  }

  lemma ContinueKeeps(g: GameValue, b: Book, op: Op)
    requires Base(g) && UiInv(g, b) && UiLegal(g, op) && op.ContinueAfterElimination?
    ensures UiInv(Performed(g, op), RecordGame(b, g, op))
  {
    hide PushLog, AliveIdx, Find;
  }

  // --- the final ---

  /** A mark adds to the marked seat's score exactly when the answer is correct. */
  lemma MarkMovesScore(sh: ShootoutValue, result: string, side: nat)
    requires Shape(sh) && sh.winnerId == "" && side <= 1
    ensures Duel.ScoreOf(Duel.Recorded(sh, result).rounds, side) ==
      Duel.ScoreOf(sh.rounds, side) + (if side == sh.turn && result == Duel.CORRECT then 1 else 0)
  {
    PadOnce(sh.rounds, sh.roundIndex);
    var rounds := Duel.Recorded(sh, result).rounds;
    assert rounds[..sh.roundIndex] == sh.rounds[..sh.roundIndex];
    if sh.turn == 0 {
      assert sh.rounds[..sh.roundIndex] == sh.rounds;
    }
  }

  lemma MarkMovesCorrect(ps: seq<PlayerValue>, i: nat, p: PlayerValue, id: string)
    requires DistinctIds(ps) && i < |ps| && p.id == ps[i].id
    ensures CorrectOf(ps[i := p], id) == if id == p.id then p.correct else CorrectOf(ps, id)
  {
    assert SameIds(ps, ps[i := p]);
    SameIdsFind(ps, ps[i := p], id);
    FindUnique(ps, i);
  }

  lemma CorrectFound(ps: seq<PlayerValue>, i: nat)
    requires DistinctIds(ps) && i < |ps|
    ensures CorrectOf(ps, ps[i].id) == ps[i].correct
  {
    FindUnique(ps, i);
  }

  lemma ShapeOfQuestion(sh: ShootoutValue)
    requires Shape(sh)
    ensures sh.turn <= 1 && sh.order0 != sh.order1 && (sh.question.Some? ==> sh.winnerId == "")
  {
  }

  lemma WonMeansNamed(sh: ShootoutValue, result: string)
    requires Shape(sh) && sh.winnerId == ""
    ensures var rec := Duel.Recorded(sh, result);
      (Duel.CheckEnd(rec).Wins? <==> Duel.Checked(rec).winnerId != "")
  {
    if sh.turn == 0 {
      FirstMarkKeepsShape(sh, result);
    } else {
      SecondMarkKeepsShape(sh, result);
    }
  }

  /** A mark moves each finalist's correct answers as it moves the shootout score. */
  lemma MarkMovesFinalScores(g: GameValue, i: nat, result: string, h: GameValue)
    requires Base(g) && DuelInv(g) && ShootoutMarked(g) == Some(i) && h.shootout.Some?
    requires h.players == g.players[i := ScoredPlayer(g.players[i], result)]
    requires var sh, t := g.shootout.value, h.shootout.value;
      t.order0 == sh.order0 && t.order1 == sh.order1 && t.rounds == Duel.Recorded(sh, result).rounds
    ensures var sh, t := g.shootout.value, h.shootout.value;
      && FinalistScores(h).0 - FinalistScores(g).0 == Duel.ScoreOf(t.rounds, 0) - Duel.ScoreOf(sh.rounds, 0)
      && FinalistScores(h).1 - FinalistScores(g).1 == Duel.ScoreOf(t.rounds, 1) - Duel.ScoreOf(sh.rounds, 1)
  {
    hide Duel.Recorded, Find, Shape, CorrectOf, Duel.ScoreOf, FreshLobby, Targets;
    var sh := g.shootout.value;
    var p := ScoredPlayer(g.players[i], result);
    ShapeOfQuestion(sh);
    MarkMovesScore(sh, result, 0);
    MarkMovesScore(sh, result, 1);
    MarkMovesCorrect(g.players, i, p, sh.order0);
    MarkMovesCorrect(g.players, i, p, sh.order1);
    CorrectFound(g.players, i);
  }

  lemma MarkKeepsFinal(g: GameValue, b: Book, i: nat, result: string, now: int, rand: seq<nat>, c: Book)
    requires Base(g) && DuelInv(g) && UiInv(g, b) && g.phase == PhaseShootout && ShootoutMarked(g) == Some(i)
    requires var h := AfterMark(Marking(g, i, result, now), now, rand);
      && c.eliminations == b.eliminations && c.finals == b.finals
      && c.phaseChanges == b.phaseChanges + (if h.phase == g.phase then 0 else 1)
    ensures UiInv(AfterMark(Marking(g, i, result, now), now, rand), c)
  {
    hide AfterMark, Duel.CheckEnd, Duel.Recorded, Duel.Checked, AliveIdx, Find, Shape, FinalistScores, Duel.ScoreOf,
         FreshLobby, Targets, InRound, AfterElimination;
    var h := AfterMark(Marking(g, i, result, now), now, rand);
    ShapeOfQuestion(g.shootout.value);
    AfterMarkEffect(g, i, result, now, rand);
    MarkMovesFinalScores(g, i, result, h);
    SameAlive(g.players, h.players);
    WonMeansNamed(g.shootout.value, result);
  }

  // --- every step ---

  lemma PlayAgainIsLobby(g: GameValue, op: Op)
    requires Safe(g) && op.PlayAgain?
    ensures Performed(g, op).phase == PhaseLobby
  {
  }

  lemma SameBookSameState(g: GameValue, b: Book, c: Book)
    requires UiInv(g, b)
    requires c.eliminations == b.eliminations && c.phaseChanges == b.phaseChanges && c.finals == b.finals
    ensures UiInv(g, c)
  {
  }

  lemma MarkStaysOutOfElimination(g: GameValue, i: nat, result: string, now: int, rand: seq<nat>)
    requires g.shootout.Some? && i < |g.players| && g.phase == PhaseShootout
    ensures AfterMark(Marking(g, i, result, now), now, rand).phase in {PhaseShootout, PhaseGameOver}
  {
    hide Duel.CheckEnd, Duel.Recorded, Find;
  }

  lemma ShootoutMarkKeeps(g: GameValue, b: Book, op: Op)
    requires Base(g) && DuelInv(g) && UiInv(g, b) && UiLegal(g, op) && op.ShootoutMark?
    ensures UiInv(Performed(g, op), RecordGame(b, g, op))
  {
    hide AfterMark, Marking, UiInv, Base, DuelInv;
    assert Safe(g) by { BaseIsSafe(g); }
    assert g.phase == PhaseShootout;
    match ShootoutMarked(g)
    case None => SameBookSameState(g, b, RecordGame(b, g, op));
    case Some(i) =>
      MarkStaysOutOfElimination(g, i, op.result, op.now, op.rand);
      MarkKeepsFinal(g, b, i, op.result, op.now, op.rand, RecordGame(b, g, op));
  }

  lemma SteadyKeepsPhase(g: GameValue, op: Op)
    requires Safe(g) && SteadyOp(op)
    ensures Performed(g, op).phase == g.phase
  {
    hide PushLog, Text.JoinName, Text.CleanName, NamesOf, Find, OfflineNamesake, NextAsked, PulledQuestion, PulledDeck;
  }

  lemma SteadyOpsKeep(g: GameValue, b: Book, op: Op)
    requires Base(g) && UiInv(g, b) && UiLegal(g, op) && SteadyOp(op) && Performed(g, op).phase != PhaseLobby
    ensures UiInv(Performed(g, op), RecordGame(b, g, op))
  {
    hide UiInv, Base, Steady, Find, NextAsked, PulledQuestion, PulledDeck;
    assert Safe(g) by { BaseIsSafe(g); }
    SteadyKeepsPhase(g, op);
    if RosterOp(op) {
      SteadyRoster(g, b, op);
    } else if PlayOp(op) {
      SteadyPlay(g, b, op);
    } else if op.ShootoutNextQuestion? {
      SteadyShootout(g, b, op);
    } else {
      SteadyMeta(g, b, op);
    }
    SteadyKeeps(g, Performed(g, op), b, RecordGame(b, g, op));
  }

  lemma UiKept(g: GameValue, b: Book, op: Op)
    requires Base(g) && DuelInv(g) && UiInv(g, b) && UiLegal(g, op)
    ensures UiInv(Performed(g, op), RecordGame(b, g, op))
  {
    hide Perform, Performed, UiInv, Base, DuelInv, Steady;
    assert Safe(g) by { BaseIsSafe(g); }
    var h := Performed(g, op);
    if op.PlayAgain? {
      PlayAgainIsLobby(g, op);
    }
    if h.phase == PhaseLobby {
      BaseKept(g, op);
      LobbyHolds(h, RecordGame(b, g, op));
    } else if op.StartGame? {
      StartGameKeeps(g, b, op);
    } else if op.FinishCountdown? {
      CountdownKeeps(g, b, op);
    } else if op.EndRound? {
      EndRoundKeeps(g, b, op);
    } else if op.StartVoteReveal? {
      StartRevealKeeps(g, b, op);
    } else if op.AdvanceReveal? {
      RevealKeeps(g, b, op);
    } else if op.ManualTieBreak? {
      TieBreakKeeps(g, b, op);
    } else if op.ContinueAfterElimination? {
      ContinueKeeps(g, b, op);
    } else if op.ShootoutMark? {
      ShootoutMarkKeeps(g, b, op);
    } else {
      SteadyOpsKeep(g, b, op);
    }
  }
}
