/** The shape of the shootout record in every reachable state, and with it the
    exactness of the rule on every run. */
module ShootoutRuns {
  import opened Types
  import opened Roster
  import opened Duel
  import opened Game
  import opened Actor
  import opened Basis
  import opened ShootoutRule
  import Voting
  import Text

  predicate Complete(w: Wave) {
    w.p0.Some? && w.p1.Some?
  }

  function PairOf(w: Wave): Pair {
    Pair(w.p0 == Some(CORRECT), w.p1 == Some(CORRECT))
  }

  function Pairs(rounds: seq<Wave>): (r: seq<Pair>)
    ensures |r| == |rounds| && forall k :: 0 <= k < |r| ==> r[k] == PairOf(rounds[k])
  {
    seq(|rounds|, k requires 0 <= k < |rounds| => PairOf(rounds[k]))
  }

  lemma {:induction false} PairsScore(rounds: seq<Wave>, side: nat)
    ensures Points(Pairs(rounds), side) == ScoreOf(rounds, side)
  {
    if rounds != [] {
      PairsScore(rounds[..|rounds| - 1], side);
      assert Pairs(rounds)[..|rounds| - 1] == Pairs(rounds[..|rounds| - 1]);
    }
  }

  /** No winner yet: the waves before the current one are complete and undecided, and
      seat 0 has answered in the current wave exactly when it is seat 1's turn. */
  ghost predicate Ongoing(sh: ShootoutValue) {
    && |sh.rounds| == sh.roundIndex + sh.turn
    && (forall k :: 0 <= k < sh.roundIndex ==> Complete(sh.rounds[k]))
    && (sh.turn == 1 ==> sh.rounds[sh.roundIndex].p0.Some? && sh.rounds[sh.roundIndex].p1.None?)
    && Running(Pairs(sh.rounds[..sh.roundIndex]))
  }

  /** A winner: the last wave is complete and is the first at which the engine stops. */
  ghost predicate Won(sh: ShootoutValue) {
    && sh.question.None? && sh.turn == 1
    && |sh.rounds| == sh.roundIndex + 1
    && (forall k :: 0 <= k < |sh.rounds| ==> Complete(sh.rounds[k]))
    && Running(Pairs(sh.rounds[..sh.roundIndex]))
    && Stop(Pairs(sh.rounds)).Some?
    && sh.winnerId == Seat(sh, Stop(Pairs(sh.rounds)).value)
  }

  ghost predicate Shape(sh: ShootoutValue) {
    && sh.order0 != "" && sh.order1 != "" && sh.order0 != sh.order1
    && sh.turn <= 1
    && (sh.sudden <==> sh.roundIndex >= REGULATION_ROUNDS)
    && (if sh.winnerId == "" then Ongoing(sh) else Won(sh))
  }

  /** The shootout of a game, if any, is in shape and its finalists are on the roster. */
  ghost predicate DuelInv(g: GameValue) {
    g.shootout.Some? ==>
      && Shape(g.shootout.value)
      && Find(g.players, g.shootout.value.order0).Some?
      && Find(g.players, g.shootout.value.order1).Some?
  }

  // --- one mark ---

  lemma PadOnce(rounds: seq<Wave>, n: nat)
    requires n <= |rounds| <= n + 1
    ensures Pad(rounds, n) == if |rounds| == n then rounds + [Wave(None, None)] else rounds
  {
  }

  /** The end check is the stopping rule, at the end of a wave; before that it is silent. */
  lemma CheckIsStop(sh: ShootoutValue)
    requires sh.turn <= 1 && |sh.rounds| == sh.roundIndex + 1
    requires forall k :: 0 <= k < sh.roundIndex + sh.turn ==> Complete(sh.rounds[k])
    requires sh.turn == 0 ==> sh.rounds[sh.roundIndex].p1.None?
    requires Running(Pairs(sh.rounds[..sh.roundIndex]))
    requires sh.sudden <==> sh.roundIndex >= REGULATION_ROUNDS
    ensures sh.turn == 0 ==> CheckEnd(sh) == GoOn
    ensures sh.turn == 1 ==>
      match Stop(Pairs(sh.rounds))
      case Some(w) => CheckEnd(sh) == Wins(w)
      case None => CheckEnd(sh) == if sh.roundIndex + 1 == REGULATION_ROUNDS then GoSudden else GoOn
  {
    PairsScore(sh.rounds, 0);
    PairsScore(sh.rounds, 1);
  }

  lemma RunningGrows(rounds: seq<Wave>, n: nat)
    requires |rounds| == n + 1 && Running(Pairs(rounds[..n])) && Stop(Pairs(rounds)) == None
    ensures Running(Pairs(rounds))
  {
    var ws := Pairs(rounds);
    forall k | 0 < k <= |ws| ensures Stop(ws[..k]) == None {
      if k <= n {
        assert ws[..k] == Pairs(rounds[..n])[..k];
      } else {
        assert ws[..k] == ws;
      }
    }
  }

  lemma FirstMarkKeepsShape(sh: ShootoutValue, result: string)
    requires Shape(sh) && sh.winnerId == "" && sh.turn == 0
    ensures CheckEnd(Recorded(sh, result)) == GoOn && Shape(Passed(Recorded(sh, result)))
  {
    hide CheckEnd, Stop, Running;
    PadOnce(sh.rounds, sh.roundIndex);
    var rec := Recorded(sh, result);
    assert sh.rounds[..sh.roundIndex] == sh.rounds;
    assert rec.rounds[..sh.roundIndex] == sh.rounds;
    CheckIsStop(rec);
  }

  lemma SecondMarkKeepsShape(sh: ShootoutValue, result: string)
    requires Shape(sh) && sh.winnerId == "" && sh.turn == 1
    ensures var rec := Recorded(sh, result);
      if CheckEnd(rec).Wins? then Shape(Checked(rec)) && Checked(rec).winnerId != ""
      else Shape(Passed(Checked(rec))) && Checked(rec).winnerId == ""
  {
    hide CheckEnd, Stop, Running;
    PadOnce(sh.rounds, sh.roundIndex);
    var rec := Recorded(sh, result);
    assert rec.rounds[..sh.roundIndex] == sh.rounds[..sh.roundIndex];
    CheckIsStop(rec);
    if Stop(Pairs(rec.rounds)).None? {
      RunningGrows(rec.rounds, sh.roundIndex);
      assert rec.rounds[..sh.roundIndex + 1] == rec.rounds;
    }
  }

  // --- every operation ---

  lemma DuelKeptByEdit(g: GameValue, h: GameValue)
    requires DuelInv(g) && SameIds(g.players, h.players)
    requires h.shootout == g.shootout
      || (h.shootout.Some? && g.shootout.Some? && g.shootout.value.winnerId == ""
          && h.shootout.value == g.shootout.value.(question := h.shootout.value.question))
    ensures DuelInv(h)
  {
    if g.shootout.Some? {
      SameIdsFind(g.players, h.players, g.shootout.value.order0);
      SameIdsFind(g.players, h.players, g.shootout.value.order1);
    }
  }

  lemma DuelKeptPlay(g: GameValue, op: Op)
    requires Base(g) && DuelInv(g) && Legal(g, op) && PlayOp(op)
    ensures DuelInv(Performed(g, op))
  {
    hide PushLog, PulledQuestion, PulledDeck, NextAsked, Find;
    DuelKeptByEdit(g, Performed(g, op));
  }

  lemma DuelKeptMeta(g: GameValue, op: Op)
    requires Base(g) && DuelInv(g) && Legal(g, op) && MetaOp(op)
    ensures DuelInv(Performed(g, op))
  {
    hide PushLog, Find;
    if !op.PlayAgain? {
      DuelKeptByEdit(g, Performed(g, op));
    }
  }

  lemma NoDuel(g: GameValue)
    requires g.shootout == None
    ensures DuelInv(g)
  {
  }

  lemma DuelKeptRoster(g: GameValue, op: Op)
    requires Base(g) && DuelInv(g) && Legal(g, op) && RosterOp(op)
    ensures DuelInv(Performed(g, op))
  {
    hide PushLog, Text.CleanName, Text.JoinName, Text.DedupeName, NamesOf, Find, OfflineNamesake, DuelInv;
    var h := Performed(g, op);
    if g.phase == PhaseLobby {
      assert h.shootout == None;
      NoDuel(h);
    } else {
      DuelKeptByEdit(g, h);
    }
  }

  lemma NewDuelInShape(g: GameValue, now: int)
    requires Base(g) && |AliveIdx(g.players)| == 2
    ensures DuelInv(DoContinueAfterElimination(g, now).value)
  {
    hide PushLog;
    var alive := AliveIdx(g.players);
    AliveIdxAlive(g.players);
    FindUnique(g.players, alive[0]);
    FindUnique(g.players, alive[1]);
  }

  lemma DuelKeptBallot(g: GameValue, op: Op)
    requires Base(g) && DuelInv(g) && Legal(g, op) && BallotOp(op)
    ensures DuelInv(Performed(g, op))
  {
    hide PushLog, Voting.SortDesc, Voting.TallyRows, Voting.Tally, Voting.Resolve, Voting.IdsAt, AliveIdx, Find,
         DuelInv;
    if op.ContinueAfterElimination? && |AliveIdx(g.players)| == 2 {
      NewDuelInShape(g, op.now);
    } else {
      DuelKeptByEdit(g, Performed(g, op));
    }
  }

  lemma DuelKeptByMark(g: GameValue, i: nat, result: string, now: int, rand: seq<nat>)
    requires Base(g) && DuelInv(g) && ShootoutMarked(g) == Some(i)
    ensures DuelInv(AfterMark(Marking(g, i, result, now), now, rand))
  {
    hide PushLog, PulledQuestion, PulledDeck, CheckEnd, Recorded, Find, Running, Stop;
    var sh := g.shootout.value;
    RecordedFrame(sh, result);
    var m := Marking(g, i, result, now);
    var h := AfterMark(m, now, rand);
    if sh.turn == 0 {
      FirstMarkKeepsShape(sh, result);
    } else {
      SecondMarkKeepsShape(sh, result);
    }
    assert SameIds(g.players, h.players);
    SameIdsFind(g.players, h.players, sh.order0);
    SameIdsFind(g.players, h.players, sh.order1);
  }

  lemma DuelKept(g: GameValue, op: Op)
    requires Base(g) && DuelInv(g) && Legal(g, op)
    ensures DuelInv(Performed(g, op))
  {
    if PlayOp(op) {
      DuelKeptPlay(g, op);
    } else if BallotOp(op) {
      DuelKeptBallot(g, op);
    } else if RosterOp(op) {
      DuelKeptRoster(g, op);
    } else if MetaOp(op) {
      DuelKeptMeta(g, op);
    } else if op.ShootoutMark? && ShootoutMarked(g).Some? {
      DuelKeptByMark(g, ShootoutMarked(g).value, op.result, op.now, op.rand);
    } else {
      DuelKeptByEdit(g, Performed(g, op));
    }
  }

  // --- what the shape says about the result ---

  /** The shootout ends at the earliest wave boundary at which the rule has decided, and
      for the seat it has decided for. */
  lemma ShootoutIsExact(sh: ShootoutValue)
    requires Shape(sh)
    ensures sh.winnerId == "" ==> Open(Pairs(sh.rounds[..sh.roundIndex]))
    ensures sh.winnerId != "" ==> exists side: nat ::
      side <= 1 && sh.winnerId == Seat(sh, side) && Settled(Pairs(sh.rounds), side)
    ensures sh.winnerId != "" ==> forall k :: 0 <= k < |sh.rounds| ==> Open(Pairs(sh.rounds)[..k])
  {
    if sh.winnerId == "" {
      PlayingOnMeansOpen(Pairs(sh.rounds[..sh.roundIndex]));
    } else {
      var ws := Pairs(sh.rounds);
      assert ws[..|ws| - 1] == Pairs(sh.rounds[..sh.roundIndex]);
      StoppingMeansSettled(ws);
    }
  }

  /** Sudden death is level; before it, an undecided lead can still be made up. */
  lemma UndecidedScores(sh: ShootoutValue)
    requires Shape(sh) && sh.winnerId == ""
    ensures var played := sh.rounds[..sh.roundIndex];
      if sh.sudden then ScoreOf(played, 0) == ScoreOf(played, 1)
      else -(REGULATION_ROUNDS - sh.roundIndex) <= ScoreOf(played, 0) - ScoreOf(played, 1)
           <= REGULATION_ROUNDS - sh.roundIndex
  {
    var played := sh.rounds[..sh.roundIndex];
    PairsScore(played, 0);
    PairsScore(played, 1);
    if sh.sudden {
      SuddenDeathIsLevel(Pairs(played));
    } else {
      RunningInRegulation(Pairs(played));
    }
  }
}
