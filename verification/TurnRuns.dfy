/** Whose turn it is: on runs through the controller page the question goes round the
    living players, so nobody answers two questions more than anybody else. */
module TurnRuns {
  import opened Types
  import opened Roster
  import opened Game
  import opened Actor
  import opened Basis
  import opened Ledger
  import opened UiRuns
  import Duel
  import Text
  import Voting

  /** While a round is ahead or in play, the player to be asked is alive. */
  ghost predicate AskedInv(g: GameValue) {
    g.phase == PhasePlaying || (g.phase == PhaseCountdown && g.clock.target == TargetRound) ==>
      AliveListed(g.players, g.table.askedId)
  }

  lemma NextAskedIsAlive(ps: seq<PlayerValue>, asked: string)
    requires AliveListed(ps, asked)
    ensures AliveListed(ps, NextAsked(ps, asked))
  {
    var i :| 0 <= i < |ps| && ps[i].id == asked && ps[i].alive;
    AliveIdxComplete(ps, i);
    AliveIdxAlive(ps);
  }

  lemma MarkKeepsAsked(g: GameValue, op: Op)
    requires Base(g) && AskedInv(g) && g.phase == PhasePlaying && (op.MarkCorrect? || op.MarkIncorrect?)
    ensures AskedInv(Performed(g, op))
  {
    hide PushLog, PulledQuestion, PulledDeck, NextAsked, AliveListed;
    match Marked(g)
    case None =>
    case Some(i) =>
      var ps := Performed(g, op).players;
      SameLivingIds(g.players, ps);
      NextAskedIsAlive(ps, g.table.askedId);
  }

  lemma ContinueAsksAlive(g: GameValue, b: Book, op: Op)
    requires Base(g) && UiInv(g, b) && UiLegal(g, op) && op.ContinueAfterElimination?
    ensures AskedInv(Performed(g, op))
  {
    hide PushLog, AliveIdx;
    AliveIdxAlive(g.players);
  }

  lemma StartAsksAlive(g: GameValue, b: Book, op: Op)
    requires Base(g) && UiLegal(g, op) && op.StartGame?
    ensures AskedInv(Performed(g, op))
  {
    hide PushLog;
    if |g.players| >= 3 {
      assert g.players[0].alive;
    }
  }

  lemma PlayKeepsAsked(g: GameValue, b: Book, op: Op)
    requires Base(g) && UiInv(g, b) && AskedInv(g) && UiLegal(g, op)
    requires PlayOp(op) && !op.MarkCorrect? && !op.MarkIncorrect? && !op.StartGame? && !op.SelectAsked?
    ensures AskedInv(Performed(g, op))
  {
    hide PushLog, PulledQuestion, PulledDeck, AliveListed, Find, AliveIdx;
    assert Performed(g, op).players == g.players;
  }

  lemma SelectKeepsAsked(g: GameValue, op: Op)
    requires Safe(g) && AskedInv(g) && op.SelectAsked?
    ensures AskedInv(Performed(g, op))
  {
  }

  lemma DuelKeepsAsked(g: GameValue, b: Book, op: Op)
    requires Base(g) && UiInv(g, b) && AskedInv(g) && UiLegal(g, op) && DuelOp(op)
    ensures AskedInv(Performed(g, op))
  {
    hide PushLog, PulledQuestion, PulledDeck, Duel.CheckEnd, AliveListed, Find, AliveIdx;
  }

  lemma OthersKeepAsked(g: GameValue, b: Book, op: Op)
    requires Base(g) && UiInv(g, b) && AskedInv(g) && UiLegal(g, op)
    requires !PlayOp(op) && !DuelOp(op) && !op.ContinueAfterElimination?
    ensures AskedInv(Performed(g, op))
  {
    hide PushLog, Text.CleanName, Text.JoinName, Text.DedupeName, NamesOf, Find, OfflineNamesake, AliveListed,
         Voting.SortDesc, Voting.TallyRows, Voting.Tally, Voting.Resolve, Voting.IdsAt, AliveIdx;
    if SameLiving(g.players, Performed(g, op).players) {
      SameLivingIds(g.players, Performed(g, op).players);
    }
  }

  lemma AskedKept(g: GameValue, b: Book, op: Op)
    requires Base(g) && UiInv(g, b) && AskedInv(g) && UiLegal(g, op)
    ensures AskedInv(Performed(g, op))
  {
    hide Perform, Performed, Base, UiInv, AskedInv;
    assert Safe(g) by { BaseIsSafe(g); }
    if op.MarkCorrect? || op.MarkIncorrect? {
      MarkKeepsAsked(g, op);
    } else if op.StartGame? {
      StartAsksAlive(g, b, op);
    } else if op.ContinueAfterElimination? {
      ContinueAsksAlive(g, b, op);
    } else if op.SelectAsked? {
      SelectKeepsAsked(g, op);
    } else if PlayOp(op) {
      PlayKeepsAsked(g, b, op);
    } else if DuelOp(op) {
      DuelKeepsAsked(g, b, op);
    } else {
      OthersKeepAsked(g, b, op);
    }
  }

  // --- one step of the rotation ---

  function Answers(p: PlayerValue): nat {
    p.correct + p.incorrect
  }

  /** It is the turn of the p-th living player. */
  ghost predicate TurnAt(g: GameValue, p: nat) {
    var alive := AliveIdx(g.players);
    p < |alive| && g.players[alive[p]].id == g.table.askedId
  }

  lemma NextInTurn(ps: seq<PlayerValue>, p: nat, asked: string)
    requires DistinctIds(ps) && p < |AliveIdx(ps)| && ps[AliveIdx(ps)[p]].id == asked
    ensures NextAsked(ps, asked) == ps[AliveIdx(ps)[(p + 1) % |AliveIdx(ps)|]].id
  {
    hide AliveIdx;
    var alive := AliveIdx(ps);
    AliveIdxAlive(ps);
    assert TurnPos(ps, alive, asked, 0) == p;
    WrapAround(p + 1, |alive|);
  }

  /** One mark: the asked player has one answer more, nobody else, and the next living
      player is up. */
  lemma MarkPassesTurn(g: GameValue, op: Op, p: nat)
    requires Base(g) && TurnAt(g, p) && (op.MarkCorrect? || op.MarkIncorrect?) && Perform(g, op).Some?
    ensures var h, alive := Performed(g, op), AliveIdx(g.players);
      && AliveIdx(h.players) == alive && |h.players| == |g.players|
      && TurnAt(h, (p + 1) % |alive|)
      && forall a :: 0 <= a < |alive| ==>
        Answers(h.players[alive[a]]) == Answers(g.players[alive[a]]) + (if a == p then 1 else 0)
  {
    hide PushLog, PulledQuestion, PulledDeck, NextAsked, AliveIdx;
    var alive := AliveIdx(g.players);
    var h := Performed(g, op);
    FindUnique(g.players, alive[p]);
    SameAlive(g.players, h.players);
    AliveIdxAlive(g.players);
    NextInTurn(h.players, p, g.table.askedId);
  }

  /** Nothing else moves the turn while a round is in play, except choosing a player. */
  lemma OthersKeepTurn(g: GameValue, b: Book, op: Op, p: nat)
    requires Base(g) && UiInv(g, b) && UiLegal(g, op) && g.phase == PhasePlaying && TurnAt(g, p)
    requires !op.SelectAsked? && ((op.MarkCorrect? || op.MarkIncorrect?) ==> Perform(g, op).None?)
    ensures var h := Performed(g, op);
      && AliveIdx(h.players) == AliveIdx(g.players) && |h.players| == |g.players|
      && TurnAt(h, p)
      && forall i :: 0 <= i < |g.players| ==> Answers(h.players[i]) == Answers(g.players[i])
  {
    hide PushLog, PulledQuestion, PulledDeck, Duel.CheckEnd, AliveIdx, Find, OfflineNamesake, NamesOf,
         Text.CleanName, Text.JoinName, Text.DedupeName;
    SameAlive(g.players, Performed(g, op).players);
  }

  // --- how often each position is up in d marks ---

  /** How many of the turns p, p+1, ..., p+d-1 (cyclically, of m) fall on position a. */
  function Turns(p: nat, d: nat, m: nat, a: nat): nat
    requires m > 0
  {
    if d == 0 then 0 else Turns(p, d - 1, m, a) + (if (p + d - 1) % m == a then 1 else 0)
  }

  lemma ModOnce(x: nat, m: nat)
    requires m > 0 && x < 2 * m
    ensures x % m == if x < m then x else x - m
  {
  }

  /** In fewer than a full round nobody is up twice. */
  lemma {:induction false} PartRound(p: nat, d: nat, m: nat, a: nat)
    requires m > 0 && d <= m && a < m && p < m
    ensures Turns(p, d, m, a) == if (p <= a < p + d) || (a + m < p + d) then 1 else 0
  {
    if d > 0 {
      PartRound(p, d - 1, m, a);
      if p + d - 1 >= m {
        assert (p + d - 1) % m == p + d - 1 - m by { ModOnce(p + d - 1, m); }
      } else {
        ModOnce(p + d - 1, m);
      }
    }
  }

  lemma MultiplesAreFar(d: int, m: nat)
    ensures d == 0 || d * m >= m || d * m <= -(m as int)
  {
  }

  lemma DivModUnique(x: nat, m: nat, q: nat, r: nat)
    requires m > 0 && r < m && x == q * m + r
    ensures x % m == r
  {
    var d := x / m - q;
    assert d * m + (x % m - r) == 0;
    MultiplesAreFar(d, m);
  }

  lemma ModShift(x: nat, m: nat)
    requires m > 0
    ensures (x + m) % m == x % m
  {
    var q, r := x / m, x % m;
    assert x + m == (q + 1) * m + r;
    DivModUnique(x + m, m, q + 1, r);
  }

  /** A full round more is one turn more for everybody. */
  lemma {:induction false} FullRound(p: nat, d: nat, m: nat, a: nat)
    requires m > 0 && a < m && p < m
    ensures Turns(p, d + m, m, a) == Turns(p, d, m, a) + 1
  {
    if d == 0 {
      PartRound(p, m, m, a);
    } else {
      FullRound(p, d - 1, m, a);
      ModShift(p + d - 1, m);
      assert p + (d + m) - 1 == p + d - 1 + m && d + m - 1 == d - 1 + m;
    }
  }

  /** Turns are shared out evenly: never more than one apart, and a whole round is one each. */
  lemma {:induction false} TurnsAreEven(p: nat, d: nat, m: nat, a: nat, c: nat)
    requires m > 0 && a < m && c < m && p < m
    ensures -1 <= Turns(p, d, m, a) - Turns(p, d, m, c) <= 1
    ensures d == m ==> Turns(p, d, m, a) == 1
    decreases d
  {
    if d < m {
      PartRound(p, d, m, a);
      PartRound(p, d, m, c);
    } else {
      FullRound(p, d - m, m, a);
      FullRound(p, d - m, m, c);
      TurnsAreEven(p, d - m, m, a, c);
      if d == m {
        PartRound(p, m, m, a);
      }
    }
  }
}
