/** Money, marks and cards: the engine's counters against the onlooker's book. */
module MoneyRuns {
  import opened Types
  import opened Roster
  import opened Game
  import opened Actor
  import opened Basis
  import opened Ledger
  import Deck
  import Duel
  import Text
  import Voting

  function SumCorrect(ps: seq<PlayerValue>): nat {
    if ps == [] then 0 else SumCorrect(ps[..|ps| - 1]) + ps[|ps| - 1].correct
  }

  function SumIncorrect(ps: seq<PlayerValue>): nat {
    if ps == [] then 0 else SumIncorrect(ps[..|ps| - 1]) + ps[|ps| - 1].incorrect
  }

  lemma {:induction false} SameSums(ps: seq<PlayerValue>, qs: seq<PlayerValue>)
    requires SameScores(ps, qs)
    ensures SumCorrect(ps) == SumCorrect(qs) && SumIncorrect(ps) == SumIncorrect(qs)
  {
    if ps != [] {
      SameSums(ps[..|ps| - 1], qs[..|qs| - 1]);
    }
  }

  /** One row changed: the sums move by that row's change. */
  lemma {:induction false} SumsAfterEdit(ps: seq<PlayerValue>, i: nat, p: PlayerValue)
    requires i < |ps|
    ensures SumCorrect(ps[i := p]) == SumCorrect(ps) - ps[i].correct + p.correct
    ensures SumIncorrect(ps[i := p]) == SumIncorrect(ps) - ps[i].incorrect + p.incorrect
  {
    var n := |ps| - 1;
    if i < n {
      SumsAfterEdit(ps[..n], i, p);
      assert ps[i := p][..n] == ps[..n][i := p];
    } else {
      assert ps[i := p][..n] == ps[..n];
    }
  }

  ghost predicate NoScores(ps: seq<PlayerValue>) {
    forall i :: 0 <= i < |ps| ==> ps[i].correct == 0 && ps[i].incorrect == 0
  }

  lemma {:induction false} NoSums(ps: seq<PlayerValue>)
    requires NoScores(ps)
    ensures SumCorrect(ps) == 0 && SumIncorrect(ps) == 0
  {
    if ps != [] {
      NoSums(ps[..|ps| - 1]);
    }
  }

  /** Marks are conserved: every accepted mark is on exactly one player's count. */
  ghost predicate MarksInv(g: GameValue, b: Book) {
    SumCorrect(g.players) + SumIncorrect(g.players) == b.marks
  }

  /** The chain and the bank are what the money events are worth. */
  ghost predicate MoneyInv(g: GameValue, b: Book) {
    && g.table.chainIndex == LadderSteps(b.money) - 1
    && g.table.bank == Winnings(b.money)
  }

  /** Thirteen right answers buy at most the top of the ladder. */
  ghost predicate BankBound(g: GameValue) {
    13 * g.table.bank + 1000 * (g.table.chainIndex + 1) <= 1000 * SumCorrect(g.players)
  }

  ghost predicate ScoreInv(g: GameValue, b: Book) {
    && MarksInv(g, b) && MoneyInv(g, b) && BankBound(g)
    && (g.phase == PhaseLobby ==> b.marks == 0 && b.money == [])
  }

  /** Operations that leave every score, the chain and the bank alone. */
  predicate Scoreless(g: GameValue, op: Op) {
    op.SelectAsked? || op.NextQuestion? || op.EndRound? || op.FinishCountdown? || op.ShootoutNextQuestion?
    || op.StartVoteReveal? || op.AdvanceReveal? || op.ManualTieBreak? || op.Vote?
    || (op.ContinueAfterElimination? && |AliveIdx(g.players)| == 2)
    || op.SetQuestionBank? || op.ResetQuestionBank? || op.Attach? || op.Detach?
  }

  lemma ScorelessKeeps(g: GameValue, op: Op)
    requires Safe(g) && Scoreless(g, op)
    ensures var h := Performed(g, op);
      SameScores(g.players, h.players) && h.table.chainIndex == g.table.chainIndex && h.table.bank == g.table.bank
    ensures Performed(g, op).phase == PhaseLobby ==> g.phase == PhaseLobby
  {
    hide PushLog, PulledQuestion, PulledDeck, Voting.SortDesc, Voting.TallyRows, Voting.Tally, Voting.Resolve,
         Voting.IdsAt, AliveIdx, Find;
  }

  lemma MoneyGrows(money: seq<Money>, m: Money)
    ensures Streak(money + [m]) == if m == Right then Streak(money) + 1 else 0
    ensures Winnings(money + [m]) == Winnings(money) +
      if m == Banking && LadderSteps(money) > 0 then CHAIN_VALUES[LadderSteps(money) - 1] else 0
  {
    assert (money + [m])[..|money + [m]| - 1] == money;
  }

  lemma LadderRate(i: int)
    requires 0 <= i < |CHAIN_VALUES|
    ensures 13 * CHAIN_VALUES[i] <= 1000 * (i + 1)
  {
  }

  lemma MarkCorrectScores(g: GameValue, b: Book, op: Op)
    requires Base(g) && ScoreInv(g, b) && op.MarkCorrect?
    ensures ScoreInv(Performed(g, op), RecordGame(b, g, op))
  {
    hide PushLog, PulledQuestion, PulledDeck, NextAsked, Find, Streak, Winnings, RecordShown, FinalistScores,
         FreshRows, Targets;
    MoneyGrows(b.money, Right);
    match Marked(g)
    case None =>
    case Some(i) =>
      SumsAfterEdit(g.players, i, g.players[i].(correct := g.players[i].correct + 1));
  }

  lemma MarkIncorrectScores(g: GameValue, b: Book, op: Op)
    requires Base(g) && ScoreInv(g, b) && op.MarkIncorrect?
    ensures ScoreInv(Performed(g, op), RecordGame(b, g, op))
  {
    hide PushLog, PulledQuestion, PulledDeck, NextAsked, Find, Streak, Winnings, RecordShown, FinalistScores,
         FreshRows, Targets;
    MoneyGrows(b.money, ChainReset);
    match Marked(g)
    case None =>
    case Some(i) =>
      SumsAfterEdit(g.players, i, g.players[i].(incorrect := g.players[i].incorrect + 1));
  }

  lemma ShootoutMarkScores(g: GameValue, b: Book, op: Op)
    requires Base(g) && ScoreInv(g, b) && op.ShootoutMark?
    ensures ScoreInv(Performed(g, op), RecordGame(b, g, op))
  {
    hide Duel.Recorded, Find, Streak, Winnings, AfterMark, PushLog;
    match ShootoutMarked(g)
    case None =>
    case Some(i) =>
      SumsAfterEdit(g.players, i, ScoredPlayer(g.players[i], op.result));
      AfterMarkEffect(g, i, op.result, op.now, op.rand);
  }

  lemma BankingScores(g: GameValue, b: Book, op: Op)
    requires Base(g) && ScoreInv(g, b) && (op.BankChain? || op.CallBank?)
    ensures ScoreInv(Performed(g, op), RecordGame(b, g, op))
  {
    hide PushLog, Find, Streak, Winnings;
    MoneyGrows(b.money, Banking);
    if g.table.chainIndex >= 0 {
      LadderRate(g.table.chainIndex);
    }
  }

  lemma ChainResetScores(g: GameValue, b: Book, op: Op)
    requires Base(g) && ScoreInv(g, b)
    requires op.StartGame? || (op.ContinueAfterElimination? && |AliveIdx(g.players)| != 2)
    ensures ScoreInv(Performed(g, op), RecordGame(b, g, op))
  {
    hide PushLog, Streak, Winnings, AliveIdx;
    MoneyGrows(b.money, ChainReset);
  }

  lemma RosterKeepsScores(g: GameValue, op: Op)
    requires Base(g) && Legal(g, op) && RosterOp(op)
    ensures var h := Performed(g, op);
      && h.phase == g.phase && h.table == g.table
      && (if g.phase == PhaseLobby then NoScores(h.players) else SameScores(g.players, h.players))
  {
    hide PushLog, Text.CleanName, Text.JoinName, Text.DedupeName, NamesOf, Find, OfflineNamesake;
  }

  lemma RosterScores(g: GameValue, b: Book, op: Op)
    requires Base(g) && Legal(g, op) && ScoreInv(g, b) && RosterOp(op)
    ensures ScoreInv(Performed(g, op), RecordGame(b, g, op))
  {
    hide Perform, Performed;
    RosterKeepsScores(g, op);
    var h := Performed(g, op);
    if g.phase == PhaseLobby {
      NoSums(h.players);
    } else {
      SameSums(g.players, h.players);
    }
  }

  lemma PlayAgainScores(g: GameValue, b: Book, op: Op)
    requires Base(g) && ScoreInv(g, b) && op.PlayAgain?
    ensures ScoreInv(Performed(g, op), RecordGame(b, g, op))
  {
    NoSums(Performed(g, op).players);
  }

  lemma ScoresKept(g: GameValue, b: Book, op: Op)
    requires Base(g) && Legal(g, op) && ScoreInv(g, b)
    ensures ScoreInv(Performed(g, op), RecordGame(b, g, op))
  {
    hide Perform, Performed;
    if op.MarkCorrect? {
      MarkCorrectScores(g, b, op);
    } else if op.MarkIncorrect? {
      MarkIncorrectScores(g, b, op);
    } else if op.ShootoutMark? {
      ShootoutMarkScores(g, b, op);
    } else if op.BankChain? || op.CallBank? {
      BankingScores(g, b, op);
    } else if op.PlayAgain? {
      PlayAgainScores(g, b, op);
    } else if RosterOp(op) {
      RosterScores(g, b, op);
    } else if op.StartGame? || (op.ContinueAfterElimination? && |AliveIdx(g.players)| != 2) {
      ChainResetScores(g, b, op);
    } else {
      ScorelessKeeps(g, op);
      SameSums(g.players, Performed(g, op).players);
    }
  }

  // --- cards ---

  /** The pile is the rest of one shuffle of the bank in use, and the questions shown since
      it was last thrown away were dealt in whole rounds of the bank. */
  ghost predicate CardsInv(g: GameValue, b: Book) {
    && Deck.DeckOf(g.cards.questionBank, g.cards.deck)
    && (g.cards.questionBank != [] ==> Deck.Dealt(g.cards.questionBank, b.shown, g.cards.deck))
  }

  function RandOf(op: Op): seq<nat> {
    match op
    case SelectAsked(_, rand) => rand
    case NextQuestion(rand) => rand
    case MarkCorrect(_, rand) => rand
    case MarkIncorrect(_, rand) => rand
    case ShootoutNextQuestion(rand) => rand
    case ShootoutMark(_, _, rand) => rand
    case FinishCountdown(_, rand) => rand
    case _ => []
  }

  ghost predicate DrewOne(g: GameValue, op: Op, h: GameValue) {
    && h.cards == g.cards.(deck := PulledDeck(g, RandOf(op)))
    && NewQuestion(op, h) == Some(PulledQuestion(g, RandOf(op)))
  }

  /** An operation either shows the next card of the pile, or shows nothing and leaves
      the cards alone, or throws the pile away. */
  lemma DrawsPlay(g: GameValue, op: Op)
    requires Safe(g) && (PlayOp(op) || DuelOp(op))
    ensures var h := Performed(g, op);
      if Perform(g, op).Some? && NewQuestion(op, h).Some? then DrewOne(g, op, h) else h.cards == g.cards
  {
    hide PushLog, Deck.DrawCard, NextAsked, Duel.CheckEnd, Find;
  }

  lemma DrawsOther(g: GameValue, op: Op)
    requires Safe(g) && !PlayOp(op) && !DuelOp(op)
    ensures var h := Performed(g, op);
      if Perform(g, op).Some? && (op.PlayAgain? || op.SetQuestionBank? || op.ResetQuestionBank?) then h.cards.deck == []
      else h.cards == g.cards
  {
    hide PushLog, Text.CleanName, Text.JoinName, Text.DedupeName, NamesOf, Find, OfflineNamesake,
         Voting.SortDesc, Voting.TallyRows, Voting.Tally, Voting.Resolve, Voting.IdsAt, AliveIdx;
  }

  lemma FreshPileDealt(bank: seq<Question>)
    ensures Deck.DeckOf(bank, []) && Deck.Dealt(bank, [], [])
  {
    var none: seq<Question> := [];
    assert none + Deck.Reverse(none) == [];
  }

  lemma DrawKeepsCards(g: GameValue, shown: seq<Question>, rand: seq<nat>)
    requires Deck.DeckOf(g.cards.questionBank, g.cards.deck)
    requires g.cards.questionBank != [] ==> Deck.Dealt(g.cards.questionBank, shown, g.cards.deck)
    ensures Deck.DeckOf(g.cards.questionBank, PulledDeck(g, rand))
    ensures g.cards.questionBank != [] ==>
      Deck.Dealt(g.cards.questionBank, shown + [PulledQuestion(g, rand)], PulledDeck(g, rand))
  {
    hide Deck.DeckOf, Deck.Dealt, Deck.DrawCard;
    Deck.DrawKeepsDeck(g.cards.questionBank, g.cards.deck, rand);
    if g.cards.questionBank != [] {
      Deck.DrawKeepsDealt(g.cards.questionBank, shown, g.cards.deck, rand);
    }
  }

  lemma CardsKept(g: GameValue, b: Book, op: Op)
    requires Base(g) && CardsInv(g, b)
    ensures CardsInv(Performed(g, op), RecordGame(b, g, op))
  {
    hide Perform, Performed, Deck.DeckOf, Deck.Dealt, PulledQuestion, PulledDeck, Base;
    assert Safe(g) by { BaseIsSafe(g); }
    if PlayOp(op) || DuelOp(op) {
      DrawsPlay(g, op);
      DrawKeepsCards(g, b.shown, RandOf(op));
    } else {
      DrawsOther(g, op);
      FreshPileDealt(Performed(g, op).cards.questionBank);
    }
  }

  /** Across any run: whole rounds of draws show every entry equally often, and no entry
      stays away for 2N-1 questions in a row. */
  lemma QuestionsAreFair(g: GameValue, b: Book, k: nat, i: nat, q: Question)
    requires CardsInv(g, b) && q in g.cards.questionBank
    ensures var n := |g.cards.questionBank|;
      && (k * n <= |b.shown| ==> multiset(b.shown[..k * n])[q] == k * multiset(g.cards.questionBank)[q])
      && (i + 2 * n - 1 <= |b.shown| ==> q in b.shown[i..i + 2 * n - 1])
  {
    var n := |g.cards.questionBank|;
    if k * n <= |b.shown| {
      Deck.WholeRoundsDrawEvenly(g.cards.questionBank, b.shown, g.cards.deck, k, q);
    }
    if i + 2 * n - 1 <= |b.shown| {
      Deck.WindowHoldsEveryEntry(g.cards.questionBank, b.shown, g.cards.deck, i, q);
    }
  }
}
