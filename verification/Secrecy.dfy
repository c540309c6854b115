/** Non-interference: answers never influence what players and the big screen see. */
module Secrecy {
  import opened Types
  import opened Roster
  import opened Game
  import opened Actor
  import opened Basis
  import opened Views
  import opened Deck
  import Duel
  import Text
  import Voting

  // --- erasing answers ---

  function EraseQ(q: Question): Question {
    Question(q.q, EMPTY_BANK_QUESTION.a)
  }

  function EraseOpt(q: Option<Question>): Option<Question> {
    match q
    case None => None
    case Some(q) => Some(EraseQ(q))
  }

  function EraseAll(qs: seq<Question>): (r: seq<Question>)
    ensures |r| == |qs| && forall i :: 0 <= i < |qs| ==> r[i] == EraseQ(qs[i])
  {
    seq(|qs|, i requires 0 <= i < |qs| => EraseQ(qs[i]))
  }

  /** Banks look the same without answers exactly if they have the same questions in the same order. */
  lemma SameTextsLookAlike(qs: seq<Question>, rs: seq<Question>)
    ensures EraseAll(qs) == EraseAll(rs) <==> |qs| == |rs| && forall i :: 0 <= i < |qs| ==> qs[i].q == rs[i].q
  {
    if EraseAll(qs) == EraseAll(rs) {
      assert |EraseAll(qs)| == |EraseAll(rs)|;
      forall i | 0 <= i < |qs| ensures qs[i].q == rs[i].q {
        assert EraseAll(qs)[i] == EraseAll(rs)[i];
      }
    }
  }

  function EraseShootout(sh: Option<ShootoutValue>): Option<ShootoutValue> {
    match sh
    case None => None
    case Some(sh) => Some(sh.(question := EraseOpt(sh.question)))
  }

  /** The same game with every answer blanked out. */
  function Erase(g: GameValue): GameValue {
    g.(setup := g.setup.(communityBank := EraseAll(g.setup.communityBank)),
       table := g.table.(question := EraseOpt(g.table.question)),
       shootout := EraseShootout(g.shootout),
       cards := Cards(EraseAll(g.cards.questionBank), g.cards.usingCustom, EraseAll(g.cards.deck)))
  }

  function EraseResult(r: Option<GameValue>): Option<GameValue> {
    match r
    case None => None
    case Some(g) => Some(Erase(g))
  }

  function EraseOp(op: Op): Op {
    if op.SetQuestionBank? then op.(questions := EraseAll(op.questions)) else op
  }

  // --- drawing does not look at answers ---

  lemma {:induction false} ShuffleErases(s: seq<Question>, rand: seq<nat>, i: nat)
    requires i == 0 || i < |s|
    ensures ShuffleFrom(EraseAll(s), rand, i) == EraseAll(ShuffleFrom(s, rand, i))
    decreases i
  {
    if i > 0 {
      var j := Choice(rand, i);
      assert Swap(EraseAll(s), i, j) == EraseAll(Swap(s, i, j));
      ShuffleErases(Swap(s, i, j), rand, i - 1);
    }
  }

  lemma DrawErases(cards: Cards, rand: seq<nat>)
    ensures var d := DrawCard(cards.questionBank, cards.deck, rand);
      DrawCard(EraseAll(cards.questionBank), EraseAll(cards.deck), rand) == Draw(EraseOpt(d.card), EraseAll(d.deck))
  {
    var bank, deck := cards.questionBank, cards.deck;
    if deck == [] && bank != [] {
      ShuffleErases(bank, rand, |bank| - 1);
    }
    var pile := if deck == [] then Shuffle(bank, rand) else deck;
    var erased := if deck == [] then Shuffle(EraseAll(bank), rand) else EraseAll(deck);
    assert erased == EraseAll(pile);
    if pile != [] {
      assert erased[..|erased| - 1] == EraseAll(pile[..|pile| - 1]);
    }
  }

  // --- no operation looks at answers ---

  lemma EraseSafe(g: GameValue)
    ensures Safe(Erase(g)) <==> Safe(g)
    ensures RevealDefined(Erase(g)) <==> RevealDefined(g)
  {
  }

  /** Performing and erasing commute. */
  ghost predicate Commutes(g: GameValue, op: Op) {
    Safe(g) && Safe(Erase(g)) && Perform(Erase(g), EraseOp(op)) == EraseResult(Perform(g, op))
  }

  lemma MarkedErases(g: GameValue)
    ensures Marked(Erase(g)) == Marked(g)
  {
    hide EraseAll, Find;
  }

  lemma MarkCorrectCommutes(g: GameValue, op: Op)
    requires Safe(g) && op.MarkCorrect?
    ensures Commutes(g, op)
  {
    hide PushLog, DrawCard, NextAsked, Find, EraseAll, Marked;
    MarkedErases(g);
    DrawErases(g.cards, op.rand);
  }

  lemma MarkIncorrectCommutes(g: GameValue, op: Op)
    requires Safe(g) && op.MarkIncorrect?
    ensures Commutes(g, op)
  {
    hide PushLog, DrawCard, NextAsked, Find, EraseAll, Marked;
    MarkedErases(g);
    DrawErases(g.cards, op.rand);
  }

  lemma CountdownCommutes(g: GameValue, op: Op)
    requires Safe(g) && op.FinishCountdown?
    ensures Commutes(g, op)
  {
    hide PushLog, DrawCard, EraseAll;
    DrawErases(g.cards, op.rand);
  }

  lemma AskingCommutes(g: GameValue, op: Op)
    requires Safe(g) && (op.SelectAsked? || op.NextQuestion?)
    ensures Commutes(g, op)
  {
    hide PushLog, DrawCard, Find, EraseAll;
    DrawErases(g.cards, op.rand);
  }

  lemma PlayCommutes(g: GameValue, op: Op)
    requires Safe(g) && (op.StartGame? || op.BankChain? || op.CallBank? || op.EndRound?)
    ensures Commutes(g, op)
  {
    hide PushLog, Find, EraseAll;
  }

  lemma ResolvingErases(g: GameValue, now: int)
    ensures ResolveVotes(Erase(g), now) == Erase(ResolveVotes(g, now))
  {
    hide PushLog, EraseAll, Voting.SortDesc, Voting.TallyRows, Voting.Tally, Voting.Resolve, Voting.IdsAt;
  }

  lemma BallotCommutes(g: GameValue, op: Op)
    requires Safe(g) && BallotOp(op)
    ensures Commutes(g, op)
  {
    hide PushLog, Find, EraseAll, Voting.SortDesc, Voting.TallyRows, Voting.IdsAt, AliveIdx, ResolveVotes;
    if op.AdvanceReveal? {
      ResolvingErases(
        g.(ballot := g.ballot.(revealIndex := g.ballot.revealIndex + 1, revealing := false)), op.now);
    }
  }

  lemma MarkingErases(g: GameValue, i: nat, result: string, now: int)
    requires g.shootout.Some? && i < |g.players|
    ensures Marking(Erase(g), i, result, now) == Erase(Marking(g, i, result, now))
  {
    hide PushLog, Duel.Pad;
  }

  lemma CheckErases(sh: ShootoutValue, q: Option<Question>)
    ensures Duel.CheckEnd(sh.(question := q)) == Duel.CheckEnd(sh)
  {
  }

  lemma JudgedErases(g: GameValue, now: int)
    requires g.shootout.Some?
    ensures Judged(Erase(g), now) == Erase(Judged(g, now)) && Judged(g, now).cards == g.cards
  {
    hide PushLog, Find, EraseAll, Duel.CheckEnd;
    CheckErases(g.shootout.value, EraseOpt(g.shootout.value.question));
  }

  lemma AfterMarkErases(g: GameValue, now: int, rand: seq<nat>)
    requires g.shootout.Some?
    ensures AfterMark(Erase(g), now, rand) == Erase(AfterMark(g, now, rand))
  {
    hide DrawCard, EraseAll, Duel.CheckEnd, Judged;
    CheckErases(g.shootout.value, EraseOpt(g.shootout.value.question));
    JudgedErases(g, now);
    DrawErases(g.cards, rand);
  }

  lemma MarkingHasShootout(g: GameValue, i: nat, result: string, now: int)
    requires g.shootout.Some? && i < |g.players|
    ensures Marking(g, i, result, now).shootout.Some?
  {
  }

  lemma DuelCommutes(g: GameValue, op: Op)
    requires Safe(g) && DuelOp(op)
    ensures Commutes(g, op)
  {
    hide PushLog, DrawCard, Find, EraseAll, Marking, AfterMark;
    if op.ShootoutMark? {
      match ShootoutMarked(g)
      case None =>
      case Some(i) =>
        MarkingErases(g, i, op.result, op.now);
        MarkingHasShootout(g, i, op.result, op.now);
        AfterMarkErases(Marking(g, i, op.result, op.now), op.now, op.rand);
    } else {
      DrawErases(g.cards, op.rand);
    }
  }

  lemma MetaCommutes(g: GameValue, op: Op)
    requires Safe(g) && MetaOp(op)
    ensures Commutes(g, op)
  {
    hide PushLog, Find;
    if op.PlayAgain? {
      assert EraseAll([]) == [];
    }
  }

  lemma RosterCommutes(g: GameValue, op: Op)
    requires Safe(g) && RosterOp(op) && !op.JoinGame?
    ensures Commutes(g, op)
  {
    hide PushLog, Find, EraseAll, Text.CleanName, Text.DedupeName, Text.EqualFold, NamesOf;
  }

  lemma {:induction false} NamesakeErases(g: GameValue, name: string, k: nat)
    requires k <= |g.players|
    ensures OfflineNamesake(Erase(g), name, k) == OfflineNamesake(g, name, k)
    decreases |g.players| - k
  {
    if k < |g.players| {
      NamesakeErases(g, name, k + 1);
    }
  }

  lemma JoinCommutes(g: GameValue, op: Op)
    requires Safe(g) && op.JoinGame?
    ensures Commutes(g, op)
  {
    hide PushLog, Find, EraseAll, Text.JoinName, Text.DedupeName, Text.EqualFold, NamesOf, OfflineNamesake;
    NamesakeErases(g, Text.JoinName(op.name), 0);
  }

  lemma EveryOpCommutes(g: GameValue, op: Op)
    requires Safe(g)
    ensures Commutes(g, op)
  {
    hide Commutes;
    if op.MarkCorrect? {
      MarkCorrectCommutes(g, op);
    } else if op.MarkIncorrect? {
      MarkIncorrectCommutes(g, op);
    } else if op.FinishCountdown? {
      CountdownCommutes(g, op);
    } else if op.SelectAsked? || op.NextQuestion? {
      AskingCommutes(g, op);
    } else if PlayOp(op) {
      PlayCommutes(g, op);
    } else if BallotOp(op) {
      BallotCommutes(g, op);
    } else if DuelOp(op) {
      DuelCommutes(g, op);
    } else if op.JoinGame? {
      JoinCommutes(g, op);
    } else if RosterOp(op) {
      RosterCommutes(g, op);
    } else {
      MetaCommutes(g, op);
    }
  }

  // --- rooms and runs ---

  function EraseRoom(r: RoomValue): RoomValue {
    r.(game := Erase(r.game))
  }

  function EraseAction(a: Action): Action {
    if a.ActSetQuestionBank? then ActSetQuestionBank(EraseAll(a.questions)) else a
  }

  function EraseEvent(e: Event): Event {
    if e.FromController? then e.(action := EraseAction(e.action)) else e
  }

  lemma OpErases(r: RoomValue, e: Event)
    ensures OpOf(EraseRoom(r), EraseEvent(e)) == match OpOf(r, e) case None => None case Some(op) => Some(EraseOp(op))
  {
    hide EraseAll;
  }

  lemma RegistryErases(r: RoomValue, e: Event, accepted: bool)
    ensures Registry(EraseRoom(r), EraseEvent(e), accepted) == EraseRoom(Registry(r, e, accepted))
  {
    hide EraseAll;
  }

  /** One event in the blanked-out room is the event in the room, blanked out. */
  lemma StepErases(r: RoomValue, e: Event)
    requires Safe(r.game)
    ensures Safe(Erase(r.game)) && Step(EraseRoom(r), EraseEvent(e)) == EraseRoom(Step(r, e))
  {
    hide EraseAll, OpOf, Perform, Registry, Erase, EraseOp;
    EraseSafe(r.game);
    OpErases(r, e);
    match OpOf(r, e)
    case None => RegistryErases(r, e, false);
    case Some(op) =>
      EveryOpCommutes(r.game, op);
      RegistryErases(r, e, Perform(r.game, op).Some?);
  }

  lemma OfflineErases(g: GameValue, id: string)
    ensures Offline(Erase(g), id) == Offline(g, id)
  {
    hide Find, EraseAll;
  }

  lemma AttachPerformed(g: GameValue, op: Op)
    requires Safe(g) && op.Attach?
    ensures Perform(g, op) == AttachPlayer(g, op.id, op.token, op.now)
  {
  }

  /** Whether an event asks for a broadcast does not depend on answers either. */
  lemma ChangedErases(r: RoomValue, e: Event)
    requires Safe(r.game)
    ensures Safe(Erase(r.game)) && Changed(EraseRoom(r), EraseEvent(e)) == Changed(r, e)
  {
    hide EraseAll, OpOf, Perform, Erase, Offline;
    EraseSafe(r.game);
    OpErases(r, e);
    match OpOf(r, e)
    case None =>
    case Some(op) =>
      EveryOpCommutes(r.game, op);
      if op.Attach? {
        AttachPerformed(r.game, op);
        AttachPerformed(Erase(r.game), op);
        OfflineErases(r.game, op.id);
      }
  }

  /** Nothing a player or the big screen is sent depends on an answer. */
  lemma ViewsIgnoreAnswers(g: GameValue, forId: string)
    requires Safe(g) && RevealDefined(g)
    ensures Safe(Erase(g)) && RevealDefined(Erase(g)) && ToPlayerState(Erase(g), forId) == ToPlayerState(g, forId)
  {
  }
}
