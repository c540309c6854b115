/** What the views show, in terms of the game and of the onlooker's book. */
module Shown {
  import opened Types
  import opened Roster
  import opened Game
  import opened Actor
  import opened Ledger
  import opened MoneyRuns
  import opened ConnectionRuns
  import opened Views
  import opened Meaning
  import opened Runs

  /** Row for row the roster, without tokens. */
  ghost predicate ShowsRoster(ps: seq<PlayerValue>, shown: seq<PlayerPublic>) {
    && |shown| == |ps|
    && forall k :: 0 <= k < |ps| ==>
      && shown[k].id == ps[k].id && shown[k].name == ps[k].name && shown[k].alive == ps[k].alive
      && shown[k].correct == ps[k].correct && shown[k].incorrect == ps[k].incorrect
      && shown[k].connected == ps[k].connected
  }

  function ShownMarks(shown: seq<PlayerPublic>): nat {
    if shown == [] then 0
    else ShownMarks(shown[..|shown| - 1]) + shown[|shown| - 1].correct + shown[|shown| - 1].incorrect
  }

  /** The name of the row with this id, or no name if there is none. */
  ghost predicate NameOfRow(ps: seq<PlayerValue>, id: string, name: string) {
    if Listed(ps, id) then exists k :: 0 <= k < |ps| && ps[k].id == id && ps[k].name == name else name == ""
  }

  /** The text of the question, and whether there is one, but no answer. */
  ghost predicate ShowsText(q: Option<Question>, shown: Option<PlayerQuestion>) {
    if q.Some? then shown.Some? && shown.value.q == q.value.q else shown.None?
  }

  /** The voter whose turn it is in the reveal, and whom that voter named, if anybody on the roster. */
  ghost predicate ShowsReveal(g: GameValue, shown: Option<RevealInfo>) {
    if !g.ballot.revealing || g.ballot.revealOrder.None? then shown.None?
    else
      && shown.Some? && g.ballot.revealIndex < |g.ballot.revealOrder.value|
      && var voter := g.ballot.revealOrder.value[g.ballot.revealIndex];
         && shown.value.index == g.ballot.revealIndex && shown.value.total == |g.ballot.revealOrder.value|
         && NameOfRow(g.players, voter, shown.value.voterName)
         && if voter in g.ballot.votes && Listed(g.players, g.ballot.votes[voter]) then
              && shown.value.votedForName.Some?
              && NameOfRow(g.players, g.ballot.votes[voter], shown.value.votedForName.value)
            else shown.value.votedForName.None?
  }

  ghost predicate ShowsShootout(g: GameValue, shown: Option<ShootoutPublic>) {
    if g.shootout.None? then shown.None?
    else
      && shown.Some?
      && var sh, t := g.shootout.value, shown.value;
         && |t.order| == 2 && t.order[0].id == sh.order0 && t.order[1].id == sh.order1
         && NameOfRow(g.players, sh.order0, t.order[0].name) && NameOfRow(g.players, sh.order1, t.order[1].name)
         && t.rounds == sh.rounds && t.roundIndex == sh.roundIndex && t.turn == sh.turn
         && t.sudden == sh.sudden && t.winnerId == sh.winnerId && ShowsText(sh.question, t.question)
  }

  /** A player's or the big screen's view of the game, for an onlooker with this book. */
  ghost predicate ShowsGame(g: GameValue, b: Book, forId: string, v: PlayerState) {
    && ShowsRoster(g.players, v.players) && ShownMarks(v.players) == b.marks
    && v.phase == g.phase && v.roomCode == g.setup.roomCode && v.round == g.table.round
    && v.askedId == g.table.askedId && ShowsText(g.table.question, v.question)
    && v.timer == g.clock.timer && v.countdownEndsAt == g.clock.countdownEndsAt
    && v.bank == Winnings(b.money) && v.chainIndex == LadderSteps(b.money) - 1
    && v.chainValue == (if LadderSteps(b.money) == 0 then 0 else CHAIN_VALUES[LadderSteps(b.money) - 1])
    && v.myId == forId && (v.votedAlready <==> forId != "" && forId in g.ballot.votes)
    && v.revealing == g.ballot.revealing && ShowsReveal(g, v.revealInfo)
    && v.lastElimination == g.lastElimination && ShowsShootout(g, v.shootout) && v.winner == g.winner
  }

  lemma NamesAreOfRows(ps: seq<PlayerValue>, id: string)
    ensures NameOfRow(ps, id, NameOf(ps, id))
  {
    FoundIsListed(ps, id);
  }

  lemma {:induction false} ShownMarksAreSums(ps: seq<PlayerValue>, shown: seq<PlayerPublic>)
    requires ShowsRoster(ps, shown)
    ensures ShownMarks(shown) == SumCorrect(ps) + SumIncorrect(ps)
  {
    if ps != [] {
      ShownMarksAreSums(ps[..|ps| - 1], shown[..|shown| - 1]);
    }
  }

  lemma RevealIsShown(g: GameValue)
    requires RevealDefined(g)
    ensures ShowsReveal(g, RevealInfoOf(g))
  {
    hide NameOf, NameOfRow, Find;
    if g.ballot.revealing && g.ballot.revealOrder.Some? {
      var voter := g.ballot.revealOrder.value[g.ballot.revealIndex];
      NamesAreOfRows(g.players, voter);
      if voter in g.ballot.votes {
        FoundIsListed(g.players, g.ballot.votes[voter]);
        NamesAreOfRows(g.players, g.ballot.votes[voter]);
      }
    }
  }

  lemma ShootoutIsShown(g: GameValue)
    ensures ShowsShootout(g, ShootoutPublicOf(g))
  {
    hide NameOf, NameOfRow;
    if g.shootout.Some? {
      NamesAreOfRows(g.players, g.shootout.value.order0);
      NamesAreOfRows(g.players, g.shootout.value.order1);
    }
  }

  lemma ScoresAreShown(g: GameValue, b: Book)
    requires ScoreInv(g, b)
    ensures ShownMarks(ToPlayerPublic(g.players)) == b.marks
    ensures g.table.bank == Winnings(b.money) && g.table.chainIndex == LadderSteps(b.money) - 1
  {
    hide LadderSteps, Winnings;
    ShownMarksAreSums(g.players, ToPlayerPublic(g.players));
  }

  lemma InvHasScores(w: World)
    requires Inv(w)
    ensures ScoreInv(w.room.game, w.book)
  {
  }

  /** On all runs, wherever it is defined, the view sent to players and the big screen shows
      the game as it is. */
  lemma ViewsShowTheGame(ws: seq<World>, es: seq<Event>, i: nat, forId: string)
    requires IsRun(ws, es) && i < |ws| && RevealDefined(ws[i].room.game)
    ensures Safe(ws[i].room.game)
    ensures ShowsGame(ws[i].room.game, ws[i].book, forId, ToPlayerState(ws[i].room.game, forId))
  {
    hide Inv, ShowsReveal, ShowsShootout, RevealInfoOf, ShootoutPublicOf, ShownMarks, ScoreInv, LadderSteps, Winnings,
         RevealDefined;
    AllRuns(ws, es, i);
    InvParts(ws[i]);
    InvHasScores(ws[i]);
    var g := ws[i].room.game;
    RevealIsShown(g);
    ShootoutIsShown(g);
    ScoresAreShown(g, ws[i].book);
  }

  /** The controller's view is the big screen's with the answers, the vote and the log. */
  lemma ControllerSeesAnswers(ws: seq<World>, es: seq<Event>, i: nat)
    requires IsRun(ws, es) && i < |ws| && RevealDefined(ws[i].room.game)
    ensures Safe(ws[i].room.game)
    ensures var g, v := ws[i].room.game, ToControllerState(ws[i].room.game);
      && ShowsGame(g, ws[i].book, "", v.shared) && NameOfRow(g.players, g.table.askedId, v.askedName)
      && (g.table.question.Some? ==>
            v.question.Some?
            && v.question.value.q == g.table.question.value.q && v.question.value.a == g.table.question.value.a)
      && (g.table.question.None? ==> v.question.None?)
      && v.votedCount == |g.ballot.votes.Keys|
      && v.revealOrder == g.ballot.revealOrder && v.revealIndex == g.ballot.revealIndex
      && v.tieCandidates == g.ballot.tieCandidates
      && (g.shootout.Some? && g.shootout.value.question.Some? ==>
            v.shootoutQuestion.Some? && v.shootoutQuestion.value.a == g.shootout.value.question.value.a)
      && (g.shootout.None? || g.shootout.value.question.None? ==> v.shootoutQuestion.None?)
      && v.questionBankCount == |g.cards.questionBank| && v.usingCustom == g.cards.usingCustom && v.log == g.log
  {
    hide Inv, ShowsGame, ToPlayerState, RevealDefined, NameOf;
    AllRuns(ws, es, i);
    InvParts(ws[i]);
    ViewsShowTheGame(ws, es, i, "");
    NamesAreOfRows(ws[i].room.game.players, ws[i].room.game.table.askedId);
  }
}
