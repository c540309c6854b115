/** Runs of a room: any sequence of inbox messages and ticks from a new room, in any
    phase; and the runs whose controller actions the controller page offered. */
module Runs {
  import opened Types
  import opened Game
  import opened Actor
  import opened Basis
  import opened Ledger
  import opened ShootoutRuns
  import opened BallotRuns
  import opened MoneyRuns
  import opened ConnectionRuns
  import opened UiRuns
  import opened TurnRuns
  import opened ProgressRuns

  /** A room and what an onlooker has written down about it. */
  datatype World = World(room: RoomValue, book: Book)

  function Opening(setup: Setup, bank: seq<Question>, usingCustom: bool): World {
    World(NewRoom(NewState(setup, bank, usingCustom)), EMPTY_BOOK)
  }

  ghost predicate Moves(w: World, e: Event, w': World) {
    && Safe(w.room.game) && LegalEvent(w.room, e)
    && w' == World(Step(w.room, e), Record(w.book, w.room, e))
  }

  ghost predicate IsRun(ws: seq<World>, es: seq<Event>) {
    && |ws| == |es| + 1
    && (exists setup, bank, usingCustom :: ws[0] == Opening(setup, bank, usingCustom))
    && (forall i :: 0 <= i < |es| ==> Moves(ws[i], es[i], ws[i + 1]))
  }

  ghost predicate IsUiRun(ws: seq<World>, es: seq<Event>) {
    IsRun(ws, es) && forall i :: 0 <= i < |es| ==> UiEvent(ws[i].room, es[i])
  }

  /** In some run this event leads from w to w'. */
  ghost predicate Happens(w: World, e: Event, w': World) {
    exists ws, es, i: nat :: IsRun(ws, es) && i < |es| && ws[i] == w && es[i] == e && ws[i + 1] == w'
  }

  // --- the invariant of every run ---

  ghost predicate Inv(w: World) {
    && Base(w.room.game) && DuelInv(w.room.game) && BallotInv(w.room.game) && NamesInv(w.room.game)
    && ScoreInv(w.room.game, w.book) && CardsInv(w.room.game, w.book) && ConnInv(w.room, w.book)
  }

  lemma InvAtOpening(setup: Setup, bank: seq<Question>, usingCustom: bool)
    ensures Inv(Opening(setup, bank, usingCustom))
  {
    FreshPileDealt(bank);
  }

  /** An event changes the game only through the operation it leads to. */
  lemma StepIsOp(r: RoomValue, b: Book, e: Event)
    requires Safe(r.game)
    ensures match OpOf(r, e)
      case None => Step(r, e).game == r.game && Record(b, r, e) == b.(joined := Record(b, r, e).joined)
      case Some(op) =>
        && Step(r, e).game == Performed(r.game, op)
        && Record(b, r, e) == RecordGame(b, r.game, op).(joined := Record(b, r, e).joined)
  {
    hide Perform, Performed, RecordGame;
  }

  lemma IgnoresJoins(g: GameValue, b: Book, c: Book)
    requires c == b.(joined := c.joined)
    ensures ScoreInv(g, b) == ScoreInv(g, c) && CardsInv(g, b) == CardsInv(g, c)
    ensures UiInv(g, b) == UiInv(g, c) && CandidatesInv(g, b) == CandidatesInv(g, c)
  {
  }

  lemma InvKept(w: World, e: Event, w': World)
    requires Inv(w) && Moves(w, e, w')
    ensures Inv(w')
  {
    hide Performed, RecordGame, Step, Record, Base, DuelInv, BallotInv, NamesInv, ScoreInv, CardsInv, ConnInv, OpOf;
    var r, b := w.room, w.book;
    StepIsOp(r, b, e);
    RegistryKept(r, b, e);
    match OpOf(r, e)
    case None => IgnoresJoins(r.game, b, w'.book);
    case Some(op) =>
      BaseKept(r.game, op);
      DuelKept(r.game, op);
      BallotKept(r.game, op);
      NamesKept(r.game, op);
      ScoresKept(r.game, b, op);
      CardsKept(r.game, b, op);
      IgnoresJoins(w'.room.game, RecordGame(b, r.game, op), w'.book);
  }

  /** The invariant holds at every point of every run. */
  lemma {:induction false} AllRuns(ws: seq<World>, es: seq<Event>, i: nat)
    requires IsRun(ws, es) && i < |ws|
    ensures Inv(ws[i])
  {
    hide Inv, Moves;
    if i == 0 {
      var setup, bank, usingCustom :| ws[0] == Opening(setup, bank, usingCustom);
      InvAtOpening(setup, bank, usingCustom);
    } else {
      AllRuns(ws, es, i - 1);
      assert Moves(ws[i - 1], es[i - 1], ws[i]);
      InvKept(ws[i - 1], es[i - 1], ws[i]);
    }
  }

  lemma UiInvAtOpening(setup: Setup, bank: seq<Question>, usingCustom: bool)
    ensures var w := Opening(setup, bank, usingCustom);
      UiInv(w.room.game, w.book) && AskedInv(w.room.game) && CandidatesInv(w.room.game, w.book)
  {
  }

  lemma UiStep(w: World, e: Event, w': World)
    requires Inv(w) && UiInv(w.room.game, w.book) && AskedInv(w.room.game) && CandidatesInv(w.room.game, w.book)
    requires Moves(w, e, w') && UiEvent(w.room, e)
    ensures UiInv(w'.room.game, w'.book) && AskedInv(w'.room.game) && CandidatesInv(w'.room.game, w'.book)
  {
    hide UiInv, AskedInv, CandidatesInv, Step, Record, Perform, Performed, RecordGame, OpOf, UiEvent, UiLegal;
    var r, b := w.room, w.book;
    StepIsOp(r, b, e);
    match OpOf(r, e)
    case None => IgnoresJoins(r.game, b, w'.book);
    case Some(op) =>
      OfferedIsLegal(r, e);
      UiKept(r.game, b, op);
      AskedKept(r.game, b, op);
      CandidatesKept(r.game, b, op);
      IgnoresJoins(w'.room.game, RecordGame(b, r.game, op), w'.book);
  }

  /** On runs through the controller page rounds and turns keep step as well. */
  lemma {:induction false} AllUiRuns(ws: seq<World>, es: seq<Event>, i: nat)
    requires IsUiRun(ws, es) && i < |ws|
    ensures Inv(ws[i]) && UiInv(ws[i].room.game, ws[i].book) && AskedInv(ws[i].room.game)
    ensures CandidatesInv(ws[i].room.game, ws[i].book)
  {
    hide Inv, UiInv, AskedInv, CandidatesInv, Moves, UiEvent;
    AllRuns(ws, es, i);
    if i == 0 {
      var setup, bank, usingCustom :| ws[0] == Opening(setup, bank, usingCustom);
      UiInvAtOpening(setup, bank, usingCustom);
    } else {
      AllRuns(ws, es, i - 1);
      AllUiRuns(ws, es, i - 1);
      assert Moves(ws[i - 1], es[i - 1], ws[i]);
      UiStep(ws[i - 1], es[i - 1], ws[i]);
    }
  }

  lemma InvParts(w: World)
    requires Inv(w)
    ensures Base(w.room.game) && Safe(w.room.game) && DuelInv(w.room.game)
  {
  }

  lemma HappensInv(w: World, e: Event, w': World)
    requires Happens(w, e, w')
    ensures Inv(w) && Moves(w, e, w') && Inv(w') && Base(w.room.game) && Safe(w.room.game) && DuelInv(w.room.game)
  {
    hide Inv, Moves;
    var ws, es, i: nat :| IsRun(ws, es) && i < |es| && ws[i] == w && es[i] == e && ws[i + 1] == w';
    AllRuns(ws, es, i);
    AllRuns(ws, es, i + 1);
    InvParts(w);
    assert Moves(ws[i], es[i], ws[i + 1]);
  }
}
