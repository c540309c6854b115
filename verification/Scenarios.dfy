/** Runs told event by event: what can really happen, over connections that have attached. */
module Scenarios {
  import opened Types
  import opened Text
  import opened Roster
  import opened Game
  import opened Actor
  import opened Basis
  import opened Ledger
  import opened MoneyRuns
  import opened UiRuns
  import opened TurnRuns
  import opened Views
  import opened Runs
  import opened Eliminations
  import opened ProgressRuns
  import opened Theorems
  import Voting

  // --- telling a run ---

  function Next(w: World, e: Event): World
    requires Safe(w.room.game)
  {
    World(Step(w.room, e), Record(w.book, w.room, e))
  }

  /** Messages are read only from connections that the room has accepted. */
  ghost predicate Heard(r: RoomValue, e: Event) {
    match e
    case FromPlayer(conn, _, _) => conn.role == RolePlayer && Registered(r, conn)
    case FromController(conn, _, _, _, _) => conn.role == RoleController && conn in r.controllers
    case _ => true
  }

  /** A run whose messages come over accepted connections; with `page`, one whose controller
      actions the page offered. */
  ghost predicate Story(ws: seq<World>, es: seq<Event>, page: bool) {
    && IsRun(ws, es) && (page ==> IsUiRun(ws, es))
    && forall i :: 0 <= i < |es| ==> Heard(ws[i].room, es[i])
  }

  ghost predicate Reachable(w: World, page: bool) {
    exists ws, es :: Story(ws, es, page) && ws[|es|] == w
  }

  lemma ReachableInv(w: World, page: bool)
    requires Reachable(w, page)
    ensures Inv(w) && Base(w.room.game) && Safe(w.room.game)
    ensures page ==> UiInv(w.room.game, w.book) && AskedInv(w.room.game)
  {
    hide Inv, UiInv, AskedInv, Safe;
    var ws, es :| Story(ws, es, page) && ws[|es|] == w;
    AllRuns(ws, es, |es|);
    InvIsBase(w);
    BaseIsSafe(w.room.game);
    if page {
      AllUiRuns(ws, es, |es|);
    }
  }

  lemma ReachableNext(w: World, e: Event, page: bool)
    requires Reachable(w, page) && Heard(w.room, e) && LegalEvent(w.room, e) && (page ==> UiEvent(w.room, e))
    ensures Safe(w.room.game) && Reachable(Next(w, e), page)
  {
    hide Inv, Step, Record, Heard, LegalEvent, UiEvent, Base, UiInv, AskedInv, Safe;
    ReachableInv(w, page);
    var ws, es :| Story(ws, es, page) && ws[|es|] == w;
    var vs, fs := ws + [Next(w, e)], es + [e];
    assert vs[0] == ws[0];
    forall i | 0 <= i < |fs| ensures Moves(vs[i], fs[i], vs[i + 1]) && Heard(vs[i].room, fs[i]) {
      if i < |es| {
        assert Moves(ws[i], es[i], ws[i + 1]) && Heard(ws[i].room, es[i]);
      }
    }
    assert Story(vs, fs, page) && vs[|fs|] == Next(w, e);
  }

  lemma OpeningIsReachable(setup: Setup, bank: seq<Question>, usingCustom: bool, page: bool)
    ensures Reachable(Opening(setup, bank, usingCustom), page)
  {
    var w := Opening(setup, bank, usingCustom);
    var ws, es: seq<Event> := [w], [];
    assert Story(ws, es, page) && ws[|es|] == w;
  }

  // --- the controller acts ---

  /** The room is open and this controller has attached. */
  ghost predicate OnStage(w: World, c: Conn) {
    !w.room.stopped && c.role == RoleController && c in w.room.controllers
  }

  /** The same connections, the game after op, and the book to match. */
  ghost predicate Did(w: World, op: Op, w': World) {
    && Safe(w.room.game) && w'.room == w.room.(game := Performed(w.room.game, op))
    && w'.book == RecordGame(w.book, w.room.game, op).(joined := w'.book.joined)
  }

  lemma Act(w: World, c: Conn, a: Action, now: int, op: Op, page: bool) returns (w': World)
    requires Reachable(w, page) && OnStage(w, c) && !a.ActKickPlayer? && !a.ActCloseRoom?
    requires ControlOp(a, now, [], "") == Some(op) && Legal(w.room.game, op) && (page ==> Offered(w.room.game, a))
    ensures Reachable(w', page) && OnStage(w', c) && Did(w, op, w')
  {
    hide Perform, Performed, RecordGame, Step, Record, Changed, Safe, Inv, Base, UiInv, AskedInv, Legal, Offered;
    ReachableInv(w, page);
    var e := FromController(c, a, now, [], "");
    MessageStep(w.room, e);
    StepIsOp(w.room, w.book, e);
    ReachableNext(w, e, page);
    w' := Next(w, e);
  }

  /** The tick that ends a countdown. */
  lemma Wait(w: World, c: Conn, page: bool) returns (w': World)
    requires Reachable(w, page) && OnStage(w, c) && w.room.game.phase == PhaseCountdown
    ensures Reachable(w', page) && OnStage(w', c)
    ensures Did(w, FinishCountdown(w.room.game.clock.countdownEndsAt, []), w')
  {
    hide Perform, Performed, RecordGame, Record, Safe, Inv, Base, UiInv, AskedInv;
    ReachableInv(w, page);
    var e := Tick(w.room.game.clock.countdownEndsAt, []);
    StepIsOp(w.room, w.book, e);
    ReachableNext(w, e, page);
    w' := Next(w, e);
  }

  lemma TakeStage(setup: Setup, bank: seq<Question>, usingCustom: bool, c: Conn, page: bool) returns (w: World)
    requires setup.controllerKey != "" && c.role == RoleController
    ensures Reachable(w, page) && OnStage(w, c)
    ensures w.room.game == NewState(setup, bank, usingCustom) && w.room.players == map[] && w.book == EMPTY_BOOK
  {
    var first, e := Opening(setup, bank, usingCustom), AttachRequest(c, setup.controllerKey, 0);
    OpeningIsReachable(setup, bank, usingCustom, page);
    hide Reachable;
    ReachableNext(first, e, page);
    w := Next(first, e);
  }

  // --- a reveal over nobody ---

  /** No players, no shootout and no reveal, in this phase of a round. */
  ghost predicate Deserted(g: GameValue, phase: Phase) {
    Safe(g) && g.players == [] && g.phase == phase && !g.ballot.revealing && g.clock.target != TargetShootout
  }

  lemma DesertedOps(g: GameValue)
    requires Safe(g)
    ensures Deserted(g, PhaseLobby) ==> Deserted(Performed(g, ContinueAfterElimination(0)), PhaseCountdown)
    ensures Deserted(g, PhasePlaying) ==> Deserted(Performed(g, EndRound(0)), PhaseVoting)
    ensures Deserted(g, PhaseVoting) ==> !RevealDefined(Performed(g, StartVoteReveal))
  {
    hide PushLog;
  }

  lemma DesertedTick(g: GameValue, now: int)
    requires Deserted(g, PhaseCountdown)
    ensures Deserted(Performed(g, FinishCountdown(now, [])), PhasePlaying)
  {
    hide PushLog, PulledQuestion, PulledDeck;
  }

  /** A room that only the controller has entered, in this phase. */
  ghost predicate Lonely(w: World, c: Conn, phase: Phase) {
    Reachable(w, false) && OnStage(w, c) && Deserted(w.room.game, phase)
  }

  lemma LonelyRound(w: World, c: Conn) returns (w': World)
    requires Lonely(w, c, PhaseLobby)
    ensures Lonely(w', c, PhasePlaying)
  {
    hide Reachable, OnStage, RevealDefined, Performed, RecordGame;
    DesertedOps(w.room.game);
    var w1 := Act(w, c, ActContinueAfterElimination, 0, ContinueAfterElimination(0), false);
    w' := Wait(w1, c, false);
    DesertedTick(w1.room.game, w1.room.game.clock.countdownEndsAt);
  }

  lemma LonelyVote(w: World, c: Conn) returns (w': World)
    requires Lonely(w, c, PhasePlaying)
    ensures Lonely(w', c, PhaseVoting)
  {
    hide Reachable, OnStage, RevealDefined, Performed, RecordGame;
    DesertedOps(w.room.game);
    w' := Act(w, c, ActEndRound, 0, EndRound(0), false);
  }

  lemma LonelyReveal(w: World, c: Conn) returns (w': World)
    requires Lonely(w, c, PhaseVoting)
    ensures Reachable(w', false) && OnStage(w', c) && Safe(w'.room.game) && !RevealDefined(w'.room.game)
  {
    hide Reachable, OnStage, RevealDefined, Performed, RecordGame;
    DesertedOps(w.room.game);
    w' := Act(w, c, ActStartVoteReveal, 0, StartVoteReveal, false);
    ReachableInv(w', false);
  }

  /** In a room that only the controller has entered, continuing asks for no phase, so that a
      round, its vote and a reveal follow; the controller's own view is then undefined. */
  lemma RevealCanFail(setup: Setup, bank: seq<Question>, usingCustom: bool, c: Conn) returns (w: World)
    requires setup.controllerKey != "" && c.role == RoleController
    ensures Reachable(w, false) && OnStage(w, c) && Safe(w.room.game) && !RevealDefined(w.room.game)
  {
    var w0 := TakeStage(setup, bank, usingCustom, c, false);
    assert Lonely(w0, c, PhaseLobby);
    hide Lonely, Reachable, OnStage, RevealDefined;
    var w1 := LonelyRound(w0, c);
    var w2 := LonelyVote(w1, c);
    w := LonelyReveal(w2, c);
  }

  // --- taking seats ---

  function PlayerConn(id: string): Conn {
    Conn(1, RolePlayer, id)
  }

  /** In the lobby, rows with these ids and tokens, all connected. */
  ghost predicate SeatedRows(g: GameValue, ids: seq<string>) {
    && g.phase == PhaseLobby && |g.players| == |ids|
    && forall k :: 0 <= k < |ids| ==>
      g.players[k].id == ids[k] && g.players[k].token == ids[k] && g.players[k].connected
  }

  ghost predicate Attached(conns: map<string, Conn>, ids: seq<string>) {
    forall k :: 0 <= k < |ids| ==> ids[k] in conns && conns[ids[k]] == PlayerConn(ids[k])
  }

  ghost predicate Seated(w: World, c: Conn, ids: seq<string>, page: bool) {
    Reachable(w, page) && OnStage(w, c) && SeatedRows(w.room.game, ids) && Attached(w.room.players, ids)
    && w.book.marks == 0
  }

  lemma JoinAdds(g: GameValue, ids: seq<string>, id: string)
    requires SeatedRows(g, ids)
    ensures Game.Join(g, "", "", "", id, id, 0).Some?
    ensures SeatedRows(Game.Join(g, "", "", "", id, id, 0).value, ids + [id])
  {
    hide PushLog, JoinName, DedupeName, NamesOf, EqualFold;
  }

  lemma AttachFinds(g: GameValue, ids: seq<string>, id: string)
    requires SeatedRows(g, ids) && DistinctIds(g.players) && id in ids && id != ""
    ensures AttachPlayer(g, id, id, 0) == Some(g)
  {
    var k :| 0 <= k < |ids| && ids[k] == id;
    FindUnique(g.players, k);
    assert g.players[k := g.players[k].(connected := true)] == g.players;
  }

  lemma JoinEvent(w: World, id: string, e: Event)
    requires Safe(w.room.game) && !w.room.stopped && e == JoinRequest("", "", "", id, id, 0)
    requires Game.Join(w.room.game, "", "", "", id, id, 0).Some?
    ensures Next(w, e).room == w.room.(game := Game.Join(w.room.game, "", "", "", id, id, 0).value)
    ensures Next(w, e).book.marks == w.book.marks
  {
    hide Game.Join, RecordMoney, RecordShown, RecordJoined, FinalistScores;
  }

  lemma AttachEvent(w: World, id: string, e: Event)
    requires Safe(w.room.game) && !w.room.stopped && e == AttachRequest(PlayerConn(id), id, 0)
    requires AttachPlayer(w.room.game, id, id, 0) == Some(w.room.game)
    ensures Next(w, e).room == w.room.(players := w.room.players[id := PlayerConn(id)])
    ensures Next(w, e).book.marks == w.book.marks
  {
    hide AttachPlayer, RecordMoney, RecordShown, RecordJoined, FinalistScores;
  }

  lemma SeatOne(w: World, c: Conn, ids: seq<string>, id: string, page: bool) returns (w': World)
    requires Seated(w, c, ids, page) && id != "" && id !in ids
    ensures Seated(w', c, ids + [id], page)
  {
    hide Reachable, Game.Join, AttachPlayer, Inv, Step, Record, UiInv, AskedInv, Next;
    ReachableInv(w, page);
    JoinAdds(w.room.game, ids, id);
    var e := JoinRequest("", "", "", id, id, 0);
    JoinEvent(w, id, e);
    ReachableNext(w, e, page);
    var v := Next(w, e);
    ReachableInv(v, page);
    AttachFinds(v.room.game, ids + [id], id);
    var f := AttachRequest(PlayerConn(id), id, 0);
    AttachEvent(v, id, f);
    ReachableNext(v, f, page);
    w' := Next(v, f);
  }

  const IDS: seq<string> := ["a", "b", "c"]

  lemma EmptySeats(setup: Setup, bank: seq<Question>, usingCustom: bool, c: Conn, page: bool) returns (w: World)
    requires setup.controllerKey != "" && c.role == RoleController
    ensures Seated(w, c, [], page)
  {
    hide Reachable;
    w := TakeStage(setup, bank, usingCustom, c, page);
  }

  /** Three players have taken their seats. */
  lemma SeatThree(setup: Setup, bank: seq<Question>, usingCustom: bool, c: Conn, page: bool) returns (w: World)
    requires setup.controllerKey != "" && c.role == RoleController
    ensures Seated(w, c, IDS, page)
  {
    var w0 := EmptySeats(setup, bank, usingCustom, c, page);
    hide Seated;
    assert [] + ["a"] == ["a"] && ["a"] + ["b"] == ["a", "b"] && ["a", "b"] + ["c"] == IDS;
    var w1 := SeatOne(w0, c, [], "a", page);
    var w2 := SeatOne(w1, c, ["a"], "b", page);
    w := SeatOne(w2, c, ["a", "b"], "c", page);
  }

  // --- a round begins ---

  /** A round in play among three connected living players, none of them marked yet. */
  ghost predicate FirstRound(g: GameValue) {
    && Safe(g) && g.phase == PhasePlaying && g.table.question.Some? && g.table.askedId == IDS[0]
    && g.table.chainIndex == -1 && g.table.bank == 0 && g.shootout.None?
    && g.ballot == EMPTY_BALLOT
    && |g.players| == 3
    && forall k :: 0 <= k < 3 ==>
      g.players[k].id == IDS[k] && g.players[k].alive && g.players[k].correct == 0 && g.players[k].incorrect == 0
  }

  lemma StartLeadsOn(g: GameValue, now: int)
    requires Base(g) && SeatedRows(g, IDS)
    ensures var h := Performed(g, StartGame(0));
      && Safe(h) && h.phase == PhaseCountdown && FirstRound(Performed(h, FinishCountdown(now, [])))
  {
    hide PushLog, PulledQuestion, PulledDeck;
  }

  lemma BeginRound(w: World, c: Conn, page: bool) returns (w': World)
    requires Seated(w, c, IDS, page)
    ensures Reachable(w', page) && OnStage(w', c) && FirstRound(w'.room.game) && Attached(w'.room.players, IDS)
    ensures w'.book.marks == 0
  {
    hide Reachable, Performed, Inv, FirstRound, UiInv, AskedInv, RecordMoney, RecordShown, Attached;
    ReachableInv(w, page);
    var w1 := Act(w, c, ActStartGame, 0, StartGame(0), page);
    StartLeadsOn(w.room.game, w1.room.game.clock.countdownEndsAt);
    w' := Wait(w1, c, page);
  }

  // --- the bank bound is met again and again ---

  /** On a run through the page, a round in play with no live chain and the bound met at 1000 k. */
  ghost predicate BankedUp(w: World, c: Conn, k: nat) {
    && Reachable(w, true) && OnStage(w, c) && ReadyToClimb(w.room.game) && w.room.game.table.chainIndex == -1
    && w.room.game.table.bank == 1000 * k && SumCorrect(w.room.game.players) == 13 * k
  }

  lemma HigherOffersMarks(g: GameValue, h: GameValue, n: nat)
    requires Higher(g, h, n)
    ensures Safe(h) && Offered(h, ActMarkCorrect)
  {
  }

  lemma {:induction false} MarkUp(w: World, c: Conn, n: nat) returns (w': World)
    requires Reachable(w, true) && OnStage(w, c) && Higher(w.room.game, w.room.game, 0) && n <= |CHAIN_VALUES|
    ensures Reachable(w', true) && OnStage(w', c) && Higher(w.room.game, w'.room.game, n)
  {
    hide Reachable, OnStage, Higher, Performed, RecordGame;
    if n == 0 {
      w' := w;
    } else {
      var v := MarkUp(w, c, n - 1);
      HigherOffersMarks(w.room.game, v.room.game, n - 1);
      w' := Act(v, c, ActMarkCorrect, 0, MarkCorrect(0, []), true);
      ClimbHigher(w.room.game, v.room.game, n - 1, 0, []);
    }
  }

  lemma BankingKeepsReady(g: GameValue)
    requires ReadyToClimb(g) && g.table.chainIndex == 12
    ensures Safe(g) && Offered(g, ActBankChain)
    ensures var h := Performed(g, BankChain(0));
      ReadyToClimb(h) && h.table.chainIndex == -1 && h.table.bank == g.table.bank + 1000 && h.players == g.players
  {
    hide PushLog, Find;
    BaseKept(g, BankChain(0));
  }

  lemma BankUp(w: World, c: Conn, k: nat) returns (w': World)
    requires BankedUp(w, c, k)
    ensures BankedUp(w', c, k + 1)
  {
    hide Reachable, OnStage, ReadyToClimb, Performed, RecordGame;
    var v := MarkUp(w, c, 13);
    BankingKeepsReady(v.room.game);
    w' := Act(v, c, ActBankChain, 0, BankChain(0), true);
  }

  lemma FirstRoundIsReady(w: World)
    requires Reachable(w, true) && FirstRound(w.room.game)
    ensures ReadyToClimb(w.room.game) && SumCorrect(w.room.game.players) == 0
  {
    ReachableInv(w, true);
    NoSums(w.room.game.players);
  }

  lemma FirstRoundIsBare(g: GameValue)
    requires FirstRound(g)
    ensures g.table.chainIndex == -1 && g.table.bank == 0 && g.phase == PhasePlaying && Safe(g)
  {
  }

  lemma {:induction false} BankUpTo(setup: Setup, bank: seq<Question>, usingCustom: bool, c: Conn, k: nat)
    returns (w: World)
    requires setup.controllerKey != "" && c.role == RoleController
    ensures BankedUp(w, c, k)
  {
    hide Reachable, OnStage, ReadyToClimb, FirstRound;
    if k == 0 {
      var seats := SeatThree(setup, bank, usingCustom, c, true);
      w := BeginRound(seats, c, true);
      FirstRoundIsReady(w);
      FirstRoundIsBare(w.room.game);
    } else {
      hide BankedUp;
      var v := BankUpTo(setup, bank, usingCustom, c, k - 1);
      w := BankUp(v, c, k - 1);
    }
  }

  /** For every k some run through the page has banked 1000 k with the bound met exactly: no
      smaller bound holds anywhere along the way. */
  lemma {:induction false} EveryThousandIsReached(
      setup: Setup, bank: seq<Question>, usingCustom: bool, c: Conn, k: nat) returns (w: World)
    requires setup.controllerKey != "" && c.role == RoleController
    ensures Reachable(w, true)
    ensures var g := w.room.game;
      && g.table.bank == 1000 * k && g.table.chainIndex == -1
      && 13 * g.table.bank + 1000 * (g.table.chainIndex + 1) == 1000 * SumCorrect(g.players)
  {
    w := BankUpTo(setup, bank, usingCustom, c, k);
  }

  // --- a tie without candidates ---

  /** A round among the three in which everybody has n right answers and no wrong one, the
      first j of them one right answer more, and it is the j-th one's turn. */
  ghost predicate Level(g: GameValue, n: nat, j: nat) {
    && Safe(g) && g.phase == PhasePlaying && g.table.question.Some? && j < 3 && g.table.askedId == IDS[j]
    && g.ballot == EMPTY_BALLOT && |g.players| == 3
    && forall k :: 0 <= k < 3 ==>
      && g.players[k].id == IDS[k] && g.players[k].alive && g.players[k].incorrect == 0
      && g.players[k].correct == n + if k < j then 1 else 0
  }

  lemma NextOfThree(ps: seq<PlayerValue>, j: nat)
    requires |ps| == 3 && j < 3 && (forall k :: 0 <= k < 3 ==> ps[k].id == IDS[k] && ps[k].alive)
    ensures NextAsked(ps, IDS[j]) == IDS[if j < 2 then j + 1 else 0]
  {
    hide AliveIdx, NextAsked;
    assert IDS[0] != IDS[1] && IDS[1] != IDS[2] && IDS[0] != IDS[2];
    AllAlive(ps);
    NextInTurn(ps, j, IDS[j]);
  }

  lemma LevelOffers(g: GameValue, n: nat, j: nat)
    requires Level(g, n, j)
    ensures Offered(g, ActMarkCorrect)
  {
  }

  lemma MarkLevels(g: GameValue, n: nat, j: nat)
    requires Level(g, n, j) && DistinctIds(g.players)
    ensures Level(Performed(g, MarkCorrect(0, [])), if j < 2 then n else n + 1, if j < 2 then j + 1 else 0)
  {
    hide PushLog, PulledQuestion, PulledDeck, NextAsked, AliveIdx, Find;
    var h := Performed(g, MarkCorrect(0, []));
    FindUnique(g.players, j);
    NextOfThree(h.players, j);
  }

  lemma LevelMark(w: World, c: Conn, n: nat, j: nat) returns (w': World)
    requires Reachable(w, true) && OnStage(w, c) && Level(w.room.game, n, j)
    ensures Reachable(w', true) && OnStage(w', c)
    ensures Level(w'.room.game, if j < 2 then n else n + 1, if j < 2 then j + 1 else 0)
  {
    hide Reachable, OnStage, Level, Performed, RecordGame, Inv, Base, UiInv, AskedInv;
    ReachableInv(w, true);
    BaseIsDistinct(w.room.game);
    LevelOffers(w.room.game, n, j);
    MarkLevels(w.room.game, n, j);
    w' := Act(w, c, ActMarkCorrect, 0, MarkCorrect(0, []), true);
  }

  lemma {:induction false} LevelReached(
      setup: Setup, bank: seq<Question>, usingCustom: bool, c: Conn, n: nat) returns (w: World)
    requires setup.controllerKey != "" && c.role == RoleController
    ensures Reachable(w, true) && OnStage(w, c) && Level(w.room.game, n, 0)
  {
    hide Reachable, OnStage;
    if n == 0 {
      var seats := SeatThree(setup, bank, usingCustom, c, true);
      w := BeginRound(seats, c, true);
    } else {
      hide Level;
      var w0 := LevelReached(setup, bank, usingCustom, c, n - 1);
      var w1 := LevelMark(w0, c, n - 1, 0);
      var w2 := LevelMark(w1, c, n - 1, 1);
      w := LevelMark(w2, c, n - 1, 2);
    }
  }

  /** The reveal of a vote in which nobody has voted, at this index of its three voters. */
  ghost predicate EmptyVote(g: GameValue, n: nat, index: nat) {
    && Safe(g) && g.phase == PhaseVoting && |g.players| == 3
    && (forall k :: 0 <= k < 3 ==>
          g.players[k].alive && g.players[k].incorrect == 0 && g.players[k].correct == n)
    && g.ballot.votes == map[] && g.ballot.tieCandidates.None? && g.ballot.revealing
    && g.ballot.revealOrder.Some? && |g.ballot.revealOrder.value| == 3 && g.ballot.revealIndex == index
  }

  lemma LevelVote(g: GameValue, n: nat)
    requires Level(g, n, 0)
    ensures var h := Performed(g, EndRound(0));
      && Offered(g, ActEndRound) && Safe(h) && Offered(h, ActStartVoteReveal)
      && EmptyVote(Performed(h, StartVoteReveal), n, 0)
  {
    hide PushLog, AliveIdx;
    AllAlive(g.players);
  }

  lemma EmptyVoteGoesOn(g: GameValue, n: nat, index: nat)
    requires EmptyVote(g, n, index) && index < 2
    ensures Offered(g, ActAdvanceReveal) && EmptyVote(Performed(g, AdvanceReveal(0)), n, index + 1)
  {
    hide ResolveVotes;
  }

  lemma EmptyVoteTies(g: GameValue, n: nat)
    requires EmptyVote(g, n, 2) && n > Voting.SCORE_CEILING
    ensures Offered(g, ActAdvanceReveal)
    ensures var h := Performed(g, AdvanceReveal(0)); h.phase == PhaseVoting && h.ballot.tieCandidates == Some([])
  {
    hide PushLog, AliveIdx, Voting.Resolve, Voting.Tally, FinalizeElimination, Voting.PicksTheWeakest;
    assert |AliveIdx(g.players)| == 3 by { AllAlive(g.players); }
    Voting.EverybodyAboveTheCeiling(g.players);
  }

  lemma RevealStepByStep(w: World, c: Conn, n: nat) returns (w': World)
    requires Reachable(w, true) && OnStage(w, c) && EmptyVote(w.room.game, n, 0)
    ensures Reachable(w', true) && OnStage(w', c) && EmptyVote(w'.room.game, n, 2)
  {
    hide Reachable, OnStage, EmptyVote, Performed, RecordGame;
    EmptyVoteGoesOn(w.room.game, n, 0);
    var w1 := Act(w, c, ActAdvanceReveal, 0, AdvanceReveal(0), true);
    EmptyVoteGoesOn(w1.room.game, n, 1);
    w' := Act(w1, c, ActAdvanceReveal, 0, AdvanceReveal(0), true);
  }

  lemma VoteOnLevel(w: World, c: Conn, n: nat) returns (w': World)
    requires Reachable(w, true) && OnStage(w, c) && Level(w.room.game, n, 0)
    ensures Reachable(w', true) && OnStage(w', c) && EmptyVote(w'.room.game, n, 0)
  {
    hide Reachable, OnStage, Level, EmptyVote, Performed, RecordGame;
    LevelVote(w.room.game, n);
    var w1 := Act(w, c, ActEndRound, 0, EndRound(0), true);
    w' := Act(w1, c, ActStartVoteReveal, 0, StartVoteReveal, true);
  }

  /** A run through the page that gets stuck: with 2^30 + 1 right answers for everybody and
      no votes, the tie has no candidates and nothing is on offer but closing the room. */
  lemma CeilingCanStick(setup: Setup, bank: seq<Question>, usingCustom: bool, c: Conn) returns (w: World)
    requires setup.controllerKey != "" && c.role == RoleController
    ensures Reachable(w, true) && OnStage(w, c)
    ensures w.room.game.phase == PhaseVoting && w.room.game.ballot.tieCandidates == Some([]) && !CanMoveOn(w.room)
  {
    hide Reachable, Level, EmptyVote, Performed, RecordGame, Inv, Base, UiInv, AskedInv, CanMoveOn;
    var n := Voting.SCORE_CEILING + 1;
    var w0 := LevelReached(setup, bank, usingCustom, c, n);
    var w1 := VoteOnLevel(w0, c, n);
    var w2 := RevealStepByStep(w1, c, n);
    EmptyVoteTies(w2.room.game, n);
    w := Act(w2, c, ActAdvanceReveal, 0, AdvanceReveal(0), true);
    ReachableInv(w, true);
    InvIsDuel(w);
    MovesOnExactly(w.room, w.book);
  }

  // --- a tally with more votes than living players ---

  const VOTES: map<string, string> := map["a" := "b", "b" := "b", "c" := "b"]

  /** The three, of whom only the first may be dead, in this phase and with this ballot. */
  ghost predicate Ballots(g: GameValue, firstAlive: bool, phase: Phase, ballot: Ballot) {
    && Safe(g) && g.phase == phase && g.ballot == ballot && |g.players| == 3
    && forall k :: 0 <= k < 3 ==> g.players[k].id == IDS[k] && g.players[k].alive == (k > 0 || firstAlive)
  }

  function Voted(votes: map<string, string>): Ballot {
    Ballot(votes, None, map[], false, None, 0)
  }

  function Revealing(index: nat): Ballot {
    Ballot(VOTES, None, map[], true, Some(IDS), index)
  }

  lemma FirstVote(g: GameValue)
    requires FirstRound(g)
    ensures Ballots(Performed(g, EndRound(0)), true, PhaseVoting, Voted(map[]))
  {
    hide PushLog;
  }

  lemma VoteCounts(g: GameValue, votes: map<string, string>, k: nat)
    requires Ballots(g, true, PhaseVoting, Voted(votes)) && k < 3
    ensures SubmitVote(g, IDS[k], "b").Some?
    ensures Ballots(SubmitVote(g, IDS[k], "b").value, true, PhaseVoting, Voted(votes[IDS[k] := "b"]))
  {
    assert IDS[0] != IDS[1] && IDS[1] != IDS[2] && IDS[0] != IDS[2];
  }

  lemma VoteEvent(w: World, c: Conn, id: string, page: bool) returns (w': World)
    requires Reachable(w, page) && OnStage(w, c) && Registered(w.room, PlayerConn(id))
    requires SubmitVote(w.room.game, id, "b").Some?
    ensures Reachable(w', page) && OnStage(w', c) && w'.room.players == w.room.players
    ensures w'.room.game == SubmitVote(w.room.game, id, "b").value
  {
    hide Reachable, SubmitVote, Inv, UiInv, AskedInv, Step, Record, Changed, Perform;
    ReachableInv(w, page);
    var e := FromPlayer(PlayerConn(id), VoteMsg("b"), 0);
    MessageStep(w.room, e);
    PlayerPerformed(w.room.game, id, VoteMsg("b"), 0);
    ReachableNext(w, e, page);
    w' := Next(w, e);
  }

  lemma Vote(w: World, c: Conn, votes: map<string, string>, k: nat) returns (w': World)
    requires Reachable(w, false) && OnStage(w, c) && Attached(w.room.players, IDS) && k < 3
    requires Ballots(w.room.game, true, PhaseVoting, Voted(votes))
    ensures Reachable(w', false) && OnStage(w', c) && Attached(w'.room.players, IDS)
    ensures Ballots(w'.room.game, true, PhaseVoting, Voted(votes[IDS[k] := "b"]))
  {
    hide Reachable, OnStage, Ballots, SubmitVote;
    VoteCounts(w.room.game, votes, k);
    w' := VoteEvent(w, c, IDS[k], false);
  }

  lemma EverybodyVotes(w: World, c: Conn) returns (w': World)
    requires Reachable(w, false) && OnStage(w, c) && FirstRound(w.room.game) && Attached(w.room.players, IDS)
    ensures Reachable(w', false) && OnStage(w', c)
    ensures Ballots(w'.room.game, true, PhaseVoting, Voted(VOTES))
  {
    FirstRoundIsBare(w.room.game);
    hide Reachable, OnStage, Ballots, Performed, RecordGame, FirstRound, Attached;
    FirstVote(w.room.game);
    var w0 := Act(w, c, ActEndRound, 0, EndRound(0), false);
    var w1 := Vote(w0, c, map[], 0);
    var w2 := Vote(w1, c, map["a" := "b"], 1);
    w' := Vote(w2, c, map["a" := "b", "b" := "b"], 2);
    assert map["a" := "b", "b" := "b"]["c" := "b"] == VOTES;
  }

  lemma RevealBegins(g: GameValue)
    requires Ballots(g, true, PhaseVoting, Voted(VOTES))
    ensures Ballots(Performed(g, StartVoteReveal), true, PhaseVoting, Revealing(0))
  {
    hide AliveIdx;
    AllAlive(g.players);
    assert Voting.IdsAt(g.players, AliveIdx(g.players)) == IDS;
  }

  lemma HostBreaksIn(g: GameValue)
    requires Ballots(g, true, PhaseVoting, Revealing(0)) && DistinctIds(g.players)
    ensures Ballots(Performed(g, ManualTieBreak("a", 0)), false, PhaseElimination, Revealing(0))
  {
    hide PushLog, Voting.SortDesc, Voting.TallyRows;
    FindUnique(g.players, 0);
  }

  lemma RevealGoesOn(g: GameValue, index: nat)
    requires Ballots(g, false, PhaseElimination, Revealing(index)) && index < 2
    ensures Ballots(Performed(g, AdvanceReveal(0)), false, PhaseElimination, Revealing(index + 1))
  {
    hide ResolveVotes;
  }

  lemma HostBreaksAReveal(w: World, c: Conn) returns (w': World)
    requires Reachable(w, false) && OnStage(w, c) && Ballots(w.room.game, true, PhaseVoting, Voted(VOTES))
    ensures Reachable(w', false) && OnStage(w', c) && Ballots(w'.room.game, false, PhaseElimination, Revealing(0))
  {
    hide Reachable, OnStage, Ballots, Performed, RecordGame, Inv, Base;
    ReachableInv(w, false);
    RevealBegins(w.room.game);
    var w1 := Act(w, c, ActStartVoteReveal, 0, StartVoteReveal, false);
    ReachableInv(w1, false);
    BaseIsDistinct(w1.room.game);
    HostBreaksIn(w1.room.game);
    w' := Act(w1, c, ActManualTieBreak("a"), 0, ManualTieBreak("a", 0), false);
  }

  lemma RevealOutlivesElimination(w: World, c: Conn) returns (w': World)
    requires Reachable(w, false) && OnStage(w, c) && Ballots(w.room.game, false, PhaseElimination, Revealing(0))
    ensures Reachable(w', false) && OnStage(w', c) && Ballots(w'.room.game, false, PhaseElimination, Revealing(2))
  {
    hide Reachable, OnStage, Ballots, Performed, RecordGame, Inv, Base, UiInv, AskedInv;
    ReachableInv(w, false);
    RevealGoesOn(w.room.game, 0);
    var w1 := Act(w, c, ActAdvanceReveal, 0, AdvanceReveal(0), false);
    ReachableInv(w1, false);
    RevealGoesOn(w1.room.game, 1);
    w' := Act(w1, c, ActAdvanceReveal, 0, AdvanceReveal(0), false);
  }

  lemma ThreeVotesForB()
    ensures Voting.VotesFor(VOTES, "b") == 3 && Voting.VotesFor(VOTES, "c") == 0
  {
    assert (set v | v in VOTES && VOTES[v] == "b") == {"a", "b", "c"};
    assert (set v | v in VOTES && VOTES[v] == "c") == {};
  }

  lemma BHasMost(ps: seq<PlayerValue>)
    requires |ps| == 3 && !ps[0].alive && ps[1].alive && ps[2].alive && ps[1].id == "b" && ps[2].id == "c"
    ensures forall i :: Voting.TopVoted(ps, VOTES, i) <==> i == 1
  {
    hide Voting.VotesFor;
    ThreeVotesForB();
  }

  lemma OnlyEntry(top: seq<nat>, i: nat)
    requires Voting.Increasing(top) && forall k :: k in top <==> k == i
    ensures top == [i]
  {
    assert i in top && forall k :: 0 <= k < |top| ==> top[k] in top;
    var last := top[|top| - 1];
    assert last == i == top[0];
  }

  lemma TwoAlive(ps: seq<PlayerValue>)
    requires |ps| == 3 && !ps[0].alive && ps[1].alive && ps[2].alive
    ensures |AliveIdx(ps)| == 2
  {
    assert ps[..2][..1] == ps[..1] && ps[..1][..0] == [];
    assert AliveIdx(ps[..1]) == [];
    assert AliveIdx(ps[..2]) == [1];
  }

  /** b has all three votes, from the two who are alive and the one who is not. */
  lemma BIsVotedOff(g: GameValue)
    requires Ballots(g, false, PhaseElimination, Revealing(2))
    ensures Voting.Resolve(g.players, VOTES) == Voting.Eliminate(1, "")
    ensures |VotersFor(VOTES, AliveIds(g.players))| == 3 && Living(g) == 2
  {
    hide Voting.TopOf, Voting.Resolve, Voting.TopVoted, AliveIdx;
    var ps, top := g.players, Voting.TopOf(g.players, VOTES);
    BHasMost(ps);
    Voting.TopIsTopVoted(ps, VOTES);
    assert 1 in top;
    OnlyEntry(top, 1);
    Voting.SoleTopGoes(ps, VOTES);
    assert ps[1].id in AliveIds(ps);
    assert VotersFor(VOTES, AliveIds(ps)) == {"a", "b", "c"};
    TwoAlive(ps);
  }

  lemma OverrunTally(g: GameValue)
    requires Base(g) && Ballots(g, false, PhaseElimination, Revealing(2))
    ensures var h := Performed(g, AdvanceReveal(0));
      && Living(g) == 2 && SomebodyDies(g.players, h.players)
      && h.lastElimination.Some? && SumVotes(h.lastElimination.value.tally) == 3
  {
    hide PushLog, Voting.Resolve, Voting.Tally, Voting.SortDesc, Voting.TallyRows, SumVotes, VotersFor, AliveIdx,
         LivingRows, ShowsTheVote, Voting.Weakest;
    BIsVotedOff(g);
    ShownSum(g.players, VOTES);
    ResolvedVote(g.(ballot := g.ballot.(revealIndex := 3, revealing := false)), 0);
    assert g.players[1].alive;
  }

  /** The bound can fail: a reveal outlives the host's own tie-break, and then counts the vote
      of a player who has died meanwhile. */
  lemma TallyCanOverrun(setup: Setup, bank: seq<Question>, usingCustom: bool, c: Conn)
    returns (w: World, e: Event, w': World)
    requires setup.controllerKey != "" && c.role == RoleController
    ensures Reachable(w, false) && e.FromController? && e.action.ActAdvanceReveal? && Heard(w.room, e)
    ensures Safe(w.room.game) && w' == Next(w, e) && Reachable(w', false)
    ensures SomebodyDies(w.room.game.players, w'.room.game.players) && w'.room.game.lastElimination.Some?
    ensures SumVotes(w'.room.game.lastElimination.value.tally) == 3 && Living(w.room.game) == 2
  {
    hide Reachable, FirstRound, Ballots, Performed, Perform, RecordGame, Inv, Base, SomebodyDies, SumVotes, Step,
         Record, Changed, Safe, Living;
    var seats := SeatThree(setup, bank, usingCustom, c, false);
    var v0 := BeginRound(seats, c, false);
    var v1 := EverybodyVotes(v0, c);
    var v2 := HostBreaksAReveal(v1, c);
    w := RevealOutlivesElimination(v2, c);
    ReachableInv(w, false);
    OverrunTally(w.room.game);
    e := FromController(c, ActAdvanceReveal, 0, [], "");
    MessageStep(w.room, e);
    ReachableNext(w, e, false);
    w' := Next(w, e);
  }
}
