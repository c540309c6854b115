/** What the state says about the events that led to it: the announced winner, the tally of a
    host's tie-break, the tokens in force and the bank of questions in use. */
module Histories {
  import opened Types
  import opened Text
  import opened Roster
  import opened Game
  import opened Actor
  import opened Basis
  import opened Ledger
  import opened ShootoutRuns
  import opened BallotRuns
  import opened ConnectionRuns
  import opened UiRuns
  import opened TurnRuns
  import opened WinnerRuns
  import opened Meaning
  import opened Runs
  import opened Eliminations
  import opened Theorems
  import opened Messages
  import Duel
  import Voting

  lemma EventHappens(ws: seq<World>, es: seq<Event>, i: nat)
    requires IsRun(ws, es) && i < |es|
    ensures |ws| == |es| + 1 && Happens(ws[i], es[i], ws[i + 1])
  {
    hide Moves, Opening;
  }

  lemma RunLength(ws: seq<World>, es: seq<Event>)
    requires IsRun(ws, es)
    ensures |ws| == |es| + 1
  {
  }

  // --- the winner ---

  lemma WinnerStep(w: World, e: Event, w': World)
    requires Base(w.room.game) && DuelInv(w.room.game) && WinnerInv(w.room.game) && Moves(w, e, w')
    ensures WinnerInv(w'.room.game)
  {
    hide Step, Record, Perform, Performed, RecordGame, OpOf, Base, DuelInv, WinnerInv;
    StepIsOp(w.room, w.book, e);
    match OpOf(w.room, e)
    case None =>
    case Some(op) => WinnerKept(w.room.game, op);
  }

  lemma NoWinnerAtOpening(w: World)
    requires exists setup, bank, usingCustom :: w == Opening(setup, bank, usingCustom)
    ensures WinnerInv(w.room.game)
  {
  }

  lemma {:induction false} WinnerOnRuns(ws: seq<World>, es: seq<Event>, i: nat)
    requires IsRun(ws, es) && i < |ws|
    ensures WinnerInv(ws[i].room.game)
  {
    hide Inv, Moves, WinnerInv, Base, DuelInv;
    if i == 0 {
      NoWinnerAtOpening(ws[0]);
    } else {
      WinnerOnRuns(ws, es, i - 1);
      AllRuns(ws, es, i - 1);
      InvParts(ws[i - 1]);
      assert Moves(ws[i - 1], es[i - 1], ws[i]);
      WinnerStep(ws[i - 1], es[i - 1], ws[i]);
    }
  }

  /** On all runs the name announced is the name of the player who won the shootout. */
  lemma WinnersAreAnnounced(ws: seq<World>, es: seq<Event>, i: nat)
    requires IsRun(ws, es) && i < |ws| && ws[i].room.game.shootout.Some?
    requires ws[i].room.game.shootout.value.winnerId != ""
    ensures var g := ws[i].room.game;
      exists k :: 0 <= k < |g.players| && g.players[k].id == g.shootout.value.winnerId && g.winner == g.players[k].name
  {
    WinnerOnRuns(ws, es, i);
  }

  lemma ShootoutMarksAreMessages(r: RoomValue, e: Event)
    requires OpOf(r, e).Some? && OpOf(r, e).value.ShootoutMark?
    ensures e.FromController? && e.action.ActShootoutMark?
  {
  }

  /** The game is over only with a winner, and it ends at the very event that sets one, which
      is a shootout mark. */
  lemma GamesEndWithAWinner(ws: seq<World>, es: seq<Event>, i: nat)
    requires IsRun(ws, es) && i < |es|
    ensures var g, h := ws[i].room.game, ws[i + 1].room.game;
      && (h.phase == PhaseGameOver ==> h.shootout.Some? && h.shootout.value.winnerId != "")
      && (g.shootout.Some? && g.shootout.value.winnerId == "" && h.shootout.Some? && h.shootout.value.winnerId != "" ==>
            g.phase != PhaseGameOver && h.phase == PhaseGameOver
            && es[i].FromController? && es[i].action.ActShootoutMark?)
  {
    hide Inv, Step, Record, Perform, Performed, RecordGame, OpOf, Base, DuelInv, Announced;
    WinnerOnRuns(ws, es, i);
    WinnerOnRuns(ws, es, i + 1);
    AllRuns(ws, es, i);
    InvParts(ws[i]);
    assert Moves(ws[i], es[i], ws[i + 1]);
    StepIsOp(ws[i].room, ws[i].book, es[i]);
    var g, h := ws[i].room.game, ws[i + 1].room.game;
    if g.shootout.Some? && g.shootout.value.winnerId == "" && h.shootout.Some? && h.shootout.value.winnerId != "" {
      var op := OpOf(ws[i].room, es[i]).value;
      WinnerEndsGame(g, op);
      ShootoutMarksAreMessages(ws[i].room, es[i]);
    }
  }

  // --- the tally of a host's tie-break ---

  /** Rows that agree in who they are and who is alive. */
  ghost predicate SameVoters(ps: seq<PlayerValue>, qs: seq<PlayerValue>) {
    && |ps| == |qs|
    && forall k :: 0 <= k < |ps| ==> ps[k].id == qs[k].id && ps[k].name == qs[k].name && ps[k].alive == qs[k].alive
  }

  /** The tie in w was made by the vote of v. */
  ghost predicate TieOf(w: World, v: World) {
    var g, ps := w.room.game, v.room.game.players;
    && g.ballot.tieCandidates.Some? && SameVoters(ps, g.players)
    && g.ballot.tieTally == Voting.Tally(ps, v.room.game.ballot.votes)
  }

  /** This operation leaves a tie, its tally and the roster alone. */
  ghost predicate KeepsTie(g: GameValue, h: GameValue) {
    h.ballot.tieCandidates.Some? ==>
      && g.ballot.tieCandidates == h.ballot.tieCandidates && g.ballot.tieTally == h.ballot.tieTally
      && SameVoters(g.players, h.players)
  }

  lemma TieKeptPlay(g: GameValue, op: Op)
    requires Safe(g) && PlayOp(op)
    ensures KeepsTie(g, Performed(g, op))
  {
    hide PushLog, PulledQuestion, PulledDeck, NextAsked, Find;
  }

  lemma TieKeptDuel(g: GameValue, op: Op)
    requires Safe(g) && DuelOp(op)
    ensures KeepsTie(g, Performed(g, op))
  {
    hide Perform, Performed;
    DuelOpEffect(g, op);
    SamePersonsAgree(g.players, Performed(g, op).players);
  }

  lemma TieKeptBallot(g: GameValue, op: Op)
    requires Safe(g) && BallotOp(op) && !op.AdvanceReveal?
    ensures KeepsTie(g, Performed(g, op))
  {
    hide PushLog, Voting.SortDesc, Voting.TallyRows, Voting.IdsAt, AliveIdx, Find;
  }

  lemma TieKeptMeta(g: GameValue, op: Op)
    requires Safe(g) && MetaOp(op)
    ensures KeepsTie(g, Performed(g, op))
  {
    hide PushLog, Find;
  }

  lemma TieKeptRoster(g: GameValue, op: Op)
    requires Safe(g) && RosterOp(op) && g.phase != PhaseLobby
    ensures KeepsTie(g, Performed(g, op))
  {
    hide PushLog, CleanName, JoinName, DedupeName, EqualFold, NamesOf, NameInUse, Find, Claimed;
  }

  lemma TieKept(g: GameValue, op: Op)
    requires Safe(g) && !op.AdvanceReveal? && g.phase != PhaseLobby
    ensures KeepsTie(g, Performed(g, op))
  {
    hide Perform, Performed, KeepsTie;
    if PlayOp(op) {
      TieKeptPlay(g, op);
    } else if DuelOp(op) {
      TieKeptDuel(g, op);
    } else if BallotOp(op) {
      TieKeptBallot(g, op);
    } else if RosterOp(op) {
      TieKeptRoster(g, op);
    } else {
      TieKeptMeta(g, op);
    }
  }

  /** A reveal step that makes a tie keeps the roster and stores the tally of the votes. */
  lemma TieMade(g: GameValue, op: Op)
    requires Safe(g) && op.AdvanceReveal? && g.ballot.tieCandidates.None?
    requires Performed(g, op).ballot.tieCandidates.Some?
    ensures var h := Performed(g, op);
      h.players == g.players && h.ballot.tieTally == Voting.Tally(g.players, g.ballot.votes)
  {
    hide PushLog, Voting.Resolve, Voting.Tally, Voting.SortDesc, Voting.TallyRows, Voting.IdsAt;
  }

  ghost predicate ByAdvance(r: RoomValue, e: Event) {
    OpOf(r, e).Some? && OpOf(r, e).value.AdvanceReveal?
  }

  lemma LobbyBallot(g: GameValue, h: GameValue)
    requires Base(g) && g.phase == PhaseLobby && NoNewCandidates(g, h)
    ensures h.ballot.tieCandidates.None?
  {
  }

  lemma LobbyHasNoTie(g: GameValue, op: Op)
    requires Base(g) && g.phase == PhaseLobby && !op.AdvanceReveal?
    ensures Performed(g, op).ballot.tieCandidates.None?
  {
    hide NoNewCandidates;
    CandidatesStart(g, op);
    assert NoNewCandidates(g, Performed(g, op)) ==> Performed(g, op).ballot.tieCandidates.None? by {
      LobbyBallot(g, Performed(g, op));
    }
  }

  lemma TieStep(w: World, e: Event, w': World) returns (made: bool)
    requires Inv(w) && UiInv(w.room.game, w.book) && Moves(w, e, w') && UiEvent(w.room, e)
    requires w'.room.game.ballot.tieCandidates.Some?
    ensures if made then ByAdvance(w.room, e) && TieOf(w', w) else KeepsTie(w.room.game, w'.room.game)
  {
    hide Inv, Step, Record, Perform, Performed, RecordGame, OpOf, InRound, InFinal, AfterElimination, Voting.Tally,
         CandidatesLive, UiEvent;
    InvIsBase(w);
    StepIsOp(w.room, w.book, e);
    var g := w.room.game;
    made := false;
    match OpOf(w.room, e)
    case None =>
    case Some(op) =>
      OfferedIsLegal(w.room, e);
      if op.AdvanceReveal? {
        made := true;
        TieMade(g, op);
      } else if g.phase != PhaseLobby {
        TieKept(g, op);
      } else {
        LobbyHasNoTie(g, op);
      }
  }

  lemma TieGoesOn(v: World, w: World, w': World)
    requires TieOf(w, v) && KeepsTie(w.room.game, w'.room.game) && w'.room.game.ballot.tieCandidates.Some?
    ensures TieOf(w', v)
  {
    hide Voting.Tally;
  }

  lemma NoTieAtOpening(w: World)
    requires exists setup, bank, usingCustom :: w == Opening(setup, bank, usingCustom)
    ensures w.room.game.ballot.tieCandidates.None?
  {
  }

  /** On runs through the page a tie was made by one reveal step, and its tally is that vote's. */
  lemma {:induction false} TieHasOrigin(ws: seq<World>, es: seq<Event>, i: nat) returns (s: nat)
    requires IsUiRun(ws, es) && i < |ws| && ws[i].room.game.ballot.tieCandidates.Some?
    ensures s < i && ByAdvance(ws[s].room, es[s]) && TieOf(ws[i], ws[s])
  {
    hide Inv, UiInv, AskedInv, Moves, UiEvent, ByAdvance, TieOf, SameVoters;
    NoTieAtOpening(ws[0]);
    assert i > 0;
    AllUiRuns(ws, es, i - 1);
    UiMoves(ws, es, i - 1);
    var made := TieStep(ws[i - 1], es[i - 1], ws[i]);
    if made {
      s := i - 1;
    } else {
      s := TieHasOrigin(ws, es, i - 1);
      TieGoesOn(ws[s], ws[i - 1], ws[i]);
    }
  }

  /** The rows that a tally shows depend only on who the players are. */
  lemma {:induction false} SameRows(ps: seq<PlayerValue>, qs: seq<PlayerValue>, tally: map<string, nat>)
    requires |ps| == |qs| && forall k :: 0 <= k < |ps| ==> ps[k].id == qs[k].id && ps[k].name == qs[k].name
    ensures Voting.TallyRows(ps, tally) == Voting.TallyRows(qs, tally)
  {
    if ps != [] {
      SameRows(ps[..|ps| - 1], qs[..|qs| - 1], tally);
    }
  }

  lemma ShownTieTally(ps: seq<PlayerValue>, votes: map<string, string>, g: GameValue, id: string, now: int)
    requires DistinctIds(ps) && SameVoters(ps, g.players) && g.ballot.tieTally == Voting.Tally(ps, votes)
    requires Listed(g.players, id)
    ensures var h := Apply(g, DoManualTieBreak(g, id, now));
      h.lastElimination.Some? && ShowsTheVote(ps, votes, h.lastElimination.value.tally)
  {
    hide PushLog, Voting.SortDesc, Voting.TallyRows, Voting.Tally, Find, LivingRows, Descending;
    FoundIsListed(g.players, id);
    var i := Find(g.players, id).value;
    var qs := g.players[i := g.players[i].(alive := false)];
    TallyKnowsTheLiving(ps, votes);
    SameRows(qs, ps, g.ballot.tieTally);
    TallyRowsAreLiving(ps, ps, g.ballot.tieTally, votes);
    SortDescIsStable(LivingRows(ps, votes));
  }

  lemma OfferedTie(r: RoomValue, e: Event)
    requires UiEvent(r, e) && e.FromController? && e.action.ActManualTieBreak?
    ensures r.game.ballot.tieCandidates.Some? && e.action.id in r.game.ballot.tieCandidates.value
    ensures Listed(r.game.players, e.action.id)
  {
    FoundIsListed(r.game.players, e.action.id);
  }

  lemma TieBreakStep(r: RoomValue, e: Event)
    requires Safe(r.game) && !r.stopped && e.FromController? && e.conn.role == RoleController
    requires e.action.ActManualTieBreak?
    ensures Step(r, e).game == Apply(r.game, DoManualTieBreak(r.game, e.action.id, e.now))
  {
    hide DoManualTieBreak;
  }

  /** On runs through the page a host's tie-break shows the vote that made the tie: its living
      roster, its votes, most votes first. */
  lemma TieBreaksShowTheVote(ws: seq<World>, es: seq<Event>, i: nat) returns (s: nat)
    requires IsUiRun(ws, es) && i < |es| && Controls(ws[i], es[i]) && es[i].action.ActManualTieBreak?
    ensures ws[i + 1].room.game.lastElimination.Some?
    ensures s < i && ByAdvance(ws[s].room, es[s]) && SameVoters(ws[s].room.game.players, ws[i].room.game.players)
    ensures ShowsTheVote(ws[s].room.game.players, ws[s].room.game.ballot.votes,
                         ws[i + 1].room.game.lastElimination.value.tally)
  {
    hide Inv, Step, Record, Perform, Performed, OpOf, ByAdvance, SameVoters, Voting.Tally, DoManualTieBreak,
         ShowsTheVote, Base, LegalEvent;
    UiMoves(ws, es, i);
    OfferedTie(ws[i].room, es[i]);
    s := TieHasOrigin(ws, es, i);
    AllRuns(ws, es, s);
    InvIsBase(ws[s]);
    BaseIsDistinct(ws[s].room.game);
    var id := es[i].action.id;
    ShownTieTally(ws[s].room.game.players, ws[s].room.game.ballot.votes, ws[i].room.game, id, es[i].now);
    TieBreakStep(ws[i].room, es[i]);
  }

  // --- tokens and keys ---

  /** Whose row a join takes over, going by the tokens issued so far: the owner's of the token
      presented, else the first offline namesake's, else in the lobby a new one. */
  ghost function JoinedId(g: GameValue, issued: map<string, string>, e: Event): (id: Option<string>)
    requires e.JoinRequest?
  {
    if e.rejoinId != "" && Listed(g.players, e.rejoinId)
       && e.rejoinId in issued && issued[e.rejoinId] == e.rejoinToken then
      Some(e.rejoinId)
    else
      match OfflineNamesake(g, JoinName(e.name), 0)
      case Some(i) => Some(g.players[i].id)
      case None => if g.phase == PhaseLobby then Some(e.newId) else None
  }

  /** The token in force for each id, as an onlooker of the joins writes it down. */
  ghost function Issued(ws: seq<World>, es: seq<Event>, i: nat): map<string, string>
    requires i < |ws| == |es| + 1
  {
    if i == 0 then map[]
    else
      var before, r, e := Issued(ws, es, i - 1), ws[i - 1].room, es[i - 1];
      if r.stopped then before
      else if e.JoinRequest? then
        match JoinedId(r.game, before, e)
        case Some(id) => before[id := e.newToken]
        case None => before
      else if e.FromController? && e.conn.role == RoleController && e.action.ActAddPlayer? then before[e.newId := ""]
      else before
  }

  /** Every row holds the token issued for it. */
  ghost predicate TokensMatch(ps: seq<PlayerValue>, issued: map<string, string>) {
    forall k :: 0 <= k < |ps| ==> ps[k].id in issued && issued[ps[k].id] == ps[k].token
  }

  lemma OwnRowIsIssued(g: GameValue, issued: map<string, string>, e: Event)
    requires Base(g) && TokensMatch(g.players, issued) && e.JoinRequest?
    ensures (exists i: nat :: OwnRow(g, i, e.rejoinId, e.rejoinToken)) <==>
      e.rejoinId != "" && Listed(g.players, e.rejoinId) && e.rejoinId in issued && issued[e.rejoinId] == e.rejoinToken
  {
    hide FreshLobby, Targets;
    if i: nat :| OwnRow(g, i, e.rejoinId, e.rejoinToken) {
      assert g.players[i].id == e.rejoinId;
    }
    if e.rejoinId != "" && Listed(g.players, e.rejoinId)
       && e.rejoinId in issued && issued[e.rejoinId] == e.rejoinToken {
      var i: nat :| i < |g.players| && g.players[i].id == e.rejoinId;
      assert OwnRow(g, i, e.rejoinId, e.rejoinToken);
    }
  }

  lemma NamesakeIsFirst(g: GameValue, name: string)
    ensures match OfflineNamesake(g, name, 0)
      case Some(i) => FirstNamesake(g, i, name) && forall j: nat :: FirstNamesake(g, j, name) ==> j == i
      case None => !exists i: nat :: FirstNamesake(g, i, name)
  {
    hide EqualFold;
  }

  lemma RowComesBack(ps: seq<PlayerValue>, i: nat, token: string, issued: map<string, string>)
    requires DistinctIds(ps) && i < |ps| && TokensMatch(ps, issued)
    ensures TokensMatch(ps[i := ps[i].(connected := true, token := token)], issued[ps[i].id := token])
  {
  }

  lemma RowIsNew(ps: seq<PlayerValue>, qs: seq<PlayerValue>, issued: map<string, string>, id: string, token: string)
    requires TokensMatch(ps, issued) && |qs| == |ps| + 1 && qs[..|ps|] == ps
    requires qs[|ps|].id == id && qs[|ps|].token == token && forall k :: 0 <= k < |ps| ==> ps[k].id != id
    ensures TokensMatch(qs, issued[id := token])
  {
    assert forall k :: 0 <= k < |ps| ==> qs[..|ps|][k] == qs[k];
  }

  lemma OwnRowIs(g: GameValue, i: nat, id: string, token: string)
    requires OwnRow(g, i, id, token)
    ensures i < |g.players| && g.players[i].id == id && g.players[i].token == token
  {
  }

  lemma JoinKeepsTokens(g: GameValue, h: GameValue, issued: map<string, string>, e: Event)
    requires Base(g) && TokensMatch(g.players, issued) && e.JoinRequest?
    requires forall k :: 0 <= k < |g.players| ==> g.players[k].id != e.newId
    requires MeansJoin(g, h, e.name, e.rejoinId, e.rejoinToken, e.newId, e.newToken)
    ensures match JoinedId(g, issued, e)
      case Some(id) => TokensMatch(h.players, issued[id := e.newToken])
      case None => TokensMatch(h.players, issued)
  {
    hide TokensMatch, OwnRow, FirstNamesake, JoinName, NamedAfter, OfflineNamesake, FreshLobby, Targets;
    OwnRowIsIssued(g, issued, e);
    NamesakeIsFirst(g, JoinName(e.name));
    if exists i: nat :: OwnRow(g, i, e.rejoinId, e.rejoinToken) {
      var i: nat :| OwnRow(g, i, e.rejoinId, e.rejoinToken) && ComesBack(g, h, i, e.newToken);
      OwnRowIs(g, i, e.rejoinId, e.rejoinToken);
      RowComesBack(g.players, i, e.newToken, issued);
    } else if exists i: nat :: FirstNamesake(g, i, JoinName(e.name)) {
      var i: nat :| FirstNamesake(g, i, JoinName(e.name)) && ComesBack(g, h, i, e.newToken);
      RowComesBack(g.players, i, e.newToken, issued);
    } else if g.phase == PhaseLobby {
      RowIsNew(g.players, h.players, issued, e.newId, e.newToken);
    }
  }

  ghost predicate SameTokens(ps: seq<PlayerValue>, qs: seq<PlayerValue>) {
    |ps| == |qs| && forall k :: 0 <= k < |ps| ==> ps[k].id == qs[k].id && ps[k].token == qs[k].token
  }

  lemma TokensKeptPlay(g: GameValue, op: Op)
    requires Safe(g) && PlayOp(op)
    ensures SameTokens(g.players, Performed(g, op).players)
  {
    hide PushLog, PulledQuestion, PulledDeck, NextAsked, Find;
  }

  lemma TokensKeptDuel(g: GameValue, op: Op)
    requires Safe(g) && DuelOp(op)
    ensures SameTokens(g.players, Performed(g, op).players)
  {
    hide Perform, Performed;
    DuelOpEffect(g, op);
    var ps, qs := g.players, Performed(g, op).players;
    forall k | 0 <= k < |ps| ensures ps[k].id == qs[k].id && ps[k].token == qs[k].token {
      assert ps[k].(correct := 0, incorrect := 0) == qs[k].(correct := 0, incorrect := 0);
    }
  }

  lemma TokensKeptBallot(g: GameValue, op: Op)
    requires Safe(g) && BallotOp(op)
    ensures SameTokens(g.players, Performed(g, op).players)
  {
    hide PushLog, Voting.SortDesc, Voting.TallyRows, Voting.Tally, Voting.Resolve, Voting.IdsAt, AliveIdx, Find;
  }

  lemma TokensKeptMeta(g: GameValue, op: Op)
    requires Safe(g) && (MetaOp(op) || op.Rename?)
    ensures SameTokens(g.players, Performed(g, op).players)
  {
    hide PushLog, Find, CleanName, NameInUse;
  }

  lemma TokensKeptKick(g: GameValue, op: Op, issued: map<string, string>)
    requires Base(g) && op.KickPlayer? && TokensMatch(g.players, issued)
    ensures TokensMatch(Performed(g, op).players, issued)
  {
    hide PushLog, Find, FreshLobby, Targets;
  }

  lemma TokensKept(g: GameValue, op: Op, issued: map<string, string>)
    requires Base(g) && !op.JoinGame? && !op.AddPlayer? && TokensMatch(g.players, issued)
    ensures TokensMatch(Performed(g, op).players, issued)
  {
    hide Perform, Performed, Base;
    BaseIsSafe(g);
    if op.KickPlayer? {
      TokensKeptKick(g, op, issued);
    } else if PlayOp(op) {
      TokensKeptPlay(g, op);
    } else if DuelOp(op) {
      TokensKeptDuel(g, op);
    } else if BallotOp(op) {
      TokensKeptBallot(g, op);
    } else {
      TokensKeptMeta(g, op);
    }
  }

  lemma AddKeepsTokens(g: GameValue, h: GameValue, name: string, newId: string, issued: map<string, string>)
    requires TokensMatch(g.players, issued) && MeansAdd(g, h, name, newId)
    requires forall k :: 0 <= k < |g.players| ==> g.players[k].id != newId
    ensures TokensMatch(h.players, issued[newId := ""])
  {
    hide CleanName, NamedAfter;
    if h.players != g.players {
      RowIsNew(g.players, h.players, issued, newId, "");
    }
  }

  /** An id brought in by an event is not in use. */
  lemma FreshIds(r: RoomValue, e: Event)
    requires LegalEvent(r, e) && !r.stopped
    ensures e.JoinRequest? || (e.FromController? && e.conn.role == RoleController && e.action.ActAddPlayer?) ==>
      forall k :: 0 <= k < |r.game.players| ==> r.game.players[k].id != e.newId
  {
  }

  lemma QuietAboutTokens(r: RoomValue, e: Event)
    requires !e.JoinRequest? && !(e.FromController? && e.conn.role == RoleController && e.action.ActAddPlayer?)
    ensures OpOf(r, e).Some? ==> !OpOf(r, e).value.JoinGame? && !OpOf(r, e).value.AddPlayer?
  {
  }

  lemma AddAction(g: GameValue, h: GameValue, e: Event)
    requires e.FromController? && e.action.ActAddPlayer? && ActionMeans(g, h, e.action, e.now, e.newId)
    ensures MeansAdd(g, h, e.action.name, e.newId)
  {
  }

  lemma TokenStep(ws: seq<World>, es: seq<Event>, i: nat)
    requires IsRun(ws, es) && i < |es| && TokensMatch(ws[i].room.game.players, Issued(ws, es, i))
    ensures TokensMatch(ws[i + 1].room.game.players, Issued(ws, es, i + 1))
  {
    hide Inv, Step, Record, Perform, Performed, RecordGame, OpOf, Happens, LegalEvent, MeansJoin, MeansAdd, ActionMeans,
         TokensMatch, JoinedId, Base, DuelInv, Safe, IsRun;
    EventHappens(ws, es, i);
    var w, e, w', issued := ws[i], es[i], ws[i + 1], Issued(ws, es, i);
    HappensInv(w, e, w');
    assert Issued(ws, es, i + 1) == if w.room.stopped then issued else Issued(ws, es, i + 1);
    if w.room.stopped {
      UnheardMessages(w, e, w');
    } else {
      FreshIds(w.room, e);
      if e.JoinRequest? {
        Joins(w, e, w');
        JoinKeepsTokens(w.room.game, w'.room.game, issued, e);
      } else if e.FromController? && e.conn.role == RoleController && e.action.ActAddPlayer? {
        ControllerMessages(w, e, w');
        AddAction(w.room.game, w'.room.game, e);
        AddKeepsTokens(w.room.game, w'.room.game, e.action.name, e.newId, issued);
      } else {
        QuietAboutTokens(w.room, e);
        StepIsOp(w.room, w.book, e);
        if OpOf(w.room, e).Some? {
          TokensKept(w.room.game, OpOf(w.room, e).value, issued);
        }
      }
    }
  }

  lemma NoTokensAtOpening(ws: seq<World>, es: seq<Event>)
    requires |ws| == |es| + 1 && exists setup, bank, usingCustom :: ws[0] == Opening(setup, bank, usingCustom)
    ensures TokensMatch(ws[0].room.game.players, Issued(ws, es, 0))
  {
  }

  /** On all runs every player's token is the one issued by the last join that brought the
      player in; players added by hand hold none. */
  lemma {:induction false} TokensAreIssued(ws: seq<World>, es: seq<Event>, i: nat)
    requires IsRun(ws, es) && i < |ws|
    ensures |ws| == |es| + 1 && TokensMatch(ws[i].room.game.players, Issued(ws, es, i))
  {
    hide Moves, TokensMatch, Issued;
    if i == 0 {
      NoTokensAtOpening(ws, es);
    } else {
      TokensAreIssued(ws, es, i - 1);
      TokenStep(ws, es, i - 1);
    }
  }

  lemma OwnRowByToken(g: GameValue, issued: map<string, string>, id: string, token: string)
    requires Base(g) && TokensMatch(g.players, issued)
    ensures (exists i: nat :: OwnRow(g, i, id, token)) <==>
      Listed(g.players, id) && id in issued && issued[id] == token
  {
    hide FreshLobby, Targets;
    if i: nat :| OwnRow(g, i, id, token) {
      assert g.players[i].id == id;
    }
    if Listed(g.players, id) && id in issued && issued[id] == token {
      var i: nat :| i < |g.players| && g.players[i].id == id;
      assert OwnRow(g, i, id, token);
    }
  }

  /** On all runs a player connection is registered exactly with the token issued last for
      that player; with any other token the whole room stays as it was. */
  lemma AttachesNeedTheToken(ws: seq<World>, es: seq<Event>, i: nat)
    requires IsRun(ws, es) && i < |es| && es[i].AttachRequest? && es[i].conn.role == RolePlayer && !ws[i].room.stopped
    ensures |ws| == |es| + 1
    ensures var r, s, e, issued := ws[i].room, ws[i + 1].room, es[i], Issued(ws, es, i);
      if e.token != "" && Listed(r.game.players, e.conn.playerId) && e.conn.playerId in issued
         && issued[e.conn.playerId] == e.token then Registered(s, e.conn)
      else s == r
  {
    hide Inv, Step, Record, Happens, LegalEvent, MeansAttach, IsRun, Issued, Base, DuelInv, Safe;
    EventHappens(ws, es, i);
    HappensInv(ws[i], es[i], ws[i + 1]);
    Attaches(ws[i], es[i], ws[i + 1]);
    TokensAreIssued(ws, es, i);
    OwnRowByToken(ws[i].room.game, Issued(ws, es, i), es[i].conn.playerId, es[i].token);
  }

  /** This event presented the token then in force for the connection's player. */
  ghost predicate ShowedToken(ws: seq<World>, es: seq<Event>, s: nat, conn: Conn) {
    && s < |es| && |ws| == |es| + 1 && es[s].AttachRequest? && es[s].conn == conn && es[s].token != ""
    && conn.playerId in Issued(ws, es, s) && Issued(ws, es, s)[conn.playerId] == es[s].token
  }

  lemma NobodyAtOpening(ws: seq<World>, es: seq<Event>, conn: Conn)
    requires IsRun(ws, es)
    ensures ws != [] && !Registered(ws[0].room, conn) && conn !in ws[0].room.controllers
  {
    hide Moves;
  }

  lemma RoomMoves(w: World, e: Event, w': World)
    requires Moves(w, e, w')
    ensures Safe(w.room.game) && w'.room == Step(w.room, e)
  {
  }

  /** Whoever is registered has shown the token in force. */
  lemma {:induction false} RegisteredMeansToken(ws: seq<World>, es: seq<Event>, i: nat, conn: Conn) returns (s: nat)
    requires IsRun(ws, es) && i < |ws| && Registered(ws[i].room, conn) && conn.role == RolePlayer
    ensures s < i && ShowedToken(ws, es, s, conn)
  {
    hide Inv, Step, Record, Happens, LegalEvent, IsRun, Issued, Base, DuelInv, Safe, Registered, Moves;
    RunLength(ws, es);
    NobodyAtOpening(ws, es, conn);
    assert i > 0;
    EventHappens(ws, es, i - 1);
    HappensInv(ws[i - 1], es[i - 1], ws[i]);
    RoomMoves(ws[i - 1], es[i - 1], ws[i]);
    if Registered(ws[i - 1].room, conn) {
      s := RegisteredMeansToken(ws, es, i - 1, conn);
    } else {
      if !(es[i - 1].AttachRequest? && es[i - 1].conn == conn) {
        SupersededForGood(ws[i - 1].room, es[i - 1], conn);
        assert false;
      }
      if ws[i - 1].room.stopped {
        UnheardMessages(ws[i - 1], es[i - 1], ws[i]);
        assert false;
      }
      s := i - 1;
      AttachesNeedTheToken(ws, es, s);
    }
  }

  /** Every event but the attach with the room's key leaves a connection out of the controllers. */
  lemma ControllersStayOut(w: World, e: Event, w': World, conn: Conn)
    requires Happens(w, e, w') && conn !in w.room.controllers && conn in w'.room.controllers
    ensures e.AttachRequest? && e.conn == conn && conn.role == RoleController
    ensures e.token != "" && e.token == w.room.game.setup.controllerKey
  {
    hide Inv, Record, Perform, Performed, Base, DuelInv, Safe, Happens, LegalEvent;
    HappensInv(w, e, w');
  }

  /** Whoever controls the room has shown its key. */
  lemma {:induction false} ControllersMeanKey(ws: seq<World>, es: seq<Event>, i: nat, conn: Conn) returns (s: nat)
    requires IsRun(ws, es) && i < |ws| && conn in ws[i].room.controllers
    ensures |ws| == |es| + 1 && s < i && es[s].AttachRequest? && es[s].conn == conn && conn.role == RoleController
    ensures es[s].token != "" && es[s].token == ws[s].room.game.setup.controllerKey
  {
    hide Happens, IsRun;
    RunLength(ws, es);
    NobodyAtOpening(ws, es, conn);
    assert i > 0;
    EventHappens(ws, es, i - 1);
    if conn in ws[i - 1].room.controllers {
      s := ControllersMeanKey(ws, es, i - 1, conn);
    } else {
      s := i - 1;
      ControllersStayOut(ws[i - 1], es[i - 1], ws[i], conn);
    }
  }

  // --- the bank of questions in use ---

  /** The bank in use, going by the uploads alone: the last one accepted, or the community's
      after a reset, or the one the room was opened with. */
  ghost function BankInUse(ws: seq<World>, es: seq<Event>, i: nat): seq<Question>
    requires i < |ws| == |es| + 1
  {
    if i == 0 then ws[0].room.game.cards.questionBank
    else if !Controls(ws[i - 1], es[i - 1]) then BankInUse(ws, es, i - 1)
    else
      match es[i - 1].action
      case ActSetQuestionBank(questions) => if questions == [] then BankInUse(ws, es, i - 1) else questions
      case ActResetQuestionBank => ws[0].room.game.setup.communityBank
      case _ => BankInUse(ws, es, i - 1)
  }

  ghost predicate SameBank(g: GameValue, h: GameValue) {
    h.cards.questionBank == g.cards.questionBank && h.setup == g.setup
  }

  lemma PlayKeepsBank(g: GameValue, op: Op)
    requires Safe(g) && (PlayOp(op) || DuelOp(op))
    ensures SameBank(g, Performed(g, op))
  {
    hide PushLog, PulledQuestion, PulledDeck, NextAsked, Find, Duel.CheckEnd, Duel.Recorded, Duel.Seat;
  }

  lemma OthersKeepBank(g: GameValue, op: Op)
    requires Safe(g) && !PlayOp(op) && !DuelOp(op) && !op.SetQuestionBank? && !op.ResetQuestionBank?
    ensures SameBank(g, Performed(g, op))
  {
    hide PushLog, Find, CleanName, JoinName, DedupeName, NamesOf, NameInUse, Claimed, Voting.SortDesc, Voting.TallyRows,
         Voting.Tally, Voting.Resolve, Voting.IdsAt, AliveIdx;
  }

  lemma OpsKeepBank(g: GameValue, op: Op)
    requires Safe(g) && !op.SetQuestionBank? && !op.ResetQuestionBank?
    ensures SameBank(g, Performed(g, op))
  {
    if PlayOp(op) || DuelOp(op) {
      PlayKeepsBank(g, op);
    } else {
      OthersKeepBank(g, op);
    }
  }

  lemma QuietAboutBanks(w: World, e: Event)
    requires !(Controls(w, e) && (e.action.ActSetQuestionBank? || e.action.ActResetQuestionBank?))
    ensures OpOf(w.room, e).Some? ==>
      !OpOf(w.room, e).value.SetQuestionBank? && !OpOf(w.room, e).value.ResetQuestionBank?
  {
  }

  lemma UploadAction(g: GameValue, h: GameValue, e: Event)
    requires e.FromController? && ActionMeans(g, h, e.action, e.now, e.newId)
    ensures e.action.ActSetQuestionBank? ==> MeansUpload(g, h, e.action.questions)
    ensures e.action.ActResetQuestionBank? ==> MeansReset(g, h)
  {
  }

  lemma BankStep(w: World, e: Event, w': World)
    requires Happens(w, e, w')
    ensures w'.room.game.setup == w.room.game.setup
    ensures w'.room.game.cards.questionBank ==
      if !Controls(w, e) then w.room.game.cards.questionBank
      else
        match e.action
        case ActSetQuestionBank(questions) => if questions == [] then w.room.game.cards.questionBank else questions
        case ActResetQuestionBank => w.room.game.setup.communityBank
        case _ => w.room.game.cards.questionBank
  {
    hide Inv, Step, Record, Perform, Performed, RecordGame, OpOf, Happens, LegalEvent, Base, DuelInv, Safe, ActionMeans;
    HappensInv(w, e, w');
    if Controls(w, e) && (e.action.ActSetQuestionBank? || e.action.ActResetQuestionBank?) {
      ControllerMessages(w, e, w');
      UploadAction(w.room.game, w'.room.game, e);
    } else {
      QuietAboutBanks(w, e);
      StepIsOp(w.room, w.book, e);
      if OpOf(w.room, e).Some? {
        OpsKeepBank(w.room.game, OpOf(w.room, e).value);
      }
    }
  }

  /** On all runs questions are drawn from the bank uploaded last. */
  lemma {:induction false} LastUploadIsInUse(ws: seq<World>, es: seq<Event>, i: nat)
    requires IsRun(ws, es) && i < |ws|
    ensures |ws| == |es| + 1 && ws[i].room.game.cards.questionBank == BankInUse(ws, es, i)
    ensures ws[i].room.game.setup == ws[0].room.game.setup
  {
    hide IsRun, Happens, Controls;
    RunLength(ws, es);
    if i > 0 {
      LastUploadIsInUse(ws, es, i - 1);
      EventHappens(ws, es, i - 1);
      BankStep(ws[i - 1], es[i - 1], ws[i]);
    }
  }
}
