/** What holds on every run of a room, in the game's own terms. */
module Theorems {
  import opened Types
  import opened Text
  import opened Roster
  import opened Game
  import opened Actor
  import opened Basis
  import opened Ledger
  import opened ShootoutRule
  import opened ShootoutRuns
  import opened BallotRuns
  import opened MoneyRuns
  import opened ConnectionRuns
  import opened UiRuns
  import opened TurnRuns
  import opened ProgressRuns
  import opened Views
  import opened Secrecy
  import opened Runs
  import opened Eliminations
  import Deck
  import Duel
  import Voting

  // --- all runs ---

  /** No operation ever indexes or dereferences what is not there: every event that brings
      fresh ids can be taken. */
  lemma NoOperationFails(ws: seq<World>, es: seq<Event>, i: nat, e: Event)
    requires IsRun(ws, es) && i < |ws| && LegalEvent(ws[i].room, e)
    ensures exists w :: Moves(ws[i], e, w)
  {
    AllRuns(ws, es, i);
    assert Moves(ws[i], e, World(Step(ws[i].room, e), Record(ws[i].book, ws[i].room, e)));
  }

  /** The shootout stops at the first wave boundary at which the rule has decided. */
  lemma ShootoutsAreExact(ws: seq<World>, es: seq<Event>, i: nat)
    requires IsRun(ws, es) && i < |ws| && ws[i].room.game.shootout.Some?
    ensures var sh := ws[i].room.game.shootout.value;
      if sh.winnerId == "" then sh.roundIndex <= |sh.rounds| && Open(Pairs(sh.rounds[..sh.roundIndex]))
      else
        && (exists side: nat :: side <= 1 && sh.winnerId == Duel.Seat(sh, side) && Settled(Pairs(sh.rounds), side))
        && (forall k :: 0 <= k < |sh.rounds| ==> Open(Pairs(sh.rounds)[..k]))
  {
    AllRuns(ws, es, i);
    ShootoutIsExact(ws[i].room.game.shootout.value);
  }

  /** Waves before the current one are complete; without a winner, seat 1 is up exactly when
      seat 0 alone has answered in the current wave, sudden death is level, and before it a
      lead can still be made up.  A winner leaves no question and no open wave. */
  lemma ShootoutsKeepShape(ws: seq<World>, es: seq<Event>, i: nat)
    requires IsRun(ws, es) && i < |ws| && ws[i].room.game.shootout.Some?
    ensures var sh := ws[i].room.game.shootout.value;
      && sh.turn <= 1 && sh.roundIndex <= |sh.rounds|
      && (forall k :: 0 <= k < sh.roundIndex ==> Complete(sh.rounds[k]))
      && (if sh.winnerId != "" then sh.question.None? && forall k :: 0 <= k < |sh.rounds| ==> Complete(sh.rounds[k])
          else
            var lead := Duel.ScoreOf(sh.rounds[..sh.roundIndex], 0) - Duel.ScoreOf(sh.rounds[..sh.roundIndex], 1);
            var left := REGULATION_ROUNDS - sh.roundIndex;
            && |sh.rounds| == sh.roundIndex + sh.turn
            && (sh.turn == 1 ==> sh.rounds[sh.roundIndex].p0.Some? && sh.rounds[sh.roundIndex].p1.None?)
            && (if sh.sudden then lead == 0 else -left <= lead <= left))
  {
    hide Running, Stop, Duel.ScoreOf;
    AllRuns(ws, es, i);
    var sh := ws[i].room.game.shootout.value;
    if sh.winnerId == "" {
      UndecidedScores(sh);
    }
  }

  /** The bank is what the banked chains are worth, the chain is the current streak, every
      mark is on somebody's count, and the bank never outgrows the right answers. */
  lemma MoneyAddsUp(ws: seq<World>, es: seq<Event>, i: nat)
    requires IsRun(ws, es) && i < |ws|
    ensures var g, b := ws[i].room.game, ws[i].book;
      && g.table.bank == Winnings(b.money)
      && g.table.chainIndex == LadderSteps(b.money) - 1
      && SumCorrect(g.players) + SumIncorrect(g.players) == b.marks
      && 13 * g.table.bank + 1000 * (g.table.chainIndex + 1) <= 1000 * SumCorrect(g.players)
  {
    AllRuns(ws, es, i);
  }

  /** Names stay apart, however they are cased. */
  lemma NamesStayApart(ws: seq<World>, es: seq<Event>, i: nat, j: nat, k: nat)
    requires IsRun(ws, es) && i < |ws|
    requires j < |ws[i].room.game.players| && k < |ws[i].room.game.players| && j != k
    ensures var g := ws[i].room.game; !EqualFold(g.setup.fold, g.players[j].name, g.players[k].name)
  {
    AllRuns(ws, es, i);
    var ps := ws[i].room.game.players;
    if j < k {
      assert !EqualFold(ws[i].room.game.setup.fold, ps[j].name, ps[k].name);
    } else {
      assert !EqualFold(ws[i].room.game.setup.fold, ps[k].name, ps[j].name);
    }
  }

  /** While votes are taken, every vote is a living player's. */
  lemma VotersAreAlive(ws: seq<World>, es: seq<Event>, i: nat, voter: string)
    requires IsRun(ws, es) && i < |ws| && ws[i].room.game.phase == PhaseVoting
    requires voter in ws[i].room.game.ballot.votes
    ensures AliveListed(ws[i].room.game.players, voter)
  {
    AllRuns(ws, es, i);
  }

  ghost predicate SomebodyDies(ps: seq<PlayerValue>, qs: seq<PlayerValue>) {
    exists k :: 0 <= k < |ps| && k < |qs| && ps[k].alive && !qs[k].alive
  }

  /** A reveal step that kills somebody is the last one, and resolves the votes. */
  lemma LastReveal(g: GameValue, op: Op) returns (g1: GameValue)
    requires Base(g) && op.AdvanceReveal? && SomebodyDies(g.players, Performed(g, op).players)
    ensures Base(g1) && g1.players == g.players && g1.ballot.votes == g.ballot.votes
    ensures Performed(g, op) == ResolveVotes(g1, op.now)
    ensures Voting.Resolve(g.players, g.ballot.votes).Eliminate?
  {
    hide PushLog, Voting.Resolve, FinalizeElimination;
    g1 := g.(ballot := g.ballot.(revealIndex := g.ballot.revealIndex + 1, revealing := false));
  }

  lemma AdvanceIsOp(r: RoomValue, e: Event)
    requires e.FromController? && e.action.ActAdvanceReveal?
    ensures OpOf(r, e) == if r.stopped || e.conn.role != RoleController then None else Some(AdvanceReveal(e.now))
  {
  }

  lemma InvIsBase(w: World)
    requires Inv(w)
    ensures Base(w.room.game)
  {
  }

  lemma BaseIsDistinct(g: GameValue)
    requires Base(g)
    ensures DistinctIds(g.players)
  {
  }

  /** In any phase, a reveal that kills somebody kills exactly the weakest player: of those
      with most votes, the only one with the lowest score.  The tally shown is the living
      roster's, and its sum is the number of votes for living players. */
  lemma EliminationsAreJust(ws: seq<World>, es: seq<Event>, i: nat)
    requires IsRun(ws, es) && i < |es| && es[i].FromController? && es[i].action.ActAdvanceReveal?
    requires SomebodyDies(ws[i].room.game.players, ws[i + 1].room.game.players)
    ensures var ps, votes, h := ws[i].room.game.players, ws[i].room.game.ballot.votes, ws[i + 1].room.game;
      && (exists k: nat ::
            && k < |ps| && (forall j :: j == k <==> Voting.Weakest(ps, votes, j))
            && h.players == ps[k := ps[k].(alive := false)]
            && h.lastElimination.Some? && h.lastElimination.value.name == ps[k].name)
      && ShowsTheVote(ps, votes, h.lastElimination.value.tally)
      && SumVotes(h.lastElimination.value.tally) == |VotersFor(votes, AliveIds(ps))|
  {
    hide Inv, Step, Record, Perform, Performed, RecordGame, OpOf, ShowsTheVote, SumVotes, Voting.Weakest,
         VotersFor, ResolveVotes, Base;
    AllRuns(ws, es, i);
    InvIsBase(ws[i]);
    BaseIsSafe(ws[i].room.game);
    assert Moves(ws[i], es[i], ws[i + 1]);
    StepIsOp(ws[i].room, ws[i].book, es[i]);
    AdvanceIsOp(ws[i].room, es[i]);
    var g, op := ws[i].room.game, OpOf(ws[i].room, es[i]).value;
    var g1 := LastReveal(g, op);
    ResolvedVote(g1, op.now);
    BaseIsDistinct(g);
    ShownSum(g.players, g.ballot.votes);
  }

  lemma InvIsBallot(w: World)
    requires Inv(w)
    ensures BallotInv(w.room.game)
  {
  }

  lemma VotingVotes(g: GameValue)
    requires BallotInv(g) && g.phase == PhaseVoting
    ensures forall v :: v in g.ballot.votes ==> AliveListed(g.players, v)
  {
  }

  /** The tally of such a reveal stays within one vote for each living player exactly when
      no more votes than living players name a living player.  That is so if only living
      players have voted; hence in the voting phase, and always on runs through the page. */
  lemma TalliesFitExactly(ws: seq<World>, es: seq<Event>, i: nat)
    requires IsRun(ws, es) && i < |es| && es[i].FromController? && es[i].action.ActAdvanceReveal?
    requires SomebodyDies(ws[i].room.game.players, ws[i + 1].room.game.players)
    ensures ws[i + 1].room.game.lastElimination.Some?
    ensures var g, shown := ws[i].room.game, ws[i + 1].room.game.lastElimination.value.tally;
      && (SumVotes(shown) <= Living(g) <==> |VotersFor(g.ballot.votes, AliveIds(g.players))| <= Living(g))
      && ((forall v :: v in g.ballot.votes ==> AliveListed(g.players, v)) ==> SumVotes(shown) <= Living(g))
      && (g.phase == PhaseVoting ==> SumVotes(shown) <= Living(g))
      && (IsUiRun(ws, es) ==> SumVotes(shown) <= Living(g))
  {
    hide Inv, Step, Record, ShowsTheVote, SumVotes, Voting.Weakest, VotersFor, BallotInv;
    EliminationsAreJust(ws, es, i);
    AllRuns(ws, es, i);
    InvIsBallot(ws[i]);
    var g := ws[i].room.game;
    if forall v :: v in g.ballot.votes ==> AliveListed(g.players, v) {
      OneVoteEach(g.players, g.ballot.votes);
    }
    if g.phase == PhaseVoting {
      VotingVotes(g);
    }
    if IsUiRun(ws, es) {
      assert UiEvent(ws[i].room, es[i]);
    }
  }

  /** A countdown has a target; a shootout that is ahead or in play exists, and one about to
      start has no winner yet. */
  lemma CountdownsLeadSomewhere(ws: seq<World>, es: seq<Event>, i: nat)
    requires IsRun(ws, es) && i < |ws|
    ensures var g := ws[i].room.game;
      && (g.phase == PhaseCountdown ==> g.clock.target != TargetNone)
      && (g.clock.target == TargetShootout || g.phase == PhaseShootout ==> g.shootout.Some?)
      && (g.phase == PhaseCountdown && g.clock.target == TargetShootout ==> g.shootout.value.winnerId == "")
  {
    AllRuns(ws, es, i);
  }

  lemma OpKeepsRoster(g: GameValue, op: Op)
    requires Safe(g) && g.phase != PhaseLobby
    ensures SameIds(g.players, Performed(g, op).players)
  {
    if KeepsPresence(op) {
      PresenceKept(g, op);
    } else {
      hide PushLog, JoinName, CleanName, NamesOf, OfflineNamesake;
    }
  }

  lemma RosterStep(w: World, e: Event, w': World)
    requires Moves(w, e, w') && w.room.game.phase != PhaseLobby
    ensures SameIds(w.room.game.players, w'.room.game.players)
  {
    hide Step, Record, Perform, Performed, RecordGame, OpOf;
    StepIsOp(w.room, w.book, e);
    if OpOf(w.room, e).Some? {
      OpKeepsRoster(w.room.game, OpOf(w.room, e).value);
    }
  }

  /** Once a game has started nobody joins, leaves or moves in the roster until the next lobby. */
  lemma {:induction false} RosterIsFixed(ws: seq<World>, es: seq<Event>, s: nat, t: nat)
    requires IsRun(ws, es) && s <= t < |ws|
    requires forall j :: s <= j < t ==> ws[j].room.game.phase != PhaseLobby
    ensures SameIds(ws[s].room.game.players, ws[t].room.game.players)
  {
    hide Moves;
    if s < t {
      RosterIsFixed(ws, es, s, t - 1);
      assert Moves(ws[t - 1], es[t - 1], ws[t]);
      RosterStep(ws[t - 1], es[t - 1], ws[t]);
    }
  }

  /** The draw pile is what is left of one shuffle of the bank in use. */
  lemma PileIsRestOfAShuffle(ws: seq<World>, es: seq<Event>, i: nat)
    requires IsRun(ws, es) && i < |ws| && ws[i].room.game.cards.deck != []
    ensures var cards := ws[i].room.game.cards;
      exists p :: Deck.IsShuffleOf(p, cards.questionBank) && cards.deck <= p && cards.deck != p
  {
    AllRuns(ws, es, i);
  }

  /** Questions are dealt fairly from the bank in use, since the pile was last thrown away. */
  lemma QuestionsAreDealtFairly(ws: seq<World>, es: seq<Event>, i: nat, k: nat, from: nat, q: Question)
    requires IsRun(ws, es) && i < |ws| && q in ws[i].room.game.cards.questionBank
    ensures var bank, shown := ws[i].room.game.cards.questionBank, ws[i].book.shown;
      && (k * |bank| <= |shown| ==> multiset(shown[..k * |bank|])[q] == k * multiset(bank)[q])
      && (from + 2 * |bank| - 1 <= |shown| ==> q in shown[from..from + 2 * |bank| - 1])
  {
    AllRuns(ws, es, i);
    QuestionsAreFair(ws[i].room.game, ws[i].book, k, from, q);
  }

  /** The registry and the Connected flags agree until the room closes. */
  lemma RegistryAgrees(ws: seq<World>, es: seq<Event>, i: nat)
    requires IsRun(ws, es) && i < |ws| && !ws[i].room.stopped
    ensures RegistryInv(ws[i].room.game.players, ws[i].room.players, ws[i].book.joined)
  {
    AllRuns(ws, es, i);
  }

  lemma {:induction false} StaysSuperseded(ws: seq<World>, es: seq<Event>, s: nat, t: nat, conn: Conn)
    requires IsRun(ws, es) && s <= t < |ws| && !Registered(ws[s].room, conn)
    requires forall j :: s <= j < t ==> !(es[j].AttachRequest? && es[j].conn == conn)
    ensures !Registered(ws[t].room, conn)
  {
    hide Step, Record, Registered;
    if s < t {
      StaysSuperseded(ws, es, s, t - 1, conn);
      assert Moves(ws[t - 1], es[t - 1], ws[t]);
      SupersededForGood(ws[t - 1].room, es[t - 1], conn);
    }
  }

  lemma InvIsSafe(w: World)
    requires Inv(w)
    ensures Safe(w.room.game)
  {
  }

  /** A superseded connection that does not attach again can no longer change anything by
      detaching, however late. */
  lemma {:induction false} SupersededStaysSilent(ws: seq<World>, es: seq<Event>, s: nat, t: nat, conn: Conn, now: int)
    requires IsRun(ws, es) && s <= t < |ws| && conn.role == RolePlayer
    requires !Registered(ws[s].room, conn)
    requires forall j :: s <= j < t ==> !(es[j].AttachRequest? && es[j].conn == conn)
    ensures Safe(ws[t].room.game) && Step(ws[t].room, DetachMsg(conn, now)) == ws[t].room
  {
    hide Step, Record, Inv, Registered;
    StaysSuperseded(ws, es, s, t, conn);
    AllRuns(ws, es, t);
    InvIsSafe(ws[t]);
    LateDetachIsSilent(ws[t].room, conn, now);
  }

  // --- secrecy over runs ---

  /** Two runs that differ only in answers: same actions, same random choices, banks with
      the same question texts. */
  ghost predicate DifferInAnswers(ws: seq<World>, es: seq<Event>, vs: seq<World>, fs: seq<Event>) {
    && IsRun(ws, es) && IsRun(vs, fs) && |es| == |fs|
    && EraseRoom(ws[0].room) == EraseRoom(vs[0].room)
    && (forall i :: 0 <= i < |es| ==> EraseEvent(es[i]) == EraseEvent(fs[i]))
  }

  lemma {:induction false} AnswersStayErasable(ws: seq<World>, es: seq<Event>, vs: seq<World>, fs: seq<Event>, i: nat)
    requires DifferInAnswers(ws, es, vs, fs) && i < |ws|
    ensures EraseRoom(ws[i].room) == EraseRoom(vs[i].room)
  {
    hide Step, Record, EraseRoom, EraseEvent, Safe, LegalEvent, Opening;
    if i > 0 {
      AnswersStayErasable(ws, es, vs, fs, i - 1);
      assert Moves(ws[i - 1], es[i - 1], ws[i]) && Moves(vs[i - 1], fs[i - 1], vs[i]);
      StepErases(ws[i - 1].room, es[i - 1]);
      StepErases(vs[i - 1].room, fs[i - 1]);
    }
  }

  /** At every point of two such runs, every player and the big screen are sent the same. */
  lemma AnswersNeverLeak(ws: seq<World>, es: seq<Event>, vs: seq<World>, fs: seq<Event>, i: nat, forId: string)
    requires DifferInAnswers(ws, es, vs, fs) && i < |ws| && RevealDefined(ws[i].room.game)
    ensures var g, h := ws[i].room.game, vs[i].room.game;
      && Safe(g) && Safe(h) && RevealDefined(h)
      && ToPlayerState(g, forId) == ToPlayerState(h, forId)
  {
    hide Inv, ToPlayerState, Erase;
    AllRuns(ws, es, i);
    AllRuns(vs, fs, i);
    InvIsSafe(ws[i]);
    InvIsSafe(vs[i]);
    AnswersStayErasable(ws, es, vs, fs, i);
    EraseSafe(ws[i].room.game);
    EraseSafe(vs[i].room.game);
    ViewsIgnoreAnswers(ws[i].room.game, forId);
    ViewsIgnoreAnswers(vs[i].room.game, forId);
  }

  /** And they are sent it at the same moments, over the same connections: the events of the
      two runs ask for the same broadcasts, and the registries stay equal. */
  lemma BroadcastsNeverLeak(ws: seq<World>, es: seq<Event>, vs: seq<World>, fs: seq<Event>, i: nat)
    requires DifferInAnswers(ws, es, vs, fs) && i < |es|
    ensures var r, q := ws[i].room, vs[i].room;
      && Safe(r.game) && Safe(q.game) && Changed(r, es[i]) == Changed(q, fs[i])
      && r.players == q.players && r.controllers == q.controllers && r.hosts == q.hosts && r.stopped == q.stopped
  {
    hide Inv, Erase, Changed, EraseEvent;
    AllRuns(ws, es, i);
    AllRuns(vs, fs, i);
    InvIsSafe(ws[i]);
    InvIsSafe(vs[i]);
    AnswersStayErasable(ws, es, vs, fs, i);
    ChangedErases(ws[i].room, es[i]);
    ChangedErases(vs[i].room, fs[i]);
  }

  // --- the vote reveal ---

  /** This event starts a reveal, over the players alive at that moment. */
  ghost predicate RevealStart(w: World, e: Event) {
    && Safe(w.room.game) && OpOf(w.room, e) == Some(StartVoteReveal)
    && Perform(w.room.game, StartVoteReveal).Some?
  }

  ghost predicate RevealsThoseAlive(w: World, v: World) {
    var ps := v.room.game.players;
    && w.room.game.ballot.revealing
    && w.room.game.ballot.revealOrder == Some(Voting.IdsAt(ps, AliveIdx(ps)))
  }

  lemma NoRevealAtOpening(w: World)
    requires exists setup, bank, usingCustom :: w == Opening(setup, bank, usingCustom)
    ensures !w.room.game.ballot.revealing
  {
  }

  lemma RevealStep(w: World, e: Event, w': World) returns (starts: bool)
    requires Safe(w.room.game) && Moves(w, e, w') && w'.room.game.ballot.revealing
    ensures if starts then RevealStart(w, e) && RevealsThoseAlive(w', w) else SameReveal(w.room.game, w'.room.game)
  {
    hide Step, Record, Perform, Performed, RecordGame, OpOf;
    StepIsOp(w.room, w.book, e);
    match OpOf(w.room, e)
    case None => starts := false;
    case Some(op) =>
      RevealStarts(w.room.game, op);
      starts := op.StartVoteReveal? && Perform(w.room.game, op).Some?;
  }

  lemma StillRevealing(v: World, w: World, w': World)
    requires SameReveal(w.room.game, w'.room.game) && w'.room.game.ballot.revealing
    ensures w.room.game.ballot.revealing && (RevealsThoseAlive(w, v) ==> RevealsThoseAlive(w', v))
  {
  }

  /** A reveal in progress goes on since some start, over the players alive at the start. */
  lemma {:induction false} RevealHasStart(ws: seq<World>, es: seq<Event>, i: nat) returns (s: nat)
    requires IsRun(ws, es) && i < |ws| && ws[i].room.game.ballot.revealing
    ensures s < i && RevealStart(ws[s], es[s])
    ensures forall t :: s < t <= i ==> RevealsThoseAlive(ws[t], ws[s])
  {
    hide Inv, Step, Record, Perform, Performed, RecordGame, OpOf, RevealStart, RevealsThoseAlive;
    NoRevealAtOpening(ws[0]);
    assert i > 0;
    AllRuns(ws, es, i - 1);
    InvIsBase(ws[i - 1]);
    BaseIsSafe(ws[i - 1].room.game);
    assert Moves(ws[i - 1], es[i - 1], ws[i]);
    var starts := RevealStep(ws[i - 1], es[i - 1], ws[i]);
    if starts {
      s := i - 1;
    } else {
      s := RevealHasStart(ws, es, i - 1);
      StillRevealing(ws[s], ws[i - 1], ws[i]);
    }
  }

  /** The test before starting: right after an accepted start the reveal information is
      defined exactly when somebody is alive. */
  lemma StartNeedsSomebodyAlive(g: GameValue)
    requires Safe(g) && Perform(g, StartVoteReveal).Some?
    ensures RevealDefined(Performed(g, StartVoteReveal)) <==> Living(g) > 0
  {
    hide AliveIdx;
  }

  /** On all runs the reveal information is defined, except exactly during a reveal that was
      started with nobody alive. */
  lemma RevealIsDefinedExactly(ws: seq<World>, es: seq<Event>, i: nat) returns (s: nat)
    requires IsRun(ws, es) && i < |ws|
    ensures if !ws[i].room.game.ballot.revealing then RevealDefined(ws[i].room.game)
      else
        && s < i && RevealStart(ws[s], es[s]) && (forall t :: s < t <= i ==> RevealsThoseAlive(ws[t], ws[s]))
        && (RevealDefined(ws[i].room.game) <==> Living(ws[s].room.game) > 0)
  {
    s := 0;
    if ws[i].room.game.ballot.revealing {
      s := RevealHasStart(ws, es, i);
      hide RevealStart, AliveIdx;
      AllRuns(ws, es, i);
      InvIsBallot(ws[i]);
      assert RevealsThoseAlive(ws[i], ws[s]);
    }
  }

  // --- runs through the controller page ---

  /** On such runs every broadcast is defined. */
  lemma EveryBroadcastIsDefined(ws: seq<World>, es: seq<Event>, i: nat)
    requires IsUiRun(ws, es) && i < |ws|
    ensures Safe(ws[i].room.game) && RevealDefined(ws[i].room.game)
  {
    AllUiRuns(ws, es, i);
  }

  /** On such runs only starting the game leads out of the lobby. */
  lemma LeavesLobby(g: GameValue, op: Op)
    requires Base(g) && UiLegal(g, op) && g.phase == PhaseLobby && Performed(g, op).phase != PhaseLobby
    ensures op.StartGame? && Performed(g, op).players == g.players
  {
    hide PushLog, PulledQuestion, PulledDeck, NextAsked, Find, AliveIdx;
    if SteadyOp(op) {
      SteadyKeepsPhase(g, op);
    }
  }

  lemma LobbyStep(w: World, e: Event, w': World)
    requires Base(w.room.game) && Moves(w, e, w') && UiEvent(w.room, e)
    requires w.room.game.phase == PhaseLobby && w'.room.game.phase != PhaseLobby
    ensures OpOf(w.room, e).Some? && OpOf(w.room, e).value.StartGame?
    ensures w'.room.game.players == w.room.game.players
  {
    hide Step, Record, Perform, Performed, RecordGame, OpOf, UiEvent, UiLegal, Base;
    StepIsOp(w.room, w.book, e);
    match OpOf(w.room, e)
    case None =>
    case Some(op) =>
      OfferedIsLegal(w.room, e);
      LeavesLobby(w.room.game, op);
  }

  /** The game being played at i was started at s, and its roster is the one that started it. */
  ghost predicate StartedAt(ws: seq<World>, es: seq<Event>, s: nat, i: nat) {
    && s < i < |ws| == |es| + 1
    && ws[s].room.game.phase == PhaseLobby
    && OpOf(ws[s].room, es[s]).Some? && OpOf(ws[s].room, es[s]).value.StartGame?
    && (forall t :: s < t <= i ==> ws[t].room.game.phase != PhaseLobby)
    && (forall t :: s < t <= i ==> SameIds(ws[s].room.game.players, ws[t].room.game.players))
  }

  lemma OpensInLobby(w: World)
    requires exists setup, bank, usingCustom :: w == Opening(setup, bank, usingCustom)
    ensures w.room.game.phase == PhaseLobby
  {
  }

  lemma UiMoves(ws: seq<World>, es: seq<Event>, i: nat)
    requires IsUiRun(ws, es) && i < |es|
    ensures |ws| == |es| + 1 && Moves(ws[i], es[i], ws[i + 1]) && UiEvent(ws[i].room, es[i])
  {
  }

  lemma {:induction false} GameHasStart(ws: seq<World>, es: seq<Event>, i: nat) returns (s: nat)
    requires IsUiRun(ws, es) && i < |ws| && ws[i].room.game.phase != PhaseLobby
    ensures StartedAt(ws, es, s, i)
  {
    hide Moves, Inv, UiEvent, OpOf;
    OpensInLobby(ws[0]);
    assert i > 0;
    UiMoves(ws, es, i - 1);
    AllRuns(ws, es, i - 1);
    InvIsBase(ws[i - 1]);
    if ws[i - 1].room.game.phase == PhaseLobby {
      s := i - 1;
      LobbyStep(ws[i - 1], es[i - 1], ws[i]);
    } else {
      s := GameHasStart(ws, es, i - 1);
      RosterStep(ws[i - 1], es[i - 1], ws[i]);
    }
  }

  /** Round number and living players balance the number n who started the game; while a
      round is in play at least three are alive. */
  lemma RoundsKeepStep(ws: seq<World>, es: seq<Event>, i: nat) returns (s: nat)
    requires IsUiRun(ws, es) && i < |ws| && ws[i].room.game.phase != PhaseLobby
    ensures StartedAt(ws, es, s, i)
    ensures var g, n := ws[i].room.game, |ws[s].room.game.players|;
      && (g.phase in {PhasePlaying, PhaseVoting} || (g.phase == PhaseCountdown && g.clock.target == TargetRound) ==>
            g.table.round + Living(g) == n + 1 && Living(g) >= 3)
      && (g.phase == PhaseElimination ==> g.table.round + Living(g) == n && Living(g) >= 2)
  {
    s := GameHasStart(ws, es, i);
    AllUiRuns(ws, es, i);
    assert SameIds(ws[s].room.game.players, ws[i].room.game.players);
  }

  /** With n players at the start, the shootout comes after exactly n - 2 eliminations and
      4(n - 2) + 2 phase changes, and is between the two survivors. */
  lemma ShootoutComesOnTime(ws: seq<World>, es: seq<Event>, i: nat) returns (s: nat)
    requires IsUiRun(ws, es) && i < |ws| && ws[i].room.game.phase == PhaseShootout
    ensures StartedAt(ws, es, s, i)
    ensures var g, n := ws[i].room.game, |ws[s].room.game.players|;
      && ws[i].book.eliminations == n - 2 && ws[i].book.phaseChanges == 4 * (n - 2) + 2
      && Living(g) == 2 && g.shootout.Some?
      && g.shootout.value.order0 != g.shootout.value.order1
      && AliveListed(g.players, g.shootout.value.order0) && AliveListed(g.players, g.shootout.value.order1)
  {
    s := GameHasStart(ws, es, i);
    assert SameIds(ws[s].room.game.players, ws[i].room.game.players);
    AllUiRuns(ws, es, i);
    AliveIdxAlive(ws[i].room.game.players);
  }

  /** In the final each finalist's correct answers grow by exactly the shootout score. */
  lemma FinalScoresAreShootoutScores(ws: seq<World>, es: seq<Event>, i: nat)
    requires IsUiRun(ws, es) && i < |ws| && ws[i].room.game.phase in {PhaseShootout, PhaseGameOver}
    ensures var g, sh := ws[i].room.game, ws[i].room.game.shootout;
      && sh.Some?
      && CorrectOf(g.players, sh.value.order0) == ws[i].book.finals.0 + Duel.ScoreOf(sh.value.rounds, 0)
      && CorrectOf(g.players, sh.value.order1) == ws[i].book.finals.1 + Duel.ScoreOf(sh.value.rounds, 1)
  {
    AllUiRuns(ws, es, i);
  }

  lemma InvIsDuel(w: World)
    requires Inv(w)
    ensures DuelInv(w.room.game)
  {
  }

  /** Such a run can always move on, by an action on offer or the end of a countdown, exactly
      unless a tie has come out without candidates. */
  lemma PageRunsMoveOnExactly(ws: seq<World>, es: seq<Event>, i: nat)
    requires IsUiRun(ws, es) && i < |ws| && !ws[i].room.stopped
    ensures CanMoveOn(ws[i].room) <==> ws[i].room.game.ballot.tieCandidates != Some([])
  {
    hide Inv, CanMoveOn;
    AllUiRuns(ws, es, i);
    InvIsBase(ws[i]);
    InvIsDuel(ws[i]);
    MovesOnExactly(ws[i].room, ws[i].book);
  }

  /** It takes more than 2^30 marks in one game to get stuck. */
  lemma ShortGamesMoveOn(ws: seq<World>, es: seq<Event>, i: nat)
    requires IsUiRun(ws, es) && i < |ws| && !ws[i].room.stopped
    requires ws[i].book.marks <= Voting.SCORE_CEILING
    ensures CanMoveOn(ws[i].room)
  {
    hide Inv, UiInv, AskedInv, CanMoveOn;
    AllUiRuns(ws, es, i);
    PageRunsMoveOnExactly(ws, es, i);
  }

  // --- turns ---

  /** A stretch of a run within one round in which nobody is picked out of turn. */
  ghost predicate InTurn(ws: seq<World>, es: seq<Event>, s: nat, t: nat) {
    && s <= t < |ws| == |es| + 1
    && (forall j :: s <= j <= t ==> ws[j].room.game.phase == PhasePlaying)
    && (forall j :: s <= j < t ==> !(es[j].FromController? && es[j].action.ActSelectAsked?))
  }

  /** After d marks the turn is d places on, and the living players' answer counts have grown
      by their shares of those d turns. */
  ghost predicate Rotated(v: World, w: World, p: nat) {
    var g, h, alive := v.room.game, w.room.game, AliveIdx(v.room.game.players);
    var d := w.book.marks - v.book.marks;
    && p < |alive| && d >= 0
    && |h.players| == |g.players| && AliveIdx(h.players) == alive
    && TurnAt(h, (p + d) % |alive|)
    && forall a :: 0 <= a < |alive| ==>
      Answers(h.players[alive[a]]) == Answers(g.players[alive[a]]) + Turns(p, d, |alive|, a)
  }

  lemma TurnExists(ws: seq<World>, es: seq<Event>, s: nat) returns (p: nat)
    requires IsUiRun(ws, es) && s < |ws| && ws[s].room.game.phase == PhasePlaying
    ensures TurnAt(ws[s].room.game, p)
  {
    AllUiRuns(ws, es, s);
    var g := ws[s].room.game;
    var i :| 0 <= i < |g.players| && g.players[i].id == g.table.askedId && g.players[i].alive;
    AliveIdxComplete(g.players, i);
    p :| 0 <= p < |AliveIdx(g.players)| && AliveIdx(g.players)[p] == i;
  }

  lemma RotatedStart(v: World, p: nat)
    requires TurnAt(v.room.game, p)
    ensures Rotated(v, v, p)
  {
    ModOnce(p, |AliveIdx(v.room.game.players)|);
  }

  lemma InTurnBefore(ws: seq<World>, es: seq<Event>, s: nat, t: nat)
    requires InTurn(ws, es, s, t)
    ensures s <= t < |ws| == |es| + 1
    ensures s < t ==>
      && InTurn(ws, es, s, t - 1)
      && ws[t - 1].room.game.phase == PhasePlaying && ws[t].room.game.phase == PhasePlaying
      && !(es[t - 1].FromController? && es[t - 1].action.ActSelectAsked?)
  {
  }

  lemma NoSelection(r: RoomValue, e: Event)
    requires !(e.FromController? && e.action.ActSelectAsked?)
    ensures OpOf(r, e).Some? ==> !OpOf(r, e).value.SelectAsked?
  {
  }

  lemma RotatedSame(v: World, w: World, w': World, p: nat)
    requires Rotated(v, w, p) && w'.room.game == w.room.game && w'.book.marks == w.book.marks
    ensures Rotated(v, w', p)
  {
  }

  lemma ModStep(x: nat, m: nat)
    requires m > 0
    ensures (x % m + 1) % m == (x + 1) % m
  {
    var q, r := x / m, x % m;
    ModOnce(r + 1, m);
    if r + 1 < m {
      DivModUnique(x + 1, m, q, r + 1);
    } else {
      assert x + 1 == (q + 1) * m;
      DivModUnique(x + 1, m, q + 1, 0);
    }
  }

  lemma RotateByMark(v: World, w: World, op: Op, w': World, p: nat)
    requires Rotated(v, w, p) && Base(w.room.game)
    requires (op.MarkCorrect? || op.MarkIncorrect?) && Perform(w.room.game, op).Some?
    requires w'.room.game == Performed(w.room.game, op) && w'.book.marks == RecordGame(w.book, w.room.game, op).marks
    ensures Rotated(v, w', p)
  {
    hide Perform, Performed;
    var m, d := |AliveIdx(v.room.game.players)|, w.book.marks - v.book.marks;
    MarkPassesTurn(w.room.game, op, (p + d) % m);
    ModStep(p + d, m);
  }

  lemma NoOtherMarks(g: GameValue, op: Op)
    requires UiLegal(g, op) && g.phase == PhasePlaying
    ensures !op.ShootoutMark? && !op.PlayAgain?
  {
  }

  lemma RotateByOther(v: World, w: World, op: Op, w': World, p: nat)
    requires Rotated(v, w, p) && Base(w.room.game) && UiInv(w.room.game, w.book) && UiLegal(w.room.game, op)
    requires w.room.game.phase == PhasePlaying && !op.SelectAsked?
    requires (op.MarkCorrect? || op.MarkIncorrect?) ==> Perform(w.room.game, op).None?
    requires w'.room.game == Performed(w.room.game, op) && w'.book.marks == RecordGame(w.book, w.room.game, op).marks
    ensures Rotated(v, w', p)
  {
    hide Perform, Performed, UiInv, UiLegal;
    var m, d := |AliveIdx(v.room.game.players)|, w.book.marks - v.book.marks;
    NoOtherMarks(w.room.game, op);
    OthersKeepTurn(w.room.game, w.book, op, (p + d) % m);
    AliveIdxAlive(v.room.game.players);
  }

  lemma RotateStep(v: World, w: World, e: Event, w': World, p: nat)
    requires Rotated(v, w, p) && Inv(w) && UiInv(w.room.game, w.book)
    requires Moves(w, e, w') && UiEvent(w.room, e)
    requires w.room.game.phase == PhasePlaying && w'.room.game.phase == PhasePlaying
    requires !(e.FromController? && e.action.ActSelectAsked?)
    ensures Rotated(v, w', p)
  {
    hide Inv, UiInv, Step, Record, Perform, Performed, RecordGame, OpOf, UiEvent, UiLegal, Rotated;
    StepIsOp(w.room, w.book, e);
    NoSelection(w.room, e);
    match OpOf(w.room, e)
    case None => RotatedSame(v, w, w', p);
    case Some(op) =>
      OfferedIsLegal(w.room, e);
      InvIsBase(w);
      if (op.MarkCorrect? || op.MarkIncorrect?) && Perform(w.room.game, op).Some? {
        RotateByMark(v, w, op, w', p);
      } else {
        RotateByOther(v, w, op, w', p);
      }
  }

  /** From turn to turn, over any stretch of a round. */
  lemma {:induction false} TurnsRotate(ws: seq<World>, es: seq<Event>, s: nat, t: nat, p: nat)
    requires IsUiRun(ws, es) && InTurn(ws, es, s, t) && TurnAt(ws[s].room.game, p)
    ensures Rotated(ws[s], ws[t], p)
  {
    hide Inv, UiInv, AskedInv, Moves, Rotated, UiEvent, IsUiRun, TurnAt, InTurn;
    InTurnBefore(ws, es, s, t);
    if s == t {
      RotatedStart(ws[s], p);
    } else {
      TurnsRotate(ws, es, s, t - 1, p);
      AllUiRuns(ws, es, t - 1);
      UiMoves(ws, es, t - 1);
      RotateStep(ws[s], ws[t - 1], es[t - 1], ws[t], p);
    }
  }

  /** Turns are fair: over any such stretch two living players' numbers of answers differ by
      at most one from each other, and as many marks as living players give each one. */
  lemma TurnsAreFair(ws: seq<World>, es: seq<Event>, s: nat, t: nat, a: nat, c: nat)
    requires IsUiRun(ws, es) && InTurn(ws, es, s, t)
    requires a < |AliveIdx(ws[s].room.game.players)| && c < |AliveIdx(ws[s].room.game.players)|
    ensures var ps, qs := ws[s].room.game.players, ws[t].room.game.players;
      var alive := AliveIdx(ps);
      && |qs| == |ps|
      && (var da := Answers(qs[alive[a]]) - Answers(ps[alive[a]]);
          var dc := Answers(qs[alive[c]]) - Answers(ps[alive[c]]);
          && -1 <= da - dc <= 1
          && (ws[t].book.marks - ws[s].book.marks == |alive| ==> da == 1))
  {
    var p := TurnExists(ws, es, s);
    TurnsRotate(ws, es, s, t, p);
    TurnsAreEven(p, ws[t].book.marks - ws[s].book.marks, |AliveIdx(ws[s].room.game.players)|, a, c);
  }

  // --- the bank bound is tight ---

  lemma MarkIsSafe(g: GameValue, now: int, rand: seq<nat>)
    requires Safe(g)
    ensures Safe(Performed(g, MarkCorrect(now, rand)))
  {
    hide PushLog, PulledQuestion, PulledDeck, NextAsked, Find;
  }

  function Climb(g: GameValue, n: nat, now: int, rand: seq<nat>): GameValue
    requires Safe(g)
    ensures Safe(Climb(g, n, now, rand))
  {
    if n == 0 then g
    else
      var before := Climb(g, n - 1, now, rand);
      MarkIsSafe(before, now, rand);
      Performed(before, MarkCorrect(now, rand))
  }

  /** A round in play with a question up for a living player and no live chain. */
  ghost predicate ReadyToClimb(g: GameValue) {
    Base(g) && AskedInv(g) && g.phase == PhasePlaying && g.table.question.Some?
  }

  /** h is n right answers up the ladder from g. */
  ghost predicate Higher(g: GameValue, h: GameValue, n: nat) {
    && ReadyToClimb(h) && h.table.chainIndex == n - 1 && h.table.bank == g.table.bank
    && SumCorrect(h.players) == SumCorrect(g.players) + n
  }

  lemma AskedIsMarked(g: GameValue)
    requires ReadyToClimb(g)
    ensures g.table.askedId != "" && Find(g.players, g.table.askedId).Some?
  {
  }

  lemma ClimbOne(g: GameValue, now: int, rand: seq<nat>)
    requires ReadyToClimb(g) && Safe(g)
    ensures var h := Performed(g, MarkCorrect(now, rand));
      ReadyToClimb(h) && h.table.bank == g.table.bank && SumCorrect(h.players) == SumCorrect(g.players) + 1
      && var i := g.table.chainIndex;
         h.table.chainIndex == if i < |CHAIN_VALUES| - 1 then i + 1 else i
  {
    hide PushLog, PulledQuestion, PulledDeck, NextAsked, Base, AskedInv, Find;
    AskedIsMarked(g);
    var i := Find(g.players, g.table.askedId).value;
    SumsAfterEdit(g.players, i, g.players[i].(correct := g.players[i].correct + 1));
    BaseKept(g, MarkCorrect(now, rand));
    MarkKeepsAsked(g, MarkCorrect(now, rand));
  }

  lemma ClimbHigher(g: GameValue, h: GameValue, n: nat, now: int, rand: seq<nat>)
    requires Safe(h) && Higher(g, h, n) && n < |CHAIN_VALUES|
    ensures Higher(g, Performed(h, MarkCorrect(now, rand)), n + 1)
  {
    hide ReadyToClimb, Performed;
    ClimbOne(h, now, rand);
  }

  lemma {:induction false} Climbed(g: GameValue, n: nat, now: int, rand: seq<nat>)
    requires Safe(g) && Higher(g, g, 0) && n <= |CHAIN_VALUES|
    ensures Higher(g, Climb(g, n, now, rand), n)
  {
    hide Higher, Performed, Safe;
    if n > 0 {
      Climbed(g, n - 1, now, rand);
      ClimbHigher(g, Climb(g, n - 1, now, rand), n - 1, now, rand);
    }
  }

  /** Wherever the bound is met with equality, thirteen right answers and a banking meet it
      with equality again, a thousand richer; so no smaller bound holds. */
  lemma BankBoundIsTight(g: GameValue, now: int, rand: seq<nat>)
    requires ReadyToClimb(g) && g.table.chainIndex == -1 && 13 * g.table.bank == 1000 * SumCorrect(g.players)
    ensures var h := Performed(Climb(g, 13, now, rand), BankChain(now));
      h.table.bank == g.table.bank + 1000 && 13 * h.table.bank == 1000 * SumCorrect(h.players)
  {
    hide PushLog, Climb;
    Climbed(g, 13, now, rand);
  }

  /** And it is met: the first thirteen right answers of a game, banked, meet it. */
  lemma BankBoundIsReached(ws: seq<World>, es: seq<Event>, i: nat, now: int, rand: seq<nat>)
    requires IsUiRun(ws, es) && i < |ws| && ws[i].room.game.phase == PhasePlaying
    requires ws[i].room.game.table.question.Some? && ws[i].book.marks == 0
    ensures var g := ws[i].room.game;
      && Safe(g)
      && var h := Performed(Climb(g, 13, now, rand), BankChain(now));
         h.table.bank == 1000 && 13 * h.table.bank == 1000 * SumCorrect(h.players)
  {
    hide Climb, Performed, UiInv, AskedInv, Base, DuelInv, BallotInv, NamesInv, CardsInv, ConnInv;
    AllUiRuns(ws, es, i);
    InvIsSafe(ws[i]);
    BankBoundIsTight(ws[i].room.game, now, rand);
  }
}
