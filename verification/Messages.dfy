/** What every message, tick, join, attach and detach does on every run: each event against
    what it means for the game and for the connections. */
module Messages {
  import opened Types
  import opened Text
  import opened Roster
  import opened Game
  import opened Actor
  import opened Basis
  import opened Ledger
  import opened ShootoutRuns
  import opened ConnectionRuns
  import opened Meaning
  import opened Runs
  import Voting

  // --- the controller's messages ---

  /** What a control action means for the game. */
  ghost predicate ActionMeans(g: GameValue, h: GameValue, a: Action, now: int, newId: string) {
    match a
    case ActStartGame => MeansStart(g, h, now)
    case ActSelectAsked(id) => MeansSelect(g, h, id)
    case ActNextQuestion => MeansSkip(g, h)
    case ActMarkCorrect => MeansCorrect(g, h)
    case ActMarkIncorrect => MeansIncorrect(g, h)
    case ActBankChain => MeansBank(g, h)
    case ActEndRound => MeansEndRound(g, h)
    case ActStartVoteReveal => MeansReveal(g, h)
    case ActAdvanceReveal => MeansAdvance(g, h)
    case ActManualTieBreak(id) => MeansTieBreak(g, h, id)
    case ActContinueAfterElimination => MeansContinue(g, h, now)
    case ActShootoutNextQuestion => MeansShootoutQuestion(g, h)
    case ActShootoutMark(result) => MeansKick(g, h, result)
    case ActPlayAgain => MeansPlayAgain(g, h)
    case ActKickPlayer(id) => MeansKickOut(g, h, id)
    case ActAddPlayer(name) => MeansAdd(g, h, name, newId)
    case ActSetQuestionBank(questions) => MeansUpload(g, h, questions)
    case ActResetQuestionBank => MeansReset(g, h)
    case ActRequestQuestionBank => h == g
    case ActCloseRoom => h == g
    case ActOther => h == g
  }

  lemma RoundOpsMean(g: GameValue, a: Action, now: int, rand: seq<nat>, newId: string)
    requires Base(g) && RoundAction(a)
    ensures ControlOp(a, now, rand, newId).Some?
    ensures ActionMeans(g, Performed(g, ControlOp(a, now, rand, newId).value), a, now, newId)
  {
    hide DoStartGame, DoMarkCorrect, DoMarkIncorrect, DoBankChain, DoSelectAsked, DoNextQuestion, DoEndRound,
         MeansStart, MeansCorrect, MeansIncorrect, MeansBank, MeansSelect, MeansSkip, MeansEndRound, Base;
    BaseIsSafe(g);
    match a
    case ActStartGame => StartMeans(g, now);
    case ActMarkCorrect => CorrectMeans(g, now, rand);
    case ActMarkIncorrect => IncorrectMeans(g, now, rand);
    case ActBankChain => BankMeans(g, "", now);
    case ActSelectAsked(id) => SelectMeans(g, id, rand);
    case ActNextQuestion => SkipMeans(g, rand);
    case ActEndRound => EndRoundMeans(g, now);
  }

  lemma ContinueIsTaken(g: GameValue, now: int)
    ensures DoContinueAfterElimination(g, now).Some?
  {
  }

  lemma VotingOpsMean(g: GameValue, a: Action, now: int, rand: seq<nat>, newId: string)
    requires Base(g) && VotingAction(a)
    ensures ControlOp(a, now, rand, newId).Some?
    ensures ActionMeans(g, Performed(g, ControlOp(a, now, rand, newId).value), a, now, newId)
  {
    hide DoStartVoteReveal, DoAdvanceReveal, DoManualTieBreak, DoContinueAfterElimination, MeansReveal, MeansAdvance,
         MeansTieBreak, MeansContinue, Base;
    BaseIsSafe(g);
    match a
    case ActStartVoteReveal => RevealMeans(g);
    case ActAdvanceReveal => AdvanceMeans(g, now);
    case ActManualTieBreak(id) => TieBreakMeans(g, id, now);
    case ActContinueAfterElimination =>
      ContinueIsTaken(g, now);
      ContinueMeans(g, now);
  }

  lemma ShootoutOpsMean(g: GameValue, a: Action, now: int, rand: seq<nat>, newId: string)
    requires Base(g) && DuelInv(g) && ShootoutAction(a)
    ensures ControlOp(a, now, rand, newId).Some?
    ensures ActionMeans(g, Performed(g, ControlOp(a, now, rand, newId).value), a, now, newId)
  {
    hide DoShootoutNextQuestion, DoShootoutMark, MeansShootoutQuestion, MeansKick, Base, DuelInv;
    BaseIsSafe(g);
    match a
    case ActShootoutNextQuestion => ShootoutQuestionMeans(g, rand);
    case ActShootoutMark(result) => KickMeans(g, result, now, rand);
  }

  predicate LobbyAction(a: Action) {
    a.ActPlayAgain? || a.ActKickPlayer? || a.ActAddPlayer? || BankAction(a)
  }

  lemma LobbyOpsMean(g: GameValue, a: Action, now: int, rand: seq<nat>, newId: string)
    requires Base(g) && LobbyAction(a)
    ensures ControlOp(a, now, rand, newId).Some?
    ensures ActionMeans(g, Performed(g, ControlOp(a, now, rand, newId).value), a, now, newId)
  {
    hide DoPlayAgain, DoKickPlayer, DoAddPlayer, DoSetQuestionBank, DoResetQuestionBank, MeansPlayAgain, MeansKickOut,
         MeansAdd, MeansUpload, MeansReset, Base;
    BaseIsSafe(g);
    match a
    case ActPlayAgain => PlayAgainMeans(g);
    case ActKickPlayer(id) => KickOutMeans(g, id, now);
    case ActAddPlayer(name) => AddMeans(g, name, newId, now);
    case ActSetQuestionBank(questions) => UploadMeans(g, questions, now);
    case ActResetQuestionBank => UploadMeans(g, [], now);
  }

  lemma ControlOpMeans(g: GameValue, a: Action, now: int, rand: seq<nat>, newId: string)
    requires Base(g) && DuelInv(g)
    ensures match ControlOp(a, now, rand, newId)
      case Some(op) => ActionMeans(g, Performed(g, op), a, now, newId)
      case None => ActionMeans(g, g, a, now, newId) && (a.ActRequestQuestionBank? || a.ActCloseRoom? || a.ActOther?)
  {
    hide Performed, Base, DuelInv;
    BaseIsSafe(g);
    if RoundAction(a) {
      RoundOpsMean(g, a, now, rand, newId);
    } else if VotingAction(a) {
      VotingOpsMean(g, a, now, rand, newId);
    } else if ShootoutAction(a) {
      ShootoutOpsMean(g, a, now, rand, newId);
    } else if LobbyAction(a) {
      LobbyOpsMean(g, a, now, rand, newId);
    }
  }

  /** A controller's message reaches an open room. */
  ghost predicate Controls(w: World, e: Event) {
    !w.room.stopped && e.FromController? && e.conn.role == RoleController
  }

  lemma ControlStep(r: RoomValue, e: Event)
    requires Safe(r.game) && !r.stopped && e.FromController? && e.conn.role == RoleController
    ensures match ControlOp(e.action, e.now, e.rand, e.newId)
      case Some(op) => Step(r, e).game == Performed(r.game, op)
      case None => Step(r, e).game == r.game
    ensures !e.action.ActCloseRoom? && !e.action.ActKickPlayer? ==> Step(r, e) == r.(game := Step(r, e).game)
    ensures e.action.ActCloseRoom? ==>
      Step(r, e) == r.(players := map[], controllers := {}, hosts := {}, stopped := true)
    ensures e.action.ActKickPlayer? ==>
      Step(r, e) == r.(game := Step(r, e).game,
                       players := if DoKickPlayer(r.game, e.action.id, e.now).Some? then r.players - {e.action.id}
                                  else r.players)
  {
    hide Perform, Performed, DoKickPlayer;
    if e.action.ActKickPlayer? {
      KickPerformed(r.game, e.action.id, e.now);
    }
  }

  lemma KickIsTaken(g: GameValue, id: string, now: int)
    ensures DoKickPlayer(g, id, now).Some? <==> g.phase == PhaseLobby && Listed(g.players, id)
  {
    FoundIsListed(g.players, id);
  }

  /** Every control action does what it means, and only removing a player and closing the
      room touch connections: the removed player's, and all. */
  lemma ControllerMessages(w: World, e: Event, w': World)
    requires Happens(w, e, w') && Controls(w, e)
    ensures var r, s, g := w.room, w'.room, w.room.game;
      && ActionMeans(g, s.game, e.action, e.now, e.newId)
      && (match e.action
          case ActKickPlayer(id) =>
            s == r.(game := s.game,
                    players := if g.phase == PhaseLobby && Listed(g.players, id) then r.players - {id} else r.players)
          case ActCloseRoom => s == r.(players := map[], controllers := {}, hosts := {}, stopped := true)
          case _ => s == r.(game := s.game))
  {
    hide Inv, Step, Record, Performed, ControlOp, ActionMeans, Base, DuelInv, Safe, DoKickPlayer, Happens, LegalEvent;
    HappensInv(w, e, w');
    ControlOpMeans(w.room.game, e.action, e.now, e.rand, e.newId);
    ControlStep(w.room, e);
    if e.action.ActKickPlayer? {
      KickIsTaken(w.room.game, e.action.id, e.now);
    }
  }

  // --- the players' messages ---

  ghost predicate Plays(w: World, e: Event) {
    !w.room.stopped && e.FromPlayer? && e.conn.role == RolePlayer
  }

  ghost predicate MessageMeans(g: GameValue, h: GameValue, id: string, msg: PlayerMsg) {
    match msg
    case VoteMsg(targetId) => MeansVote(g, h, id, targetId)
    case CallBankMsg => MeansCallBank(g, h, id)
    case RenameMsg(newName) => MeansRename(g, h, id, newName)
    case OtherMsg => h == g
  }

  lemma PlayerOpMeans(g: GameValue, id: string, msg: PlayerMsg, now: int)
    requires Base(g)
    ensures msg.VoteMsg? ==> MessageMeans(g, Performed(g, Vote(id, msg.targetId)), id, msg)
    ensures msg.CallBankMsg? ==> MessageMeans(g, Performed(g, CallBank(id, now)), id, msg)
    ensures msg.RenameMsg? ==> MessageMeans(g, Performed(g, Rename(id, msg.newName, now)), id, msg)
  {
    hide SubmitVote, Game.CallBank, Game.Rename, MeansVote, MeansCallBank, MeansRename, Base;
    BaseIsSafe(g);
    match msg
    case VoteMsg(targetId) => VoteMeans(g, id, targetId);
    case CallBankMsg => CallBankMeans(g, id, now);
    case RenameMsg(newName) => RenameMeans(g, id, newName, now);
    case OtherMsg =>
  }

  /** A player's message acts for the connection's own player, and touches no connection. */
  lemma PlayerMessages(w: World, e: Event, w': World)
    requires Happens(w, e, w') && Plays(w, e)
    ensures MessageMeans(w.room.game, w'.room.game, e.conn.playerId, e.msg) && w'.room == w.room.(game := w'.room.game)
  {
    hide Inv, Step, Record, Perform, Performed, Changed, MeansVote, MeansCallBank, MeansRename, Base, DuelInv, Safe,
         Happens, LegalEvent;
    HappensInv(w, e, w');
    MessageStep(w.room, e);
    PlayerOpMeans(w.room.game, e.conn.playerId, e.msg, e.now);
  }

  // --- everything else ---

  /** A stopped room and messages under a wrong role: nothing happens. */
  lemma UnheardMessages(w: World, e: Event, w': World)
    requires Happens(w, e, w')
    requires w.room.stopped || e.SummaryRequest? || (e.FromController? && e.conn.role != RoleController)
      || (e.FromPlayer? && e.conn.role != RolePlayer)
    ensures w'.room == w.room
  {
    hide Inv, Record, Perform, Performed, Base, DuelInv, Safe, Happens, LegalEvent;
    HappensInv(w, e, w');
  }

  lemma TickOpMeans(g: GameValue, now: int, rand: seq<nat>)
    requires Safe(g)
    ensures match TickOp(g, now, rand)
      case Some(op) => MeansTick(g, Performed(g, op), now)
      case None => MeansTick(g, g, now)
  {
    hide Game.FinishCountdown, DoEndRound;
    if g.phase == PhaseCountdown && now >= g.clock.countdownEndsAt {
      CountdownMeans(g, now, rand);
    } else {
      EndRoundMeans(g, now);
    }
  }

  /** Ticks end countdowns and rounds, on time and not before. */
  lemma Ticks(w: World, e: Event, w': World)
    requires Happens(w, e, w') && !w.room.stopped && e.Tick?
    ensures MeansTick(w.room.game, w'.room.game, e.now) && w'.room == w.room.(game := w'.room.game)
  {
    hide Inv, Record, Perform, Performed, Base, DuelInv, Safe, Happens, LegalEvent, MeansTick, TickOp;
    HappensInv(w, e, w');
    TickOpMeans(w.room.game, e.now, e.rand);
  }

  lemma JoinStep(r: RoomValue, e: Event)
    requires Safe(r.game) && !r.stopped && e.JoinRequest?
    ensures Step(r, e) ==
      r.(game := Apply(r.game, Game.Join(r.game, e.name, e.rejoinId, e.rejoinToken, e.newId, e.newToken, e.now)))
  {
    hide Game.Join;
  }

  /** A join brings in the one it is about, and touches no connection. */
  lemma Joins(w: World, e: Event, w': World)
    requires Happens(w, e, w') && !w.room.stopped && e.JoinRequest?
    ensures MeansJoin(w.room.game, w'.room.game, e.name, e.rejoinId, e.rejoinToken, e.newId, e.newToken)
    ensures w'.room == w.room.(game := w'.room.game)
  {
    hide Inv, Step, Record, Base, DuelInv, Safe, Happens, LegalEvent, MeansJoin, Game.Join;
    HappensInv(w, e, w');
    JoinStep(w.room, e);
    JoinMeans(w.room.game, e.name, e.rejoinId, e.rejoinToken, e.newId, e.newToken, e.now);
  }

  lemma AttachStep(r: RoomValue, e: Event)
    requires Safe(r.game) && !r.stopped && e.AttachRequest?
    ensures var id, a := e.conn.playerId, AttachPlayer(r.game, e.conn.playerId, e.token, e.now);
      Step(r, e) ==
      match e.conn.role
      case RolePlayer => if a.Some? then r.(game := a.value, players := r.players[id := e.conn]) else r
      case RoleController =>
        if e.token != "" && e.token == r.game.setup.controllerKey
        then r.(controllers := r.controllers + {e.conn}) else r
      case RoleHost => r.(hosts := r.hosts + {e.conn})
  {
    hide AttachPlayer;
  }

  /** A player connection is registered exactly with the token of its own row, and otherwise
      nothing changes at all; a controller connection exactly with the room's key; the big
      screen always. */
  lemma Attaches(w: World, e: Event, w': World)
    requires Happens(w, e, w') && !w.room.stopped && e.AttachRequest?
    ensures var r, s, g, id := w.room, w'.room, w.room.game, e.conn.playerId;
      match e.conn.role
      case RolePlayer =>
        if e.token != "" && exists k: nat :: OwnRow(g, k, id, e.token) then
          s == r.(game := s.game, players := r.players[id := e.conn]) && MeansAttach(g, s.game, id, e.token)
        else s == r
      case RoleController =>
        if e.token != "" && e.token == g.setup.controllerKey
        then s == r.(controllers := r.controllers + {e.conn}) else s == r
      case RoleHost => s == r.(hosts := r.hosts + {e.conn})
  {
    hide Inv, Step, Record, Base, DuelInv, Safe, Happens, LegalEvent, MeansAttach, AttachPlayer, OwnRow;
    HappensInv(w, e, w');
    AttachStep(w.room, e);
    AttachMeans(w.room.game, e.conn.playerId, e.token, e.now);
  }

  lemma DetachStep(r: RoomValue, e: Event)
    requires Safe(r.game) && !r.stopped && e.DetachMsg?
    ensures var id := e.conn.playerId;
      Step(r, e) ==
      match e.conn.role
      case RolePlayer =>
        if id in r.players && r.players[id] == e.conn then
          r.(game := Apply(r.game, DetachPlayer(r.game, id, e.now)), players := r.players - {id})
        else r
      case RoleController => r.(controllers := r.controllers - {e.conn})
      case RoleHost => r.(hosts := r.hosts - {e.conn})
  {
    hide DetachPlayer;
  }

  /** A detach takes the connection out, and its player offline only if it is the live one. */
  lemma Detaches(w: World, e: Event, w': World)
    requires Happens(w, e, w') && !w.room.stopped && e.DetachMsg?
    ensures var r, s, g, id := w.room, w'.room, w.room.game, e.conn.playerId;
      match e.conn.role
      case RolePlayer =>
        if id in r.players && r.players[id] == e.conn then
          s == r.(game := s.game, players := r.players - {id}) && MeansDetach(g, s.game, id)
        else s == r
      case RoleController => s == r.(controllers := r.controllers - {e.conn})
      case RoleHost => s == r.(hosts := r.hosts - {e.conn})
  {
    hide Inv, Step, Record, Base, DuelInv, Safe, Happens, LegalEvent, MeansDetach, DetachPlayer;
    HappensInv(w, e, w');
    DetachStep(w.room, e);
    DetachMeans(w.room.game, e.conn.playerId, e.now);
  }

  // --- broadcasts ---

  /** When a control action is taken. */
  ghost predicate ActionTaken(g: GameValue, a: Action) {
    match a
    case ActStartGame => |g.players| >= 3
    case ActSelectAsked(id) => g.phase == PhasePlaying && AliveListed(g.players, id)
    case ActNextQuestion => g.phase == PhasePlaying && g.table.askedId != ""
    case ActMarkCorrect => QuestionUp(g)
    case ActMarkIncorrect => QuestionUp(g)
    case ActBankChain => g.phase == PhasePlaying && g.table.chainIndex >= 0
    case ActEndRound => g.phase == PhasePlaying
    case ActStartVoteReveal => g.phase == PhaseVoting && !g.ballot.revealing
    case ActAdvanceReveal => g.ballot.revealing && g.ballot.revealOrder.Some?
    case ActManualTieBreak(id) => Listed(g.players, id)
    case ActContinueAfterElimination => true
    case ActShootoutNextQuestion => g.shootout.Some? && g.shootout.value.winnerId == ""
    case ActShootoutMark(_) =>
      g.shootout.Some? && g.shootout.value.question.Some? && Listed(g.players, UpNext(g.shootout.value))
    case ActPlayAgain => true
    case ActKickPlayer(id) => g.phase == PhaseLobby && Listed(g.players, id)
    case ActAddPlayer(name) => g.phase == PhaseLobby && CleanName(if name == "" then "Player" else name) != ""
    case ActSetQuestionBank(questions) => questions != []
    case ActResetQuestionBank => true
    case ActRequestQuestionBank => false
    case ActCloseRoom => false
    case ActOther => false
  }

  lemma FoundAlive(ps: seq<PlayerValue>, id: string)
    requires DistinctIds(ps)
    ensures AliveListed(ps, id) <==> Find(ps, id).Some? && ps[Find(ps, id).value].alive
  {
    if AliveListed(ps, id) {
      var i :| 0 <= i < |ps| && ps[i].id == id && ps[i].alive;
      FindUnique(ps, i);
    }
  }

  lemma RoundTaken(g: GameValue, a: Action, now: int, rand: seq<nat>, newId: string)
    requires Base(g) && RoundAction(a)
    ensures Perform(g, ControlOp(a, now, rand, newId).value).Some? <==> ActionTaken(g, a)
  {
    hide PushLog, PulledQuestion, PulledDeck, NextAsked, Find, FreshLobby, Targets;
    FoundIsListed(g.players, g.table.askedId);
    if a.ActSelectAsked? {
      FoundAlive(g.players, a.id);
    }
  }

  lemma VotingTaken(g: GameValue, a: Action, now: int, rand: seq<nat>, newId: string)
    requires Base(g) && (VotingAction(a) || ShootoutAction(a))
    ensures Perform(g, ControlOp(a, now, rand, newId).value).Some? <==> ActionTaken(g, a)
  {
    hide PushLog, PulledQuestion, PulledDeck, Find, FinalizeElimination, ResolveVotes, AliveIdx, Voting.IdsAt,
         AfterMark, Marking, FreshLobby, Targets;
    if a.ActManualTieBreak? {
      FoundIsListed(g.players, a.id);
    }
    if g.shootout.Some? {
      FoundIsListed(g.players, UpNext(g.shootout.value));
    }
  }

  lemma LobbyTaken(g: GameValue, a: Action, now: int, rand: seq<nat>, newId: string)
    requires Base(g) && LobbyAction(a)
    ensures Perform(g, ControlOp(a, now, rand, newId).value).Some? <==> ActionTaken(g, a)
  {
    hide PushLog, Find, CleanName, DedupeName, NamesOf, FreshLobby, Targets;
    if a.ActKickPlayer? {
      FoundIsListed(g.players, a.id);
    }
  }

  /** When an event asks for a broadcast: a join that is not denied, the return of an offline
      player, the loss of a live connection, a message that is taken, a deadline that is met. */
  ghost predicate AsksForBroadcast(r: RoomValue, e: Event) {
    var g := r.game;
    !r.stopped &&
    match e
    case JoinRequest(name, rejoinId, rejoinToken, _, _, _) =>
      g.phase == PhaseLobby || (exists i: nat :: OwnRow(g, i, rejoinId, rejoinToken))
      || exists i: nat :: FirstNamesake(g, i, JoinName(name))
    case AttachRequest(conn, token, _) =>
      && conn.role == RolePlayer && token != ""
      && exists i: nat :: OwnRow(g, i, conn.playerId, token) && !g.players[i].connected
    case DetachMsg(conn, _) => conn.role == RolePlayer && conn.playerId in r.players && r.players[conn.playerId] == conn
    case FromPlayer(conn, msg, _) =>
      conn.role == RolePlayer &&
      (match msg
       case VoteMsg(_) => g.phase == PhaseVoting && AliveListed(g.players, conn.playerId)
       case CallBankMsg =>
         && g.phase == PhasePlaying && g.table.chainIndex >= 0 && g.table.askedId == conn.playerId
         && Listed(g.players, conn.playerId)
       case RenameMsg(newName) =>
         && g.phase == PhaseLobby && CleanName(newName) != "" && Listed(g.players, conn.playerId)
         && forall k :: 0 <= k < |g.players| && g.players[k].id != conn.playerId ==>
              !EqualFold(g.setup.fold, g.players[k].name, CleanName(newName))
       case OtherMsg => false)
    case FromController(conn, a, _, _, _) => conn.role == RoleController && ActionTaken(g, a)
    case SummaryRequest => false
    case Tick(now, _) =>
      (g.phase == PhaseCountdown && now >= g.clock.countdownEndsAt)
      || (g.phase == PhasePlaying && g.clock.timer.running && now >= g.clock.timer.endsAt)
  }

  lemma ControlAsks(r: RoomValue, e: Event)
    requires Base(r.game) && !r.stopped && e.FromController? && e.conn.role == RoleController
    ensures Changed(r, e) <==> ActionTaken(r.game, e.action)
  {
    hide Perform, Base;
    BaseIsSafe(r.game);
    if RoundAction(e.action) {
      RoundTaken(r.game, e.action, e.now, e.rand, e.newId);
    } else if VotingAction(e.action) || ShootoutAction(e.action) {
      VotingTaken(r.game, e.action, e.now, e.rand, e.newId);
    } else if LobbyAction(e.action) {
      LobbyTaken(r.game, e.action, e.now, e.rand, e.newId);
    }
  }

  lemma PlayerAsks(r: RoomValue, e: Event)
    requires Base(r.game) && !r.stopped && e.FromPlayer?
    ensures Changed(r, e) <==> AsksForBroadcast(r, e)
  {
    hide PushLog, Find, CleanName, EqualFold, FreshLobby, Targets;
    FoundIsListed(r.game.players, e.conn.playerId);
    FoundAlive(r.game.players, e.conn.playerId);
  }

  lemma JoinAsks(r: RoomValue, e: Event)
    requires Base(r.game) && !r.stopped && e.JoinRequest?
    ensures Changed(r, e) <==> AsksForBroadcast(r, e)
  {
    hide PushLog, JoinName, DedupeName, NamesOf, Claimed, OwnRow, FirstNamesake, FreshLobby, Targets;
    ClaimedMeans(r.game, JoinName(e.name), e.rejoinId, e.rejoinToken);
  }

  lemma AttachAsks(r: RoomValue, e: Event)
    requires Base(r.game) && !r.stopped && e.AttachRequest?
    ensures Changed(r, e) <==> AsksForBroadcast(r, e)
  {
    hide AttachPlayer, Find, FreshLobby, Targets;
    AttachMeans(r.game, e.conn.playerId, e.token, e.now);
    var f := Find(r.game.players, e.conn.playerId);
    if i: nat :| OwnRow(r.game, i, e.conn.playerId, e.token) {
      FindUnique(r.game.players, i);
    }
  }

  lemma TickAsks(r: RoomValue, e: Event)
    requires Safe(r.game) && !r.stopped && e.Tick?
    ensures Changed(r, e) <==> AsksForBroadcast(r, e)
  {
    hide PushLog, PulledQuestion, PulledDeck;
  }

  /** On all runs the handlers ask for a broadcast exactly then. */
  lemma BroadcastsExactly(w: World, e: Event, w': World)
    requires Happens(w, e, w')
    ensures Safe(w.room.game) && (Changed(w.room, e) <==> AsksForBroadcast(w.room, e))
  {
    hide Inv, Step, Record, Perform, Base, DuelInv, Safe, Happens, LegalEvent, ActionTaken, OwnRow, FirstNamesake;
    HappensInv(w, e, w');
    if !w.room.stopped {
      match e
      case JoinRequest(_, _, _, _, _, _) => JoinAsks(w.room, e);
      case AttachRequest(_, _, _) => AttachAsks(w.room, e);
      case FromPlayer(_, _, _) => PlayerAsks(w.room, e);
      case FromController(_, _, _, _, _) => if e.conn.role == RoleController { ControlAsks(w.room, e); }
      case Tick(now, rand) => TickAsks(w.room, e);
      case _ =>
    }
  }
}
