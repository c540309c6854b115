/** The actor object: it owns the game state and the connection maps, and handles
    one inbox message or tick at a time. */
module RoomActor {
  import opened Types
  import opened Game
  import opened Actor
  import GameState

  class Room {
    const state: GameState.State
    var players: map<string, Conn>
    var controllers: set<Conn>
    var hosts: set<Conn>
    var stopped: bool

    ghost function Repr(): set<object>
      reads this, state
    {
      {this} + state.Repr()
    }

    ghost function Model(): RoomValue
      reads this, state
    {
      RoomValue(state.Model(), players, controllers, hosts, stopped)
    }

    ghost predicate Valid()
      reads this, state, state.shootout
    {
      state.Valid()
    }

    constructor (state: GameState.State)
      requires state.Valid()
      ensures Valid() && this.state == state
      ensures Model() == NewRoom(state.Model())
    {
      this.state := state;
      players, controllers, hosts, stopped := map[], {}, {}, false;
    }

    method HandleJoin(name: string, rejoinId: string, rejoinToken: string, newId: string, newToken: string, now: int)
      returns (changed: bool)
      requires Valid() && !stopped
      modifies Repr()
      ensures Valid() && fresh(Repr() - old(Repr()))
      ensures var e := JoinRequest(name, rejoinId, rejoinToken, newId, newToken, now);
        Model() == Step(old(Model()), e) && changed == Changed(old(Model()), e)
    {
      hide Game.Join;
      var joined := state.Join(name, rejoinId, rejoinToken, newId, newToken, now);
      return joined.Some?;
    }

    method HandleAttach(conn: Conn, token: string, now: int) returns (changed: bool)
      requires Valid() && !stopped
      modifies Repr()
      ensures Valid() && fresh(Repr() - old(Repr()))
      ensures Model() == Step(old(Model()), AttachRequest(conn, token, now))
      ensures changed == Changed(old(Model()), AttachRequest(conn, token, now))
    {
      hide AttachPlayer, Offline;
      match conn.role
      case RolePlayer =>
        var ok, wasOffline := state.AttachPlayer(conn.playerId, token, now);
        if !ok {
          return false;
        }
        players := players[conn.playerId := conn];
        return wasOffline;
      case RoleController =>
        if token != "" && token == state.setup.controllerKey {
          controllers := controllers + {conn};
        }
        return false;
      case RoleHost =>
        hosts := hosts + {conn};
        return false;
    }

    method HandleDetach(conn: Conn, now: int) returns (changed: bool)
      requires Valid() && !stopped
      modifies Repr()
      ensures Valid() && fresh(Repr() - old(Repr()))
      ensures Model() == Step(old(Model()), DetachMsg(conn, now))
      ensures changed == Changed(old(Model()), DetachMsg(conn, now))
    {
      match conn.role
      case RolePlayer =>
        if conn.playerId in players && players[conn.playerId] == conn {
          players := players - {conn.playerId};
          var _ := state.DetachPlayer(conn.playerId, now);
          return true;
        }
        return false;
      case RoleController =>
        controllers := controllers - {conn};
        return false;
      case RoleHost =>
        hosts := hosts - {conn};
        return false;
    }

    method HandlePlayerMessage(conn: Conn, msg: PlayerMsg, now: int) returns (changed: bool)
      requires Valid() && !stopped
      modifies Repr()
      ensures Valid() && fresh(Repr() - old(Repr()))
      ensures Model() == Step(old(Model()), FromPlayer(conn, msg, now))
      ensures changed == Changed(old(Model()), FromPlayer(conn, msg, now))
    {
      hide SubmitVote, Game.CallBank, Game.Rename, Perform, Step, Changed, Safe;
      MessageStep(Model(), FromPlayer(conn, msg, now));
      PlayerPerformed(state.Model(), conn.playerId, msg, now);
      if conn.role != RolePlayer {
        return false;
      }
      match msg
      case VoteMsg(targetId) =>
        changed := state.SubmitVote(conn.playerId, targetId);
      case CallBankMsg =>
        changed := state.CallBank(conn.playerId, now);
      case RenameMsg(newName) =>
        changed := state.Rename(conn.playerId, newName, now);
      case OtherMsg =>
        changed := false;
    }

    method CloseRoom()
      modifies this
      ensures players == map[] && controllers == {} && hosts == {} && stopped
    {
      players, controllers, hosts, stopped := map[], {}, {}, true;
    }

    /** The control actions of a round in play. */
    method ControlRound(action: Action, now: int, rand: seq<nat>, newId: string) returns (changed: bool)
      requires Valid() && RoundAction(action)
      modifies state.Repr()
      ensures Valid() && fresh(state.Repr() - old(state.Repr()))
      ensures match ControlOp(action, now, rand, newId)
        case None => !changed && state.Model() == old(state.Model())
        case Some(op) =>
          changed == Perform(old(state.Model()), op).Some? && state.Model() == Performed(old(state.Model()), op)
    {
      hide DoStartGame, DoSelectAsked, DoNextQuestion, DoMarkCorrect, DoMarkIncorrect, DoBankChain, DoEndRound;
      match action
      case ActStartGame => changed := state.DoStartGame(now);
      case ActSelectAsked(id) => changed := state.DoSelectAsked(id, rand);
      case ActNextQuestion => changed := state.DoNextQuestion(rand);
      case ActMarkCorrect => changed := state.DoMarkCorrect(now, rand);
      case ActMarkIncorrect => changed := state.DoMarkIncorrect(now, rand);
      case ActBankChain => changed := state.DoBankChain("", now);
      case ActEndRound => changed := state.DoEndRound(now);
    }

    /** The control actions of voting. */
    method ControlVoting(action: Action, now: int, rand: seq<nat>, newId: string) returns (changed: bool)
      requires Valid() && VotingAction(action)
      modifies state.Repr()
      ensures Valid() && fresh(state.Repr() - old(state.Repr()))
      ensures match ControlOp(action, now, rand, newId)
        case None => !changed && state.Model() == old(state.Model())
        case Some(op) =>
          changed == Perform(old(state.Model()), op).Some? && state.Model() == Performed(old(state.Model()), op)
    {
      hide DoStartVoteReveal, DoAdvanceReveal, DoManualTieBreak, DoContinueAfterElimination;
      match action
      case ActStartVoteReveal => changed := state.DoStartVoteReveal();
      case ActAdvanceReveal => changed := state.DoAdvanceReveal(now);
      case ActManualTieBreak(id) => changed := state.DoManualTieBreak(id, now);
      case ActContinueAfterElimination => changed := state.DoContinueAfterElimination(now);
    }

    /** The control actions of the shootout. */
    method ControlShootout(action: Action, now: int, rand: seq<nat>, newId: string) returns (changed: bool)
      requires Valid() && ShootoutAction(action)
      modifies state.Repr()
      ensures Valid() && fresh(state.Repr() - old(state.Repr()))
      ensures match ControlOp(action, now, rand, newId)
        case None => !changed && state.Model() == old(state.Model())
        case Some(op) =>
          changed == Perform(old(state.Model()), op).Some? && state.Model() == Performed(old(state.Model()), op)
    {
      hide DoShootoutNextQuestion, DoShootoutMark;
      match action
      case ActShootoutNextQuestion => changed := state.DoShootoutNextQuestion(rand);
      case ActShootoutMark(result) => changed := state.DoShootoutMark(result, now, rand);
    }

    /** The control actions on the question bank. */
    method ControlBank(action: Action, now: int, rand: seq<nat>, newId: string) returns (changed: bool)
      requires Valid() && BankAction(action)
      modifies state.Repr()
      ensures Valid() && fresh(state.Repr() - old(state.Repr()))
      ensures match ControlOp(action, now, rand, newId)
        case None => !changed && state.Model() == old(state.Model())
        case Some(op) =>
          changed == Perform(old(state.Model()), op).Some? && state.Model() == Performed(old(state.Model()), op)
    {
      hide DoSetQuestionBank, DoResetQuestionBank;
      match action
      case ActSetQuestionBank(questions) => changed := state.DoSetQuestionBank(questions, now);
      case ActResetQuestionBank => state.DoResetQuestionBank(now); changed := true;
    }

    /** The control actions of the lobby, except kicking. */
    method ControlLobby(action: Action, now: int, rand: seq<nat>, newId: string) returns (changed: bool)
      requires Valid() && !action.ActKickPlayer?
      requires !RoundAction(action) && !VotingAction(action) && !ShootoutAction(action) && !BankAction(action)
      modifies state.Repr()
      ensures Valid() && fresh(state.Repr() - old(state.Repr()))
      ensures match ControlOp(action, now, rand, newId)
        case None => !changed && state.Model() == old(state.Model())
        case Some(op) =>
          changed == Perform(old(state.Model()), op).Some? && state.Model() == Performed(old(state.Model()), op)
    {
      hide DoPlayAgain, DoAddPlayer;
      match action
      case ActPlayAgain => state.DoPlayAgain(); changed := true;
      case ActAddPlayer(name) => changed := state.DoAddPlayer(name, newId, now);
      case _ => changed := false;
    }

    /** Every control action that touches only the game. */
    method Control(action: Action, now: int, rand: seq<nat>, newId: string) returns (changed: bool)
      requires Valid() && !action.ActKickPlayer?
      modifies state.Repr()
      ensures Valid() && fresh(state.Repr() - old(state.Repr()))
      ensures match ControlOp(action, now, rand, newId)
        case None => !changed && state.Model() == old(state.Model())
        case Some(op) =>
          changed == Perform(old(state.Model()), op).Some? && state.Model() == Performed(old(state.Model()), op)
    {
      if RoundAction(action) {
        changed := ControlRound(action, now, rand, newId);
      } else if VotingAction(action) {
        changed := ControlVoting(action, now, rand, newId);
      } else if ShootoutAction(action) {
        changed := ControlShootout(action, now, rand, newId);
      } else if BankAction(action) {
        changed := ControlBank(action, now, rand, newId);
      } else {
        changed := ControlLobby(action, now, rand, newId);
      }
    }

    method HandleKick(conn: Conn, id: string, now: int, rand: seq<nat>, newId: string) returns (changed: bool)
      requires Valid() && !stopped && conn.role == RoleController
      modifies Repr()
      ensures Valid() && fresh(Repr() - old(Repr()))
      ensures Model() == Step(old(Model()), FromController(conn, ActKickPlayer(id), now, rand, newId))
      ensures changed == Changed(old(Model()), FromController(conn, ActKickPlayer(id), now, rand, newId))
    {
      hide Perform, DoKickPlayer;
      KickPerformed(state.Model(), id, now);
      changed := state.DoKickPlayer(id, now);
      if changed {
        players := players - {id};
      }
    }

    method HandleControllerMessage(conn: Conn, action: Action, now: int, rand: seq<nat>, newId: string)
      returns (changed: bool)
      requires Valid() && !stopped
      modifies Repr()
      ensures Valid() && fresh(Repr() - old(Repr()))
      ensures Model() == Step(old(Model()), FromController(conn, action, now, rand, newId))
      ensures changed == Changed(old(Model()), FromController(conn, action, now, rand, newId))
    {
      hide Perform, Performed, Step, Changed;
      ControllerStep(Model(), conn, action, now, rand, newId);
      if conn.role != RoleController {
        return false;
      }
      match action
      case ActKickPlayer(id) =>
        changed := HandleKick(conn, id, now, rand, newId);
      case ActCloseRoom =>
        CloseRoom();
        changed := false;
      case _ =>
        changed := Control(action, now, rand, newId);
    }

    method HandleTick(now: int, rand: seq<nat>) returns (changed: bool)
      requires Valid() && !stopped
      modifies Repr()
      ensures Valid() && fresh(Repr() - old(Repr()))
      ensures Model() == Step(old(Model()), Tick(now, rand))
      ensures changed == Changed(old(Model()), Tick(now, rand))
    {
      hide Game.FinishCountdown;
      if state.phase == PhaseCountdown && now >= state.clock.countdownEndsAt {
        state.FinishCountdown(now, rand);
        return true;
      }
      if state.phase == PhasePlaying && state.clock.timer.running && now >= state.clock.timer.endsAt {
        changed := state.DoEndRound(now);
        return true;
      }
      return false;
    }

    /** One turn of the actor loop; a stopped room handles nothing any more. */
    method Dispatch(e: Event) returns (changed: bool)
      requires Valid()
      modifies Repr()
      ensures Valid() && fresh(Repr() - old(Repr()))
      ensures Model() == Step(old(Model()), e) && changed == Changed(old(Model()), e)
    {
      if stopped {
        return false;
      }
      match e
      case JoinRequest(name, rejoinId, rejoinToken, newId, newToken, now) =>
        changed := HandleJoin(name, rejoinId, rejoinToken, newId, newToken, now);
      case AttachRequest(conn, token, now) =>
        changed := HandleAttach(conn, token, now);
      case DetachMsg(conn, now) =>
        changed := HandleDetach(conn, now);
      case FromPlayer(conn, msg, now) =>
        changed := HandlePlayerMessage(conn, msg, now);
      case FromController(conn, action, now, rand, newId) =>
        changed := HandleControllerMessage(conn, action, now, rand, newId);
      case SummaryRequest =>
        changed := false;
      case Tick(now, rand) =>
        changed := HandleTick(now, rand);
    }
  }
}
