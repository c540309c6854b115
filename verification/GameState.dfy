/** The mutable game state: `State` and `Shootout` with their fields updated in
    place, every method proved against its operation in module Game. */
module GameState {
  import opened Types
  import opened Text
  import opened Roster
  import opened Voting
  import opened Duel
  import opened Game
  import Deck
  import opened Views

  class Shootout {
    const order0: string
    const order1: string
    var rounds: seq<Wave>
    var roundIndex: nat
    var turn: nat
    var question: Option<Question>
    var sudden: bool
    var winnerId: string

    constructor (order0: string, order1: string)
      ensures View() == ShootoutValue(order0, order1, [], 0, 0, None, false, "")
    {
      this.order0, this.order1 := order0, order1;
      rounds, roundIndex, turn := [], 0, 0;
      question, sudden, winnerId := None, false, "";
    }

    ghost function View(): ShootoutValue
      reads this
    {
      ShootoutValue(order0, order1, rounds, roundIndex, turn, question, sudden, winnerId)
    }

    method Score(side: nat) returns (n: nat)
      ensures n == ScoreOf(rounds, side)
    {
      n := 0;
      for i := 0 to |rounds|
        invariant n == ScoreOf(rounds[..i], side)
      {
        assert rounds[..i + 1][..i] == rounds[..i];
        var v := if side == 1 then rounds[i].p1 else rounds[i].p0;
        if v.Some? && v.value == CORRECT {
          n := n + 1;
        }
      }
      assert rounds[..|rounds|] == rounds;
    }

    /** Writes the mark into the current wave, appending waves until it exists. */
    method Record(result: string)
      modifies this
      ensures View() == Recorded(old(View()), result)
    {
      while |rounds| <= roundIndex
        invariant Pad(rounds, roundIndex) == Pad(old(rounds), roundIndex)
        invariant View() == old(View()).(rounds := rounds)
        decreases roundIndex + 1 - |rounds|
      {
        rounds := rounds + [Wave(None, None)];
      }
      if turn == 0 {
        rounds := rounds[roundIndex := rounds[roundIndex].(p0 := Some(result))];
      } else {
        rounds := rounds[roundIndex := rounds[roundIndex].(p1 := Some(result))];
      }
      question := None;
    }

    method PassTurn()
      modifies this
      ensures View() == Passed(old(View()))
    {
      if turn == 0 {
        turn := 1;
      } else {
        turn := 0;
        roundIndex := roundIndex + 1;
      }
    }

    /** The decision of `checkShootoutEnd`. */
    method Decide() returns (c: Check)
      ensures c == CheckEnd(View())
    {
      if roundIndex >= |rounds| || rounds[roundIndex].p0.None? || rounds[roundIndex].p1.None? {
        return GoOn;
      }
      var r := rounds[roundIndex];
      if !sudden {
        var sc0 := Score(0);
        var sc1 := Score(1);
        var wavesDone := roundIndex + 1;
        var remain := REGULATION_ROUNDS - wavesDone;
        if wavesDone >= REGULATION_ROUNDS {
          if sc0 != sc1 {
            return Wins(if sc0 > sc1 then 0 else 1);
          }
          return GoSudden;
        }
        if sc0 > sc1 + remain {
          return Wins(0);
        }
        if sc1 > sc0 + remain {
          return Wins(1);
        }
      } else {
        var w0, w1 := r.p0.value == CORRECT, r.p1.value == CORRECT;
        if w0 && !w1 {
          return Wins(0);
        }
        if w1 && !w0 {
          return Wins(1);
        }
      }
      return GoOn;
    }
  }

  class State {
    const setup: Setup
    var phase: Phase
    var players: seq<PlayerValue>
    var table: Table
    var clock: Clock
    var ballot: Ballot
    var lastElimination: Option<Elimination>
    var shootout: Shootout?
    ghost var duel: Option<ShootoutValue>
    var winner: string
    var log: seq<LogEntry>
    var cards: Cards

    ghost function Repr(): set<object>
      reads this
    {
      if shootout == null then {this} else {this, shootout}
    }

    ghost function Model(): GameValue
      reads this
    {
      GameValue(setup, phase, players, table, clock, ballot, lastElimination, duel, winner, log, cards)
    }

    /** `duel` is what the shootout object holds. */
    ghost predicate Mirrored()
      reads this, shootout
    {
      duel == if shootout == null then None else Some(shootout.View())
    }

    /** Everything the methods index or dereference exists. */
    ghost predicate Valid()
      reads this, shootout
    {
      Mirrored() && Safe(Model())
    }

    constructor (setup: Setup, bank: seq<Question>, usingCustom: bool)
      ensures Valid() && fresh(Repr())
      ensures Model() == NewState(setup, bank, usingCustom)
    {
      this.setup := setup;
      phase, players, table := PhaseLobby, [], OPENING_TABLE;
      clock, ballot := Clock(Timer(setup.roundDuration, 0, false), 0, TargetNone), EMPTY_BALLOT;
      lastElimination, shootout, duel, winner, log := None, null, None, "", [];
      cards := Cards(bank, usingCustom, []);
    }

    // --- plumbing ---

    method PushLog(now: int, msg: Msg)
      modifies this`log
      ensures Model() == Logged(old(Model()), now, msg)
    {
      log := [LogEntry(now, msg)] + log;
      if |log| > MAX_LOG_ENTRIES {
        log := log[..MAX_LOG_ENTRIES];
      }
    }

    method PullQuestion(rand: seq<nat>) returns (q: Question)
      modifies this`cards
      ensures q == PulledQuestion(old(Model()), rand)
      ensures Model() == old(Model()).(cards := old(cards).(deck := PulledDeck(old(Model()), rand)))
    {
      if |cards.deck| == 0 {
        if |cards.questionBank| == 0 {
          return EMPTY_BANK_QUESTION;
        }
        var pile := Deck.ShuffledCopy(cards.questionBank, rand);
        cards := cards.(deck := pile);
      }
      var last := |cards.deck| - 1;
      q := cards.deck[last];
      cards := cards.(deck := cards.deck[..last]);
    }

    method AlivePlayers() returns (out: seq<nat>)
      ensures out == AliveIdx(players)
    {
      out := [];
      for i := 0 to |players|
        invariant out == AliveIdx(players[..i])
      {
        assert players[..i + 1][..i] == players[..i];
        if players[i].alive {
          out := out + [i];
        }
      }
      assert players[..|players|] == players;
    }

    method FindPlayer(id: string) returns (r: Option<nat>)
      ensures r == Find(players, id)
    {
      for i := 0 to |players|
        invariant forall j :: 0 <= j < i ==> players[j].id != id
      {
        if players[i].id == id {
          return Some(i);
        }
      }
      return None;
    }

    method TurnIndex(alive: seq<nat>) returns (idx: int)
      requires forall j :: 0 <= j < |alive| ==> alive[j] < |players|
      ensures idx == TurnPos(players, alive, table.askedId, 0)
    {
      for i := 0 to |alive|
        invariant forall j :: 0 <= j < i ==> players[alive[j]].id != table.askedId
      {
        if players[alive[i]].id == table.askedId {
          return i;
        }
      }
      return -1;
    }

    method AdvanceTurn()
      modifies this`table
      ensures Model() == old(Model()).(table := old(table).(askedId := NextAsked(players, old(table).askedId)))
    {
      var alive := AlivePlayers();
      if |alive| == 0 {
        table := table.(askedId := "");
        return;
      }
      var idx := TurnIndex(alive);
      WrapAround(idx + 1, |alive|);
      table := table.(askedId := players[alive[(idx + 1) % |alive|]].id);
    }

    method BeginCountdown(now: int, target: Target)
      modifies this`phase, this`clock
      ensures Model() == Game.BeginCountdown(old(Model()), now, target)
    {
      phase := PhaseCountdown;
      clock := clock.(countdownEndsAt := now + COUNTDOWN_MS, target := target);
    }

    /** Put a freshly pulled question on the table. */
    method AskNextQuestion(rand: seq<nat>)
      modifies this`table, this`cards
      ensures Model() == AskNext(old(Model()), rand)
    {
      var q := PullQuestion(rand);
      table := table.(question := Some(q));
    }

    /** Put a freshly pulled question into the shootout. */
    method AskShootoutQuestion(rand: seq<nat>)
      requires Mirrored() && shootout != null
      modifies this`duel, this`cards, shootout`question
      ensures Mirrored() && Model() == ShootoutAskNext(old(Model()), old(shootout.View()), rand)
    {
      var q := PullQuestion(rand);
      shootout.question := Some(q);
      duel := Some(shootout.View());
    }

    method FinishCountdown(now: int, rand: seq<nat>)
      requires Valid()
      modifies Repr()
      ensures Valid() && fresh(Repr() - old(Repr()))
      ensures Model() == Game.FinishCountdown(old(Model()), now, rand)
    {
      var target := clock.target;
      clock := clock.(target := TargetNone);
      if target == TargetShootout {
        phase := PhaseShootout;
        AskShootoutQuestion(rand);
        PushLog(now, ShootoutBegins);
        return;
      }
      phase := PhasePlaying;
      AskNextQuestion(rand);
      clock := clock.(timer := Timer(setup.roundDuration, now + setup.roundDuration * 1000, true));
      PushLog(now, RoundBegins(table.round));
    }

    // --- rounds ---

    method DoStartGame(now: int) returns (ok: bool)
      requires Valid()
      modifies Repr()
      ensures Valid() && fresh(Repr() - old(Repr()))
      ensures ok == Game.DoStartGame(old(Model()), now).Some?
      ensures Model() == Apply(old(Model()), Game.DoStartGame(old(Model()), now))
    {
      if |players| < 3 {
        return false;
      }
      table := table.(round := 1, chainIndex := -1, askedId := players[0].id, question := None);
      PushLog(now, GameStarted(|players|));
      BeginCountdown(now, TargetRound);
      return true;
    }

    method DoSelectAsked(playerId: string, rand: seq<nat>) returns (ok: bool)
      requires Valid()
      modifies Repr()
      ensures Valid() && fresh(Repr() - old(Repr()))
      ensures ok == Game.DoSelectAsked(old(Model()), playerId, rand).Some?
      ensures Model() == Apply(old(Model()), Game.DoSelectAsked(old(Model()), playerId, rand))
    {
      if phase != PhasePlaying {
        return false;
      }
      var p := FindPlayer(playerId);
      if p.None? || !players[p.value].alive {
        return false;
      }
      table := table.(askedId := playerId);
      AskNextQuestion(rand);
      return true;
    }

    method DoNextQuestion(rand: seq<nat>) returns (ok: bool)
      requires Valid()
      modifies Repr()
      ensures Valid() && fresh(Repr() - old(Repr()))
      ensures ok == Game.DoNextQuestion(old(Model()), rand).Some?
      ensures Model() == Apply(old(Model()), Game.DoNextQuestion(old(Model()), rand))
    {
      if phase != PhasePlaying || table.askedId == "" {
        return false;
      }
      AskNextQuestion(rand);
      return true;
    }

    method DoMarkCorrect(now: int, rand: seq<nat>) returns (ok: bool)
      requires Valid()
      modifies Repr()
      ensures Valid() && fresh(Repr() - old(Repr()))
      ensures ok == Game.DoMarkCorrect(old(Model()), now, rand).Some?
      ensures Model() == Apply(old(Model()), Game.DoMarkCorrect(old(Model()), now, rand))
    {
      hide Game.PushLog, PulledQuestion, PulledDeck, NextAsked;
      if table.question.None? || table.askedId == "" {
        return false;
      }
      var r := FindPlayer(table.askedId);
      if r.None? {
        return false;
      }
      assert Marked(old(Model())) == r;
      var p := players[r.value];
      players := players[r.value := p.(correct := p.correct + 1)];
      if table.chainIndex < |CHAIN_VALUES| - 1 {
        table := table.(chainIndex := table.chainIndex + 1);
      }
      PushLog(now, MarkedCorrect(p.name, CHAIN_VALUES[table.chainIndex]));
      AdvanceTurn();
      AskNextQuestion(rand);
      return true;
    }

    method DoMarkIncorrect(now: int, rand: seq<nat>) returns (ok: bool)
      requires Valid()
      modifies Repr()
      ensures Valid() && fresh(Repr() - old(Repr()))
      ensures ok == Game.DoMarkIncorrect(old(Model()), now, rand).Some?
      ensures Model() == Apply(old(Model()), Game.DoMarkIncorrect(old(Model()), now, rand))
    {
      hide Game.PushLog, PulledQuestion, PulledDeck, NextAsked;
      if table.question.None? || table.askedId == "" {
        return false;
      }
      var r := FindPlayer(table.askedId);
      if r.None? {
        return false;
      }
      assert Marked(old(Model())) == r;
      var p := players[r.value];
      players := players[r.value := p.(incorrect := p.incorrect + 1)];
      PushLog(now, MarkedIncorrect(p.name));
      table := table.(chainIndex := -1);
      AdvanceTurn();
      AskNextQuestion(rand);
      return true;
    }

    method DoBankChain(banker: string, now: int) returns (ok: bool)
      requires Valid()
      modifies Repr()
      ensures Valid() && fresh(Repr() - old(Repr()))
      ensures ok == Game.DoBankChain(old(Model()), banker, now).Some?
      ensures Model() == Apply(old(Model()), Game.DoBankChain(old(Model()), banker, now))
    {
      if phase != PhasePlaying || table.chainIndex < 0 {
        return false;
      }
      var amt := CHAIN_VALUES[table.chainIndex];
      table := table.(bank := table.bank + amt);
      PushLog(now, Banked(banker, amt, table.bank));
      table := table.(chainIndex := -1);
      return true;
    }

    method DoEndRound(now: int) returns (ok: bool)
      requires Valid()
      modifies Repr()
      ensures Valid() && fresh(Repr() - old(Repr()))
      ensures ok == Game.DoEndRound(old(Model()), now).Some?
      ensures Model() == Apply(old(Model()), Game.DoEndRound(old(Model()), now))
    {
      if phase != PhasePlaying {
        return false;
      }
      phase := PhaseVoting;
      ballot := ballot.(votes := map[], revealing := false, revealOrder := None, revealIndex := 0);
      table := table.(question := None);
      clock := clock.(timer := clock.timer.(running := false));
      PushLog(now, RoundEnded(table.round));
      return true;
    }

    // --- voting ---

    method IdsOf(ixs: seq<nat>) returns (ids: seq<string>)
      requires InRoster(players, ixs)
      ensures ids == IdsAt(players, ixs)
    {
      ids := [];
      for i := 0 to |ixs|
        invariant |ids| == i && forall k :: 0 <= k < i ==> ids[k] == players[ixs[k]].id
      {
        ids := ids + [players[ixs[i]].id];
      }
    }

    method DoStartVoteReveal() returns (ok: bool)
      requires Valid()
      modifies Repr()
      ensures Valid() && fresh(Repr() - old(Repr()))
      ensures ok == Game.DoStartVoteReveal(old(Model())).Some?
      ensures Model() == Apply(old(Model()), Game.DoStartVoteReveal(old(Model())))
    {
      if phase != PhaseVoting || ballot.revealing {
        return false;
      }
      var alive := AlivePlayers();
      var order := IdsOf(alive);
      ballot := ballot.(revealOrder := Some(order), revealIndex := 0, revealing := true);
      return true;
    }

    method FinalizeElimination(i: nat, tally: map<string, nat>, note: string, now: int)
      requires Valid() && i < |players|
      modifies Repr()
      ensures Valid() && fresh(Repr() - old(Repr()))
      ensures Model() == Game.FinalizeElimination(old(Model()), i, tally, note, now)
    {
      players := players[i := players[i].(alive := false)];
      var rows := ShownTally(players, tally);
      lastElimination := Some(Elimination(players[i].name, rows, note));
      ballot := ballot.(tieCandidates := None, tieTally := map[]);
      phase := PhaseElimination;
      PushLog(now, VotedOff(players[i].name));
    }

    method ResolveVotes(now: int)
      requires Valid()
      modifies Repr()
      ensures Valid() && fresh(Repr() - old(Repr()))
      ensures Model() == Game.ResolveVotes(old(Model()), now)
    {
      var alive := AlivePlayers();
      var verdict, tally := DecideVotes(players, ballot.votes, alive);
      match verdict
      case Eliminate(index, note) =>
        FinalizeElimination(index, tally, note, now);
      case Tie(candidates) =>
        var ids := IdsOf(candidates);
        ballot := ballot.(tieCandidates := Some(ids), tieTally := tally);
    }

    method DoAdvanceReveal(now: int) returns (ok: bool)
      requires Valid()
      modifies Repr()
      ensures Valid() && fresh(Repr() - old(Repr()))
      ensures ok == Game.DoAdvanceReveal(old(Model()), now).Some?
      ensures Model() == Apply(old(Model()), Game.DoAdvanceReveal(old(Model()), now))
    {
      hide Game.ResolveVotes;
      if !ballot.revealing || ballot.revealOrder.None? {
        return false;
      }
      ballot := ballot.(revealIndex := ballot.revealIndex + 1);
      if ballot.revealIndex >= |ballot.revealOrder.value| {
        ballot := ballot.(revealing := false);
        ResolveVotes(now);
      }
      return true;
    }

    method DoManualTieBreak(playerId: string, now: int) returns (ok: bool)
      requires Valid()
      modifies Repr()
      ensures Valid() && fresh(Repr() - old(Repr()))
      ensures ok == Game.DoManualTieBreak(old(Model()), playerId, now).Some?
      ensures Model() == Apply(old(Model()), Game.DoManualTieBreak(old(Model()), playerId, now))
    {
      var p := FindPlayer(playerId);
      if p.None? {
        return false;
      }
      FinalizeElimination(p.value, ballot.tieTally, HOST_BROKE_NOTE, now);
      return true;
    }

    method DoContinueAfterElimination(now: int) returns (ok: bool)
      requires Valid()
      modifies Repr()
      ensures Valid() && fresh(Repr() - old(Repr()))
      ensures ok == Game.DoContinueAfterElimination(old(Model()), now).Some?
      ensures Model() == Apply(old(Model()), Game.DoContinueAfterElimination(old(Model()), now))
    {
      var alive := AlivePlayers();
      if |alive| == 2 {
        shootout := new Shootout(players[alive[0]].id, players[alive[1]].id);
        duel := Some(shootout.View());
        PushLog(now, FinalTwo);
        BeginCountdown(now, TargetShootout);
        return true;
      }
      table := table.(round := table.round + 1, chainIndex := -1);
      if |alive| > 0 {
        table := table.(askedId := players[alive[0]].id);
      }
      table := table.(question := None);
      BeginCountdown(now, TargetRound);
      return true;
    }

    // --- shootout ---

    method DoShootoutNextQuestion(rand: seq<nat>) returns (ok: bool)
      requires Valid()
      modifies Repr()
      ensures Valid() && fresh(Repr() - old(Repr()))
      ensures ok == Game.DoShootoutNextQuestion(old(Model()), rand).Some?
      ensures Model() == Apply(old(Model()), Game.DoShootoutNextQuestion(old(Model()), rand))
    {
      if shootout == null || shootout.winnerId != "" {
        return false;
      }
      AskShootoutQuestion(rand);
      return true;
    }

    method DeclareShootoutWinner(now: int)
      requires Mirrored() && shootout != null
      modifies this`phase, this`winner, this`log
      ensures Mirrored() && Model() == WinnerDeclared(old(Model()), shootout.View(), now)
    {
      var w := FindPlayer(shootout.winnerId);
      phase := PhaseGameOver;
      if w.Some? {
        winner := players[w.value].name;
        PushLog(now, WinsGame(players[w.value].name));
      }
    }

    /** `checkShootoutEnd`: sets the sudden-death flag or declares the winner. */
    method CheckShootoutEnd(now: int)
      requires Mirrored() && shootout != null
      modifies this`phase, this`winner, this`log, this`duel, shootout
      ensures Mirrored() && shootout.View() == Checked(old(shootout.View()))
      ensures var g := old(Model()).(shootout := duel);
        Model() == if CheckEnd(old(shootout.View())).Wins? then WinnerDeclared(g, shootout.View(), now) else g
    {
      var c := shootout.Decide();
      match c
      case GoOn =>
      case GoSudden =>
        shootout.sudden := true;
        duel := Some(shootout.View());
      case Wins(side) =>
        shootout.winnerId := if side == 0 then shootout.order0 else shootout.order1;
        duel := Some(shootout.View());
        DeclareShootoutWinner(now);
    }

    /** The part of a shootout mark before the end check: record, count and log it. */
    method RecordMark(i: nat, result: string, now: int)
      requires Mirrored() && shootout != null && i < |players|
      modifies this`players, this`log, this`duel, shootout
      ensures Mirrored() && shootout.View() == Recorded(old(shootout.View()), result)
      ensures Model() == Marking(old(Model()), i, result, now)
    {
      var p := players[i];
      shootout.Record(result);
      duel := Some(shootout.View());
      if result == CORRECT {
        players := players[i := p.(correct := p.correct + 1)];
      } else {
        players := players[i := p.(incorrect := p.incorrect + 1)];
      }
      PushLog(now, KickMarked(p.name, result == CORRECT));
    }

    /** The turn passes, and the next finalist gets a question. */
    method AskNextFinalist(rand: seq<nat>)
      requires Mirrored() && shootout != null
      modifies this`duel, this`cards, shootout
      ensures Mirrored() && Model() == ShootoutAskNext(old(Model()), Passed(old(shootout.View())), rand)
    {
      shootout.PassTurn();
      duel := Some(shootout.View());
      AskShootoutQuestion(rand);
    }

    method DoShootoutMark(result: string, now: int, rand: seq<nat>) returns (ok: bool)
      requires Valid()
      modifies Repr()
      ensures Valid() && fresh(Repr() - old(Repr()))
      ensures ok == Game.DoShootoutMark(old(Model()), result, now, rand).Some?
      ensures Model() == Apply(old(Model()), Game.DoShootoutMark(old(Model()), result, now, rand))
    {
      hide Deck.DrawCard;
      if shootout == null || shootout.question.None? {
        return false;
      }
      var r := FindPlayer(if shootout.turn == 0 then shootout.order0 else shootout.order1);
      if r.None? {
        return false;
      }
      assert ShootoutMarked(old(Model())) == r;
      RecordMark(r.value, result, now);
      CheckShootoutEnd(now);
      if shootout.winnerId == "" {
        AskNextFinalist(rand);
      }
      return true;
    }

    // --- lobby ---

    method RevivedPlayers() returns (revived: seq<PlayerValue>)
      ensures revived == RevivedAll(players)
    {
      revived := [];
      for i := 0 to |players|
        invariant |revived| == i && forall k :: 0 <= k < i ==> revived[k] == Revived(players[k])
      {
        var p := players[i];
        revived := revived + [PlayerValue(p.id, p.name, true, 0, 0, p.connected, p.token)];
      }
    }

    /** `*s = *fresh`: every field but the setup is overwritten. */
    method Become(next: GameValue)
      requires next.setup == setup && next.shootout.None?
      modifies this
      ensures shootout == null && Model() == next
    {
      phase, players, table, clock, ballot := next.phase, next.players, next.table, next.clock, next.ballot;
      lastElimination, shootout, duel := next.lastElimination, null, None;
      winner, log, cards := next.winner, next.log, next.cards;
    }

    method DoPlayAgain()
      requires Valid()
      modifies Repr()
      ensures Valid() && fresh(Repr() - old(Repr()))
      ensures Model() == Game.DoPlayAgain(old(Model()))
    {
      hide RevivedAll;
      var revived := RevivedPlayers();
      Become(NewState(setup, cards.questionBank, cards.usingCustom).(players := revived));
    }

    method DoKickPlayer(playerId: string, now: int) returns (ok: bool)
      requires Valid()
      modifies Repr()
      ensures Valid() && fresh(Repr() - old(Repr()))
      ensures ok == Game.DoKickPlayer(old(Model()), playerId, now).Some?
      ensures Model() == Apply(old(Model()), Game.DoKickPlayer(old(Model()), playerId, now))
    {
      if phase != PhaseLobby {
        return false;
      }
      var r := FindPlayer(playerId);
      if r.None? {
        return false;
      }
      var name := players[r.value].name;
      players := players[..r.value] + players[r.value + 1..];
      PushLog(now, RemovedByHost(name));
      return true;
    }

    method Names() returns (names: seq<string>)
      ensures names == NamesOf(players)
    {
      names := [];
      for i := 0 to |players|
        invariant |names| == i && forall k :: 0 <= k < i ==> names[k] == players[k].name
      {
        names := names + [players[i].name];
      }
    }

    method DoAddPlayer(name: string, newId: string, now: int) returns (ok: bool)
      requires Valid()
      modifies Repr()
      ensures Valid() && fresh(Repr() - old(Repr()))
      ensures ok == Game.DoAddPlayer(old(Model()), name, newId, now).Some?
      ensures Model() == Apply(old(Model()), Game.DoAddPlayer(old(Model()), name, newId, now))
    {
      if phase != PhaseLobby {
        return false;
      }
      var n := CleanName(if name == "" then "Player" else name);
      if n == "" {
        return false;
      }
      var names := Names();
      var final := Dedupe(setup.fold, n, names);
      players := players + [PlayerValue(newId, final, true, 0, 0, false, "")];
      PushLog(now, AddedByHost(final));
      return true;
    }

    method DoSetQuestionBank(questions: seq<Question>, now: int) returns (ok: bool)
      requires Valid()
      modifies Repr()
      ensures Valid() && fresh(Repr() - old(Repr()))
      ensures ok == Game.DoSetQuestionBank(old(Model()), questions, now).Some?
      ensures Model() == Apply(old(Model()), Game.DoSetQuestionBank(old(Model()), questions, now))
    {
      if |questions| == 0 {
        return false;
      }
      cards := Cards(questions, true, []);
      PushLog(now, LoadedQuestions(|questions|));
      return true;
    }

    method DoResetQuestionBank(now: int)
      requires Valid()
      modifies Repr()
      ensures Valid() && fresh(Repr() - old(Repr()))
      ensures Model() == Game.DoResetQuestionBank(old(Model()), now)
    {
      cards := Cards(setup.communityBank, false, []);
      PushLog(now, DefaultBank);
    }

    // --- players ---

    method FindOfflineNamesake(name: string) returns (r: Option<nat>)
      ensures r == OfflineNamesake(Model(), name, 0)
    {
      for i := 0 to |players|
        invariant forall j :: 0 <= j < i ==> players[j].connected || !EqualFold(setup.fold, players[j].name, name)
      {
        if !players[i].connected && EqualFold(setup.fold, players[i].name, name) {
          return Some(i);
        }
      }
      return None;
    }

    /** Finds or creates the player of a join call; None when the join is denied. */
    method Join(name: string, rejoinId: string, rejoinToken: string, newId: string, newToken: string, now: int)
      returns (joined: Option<nat>)
      requires Valid()
      modifies Repr()
      ensures Valid() && fresh(Repr() - old(Repr()))
      ensures var r := Game.Join(old(Model()), name, rejoinId, rejoinToken, newId, newToken, now);
        joined.Some? == r.Some? && Model() == Apply(old(Model()), r)
      ensures joined.Some? ==> joined.value < |players|
      ensures joined.Some? ==> players[joined.value].connected && players[joined.value].token == newToken
    {
      hide Game.PushLog, CleanName, JoinName, DedupeName, NamesOf, OfflineNamesake;
      var incoming := JoinName(name);
      var p: Option<nat> := None;
      if rejoinId != "" {
        p := FindPlayer(rejoinId);
      }
      if p.None? || players[p.value].token != rejoinToken {
        p := FindOfflineNamesake(incoming);
      }
      assert p == Claimed(old(Model()), incoming, rejoinId, rejoinToken);
      if p.Some? {
        var row := players[p.value];
        players := players[p.value := row.(connected := true, token := newToken)];
        PushLog(now, if row.connected then Joined(row.name) else Reconnected(row.name));
        return p;
      }
      if phase != PhaseLobby {
        return None;
      }
      var names := Names();
      var final := Dedupe(setup.fold, incoming, names);
      players := players + [PlayerValue(newId, final, true, 0, 0, true, newToken)];
      PushLog(now, Joined(final));
      return Some(|players| - 1);
    }

    method AttachPlayer(playerId: string, token: string, now: int) returns (ok: bool, wasOffline: bool)
      requires Valid()
      modifies Repr()
      ensures Valid() && fresh(Repr() - old(Repr()))
      ensures ok == Game.AttachPlayer(old(Model()), playerId, token, now).Some?
      ensures ok ==> wasOffline == Offline(old(Model()), playerId)
      ensures Model() == Apply(old(Model()), Game.AttachPlayer(old(Model()), playerId, token, now))
    {
      var r := FindPlayer(playerId);
      if r.None? || token == "" || players[r.value].token != token {
        return false, false;
      }
      var p := players[r.value];
      players := players[r.value := p.(connected := true)];
      if !p.connected {
        PushLog(now, Reconnected(p.name));
      }
      return true, !p.connected;
    }

    method DetachPlayer(playerId: string, now: int) returns (ok: bool)
      requires Valid()
      modifies Repr()
      ensures Valid() && fresh(Repr() - old(Repr()))
      ensures ok == Game.DetachPlayer(old(Model()), playerId, now).Some?
      ensures Model() == Apply(old(Model()), Game.DetachPlayer(old(Model()), playerId, now))
    {
      var r := FindPlayer(playerId);
      if r.None? || !players[r.value].connected {
        return false;
      }
      var p := players[r.value];
      players := players[r.value := p.(connected := false)];
      PushLog(now, Disconnected(p.name));
      return true;
    }

    method SubmitVote(voterId: string, targetId: string) returns (ok: bool)
      requires Valid()
      modifies Repr()
      ensures Valid() && fresh(Repr() - old(Repr()))
      ensures ok == Game.SubmitVote(old(Model()), voterId, targetId).Some?
      ensures Model() == Apply(old(Model()), Game.SubmitVote(old(Model()), voterId, targetId))
    {
      if phase != PhaseVoting {
        return false;
      }
      var voter := FindPlayer(voterId);
      if voter.None? || !players[voter.value].alive {
        return false;
      }
      ballot := ballot.(votes := ballot.votes[voterId := targetId]);
      return true;
    }

    method CallBank(playerId: string, now: int) returns (ok: bool)
      requires Valid()
      modifies Repr()
      ensures Valid() && fresh(Repr() - old(Repr()))
      ensures ok == Game.CallBank(old(Model()), playerId, now).Some?
      ensures Model() == Apply(old(Model()), Game.CallBank(old(Model()), playerId, now))
    {
      if phase != PhasePlaying || table.askedId != playerId {
        return false;
      }
      var p := FindPlayer(playerId);
      if p.None? {
        return false;
      }
      ok := DoBankChain(players[p.value].name, now);
    }

    method IsNameInUse(playerId: string, name: string) returns (used: bool)
      ensures used == NameInUse(Model(), playerId, name)
    {
      for i := 0 to |players|
        invariant forall j :: 0 <= j < i ==> players[j].id == playerId || !EqualFold(setup.fold, players[j].name, name)
      {
        if players[i].id != playerId && EqualFold(setup.fold, players[i].name, name) {
          return true;
        }
      }
      return false;
    }

    method Rename(playerId: string, newName: string, now: int) returns (ok: bool)
      requires Valid()
      modifies Repr()
      ensures Valid() && fresh(Repr() - old(Repr()))
      ensures ok == Game.Rename(old(Model()), playerId, newName, now).Some?
      ensures Model() == Apply(old(Model()), Game.Rename(old(Model()), playerId, newName, now))
    {
      if phase != PhaseLobby {
        return false;
      }
      var n := CleanName(newName);
      if n == "" {
        return false;
      }
      var used := IsNameInUse(playerId, n);
      if used {
        return false;
      }
      var r := FindPlayer(playerId);
      if r.None? {
        return false;
      }
      var was := players[r.value].name;
      players := players[r.value := players[r.value].(name := n)];
      PushLog(now, Renamed(was, n));
      return true;
    }

    // --- what each audience is sent ---

    method PublicPlayers() returns (out: seq<PlayerPublic>)
      ensures out == Views.ToPlayerPublic(players)
    {
      out := [];
      for i := 0 to |players|
        invariant |out| == i && forall k :: 0 <= k < i ==> out[k] == Public(players[k])
      {
        var p := players[i];
        out := out + [PlayerPublic(p.id, p.name, p.alive, p.correct, p.incorrect, p.connected)];
      }
    }

    method PlayerName(id: string) returns (name: string)
      ensures name == NameOf(players, id)
    {
      var p := FindPlayer(id);
      name := if p.Some? then players[p.value].name else "";
    }

    method ShootoutSeats() returns (seats: seq<ShootoutSeat>)
      requires shootout != null
      ensures seats == Seats(players, shootout.View())
    {
      var order := [shootout.order0, shootout.order1];
      seats := [];
      for i := 0 to |order|
        invariant |seats| == i
        invariant forall k :: 0 <= k < i ==> seats[k] == ShootoutSeat(order[k], NameOf(players, order[k]))
      {
        var name := PlayerName(order[i]);
        seats := seats + [ShootoutSeat(order[i], name)];
      }
    }

    method PublicShootout() returns (r: Option<ShootoutPublic>)
      requires Mirrored()
      ensures r == ShootoutPublicOf(Model())
    {
      if shootout == null {
        return None;
      }
      var seats := ShootoutSeats();
      return Some(ShootoutPublic(
                    seats, shootout.rounds, shootout.roundIndex, shootout.turn, shootout.sudden, shootout.winnerId,
                    WithoutAnswer(shootout.question)));
    }

    method CurrentReveal() returns (r: Option<RevealInfo>)
      requires RevealDefined(Model())
      ensures r == RevealInfoOf(Model())
    {
      if !ballot.revealing || ballot.revealOrder.None? {
        return None;
      }
      var voter := ballot.revealOrder.value[ballot.revealIndex];
      var voterName := PlayerName(voter);
      var votedForName: Option<string> := None;
      if voter in ballot.votes {
        var target := FindPlayer(ballot.votes[voter]);
        if target.Some? {
          votedForName := Some(players[target.value].name);
        }
      }
      return Some(RevealInfo(voterName, votedForName, ballot.revealIndex, |ballot.revealOrder.value|));
    }

    method ToPlayerState(forId: string) returns (r: PlayerState)
      requires Valid() && RevealDefined(Model())
      ensures r == Views.ToPlayerState(Model(), forId)
    {
      var everyone := PublicPlayers();
      var info := CurrentReveal();
      var sh := PublicShootout();
      r := PlayerState(
        phase, setup.roomCode, everyone, table.chainIndex,
        if table.chainIndex >= 0 then CHAIN_VALUES[table.chainIndex] else 0, table.bank,
        table.round, table.askedId, WithoutAnswer(table.question), clock.timer, clock.countdownEndsAt,
        forId, forId != "" && forId in ballot.votes, ballot.revealing, info,
        lastElimination, sh, winner);
    }

    method ToControllerState() returns (r: ControllerState)
      requires Valid() && RevealDefined(Model())
      ensures r == Views.ToControllerState(Model())
    {
      var shared := ToPlayerState("");
      var askedName := PlayerName(table.askedId);
      var question: Option<Question> := None;
      if shootout != null {
        question := shootout.question;
      }
      r := ControllerState(
        shared, askedName, table.question, |ballot.votes|, ballot.revealOrder, ballot.revealIndex,
        ballot.tieCandidates, question, |cards.questionBank|, cards.usingCustom, log);
    }
  }
}
