/** What each message means for the game, as a relation between before and after: when it
    is taken, whom it concerns, and what it leaves alone. */
module Meaning {
  import opened Types
  import opened Text
  import opened Roster
  import opened Game
  import opened Basis
  import opened BallotRuns
  import opened ConnectionRuns
  import opened ShootoutRuns
  import opened UiRuns
  import Duel
  import Voting

  // --- a round ---

  /** Only rows, table, pile and log may differ. */
  ghost predicate OnlyRound(g: GameValue, h: GameValue) {
    h == g.(players := h.players, table := h.table, cards := g.cards.(deck := h.cards.deck), log := h.log)
  }

  /** One right answer more for this player, nothing else in the roster. */
  ghost predicate OneMoreRight(ps: seq<PlayerValue>, qs: seq<PlayerValue>, id: string) {
    && |qs| == |ps|
    && forall k :: 0 <= k < |ps| ==> qs[k] == if ps[k].id == id then ps[k].(correct := ps[k].correct + 1) else ps[k]
  }

  ghost predicate OneMoreWrong(ps: seq<PlayerValue>, qs: seq<PlayerValue>, id: string) {
    && |qs| == |ps|
    && forall k :: 0 <= k < |ps| ==>
      qs[k] == if ps[k].id == id then ps[k].(incorrect := ps[k].incorrect + 1) else ps[k]
  }

  /** A question is up for somebody on the roster. */
  ghost predicate QuestionUp(g: GameValue) {
    g.table.question.Some? && Listed(g.players, g.table.askedId)
  }

  /** "Correct": the asked player has one right answer more and the chain climbs a step. */
  ghost predicate MeansCorrect(g: GameValue, h: GameValue) {
    if !QuestionUp(g) then h == g
    else
      && OnlyRound(g, h) && OneMoreRight(g.players, h.players, g.table.askedId)
      && h.table.chainIndex == (if g.table.chainIndex == 12 then 12 else g.table.chainIndex + 1)
      && h.table.bank == g.table.bank && h.table.round == g.table.round && h.table.question.Some?
  }

  /** "Incorrect": the asked player has one wrong answer more and the chain is lost. */
  ghost predicate MeansIncorrect(g: GameValue, h: GameValue) {
    if !QuestionUp(g) then h == g
    else
      && OnlyRound(g, h) && OneMoreWrong(g.players, h.players, g.table.askedId)
      && h.table.chainIndex == -1
      && h.table.bank == g.table.bank && h.table.round == g.table.round && h.table.question.Some?
  }

  /** Banking: the value of the live chain goes to the bank and the chain starts anew. */
  ghost predicate MeansBank(g: GameValue, h: GameValue) {
    if g.phase != PhasePlaying || g.table.chainIndex == -1 then h == g
    else
      && h == g.(table := h.table, log := h.log)
      && 0 <= g.table.chainIndex < |CHAIN_VALUES|
      && h.table == g.table.(bank := g.table.bank + CHAIN_VALUES[g.table.chainIndex], chainIndex := -1)
  }

  /** Starting: with three players or more, the first of them is up in round 1 after five seconds. */
  ghost predicate MeansStart(g: GameValue, h: GameValue, now: int) {
    if |g.players| < 3 then h == g
    else
      && h == g.(phase := PhaseCountdown, table := h.table, clock := h.clock, log := h.log)
      && h.table == Table(-1, g.table.bank, 1, g.players[0].id, None)
      && h.clock == Clock(g.clock.timer, now + 5000, TargetRound)
  }

  /** Picking a player: only in a round, only a living one; that player gets a new question. */
  ghost predicate MeansSelect(g: GameValue, h: GameValue, id: string) {
    if g.phase != PhasePlaying || !AliveListed(g.players, id) then h == g
    else
      && OnlyRound(g, h) && h.players == g.players && h.log == g.log
      && h.table == g.table.(askedId := id, question := h.table.question) && h.table.question.Some?
  }

  /** Skipping: a new question for the same player. */
  ghost predicate MeansSkip(g: GameValue, h: GameValue) {
    if g.phase != PhasePlaying || g.table.askedId == "" then h == g
    else
      && OnlyRound(g, h) && h.players == g.players && h.log == g.log
      && h.table == g.table.(question := h.table.question) && h.table.question.Some?
  }

  /** Ending a round: the vote opens empty and the timer stops. */
  ghost predicate MeansEndRound(g: GameValue, h: GameValue) {
    if g.phase != PhasePlaying then h == g
    else
      && h == g.(phase := PhaseVoting, table := h.table, ballot := h.ballot, clock := h.clock, log := h.log)
      && h.table == g.table.(question := None)
      && h.ballot.votes == map[] && !h.ballot.revealing
      && h.ballot.tieCandidates == g.ballot.tieCandidates && h.ballot.tieTally == g.ballot.tieTally
      && h.clock == g.clock.(timer := h.clock.timer) && !h.clock.timer.running
  }

  lemma FoundIsListed(ps: seq<PlayerValue>, id: string)
    ensures Find(ps, id).Some? <==> Listed(ps, id)
  {
  }

  lemma CorrectMeans(g: GameValue, now: int, rand: seq<nat>)
    requires Base(g)
    ensures MeansCorrect(g, Apply(g, DoMarkCorrect(g, now, rand)))
  {
    hide PushLog, PulledQuestion, PulledDeck, NextAsked, Find, FreshLobby, Targets;
    FoundIsListed(g.players, g.table.askedId);
    if Find(g.players, g.table.askedId).Some? {
      FindUnique(g.players, Find(g.players, g.table.askedId).value);
    }
  }

  lemma IncorrectMeans(g: GameValue, now: int, rand: seq<nat>)
    requires Base(g)
    ensures MeansIncorrect(g, Apply(g, DoMarkIncorrect(g, now, rand)))
  {
    hide PushLog, PulledQuestion, PulledDeck, NextAsked, Find, FreshLobby, Targets;
    FoundIsListed(g.players, g.table.askedId);
    if Find(g.players, g.table.askedId).Some? {
      FindUnique(g.players, Find(g.players, g.table.askedId).value);
    }
  }

  lemma BankMeans(g: GameValue, banker: string, now: int)
    requires Safe(g)
    ensures MeansBank(g, Apply(g, DoBankChain(g, banker, now)))
  {
    hide PushLog;
  }

  lemma StartMeans(g: GameValue, now: int)
    ensures MeansStart(g, Apply(g, DoStartGame(g, now)), now)
  {
    hide PushLog;
  }

  lemma SelectMeans(g: GameValue, id: string, rand: seq<nat>)
    requires Base(g)
    ensures MeansSelect(g, Apply(g, DoSelectAsked(g, id, rand)), id)
  {
    hide PushLog, PulledQuestion, PulledDeck, FreshLobby, Targets;
    if AliveListed(g.players, id) {
      var i :| 0 <= i < |g.players| && g.players[i].id == id && g.players[i].alive;
      FindUnique(g.players, i);
    }
  }

  lemma SkipMeans(g: GameValue, rand: seq<nat>)
    ensures MeansSkip(g, Apply(g, DoNextQuestion(g, rand)))
  {
    hide PulledQuestion, PulledDeck;
  }

  lemma EndRoundMeans(g: GameValue, now: int)
    ensures MeansEndRound(g, Apply(g, DoEndRound(g, now)))
  {
    hide PushLog;
  }

  // --- voting ---

  /** Starting the reveal: only in the vote; the order holds exactly the living. */
  ghost predicate MeansReveal(g: GameValue, h: GameValue) {
    if g.phase != PhaseVoting || g.ballot.revealing then h == g
    else
      && h == g.(ballot := h.ballot)
      && h.ballot == g.ballot.(revealing := true, revealIndex := 0, revealOrder := h.ballot.revealOrder)
      && h.ballot.revealOrder.Some? && |h.ballot.revealOrder.value| == Living(g)
      && forall id :: id in h.ballot.revealOrder.value <==> AliveListed(g.players, id)
  }

  /** The row with this id is dead, every other row is as it was. */
  ghost predicate OneDies(ps: seq<PlayerValue>, qs: seq<PlayerValue>, id: string) {
    && |qs| == |ps|
    && forall k :: 0 <= k < |ps| ==> qs[k] == if ps[k].id == id then ps[k].(alive := false) else ps[k]
  }

  ghost predicate SoleLeader(ps: seq<PlayerValue>, votes: map<string, string>) {
    forall i, j :: Voting.TopVoted(ps, votes, i) && Voting.TopVoted(ps, votes, j) ==> i == j
  }

  /** The weakest player goes if there is only one; else the weakest become candidates, or
      nobody if no score is visible.  The note says whether scores had to decide. */
  ghost predicate Decides(g: GameValue, h: GameValue) {
    var ps, votes := g.players, g.ballot.votes;
    if h.phase == PhaseElimination && h.players != ps then
      && h.lastElimination.Some?
      && (exists i: nat :: i < |ps| && OneDies(ps, h.players, ps[i].id)
            && (forall k :: k == i <==> Voting.Weakest(ps, votes, k))
            && h.lastElimination.value.name == ps[i].name)
      && h.lastElimination.value.note ==
        (if SoleLeader(ps, votes) then "" else "Tie broken by in-game performance.")
      && h.ballot.tieCandidates == None
    else
      && h == g.(ballot := h.ballot) && h.ballot.tieCandidates.Some?
      && (Voting.ScoreVisible(ps, votes) ==>
            && |h.ballot.tieCandidates.value| >= 2
            && forall id :: id in h.ballot.tieCandidates.value <==>
                 exists i: nat :: i < |ps| && ps[i].id == id && Voting.Weakest(ps, votes, i))
      && (!Voting.ScoreVisible(ps, votes) ==> h.ballot.tieCandidates.value == [])
  }

  /** One step of the reveal; the last one decides the vote. */
  ghost predicate MeansAdvance(g: GameValue, h: GameValue) {
    if !g.ballot.revealing || g.ballot.revealOrder.None? then h == g
    else if g.ballot.revealIndex + 1 < |g.ballot.revealOrder.value| then
      h == g.(ballot := g.ballot.(revealIndex := g.ballot.revealIndex + 1))
    else Decides(g, h) && !h.ballot.revealing && h.ballot.votes == g.ballot.votes
  }

  /** The host's tie-break: exactly the named player goes, whatever the phase. */
  ghost predicate MeansTieBreak(g: GameValue, h: GameValue, id: string) {
    if !Listed(g.players, id) then h == g
    else
      && h == g.(phase := PhaseElimination, players := h.players, ballot := h.ballot,
                 lastElimination := h.lastElimination, log := h.log)
      && OneDies(g.players, h.players, id)
      && h.lastElimination.Some? && h.lastElimination.value.note == "The host broke the tie."
      && (forall k :: 0 <= k < |g.players| && g.players[k].id == id ==>
            h.lastElimination.value.name == g.players[k].name)
      && h.ballot == g.ballot.(tieCandidates := None, tieTally := map[])
  }

  /** Continuing: with two left, they meet in a new shootout; else the next round begins with
      the first living player.  Either way after five seconds. */
  ghost predicate MeansContinue(g: GameValue, h: GameValue, now: int) {
    && h == g.(phase := PhaseCountdown, clock := h.clock, table := h.table, shootout := h.shootout, log := h.log)
    && h.clock.timer == g.clock.timer && h.clock.countdownEndsAt == now + 5000
    && if Living(g) == 2 then
         && h.clock.target == TargetShootout && h.table == g.table && h.shootout.Some?
         && var sh := h.shootout.value;
            && sh == ShootoutValue(sh.order0, sh.order1, [], 0, 0, None, false, "")
            && exists i: nat, j: nat :: i < j < |g.players|
                 && g.players[i].alive && g.players[j].alive
                 && sh.order0 == g.players[i].id && sh.order1 == g.players[j].id
       else
         && h.clock.target == TargetRound && h.shootout == g.shootout
         && h.table == Table(-1, g.table.bank, g.table.round + 1, h.table.askedId, None)
         && (forall i :: 0 <= i < |g.players| && g.players[i].alive
                         && (forall k :: 0 <= k < i ==> !g.players[k].alive) ==>
               h.table.askedId == g.players[i].id)
  }

  lemma RevealMeans(g: GameValue)
    ensures MeansReveal(g, Apply(g, DoStartVoteReveal(g)))
  {
    hide AliveIdx;
    AliveIdxIds(g.players);
    AliveIdxAlive(g.players);
    forall id ensures AliveListed(g.players, id) <==> id in AliveIds(g.players) {
    }
  }

  lemma DiesIsOneDies(ps: seq<PlayerValue>, i: nat)
    requires DistinctIds(ps) && i < |ps|
    ensures OneDies(ps, ps[i := ps[i].(alive := false)], ps[i].id)
  {
  }

  lemma NoteTells(ps: seq<PlayerValue>, votes: map<string, string>)
    requires Voting.Resolve(ps, votes).Eliminate?
    ensures Voting.Resolve(ps, votes).note ==
      if SoleLeader(ps, votes) then "" else "Tie broken by in-game performance."
  {
    hide Voting.MaxVotes, Voting.WithVotes, Voting.MinScore, Voting.WithScore, Voting.Tally, AliveIdx, Voting.TopVoted;
    var top := Voting.TopOf(ps, votes);
    Voting.TopIsTopVoted(ps, votes);
    Voting.ResolveNamesTheLiving(ps, votes);
    AliveIdxComplete(ps, Voting.Resolve(ps, votes).index);
    assert top != [];
    if |top| == 1 {
      assert forall i :: i in top ==> i == top[0];
    } else {
      assert top[0] in top && top[1] in top && top[0] != top[1];
    }
  }

  lemma WeakestAreRows(ps: seq<PlayerValue>, votes: map<string, string>)
    ensures forall i :: Voting.Weakest(ps, votes, i) ==> 0 <= i < |ps|
  {
  }

  lemma NobodyAliveNoCandidates(ps: seq<PlayerValue>, votes: map<string, string>)
    requires AliveIdx(ps) == []
    ensures Voting.Resolve(ps, votes) == Voting.Tie([])
  {
  }

  lemma SoleTopDecides(ps: seq<PlayerValue>, votes: map<string, string>)
    requires AliveIdx(ps) != [] && Voting.Resolve(ps, votes).Tie?
    ensures |Voting.TopOf(ps, votes)| >= 2
  {
    hide Voting.MaxVotes, Voting.WithVotes, Voting.Tally, AliveIdx, Voting.MinScore, Voting.WithScore;
    Voting.TopIsTopVoted(ps, votes);
  }

  lemma CandidatesMean(ps: seq<PlayerValue>, votes: map<string, string>)
    requires Voting.Resolve(ps, votes).Tie?
    ensures var ids := Voting.IdsAt(ps, Voting.Resolve(ps, votes).candidates);
      && (Voting.ScoreVisible(ps, votes) ==>
            && |ids| >= 2
            && forall id :: id in ids <==> exists i: nat :: i < |ps| && ps[i].id == id && Voting.Weakest(ps, votes, i))
      && (!Voting.ScoreVisible(ps, votes) ==> ids == [])
  {
    hide Voting.Resolve, AliveIdx, Voting.ScoreVisible, Voting.Weakest, Voting.TopOf;
    var cs := Voting.Resolve(ps, votes).candidates;
    if Voting.ScoreVisible(ps, votes) {
      Voting.ResolvePicksTheWeakest(ps, votes);
      WeakestAreRows(ps, votes);
      forall id ensures id in Voting.IdsAt(ps, cs) <==>
        exists i: nat :: i < |ps| && ps[i].id == id && Voting.Weakest(ps, votes, i)
      {
        if i: nat :| i < |ps| && ps[i].id == id && Voting.Weakest(ps, votes, i) {
          assert i in cs;
          var k :| 0 <= k < |cs| && cs[k] == i;
          assert Voting.IdsAt(ps, cs)[k] == id;
        }
        if id in Voting.IdsAt(ps, cs) {
          var k :| 0 <= k < |cs| && Voting.IdsAt(ps, cs)[k] == id;
          assert cs[k] in cs && Voting.Weakest(ps, votes, cs[k]);
        }
      }
    } else if AliveIdx(ps) == [] {
      NobodyAliveNoCandidates(ps, votes);
    } else {
      SoleTopDecides(ps, votes);
      Voting.NoCandidatesExactlyAboveTheCeiling(ps, votes);
    }
  }

  lemma DecisionMeans(g: GameValue, g1: GameValue, now: int)
    requires Base(g)
    requires g1 == g.(ballot := g1.ballot) && g1.ballot.votes == g.ballot.votes
    ensures Decides(g, ResolveVotes(g1, now))
  {
    hide PushLog, Voting.Resolve, Voting.Tally, Voting.SortDesc, Voting.TallyRows, AliveIdx, Voting.Weakest,
         Voting.ScoreVisible, SoleLeader, OneDies, FreshLobby, Targets, Voting.TopOf;
    var ps, votes := g.players, g.ballot.votes;
    match Voting.Resolve(ps, votes)
    case Eliminate(i, note) =>
      Voting.EliminationsAreRight(ps, votes);
      Voting.ResolveNamesTheLiving(ps, votes);
      DiesIsOneDies(ps, i);
      NoteTells(ps, votes);
    case Tie(candidates) => CandidatesMean(ps, votes);
  }

  lemma ResolvingKeepsBallot(g: GameValue, now: int)
    ensures ResolveVotes(g, now).ballot.revealing == g.ballot.revealing
    ensures ResolveVotes(g, now).ballot.votes == g.ballot.votes
  {
    hide PushLog, Voting.Resolve, Voting.Tally, Voting.SortDesc, Voting.TallyRows;
  }

  lemma AdvanceMeans(g: GameValue, now: int)
    requires Base(g)
    ensures MeansAdvance(g, Apply(g, DoAdvanceReveal(g, now)))
  {
    hide ResolveVotes, AliveIdx, Decides, Base;
    if g.ballot.revealing {
      var g1 := g.(ballot := g.ballot.(revealIndex := g.ballot.revealIndex + 1, revealing := false));
      DecisionMeans(g, g1, now);
      ResolvingKeepsBallot(g1, now);
    }
  }

  lemma TieBreakMeans(g: GameValue, id: string, now: int)
    requires Base(g)
    ensures MeansTieBreak(g, Apply(g, DoManualTieBreak(g, id, now)), id)
  {
    hide PushLog, Voting.SortDesc, Voting.TallyRows, Find, FreshLobby, Targets;
    FoundIsListed(g.players, id);
    if Find(g.players, id).Some? {
      FindUnique(g.players, Find(g.players, id).value);
    }
  }

  lemma FirstAliveIsFirst(ps: seq<PlayerValue>, i: nat)
    requires i < |ps| && ps[i].alive && forall k :: 0 <= k < i ==> !ps[k].alive
    ensures AliveIdx(ps) != [] && AliveIdx(ps)[0] == i
  {
    AliveIdxAlive(ps);
    AliveIdxComplete(ps, i);
  }

  lemma ContinueMeans(g: GameValue, now: int)
    ensures MeansContinue(g, DoContinueAfterElimination(g, now).value, now)
  {
    hide PushLog, AliveIdx;
    AliveIdxAlive(g.players);
    forall i | 0 <= i < |g.players| && g.players[i].alive && (forall k :: 0 <= k < i ==> !g.players[k].alive)
      ensures AliveIdx(g.players) != [] && AliveIdx(g.players)[0] == i
    {
      FirstAliveIsFirst(g.players, i);
    }
  }

  // --- the shootout ---

  /** Whose turn it is in the shootout. */
  function UpNext(sh: ShootoutValue): string {
    if sh.turn == 1 then sh.order1 else sh.order0
  }

  /** What is recorded of this seat in this wave, if anything. */
  function Mark(rounds: seq<Wave>, wave: nat, seat: nat): Option<string> {
    if wave >= |rounds| then None else if seat == 1 then rounds[wave].p1 else rounds[wave].p0
  }

  /** The name announced is the name of the row with this id. */
  ghost predicate Announced(g: GameValue, id: string) {
    exists k :: 0 <= k < |g.players| && g.players[k].id == id && g.winner == g.players[k].name
  }

  /** A shootout mark counts for the finalist whose turn it is, and is written in the current
      wave for that seat alone. */
  ghost predicate MeansKick(g: GameValue, h: GameValue, result: string) {
    if g.shootout.None? || g.shootout.value.question.None? || !Listed(g.players, UpNext(g.shootout.value)) then h == g
    else
      && h == g.(phase := h.phase, players := h.players, shootout := h.shootout, winner := h.winner,
                 cards := g.cards.(deck := h.cards.deck), log := h.log)
      && (if result == "correct" then OneMoreRight(g.players, h.players, UpNext(g.shootout.value))
          else OneMoreWrong(g.players, h.players, UpNext(g.shootout.value)))
      && h.shootout.Some?
      && var sh, t := g.shootout.value, h.shootout.value;
         && t.order0 == sh.order0 && t.order1 == sh.order1
         && (forall wave: nat, seat: nat :: seat <= 1 ==>
               Mark(t.rounds, wave, seat) ==
               if wave == sh.roundIndex && seat == sh.turn then Some(result) else Mark(sh.rounds, wave, seat))
         && (if t.winnerId != "" then t.question == None && h.phase == PhaseGameOver && Announced(h, t.winnerId)
             else
               && t.question.Some? && h.phase == g.phase && h.winner == g.winner
               && UpNext(t) != UpNext(sh) && t.roundIndex == sh.roundIndex + sh.turn)
  }

  ghost predicate MeansShootoutQuestion(g: GameValue, h: GameValue) {
    if g.shootout.None? || g.shootout.value.winnerId != "" then h == g
    else
      && h == g.(shootout := h.shootout, cards := g.cards.(deck := h.cards.deck))
      && h.shootout.Some? && h.shootout.value.question.Some?
      && h.shootout.value == g.shootout.value.(question := h.shootout.value.question)
  }

  lemma PaddingIsSilent(rounds: seq<Wave>, n: nat, wave: nat, seat: nat)
    ensures Mark(Duel.Pad(rounds, n), wave, seat) == Mark(rounds, wave, seat)
  {
  }

  lemma RecordedMarks(sh: ShootoutValue, result: string, wave: nat, seat: nat)
    requires sh.turn <= 1 && seat <= 1
    ensures Mark(Duel.Recorded(sh, result).rounds, wave, seat) ==
      if wave == sh.roundIndex && seat == sh.turn then Some(result) else Mark(sh.rounds, wave, seat)
  {
    hide Duel.Pad;
    PaddingIsSilent(sh.rounds, sh.roundIndex, wave, seat);
  }

  /** What the end check and the passing of the turn leave of the recorded shootout. */
  lemma AfterMarkTurn(g: GameValue, now: int, rand: seq<nat>)
    requires g.shootout.Some? && g.shootout.value.turn <= 1 && g.shootout.value.winnerId == ""
    requires g.shootout.value.question.None? && g.shootout.value.order0 != "" && g.shootout.value.order1 != ""
    requires Listed(g.players, g.shootout.value.order0) && Listed(g.players, g.shootout.value.order1)
    ensures var sh, h := g.shootout.value, AfterMark(g, now, rand);
      && h.shootout.Some?
      && (if h.shootout.value.winnerId != "" then
            && h.shootout.value.question == None && h.phase == PhaseGameOver && Announced(h, h.shootout.value.winnerId)
          else
            && h.shootout.value.question.Some? && h.phase == g.phase && h.winner == g.winner
            && h.shootout.value.turn == 1 - sh.turn && h.shootout.value.roundIndex == sh.roundIndex + sh.turn)
    ensures var h := AfterMark(g, now, rand);
      h == g.(phase := h.phase, shootout := h.shootout, winner := h.winner,
              cards := g.cards.(deck := h.cards.deck), log := h.log)
  {
    hide PushLog, PulledQuestion, PulledDeck, Duel.CheckEnd, Find;
    FoundIsListed(g.players, g.shootout.value.order0);
    FoundIsListed(g.players, g.shootout.value.order1);
  }

  lemma SeatsAreNamed(sh: ShootoutValue)
    requires Shape(sh)
    ensures sh.order0 != "" && sh.order1 != "" && sh.order0 != sh.order1 && sh.turn <= 1
  {
  }

  lemma FinalistsAreListed(g: GameValue, i: nat, p: PlayerValue)
    requires DuelInv(g) && g.shootout.Some? && i < |g.players| && p.id == g.players[i].id
    ensures Listed(g.players[i := p], g.shootout.value.order0) && Listed(g.players[i := p], g.shootout.value.order1)
  {
    hide Shape, Find;
    var a, b := Find(g.players, g.shootout.value.order0).value, Find(g.players, g.shootout.value.order1).value;
    assert g.players[i := p][a].id == g.players[a].id && g.players[i := p][b].id == g.players[b].id;
  }

  lemma KickAccepted(g: GameValue, i: nat, result: string, now: int, rand: seq<nat>)
    requires Base(g) && DuelInv(g) && ShootoutMarked(g) == Some(i)
    ensures MeansKick(g, AfterMark(Marking(g, i, result, now), now, rand), result)
  {
    hide PushLog, AfterMark, Find, FreshLobby, Targets, Duel.Recorded, Shape;
    var sh, m := g.shootout.value, Marking(g, i, result, now);
    var h := AfterMark(m, now, rand);
    ShapeOfQuestion(sh);
    SeatsAreNamed(sh);
    RecordedFrame(sh, result);
    FindUnique(g.players, i);
    AfterMarkEffect(g, i, result, now, rand);
    FinalistsAreListed(g, i, ScoredPlayer(g.players[i], result));
    AfterMarkTurn(m, now, rand);
    forall wave: nat, seat: nat | seat <= 1
      ensures Mark(h.shootout.value.rounds, wave, seat) ==
        if wave == sh.roundIndex && seat == sh.turn then Some(result) else Mark(sh.rounds, wave, seat)
    {
      RecordedMarks(sh, result, wave, seat);
    }
  }

  lemma KickMeans(g: GameValue, result: string, now: int, rand: seq<nat>)
    requires Base(g) && DuelInv(g)
    ensures MeansKick(g, Apply(g, DoShootoutMark(g, result, now, rand)), result)
  {
    hide PushLog, AfterMark, Find, FreshLobby, Targets, Duel.Recorded, Shape, OneMoreRight, OneMoreWrong, Marking;
    if ShootoutMarked(g).Some? {
      KickAccepted(g, ShootoutMarked(g).value, result, now, rand);
    } else if g.shootout.Some? {
      FoundIsListed(g.players, UpNext(g.shootout.value));
    }
  }

  lemma ShootoutQuestionMeans(g: GameValue, rand: seq<nat>)
    ensures MeansShootoutQuestion(g, Apply(g, DoShootoutNextQuestion(g, rand)))
  {
    hide PulledQuestion, PulledDeck;
  }

  // --- the lobby ---

  /** Play again: everybody is back in the lobby, alive and without counts, under the same id,
      name, token and connection; the bank of questions stays, the rest starts anew. */
  ghost predicate MeansPlayAgain(g: GameValue, h: GameValue) {
    && h.setup == g.setup && h.phase == PhaseLobby && h.table == Table(-1, 0, 1, "", None)
    && h.ballot == Ballot(map[], None, map[], false, None, 0) && h.clock.target == TargetNone
    && !h.clock.timer.running && h.clock.timer.duration == g.setup.roundDuration
    && h.lastElimination.None? && h.shootout.None? && h.winner == "" && h.log == []
    && h.cards == g.cards.(deck := [])
    && |h.players| == |g.players|
    && forall k :: 0 <= k < |g.players| ==>
      h.players[k] == g.players[k].(alive := true, correct := 0, incorrect := 0)
  }

  /** Removing a player: only in the lobby; exactly that row goes, the others keep their order. */
  ghost predicate MeansKickOut(g: GameValue, h: GameValue, id: string) {
    if g.phase != PhaseLobby || !Listed(g.players, id) then h == g
    else
      && h == g.(players := h.players, log := h.log) && !Listed(h.players, id)
      && exists i: nat :: i < |g.players| && g.players[i].id == id && h.players == g.players[..i] + g.players[i + 1..]
  }

  /** A new row's name: what was asked for, or that with the first free number from 2 on. */
  ghost predicate NamedAfter(g: GameValue, wanted: string, name: string) {
    && (forall k :: 0 <= k < |g.players| ==> !EqualFold(g.setup.fold, g.players[k].name, name))
    && if forall k :: 0 <= k < |g.players| ==> !EqualFold(g.setup.fold, g.players[k].name, wanted) then name == wanted
       else exists n: nat ::
         && 2 <= n <= |g.players| + 1 && name == wanted + " " + Decimal(n)
         && forall m: nat :: 2 <= m < n ==> Taken(g.setup.fold, wanted + " " + Decimal(m), NamesOf(g.players))
  }

  /** Adding a player by hand: only in the lobby and under a clean name; the row is last,
      offline and without a token. */
  ghost predicate MeansAdd(g: GameValue, h: GameValue, name: string, newId: string) {
    var wanted := CleanName(if name == "" then "Player" else name);
    if g.phase != PhaseLobby || wanted == "" then h == g
    else
      && h == g.(players := h.players, log := h.log) && |h.players| == |g.players| + 1
      && h.players[..|g.players|] == g.players
      && var p := h.players[|g.players|];
         p == PlayerValue(newId, p.name, true, 0, 0, false, "") && NamedAfter(g, wanted, p.name)
  }

  /** A new bank of questions: refused if empty; else in use from the next draw on. */
  ghost predicate MeansUpload(g: GameValue, h: GameValue, questions: seq<Question>) {
    if questions == [] then h == g
    else h == g.(cards := Cards(questions, true, []), log := h.log)
  }

  ghost predicate MeansReset(g: GameValue, h: GameValue) {
    h == g.(cards := Cards(g.setup.communityBank, false, []), log := h.log)
  }

  lemma PlayAgainMeans(g: GameValue)
    ensures MeansPlayAgain(g, DoPlayAgain(g))
  {
  }

  lemma KickOutMeans(g: GameValue, id: string, now: int)
    requires Base(g)
    ensures MeansKickOut(g, Apply(g, DoKickPlayer(g, id, now)), id)
  {
    hide PushLog, Find, FreshLobby, Targets;
    FoundIsListed(g.players, id);
  }

  lemma DedupedIsNamedAfter(g: GameValue, wanted: string)
    ensures NamedAfter(g, wanted, DedupeName(g.setup.fold, wanted, NamesOf(g.players)))
  {
    hide EqualFold, Decimal;
    var names := NamesOf(g.players);
    DedupedNameIsFree(g.setup.fold, wanted, g.players);
    if forall k :: 0 <= k < |g.players| ==> !EqualFold(g.setup.fold, g.players[k].name, wanted) {
      assert !Taken(g.setup.fold, Candidate(wanted, 0), names);
    } else {
      var k :| 0 <= k < |g.players| && EqualFold(g.setup.fold, g.players[k].name, wanted);
      assert EqualFold(g.setup.fold, names[k], wanted);
      var j := FirstFree(g.setup.fold, wanted, names, 0);
      assert j != 0 && Candidate(wanted, j) == wanted + " " + Decimal(j + 1);
      forall m: nat | 2 <= m < j + 1 ensures Taken(g.setup.fold, wanted + " " + Decimal(m), names) {
        assert Taken(g.setup.fold, Candidate(wanted, m - 1), names);
      }
    }
  }

  lemma AddMeans(g: GameValue, name: string, newId: string, now: int)
    ensures MeansAdd(g, Apply(g, DoAddPlayer(g, name, newId, now)), name, newId)
  {
    hide PushLog, CleanName, DedupeName, NamesOf, NamedAfter;
    DedupedIsNamedAfter(g, CleanName(if name == "" then "Player" else name));
  }

  lemma UploadMeans(g: GameValue, questions: seq<Question>, now: int)
    ensures MeansUpload(g, Apply(g, DoSetQuestionBank(g, questions, now)), questions)
    ensures MeansReset(g, DoResetQuestionBank(g, now))
  {
    hide PushLog;
  }

  // --- players ---

  /** A vote: only in the vote and only of the living; it replaces an earlier one. */
  ghost predicate MeansVote(g: GameValue, h: GameValue, voter: string, target: string) {
    if g.phase != PhaseVoting || !AliveListed(g.players, voter) then h == g
    else h == g.(ballot := g.ballot.(votes := g.ballot.votes[voter := target]))
  }

  /** A player may bank only while asked. */
  ghost predicate MeansCallBank(g: GameValue, h: GameValue, id: string) {
    if g.table.askedId != id || !Listed(g.players, id) then h == g else MeansBank(g, h)
  }

  /** Renaming: only in the lobby, only oneself, only to a clean name nobody else has. */
  ghost predicate MeansRename(g: GameValue, h: GameValue, id: string, newName: string) {
    var name := CleanName(newName);
    if g.phase != PhaseLobby || name == "" || !Listed(g.players, id)
       || (exists k :: 0 <= k < |g.players| && g.players[k].id != id
                       && EqualFold(g.setup.fold, g.players[k].name, name))
    then h == g
    else
      && h == g.(players := h.players, log := h.log) && |h.players| == |g.players|
      && forall k :: 0 <= k < |g.players| ==>
        h.players[k] == if g.players[k].id == id then g.players[k].(name := name) else g.players[k]
  }

  /** The row is back with this token. */
  ghost predicate ComesBack(g: GameValue, h: GameValue, i: nat, token: string) {
    && i < |g.players| && h == g.(players := h.players, log := h.log)
    && h.players == g.players[i := g.players[i].(connected := true, token := token)]
  }

  /** This row is offline under this name, and no earlier one is. */
  ghost predicate FirstNamesake(g: GameValue, i: nat, name: string) {
    && i < |g.players| && !g.players[i].connected && EqualFold(g.setup.fold, g.players[i].name, name)
    && forall k :: 0 <= k < i ==> g.players[k].connected || !EqualFold(g.setup.fold, g.players[k].name, name)
  }

  /** The row with this id and token. */
  ghost predicate OwnRow(g: GameValue, i: nat, id: string, token: string) {
    id != "" && i < |g.players| && g.players[i].id == id && g.players[i].token == token
  }

  /** Joining: the row of the id and token presented; else the first offline row of that name;
      else, in the lobby, a new row; else nothing.  Whoever comes in holds the new token. */
  ghost predicate MeansJoin(g: GameValue, h: GameValue, name: string, rejoinId: string, rejoinToken: string,
                            newId: string, newToken: string) {
    var wanted := JoinName(name);
    if exists i: nat :: OwnRow(g, i, rejoinId, rejoinToken) then
      exists i: nat :: OwnRow(g, i, rejoinId, rejoinToken) && ComesBack(g, h, i, newToken)
    else if exists i: nat :: FirstNamesake(g, i, wanted) then
      exists i: nat :: FirstNamesake(g, i, wanted) && ComesBack(g, h, i, newToken)
    else if g.phase != PhaseLobby then h == g
    else
      && h == g.(players := h.players, log := h.log) && |h.players| == |g.players| + 1
      && h.players[..|g.players|] == g.players
      && var p := h.players[|g.players|];
         p == PlayerValue(newId, p.name, true, 0, 0, true, newToken) && NamedAfter(g, wanted, p.name)
  }

  /** Attaching: only with the token of one's own row, which must not be empty; the row counts
      as connected from then on. */
  ghost predicate MeansAttach(g: GameValue, h: GameValue, id: string, token: string) {
    if token == "" || !(exists i: nat :: OwnRow(g, i, id, token)) then h == g
    else
      && h == g.(players := h.players, log := h.log) && |h.players| == |g.players|
      && forall k :: 0 <= k < |g.players| ==>
        h.players[k] == if g.players[k].id == id then g.players[k].(connected := true) else g.players[k]
  }

  /** The player's connection is gone. */
  ghost predicate MeansDetach(g: GameValue, h: GameValue, id: string) {
    && h == g.(players := h.players, log := h.log) && |h.players| == |g.players|
    && forall k :: 0 <= k < |g.players| ==>
      h.players[k] == if g.players[k].id == id then g.players[k].(connected := false) else g.players[k]
  }

  lemma VoteMeans(g: GameValue, voter: string, target: string)
    requires Base(g)
    ensures MeansVote(g, Apply(g, SubmitVote(g, voter, target)), voter, target)
  {
    hide FreshLobby, Targets;
    if AliveListed(g.players, voter) {
      var i :| 0 <= i < |g.players| && g.players[i].id == voter && g.players[i].alive;
      FindUnique(g.players, i);
    }
  }

  lemma CallBankMeans(g: GameValue, id: string, now: int)
    requires Safe(g)
    ensures MeansCallBank(g, Apply(g, Game.CallBank(g, id, now)), id)
  {
    hide PushLog, Find, DoBankChain;
    FoundIsListed(g.players, id);
    if Find(g.players, id).Some? {
      BankMeans(g, g.players[Find(g.players, id).value].name, now);
    }
  }

  lemma RenameMeans(g: GameValue, id: string, newName: string, now: int)
    requires Base(g)
    ensures MeansRename(g, Apply(g, Game.Rename(g, id, newName, now)), id, newName)
  {
    hide PushLog, Find, CleanName, EqualFold, FreshLobby, Targets;
    FoundIsListed(g.players, id);
    if Find(g.players, id).Some? {
      FindUnique(g.players, Find(g.players, id).value);
    }
  }

  lemma ClaimedMeans(g: GameValue, name: string, id: string, token: string)
    requires Base(g)
    ensures (exists i: nat :: OwnRow(g, i, id, token)) ==>
      Claimed(g, name, id, token).Some? && OwnRow(g, Claimed(g, name, id, token).value, id, token)
    ensures !(exists i: nat :: OwnRow(g, i, id, token)) && (exists i: nat :: FirstNamesake(g, i, name)) ==>
      Claimed(g, name, id, token).Some? && FirstNamesake(g, Claimed(g, name, id, token).value, name)
    ensures !(exists i: nat :: OwnRow(g, i, id, token)) && !(exists i: nat :: FirstNamesake(g, i, name)) ==>
      Claimed(g, name, id, token).None?
  {
    hide EqualFold, FreshLobby, Targets, Find;
    if i: nat :| OwnRow(g, i, id, token) {
      FindUnique(g.players, i);
    }
    var f := Find(g.players, id);
    if id != "" && f.Some? && g.players[f.value].token == token {
      assert OwnRow(g, f.value, id, token);
    }
    var n := OfflineNamesake(g, name, 0);
    if n.Some? {
      assert FirstNamesake(g, n.value, name);
    }
  }

  /** The row that a join claims comes back. */
  lemma ClaimComesBack(g: GameValue, name: string, rejoinId: string, rejoinToken: string,
                       newId: string, newToken: string, now: int)
    requires Claimed(g, JoinName(name), rejoinId, rejoinToken).Some?
    ensures ComesBack(g, Apply(g, Game.Join(g, name, rejoinId, rejoinToken, newId, newToken, now)),
                      Claimed(g, JoinName(name), rejoinId, rejoinToken).value, newToken)
  {
    hide PushLog, JoinName, Claimed;
  }

  /** A join that claims none adds a row in the lobby. */
  lemma NewcomerIsAdded(g: GameValue, name: string, rejoinId: string, rejoinToken: string,
                        newId: string, newToken: string, now: int)
    requires Claimed(g, JoinName(name), rejoinId, rejoinToken).None?
    ensures var h := Apply(g, Game.Join(g, name, rejoinId, rejoinToken, newId, newToken, now));
      if g.phase != PhaseLobby then h == g
      else
        && h == g.(players := h.players, log := h.log) && |h.players| == |g.players| + 1
        && h.players[..|g.players|] == g.players
        && var p := h.players[|g.players|];
           p == PlayerValue(newId, p.name, true, 0, 0, true, newToken) && NamedAfter(g, JoinName(name), p.name)
  {
    hide PushLog, JoinName, DedupeName, NamesOf, NamedAfter, Claimed;
    DedupedIsNamedAfter(g, JoinName(name));
  }

  lemma JoinMeans(g: GameValue, name: string, rejoinId: string, rejoinToken: string,
                  newId: string, newToken: string, now: int)
    requires Base(g)
    ensures MeansJoin(g, Apply(g, Game.Join(g, name, rejoinId, rejoinToken, newId, newToken, now)),
                      name, rejoinId, rejoinToken, newId, newToken)
  {
    hide Game.Join, JoinName, NamedAfter, Claimed, OwnRow, FirstNamesake, Base, ComesBack;
    ClaimedMeans(g, JoinName(name), rejoinId, rejoinToken);
    if Claimed(g, JoinName(name), rejoinId, rejoinToken).Some? {
      ClaimComesBack(g, name, rejoinId, rejoinToken, newId, newToken, now);
    } else {
      NewcomerIsAdded(g, name, rejoinId, rejoinToken, newId, newToken, now);
    }
  }

  lemma AttachMeans(g: GameValue, id: string, token: string, now: int)
    requires Base(g)
    ensures MeansAttach(g, Apply(g, AttachPlayer(g, id, token, now)), id, token)
    ensures AttachPlayer(g, id, token, now).Some? <==> token != "" && exists i: nat :: OwnRow(g, i, id, token)
  {
    hide PushLog, Find, FreshLobby, Targets;
    if Find(g.players, id).Some? {
      var i := Find(g.players, id).value;
      FindUnique(g.players, i);
      assert g.players[i].token == token ==> OwnRow(g, i, id, token);
    }
    if i: nat :| OwnRow(g, i, id, token) {
      FindUnique(g.players, i);
    }
  }

  lemma DetachMeans(g: GameValue, id: string, now: int)
    requires Base(g)
    ensures MeansDetach(g, Apply(g, DetachPlayer(g, id, now)), id)
  {
    hide PushLog, Find, FreshLobby, Targets;
    if Find(g.players, id).Some? {
      FindUnique(g.players, Find(g.players, id).value);
    }
  }

  // --- time ---

  /** A tick: a countdown that is over leads into the shootout, or into a round with a full
      timer; a round whose time is up ends; nothing else happens. */
  ghost predicate MeansTick(g: GameValue, h: GameValue, now: int) {
    if g.phase == PhaseCountdown && now >= g.clock.countdownEndsAt then
      && h.clock.target == TargetNone && h.clock.countdownEndsAt == g.clock.countdownEndsAt
      && h.players == g.players && h.ballot == g.ballot && h.winner == g.winner && h.setup == g.setup
      && h.lastElimination == g.lastElimination && h.cards == g.cards.(deck := h.cards.deck)
      && if g.clock.target == TargetShootout then
           && h.phase == PhaseShootout && h.table == g.table && h.clock.timer == g.clock.timer
           && g.shootout.Some? && h.shootout.Some? && h.shootout.value.question.Some?
           && h.shootout.value == g.shootout.value.(question := h.shootout.value.question)
         else
           && h.phase == PhasePlaying && h.shootout == g.shootout
           && h.table == g.table.(question := h.table.question) && h.table.question.Some?
           && h.clock.timer == Timer(g.setup.roundDuration, now + 1000 * g.setup.roundDuration, true)
    else if g.phase == PhasePlaying && g.clock.timer.running && now >= g.clock.timer.endsAt then MeansEndRound(g, h)
    else h == g
  }

  lemma CountdownMeans(g: GameValue, now: int, rand: seq<nat>)
    requires Safe(g) && g.phase == PhaseCountdown && now >= g.clock.countdownEndsAt
    ensures MeansTick(g, Game.FinishCountdown(g, now, rand), now)
  {
    hide PushLog, PulledQuestion, PulledDeck;
  }

  // --- a new room ---

  /** A room opens as an empty lobby over the bank it is given. */
  lemma NewStateIsEmptyLobby(setup: Setup, bank: seq<Question>, usingCustom: bool)
    ensures var g := NewState(setup, bank, usingCustom);
      && g.setup == setup && g.phase == PhaseLobby && g.players == [] && g.log == [] && g.winner == ""
      && g.table == Table(-1, 0, 1, "", None) && g.shootout.None? && g.lastElimination.None?
      && g.ballot == Ballot(map[], None, map[], false, None, 0)
      && g.clock.target == TargetNone && !g.clock.timer.running && g.clock.timer.duration == setup.roundDuration
      && g.cards.questionBank == bank && g.cards.usingCustom == usingCustom && g.cards.deck == []
  {
  }
}
