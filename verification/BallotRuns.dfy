/** Votes, names and cards: what every operation keeps. */
module BallotRuns {
  import opened Types
  import opened Text
  import opened Roster
  import opened Game
  import opened Actor
  import opened Basis
  import Voting

  // --- votes and their reveal ---

  /** In the voting phase only living players have voted; a reveal in progress points at
      a voter, unless nobody is alive to be revealed. */
  ghost predicate BallotInv(g: GameValue) {
    && (g.phase == PhaseVoting ==> forall v :: v in g.ballot.votes ==> AliveListed(g.players, v))
    && (g.ballot.revealing ==>
          && g.ballot.revealOrder.Some?
          && (g.ballot.revealIndex < |g.ballot.revealOrder.value| || g.ballot.revealOrder.value == []))
  }

  lemma BallotKeptPlay(g: GameValue, op: Op)
    requires Base(g) && BallotInv(g) && Legal(g, op) && PlayOp(op)
    ensures BallotInv(Performed(g, op))
  {
    hide PushLog, PulledQuestion, PulledDeck, NextAsked, Find, AliveListed;
    SameLivingIds(g.players, Performed(g, op).players);
  }

  lemma BallotKeptDuel(g: GameValue, op: Op)
    requires Base(g) && BallotInv(g) && Legal(g, op) && DuelOp(op)
    ensures BallotInv(Performed(g, op))
  {
    hide Perform, Performed, AliveListed;
    DuelOpEffect(g, op);
    SamePersonsAgree(g.players, Performed(g, op).players);
    SameLivingIds(g.players, Performed(g, op).players);
  }

  lemma BallotKeptRoster(g: GameValue, op: Op)
    requires Base(g) && BallotInv(g) && Legal(g, op) && RosterOp(op)
    ensures BallotInv(Performed(g, op))
  {
    hide Perform, Performed, AliveListed;
    RosterOpEffect(g, op);
    if g.phase != PhaseLobby {
      RosterOpOutsideLobby(g, op);
      SameLivingIds(g.players, Performed(g, op).players);
    }
  }

  lemma BallotKeptMeta(g: GameValue, op: Op)
    requires Base(g) && BallotInv(g) && Legal(g, op) && MetaOp(op)
    ensures BallotInv(Performed(g, op))
  {
    hide PushLog, Find, AliveListed;
    if !op.PlayAgain? {
      SameLivingIds(g.players, Performed(g, op).players);
    }
  }

  lemma RevealKeptByResolving(g: GameValue, now: int)
    requires !g.ballot.revealing
    requires g.phase == PhaseVoting ==> forall v :: v in g.ballot.votes ==> AliveListed(g.players, v)
    ensures BallotInv(ResolveVotes(g, now))
  {
    hide PushLog, Voting.SortDesc, Voting.TallyRows, Voting.Tally, Voting.Resolve, Voting.IdsAt;
  }

  lemma BallotKeptBallot(g: GameValue, op: Op)
    requires Base(g) && BallotInv(g) && Legal(g, op) && BallotOp(op)
    ensures BallotInv(Performed(g, op))
  {
    hide PushLog, Voting.SortDesc, Voting.TallyRows, Voting.Tally, Voting.IdsAt, AliveIdx, Find, ResolveVotes;
    if op.AdvanceReveal? {
      RevealKeptByResolving(
        g.(ballot := g.ballot.(revealIndex := g.ballot.revealIndex + 1, revealing := false)), op.now);
    }
  }

  lemma BallotKept(g: GameValue, op: Op)
    requires Base(g) && BallotInv(g) && Legal(g, op)
    ensures BallotInv(Performed(g, op))
  {
    if PlayOp(op) {
      BallotKeptPlay(g, op);
    } else if BallotOp(op) {
      BallotKeptBallot(g, op);
    } else if DuelOp(op) {
      BallotKeptDuel(g, op);
    } else if RosterOp(op) {
      BallotKeptRoster(g, op);
    } else {
      BallotKeptMeta(g, op);
    }
  }

  // --- where a reveal comes from ---

  /** A reveal in progress in h was in progress in g, over the same voters. */
  ghost predicate SameReveal(g: GameValue, h: GameValue) {
    h.ballot.revealing ==> g.ballot.revealing && h.ballot.revealOrder == g.ballot.revealOrder
  }

  ghost predicate NoNewCandidates(g: GameValue, h: GameValue) {
    h.ballot.tieCandidates.None? || h.ballot.tieCandidates == g.ballot.tieCandidates
  }

  lemma PlayStartsNoReveal(g: GameValue, op: Op)
    requires Safe(g) && (PlayOp(op) || DuelOp(op))
    ensures SameReveal(g, Performed(g, op))
    ensures NoNewCandidates(g, Performed(g, op))
  {
    if DuelOp(op) {
      DuelOpEffect(g, op);
    } else {
      hide PushLog, PulledQuestion, PulledDeck, NextAsked, Find;
    }
  }

  lemma RosterStartsNoReveal(g: GameValue, op: Op)
    requires Safe(g) && (RosterOp(op) || MetaOp(op))
    ensures SameReveal(g, Performed(g, op))
    ensures NoNewCandidates(g, Performed(g, op))
  {
    hide PushLog, Find, CleanName, JoinName, DedupeName, NamesOf, Claimed, NameInUse;
  }

  lemma BallotStartsNoReveal(g: GameValue, op: Op)
    requires Safe(g) && BallotOp(op) && !op.StartVoteReveal?
    ensures SameReveal(g, Performed(g, op))
    ensures op.AdvanceReveal? || NoNewCandidates(g, Performed(g, op))
  {
    hide PushLog, Voting.SortDesc, Voting.TallyRows, Voting.Tally, Voting.Resolve, Voting.IdsAt, AliveIdx, Find;
  }

  lemma RefusedStart(g: GameValue, op: Op)
    requires Safe(g) && op.StartVoteReveal?
    ensures Perform(g, op).None? ==> SameReveal(g, Performed(g, op))
    ensures NoNewCandidates(g, Performed(g, op))
  {
  }

  /** Only an accepted start starts a reveal, over the players then alive. */
  lemma RevealStarts(g: GameValue, op: Op)
    requires Safe(g)
    ensures if op.StartVoteReveal? && Perform(g, op).Some? then
        var b := Performed(g, op).ballot;
        b.revealing && b.revealOrder == Some(Voting.IdsAt(g.players, AliveIdx(g.players))) && b.revealIndex == 0
      else SameReveal(g, Performed(g, op))
  {
    hide SameReveal, NoNewCandidates;
    if PlayOp(op) || DuelOp(op) {
      PlayStartsNoReveal(g, op);
    } else if RosterOp(op) || MetaOp(op) {
      RosterStartsNoReveal(g, op);
    } else if !op.StartVoteReveal? {
      BallotStartsNoReveal(g, op);
    } else {
      RefusedStart(g, op);
    }
  }

  /** Only a reveal step makes tie candidates. */
  lemma CandidatesStart(g: GameValue, op: Op)
    requires Safe(g)
    ensures op.AdvanceReveal? || NoNewCandidates(g, Performed(g, op))
  {
    hide NoNewCandidates;
    if PlayOp(op) || DuelOp(op) {
      PlayStartsNoReveal(g, op);
    } else if RosterOp(op) || MetaOp(op) {
      RosterStartsNoReveal(g, op);
    } else if !op.StartVoteReveal? {
      BallotStartsNoReveal(g, op);
    } else {
      RefusedStart(g, op);
    }
  }

  // --- names ---

  /** No two players share a name, however it is cased. */
  ghost predicate NamesInv(g: GameValue) {
    forall i, j :: 0 <= i < j < |g.players| ==> !EqualFold(g.setup.fold, g.players[i].name, g.players[j].name)
  }

  ghost predicate SameNames(g: GameValue, h: GameValue) {
    && g.setup == h.setup && |g.players| == |h.players|
    && forall i :: 0 <= i < |g.players| ==> g.players[i].name == h.players[i].name
  }

  lemma NamesUnchangedPlay(g: GameValue, op: Op)
    requires Safe(g) && PlayOp(op)
    ensures SameNames(g, Performed(g, op))
  {
    hide PushLog, PulledQuestion, PulledDeck, NextAsked, Find;
  }

  lemma NamesUnchangedDuel(g: GameValue, op: Op)
    requires Safe(g) && DuelOp(op)
    ensures SameNames(g, Performed(g, op))
  {
    hide Perform, Performed;
    DuelOpEffect(g, op);
    SamePersonsAgree(g.players, Performed(g, op).players);
  }

  lemma NamesUnchangedBallot(g: GameValue, op: Op)
    requires Safe(g) && (BallotOp(op) || MetaOp(op))
    ensures SameNames(g, Performed(g, op))
  {
    hide PushLog, Voting.SortDesc, Voting.TallyRows, Voting.Tally, Voting.Resolve, Voting.IdsAt, AliveIdx, Find;
  }

  lemma DedupedNameIsFree(fold: Fold, name: string, ps: seq<PlayerValue>)
    ensures forall i :: 0 <= i < |ps| ==> !EqualFold(fold, ps[i].name, DedupeName(fold, name, NamesOf(ps)))
  {
    hide FirstFree;
    var r := DedupeName(fold, name, NamesOf(ps));
    assert !Taken(fold, r, NamesOf(ps));
    forall i | 0 <= i < |ps| ensures !EqualFold(fold, ps[i].name, r) {
      assert NamesOf(ps)[i] == ps[i].name;
    }
  }

  lemma KickKeepsNames(g: GameValue, id: string, now: int)
    requires NamesInv(g)
    ensures NamesInv(Apply(g, DoKickPlayer(g, id, now)))
  {
    hide PushLog, EqualFold;
  }

  lemma AddKeepsNames(g: GameValue, name: string, newId: string, now: int)
    requires NamesInv(g)
    ensures NamesInv(Apply(g, DoAddPlayer(g, name, newId, now)))
  {
    hide PushLog, CleanName, DedupeName, NamesOf, EqualFold;
    DedupedNameIsFree(g.setup.fold, CleanName(if name == "" then "Player" else name), g.players);
  }

  lemma JoinKeepsNames(
      g: GameValue, name: string, rejoinId: string, rejoinToken: string, newId: string, newToken: string, now: int)
    requires NamesInv(g)
    ensures NamesInv(Apply(g, Game.Join(g, name, rejoinId, rejoinToken, newId, newToken, now)))
  {
    hide PushLog, JoinName, DedupeName, NamesOf, EqualFold, Claimed;
    DedupedNameIsFree(g.setup.fold, JoinName(name), g.players);
  }

  lemma RenameKeepsNames(g: GameValue, id: string, newName: string, now: int)
    requires Base(g) && NamesInv(g)
    ensures NamesInv(Apply(g, Game.Rename(g, id, newName, now)))
  {
    hide PushLog, CleanName;
    var n := CleanName(newName);
    match Game.Rename(g, id, newName, now)
    case None =>
    case Some(h) =>
      var i := Find(g.players, id).value;
      forall k | 0 <= k < |g.players| && k != i
        ensures !EqualFold(g.setup.fold, g.players[k].name, n) && !EqualFold(g.setup.fold, n, g.players[k].name)
      {
        assert g.players[k].id != id;
      }
  }

  lemma NamesKeptRoster(g: GameValue, op: Op)
    requires Base(g) && NamesInv(g) && RosterOp(op)
    ensures NamesInv(Performed(g, op))
  {
    BaseIsSafe(g);
    hide Base, NamesInv, DoKickPlayer, DoAddPlayer, Game.Join, Game.Rename;
    match op
    case KickPlayer(id, now) => KickKeepsNames(g, id, now);
    case AddPlayer(name, newId, now) => AddKeepsNames(g, name, newId, now);
    case JoinGame(name, rejoinId, rejoinToken, newId, newToken, now) =>
      JoinKeepsNames(g, name, rejoinId, rejoinToken, newId, newToken, now);
    case Rename(id, newName, now) => RenameKeepsNames(g, id, newName, now);
  }

  lemma NamesKept(g: GameValue, op: Op)
    requires Base(g) && NamesInv(g)
    ensures NamesInv(Performed(g, op))
  {
    if RosterOp(op) {
      NamesKeptRoster(g, op);
    } else {
      if PlayOp(op) {
        NamesUnchangedPlay(g, op);
      } else if DuelOp(op) {
        NamesUnchangedDuel(g, op);
      } else {
        NamesUnchangedBallot(g, op);
      }
    }
  }
}
