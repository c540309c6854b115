/** What a resolved vote leaves behind: who dies, who is tied, and the tally shown. */
module Eliminations {
  import opened Types
  import opened Roster
  import opened Voting
  import opened Game
  import opened Basis
  import BallotRuns
  import Text

  // --- sorting the tally ---

  ghost predicate Descending(rows: seq<TallyRow>) {
    forall i, j :: 0 <= i < j < |rows| ==> rows[i].votes >= rows[j].votes
  }

  /** The rows with this many votes, in order. */
  function WithCount(rows: seq<TallyRow>, votes: nat): seq<TallyRow> {
    if rows == [] then []
    else
      var n := |rows| - 1;
      WithCount(rows[..n], votes) + (if rows[n].votes == votes then [rows[n]] else [])
  }

  lemma {:induction false} InsertKeepsRows(rows: seq<TallyRow>, x: TallyRow)
    ensures multiset(Insert(rows, x)) == multiset(rows + [x])
  {
    if rows != [] && x.votes > rows[|rows| - 1].votes {
      var n := |rows| - 1;
      InsertKeepsRows(rows[..n], x);
      assert rows == rows[..n] + [rows[n]];
    }
  }

  lemma {:induction false} InsertKeepsOrder(rows: seq<TallyRow>, x: TallyRow)
    requires Descending(rows)
    ensures Descending(Insert(rows, x))
  {
    if rows != [] && x.votes > rows[|rows| - 1].votes {
      var n := |rows| - 1;
      var before := Insert(rows[..n], x);
      InsertKeepsOrder(rows[..n], x);
      InsertKeepsRows(rows[..n], x);
      forall k | 0 <= k < |before| ensures before[k].votes >= rows[n].votes {
        assert before[k] in multiset(before);
        assert before[k] in rows[..n] + [x];
      }
    }
  }

  /** x does not overtake a row with as many votes. */
  lemma {:induction false} InsertIsStable(rows: seq<TallyRow>, x: TallyRow, v: nat)
    ensures WithCount(Insert(rows, x), v) == WithCount(rows + [x], v)
  {
    if rows != [] && x.votes > rows[|rows| - 1].votes {
      var n := |rows| - 1;
      InsertIsStable(rows[..n], x, v);
      var before := Insert(rows[..n], x);
      var r := Insert(rows, x);
      assert r[..|r| - 1] == before;
      assert (rows + [x])[..n + 1] == rows && (rows[..n] + [x])[..n] == rows[..n];
    }
  }

  lemma NothingIsSorted()
    ensures Descending([])
  {
  }

  /** The shown tally is sorted, most votes first, and stable: rows with equal votes keep
      their roster order. */
  lemma {:induction false} SortDescIsStable(rows: seq<TallyRow>)
    ensures Descending(SortDesc(rows)) && multiset(SortDesc(rows)) == multiset(rows)
    ensures forall v :: WithCount(SortDesc(rows), v) == WithCount(rows, v)
  {
    hide Insert, Descending;
    if rows == [] {
      NothingIsSorted();
    }
    if rows != [] {
      var n := |rows| - 1;
      var sorted := SortDesc(rows[..n]);
      SortDescIsStable(rows[..n]);
      InsertKeepsOrder(sorted, rows[n]);
      InsertKeepsRows(sorted, rows[n]);
      assert rows == rows[..n] + [rows[n]];
      forall v ensures WithCount(SortDesc(rows), v) == WithCount(rows, v) {
        InsertIsStable(sorted, rows[n], v);
        assert (sorted + [rows[n]])[..n] == sorted;
      }
    }
  }

  // --- the rows of a resolved vote ---

  /** The living roster's names and votes. */
  function LivingRows(ps: seq<PlayerValue>, votes: map<string, string>): seq<TallyRow> {
    if ps == [] then []
    else
      var n := |ps| - 1;
      LivingRows(ps[..n], votes) + (if ps[n].alive then [TallyRow(ps[n].name, VotesFor(votes, ps[n].id))] else [])
  }

  function SumVotes(rows: seq<TallyRow>): nat {
    if rows == [] then 0 else SumVotes(rows[..|rows| - 1]) + rows[|rows| - 1].votes
  }

  lemma {:induction false} InsertSum(rows: seq<TallyRow>, x: TallyRow)
    ensures SumVotes(Insert(rows, x)) == SumVotes(rows) + x.votes
  {
    if rows == [] || x.votes <= rows[|rows| - 1].votes {
      assert (rows + [x])[..|rows|] == rows;
    } else {
      var n := |rows| - 1;
      InsertSum(rows[..n], x);
      var r := Insert(rows, x);
      assert r[..|r| - 1] == Insert(rows[..n], x);
    }
  }

  lemma {:induction false} SortDescSum(rows: seq<TallyRow>)
    ensures SumVotes(SortDesc(rows)) == SumVotes(rows)
  {
    if rows != [] {
      hide Insert;
      var n := |rows| - 1;
      SortDescSum(rows[..n]);
      InsertSum(SortDesc(rows[..n]), rows[n]);
    }
  }

  ghost function VotersFor(votes: map<string, string>, ids: set<string>): set<string> {
    set v | v in votes && votes[v] in ids
  }

  /** The tally knows exactly the living: the rows are the living roster's, also after
      one of them has been marked dead. */
  lemma {:induction false} TallyRowsAreLiving(ps: seq<PlayerValue>, qs: seq<PlayerValue>, tally: map<string, nat>,
                                             votes: map<string, string>)
    requires |ps| == |qs| && forall i :: 0 <= i < |ps| ==> qs[i].id == ps[i].id && qs[i].name == ps[i].name
    requires forall i :: 0 <= i < |ps| ==> (ps[i].id in tally <==> ps[i].alive)
    requires forall i :: 0 <= i < |ps| && ps[i].alive ==> tally[ps[i].id] == VotesFor(votes, ps[i].id)
    ensures TallyRows(qs, tally) == LivingRows(ps, votes)
  {
    if ps != [] {
      TallyRowsAreLiving(ps[..|ps| - 1], qs[..|ps| - 1], tally, votes);
    }
  }

  lemma TallyKnowsTheLiving(ps: seq<PlayerValue>, votes: map<string, string>)
    requires DistinctIds(ps)
    ensures forall i :: 0 <= i < |ps| ==> (ps[i].id in Tally(ps, votes) <==> ps[i].alive)
    ensures forall i :: 0 <= i < |ps| && ps[i].alive ==> Tally(ps, votes)[ps[i].id] == VotesFor(votes, ps[i].id)
  {
  }

  lemma VotersSplit(votes: map<string, string>, ids: set<string>, id: string)
    requires id !in ids
    ensures |VotersFor(votes, ids + {id})| == |VotersFor(votes, ids)| + VotesFor(votes, id)
  {
    var mine := set v | v in votes && votes[v] == id;
    assert VotersFor(votes, ids + {id}) == VotersFor(votes, ids) + mine;
    assert VotersFor(votes, ids) !! mine;
  }

  lemma NobodyVotesForNobody(votes: map<string, string>)
    ensures VotersFor(votes, {}) == {}
  {
  }

  lemma AliveIdsGrow(ps: seq<PlayerValue>)
    requires ps != []
    ensures AliveIds(ps) == AliveIds(ps[..|ps| - 1]) + (if ps[|ps| - 1].alive then {ps[|ps| - 1].id} else {})
  {
    var n := |ps| - 1;
    forall id | id in AliveIds(ps) ensures id in AliveIds(ps[..n]) || (ps[n].alive && id == ps[n].id) {
      var i :| 0 <= i < |ps| && ps[i].alive && ps[i].id == id;
      if i < n {
        assert ps[..n][i] == ps[i];
      }
    }
  }

  lemma {:induction false} LivingRowsSum(ps: seq<PlayerValue>, votes: map<string, string>)
    requires DistinctIds(ps)
    ensures SumVotes(LivingRows(ps, votes)) == |VotersFor(votes, AliveIds(ps))|
  {
    hide VotersFor, VotesFor;
    if ps == [] {
      NobodyVotesForNobody(votes);
      assert AliveIds(ps) == {};
    } else {
      var n := |ps| - 1;
      var rest := LivingRows(ps[..n], votes);
      LivingRowsSum(ps[..n], votes);
      AliveIdsGrow(ps);
      if ps[n].alive {
        assert LivingRows(ps, votes)[..|rest|] == rest;
        VotersSplit(votes, AliveIds(ps[..n]), ps[n].id);
      } else {
        assert LivingRows(ps, votes) == rest && AliveIds(ps) == AliveIds(ps[..n]);
      }
    }
  }

  lemma {:induction false} AliveIdsCount(ps: seq<PlayerValue>)
    ensures |AliveIds(ps)| <= |AliveIdx(ps)|
  {
    if ps == [] {
      assert AliveIds(ps) == {};
    } else {
      AliveIdsCount(ps[..|ps| - 1]);
      AliveIdsGrow(ps);
    }
  }

  /** The shown tally counts every vote for a living player, whoever cast it. */
  lemma ShownSum(ps: seq<PlayerValue>, votes: map<string, string>)
    requires DistinctIds(ps)
    ensures SumVotes(SortDesc(LivingRows(ps, votes))) == |VotersFor(votes, AliveIds(ps))|
  {
    hide SortDesc, LivingRows;
    LivingRowsSum(ps, votes);
    SortDescSum(LivingRows(ps, votes));
  }

  /** If only living players have voted, there is at most one vote for each living player. */
  lemma OneVoteEach(ps: seq<PlayerValue>, votes: map<string, string>)
    requires forall v :: v in votes ==> AliveListed(ps, v)
    ensures |VotersFor(votes, AliveIds(ps))| <= |AliveIdx(ps)|
  {
    var voters := VotersFor(votes, AliveIds(ps));
    forall v | v in voters ensures v in AliveIds(ps) {
      assert AliveListed(ps, v);
    }
    Text.SubsetCardinality(voters, AliveIds(ps));
    AliveIdsCount(ps);
  }

  /** A vote resolved in the voting phase: the shown tally counts every vote for a living
      player, and there are at most as many as living players. */
  lemma VotesAreBounded(g: GameValue)
    requires Base(g) && BallotRuns.BallotInv(g) && g.phase == PhaseVoting
    ensures var shown := SortDesc(LivingRows(g.players, g.ballot.votes));
      SumVotes(shown) == |VotersFor(g.ballot.votes, AliveIds(g.players))| <= |AliveIdx(g.players)|
  {
    ShownSum(g.players, g.ballot.votes);
    OneVoteEach(g.players, g.ballot.votes);
  }

  /** `shown` lists the living with their votes, most votes first; rows with equal votes
      keep their roster order. */
  ghost predicate ShowsTheVote(ps: seq<PlayerValue>, votes: map<string, string>, shown: seq<TallyRow>) {
    && Descending(shown) && multiset(shown) == multiset(LivingRows(ps, votes))
    && forall v :: WithCount(shown, v) == WithCount(LivingRows(ps, votes), v)
  }

  /** What resolving does: the one weakest player dies and nobody else; or nobody dies and
      the weakest, in roster order, become the tie candidates. */
  lemma ResolvedVote(g: GameValue, now: int)
    requires Base(g)
    requires Resolve(g.players, g.ballot.votes).Eliminate? || ScoreVisible(g.players, g.ballot.votes)
    ensures var h, ps, votes := ResolveVotes(g, now), g.players, g.ballot.votes;
      match Resolve(ps, votes)
      case Eliminate(i, note) =>
        && (forall k :: k == i <==> Weakest(ps, votes, k))
        && h.phase == PhaseElimination
        && h.players == ps[i := ps[i].(alive := false)]
        && h.lastElimination == Some(Elimination(ps[i].name, SortDesc(LivingRows(ps, votes)), note))
        && ShowsTheVote(ps, votes, h.lastElimination.value.tally)
      case Tie(candidates) =>
        && (forall k :: k in candidates <==> Weakest(ps, votes, k))
        && Increasing(candidates) && |candidates| >= 2
        && h.phase == g.phase && h.players == ps
        && h.ballot.tieCandidates == Some(IdsAt(ps, candidates))
  {
    hide Game.PushLog, Resolve, SortDesc, TallyRows, Tally, Weakest, LivingRows;
    var ps, votes := g.players, g.ballot.votes;
    if Resolve(ps, votes).Eliminate? {
      EliminationsAreRight(ps, votes);
    } else {
      ResolvePicksTheWeakest(ps, votes);
    }
    TallyKnowsTheLiving(ps, votes);
    match Resolve(ps, votes)
    case Eliminate(i, note) =>
      TallyRowsAreLiving(ps, ps[i := ps[i].(alive := false)], Tally(ps, votes), votes);
      SortDescIsStable(LivingRows(ps, votes));
    case Tie(candidates) =>
  }
}
