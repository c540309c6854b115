/** Counting the votes and deciding who goes: the tally, the two tie-break levels
    and the order in which the tally is shown. */
module Voting {
  import opened Types
  import opened Roster
  import Text

  /** How many voters named this id. */
  function VotesFor(votes: map<string, string>, id: string): nat {
    |set v | v in votes && votes[v] == id|
  }

  /** Every living player's votes; votes for anybody else are ignored. */
  function Tally(ps: seq<PlayerValue>, votes: map<string, string>): map<string, nat> {
    map id | id in AliveIds(ps) :: VotesFor(votes, id)
  }

  /** A map read in Go: a missing key reads as zero. */
  function CountOf(tally: map<string, nat>, id: string): nat {
    if id in tally then tally[id] else 0
  }

  predicate InRoster(ps: seq<PlayerValue>, ixs: seq<nat>) {
    forall k :: 0 <= k < |ixs| ==> ixs[k] < |ps|
  }

  function MaxVotes(ps: seq<PlayerValue>, ixs: seq<nat>, tally: map<string, nat>): int
    requires InRoster(ps, ixs)
  {
    if ixs == [] then -1
    else
      var n := |ixs| - 1;
      var m := MaxVotes(ps, ixs[..n], tally);
      var c := CountOf(tally, ps[ixs[n]].id);
      if c > m then c else m
  }

  function WithVotes(ps: seq<PlayerValue>, ixs: seq<nat>, tally: map<string, nat>, votes: int): (r: seq<nat>)
    requires InRoster(ps, ixs)
    ensures InRoster(ps, r)
  {
    if ixs == [] then []
    else
      var n := |ixs| - 1;
      var r := WithVotes(ps, ixs[..n], tally, votes);
      if CountOf(tally, ps[ixs[n]].id) == votes then r + [ixs[n]] else r
  }

  function Score(p: PlayerValue): int {
    p.correct - p.incorrect
  }

  /** The minimum search of `resolveVotes` starts here, not at infinity. */
  const SCORE_CEILING: int := 0x4000_0000

  function MinScore(ps: seq<PlayerValue>, ixs: seq<nat>): int
    requires InRoster(ps, ixs)
  {
    if ixs == [] then SCORE_CEILING
    else
      var n := |ixs| - 1;
      var m := MinScore(ps, ixs[..n]);
      if Score(ps[ixs[n]]) < m then Score(ps[ixs[n]]) else m
  }

  function WithScore(ps: seq<PlayerValue>, ixs: seq<nat>, score: int): (r: seq<nat>)
    requires InRoster(ps, ixs)
    ensures InRoster(ps, r)
  {
    if ixs == [] then []
    else
      var n := |ixs| - 1;
      var r := WithScore(ps, ixs[..n], score);
      if Score(ps[ixs[n]]) == score then r + [ixs[n]] else r
  }

  const TIE_BROKEN_NOTE := "Tie broken by in-game performance."
  const HOST_BROKE_NOTE := "The host broke the tie."

  datatype Verdict = Eliminate(index: nat, note: string) | Tie(candidates: seq<nat>)

  /** The decision of `resolveVotes`. */
  function Resolve(ps: seq<PlayerValue>, votes: map<string, string>): (v: Verdict)
    ensures v.Eliminate? ==> v.index < |ps|
    ensures v.Tie? ==> InRoster(ps, v.candidates)
  {
    var alive := AliveIdx(ps);
    var tally := Tally(ps, votes);
    var top := WithVotes(ps, alive, tally, MaxVotes(ps, alive, tally));
    if |top| == 1 then Eliminate(top[0], "")
    else
      var tied := WithScore(ps, top, MinScore(ps, top));
      if |tied| == 1 then Eliminate(tied[0], TIE_BROKEN_NOTE) else Tie(tied)
  }

  function IdsAt(ps: seq<PlayerValue>, ixs: seq<nat>): (r: seq<string>)
    requires InRoster(ps, ixs)
    ensures |r| == |ixs| && forall k :: 0 <= k < |ixs| ==> r[k] == ps[ixs[k]].id
  {
    seq(|ixs|, k requires 0 <= k < |ixs| => ps[ixs[k]].id)
  }

  // --- the loops of `resolveVotes` ---

  /** The voters counted so far who named this id. */
  ghost function Counted(votes: map<string, string>, rest: set<string>, id: string): set<string> {
    set v | v in votes && v !in rest && votes[v] == id
  }

  method EmptyTally(ps: seq<PlayerValue>, alive: seq<nat>) returns (tally: map<string, nat>)
    requires alive == AliveIdx(ps)
    ensures tally.Keys == AliveIds(ps) && forall id :: id in tally ==> tally[id] == 0
  {
    tally := map[];
    for i := 0 to |alive|
      invariant forall id :: id in tally <==> exists k :: 0 <= k < i && ps[alive[k]].id == id
      invariant forall id :: id in tally ==> tally[id] == 0
    {
      tally := tally[ps[alive[i]].id := 0];
    }
    AliveIdxIds(ps);
  }

  lemma CountOneMore(votes: map<string, string>, rest: set<string>, voter: string)
    requires voter in rest && voter in votes
    ensures forall id ::
      |Counted(votes, rest - {voter}, id)| == |Counted(votes, rest, id)| + (if id == votes[voter] then 1 else 0)
  {
    forall id
      ensures |Counted(votes, rest - {voter}, id)| == |Counted(votes, rest, id)| + if id == votes[voter] then 1 else 0
    {
      if id == votes[voter] {
        assert Counted(votes, rest - {voter}, id) == Counted(votes, rest, id) + {voter};
      } else {
        assert Counted(votes, rest - {voter}, id) == Counted(votes, rest, id);
      }
    }
  }

  /** Go visits the votes in no particular order; whatever the order, the tally is the same. */
  method CountVotes(ps: seq<PlayerValue>, alive: seq<nat>, votes: map<string, string>) returns (tally: map<string, nat>)
    requires alive == AliveIdx(ps)
    ensures tally == Tally(ps, votes)
  {
    tally := EmptyTally(ps, alive);
    var rest := votes.Keys;
    assert forall id :: Counted(votes, rest, id) == {};
    while rest != {}
      invariant rest <= votes.Keys
      invariant tally.Keys == AliveIds(ps)
      invariant forall id :: id in tally ==> tally[id] == |Counted(votes, rest, id)|
    {
      var voter :| voter in rest;
      var target := votes[voter];
      CountOneMore(votes, rest, voter);
      rest := rest - {voter};
      if target in tally {
        tally := tally[target := tally[target] + 1];
      }
    }
    forall id | id in tally ensures tally[id] == VotesFor(votes, id) {
      assert Counted(votes, {}, id) == set v | v in votes && votes[v] == id;
    }
  }

  method MostVotes(ps: seq<PlayerValue>, alive: seq<nat>, tally: map<string, nat>) returns (max: int)
    requires InRoster(ps, alive)
    ensures max == MaxVotes(ps, alive, tally)
  {
    max := -1;
    for i := 0 to |alive|
      invariant max == MaxVotes(ps, alive[..i], tally)
    {
      assert alive[..i + 1][..i] == alive[..i];
      if CountOf(tally, ps[alive[i]].id) > max {
        max := CountOf(tally, ps[alive[i]].id);
      }
    }
    assert alive[..|alive|] == alive;
  }

  method TopPlayers(ps: seq<PlayerValue>, alive: seq<nat>, tally: map<string, nat>, max: int) returns (top: seq<nat>)
    requires InRoster(ps, alive)
    ensures top == WithVotes(ps, alive, tally, max)
  {
    top := [];
    for i := 0 to |alive|
      invariant top == WithVotes(ps, alive[..i], tally, max)
    {
      assert alive[..i + 1][..i] == alive[..i];
      if CountOf(tally, ps[alive[i]].id) == max {
        top := top + [alive[i]];
      }
    }
    assert alive[..|alive|] == alive;
  }

  method LowestScore(ps: seq<PlayerValue>, top: seq<nat>) returns (min: int)
    requires InRoster(ps, top)
    ensures min == MinScore(ps, top)
  {
    min := SCORE_CEILING;
    for i := 0 to |top|
      invariant min == MinScore(ps, top[..i])
    {
      assert top[..i + 1][..i] == top[..i];
      if Score(ps[top[i]]) < min {
        min := Score(ps[top[i]]);
      }
    }
    assert top[..|top|] == top;
  }

  method StillTied(ps: seq<PlayerValue>, top: seq<nat>, min: int) returns (tied: seq<nat>)
    requires InRoster(ps, top)
    ensures tied == WithScore(ps, top, min)
  {
    tied := [];
    for i := 0 to |top|
      invariant tied == WithScore(ps, top[..i], min)
    {
      assert top[..i + 1][..i] == top[..i];
      if Score(ps[top[i]]) == min {
        tied := tied + [top[i]];
      }
    }
    assert top[..|top|] == top;
  }

  /** The decision of `resolveVotes`, with the tally it rests on. */
  method DecideVotes(ps: seq<PlayerValue>, votes: map<string, string>, alive: seq<nat>)
    returns (v: Verdict, tally: map<string, nat>)
    requires alive == AliveIdx(ps)
    ensures v == Resolve(ps, votes) && tally == Tally(ps, votes)
  {
    tally := CountVotes(ps, alive, votes);
    var max := MostVotes(ps, alive, tally);
    var top := TopPlayers(ps, alive, tally, max);
    if |top| == 1 {
      return Eliminate(top[0], ""), tally;
    }
    var min := LowestScore(ps, top);
    var tied := StillTied(ps, top, min);
    if |tied| == 1 {
      return Eliminate(tied[0], TIE_BROKEN_NOTE), tally;
    }
    return Tie(tied), tally;
  }

  // --- the tally that is shown ---

  /** The rows of `finalizeElimination` before sorting: players the tally knows, in roster order. */
  function TallyRows(ps: seq<PlayerValue>, tally: map<string, nat>): seq<TallyRow> {
    if ps == [] then []
    else
      var n := |ps| - 1;
      var r := TallyRows(ps[..n], tally);
      if ps[n].id in tally then r + [TallyRow(ps[n].name, tally[ps[n].id])] else r
  }

  /** Slide x left past every row with fewer votes. */
  function Insert(rows: seq<TallyRow>, x: TallyRow): (r: seq<TallyRow>)
    ensures |r| == |rows| + 1
  {
    if rows == [] || x.votes <= rows[|rows| - 1].votes then rows + [x]
    else Insert(rows[..|rows| - 1], x) + [rows[|rows| - 1]]
  }

  function SortDesc(rows: seq<TallyRow>): (r: seq<TallyRow>)
    ensures |r| == |rows|
  {
    if rows == [] then [] else Insert(SortDesc(rows[..|rows| - 1]), rows[|rows| - 1])
  }

  /** A sorted stretch with x in front of its position j, then the untouched rest. */
  ghost function Slid(sorted: seq<TallyRow>, x: TallyRow, rest: seq<TallyRow>, j: nat): (r: seq<TallyRow>)
    requires j <= |sorted|
    ensures |r| == |sorted| + 1 + |rest|
  {
    sorted[..j] + [x] + sorted[j..] + rest
  }

  /** The rows from position j on are among those x goes past. */
  ghost predicate Overtaken(sorted: seq<TallyRow>, x: TallyRow, j: nat) {
    j <= |sorted| && Insert(sorted, x) == Insert(sorted[..j], x) + sorted[j..]
  }

  lemma SlideStart(sorted: seq<TallyRow>, x: TallyRow, rest: seq<TallyRow>)
    ensures Slid(sorted, x, rest, |sorted|) == sorted + [x] + rest && Overtaken(sorted, x, |sorted|)
  {
    assert sorted[|sorted|..] == [] && sorted[..|sorted|] == sorted;
  }

  lemma SlideOne(sorted: seq<TallyRow>, x: TallyRow, rest: seq<TallyRow>, j: nat)
    requires 0 < j && Overtaken(sorted, x, j) && x.votes > sorted[j - 1].votes
    ensures Overtaken(sorted, x, j - 1)
    ensures Slid(sorted, x, rest, j)[j := sorted[j - 1]][j - 1 := x] == Slid(sorted, x, rest, j - 1)
  {
    assert sorted[..j][..j - 1] == sorted[..j - 1];
    assert sorted[j - 1..] == [sorted[j - 1]] + sorted[j..];
  }

  lemma SlidRows(sorted: seq<TallyRow>, x: TallyRow, rest: seq<TallyRow>, j: nat)
    requires j <= |sorted|
    ensures Slid(sorted, x, rest, j)[j] == x && (j > 0 ==> Slid(sorted, x, rest, j)[j - 1] == sorted[j - 1])
  {
  }

  lemma SlideEnd(sorted: seq<TallyRow>, x: TallyRow, rest: seq<TallyRow>, j: nat)
    requires Overtaken(sorted, x, j) && (j == 0 || x.votes <= sorted[j - 1].votes)
    ensures Slid(sorted, x, rest, j) == Insert(sorted, x) + rest
  {
    assert Insert(sorted[..j], x) == sorted[..j] + [x];
  }

  /** The inner loop: row i slides left past every row with fewer votes. */
  method SlideLeft(t: array<TallyRow>, i: nat)
    requires i < t.Length
    modifies t
    ensures t[..] == Insert(old(t[..i]), old(t[i])) + old(t[i + 1..])
  {
    hide Insert, Slid, Overtaken;
    ghost var sorted, x, rest := t[..i], t[i], t[i + 1..];
    var j := i;
    SlideStart(sorted, x, rest);
    assert t[..] == sorted + [x] + rest;
    SlidRows(sorted, x, rest, j);
    while j > 0 && t[j].votes > t[j - 1].votes
      invariant 0 <= j <= i
      invariant t[..] == Slid(sorted, x, rest, j) && Overtaken(sorted, x, j)
      invariant t[..][j] == x && (j > 0 ==> t[..][j - 1] == sorted[j - 1])
    {
      SlideOne(sorted, x, rest, j);
      ghost var now := t[..];
      t[j], t[j - 1] := t[j - 1], t[j];
      assert t[..] == now[j := sorted[j - 1]][j - 1 := x];
      j := j - 1;
      SlidRows(sorted, x, rest, j);
    }
    SlideEnd(sorted, x, rest, j);
  }

  /** `sortTallyDesc`, in place. */
  method SortTallyDesc(t: array<TallyRow>)
    modifies t
    ensures t[..] == SortDesc(old(t[..]))
  {
    ghost var was := t[..];
    if t.Length == 0 {
      return;
    }
    assert was[..1][..0] == [];
    for i := 1 to t.Length
      invariant t[..i] == SortDesc(was[..i])
      invariant t[i..] == was[i..]
    {
      assert was[..i + 1][..i] == was[..i] && t[i] == was[i..][0];
      assert t[i + 1..] == t[i..][1..] == was[i..][1..] == was[i + 1..];
      SlideLeft(t, i);
    }
    assert t[..t.Length] == t[..] && was[..t.Length] == was;
  }

  /** The tally of an elimination: one row per tallied player, most votes first. */
  method ShownTally(ps: seq<PlayerValue>, tally: map<string, nat>) returns (rows: seq<TallyRow>)
    ensures rows == SortDesc(TallyRows(ps, tally))
  {
    rows := [];
    for i := 0 to |ps|
      invariant rows == TallyRows(ps[..i], tally)
    {
      assert ps[..i + 1][..i] == ps[..i];
      if ps[i].id in tally {
        rows := rows + [TallyRow(ps[i].name, tally[ps[i].id])];
      }
    }
    assert ps[..|ps|] == ps;
    var t := new TallyRow[|rows|](i requires 0 <= i < |rows| => rows[i]);
    assert t[..] == rows;
    SortTallyDesc(t);
    rows := t[..];
  }

  // --- what the decision means ---

  lemma {:induction false} MaxVotesIsMax(ps: seq<PlayerValue>, ixs: seq<nat>, tally: map<string, nat>)
    returns (w: int)
    requires InRoster(ps, ixs)
    ensures forall k :: 0 <= k < |ixs| ==> CountOf(tally, ps[ixs[k]].id) <= MaxVotes(ps, ixs, tally)
    ensures ixs != [] ==> 0 <= w < |ixs| && CountOf(tally, ps[ixs[w]].id) == MaxVotes(ps, ixs, tally)
  {
    w := -1;
    if ixs != [] {
      var n := |ixs| - 1;
      w := MaxVotesIsMax(ps, ixs[..n], tally);
      assert forall k :: 0 <= k < n ==> ixs[..n][k] == ixs[k];
      if CountOf(tally, ps[ixs[n]].id) == MaxVotes(ps, ixs, tally) {
        w := n;
      }
    }
  }

  lemma {:induction false} MinScoreIsMin(ps: seq<PlayerValue>, ixs: seq<nat>)
    requires InRoster(ps, ixs)
    ensures MinScore(ps, ixs) <= SCORE_CEILING
    ensures forall k :: 0 <= k < |ixs| ==> MinScore(ps, ixs) <= Score(ps[ixs[k]])
    ensures MinScore(ps, ixs) == SCORE_CEILING || exists k :: 0 <= k < |ixs| && Score(ps[ixs[k]]) == MinScore(ps, ixs)
  {
    if ixs != [] {
      var n := |ixs| - 1;
      MinScoreIsMin(ps, ixs[..n]);
      assert forall k :: 0 <= k < n ==> ixs[..n][k] == ixs[k];
    }
  }

  ghost predicate Increasing(ixs: seq<nat>) {
    forall j, k :: 0 <= j < k < |ixs| ==> ixs[j] < ixs[k]
  }

  lemma {:induction false} WithVotesSelects(ps: seq<PlayerValue>, ixs: seq<nat>, tally: map<string, nat>, votes: int)
    requires InRoster(ps, ixs) && Increasing(ixs)
    ensures forall i :: i in WithVotes(ps, ixs, tally, votes) <==> i in ixs && CountOf(tally, ps[i].id) == votes
    ensures Increasing(WithVotes(ps, ixs, tally, votes))
  {
    if ixs != [] {
      var n := |ixs| - 1;
      WithVotesSelects(ps, ixs[..n], tally, votes);
      assert ixs == ixs[..n] + [ixs[n]];
      assert forall i :: i in ixs[..n] ==> i < ixs[n];
      var r := WithVotes(ps, ixs[..n], tally, votes);
      forall k | 0 <= k < |r| ensures r[k] < ixs[n] {
        assert r[k] in r;
      }
    }
  }

  lemma {:induction false} WithScoreSelects(ps: seq<PlayerValue>, ixs: seq<nat>, score: int)
    requires InRoster(ps, ixs) && Increasing(ixs)
    ensures forall i :: i in WithScore(ps, ixs, score) <==> i in ixs && Score(ps[i]) == score
    ensures Increasing(WithScore(ps, ixs, score))
  {
    if ixs != [] {
      var n := |ixs| - 1;
      WithScoreSelects(ps, ixs[..n], score);
      assert ixs == ixs[..n] + [ixs[n]];
      assert forall i :: i in ixs[..n] ==> i < ixs[n];
      var r := WithScore(ps, ixs[..n], score);
      forall k | 0 <= k < |r| ensures r[k] < ixs[n] {
        assert r[k] in r;
      }
    }
  }

  /** i is alive and nobody alive has more votes. */
  ghost predicate TopVoted(ps: seq<PlayerValue>, votes: map<string, string>, i: int) {
    0 <= i < |ps| && ps[i].alive
    && forall k :: 0 <= k < |ps| && ps[k].alive ==> VotesFor(votes, ps[k].id) <= VotesFor(votes, ps[i].id)
  }

  /** i should go: most votes, and the lowest score among those with most votes. */
  ghost predicate Weakest(ps: seq<PlayerValue>, votes: map<string, string>, i: int) {
    TopVoted(ps, votes, i)
    && forall k :: TopVoted(ps, votes, k) ==> Score(ps[i]) <= Score(ps[k])
  }

  /** Somebody with most votes has a score the minimum search can see. */
  ghost predicate ScoreVisible(ps: seq<PlayerValue>, votes: map<string, string>) {
    exists i :: TopVoted(ps, votes, i) && Score(ps[i]) <= SCORE_CEILING
  }

  function TopOf(ps: seq<PlayerValue>, votes: map<string, string>): (r: seq<nat>)
    ensures InRoster(ps, r)
  {
    var alive, tally := AliveIdx(ps), Tally(ps, votes);
    WithVotes(ps, alive, tally, MaxVotes(ps, alive, tally))
  }

  lemma LivingAreTallied(ps: seq<PlayerValue>, votes: map<string, string>, k: nat)
    requires k < |ps| && ps[k].alive
    ensures k in AliveIdx(ps) && CountOf(Tally(ps, votes), ps[k].id) == VotesFor(votes, ps[k].id)
  {
    AliveIdxComplete(ps, k);
    assert ps[k].id in AliveIds(ps);
  }

  lemma TopIsTopVoted(ps: seq<PlayerValue>, votes: map<string, string>)
    ensures Increasing(TopOf(ps, votes))
    ensures forall i :: i in TopOf(ps, votes) <==> TopVoted(ps, votes, i)
    ensures AliveIdx(ps) != [] <==> TopOf(ps, votes) != []
  {
    var alive, tally := AliveIdx(ps), Tally(ps, votes);
    var max := MaxVotes(ps, alive, tally);
    var w := MaxVotesIsMax(ps, alive, tally);
    AliveIdxAlive(ps);
    WithVotesSelects(ps, alive, tally, max);
    forall k | 0 <= k < |ps| && ps[k].alive
      ensures k in alive && CountOf(tally, ps[k].id) == VotesFor(votes, ps[k].id) <= max
    {
      LivingAreTallied(ps, votes, k);
    }
    if alive != [] {
      assert alive[w] in alive && alive[w] in TopOf(ps, votes);
    }
    forall i | TopVoted(ps, votes, i) ensures i in TopOf(ps, votes) {
      assert i in alive && ps[alive[w]].alive;
    }
  }

  /** The tied list is exactly the set of weakest players. */
  lemma TiedAreTheWeakest(ps: seq<PlayerValue>, votes: map<string, string>)
    requires ScoreVisible(ps, votes)
    ensures var tied := WithScore(ps, TopOf(ps, votes), MinScore(ps, TopOf(ps, votes)));
      && Increasing(tied) && tied != []
      && forall i :: i in tied <==> Weakest(ps, votes, i)
  {
    var top := TopOf(ps, votes);
    var min := MinScore(ps, top);
    TopIsTopVoted(ps, votes);
    MinScoreIsMin(ps, top);
    WithScoreSelects(ps, top, min);
    var i :| TopVoted(ps, votes, i) && Score(ps[i]) <= SCORE_CEILING;
    assert i in top && min <= Score(ps[i]);
    var w :| w in top && Score(ps[w]) == min;
    assert w in WithScore(ps, top, min);
  }

  /** The decision is the right one: the one weakest player goes, or the weakest, at least
      two of them and in roster order, become the candidates. */
  ghost predicate PicksTheWeakest(ps: seq<PlayerValue>, votes: map<string, string>) {
    match Resolve(ps, votes)
    case Eliminate(index, _) => forall i :: i == index <==> Weakest(ps, votes, i)
    case Tie(candidates) =>
      (forall i :: i in candidates <==> Weakest(ps, votes, i)) && Increasing(candidates) && |candidates| >= 2
  }

  /** The decision, in the game's terms.  The minimum search starts at 2^30, hence the
      condition. */
  lemma ResolvePicksTheWeakest(ps: seq<PlayerValue>, votes: map<string, string>)
    requires ScoreVisible(ps, votes)
    ensures PicksTheWeakest(ps, votes)
  {
    var top := TopOf(ps, votes);
    var tied := WithScore(ps, top, MinScore(ps, top));
    TopIsTopVoted(ps, votes);
    TiedAreTheWeakest(ps, votes);
    assert tied[0] in tied && tied[0] in top;
    if |top| == 1 {
      assert top == [tied[0]];
      assert forall i :: i in tied ==> i in top;
    }
  }

  /** With somebody alive and two or more top-voted players, the candidate list comes out
      empty, so that nobody can be voted off, exactly when no top-voted score is visible. */
  lemma NoCandidatesExactlyAboveTheCeiling(ps: seq<PlayerValue>, votes: map<string, string>)
    requires AliveIdx(ps) != []
    ensures Resolve(ps, votes) == Tie([]) <==> |TopOf(ps, votes)| >= 2 && !ScoreVisible(ps, votes)
  {
    var top := TopOf(ps, votes);
    TopIsTopVoted(ps, votes);
    if ScoreVisible(ps, votes) {
      TiedAreTheWeakest(ps, votes);
    } else {
      var tied := WithScore(ps, top, MinScore(ps, top));
      assert tied != [] ==> tied[0] in tied;
      MinScoreIsMin(ps, top);
      WithScoreSelects(ps, top, MinScore(ps, top));
    }
  }

  lemma SoleTopGoes(ps: seq<PlayerValue>, votes: map<string, string>)
    requires |TopOf(ps, votes)| == 1
    ensures Resolve(ps, votes) == Eliminate(TopOf(ps, votes)[0], "")
  {
    hide MaxVotes, WithVotes, Tally, AliveIdx;
  }

  lemma SoleTopIsWeakest(ps: seq<PlayerValue>, votes: map<string, string>)
    requires |TopOf(ps, votes)| == 1
    ensures PicksTheWeakest(ps, votes)
  {
    hide TopOf, TopVoted, Score;
    TopIsTopVoted(ps, votes);
    var i := TopOf(ps, votes)[0];
    assert Resolve(ps, votes) == Eliminate(i, "") by { SoleTopGoes(ps, votes); }
    hide Resolve;
    assert TopOf(ps, votes) == [i];
    forall k ensures k == i <==> TopVoted(ps, votes, k) {
      assert k in TopOf(ps, votes) <==> TopVoted(ps, votes, k);
    }
  }

  /** With somebody alive, the decision is right exactly when one player has most votes or
      some top-voted score is visible. */
  lemma DecisionIsRightExactly(ps: seq<PlayerValue>, votes: map<string, string>)
    requires AliveIdx(ps) != []
    ensures PicksTheWeakest(ps, votes) <==> |TopOf(ps, votes)| == 1 || ScoreVisible(ps, votes)
  {
    hide TopOf, ScoreVisible, Weakest, Resolve;
    TopIsTopVoted(ps, votes);
    NoCandidatesExactlyAboveTheCeiling(ps, votes);
    if ScoreVisible(ps, votes) {
      ResolvePicksTheWeakest(ps, votes);
    } else if |TopOf(ps, votes)| == 1 {
      SoleTopIsWeakest(ps, votes);
    }
  }

  /** Whatever the scores, only living players are eliminated or become candidates. */
  lemma ResolveNamesTheLiving(ps: seq<PlayerValue>, votes: map<string, string>)
    ensures match Resolve(ps, votes)
      case Eliminate(index, _) => ps[index].alive
      case Tie(candidates) => forall k :: 0 <= k < |candidates| ==> ps[candidates[k]].alive
  {
    var top := TopOf(ps, votes);
    var tied := WithScore(ps, top, MinScore(ps, top));
    TopIsTopVoted(ps, votes);
    WithScoreSelects(ps, top, MinScore(ps, top));
    assert forall k :: 0 <= k < |top| ==> top[k] in top;
    assert forall k :: 0 <= k < |tied| ==> tied[k] in tied;
  }

  /** An elimination is always right, whatever the scores; the ceiling can only prevent one. */
  lemma EliminationsAreRight(ps: seq<PlayerValue>, votes: map<string, string>)
    requires Resolve(ps, votes).Eliminate?
    ensures PicksTheWeakest(ps, votes)
  {
    hide PicksTheWeakest, Resolve, TopOf, ScoreVisible;
    ResolveNamesTheLiving(ps, votes);
    AliveIdxComplete(ps, Resolve(ps, votes).index);
    TopIsTopVoted(ps, votes);
    NoCandidatesExactlyAboveTheCeiling(ps, votes);
    DecisionIsRightExactly(ps, votes);
  }

  lemma VotesAreCounted(votes: map<string, string>, id: string)
    ensures VotesFor(votes, id) <= |votes|
  {
    var mine := set v | v in votes && votes[v] == id;
    Text.SubsetCardinality(mine, votes.Keys);
  }

  lemma NobodyVoted(ps: seq<PlayerValue>, i: nat)
    requires i < |ps| && ps[i].alive
    ensures TopVoted(ps, map[], i)
  {
    hide VotesFor;
    forall id ensures VotesFor(map[], id) == 0 {
      VotesAreCounted(map[], id);
    }
  }

  lemma TopVotedLive(ps: seq<PlayerValue>, votes: map<string, string>)
    ensures forall i :: TopVoted(ps, votes, i) ==> 0 <= i < |ps| && ps[i].alive
  {
  }

  /** Nobody has voted and everybody alive, two or more, is above the ceiling: the weakest are
      not found, and no candidate is left to choose from. */
  lemma EverybodyAboveTheCeiling(ps: seq<PlayerValue>)
    requires |AliveIdx(ps)| >= 2
    requires forall i :: 0 <= i < |ps| && ps[i].alive ==> Score(ps[i]) > SCORE_CEILING
    ensures Resolve(ps, map[]) == Tie([]) && !PicksTheWeakest(ps, map[])
  {
    hide TopOf, TopVoted, Resolve, PicksTheWeakest, AliveIdx;
    var top, alive := TopOf(ps, map[]), AliveIdx(ps);
    TopIsTopVoted(ps, map[]);
    AliveIdxAlive(ps);
    NobodyVoted(ps, alive[0]);
    NobodyVoted(ps, alive[1]);
    assert alive[0] in top && alive[1] in top && alive[0] != alive[1];
    TopVotedLive(ps, map[]);
    assert !ScoreVisible(ps, map[]);
    NoCandidatesExactlyAboveTheCeiling(ps, map[]);
    DecisionIsRightExactly(ps, map[]);
  }

  lemma EqualScoresAreWeakest(ps: seq<PlayerValue>, votes: map<string, string>, i: nat)
    requires TopVoted(ps, votes, i)
    requires forall k :: 0 <= k < |ps| ==> Score(ps[k]) == Score(ps[i])
    ensures Weakest(ps, votes, i)
  {
    hide VotesFor;
  }

  /** Two players with 2^30 + 1 right answers each, and no votes: both are weakest, and
      neither becomes a candidate. */
  lemma CeilingExample(ps: seq<PlayerValue>)
    requires ps == [
      PlayerValue("a", "A", true, 0x4000_0001, 0, true, "t"), PlayerValue("b", "B", true, 0x4000_0001, 0, true, "u")]
    ensures Resolve(ps, map[]) == Tie([]) && !PicksTheWeakest(ps, map[])
    ensures Weakest(ps, map[], 0) && Weakest(ps, map[], 1)
  {
    hide Resolve, PicksTheWeakest, Weakest, TopVoted, AliveIdx;
    assert |AliveIdx(ps)| == 2 by { AllAlive(ps); }
    EverybodyAboveTheCeiling(ps);
    NobodyVoted(ps, 0);
    NobodyVoted(ps, 1);
    EqualScoresAreWeakest(ps, map[], 0);
    EqualScoresAreWeakest(ps, map[], 1);
  }
}
