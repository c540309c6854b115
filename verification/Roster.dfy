/** The roster as a sequence of players: who is alive, who has an id, whose turn is next. */
module Roster {
  import opened Types

  function NamesOf(ps: seq<PlayerValue>): (r: seq<string>)
    ensures |r| == |ps| && forall i :: 0 <= i < |ps| ==> r[i] == ps[i].name
  {
    seq(|ps|, i requires 0 <= i < |ps| => ps[i].name)
  }

  /** Positions of the living players, in roster order. */
  function AliveIdx(ps: seq<PlayerValue>): (r: seq<nat>)
    ensures |r| <= |ps| && forall k :: 0 <= k < |r| ==> r[k] < |ps|
  {
    if ps == [] then []
    else
      var n := |ps| - 1;
      var r := AliveIdx(ps[..n]);
      if ps[n].alive then r + [n] else r
  }

  function AliveIds(ps: seq<PlayerValue>): set<string> {
    set i | 0 <= i < |ps| && ps[i].alive :: ps[i].id
  }

  predicate AliveListed(ps: seq<PlayerValue>, id: string) {
    exists i :: 0 <= i < |ps| && ps[i].id == id && ps[i].alive
  }

  /** The first position from k on that holds this id. */
  function FindFrom(ps: seq<PlayerValue>, id: string, k: nat): (r: Option<nat>)
    requires k <= |ps|
    ensures r.Some? ==> k <= r.value < |ps| && ps[r.value].id == id
    ensures forall j :: k <= j < (if r.Some? then r.value else |ps|) ==> ps[j].id != id
    decreases |ps| - k
  {
    if k == |ps| then None
    else if ps[k].id == id then Some(k)
    else FindFrom(ps, id, k + 1)
  }

  function Find(ps: seq<PlayerValue>, id: string): (r: Option<nat>)
    ensures r.Some? ==> r.value < |ps| && ps[r.value].id == id
    ensures forall j :: 0 <= j < (if r.Some? then r.value else |ps|) ==> ps[j].id != id
  {
    FindFrom(ps, id, 0)
  }

  ghost predicate DistinctIds(ps: seq<PlayerValue>) {
    forall i, j :: 0 <= i < j < |ps| ==> ps[i].id != ps[j].id
  }

  lemma FindUnique(ps: seq<PlayerValue>, i: nat)
    requires DistinctIds(ps) && i < |ps|
    ensures Find(ps, ps[i].id) == Some(i)
  {
  }

  /** Where the asked player sits among the living, or -1. */
  function TurnPos(ps: seq<PlayerValue>, alive: seq<nat>, asked: string, k: nat): (r: int)
    requires k <= |alive| && forall j :: 0 <= j < |alive| ==> alive[j] < |ps|
    ensures r == -1 || k <= r < |alive|
    ensures r >= 0 ==> ps[alive[r]].id == asked
    ensures forall j :: k <= j < (if r >= 0 then r else |alive|) ==> ps[alive[j]].id != asked
    decreases |alive| - k
  {
    if k == |alive| then -1
    else if ps[alive[k]].id == asked then k
    else TurnPos(ps, alive, asked, k + 1)
  }

  /** `advanceTurn`: the living player after the asked one, cyclically. */
  function NextAsked(ps: seq<PlayerValue>, asked: string): string {
    var alive := AliveIdx(ps);
    if alive == [] then ""
    else
      var k := TurnPos(ps, alive, asked, 0) + 1;
      ps[alive[if k == |alive| then 0 else k]].id
  }

  lemma WrapAround(k: nat, n: nat)
    requires 0 < n && k <= n
    ensures k % n == if k == n then 0 else k
  {
  }

  // --- facts about the living ---

  lemma {:induction false} AliveIdxAlive(ps: seq<PlayerValue>)
    ensures forall k :: 0 <= k < |AliveIdx(ps)| ==> ps[AliveIdx(ps)[k]].alive
    ensures forall j, k :: 0 <= j < k < |AliveIdx(ps)| ==> AliveIdx(ps)[j] < AliveIdx(ps)[k]
  {
    if ps != [] {
      var n := |ps| - 1;
      AliveIdxAlive(ps[..n]);
      var r := AliveIdx(ps[..n]);
      assert forall k :: 0 <= k < |r| ==> ps[..n][r[k]] == ps[r[k]];
    }
  }

  lemma {:induction false} AliveIdxComplete(ps: seq<PlayerValue>, i: nat)
    requires i < |ps| && ps[i].alive
    ensures i in AliveIdx(ps)
  {
    var n := |ps| - 1;
    if i < n {
      AliveIdxComplete(ps[..n], i);
    }
  }

  lemma AliveIdxIds(ps: seq<PlayerValue>)
    ensures forall id :: id in AliveIds(ps) <==>
      exists k :: 0 <= k < |AliveIdx(ps)| && ps[AliveIdx(ps)[k]].id == id
  {
    AliveIdxAlive(ps);
    forall id | id in AliveIds(ps) ensures exists k :: 0 <= k < |AliveIdx(ps)| && ps[AliveIdx(ps)[k]].id == id {
      var i :| 0 <= i < |ps| && ps[i].alive && ps[i].id == id;
      AliveIdxComplete(ps, i);
    }
  }

  lemma {:induction false} SameAlive(ps: seq<PlayerValue>, qs: seq<PlayerValue>)
    requires |ps| == |qs|
    requires forall j :: 0 <= j < |ps| ==> ps[j].alive == qs[j].alive
    ensures AliveIdx(ps) == AliveIdx(qs)
  {
    if ps != [] {
      SameAlive(ps[..|ps| - 1], qs[..|ps| - 1]);
    }
  }

  /** Killing a living player removes exactly that position. */
  lemma {:induction false} AliveAfterDeath(ps: seq<PlayerValue>, qs: seq<PlayerValue>, i: nat)
    requires i < |ps| == |qs| && ps[i].alive && !qs[i].alive
    requires forall j :: 0 <= j < |ps| && j != i ==> ps[j].alive == qs[j].alive
    ensures |AliveIdx(qs)| == |AliveIdx(ps)| - 1
  {
    var n := |ps| - 1;
    if i < n {
      AliveAfterDeath(ps[..n], qs[..n], i);
    } else {
      SameAlive(ps[..n], qs[..n]);
    }
  }

  lemma {:induction false} AllAlive(ps: seq<PlayerValue>)
    requires forall j :: 0 <= j < |ps| ==> ps[j].alive
    ensures AliveIdx(ps) == seq(|ps|, i => i)
  {
    if ps != [] {
      AllAlive(ps[..|ps| - 1]);
    }
  }

  // --- rosters that agree on something ---

  ghost predicate SameLiving(ps: seq<PlayerValue>, qs: seq<PlayerValue>) {
    |ps| == |qs| && forall i :: 0 <= i < |ps| ==> ps[i].id == qs[i].id && ps[i].alive == qs[i].alive
  }

  lemma SameLivingIds(ps: seq<PlayerValue>, qs: seq<PlayerValue>)
    requires SameLiving(ps, qs)
    ensures forall id :: AliveListed(ps, id) <==> AliveListed(qs, id)
  {
  }

  ghost predicate SameIds(ps: seq<PlayerValue>, qs: seq<PlayerValue>) {
    |ps| == |qs| && forall i :: 0 <= i < |ps| ==> ps[i].id == qs[i].id
  }

  lemma SameIdsFind(ps: seq<PlayerValue>, qs: seq<PlayerValue>, id: string)
    requires SameIds(ps, qs)
    ensures Find(ps, id) == Find(qs, id)
  {
  }

  ghost predicate SameScores(ps: seq<PlayerValue>, qs: seq<PlayerValue>) {
    |ps| == |qs| && forall i :: 0 <= i < |ps| ==> ps[i].correct == qs[i].correct && ps[i].incorrect == qs[i].incorrect
  }
}
