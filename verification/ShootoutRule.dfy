/** The rule of the shootout, stated on its own, and the proof that the engine stops
    exactly when the rule has decided. */
module ShootoutRule {
  import opened Types

  /** A completed wave: whether seat 0 and seat 1 answered correctly. */
  datatype Pair = Pair(r0: bool, r1: bool)

  function Points(ws: seq<Pair>, side: nat): nat {
    if ws == [] then 0
    else
      var w := ws[|ws| - 1];
      Points(ws[..|ws| - 1], side) + if (if side == 1 then w.r1 else w.r0) then 1 else 0
  }

  /** The first wave that separates the two, if any. */
  function SuddenWinner(ws: seq<Pair>): Option<nat> {
    if ws == [] then None
    else if ws[0].r0 != ws[0].r1 then Some(if ws[0].r0 then 0 else 1)
    else SuddenWinner(ws[1..])
  }

  /** The rule: five waves, and if they leave a tie, the first separating wave after them. */
  function Outcome(ws: seq<Pair>): Option<nat> {
    if |ws| < REGULATION_ROUNDS then None
    else
      var s0, s1 := Points(ws[..REGULATION_ROUNDS], 0), Points(ws[..REGULATION_ROUNDS], 1);
      if s0 > s1 then Some(0) else if s1 > s0 then Some(1) else SuddenWinner(ws[REGULATION_ROUNDS..])
  }

  /** When the engine stops: decided by the wave just completed. */
  function Stop(ws: seq<Pair>): (winner: Option<nat>)
    requires ws != []
    ensures winner.Some? ==> winner.value <= 1
  {
    var s0, s1, n := Points(ws, 0), Points(ws, 1), |ws|;
    var last := ws[n - 1];
    if n > REGULATION_ROUNDS then
      if last.r0 == last.r1 then None else Some(if last.r0 then 0 else 1)
    else if s0 > s1 + (REGULATION_ROUNDS - n) then Some(0)
    else if s1 > s0 + (REGULATION_ROUNDS - n) then Some(1)
    else None
  }

  /** No wave so far has stopped the shootout. */
  ghost predicate Running(ws: seq<Pair>) {
    forall k :: 0 < k <= |ws| ==> Stop(ws[..k]) == None
  }

  /** Every way to play on to an outcome ends with this winner, and there is such a way. */
  ghost predicate Settled(ws: seq<Pair>, winner: nat) {
    && (forall more :: Outcome(ws + more).Some? ==> Outcome(ws + more) == Some(winner))
    && (exists more :: Outcome(ws + more) == Some(winner))
  }

  /** Either seat can still win. */
  ghost predicate Open(ws: seq<Pair>) {
    && (exists more :: Outcome(ws + more) == Some(0))
    && (exists more :: Outcome(ws + more) == Some(1))
  }

  // --- points ---

  lemma {:induction false} PointsAppend(a: seq<Pair>, b: seq<Pair>, side: nat)
    ensures Points(a, side) <= Points(a + b, side) <= Points(a, side) + |b|
    ensures Points(a + b, side) == Points(a, side) + Points(b, side)
  {
    if b == [] {
      assert a + b == a;
    } else {
      var n := |b| - 1;
      assert (a + b)[..|a + b| - 1] == a + b[..n];
      PointsAppend(a, b[..n], side);
    }
  }

  /** Every remaining wave won by one seat. */
  function Sweep(winner: nat, n: nat): (ws: seq<Pair>)
    ensures |ws| == n
  {
    seq(n, _ => Pair(winner == 0, winner != 0))
  }

  lemma {:induction false} SweepPoints(winner: nat, n: nat)
    requires winner <= 1
    ensures Points(Sweep(winner, n), winner) == n && Points(Sweep(winner, n), 1 - winner) == 0
  {
    if n > 0 {
      assert Sweep(winner, n)[..n - 1] == Sweep(winner, n - 1);
      SweepPoints(winner, n - 1);
    }
  }

  lemma {:induction false} LevelWavesDecideNothing(a: seq<Pair>, b: seq<Pair>)
    requires forall k :: 0 <= k < |a| ==> a[k].r0 == a[k].r1
    ensures SuddenWinner(a + b) == SuddenWinner(b)
  {
    if a == [] {
      assert a + b == b;
    } else {
      LevelWavesDecideNothing(a[1..], b);
      assert (a + b)[1..] == a[1..] + b;
    }
  }

  // --- what an undecided history looks like ---

  lemma RunningInRegulation(ws: seq<Pair>)
    requires Running(ws) && |ws| <= REGULATION_ROUNDS
    ensures Points(ws, 0) <= Points(ws, 1) + (REGULATION_ROUNDS - |ws|)
    ensures Points(ws, 1) <= Points(ws, 0) + (REGULATION_ROUNDS - |ws|)
  {
    if ws != [] {
      assert ws[..|ws|] == ws && Stop(ws[..|ws|]) == None;
    }
  }

  lemma RunningInSuddenDeath(ws: seq<Pair>)
    requires Running(ws) && |ws| >= REGULATION_ROUNDS
    ensures Points(ws[..REGULATION_ROUNDS], 0) == Points(ws[..REGULATION_ROUNDS], 1)
    ensures forall k :: REGULATION_ROUNDS <= k < |ws| ==> ws[k].r0 == ws[k].r1
  {
    assert Stop(ws[..REGULATION_ROUNDS]) == None;
    forall k | REGULATION_ROUNDS <= k < |ws| ensures ws[k].r0 == ws[k].r1 {
      assert Stop(ws[..k + 1]) == None;
    }
  }

  lemma {:induction false} LevelWavesGiveLevelPoints(ws: seq<Pair>)
    requires forall k :: 0 <= k < |ws| ==> ws[k].r0 == ws[k].r1
    ensures Points(ws, 0) == Points(ws, 1)
  {
    if ws != [] {
      LevelWavesGiveLevelPoints(ws[..|ws| - 1]);
    }
  }

  lemma SuddenDeathIsLevel(ws: seq<Pair>)
    requires Running(ws) && |ws| >= REGULATION_ROUNDS
    ensures Points(ws, 0) == Points(ws, 1)
  {
    RunningInSuddenDeath(ws);
    LevelWavesGiveLevelPoints(ws[REGULATION_ROUNDS..]);
    assert ws == ws[..REGULATION_ROUNDS] + ws[REGULATION_ROUNDS..];
    PointsAppend(ws[..REGULATION_ROUNDS], ws[REGULATION_ROUNDS..], 0);
    PointsAppend(ws[..REGULATION_ROUNDS], ws[REGULATION_ROUNDS..], 1);
  }

  // --- exactness ---

  lemma SweepWins(ws: seq<Pair>, winner: nat)
    requires Running(ws) && winner <= 1
    ensures exists more :: Outcome(ws + more) == Some(winner)
  {
    var n := |ws|;
    if n < REGULATION_ROUNDS {
      var left := Sweep(winner, REGULATION_ROUNDS - n);
      var more := left + Sweep(winner, 1);
      var all := ws + more;
      assert all[..REGULATION_ROUNDS] == ws + left;
      assert all[REGULATION_ROUNDS..] == Sweep(winner, 1);
      RunningInRegulation(ws);
      PointsAppend(ws, left, 0);
      PointsAppend(ws, left, 1);
      SweepPoints(winner, REGULATION_ROUNDS - n);
      assert Outcome(all) == Some(winner);
    } else {
      var more := Sweep(winner, 1);
      RunningInSuddenDeath(ws);
      assert (ws + more)[..REGULATION_ROUNDS] == ws[..REGULATION_ROUNDS];
      assert (ws + more)[REGULATION_ROUNDS..] == ws[REGULATION_ROUNDS..] + more;
      LevelWavesDecideNothing(ws[REGULATION_ROUNDS..], more);
      assert Outcome(ws + more) == Some(winner);
    }
  }

  /** While the engine plays on, the rule has not decided: both seats can still win. */
  lemma PlayingOnMeansOpen(ws: seq<Pair>)
    requires Running(ws)
    ensures Open(ws)
  {
    SweepWins(ws, 0);
    SweepWins(ws, 1);
  }

  lemma StopDecides(ws: seq<Pair>, more: seq<Pair>)
    requires ws != [] && Running(ws[..|ws| - 1]) && Stop(ws).Some?
    requires |ws + more| >= REGULATION_ROUNDS
    ensures Outcome(ws + more) == Stop(ws)
  {
    var n, all := |ws|, ws + more;
    if n <= REGULATION_ROUNDS {
      var rest := all[n..REGULATION_ROUNDS];
      assert all[..REGULATION_ROUNDS] == ws + rest;
      PointsAppend(ws, rest, 0);
      PointsAppend(ws, rest, 1);
    } else {
      var before := ws[..n - 1];
      RunningInSuddenDeath(before);
      assert all[..REGULATION_ROUNDS] == before[..REGULATION_ROUNDS];
      var tail := [ws[n - 1]] + more;
      assert all[REGULATION_ROUNDS..] == before[REGULATION_ROUNDS..] + tail;
      LevelWavesDecideNothing(before[REGULATION_ROUNDS..], tail);
      assert tail[0] == ws[n - 1];
    }
  }

  /** When the engine declares a winner, the rule has decided for that seat, whatever is
      still to come; at every earlier wave it had not. */
  lemma StoppingMeansSettled(ws: seq<Pair>)
    requires ws != [] && Running(ws[..|ws| - 1]) && Stop(ws).Some?
    ensures Settled(ws, Stop(ws).value)
    ensures forall k :: 0 <= k < |ws| ==> Open(ws[..k])
  {
    var w := Stop(ws).value;
    forall more | Outcome(ws + more).Some? ensures Outcome(ws + more) == Some(w) {
      StopDecides(ws, more);
    }
    StopDecides(ws, Sweep(0, REGULATION_ROUNDS));
    forall k | 0 <= k < |ws| ensures Open(ws[..k]) {
      assert forall j :: 0 < j <= k ==> ws[..k][..j] == ws[..|ws| - 1][..j];
      PlayingOnMeansOpen(ws[..k]);
    }
  }

  /** The engine's stopping test is exact at every wave boundary it reaches. */
  lemma StopIsExact(ws: seq<Pair>, winner: nat)
    requires ws != [] && Running(ws[..|ws| - 1])
    ensures Stop(ws) == Some(winner) <==> Settled(ws, winner)
  {
    if Stop(ws).Some? {
      StoppingMeansSettled(ws);
      var w := Stop(ws).value;
      if Settled(ws, winner) {
        var more :| Outcome(ws + more) == Some(winner);
        StopDecides(ws, more);
      }
    } else {
      assert forall k :: 0 < k < |ws| ==> ws[..|ws| - 1][..k] == ws[..k];
      assert ws[..|ws|] == ws;
      PlayingOnMeansOpen(ws);
      var a :| Outcome(ws + a) == Some(0);
      var b :| Outcome(ws + b) == Some(1);
    }
  }
}
