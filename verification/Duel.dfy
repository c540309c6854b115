/** The penalty shootout: recording marks, scoring, and when a winner is declared. */
module Duel {
  import opened Types

  const CORRECT := "correct"

  function Result(w: Wave, side: nat): Option<string> {
    if side == 1 then w.p1 else w.p0
  }

  /** `scoreOf`: how many of this side's recorded answers are "correct". */
  function ScoreOf(rounds: seq<Wave>, side: nat): nat {
    if rounds == [] then 0
    else
      ScoreOf(rounds[..|rounds| - 1], side) +
      if Result(rounds[|rounds| - 1], side) == Some(CORRECT) then 1 else 0
  }

  /** Empty waves appended until position n exists. */
  function Pad(rounds: seq<Wave>, n: nat): (r: seq<Wave>)
    ensures |r| == if |rounds| <= n then n + 1 else |rounds|
    ensures rounds <= r && forall k :: |rounds| <= k < |r| ==> r[k] == Wave(None, None)
    decreases n + 1 - |rounds|
  {
    if |rounds| <= n then Pad(rounds + [Wave(None, None)], n) else rounds
  }

  /** `Order[turn]`: there are two seats. */
  function Seat(sh: ShootoutValue, turn: nat): string
    requires turn <= 1
  {
    if turn == 0 then sh.order0 else sh.order1
  }

  /** The mark written into the current wave for the player whose turn it is. */
  function Recorded(sh: ShootoutValue, result: string): ShootoutValue {
    var rounds := Pad(sh.rounds, sh.roundIndex);
    var w := rounds[sh.roundIndex];
    var w' := if sh.turn == 0 then w.(p0 := Some(result)) else w.(p1 := Some(result));
    sh.(rounds := rounds[sh.roundIndex := w'], question := None)
  }

  datatype Check = GoOn | GoSudden | Wins(side: nat)

  /** `checkShootoutEnd`. */
  function CheckEnd(sh: ShootoutValue): (c: Check)
    ensures c.Wins? ==> c.side <= 1
  {
    if sh.roundIndex >= |sh.rounds| then GoOn
    else
      var r := sh.rounds[sh.roundIndex];
      if r.p0.None? || r.p1.None? then GoOn
      else if !sh.sudden then
        var sc0, sc1 := ScoreOf(sh.rounds, 0), ScoreOf(sh.rounds, 1);
        var wavesDone := sh.roundIndex + 1;
        var remain := REGULATION_ROUNDS - wavesDone;
        if wavesDone >= REGULATION_ROUNDS then
          if sc0 != sc1 then Wins(if sc0 > sc1 then 0 else 1) else GoSudden
        else if sc0 > sc1 + remain then Wins(0)
        else if sc1 > sc0 + remain then Wins(1)
        else GoOn
      else
        var w0, w1 := r.p0 == Some(CORRECT), r.p1 == Some(CORRECT);
        if w0 && !w1 then Wins(0) else if w1 && !w0 then Wins(1) else GoOn
  }

  /** The shootout after the end check. */
  function Checked(sh: ShootoutValue): ShootoutValue {
    match CheckEnd(sh)
    case GoOn => sh
    case GoSudden => sh.(sudden := true)
    case Wins(side) => sh.(winnerId := Seat(sh, side))
  }

  /** The turn passes to the other seat; after seat 1 the next wave begins. */
  function Passed(sh: ShootoutValue): ShootoutValue {
    if sh.turn == 0 then sh.(turn := 1)
    else sh.(turn := 0, roundIndex := sh.roundIndex + 1)
  }
}
