/** The actor loop over the Room object: the theorems about runs, told of the program. */
module Service {
  import opened Types
  import opened Game
  import opened Actor
  import opened Basis
  import opened Ledger
  import opened UiRuns
  import opened Views
  import opened Runs
  import opened Theorems
  import GameState
  import RoomActor

  /** From this point on every event brings fresh ids, and the page offers what it is asked. */
  ghost predicate Orderly(w: World, es: seq<Event>)
    decreases |es|
  {
    es == [] ||
    (&& Safe(w.room.game) && LegalEvent(w.room, es[0]) && UiEvent(w.room, es[0])
     && Orderly(World(Step(w.room, es[0]), Record(w.book, w.room, es[0])), es[1..]))
  }

  ghost predicate Showable(w: World) {
    Safe(w.room.game) && RevealDefined(w.room.game)
  }

  ghost predicate AllShowable(ws: seq<World>) {
    forall i :: 0 <= i < |ws| ==> Showable(ws[i])
  }

  /** What the big screen is sent on this run: its view after each event that asks for a broadcast. */
  ghost function HostBroadcasts(ws: seq<World>, es: seq<Event>): seq<PlayerState>
    requires |ws| == |es| + 1 && AllShowable(ws)
  {
    if es == [] then []
    else
      var n := |es| - 1;
      assert Showable(ws[n]) && Showable(ws[n + 1]);
      HostBroadcasts(ws[..n + 1], es[..n]) +
      if Changed(ws[n].room, es[n]) then [ToPlayerState(ws[n + 1].room.game, "")] else []
  }

  lemma PageRunsAreShowable(ws: seq<World>, es: seq<Event>)
    requires IsUiRun(ws, es)
    ensures |ws| == |es| + 1 && AllShowable(ws)
  {
    hide Moves, UiEvent;
    forall i | 0 <= i < |ws| ensures Showable(ws[i]) {
      EveryBroadcastIsDefined(ws, es, i);
    }
  }

  lemma OneMoreStep(ws: seq<World>, es: seq<Event>, e: Event, w: World)
    requires IsUiRun(ws, es) && Moves(ws[|es|], e, w) && UiEvent(ws[|es|].room, e)
    ensures IsUiRun(ws + [w], es + [e])
  {
    hide Moves, UiEvent;
    var vs, fs := ws + [w], es + [e];
    assert vs[0] == ws[0];
    forall i | 0 <= i < |fs| ensures Moves(vs[i], fs[i], vs[i + 1]) && UiEvent(vs[i].room, fs[i]) {
      if i < |es| {
        assert Moves(ws[i], es[i], ws[i + 1]) && UiEvent(ws[i].room, es[i]);
      }
    }
  }

  lemma ShowableIs(w: World)
    requires Showable(w)
    ensures Safe(w.room.game) && RevealDefined(w.room.game)
  {
  }

  lemma LastBroadcast(ws: seq<World>, es: seq<Event>, n: nat)
    requires es != [] && n == |es| - 1 && |ws| == n + 2 && AllShowable(ws)
    ensures Showable(ws[n]) && Showable(ws[n + 1]) && AllShowable(ws[..n + 1])
    ensures HostBroadcasts(ws, es) == HostBroadcasts(ws[..n + 1], es[..n]) +
      if Changed(ws[n].room, es[n]) then [ToPlayerState(ws[n + 1].room.game, "")] else []
  {
    hide Changed, ToPlayerState;
  }

  lemma NextBroadcast(ws: seq<World>, es: seq<Event>, e: Event, w: World)
    requires IsUiRun(ws, es) && IsUiRun(ws + [w], es + [e])
    ensures |ws| == |es| + 1 && AllShowable(ws) && Showable(w) && AllShowable(ws + [w])
    ensures HostBroadcasts(ws + [w], es + [e]) ==
      HostBroadcasts(ws, es) + if Changed(ws[|es|].room, e) then [ToPlayerState(w.room.game, "")] else []
  {
    hide IsUiRun, Showable, Changed, ToPlayerState, HostBroadcasts;
    PageRunsAreShowable(ws, es);
    PageRunsAreShowable(ws + [w], es + [e]);
    assert (ws + [w])[|ws|] == w;
    ShowableIs(ws[|es|]);
    ShowableIs(w);
    LastBroadcast(ws + [w], es + [e], |es|);
    assert (ws + [w])[..|ws|] == ws && (es + [e])[..|es|] == es;
  }

  lemma OneMoreEvent(ws: seq<World>, es: seq<Event>, i: nat) returns (w: World)
    requires i < |es| && IsUiRun(ws, es[..i]) && Orderly(ws[i], es[i..])
    ensures Safe(ws[i].room.game) && w.room == Step(ws[i].room, es[i])
    ensures IsUiRun(ws + [w], es[..i + 1]) && Orderly(w, es[i + 1..])
  {
    hide Step, Record, LegalEvent, UiEvent;
    assert es[i..][0] == es[i] && es[i..][1..] == es[i + 1..] && es[..i + 1] == es[..i] + [es[i]];
    w := World(Step(ws[i].room, es[i]), Record(ws[i].book, ws[i].room, es[i]));
    assert Moves(ws[i], es[i], w);
    OneMoreStep(ws, es[..i], es[i], w);
  }

  lemma NothingSent(ws: seq<World>, es: seq<Event>)
    requires |ws| == 1 && es == [] && Showable(ws[0])
    ensures HostBroadcasts(ws, es) == []
  {
  }

  /** `Run`: one message or tick after the other, and a broadcast after each that asks for
      one.  The room goes through a run, and every view it is asked for is defined. */
  method Run(setup: Setup, bank: seq<Question>, usingCustom: bool, es: seq<Event>)
    returns (room: RoomActor.Room, sent: seq<PlayerState>, ghost ws: seq<World>)
    requires Orderly(Opening(setup, bank, usingCustom), es)
    ensures IsUiRun(ws, es) && ws[0] == Opening(setup, bank, usingCustom)
    ensures room.Valid() && room.Model() == ws[|es|].room
    ensures AllShowable(ws) && sent == HostBroadcasts(ws, es)
  {
    hide Step, Record, Orderly, Moves, UiEvent, Safe, Changed, HostBroadcasts, Showable;
    var state := new GameState.State(setup, bank, usingCustom);
    room := new RoomActor.Room(state);
    sent, ws := [], [Opening(setup, bank, usingCustom)];
    assert es[..0] == [] && es[0..] == es;
    PageRunsAreShowable(ws, es[..0]);
    NothingSent(ws, es[..0]);
    for i := 0 to |es|
      invariant room.Valid() && fresh(room.Repr())
      invariant IsUiRun(ws, es[..i]) && ws[0] == Opening(setup, bank, usingCustom)
      invariant room.Model() == ws[i].room && Orderly(ws[i], es[i..])
      invariant AllShowable(ws) && sent == HostBroadcasts(ws, es[..i])
    {
      ghost var w := OneMoreEvent(ws, es, i);
      assert es[..i + 1] == es[..i] + [es[i]];
      NextBroadcast(ws, es[..i], es[i], w);
      ShowableIs(w);
      var changed := room.Dispatch(es[i]);
      if changed {
        var view := room.state.ToPlayerState("");
        sent := sent + [view];
      }
      ws := ws + [w];
    }
    assert es[..|es|] == es;
  }
}
