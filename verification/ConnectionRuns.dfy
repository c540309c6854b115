/** The connection registry against the players' Connected flags, over every
    interleaving of joins, attaches, detaches and kicks. */
module ConnectionRuns {
  import opened Types
  import opened Roster
  import opened Game
  import opened Actor
  import opened Basis
  import opened Ledger
  import Text
  import Voting

  ghost predicate Listed(ps: seq<PlayerValue>, id: string) {
    exists i :: 0 <= i < |ps| && ps[i].id == id
  }

  /** Each registered connection is a player connection under its own id, of a player who
      exists; a player counts as connected exactly when a connection is registered or a
      join has happened since the last attach or effective detach. */
  ghost predicate RegistryInv(ps: seq<PlayerValue>, conns: map<string, Conn>, joined: set<string>) {
    && (forall id :: id in conns ==> conns[id].role == RolePlayer && conns[id].playerId == id && Listed(ps, id))
    && (forall id :: id in joined ==> Listed(ps, id))
    && (forall i :: 0 <= i < |ps| ==> (ps[i].connected <==> ps[i].id in conns || ps[i].id in joined))
  }

  ghost predicate ConnInv(r: RoomValue, b: Book) {
    !r.stopped ==> RegistryInv(r.game.players, r.players, b.joined)
  }

  ghost predicate SamePresence(ps: seq<PlayerValue>, qs: seq<PlayerValue>) {
    |ps| == |qs| && forall i :: 0 <= i < |ps| ==> ps[i].id == qs[i].id && ps[i].connected == qs[i].connected
  }

  lemma PresenceUnchangedPlay(g: GameValue, op: Op)
    requires Safe(g) && PlayOp(op)
    ensures SamePresence(g.players, Performed(g, op).players)
  {
    hide PushLog, PulledQuestion, PulledDeck, NextAsked, Find;
  }

  lemma PresenceUnchangedDuel(g: GameValue, op: Op)
    requires Safe(g) && DuelOp(op)
    ensures SamePresence(g.players, Performed(g, op).players)
  {
    hide Perform, Performed;
    DuelOpEffect(g, op);
    SamePersonsAgree(g.players, Performed(g, op).players);
  }

  lemma PresenceUnchangedOther(g: GameValue, op: Op)
    requires Safe(g) && (BallotOp(op) || op.PlayAgain? || op.SetQuestionBank? || op.ResetQuestionBank? || op.Rename?)
    ensures SamePresence(g.players, Performed(g, op).players)
  {
    hide PushLog, Voting.SortDesc, Voting.TallyRows, Voting.Tally, Voting.Resolve, Voting.IdsAt, AliveIdx, Find,
         Text.CleanName, NameInUse;
  }

  predicate KeepsPresence(op: Op) {
    PlayOp(op) || DuelOp(op) || BallotOp(op) || op.PlayAgain? || op.SetQuestionBank? || op.ResetQuestionBank?
    || op.Rename?
  }

  lemma PresenceKept(g: GameValue, op: Op)
    requires Safe(g) && KeepsPresence(op)
    ensures SamePresence(g.players, Performed(g, op).players)
  {
    if PlayOp(op) {
      PresenceUnchangedPlay(g, op);
    } else if DuelOp(op) {
      PresenceUnchangedDuel(g, op);
    } else {
      PresenceUnchangedOther(g, op);
    }
  }

  lemma RegistryKeptByPresence(
      ps: seq<PlayerValue>, qs: seq<PlayerValue>, conns: map<string, Conn>, joined: set<string>)
    requires RegistryInv(ps, conns, joined) && SamePresence(ps, qs)
    ensures RegistryInv(qs, conns, joined)
  {
    forall id | Listed(ps, id) ensures Listed(qs, id) {
      var i :| 0 <= i < |ps| && ps[i].id == id;
      assert qs[i].id == id;
    }
  }

  /** A row whose Connected flag is set or cleared, with the registry or the joins to match. */
  lemma RegistryKeptByRow(ps: seq<PlayerValue>, i: nat, p: PlayerValue, conns: map<string, Conn>, joined: set<string>,
                          conns': map<string, Conn>, joined': set<string>)
    requires Ids(ps) && RegistryInv(ps, conns, joined) && i < |ps| && p.id == ps[i].id
    requires forall id :: id in conns' ==> conns'[id].role == RolePlayer && conns'[id].playerId == id
    requires forall id :: id != p.id ==> (id in conns' <==> id in conns) && (id in joined' <==> id in joined)
    requires p.connected <==> p.id in conns' || p.id in joined'
    ensures RegistryInv(ps[i := p], conns', joined')
  {
    var qs := ps[i := p];
    forall id | Listed(ps, id) ensures Listed(qs, id) {
      var k :| 0 <= k < |ps| && ps[k].id == id;
      assert qs[k].id == id;
    }
    assert qs[i].id == p.id;
  }

  lemma RegistryKeptByAppend(ps: seq<PlayerValue>, p: PlayerValue, conns: map<string, Conn>, joined: set<string>)
    requires RegistryInv(ps, conns, joined) && !Listed(ps, p.id)
    ensures RegistryInv(ps + [p], conns, if p.connected then joined + {p.id} else joined)
  {
    var qs := ps + [p];
    assert qs[|ps|] == p;
    forall id | Listed(ps, id) ensures Listed(qs, id) {
      var k :| 0 <= k < |ps| && ps[k].id == id;
      assert qs[k].id == id;
    }
  }

  lemma RegistryKeptByKick(ps: seq<PlayerValue>, i: nat, conns: map<string, Conn>, joined: set<string>)
    requires Ids(ps) && RegistryInv(ps, conns, joined) && i < |ps|
    ensures RegistryInv(ps[..i] + ps[i + 1..], conns - {ps[i].id}, joined - {ps[i].id})
  {
    var qs := ps[..i] + ps[i + 1..];
    forall id | Listed(ps, id) && id != ps[i].id ensures Listed(qs, id) {
      var k :| 0 <= k < |ps| && ps[k].id == id;
      assert qs[if k < i then k else k - 1].id == id;
    }
    forall k | 0 <= k < |qs| ensures qs[k].id != ps[i].id {
      assert qs[k] == ps[if k < i then k else k + 1];
    }
  }

  lemma RegistryRoles(ps: seq<PlayerValue>, conns: map<string, Conn>, joined: set<string>)
    requires RegistryInv(ps, conns, joined)
    ensures forall id :: id in conns ==> conns[id].role == RolePlayer && conns[id].playerId == id
    ensures forall id :: id in conns ==> Find(ps, id).Some? && ps[Find(ps, id).value].connected
  {
  }

  lemma JoinKeepsRegistry(r: RoomValue, b: Book, e: Event)
    requires Base(r.game) && ConnInv(r, b) && !r.stopped && e.JoinRequest? && LegalEvent(r, e)
    ensures ConnInv(Step(r, e), Record(b, r, e))
  {
    hide PushLog, Text.JoinName, Text.DedupeName, NamesOf, RegistryInv, RecordGame, OfflineNamesake;
    var ps := r.game.players;
    match Claimed(r.game, Text.JoinName(e.name), e.rejoinId, e.rejoinToken)
    case Some(i) =>
      var p := ps[i].(connected := true, token := e.newToken);
      RegistryRoles(ps, r.players, b.joined);
      RegistryKeptByRow(ps, i, p, r.players, b.joined, r.players, b.joined + {p.id});
    case None =>
      if r.game.phase == PhaseLobby {
        var final := Text.DedupeName(r.game.setup.fold, Text.JoinName(e.name), NamesOf(ps));
        RegistryKeptByAppend(ps, PlayerValue(e.newId, final, true, 0, 0, true, e.newToken), r.players, b.joined);
      }
  }

  lemma AttachKeepsRegistry(r: RoomValue, b: Book, e: Event)
    requires Base(r.game) && ConnInv(r, b) && !r.stopped && e.AttachRequest?
    ensures ConnInv(Step(r, e), Record(b, r, e))
  {
    hide PushLog, RegistryInv, RecordGame;
    var ps, conn := r.game.players, e.conn;
    RegistryRoles(ps, r.players, b.joined);
    if conn.role == RolePlayer && AttachPlayer(r.game, conn.playerId, e.token, e.now).Some? {
      var i := Find(ps, conn.playerId).value;
      RegistryKeptByRow(ps, i, ps[i].(connected := true), r.players, b.joined,
                        r.players[conn.playerId := conn], b.joined - {conn.playerId});
    }
  }

  lemma DetachEffect(r: RoomValue, b: Book, e: Event)
    requires Safe(r.game) && !r.stopped && e.DetachMsg?
    ensures var s, conn, ps := Step(r, e), e.conn, r.game.players;
      && s.stopped == r.stopped
      && (if conn.role == RolePlayer && Registered(r, conn) then
            && s.players == r.players - {conn.playerId} && Record(b, r, e).joined == b.joined - {conn.playerId}
            && (Find(ps, conn.playerId).Some? ==>
                  var i := Find(ps, conn.playerId).value;
                  s.game.players == if ps[i].connected then ps[i := ps[i].(connected := false)] else ps)
          else s.players == r.players && Record(b, r, e).joined == b.joined && s.game.players == ps)
  {
    hide PushLog, RecordGame, Find;
  }

  lemma DetachKeepsRegistry(r: RoomValue, b: Book, e: Event)
    requires Base(r.game) && ConnInv(r, b) && !r.stopped && e.DetachMsg?
    ensures ConnInv(Step(r, e), Record(b, r, e))
  {
    hide RegistryInv, Find, Step, Record;
    var ps, conn := r.game.players, e.conn;
    RegistryRoles(ps, r.players, b.joined);
    DetachEffect(r, b, e);
    if conn.role == RolePlayer && Registered(r, conn) {
      var i := Find(ps, conn.playerId).value;
      RegistryKeptByRow(ps, i, ps[i].(connected := false), r.players, b.joined,
                        r.players - {conn.playerId}, b.joined - {conn.playerId});
    }
  }

  lemma KickKeepsRegistry(r: RoomValue, b: Book, id: string, now: int)
    requires Base(r.game) && RegistryInv(r.game.players, r.players, b.joined)
    ensures var h := Performed(r.game, KickPlayer(id, now));
      && Perform(r.game, KickPlayer(id, now)) == DoKickPlayer(r.game, id, now)
      && (if DoKickPlayer(r.game, id, now).Some? then RegistryInv(h.players, r.players - {id}, b.joined - {id})
          else h == r.game)
  {
    hide PushLog, RegistryInv;
    var i := Find(r.game.players, id);
    if i.Some? {
      RegistryKeptByKick(r.game.players, i.value, r.players, b.joined);
    }
  }

  lemma AddKeepsRegistry(r: RoomValue, b: Book, name: string, newId: string, now: int)
    requires Base(r.game) && RegistryInv(r.game.players, r.players, b.joined)
    requires Legal(r.game, AddPlayer(name, newId, now))
    ensures RegistryInv(Performed(r.game, AddPlayer(name, newId, now)).players, r.players, b.joined)
  {
    hide PushLog, RegistryInv, Text.CleanName, Text.DedupeName, NamesOf;
    var n := Text.CleanName(if name == "" then "Player" else name);
    var final := Text.DedupeName(r.game.setup.fold, n, NamesOf(r.game.players));
    RegistryKeptByAppend(r.game.players, PlayerValue(newId, final, true, 0, 0, false, ""), r.players, b.joined);
  }

  lemma ControlKeepsRegistry(r: RoomValue, b: Book, e: Event)
    requires Base(r.game) && ConnInv(r, b) && !r.stopped && e.FromController? && LegalEvent(r, e)
    ensures ConnInv(Step(r, e), Record(b, r, e))
  {
    hide RegistryInv, Perform, Performed, Base;
    assert Safe(r.game) by { BaseIsSafe(r.game); }
    var op := OpOf(r, e);
    if op.Some? {
      if op.value.KickPlayer? {
        KickKeepsRegistry(r, b, op.value.id, e.now);
      } else if op.value.AddPlayer? {
        AddKeepsRegistry(r, b, op.value.name, e.newId, e.now);
      } else {
        PresenceKept(r.game, op.value);
        RegistryKeptByPresence(r.game.players, Performed(r.game, op.value).players, r.players, b.joined);
      }
    }
  }

  lemma RegistryKept(r: RoomValue, b: Book, e: Event)
    requires Base(r.game) && ConnInv(r, b) && LegalEvent(r, e)
    ensures ConnInv(Step(r, e), Record(b, r, e))
  {
    hide RegistryInv, Perform, Performed, Base;
    assert Safe(r.game) by { BaseIsSafe(r.game); }
    if !r.stopped {
      var op := OpOf(r, e);
      if e.JoinRequest? {
        JoinKeepsRegistry(r, b, e);
      } else if e.AttachRequest? {
        AttachKeepsRegistry(r, b, e);
      } else if e.DetachMsg? {
        DetachKeepsRegistry(r, b, e);
      } else if e.FromController? {
        ControlKeepsRegistry(r, b, e);
      } else if op.Some? {
        PresenceKept(r.game, op.value);
        RegistryKeptByPresence(r.game.players, Performed(r.game, op.value).players, r.players, b.joined);
      }
    }
  }

  // --- superseded connections ---

  /** The late detach of a connection that is not (or no longer) the live one changes nothing. */
  lemma LateDetachIsSilent(r: RoomValue, conn: Conn, now: int)
    requires Safe(r.game) && conn.role == RolePlayer && !Registered(r, conn)
    ensures Step(r, DetachMsg(conn, now)) == r && !Changed(r, DetachMsg(conn, now))
  {
  }

  /** Once superseded, a connection stays so unless it attaches again. */
  lemma SupersededForGood(r: RoomValue, e: Event, conn: Conn)
    requires Safe(r.game) && !Registered(r, conn)
    requires !(e.AttachRequest? && e.conn == conn)
    ensures !Registered(Step(r, e), conn)
  {
    hide Perform, Performed;
  }
}
