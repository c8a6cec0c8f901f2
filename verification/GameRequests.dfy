/** What a request does for the player who sent it, and the map on which a game starts. */
module GameRequests {
  import opened Board
  import opened EventLog
  import opened Validation
  import opened GameInvariant
  import opened GameRun
  import G = Game

  /** The sender of a request: the first player by login, anyone else counts as the second. */
  ghost predicate Sends(a: Arena, login: Login, side: Side) {
    login == a.first.login <==> side == First
  }

  /** Nothing stands on the cell. */
  ghost predicate Vacant(s: GameState, q: Position) {
    && s.arena.first.pos != q && s.arena.second.pos != q
    && (forall w :: w in s.arena.walls ==> w.pos != q)
    && (forall x :: x in s.objects ==> x.pos != q)
  }

  /** A resignation is always allowed; in turn, a walk to a vacant cell next to the player in the same row or column,
      and a placement on a vacant cell of the eight around the player. */
  ghost predicate Allowed(s: GameState, side: Side, md: MoveData) {
    var p, q := s.arena.At(side).pos, md.position;
    match md.moveType
    case Resign => true
    case Walk =>
      && s.nowTurn == s.arena.At(side).login && Vacant(s, q)
      && ((q.x == p.x && (q.y == p.y - 1 || q.y == p.y + 1)) || (q.y == p.y && (q.x == p.x - 1 || q.x == p.x + 1)))
    case _ =>
      && s.nowTurn == s.arena.At(side).login && Vacant(s, q)
      && p.x - 1 <= q.x <= p.x + 1 && p.y - 1 <= q.y <= p.y + 1
  }

  lemma NextInLine(p: Position, q: Position)
    ensures (exists d :: q == Ahead(p, d)) <==>
      (q.x == p.x && (q.y == p.y - 1 || q.y == p.y + 1)) || (q.y == p.y && (q.x == p.x - 1 || q.x == p.x + 1))
  {
    assert q == Position(p.x, p.y - 1) ==> q == Ahead(p, Up);
    assert q == Position(p.x, p.y + 1) ==> q == Ahead(p, Down);
    assert q == Position(p.x - 1, p.y) ==> q == Ahead(p, Left);
    assert q == Position(p.x + 1, p.y) ==> q == Ahead(p, Right);
  }

  /** A request is answered for its sender, in every state: accepted exactly if it is allowed, refused as out of turn
      exactly if it is no resignation and the sender is not in turn, and otherwise as a wrong move. A refused request
      changes nothing. */
  lemma RequestAnswered(s: GameState, side: Side, login: Login, md: MoveData)
    requires Sends(s.arena, login, side)
    ensures var (status, o) := G.ApiMove(s, login, md);
      && (status == Ok <==> Allowed(s, side, md))
      && (status == NotYourMove <==> md.moveType != Resign && s.nowTurn != s.arena.At(side).login)
      && (status != Ok ==> o == G.Playing(s))
  {
    AcceptedExactly(s.arena, s.objects, s.nowTurn, side, md);
    NextInLine(s.arena.At(side).pos, md.position);
  }

  /** The entry with which the log tells the action. */
  function ActionEntry(s: GameState, side: Side, md: MoveData): Event {
    var n, id := s.moveNumber + 1, s.arena.At(side).id;
    match md.moveType
    case Walk => Event(n, id, PlayerWalk, Positioned(md.position))
    case Resign => Event(n, id, PlayerResign, Nothing)
    case PlaceBomb => Event(n, id, PlayerPlaceBomb, NewObject(md.position, s.nextId))
    case PlaceGun => Event(n, id, PlayerPlaceGun, NewDirObject(md.position, s.nextId, md.direction))
  }

  /** What an accepted and completed request of `side` leads to. */
  ghost predicate ActsFor(s: GameState, side: Side, md: MoveData, t: GameState) {
    var me, other := s.arena.At(side), s.arena.At(Other(side));
    && t.moveNumber == s.moveNumber + 1
    && s.log.value < t.log.value
    && t.log.value[|s.log.value|] == ActionEntry(s, side, md)
    && t.arena.At(side) == (if md.moveType == Walk then me.(pos := md.position) else me)
    && t.arena.At(Other(side)) == other
    && t.arena.walls == s.arena.walls && t.arena.width == s.arena.width && t.arena.height == s.arena.height
    && (md.moveType == Resign ==> |t.score| >= 2 && t.score[0] == Other(side) && t.score[1] == side)
    && t.nowTurn ==
       if t.score != [] then s.nowTurn
       else if s.nowTurn == s.arena.first.login then s.arena.second.login else s.arena.first.login
  }

  lemma EntryOfAction(s: GameState, side: Side, md: MoveData)
    ensures Stamp(G.Act(s, side, md).event, s.moveNumber + 1) == ActionEntry(s, side, md)
  {
  }

  lemma FollowedActs(s: GameState, side: Side, md: MoveData, t: GameState)
    requires Ground(s.arena) && s.score == [] && Follows(s, side, md, t)
    ensures ActsFor(s, side, md, t)
  {
    var c := G.Act(s, side, md);
    var es := G.MoveEvents(c, G.AfterAct(c));
    assert es[0] == c.event;
    assert t.log.value[|s.log.value|] == Stamp(c.event, s.moveNumber + 1);
    EntryOfAction(s, side, md);
    assert s.score + Verdict(side) == [Other(side), side];
    ScoreStays(c.arena, G.Pending(c));
  }

  /** An accepted request acts for its sender: the first new entry of the log tells the sender's action, only a walk
      moves the sender, the other player stays, a resigning sender has lost, and the turn passes unless the game is
      decided. */
  lemma RequestActs(s: GameState, side: Side, login: Login, md: MoveData)
    requires Inv(s) && s.score == [] && Sends(s.arena, login, side)
    ensures var (status, o) := G.ApiMove(s, login, md);
      status == Ok && o.Playing? ==> ActsFor(s, side, md, o.state)
  {
    var (status, o) := G.ApiMove(s, login, md);
    if status == Ok && o.Playing? {
      MoveLogs(s, side, md);
      FollowedActs(s, side, md, o.state);
    }
  }

  // ---------- the starting map ----------

  /** The cell opposite to `p` on the map. */
  function Opposite(p: Position): Position {
    Position(7 - p.x, 7 - p.y)
  }

  /** A wall or a player is on the cell. */
  ghost predicate Blocked(a: Arena, p: Position) {
    a.first.pos == p || a.second.pos == p || exists w :: w in a.walls && w.pos == p
  }

  lemma WallCells(a: Arena, p: Position)
    requires a.walls == G.WALLS
    ensures (exists w :: w in a.walls && w.pos == p) <==> p in {
      Position(0, 2), Position(3, 2), Position(4, 3), Position(6, 3),
      Position(1, 4), Position(3, 4), Position(4, 5), Position(7, 5)}
  {
    var ws := a.walls;
    assert ws[0] in ws && ws[1] in ws && ws[2] in ws && ws[3] in ws;
    assert ws[4] in ws && ws[5] in ws && ws[6] in ws && ws[7] in ws;
  }

  /** A game starts, the first player to move, on an empty map of 8 by 8 cells which looks the same from both sides:
      the blocked cells are the two players' and eight walls, all on the map, and each faces another one of its kind.
      Players have the ids 0 and 1, walls 2 to 9. */
  lemma StartsFair(l1: Login, l2: Login)
    ensures var s := G.Init(l1, l2);
      && s.objects == [] && s.score == [] && s.log.value == [] && s.moveNumber == 0 && s.nowTurn == l1
      && s.arena.width == 8 && s.arena.height == 8
      && s.arena.first == PlayerValue(0, l1, Position(4, 1)) && s.arena.second == PlayerValue(1, l2, Position(3, 6))
      && (forall p :: Blocked(s.arena, p) <==> p in {
            Position(4, 1), Position(3, 6), Position(0, 2), Position(3, 2), Position(4, 3), Position(6, 3),
            Position(1, 4), Position(3, 4), Position(4, 5), Position(7, 5)})
      && |s.arena.walls| == 8 && (forall i :: 0 <= i < 8 ==> s.arena.walls[i].id == 2 + i) && s.nextId == 10
      && (forall p :: Blocked(s.arena, p) ==> 0 <= p.x < 8 && 0 <= p.y < 8 && Blocked(s.arena, Opposite(p)))
      && s.arena.second.pos == Opposite(s.arena.first.pos)
  {
    var a := G.Init(l1, l2).arena;
    forall p ensures Blocked(a, p) <==> p in {
      Position(4, 1), Position(3, 6), Position(0, 2), Position(3, 2), Position(4, 3), Position(6, 3),
      Position(1, 4), Position(3, 4), Position(4, 5), Position(7, 5)}
    {
      WallCells(a, p);
    }
  }
}
