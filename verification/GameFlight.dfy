/** Bullets over whole runs: one cell per move, inside the map, for at most eight moves;
    and a sufficient condition, checked before a move, for the walk to be defined. */
module GameFlight {
  import opened Board
  import opened Ticks
  import opened Rounds
  import opened RoundBoard
  import opened Validation
  import opened GameInvariant
  import opened GameRun
  import opened GameStories
  import G = Game

  /** `t` follows `s` by an accepted move and both are undecided. */
  ghost predicate Played(s: G.GameState, t: G.GameState) {
    s.score == [] && t.score == [] &&
    exists side, md :: Accepted(s, side, md) && Follows(s, side, md, t)
  }

  /** Where an item after a move comes from: one with an old id is what one tick made of the item with that id;
      a new bullet has just left the cell of a gun that was about to fire. */
  ghost predicate Origin(s: G.GameState, z: Item) {
    if z.id < s.nextId then exists y :: y in s.objects && z == Advanced(y)
    else z.BulletItem? ==>
      exists g :: g in s.objects && Armed(g) && z == BulletItem(g.owner, z.id, Ahead(g.pos, g.dir), g.dir)
  }

  /** An action adds at most one object, which is neither a bullet nor about to fire. */
  ghost predicate AddsLittle(s: G.GameState, c: G.Acted) {
    || c.objects == s.objects
    || exists x :: c.objects == s.objects + [x] && x.id == s.nextId && !x.BulletItem? && !Armed(x)
  }

  lemma SourceOrigin(s: G.GameState, c: G.Acted, z: Item)
    requires RoundBoard.Moved(c.objects, c.nextId, z) && s.nextId <= c.nextId && IdsInOrder(s.objects, s.nextId)
    requires AddsLittle(s, c)
    ensures Origin(s, z)
  {
    var y :| Source(c.objects, c.nextId, y) && z == Advanced(y);
    IdsIn(s.objects);
    if y !in c.objects {
      var g :| g in c.objects && Armed(g) && y == BulletItem(g.owner, y.id, g.pos, g.dir);
      assert g in s.objects;
    }
  }

  lemma ActAddsLittle(s: G.GameState, side: Side, md: MoveData)
    ensures AddsLittle(s, G.Act(s, side, md))
  {
  }

  lemma TurnOrigins(s: G.GameState, c: G.Acted, r: Field, t: G.GameState)
    requires Turn(s, c, r, t) && IdsInOrder(s.objects, s.nextId)
    requires AddsLittle(s, c)
    ensures forall z :: z in t.objects ==> Origin(s, z)
  {
    forall z | z in t.objects ensures Origin(s, z) {
      RoundFits(c.arena, c.objects, c.nextId, z);
      SourceOrigin(s, c, z);
    }
  }

  lemma MoveOrigins(s: G.GameState, side: Side, md: MoveData, t: G.GameState)
    requires Inv(s) && Accepted(s, side, md) && Follows(s, side, md, t) && t.score == []
    ensures s.nextId <= t.nextId && forall z :: z in t.objects ==> Origin(s, z)
  {
    MoveIsTurn(s, side, md, t);
    ActAddsLittle(s, side, md);
    TurnOrigins(s, G.Act(s, side, md), G.AfterAct(G.Act(s, side, md)), t);
  }

  lemma PlayedOrigins(s: G.GameState, t: G.GameState)
    requires Inv(s) && Played(s, t)
    ensures Inv(t) && s.nextId <= t.nextId
    ensures forall z :: z in t.objects ==> Origin(s, z)
  {
    var side, md :| Accepted(s, side, md) && Follows(s, side, md, t);
    MoveKeepsInv(s, side, md, t);
    MoveOrigins(s, side, md, t);
  }

  lemma InsideMap(s: G.GameState, x: Item)
    requires Inv(s) && s.score == [] && x in s.objects && x.BulletItem?
    ensures s.arena.InMap(x.pos) && s.arena.width == s.arena.height == G.MAP_SIDE
  {
    assert Fit(s.arena, x);
  }

  lemma BulletOrigin(s: G.GameState, x: Item)
    requires Origin(s, x) && x.BulletItem? && Running(s.arena, s.objects)
    ensures
      if x.id < s.nextId then
        exists y :: y in s.objects && y.BulletItem? && y.id == x.id && y.dir == x.dir && x.pos == Ahead(y.pos, y.dir)
      else
        exists g :: g in s.objects && g.GunItem? && g.ticksToShot == 1 && g.dir == x.dir && x.pos == Ahead(g.pos, g.dir)
  {
    if x.id < s.nextId {
      var y :| y in s.objects && x == Advanced(y);
      assert y.BulletItem?;
    } else {
      var g :| g in s.objects && Armed(g) && x == BulletItem(g.owner, x.id, Ahead(g.pos, g.dir), g.dir);
      assert Fit(s.arena, g);
    }
  }

  /** A bullet after a move is inside the map; it was on the board before, one cell back along its direction,
      or has just left the cell of a gun that stood there before with its countdown at one. */
  lemma BulletStep(s: G.GameState, t: G.GameState, x: Item)
    requires Inv(s) && Played(s, t) && x in t.objects && x.BulletItem?
    ensures t.arena.InMap(x.pos)
    ensures
      if x.id < s.nextId then
        exists y :: y in s.objects && y.BulletItem? && y.id == x.id && y.dir == x.dir && x.pos == Ahead(y.pos, y.dir)
      else
        exists g :: g in s.objects && g.GunItem? && g.ticksToShot == 1 && g.dir == x.dir && x.pos == Ahead(g.pos, g.dir)
  {
    PlayedOrigins(s, t);
    InsideMap(t, x);
    BulletOrigin(s, x);
  }

  /** The cell `k` steps from `p` in direction `d`. */
  function Along(p: Position, d: Direction, k: int): Position {
    match d
    case Up => Position(p.x, p.y - k)
    case Right => Position(p.x + k, p.y)
    case Down => Position(p.x, p.y + k)
    case Left => Position(p.x - k, p.y)
  }

  /** A stretch of a run: undecided states, each reached from the one before by an accepted move. */
  ghost predicate Stretch(states: seq<G.GameState>) {
    && states != [] && Inv(states[0]) && states[0].score == []
    && forall i :: 0 <= i < |states| - 1 ==> Played(states[i], states[i + 1])
  }

  ghost predicate Link(s: G.GameState, t: G.GameState) {
    forall z :: z in t.objects ==> Origin(s, z)
  }

  /** What the flight of a bullet needs of a stretch. */
  ghost predicate Linked(states: seq<G.GameState>) {
    && states != []
    && Unique(states[0].objects) && Below(Ids(states[0].objects), states[0].nextId)
    && (forall i :: 0 <= i < |states| ==> states[0].nextId <= states[i].nextId)
    && forall i :: 0 <= i < |states| - 1 ==> Link(states[i], states[i + 1])
  }

  lemma LinkOne(states: seq<G.GameState>)
    requires |states| > 1 && Linked(states[..|states| - 1])
    requires states[|states| - 2].nextId <= states[|states| - 1].nextId
    requires Link(states[|states| - 2], states[|states| - 1])
    ensures Linked(states)
  {
    var front := states[..|states| - 1];
    assert forall i :: 0 <= i < |front| ==> front[i] == states[i];
    forall i | 0 <= i < |states| ensures states[0].nextId <= states[i].nextId {
      assert i < |front| ==> front[0].nextId <= front[i].nextId;
      assert front[0].nextId <= front[|front| - 1].nextId;
    }
    forall i | 0 <= i < |states| - 1 ensures Link(states[i], states[i + 1]) {
      if i + 1 < |front| {
        assert Link(front[i], front[i + 1]);
      }
    }
  }

  lemma {:induction false} StretchLinks(states: seq<G.GameState>)
    requires Stretch(states)
    ensures Linked(states) && Inv(states[0]) && states[0].score == []
    ensures Inv(states[|states| - 1]) && states[|states| - 1].score == []
    decreases |states|
  {
    var n := |states|;
    if n <= 1 {
    } else {
      var front := states[..n - 1];
      assert Stretch(front) by {
        forall i | 0 <= i < |front| - 1 ensures Played(front[i], front[i + 1]) {
          assert Played(states[i], states[i + 1]);
        }
      }
      StretchLinks(front);
      assert Played(states[n - 2], states[n - 2 + 1]);
      PlayedOrigins(states[n - 2], states[n - 1]);
      LinkOne(states);
    }
  }

  /** The item with the id of `x` in the state before. */
  lemma EarlierSelf(states: seq<G.GameState>, x: Item, k: nat, z: Item) returns (y: Item)
    requires Linked(states) && 0 < k < |states|
    requires x in states[0].objects && z in states[k].objects && z.id == x.id
    ensures y in states[k - 1].objects && y.id == x.id && z == Advanced(y)
  {
    assert Link(states[k - 1], states[k - 1 + 1]);
    assert Origin(states[k - 1], z);
    IdsIn(states[0].objects);
    y :| y in states[k - 1].objects && z == Advanced(y);
  }

  lemma {:induction false} LinkedFlight(states: seq<G.GameState>, x: Item, k: nat, z: Item)
    requires Linked(states) && k < |states|
    requires x in states[0].objects && x.BulletItem?
    requires z in states[k].objects && z.id == x.id
    ensures z.BulletItem? && z.dir == x.dir && z.pos == Along(x.pos, x.dir, k)
    decreases k
  {
    if k == 0 {
      SameItem(states[0].objects, x, z);
    } else {
      var y := EarlierSelf(states, x, k, z);
      LinkedFlight(states, x, k - 1, y);
    }
  }

  /** A bullet seen in two states of a stretch is exactly as many cells further along its fixed direction
      as there are moves between them. */
  lemma Flight(states: seq<G.GameState>, x: Item, k: nat, z: Item)
    requires Stretch(states) && k < |states|
    requires x in states[0].objects && x.BulletItem?
    requires z in states[k].objects && z.id == x.id
    ensures z.BulletItem? && z.dir == x.dir && z.pos == Along(x.pos, x.dir, k)
  {
    StretchLinks(states);
    LinkedFlight(states, x, k, z);
  }

  lemma AlongFits(p: Position, d: Direction, k: nat, q: Position)
    requires 0 <= p.x < G.MAP_SIDE && 0 <= p.y < G.MAP_SIDE && 0 <= q.x < G.MAP_SIDE && 0 <= q.y < G.MAP_SIDE
    requires q == Along(p, d, k)
    ensures k < G.MAP_SIDE
  {
  }

  /** Both ends of a flight of `k` cells are on the map only if `k` is less than its side. */
  lemma FlightFits(x: Item, k: nat, s: G.GameState, t: G.GameState, z: Item)
    requires Inv(s) && Inv(t) && s.score == [] && t.score == []
    requires x in s.objects && z in t.objects && x.BulletItem? && z.BulletItem?
    requires z.pos == Along(x.pos, x.dir, k)
    ensures k < G.MAP_SIDE
  {
    InsideMap(s, x);
    InsideMap(t, z);
    AlongFits(x.pos, x.dir, k, z.pos);
  }

  /** No bullet is on the board after more than eight consecutive moves: eight is the side of the map. */
  lemma BulletLifetime(states: seq<G.GameState>, x: Item)
    requires Stretch(states) && x in states[0].objects && x.BulletItem?
    requires x.id in Ids(states[|states| - 1].objects)
    ensures |states| <= G.MAP_SIDE
  {
    var k := |states| - 1;
    IdsIn(states[k].objects);
    var z :| z in states[k].objects && z.id == x.id;
    Flight(states, x, k, z);
    StretchLinks(states);
    FlightFits(x, k, states[0], states[k], z);
  }

  // ---------- moves whose walk is defined ----------

  /** The walk over a list is defined if no two shots aim at the same cell, or if a resignation
      leaves at most one tick. */
  lemma TargetsDefineWalk(a: Arena, objects: seq<Item>, n: ActorId, score: seq<Side>)
    requires IdsInOrder(objects, n) && (score != [] || TargetsDiffer(objects))
    ensures TraverseSafe(a, Start(objects, n, score))
  {
    var f := Start(objects, n, score);
    assert f.All() == objects;
    if score == [] {
      TargetsMakeSafe(a, f);
      TraverseIsRound(a, f);
    }
  }

  lemma WalkLostExactly(a: Arena, objects: seq<Item>, n: ActorId, score: seq<Side>)
    requires IdsInOrder(objects, n)
    ensures var f := Start(objects, n, score);
      !TraverseSafe(a, f) <==> score == [] && exists g :: Reaches(a, f, g) && StepsOnPrev(a, g)
  {
    var f := Start(objects, n, score);
    assert f.All() == objects;
    if score == [] {
      RoundLostExactly(a, f);
      TraverseIsRound(a, f);
    } else if f.todo != [] {
      assert Step(a, f).score != [];
    }
  }

  /** Exactly the accepted moves that are not completed: no resignation, and at some point of the worklist after the
      action a bullet steps, inside the map, on the bullet that is the last survivor. */
  lemma MoveLostExactly(s: G.GameState, side: Side, md: MoveData)
    requires Inv(s) && Accepted(s, side, md)
    ensures var c := G.Act(s, side, md);
      G.Accept(s, side, md).PrevErased? <==>
        md.moveType != Resign && exists g :: Reaches(c.arena, G.Pending(c), g) && StepsOnPrev(c.arena, g)
  {
    var c := G.Act(s, side, md);
    MoveLogs(s, side, md);
    AcceptedSane(s, side, md);
    AcceptedActs(s, side, md);
    WalkLostExactly(c.arena, c.objects, c.nextId, c.score);
  }

  /** A move after whose action no two shots aim at the same cell is completed: the walk never loses `prev`. */
  lemma TargetsDefineMove(s: G.GameState, side: Side, md: MoveData)
    requires Inv(s) && Accepted(s, side, md)
    requires md.moveType == Resign || TargetsDiffer(G.Act(s, side, md).objects)
    ensures G.Accept(s, side, md).Playing?
  {
    var c := G.Act(s, side, md);
    MoveLogs(s, side, md);
    AcceptedSane(s, side, md);
    TargetsDefineWalk(c.arena, c.objects, c.nextId, c.score);
  }

  /** In a reachable state whose guns and bullets all face one way, every accepted move that does not place a gun
      facing another way is completed. */
  lemma OneDirectionDefinesMove(s: G.GameState, side: Side, md: MoveData, d: Direction)
    requires Inv(s) && Accepted(s, side, md)
    requires forall x :: x in s.objects && !x.BombItem? ==> x.dir == d
    requires md.moveType == PlaceGun ==> md.direction == d
    ensures G.Accept(s, side, md).Playing?
  {
    var c := G.Act(s, side, md);
    AcceptedActs(s, side, md);
    OneDirectionTargets(c.objects, d);
    TargetsDefineMove(s, side, md);
  }
}
