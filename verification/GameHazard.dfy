/** A run from `Init` in which the walk over the objects reads an erased list node:
    two guns placed one move apart shoot at the same cell, and the second bullet, appended just behind the first,
    steps on it right after it has moved there. */
module GameHazard {
  import opened Board
  import opened Ticks
  import opened Rounds
  import opened RoundBoard
  import opened Validation
  import opened GameInvariant
  import opened GameRun
  import G = Game

  /** The two halves of the list of an undecided round. */
  predicate Sits(f: Field, done: seq<Item>, todo: seq<Item>, nextId: ActorId) {
    f.done == done && f.todo == todo && f.nextId == nextId && f.score == []
  }

  /** One tick that keeps `prev` leads from `f` to `g`. */
  predicate Goes(a: Arena, f: Field, g: Field) {
    f.todo != [] && f.score == [] && PrevKept(a, f) && g == Step(a, f)
  }

  lemma Onward(a: Arena, f: Field, g: Field)
    requires Goes(a, f, g)
    ensures Round(a, f) == Round(a, g) && (RoundSafe(a, f) <==> RoundSafe(a, g))
    ensures f.done == [] ==> Traverse(a, f) == Round(a, g) && (TraverseSafe(a, f) <==> RoundSafe(a, g))
  {
  }

  lemma KeepNone(s: seq<Item>)
    ensures Keep(s, {}) == s
  {
    KeepAll(s, {});
  }

  lemma GunWaits(a: Arena, f: Field, done: seq<Item>, x: Item, rest: seq<Item>, n: ActorId)
    requires x.GunItem? && x.ticksToShot > 1
    requires Sits(f, done, [x] + rest, n)
    ensures Goes(a, f, Step(a, f))
    ensures Sits(Step(a, f), done + [x.(ticksToShot := x.ticksToShot - 1)], rest, n)
  {
    KeepNone(done);
    KeepNone(rest);
    assert f.todo[1..] == rest;
  }

  lemma GunFires(a: Arena, f: Field, done: seq<Item>, x: Item, rest: seq<Item>, n: ActorId)
    requires x.GunItem? && x.ticksToShot == 1 && x.shotsLeft > 1
    requires Sits(f, done, [x] + rest, n)
    ensures Goes(a, f, Step(a, f))
    ensures Sits(Step(a, f), done + [x.(ticksToShot := GUN_COOLDOWN, shotsLeft := x.shotsLeft - 1)],
                 rest + [BulletItem(x.owner, n, x.pos, x.dir)], n + 1)
  {
    KeepNone(done);
    KeepNone(rest);
    assert f.todo[1..] == rest;
  }

  lemma {:induction false} NothingMet(a: Arena, s: seq<Item>, p: Position, self: ActorId)
    requires Free(a, s, p)
    ensures Collisions(a, s, p, self) == []
  {
    if s == [] {
    } else {
      NothingMet(a, s[1..], p, self);
    }
  }

  lemma BulletFlies(a: Arena, f: Field, done: seq<Item>, x: Item, rest: seq<Item>, n: ActorId)
    requires x.BulletItem? && Sits(f, done, [x] + rest, n)
    requires a.InMap(Ahead(x.pos, x.dir)) && Free(a, done + ([x] + rest), Ahead(x.pos, x.dir))
    ensures Goes(a, f, Step(a, f))
    ensures Sits(Step(a, f), done + [x.(pos := Ahead(x.pos, x.dir))], rest, n)
  {
    KeepNone(done);
    KeepNone(rest);
    assert f.todo[1..] == rest;
    NothingMet(a, f.All(), Ahead(x.pos, x.dir), x.id);
  }

  function ArenaWith(login1: Login, login2: Login, p: Position, q: Position): Arena {
    Arena(PlayerValue(0, login1, p), PlayerValue(1, login2, q), G.WALLS, G.MAP_SIDE, G.MAP_SIDE)
  }

  /** The undecided state whose players stand on `p` and `q`, with these objects, and `side` in turn. */
  ghost predicate Scene(s: GameState, login1: Login, login2: Login, p: Position, q: Position,
                        objects: seq<Item>, nextId: ActorId, side: Side) {
    && Inv(s) && s.score == []
    && s.arena == ArenaWith(login1, login2, p, q)
    && s.objects == objects && s.nextId == nextId
    && s.nowTurn == s.arena.At(side).login
  }

  lemma ServesInTurn(s: GameState, side: Side, md: MoveData)
    requires Ground(s.arena) && s.score == [] && s.nowTurn == s.arena.At(side).login
    requires Validate(s.arena, s.objects, s.nowTurn, s.arena.At(side), md) == Ok
    ensures Accepted(s, side, md) && G.Serve(s, G.Request(s.nowTurn, md)) == G.Accept(s, side, md)
  {
  }

  /** An accepted move whose walk is defined and leaves the field `r`, undecided. */
  lemma Completes(s: GameState, side: Side, md: MoveData, c: G.Acted, r: Field) returns (t: GameState)
    requires Inv(s) && Accepted(s, side, md) && c == G.Act(s, side, md)
    requires TraverseSafe(c.arena, G.Pending(c)) && r == Traverse(c.arena, G.Pending(c))
    ensures G.Accept(s, side, md) == G.Playing(t) && Inv(t) && t == G.Moved(s, c, r, t.log)
  {
    MoveLogs(s, side, md);
    t := G.Accept(s, side, md).state;
    MoveKeepsInv(s, side, md, t);
  }

  lemma TurnPasses(s: GameState, side: Side, md: MoveData, c: G.Acted)
    requires Ground(s.arena) && c == G.Act(s, side, md) && s.nowTurn == s.arena.At(side).login
    ensures G.OtherTurn(c.arena, s.nowTurn) == c.arena.At(Other(side)).login
  {
  }

  /** The action is `c`, its walk is defined and leaves the objects `left`. */
  predicate Leaves(s: GameState, side: Side, md: MoveData, c: G.Acted, left: seq<Item>, n: ActorId) {
    && Validate(s.arena, s.objects, s.arena.At(side).login, s.arena.At(side), md) == Ok && c == G.Act(s, side, md)
    && TraverseSafe(c.arena, G.Pending(c)) && Sits(Traverse(c.arena, G.Pending(c)), left, [], n)
  }

  /** A valid request by the player in turn, whose walk is defined and leaves the objects `left`. */
  lemma Turned(s: GameState, side: Side, md: MoveData, c: G.Acted, left: seq<Item>, n: ActorId) returns (t: GameState)
    requires Inv(s) && s.score == [] && s.nowTurn == s.arena.At(side).login
    requires Leaves(s, side, md, c, left, n)
    ensures G.Serve(s, G.Request(s.nowTurn, md)) == G.Playing(t)
    ensures Inv(t) && t.score == [] && t.objects == left && t.nextId == n
    ensures t.arena == c.arena && t.nowTurn == c.arena.At(Other(side)).login
  {
    ServesInTurn(s, side, md);
    var r := Traverse(c.arena, G.Pending(c));
    t := Completes(s, side, md, c, r);
    TurnPasses(s, side, md, c);
  }

  // ---------- the run ----------

  /** A gun that has not fired yet. */
  function Gun(login: Login, id: ActorId, p: Position, d: Direction, ticks: nat): Item {
    GunItem(login, id, p, d, ticks, GUN_SHOTS)
  }

  function WalkTo(p: Position): MoveData {
    MoveData(Walk, p, Up)
  }

  const MOVE1 := WalkTo(Position(5, 1))
  const MOVE2 := WalkTo(Position(4, 6))
  const MOVE3 := MoveData(PlaceGun, Position(5, 2), Down)
  const MOVE4 := MoveData(PlaceGun, Position(5, 5), Up)
  const MOVE5 := WalkTo(Position(6, 1))
  const MOVE6 := WalkTo(Position(4, 7))

  /** The six requests, by turns. */
  function Requests(login1: Login, login2: Login): seq<G.Request> {
    [ G.Request(login1, MOVE1), G.Request(login2, MOVE2), G.Request(login1, MOVE3),
      G.Request(login2, MOVE4), G.Request(login1, MOVE5), G.Request(login2, MOVE6) ]
  }

  /** The objects after the third, fourth and fifth move. */
  function Objects3(l1: Login): seq<Item> {
    [Gun(l1, 10, Position(5, 2), Down, 2)]
  }

  function Objects4(l1: Login, l2: Login): seq<Item> {
    [Gun(l1, 10, Position(5, 2), Down, 1), Gun(l2, 11, Position(5, 5), Up, 2)]
  }

  function Objects5(l1: Login, l2: Login): seq<Item> {
    [ GunItem(l1, 10, Position(5, 2), Down, 3, 2), Gun(l2, 11, Position(5, 5), Up, 1),
      BulletItem(l1, 12, Position(5, 3), Down) ]
  }

  /** The round of the third move: the first gun waits. */
  lemma Round3(a: Arena, l1: Login, f: Field)
    requires Sits(f, [], [Gun(l1, 10, Position(5, 2), Down, 3)], 11)
    ensures TraverseSafe(a, f) && Sits(Traverse(a, f), Objects3(l1), [], 11)
  {
    var x := Gun(l1, 10, Position(5, 2), Down, 3);
    assert [x] == [x] + [];
    GunWaits(a, f, [], x, [], 11);
    Onward(a, f, Step(a, f));
  }

  /** The round of the fourth move: both guns wait. */
  lemma Round4(a: Arena, l1: Login, l2: Login, f: Field)
    requires Sits(f, [], Objects3(l1) + [Gun(l2, 11, Position(5, 5), Up, 3)], 12)
    ensures TraverseSafe(a, f) && Sits(Traverse(a, f), Objects4(l1, l2), [], 12)
  {
    var x, y := Objects3(l1)[0], Gun(l2, 11, Position(5, 5), Up, 3);
    assert [y] == [y] + [];
    GunWaits(a, f, [], x, [y], 12);
    var g := Step(a, f);
    GunWaits(a, g, g.done, y, [], 12);
    Onward(a, f, g);
    Onward(a, g, Step(a, g));
  }

  predicate OnWalls(a: Arena, p: Position, q: Position) {
    a.walls == G.WALLS && a.width == a.height == G.MAP_SIDE && a.first.pos == p && a.second.pos == q
  }

  /** Nothing is in the way of the first bullet. */
  lemma Passes(a: Arena, s: seq<Item>, p: Position, q: Position)
    requires OnWalls(a, Position(6, 1), q) && q in {Position(4, 6), Position(4, 7)}
    requires p in {Position(5, 3), Position(5, 4)}
    requires forall x :: x in s ==> x.pos != p
    ensures a.InMap(p) && Free(a, s, p)
  {
  }

  lemma FiresThenWaits(a: Arena, f: Field, x: Item, y: Item, x2: Item, y2: Item, n: ActorId, shot: Item)
    returns (g: Field)
    requires x.GunItem? && x.ticksToShot == 1 && x.shotsLeft > 1 && y.GunItem? && y.ticksToShot > 1
    requires Sits(f, [], [x] + [y], n) && shot == BulletItem(x.owner, n, x.pos, x.dir)
    requires x2 == x.(ticksToShot := GUN_COOLDOWN, shotsLeft := x.shotsLeft - 1)
    requires y2 == y.(ticksToShot := y.ticksToShot - 1)
    ensures Sits(g, [x2, y2], [shot], n + 1)
    ensures Traverse(a, f) == Round(a, g) && (TraverseSafe(a, f) <==> RoundSafe(a, g))
  {
    GunFires(a, f, [], x, [y], n);
    var h := Step(a, f);
    GunWaits(a, h, h.done, y, [shot], n + 1);
    g := Step(a, h);
    Onward(a, f, h);
    Onward(a, h, g);
  }

  lemma Shot5(a: Arena, f: Field, done: seq<Item>, shot: Item, moved: Item)
    requires OnWalls(a, Position(6, 1), Position(4, 6)) && Sits(f, done, [shot], 13)
    requires forall z :: z in done ==> z.pos in {Position(5, 2), Position(5, 5)}
    requires shot == BulletItem(shot.owner, 12, Position(5, 2), Down)
    requires moved == BulletItem(shot.owner, 12, Position(5, 3), Down)
    ensures RoundSafe(a, f) && Sits(Round(a, f), done + [moved], [], 13)
  {
    assert [shot] == [shot] + [];
    Passes(a, done + ([shot] + []), Position(5, 3), Position(4, 6));
    BulletFlies(a, f, done, shot, [], 13);
    Onward(a, f, Step(a, f));
  }

  lemma FiresWaitsFlies(a: Arena, f: Field, x: Item, y: Item, x2: Item, y2: Item, shot: Item, moved: Item)
    requires OnWalls(a, Position(6, 1), Position(4, 6)) && Sits(f, [], [x, y], 12)
    requires x.GunItem? && x.ticksToShot == 1 && x.shotsLeft > 1 && y.GunItem? && y.ticksToShot > 1
    requires x2 == x.(ticksToShot := GUN_COOLDOWN, shotsLeft := x.shotsLeft - 1)
    requires y2 == y.(ticksToShot := y.ticksToShot - 1)
    requires x.pos == Position(5, 2) && y.pos == Position(5, 5)
    requires shot == BulletItem(x.owner, 12, x.pos, x.dir) && x.dir == Down
    requires moved == BulletItem(x.owner, 12, Position(5, 3), Down)
    ensures TraverseSafe(a, f) && Sits(Traverse(a, f), [x2, y2, moved], [], 13)
  {
    assert [x, y] == [x] + [y] && [x2, y2, moved] == [x2, y2] + [moved];
    var g := FiresThenWaits(a, f, x, y, x2, y2, 12, shot);
    Shot5(a, g, [x2, y2], shot, moved);
  }

  /** The round of the fifth move: the first gun fires and its bullet moves down. */
  lemma Round5(a: Arena, l1: Login, l2: Login, f: Field)
    requires OnWalls(a, Position(6, 1), Position(4, 6)) && Sits(f, [], Objects4(l1, l2), 12)
    ensures TraverseSafe(a, f) && Sits(Traverse(a, f), Objects5(l1, l2), [], 13)
  {
    var s, t := Objects4(l1, l2), Objects5(l1, l2);
    FiresWaitsFlies(a, f, s[0], s[1], t[0], t[1], BulletItem(l1, 12, Position(5, 2), Down), t[2]);
  }

  lemma WaitsThenFires(a: Arena, f: Field, x: Item, y: Item, z: Item, n: ActorId) returns (g: Field)
    requires x.GunItem? && x.ticksToShot > 1 && y.GunItem? && y.ticksToShot == 1 && y.shotsLeft > 1
    requires Sits(f, [], [x] + ([y] + [z]), n)
    ensures Sits(g, g.done, [z] + [BulletItem(y.owner, n, y.pos, y.dir)], n + 1)
    ensures forall w :: w in g.done ==> w.pos in {x.pos, y.pos}
    ensures TraverseSafe(a, f) <==> RoundSafe(a, g)
  {
    GunWaits(a, f, [], x, [y] + [z], n);
    var h := Step(a, f);
    GunFires(a, h, h.done, y, [z], n);
    g := Step(a, h);
    Onward(a, f, h);
    Onward(a, h, g);
  }

  lemma FirstFlies6(a: Arena, f: Field, done: seq<Item>, x: Item, y: Item, x2: Item) returns (g: Field)
    requires OnWalls(a, Position(6, 1), Position(4, 7)) && Sits(f, done, [x] + [y], 14)
    requires forall z :: z in done ==> z.pos in {Position(5, 2), Position(5, 5)}
    requires x == BulletItem(x.owner, 12, Position(5, 3), Down) && x2 == x.(pos := Position(5, 4))
    requires y.pos == Position(5, 5)
    ensures Goes(a, f, g) && Sits(g, done + [x2], [y], 14)
  {
    Passes(a, done + ([x] + [y]), Position(5, 4), Position(4, 7));
    BulletFlies(a, f, done, x, [y], 14);
    g := Step(a, f);
  }

  lemma HitsPrev(a: Arena, f: Field, x: Item, prev: Item)
    requires f.todo == [x] && f.done != [] && f.done[|f.done| - 1] == prev && f.score == []
    requires x.BulletItem? && prev.BulletItem? && x.id != prev.id
    requires prev.pos == Ahead(x.pos, x.dir) && a.InMap(prev.pos)
    ensures !RoundSafe(a, f)
  {
    assert f.All()[|f.done| - 1] == prev;
    HitCell(a, f.All(), x, prev);
  }

  lemma Shots6(a: Arena, f: Field, done: seq<Item>, x: Item, y: Item, x2: Item)
    requires OnWalls(a, Position(6, 1), Position(4, 7)) && Sits(f, done, [x] + [y], 14)
    requires forall z :: z in done ==> z.pos in {Position(5, 2), Position(5, 5)}
    requires x == BulletItem(x.owner, 12, Position(5, 3), Down) && x2 == BulletItem(x.owner, 12, Position(5, 4), Down)
    requires y == BulletItem(y.owner, 13, Position(5, 5), Up)
    ensures !RoundSafe(a, f)
  {
    var g := FirstFlies6(a, f, done, x, y, x2);
    HitsPrev(a, g, y, x2);
    Onward(a, f, g);
  }

  /** The round of the sixth move: the second gun fires; the first bullet moves on, and the second one steps on it. */
  lemma Round6(a: Arena, l1: Login, l2: Login, f: Field)
    requires OnWalls(a, Position(6, 1), Position(4, 7)) && Sits(f, [], Objects5(l1, l2), 13)
    ensures !TraverseSafe(a, f)
  {
    var s := Objects5(l1, l2);
    var x, y, z := s[0], s[1], s[2];
    assert s == [x] + ([y] + [z]);
    var g := WaitsThenFires(a, f, x, y, z, 13);
    Shots6(a, g, g.done, z, BulletItem(l2, 13, Position(5, 5), Up), BulletItem(l1, 12, Position(5, 4), Down));
  }

  /** The requests `rs` after `k` of them lead from `s0` to the state `t`. */
  ghost predicate Leads(s0: GameState, rs: seq<G.Request>, k: nat, t: GameState) {
    k <= |rs| && G.Play(s0, rs[..k]) == G.Playing(t)
  }

  /** The next request served. */
  lemma ThenServe(s0: GameState, rs: seq<G.Request>, k: nat, s: GameState, r: G.Request, o: G.Outcome)
    requires k < |rs| && Leads(s0, rs, k, s) && rs[k] == r && G.Serve(s, r) == o
    ensures G.Play(s0, rs[..k + 1]) == o
  {
    assert rs[..k + 1][..k] == rs[..k];
  }

  /** What is needed of a state to know what the next action does. */
  predicate Before(s: GameState, l1: Login, l2: Login, p: Position, q: Position, objects: seq<Item>, n: ActorId) {
    s.arena == ArenaWith(l1, l2, p, q) && s.objects == objects && s.nextId == n && s.score == []
  }

  lemma Move1(s: GameState, l1: Login, l2: Login) returns (c: G.Acted)
    requires Before(s, l1, l2, Position(4, 1), Position(3, 6), [], 10)
    ensures c.arena == ArenaWith(l1, l2, Position(5, 1), Position(3, 6)) && Leaves(s, First, MOVE1, c, [], 10)
  {
    c := G.Act(s, First, MOVE1);
  }

  lemma Move2(s: GameState, l1: Login, l2: Login) returns (c: G.Acted)
    requires Before(s, l1, l2, Position(5, 1), Position(3, 6), [], 10)
    ensures c.arena == ArenaWith(l1, l2, Position(5, 1), Position(4, 6)) && Leaves(s, Second, MOVE2, c, [], 10)
  {
    c := G.Act(s, Second, MOVE2);
  }

  lemma Move3(s: GameState, l1: Login, l2: Login) returns (c: G.Acted)
    requires Before(s, l1, l2, Position(5, 1), Position(4, 6), [], 10)
    ensures c.arena == ArenaWith(l1, l2, Position(5, 1), Position(4, 6)) && Leaves(s, First, MOVE3, c, Objects3(l1), 11)
  {
    c := G.Act(s, First, MOVE3);
    Round3(c.arena, l1, G.Pending(c));
  }

  lemma Move4(s: GameState, l1: Login, l2: Login) returns (c: G.Acted)
    requires Before(s, l1, l2, Position(5, 1), Position(4, 6), Objects3(l1), 11)
    ensures c.arena == ArenaWith(l1, l2, Position(5, 1), Position(4, 6))
    ensures Leaves(s, Second, MOVE4, c, Objects4(l1, l2), 12)
  {
    c := G.Act(s, Second, MOVE4);
    Round4(c.arena, l1, l2, G.Pending(c));
  }

  lemma Move5(s: GameState, l1: Login, l2: Login) returns (c: G.Acted)
    requires Before(s, l1, l2, Position(5, 1), Position(4, 6), Objects4(l1, l2), 12)
    ensures c.arena == ArenaWith(l1, l2, Position(6, 1), Position(4, 6))
    ensures Leaves(s, First, MOVE5, c, Objects5(l1, l2), 13)
  {
    c := G.Act(s, First, MOVE5);
    Round5(c.arena, l1, l2, G.Pending(c));
  }

  lemma Move6(s: GameState, l1: Login, l2: Login) returns (c: G.Acted)
    requires Before(s, l1, l2, Position(6, 1), Position(4, 6), Objects5(l1, l2), 13)
    ensures c == G.Act(s, Second, MOVE6) && !TraverseSafe(c.arena, G.Pending(c))
  {
    c := G.Act(s, Second, MOVE6);
    Round6(c.arena, l1, l2, G.Pending(c));
  }

  lemma Valid6(s: GameState, l1: Login, l2: Login)
    requires Before(s, l1, l2, Position(6, 1), Position(4, 6), Objects5(l1, l2), 13)
    ensures Validate(s.arena, s.objects, s.arena.second.login, s.arena.second, MOVE6) == Ok
  {
  }

  lemma Serve1(s: GameState, l1: Login, l2: Login) returns (t: GameState)
    requires Scene(s, l1, l2, Position(4, 1), Position(3, 6), [], 10, First)
    ensures G.Serve(s, G.Request(l1, MOVE1)) == G.Playing(t)
    ensures Scene(t, l1, l2, Position(5, 1), Position(3, 6), [], 10, Second)
  {
    var c := Move1(s, l1, l2);
    t := Turned(s, First, MOVE1, c, [], 10);
  }

  lemma Serve2(s: GameState, l1: Login, l2: Login) returns (t: GameState)
    requires Scene(s, l1, l2, Position(5, 1), Position(3, 6), [], 10, Second)
    ensures G.Serve(s, G.Request(l2, MOVE2)) == G.Playing(t)
    ensures Scene(t, l1, l2, Position(5, 1), Position(4, 6), [], 10, First)
  {
    var c := Move2(s, l1, l2);
    t := Turned(s, Second, MOVE2, c, [], 10);
  }

  lemma Serve3(s: GameState, l1: Login, l2: Login) returns (t: GameState)
    requires Scene(s, l1, l2, Position(5, 1), Position(4, 6), [], 10, First)
    ensures G.Serve(s, G.Request(l1, MOVE3)) == G.Playing(t)
    ensures Scene(t, l1, l2, Position(5, 1), Position(4, 6), Objects3(l1), 11, Second)
  {
    var c := Move3(s, l1, l2);
    t := Turned(s, First, MOVE3, c, Objects3(l1), 11);
  }

  lemma Serve4(s: GameState, l1: Login, l2: Login) returns (t: GameState)
    requires Scene(s, l1, l2, Position(5, 1), Position(4, 6), Objects3(l1), 11, Second)
    ensures G.Serve(s, G.Request(l2, MOVE4)) == G.Playing(t)
    ensures Scene(t, l1, l2, Position(5, 1), Position(4, 6), Objects4(l1, l2), 12, First)
  {
    var c := Move4(s, l1, l2);
    t := Turned(s, Second, MOVE4, c, Objects4(l1, l2), 12);
  }

  lemma Serve5(s: GameState, l1: Login, l2: Login) returns (t: GameState)
    requires Scene(s, l1, l2, Position(5, 1), Position(4, 6), Objects4(l1, l2), 12, First)
    ensures G.Serve(s, G.Request(l1, MOVE5)) == G.Playing(t)
    ensures Scene(t, l1, l2, Position(6, 1), Position(4, 6), Objects5(l1, l2), 13, Second)
  {
    var c := Move5(s, l1, l2);
    t := Turned(s, First, MOVE5, c, Objects5(l1, l2), 13);
  }

  /** The six requests, from a starting state. */
  ghost predicate Asks(s0: GameState, rs: seq<G.Request>, l1: Login, l2: Login) {
    && Scene(s0, l1, l2, Position(4, 1), Position(3, 6), [], 10, First)
    && |rs| == 6 && rs[0] == G.Request(l1, MOVE1) && rs[1] == G.Request(l2, MOVE2)
    && rs[2] == G.Request(l1, MOVE3) && rs[3] == G.Request(l2, MOVE4)
    && rs[4] == G.Request(l1, MOVE5) && rs[5] == G.Request(l2, MOVE6)
  }

  lemma Moves1(s0: GameState, rs: seq<G.Request>, l1: Login, l2: Login) returns (t: GameState)
    requires Asks(s0, rs, l1, l2)
    ensures Leads(s0, rs, 1, t) && Scene(t, l1, l2, Position(5, 1), Position(3, 6), [], 10, Second)
  {
    var s := s0;
    assert rs[..0] == [];
    t := Serve1(s, l1, l2);
    ThenServe(s0, rs, 0, s, G.Request(l1, MOVE1), G.Playing(t));
  }

  lemma Moves2(s0: GameState, rs: seq<G.Request>, l1: Login, l2: Login) returns (t: GameState)
    requires Asks(s0, rs, l1, l2)
    ensures Leads(s0, rs, 2, t) && Scene(t, l1, l2, Position(5, 1), Position(4, 6), [], 10, First)
  {
    var s := Moves1(s0, rs, l1, l2);
    t := Serve2(s, l1, l2);
    ThenServe(s0, rs, 1, s, G.Request(l2, MOVE2), G.Playing(t));
  }

  lemma Moves3(s0: GameState, rs: seq<G.Request>, l1: Login, l2: Login) returns (t: GameState)
    requires Asks(s0, rs, l1, l2)
    ensures Leads(s0, rs, 3, t) && Scene(t, l1, l2, Position(5, 1), Position(4, 6), Objects3(l1), 11, Second)
  {
    var s := Moves2(s0, rs, l1, l2);
    t := Serve3(s, l1, l2);
    ThenServe(s0, rs, 2, s, G.Request(l1, MOVE3), G.Playing(t));
  }

  lemma Moves4(s0: GameState, rs: seq<G.Request>, l1: Login, l2: Login) returns (t: GameState)
    requires Asks(s0, rs, l1, l2)
    ensures Leads(s0, rs, 4, t) && Scene(t, l1, l2, Position(5, 1), Position(4, 6), Objects4(l1, l2), 12, First)
  {
    var s := Moves3(s0, rs, l1, l2);
    t := Serve4(s, l1, l2);
    ThenServe(s0, rs, 3, s, G.Request(l2, MOVE4), G.Playing(t));
  }

  lemma Moves5(s0: GameState, rs: seq<G.Request>, l1: Login, l2: Login) returns (t: GameState)
    requires Asks(s0, rs, l1, l2)
    ensures Leads(s0, rs, 5, t) && Scene(t, l1, l2, Position(6, 1), Position(4, 6), Objects5(l1, l2), 13, Second)
  {
    var s := Moves4(s0, rs, l1, l2);
    t := Serve5(s, l1, l2);
    ThenServe(s0, rs, 4, s, G.Request(l1, MOVE5), G.Playing(t));
  }

  lemma SixthMove(s: GameState, l1: Login, l2: Login)
    requires Scene(s, l1, l2, Position(6, 1), Position(4, 6), Objects5(l1, l2), 13, Second)
    ensures G.Serve(s, G.Request(l2, MOVE6)) == G.PrevErased
  {
    var c := Move6(s, l1, l2);
    Valid6(s, l1, l2);
    ServesInTurn(s, Second, MOVE6);
  }

  lemma SixMoves(s0: GameState, rs: seq<G.Request>, l1: Login, l2: Login)
    requires Asks(s0, rs, l1, l2)
    ensures G.Play(s0, rs) == G.PrevErased
  {
    var s := Moves5(s0, rs, l1, l2);
    SixthMove(s, l1, l2);
    ThenServe(s0, rs, 5, s, G.Request(l2, MOVE6), G.PrevErased);
    assert rs[..6] == rs;
  }

  /** With any two different logins, these six requests, all accepted, make the walk of the sixth move
      read an erased node. This is a run of the code without the timer that ends a session after a move. */
  lemma WalkCanLosePrev(l1: Login, l2: Login)
    requires l1 != l2
    ensures G.Play(G.Init(l1, l2), Requests(l1, l2)) == G.PrevErased
  {
    InitInv(l1, l2);
    SixMoves(G.Init(l1, l2), Requests(l1, l2), l1, l2);
  }
}
