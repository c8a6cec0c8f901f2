/** What one call of `UpdateTick` does, as a value: the reference the object classes are proved against. */
module Ticks {
  import opened Board

  /** The effect of ticking one item: its new value, the ids erased from the list (its own included
      when it destroys itself), the items appended, the players appended to the scoreboard, and the events. */
  datatype Effect = Effect(self: Item, gone: set<ActorId>, spawn: seq<Item>, verdict: seq<Side>, events: seq<Event>)

  // ---------- list surgery ----------

  /** `s` without the items whose id is in `gone`. */
  function Keep(s: seq<Item>, gone: set<ActorId>): seq<Item> {
    if s == [] then [] else (if s[0].id in gone then [] else [s[0]]) + Keep(s[1..], gone)
  }

  /** `s` with the item that has the id of `self` replaced by `self`. */
  function Replace(s: seq<Item>, self: Item): (r: seq<Item>)
    ensures |r| == |s|
    ensures forall i :: 0 <= i < |s| ==> r[i] == if s[i].id == self.id then self else s[i]
  {
    seq(|s|, i requires 0 <= i < |s| => if s[i].id == self.id then self else s[i])
  }

  /** The list after a tick with effect `e`. */
  function Apply(s: seq<Item>, e: Effect): seq<Item> {
    Keep(Replace(s, e.self), e.gone) + e.spawn
  }

  function Ids(s: seq<Item>): set<ActorId> {
    if s == [] then {} else {s[0].id} + Ids(s[1..])
  }

  predicate Unique(s: seq<Item>) {
    s == [] || (s[0].id !in Ids(s[1..]) && Unique(s[1..]))
  }

  // ---------- bombs ----------

  /** The cell `q` is inside the explosion square around `p` and inside the map. */
  predicate InBlast(a: Arena, p: Position, q: Position) {
    && p.x - BOMB_EXPLODE_RADIUS <= q.x <= p.x + BOMB_EXPLODE_RADIUS
    && p.y - BOMB_EXPLODE_RADIUS <= q.y <= p.y + BOMB_EXPLODE_RADIUS
    && a.InMap(q)
  }

  /** The scan order of an explosion: by column, then by row. */
  predicate ScannedBefore(p: Position, q: Position) {
    p.x < q.x || (p.x == q.x && p.y < q.y)
  }

  /** Who dies when a bomb explodes at `p`: the player in the blast whose cell comes first in scan order,
      the first player when both share it. */
  function Victim(a: Arena, p: Position): Option<Side> {
    if InBlast(a, p, a.first.pos) && !(InBlast(a, p, a.second.pos) && ScannedBefore(a.second.pos, a.first.pos))
    then Some(First)
    else if InBlast(a, p, a.second.pos) then Some(Second)
    else None
  }

  /** The cell `q` is on the map and at most one cell away from `p` on either axis. */
  predicate Near(a: Arena, p: Position, q: Position) {
    && 0 <= q.x < a.width && 0 <= q.y < a.height
    && -1 <= q.x - p.x <= 1 && -1 <= q.y - p.y <= 1
  }

  /** Someone dies exactly if a player stands near the bomb; the victim stands near it, no player stands near it on a
      cell of a lesser column, or of the same column and a lesser row, and it is the first player if both share a
      cell. */
  lemma VictimExactly(a: Arena, p: Position, v: Side)
    ensures Victim(a, p) == Some(v) <==>
      var here := a.At(v).pos;
      && Near(a, p, here)
      && (forall q :: Near(a, p, q) && (q.x < here.x || (q.x == here.x && q.y < here.y)) ==>
            a.first.pos != q && a.second.pos != q)
      && (v == Second ==> a.first.pos != a.second.pos)
    ensures Victim(a, p).None? <==> !Near(a, p, a.first.pos) && !Near(a, p, a.second.pos)
  {
  }

  function TickBomb(a: Arena, x: Item): Effect
    requires x.BombItem?
  {
    var left := Decrement(x.ticksLeft);
    if left != 0 then
      Effect(x.(ticksLeft := left), {}, [], [], [Plain(x.id, BombTicking)])
    else
      var v := Victim(a, x.pos);
      Effect(x.(ticksLeft := left), {x.id}, [], if v.Some? then Verdict(v.value) else [], [Plain(x.id, BombExplode)])
  }

  // ---------- guns ----------

  function TickGun(x: Item, nextId: ActorId): Effect
    requires x.GunItem?
  {
    var ticks := Decrement(x.ticksToShot);
    if ticks != 0 then
      Effect(x.(ticksToShot := ticks), {}, [], [], [Plain(x.id, GunWaiting)])
    else
      var shots := Decrement(x.shotsLeft);
      var shot := Event(UNSTAMPED, x.id, GunShot, NewDirObject(x.pos, nextId, x.dir));
      Effect(x.(ticksToShot := GUN_COOLDOWN, shotsLeft := shots),
             if shots == 0 then {x.id} else {},
             [BulletItem(x.owner, nextId, x.pos, x.dir)],
             [],
             if shots == 0 then [shot, Plain(x.id, GunDestroy)] else [shot])
  }

  // ---------- bullets ----------

  /** What a bullet can meet on a cell. */
  datatype Placeable = AWall(wall: Wall) | AnItem(item: Item) | APlayer(side: Side, player: PlayerValue)
  {
    function Id(): ActorId {
      match this
      case AWall(w) => w.id
      case AnItem(x) => x.id
      case APlayer(_, p) => p.id
    }

    /** The events returned by `InteractWithBullet`. */
    function Reaction(): seq<Event> {
      match this
      case AWall(_) => []
      case AnItem(x) => if x.BulletItem? then [Plain(x.id, BulletDestroy)] else []
      case APlayer(_, p) => [Plain(p.id, PlayerDead)]
    }
  }

  function WallsAt(ws: seq<Wall>, p: Position): (r: seq<Placeable>)
    ensures r == [] <==> forall w :: w in ws ==> w.pos != p
  {
    if ws == [] then [] else (if ws[0].pos == p then [AWall(ws[0])] else []) + WallsAt(ws[1..], p)
  }

  /** The items on cell `p` other than the bullet `self`, in list order. */
  function ItemsAt(s: seq<Item>, p: Position, self: ActorId): (r: seq<Placeable>)
    ensures forall c :: c in r ==> c.AnItem? && c.item in s && c.item.pos == p && c.item.id != self
    ensures forall x :: x in s && x.pos == p && x.id != self ==> AnItem(x) in r
  {
    if s == [] then []
    else (if s[0].pos == p && s[0].id != self then [AnItem(s[0])] else []) + ItemsAt(s[1..], p, self)
  }

  function PlayersAt(a: Arena, p: Position): seq<Placeable> {
    (if a.first.pos == p then [APlayer(First, a.first)] else []) +
    (if a.second.pos == p then [APlayer(Second, a.second)] else [])
  }

  /** Everything on cell `p` except the bullet itself: walls, then items, then players. */
  function Collisions(a: Arena, s: seq<Item>, p: Position, self: ActorId): seq<Placeable> {
    WallsAt(a.walls, p) + ItemsAt(s, p, self) + PlayersAt(a, p)
  }

  function Interactions(bullet: ActorId, cs: seq<Placeable>): (r: seq<Event>)
    ensures |r| == |cs|
    ensures forall i :: 0 <= i < |cs| ==>
      r[i] == Event(UNSTAMPED, bullet, BulletInteraction, Interaction(cs[i].Id(), cs[i].Reaction()))
  {
    seq(|cs|, i requires 0 <= i < |cs| =>
      Event(UNSTAMPED, bullet, BulletInteraction, Interaction(cs[i].Id(), cs[i].Reaction())))
  }

  /** The verdicts of the players standing on cell `p`. */
  function Deaths(a: Arena, p: Position): seq<Side> {
    (if a.first.pos == p then Verdict(First) else []) + (if a.second.pos == p then Verdict(Second) else [])
  }

  /** The bullets a bullet arriving at `p` takes with it. */
  function Downed(s: seq<Item>, p: Position, self: ActorId): set<ActorId> {
    set x | x in s && x.BulletItem? && x.pos == p && x.id != self :: x.id
  }

  /** The effect of a bullet on its new cell, given what it meets there: it flies on, or it is destroyed
      together with the bullets there, killing the players there. */
  function Landed(moved: Item, inMap: bool, met: seq<Placeable>, downed: set<ActorId>, deaths: seq<Side>): Effect {
    if !inMap then
      Effect(moved, {moved.id}, [], [], [Plain(moved.id, BulletDestroy)])
    else if met == [] then
      Effect(moved, {}, [], [], [Plain(moved.id, BulletFly)])
    else
      Effect(moved, {moved.id} + downed, [], deaths, Interactions(moved.id, met) + [Plain(moved.id, BulletDestroy)])
  }

  /** The effect of a bullet having moved to its new cell, while the list is `s`. */
  function Land(a: Arena, s: seq<Item>, moved: Item): Effect
    requires moved.BulletItem?
  {
    var p, id := moved.pos, moved.id;
    Landed(moved, a.InMap(p), Collisions(a, s, p, id), Downed(s, p, id), Deaths(a, p))
  }

  function TickBullet(a: Arena, s: seq<Item>, x: Item): Effect
    requires x.BulletItem?
  {
    Land(a, s, BulletItem(x.owner, x.id, Ahead(x.pos, x.dir), x.dir))
  }

  /** The effect of ticking `x` while the list is `s` and the id counter is `nextId`. */
  function Tick(a: Arena, s: seq<Item>, nextId: ActorId, x: Item): Effect {
    match x
    case BombItem(_, _, _, _) => TickBomb(a, x)
    case GunItem(_, _, _, _, _, _) => TickGun(x, nextId)
    case BulletItem(_, _, _, _) => TickBullet(a, s, x)
  }

  // ---------- what a bullet tells ----------

  /** The entry of a bullet that meets something with the id `with`. */
  function Note(bullet: ActorId, with: ActorId, happened: seq<Event>): Event {
    Event(UNSTAMPED, bullet, BulletInteraction, Interaction(with, happened))
  }

  /** A wall is hit, and nothing happens to it. */
  function WallNotes(ws: seq<Wall>, p: Position, bullet: ActorId): seq<Event> {
    if ws == [] then []
    else (if ws[0].pos == p then [Note(bullet, ws[0].id, [])] else []) + WallNotes(ws[1..], p, bullet)
  }

  /** A bomb or a gun is hit, and nothing happens to it; a bullet that is hit is destroyed. */
  function ItemNotes(s: seq<Item>, p: Position, bullet: ActorId): seq<Event> {
    if s == [] then []
    else
      var y := s[0];
      var happened := if y.BulletItem? then [Event(UNSTAMPED, y.id, BulletDestroy, Nothing)] else [];
      (if y.pos == p && y.id != bullet then [Note(bullet, y.id, happened)] else []) + ItemNotes(s[1..], p, bullet)
  }

  /** A player who is hit dies. */
  function PlayerNote(player: PlayerValue, p: Position, bullet: ActorId): seq<Event> {
    if player.pos == p then [Note(bullet, player.id, [Event(UNSTAMPED, player.id, PlayerDead, Nothing)])] else []
  }

  lemma {:induction false} WallsNoted(ws: seq<Wall>, p: Position, bullet: ActorId)
    ensures Interactions(bullet, WallsAt(ws, p)) == WallNotes(ws, p, bullet)
  {
    if ws == [] {
    } else {
      WallsNoted(ws[1..], p, bullet);
    }
  }

  lemma {:induction false} ItemsNoted(s: seq<Item>, p: Position, bullet: ActorId)
    ensures Interactions(bullet, ItemsAt(s, p, bullet)) == ItemNotes(s, p, bullet)
  {
    if s == [] {
    } else {
      ItemsNoted(s[1..], p, bullet);
    }
  }

  lemma InteractionsConcat(bullet: ActorId, cs: seq<Placeable>, ds: seq<Placeable>)
    ensures Interactions(bullet, cs + ds) == Interactions(bullet, cs) + Interactions(bullet, ds)
  {
  }

  lemma PlayersNoted(a: Arena, p: Position, bullet: ActorId)
    ensures Interactions(bullet, PlayersAt(a, p)) == PlayerNote(a.first, p, bullet) + PlayerNote(a.second, p, bullet)
  {
  }

  /** The events of a bullet's tick: a bullet that leaves the map says that it is destroyed, one that meets nothing that
      it flies, any other one what it meets, walls, then objects in the order of the list, then players, and that it is
      destroyed. */
  lemma BulletTells(a: Arena, s: seq<Item>, x: Item)
    requires x.BulletItem?
    ensures var p, id := Ahead(x.pos, x.dir), x.id;
      var notes := WallNotes(a.walls, p, id) + ItemNotes(s, p, id) +
                   (PlayerNote(a.first, p, id) + PlayerNote(a.second, p, id));
      TickBullet(a, s, x).events ==
        if !(0 <= p.x < a.width && 0 <= p.y < a.height) then [Event(UNSTAMPED, id, BulletDestroy, Nothing)]
        else if notes == [] then [Event(UNSTAMPED, id, BulletFly, Nothing)]
        else notes + [Event(UNSTAMPED, id, BulletDestroy, Nothing)]
  {
    var p, id := Ahead(x.pos, x.dir), x.id;
    WallsNoted(a.walls, p, id);
    ItemsNoted(s, p, id);
    PlayersNoted(a, p, id);
    InteractionsConcat(id, WallsAt(a.walls, p), ItemsAt(s, p, id));
    InteractionsConcat(id, WallsAt(a.walls, p) + ItemsAt(s, p, id), PlayersAt(a, p));
  }

  lemma {:induction false} NoDeathInWalls(ws: seq<Wall>, p: Position, bullet: ActorId)
    ensures forall e :: e in WallNotes(ws, p, bullet) ==> e.payload.Interaction? && e.payload.happened == []
  {
    if ws == [] {
    } else {
      NoDeathInWalls(ws[1..], p, bullet);
    }
  }

  lemma {:induction false} NoDeathInItems(s: seq<Item>, p: Position, bullet: ActorId)
    ensures forall e :: e in ItemNotes(s, p, bullet) ==>
      e.payload.Interaction? && forall h :: h in e.payload.happened ==> h.name == BulletDestroy
  {
    if s == [] {
    } else {
      NoDeathInItems(s[1..], p, bullet);
    }
  }

  /** The events of a bullet hold the note of a dead player exactly if the bullet steps, inside the map, on that
      player. */
  lemma DeathTold(a: Arena, s: seq<Item>, x: Item, loser: Side)
    requires x.BulletItem? && a.first.id != a.second.id
    ensures var p, id := Ahead(x.pos, x.dir), a.At(loser).id;
      Note(x.id, id, [Event(UNSTAMPED, id, PlayerDead, Nothing)]) in TickBullet(a, s, x).events <==>
        0 <= p.x < a.width && 0 <= p.y < a.height && a.At(loser).pos == p
  {
    var p := Ahead(x.pos, x.dir);
    BulletTells(a, s, x);
    NoDeathInWalls(a.walls, p, x.id);
    NoDeathInItems(s, p, x.id);
  }

  // ---------- facts used everywhere ----------

  lemma {:induction false} IdsIn(s: seq<Item>)
    ensures forall x :: x in s ==> x.id in Ids(s)
    ensures forall i :: i in Ids(s) ==> exists x :: x in s && x.id == i
  {
    if s == [] {
    } else {
      IdsIn(s[1..]);
    }
  }

  lemma {:induction false} IdsConcat(s: seq<Item>, t: seq<Item>)
    ensures Ids(s + t) == Ids(s) + Ids(t)
  {
    if s == [] {
      assert s + t == t;
    } else {
      assert (s + t)[0] == s[0] && (s + t)[1..] == s[1..] + t;
      IdsConcat(s[1..], t);
    }
  }

  lemma {:induction false} KeepIn(s: seq<Item>, gone: set<ActorId>)
    ensures forall x :: x in Keep(s, gone) <==> x in s && x.id !in gone
  {
    if s == [] {
    } else {
      KeepIn(s[1..], gone);
    }
  }

  lemma {:induction false} KeepConcat(s: seq<Item>, t: seq<Item>, gone: set<ActorId>)
    ensures Keep(s + t, gone) == Keep(s, gone) + Keep(t, gone)
  {
    if s == [] {
      assert s + t == t;
    } else {
      var head := if s[0].id in gone then [] else [s[0]];
      assert (s + t)[0] == s[0] && (s + t)[1..] == s[1..] + t;
      KeepConcat(s[1..], t, gone);
      Associate(head, Keep(s[1..], gone), Keep(t, gone));
    }
  }

  lemma {:induction false} KeepAll(s: seq<Item>, gone: set<ActorId>)
    requires Ids(s) !! gone
    ensures Keep(s, gone) == s
  {
    if s == [] {
    } else {
      KeepAll(s[1..], gone);
    }
  }

  lemma {:induction false} UniqueConcat(s: seq<Item>, t: seq<Item>)
    ensures Unique(s + t) <==> Unique(s) && Unique(t) && Ids(s) !! Ids(t)
  {
    if s == [] {
      assert s + t == t;
    } else {
      assert (s + t)[0] == s[0] && (s + t)[1..] == s[1..] + t;
      UniqueConcat(s[1..], t);
      IdsConcat(s[1..], t);
    }
  }

  lemma {:induction false} KeepUnique(s: seq<Item>, gone: set<ActorId>)
    ensures Ids(Keep(s, gone)) == Ids(s) - gone || !Unique(s)
    ensures Unique(s) ==> Unique(Keep(s, gone))
  {
    if s == [] {
    } else {
      KeepUnique(s[1..], gone);
      var head := if s[0].id in gone then [] else [s[0]];
      UniqueConcat(head, Keep(s[1..], gone));
      IdsConcat(head, Keep(s[1..], gone));
    }
  }

  /** Different positions of a list without repeated ids hold different ids. */
  lemma {:induction false} UniqueAt(s: seq<Item>, i: nat, j: nat)
    requires Unique(s) && i < j < |s|
    ensures s[i].id != s[j].id
  {
    if i == 0 {
      IdsIn(s[1..]);
      assert s[j] in s[1..];
    } else {
      UniqueAt(s[1..], i - 1, j - 1);
    }
  }

  /** Two items of a list without repeated ids are the same item when their ids agree. */
  lemma SameItem(s: seq<Item>, x: Item, y: Item)
    requires Unique(s) && x in s && y in s && x.id == y.id
    ensures x == y
  {
    var i :| 0 <= i < |s| && s[i] == x;
    var j :| 0 <= j < |s| && s[j] == y;
    if i < j {
      UniqueAt(s, i, j);
    } else if j < i {
      UniqueAt(s, j, i);
    }
  }

  /** Replacing the one item with the id of `self`. */
  lemma ReplaceOne(done: seq<Item>, x: Item, rest: seq<Item>, self: Item)
    requires self.id == x.id && x.id !in Ids(done) && x.id !in Ids(rest)
    ensures Replace(done + ([x] + rest), self) == done + ([self] + rest)
  {
    var s := done + ([x] + rest);
    IdsIn(done);
    IdsIn(rest);
    forall i | 0 <= i < |s| ensures Replace(s, self)[i] == (done + ([self] + rest))[i] {
      if i < |done| {
        assert s[i] == done[i] && done[i] in done;
      } else if i > |done| {
        assert s[i] == rest[i - |done| - 1] && s[i] in rest;
      }
    }
  }

  /** What a tick leaves of a list `done + [x] + rest`. */
  lemma ApplySplit(done: seq<Item>, x: Item, rest: seq<Item>, e: Effect)
    requires e.self.id == x.id && x.id !in Ids(done) && x.id !in Ids(rest)
    ensures var self := if e.self.id in e.gone then [] else [e.self];
      Apply(done + ([x] + rest), e) == (Keep(done, e.gone) + self) + (Keep(rest, e.gone) + e.spawn)
  {
    var self := if e.self.id in e.gone then [] else [e.self];
    ReplaceOne(done, x, rest, e.self);
    KeepConcat(done, [e.self] + rest, e.gone);
    assert Keep([e.self] + rest, e.gone) == self + Keep(rest, e.gone) by {
      KeepConcat([e.self], rest, e.gone);
    }
    Associate(Keep(done, e.gone), self, Keep(rest, e.gone));
    Associate(Keep(done, e.gone) + self, Keep(rest, e.gone), e.spawn);
  }

  /** A bullet does not meet itself: what is on a cell does not depend on where the bullet is. */
  lemma {:induction false} ItemsAtReplace(s: seq<Item>, self: Item, p: Position)
    ensures ItemsAt(Replace(s, self), p, self.id) == ItemsAt(s, p, self.id)
  {
    if s == [] {
    } else {
      ItemsAtReplace(s[1..], self, p);
      assert Replace(s, self)[1..] == Replace(s[1..], self);
    }
  }

  lemma DownedReplace(s: seq<Item>, self: Item, p: Position)
    ensures Downed(Replace(s, self), p, self.id) == Downed(s, p, self.id)
  {
    var r := Replace(s, self);
    forall i | i in Downed(s, p, self.id) ensures i in Downed(r, p, self.id) {
      var x :| x in s && x.BulletItem? && x.pos == p && x.id != self.id && x.id == i;
      var k :| 0 <= k < |s| && s[k] == x;
      assert r[k] == x;
    }
    forall i | i in Downed(r, p, self.id) ensures i in Downed(s, p, self.id) {
      var x :| x in r && x.BulletItem? && x.pos == p && x.id != self.id && x.id == i;
      var k :| 0 <= k < |r| && r[k] == x;
      assert s[k] == x;
    }
  }

  /** What a bullet does on its new cell does not depend on its own entry in the list. */
  lemma LandReplace(a: Arena, s: seq<Item>, moved: Item)
    requires moved.BulletItem?
    ensures Land(a, Replace(s, moved), moved) == Land(a, s, moved)
  {
    ItemsAtReplace(s, moved, moved.pos);
    DownedReplace(s, moved, moved.pos);
  }
}
