/** What a round does to the board: cells stay apart, every survivor advances by exactly one tick,
    and the items the iterator walk relies on are not erased when no two shots meet. */
module RoundBoard {
  import opened Board
  import opened Ticks
  import opened Rounds

  /** Which items are in the two halves of the list after a tick. */
  ghost predicate Members(f: Field, e: Effect, g: Field)
    requires f.todo != []
  {
    && (forall y :: y in g.done <==> (y == e.self || y in f.done) && y.id !in e.gone)
    && (forall y :: y in g.todo <==> (y in f.todo[1..] && y.id !in e.gone) || y in e.spawn)
  }

  lemma TickedMembers(f: Field, e: Effect)
    requires f.todo != []
    ensures Members(f, e, Ticked(f, e))
  {
    KeepIn(f.done, e.gone);
    KeepIn(f.todo[1..], e.gone);
  }

  // ---------- cells ----------

  /** Neither a wall nor a player is on the cell. */
  ghost predicate Clear(a: Arena, p: Position) {
    && (forall w :: w in a.walls ==> w.pos != p)
    && a.first.pos != p && a.second.pos != p
  }

  /** A gun that has fired in this round, and its bullet that has not moved yet. */
  predicate Muzzle(f: Field, x: Item, y: Item) {
    x.GunItem? && x in f.done && y.BulletItem? && y in f.todo
  }

  predicate On(f: Field, x: Item) {
    x in f.done || x in f.todo
  }

  /** Items are on clear cells, and no two share a cell, except a gun and the bullet it has just fired. */
  ghost predicate Apart(a: Arena, f: Field) {
    && (forall x :: On(f, x) ==> Clear(a, x.pos))
    && (forall x, y :: On(f, x) && On(f, y) && x.id != y.id ==>
          x.pos != y.pos || Muzzle(f, x, y) || Muzzle(f, y, x))
  }

  /** A bullet that survives its tick moved to an empty cell of the map; anything else stays where it is. */
  ghost predicate Lands(a: Arena, s: seq<Item>, x: Item, e: Effect) {
    if x.BulletItem? then
      && e.self == BulletItem(x.owner, x.id, Ahead(x.pos, x.dir), x.dir)
      && (x.id !in e.gone ==>
            && a.InMap(e.self.pos) && Clear(a, e.self.pos)
            && forall y :: y in s && y.id != x.id ==> y.pos != e.self.pos)
    else
      e.self.pos == x.pos && (e.self.GunItem? <==> x.GunItem?) && !e.self.BulletItem? && e.gone <= {x.id}
  }

  lemma TickLands(a: Arena, s: seq<Item>, n: ActorId, x: Item)
    ensures Lands(a, s, x, Tick(a, s, n, x))
  {
    if x.BulletItem? {
      var p := Ahead(x.pos, x.dir);
      if Collisions(a, s, p, x.id) == [] {
        assert WallsAt(a.walls, p) == [] && ItemsAt(s, p, x.id) == [];
        assert forall y :: y in s && y.pos == p && y.id != x.id ==> AnItem(y) in ItemsAt(s, p, x.id);
      }
    }
  }

  /** Nothing else is on the cell of the pending item `x`, unless `x` is a bullet still in its gun's cell. */
  lemma AloneOnCell(a: Arena, f: Field, x: Item, y: Item)
    requires Apart(a, f) && x in f.todo && !x.BulletItem? && On(f, y) && y.id != x.id
    requires x.id !in Ids(f.done)
    ensures y.pos != x.pos
  {
    IdsIn(f.done);
    assert On(f, x);
  }

  lemma InTail<T>(s: seq<T>, x: T)
    requires s != []
    ensures x in s <==> x == s[0] || x in s[1..]
  {
  }

  /** Two items that were on the list, neither of them ticked or erased. */
  lemma BystandersApart(a: Arena, f: Field, e: Effect, g: Field, y: Item, z: Item)
    requires f.todo != [] && Apart(a, f) && Members(f, e, g)
    requires y in f.done || y in f.todo[1..]
    requires z in f.done || z in f.todo[1..]
    requires y.id !in e.gone && z.id !in e.gone && y.id != z.id
    requires y.id != f.todo[0].id && z.id != f.todo[0].id
    ensures y.pos != z.pos || Muzzle(g, y, z) || Muzzle(g, z, y)
  {
    InTail(f.todo, y);
    InTail(f.todo, z);
    assert On(f, y) && On(f, z);
  }

  /** The ticked item, or what it fired, and an item that was on the list already. */
  lemma ActorApart(a: Arena, f: Field, e: Effect, y: Item)
    requires f.todo != [] && Apart(a, f) && f.todo[0].id !in Ids(f.done)
    requires Possible(e, f.nextId, f.todo[0]) && Lands(a, f.All(), f.todo[0], e)
    requires y in f.done || y in f.todo[1..]
    requires y.id != f.todo[0].id
    ensures f.todo[0].id !in e.gone ==> y.pos != e.self.pos
    ensures forall z :: z in e.spawn ==> y.pos != z.pos
  {
    var x := f.todo[0];
    assert On(f, y) && On(f, x) && y in f.All();
    if !x.BulletItem? {
      AloneOnCell(a, f, x, y);
    }
  }

  lemma TickedApart(a: Arena, f: Field, e: Effect)
    requires f.todo != [] && Apart(a, f) && StepIds(f, e, Ticked(f, e))
    requires Possible(e, f.nextId, f.todo[0]) && Lands(a, f.All(), f.todo[0], e)
    ensures Apart(a, Ticked(f, e))
  {
    var x, rest, g := f.todo[0], f.todo[1..], Ticked(f, e);
    TickedMembers(f, e);
    IdsIn(f.done);
    IdsIn(rest);
    assert On(f, x);
    forall y | On(g, y) ensures Clear(a, y.pos) {
      assert y == e.self || y in e.spawn || On(f, y);
    }
    forall y, z | On(g, y) && On(g, z) && y.id != z.id
      ensures y.pos != z.pos || Muzzle(g, y, z) || Muzzle(g, z, y)
    {
      var yActs, zActs := y == e.self || y in e.spawn, z == e.self || z in e.spawn;
      if !yActs && !zActs {
        BystandersApart(a, f, e, g, y, z);
      } else if !yActs {
        ActorApart(a, f, e, y);
      } else if !zActs {
        ActorApart(a, f, e, z);
      }
    }
  }

  lemma StepApart(a: Arena, f: Field)
    requires f.todo != [] && IdsFresh(f) && Apart(a, f)
    ensures Apart(a, Step(a, f))
  {
    TickPossible(a, f.All(), f.nextId, f.todo[0]);
    TickLands(a, f.All(), f.nextId, f.todo[0]);
    StepFresh(a, f);
    TickedApart(a, f, Next(a, f));
  }

  lemma {:induction false} RoundApart(a: Arena, f: Field)
    requires IdsFresh(f) && Apart(a, f)
    ensures IdsFresh(Round(a, f)) && Apart(a, Round(a, f))
    decreases Work(f.todo)
  {
    if f.todo == [] || f.score != [] {
    } else {
      StepFresh(a, f);
      StepApart(a, f);
      StepDecreases(a, f);
      RoundApart(a, Step(a, f));
    }
  }

  // ---------- every survivor advances by exactly one tick ----------

  /** The gun fires at its next tick. */
  predicate Armed(x: Item) {
    x.GunItem? && Decrement(x.ticksToShot) == 0
  }

  /** The item after one tick that it survives. */
  function Advanced(x: Item): Item {
    match x
    case BombItem(owner, id, pos, left) => BombItem(owner, id, pos, Decrement(left))
    case GunItem(owner, id, pos, dir, ticks, shots) =>
      if Armed(x) then GunItem(owner, id, pos, dir, GUN_COOLDOWN, Decrement(shots))
      else GunItem(owner, id, pos, dir, Decrement(ticks), shots)
    case BulletItem(owner, id, pos, dir) => BulletItem(owner, id, Ahead(pos, dir), dir)
  }

  /** `y` is an item of the starting list, or a bullet as one of its armed guns fires it. */
  ghost predicate Source(objects: seq<Item>, n0: ActorId, y: Item) {
    y in objects || (y.id >= n0 && exists g :: g in objects && Armed(g) && y == BulletItem(g.owner, y.id, g.pos, g.dir))
  }

  /** `x` is what one tick makes of a source item. */
  ghost predicate Moved(objects: seq<Item>, n0: ActorId, x: Item) {
    exists y :: Source(objects, n0, y) && x == Advanced(y)
  }

  /** Pending items are untouched, processed ones have advanced once, bullets among these are inside the map,
      and what was lost were bullets. */
  ghost predicate Advances(a: Arena, objects: seq<Item>, n0: ActorId, f: Field) {
    && n0 <= f.nextId
    && (forall y :: y in f.todo ==> Source(objects, n0, y))
    && (forall x :: x in f.done ==> Moved(objects, n0, x) && (x.BulletItem? ==> a.InMap(x.pos)))
    && (forall y :: y in objects && y.id in f.lost ==> y.BulletItem?)
  }

  /** Only bullets are erased by another item, and only by a bullet stepping on their cell. */
  ghost predicate HitsBullets(e: Effect, s: seq<Item>, x: Item) {
    forall y :: y in s && y.id in e.gone && y.id != x.id ==>
      y.BulletItem? && x.BulletItem? && y.pos == Ahead(x.pos, x.dir)
  }

  lemma TickAdvances(a: Arena, s: seq<Item>, n: ActorId, x: Item)
    requires Unique(s)
    ensures Tick(a, s, n, x).self == Advanced(x)
    ensures HitsBullets(Tick(a, s, n, x), s, x)
    ensures Tick(a, s, n, x).spawn != [] ==> Armed(x)
  {
    var e := Tick(a, s, n, x);
    forall y | y in s && y.id in e.gone && y.id != x.id
      ensures y.BulletItem? && x.BulletItem? && y.pos == Ahead(x.pos, x.dir)
    {
      assert x.BulletItem? && y.id in Downed(s, Ahead(x.pos, x.dir), x.id);
      var z :| z in s && z.BulletItem? && z.pos == Ahead(x.pos, x.dir) && z.id == y.id;
      SameItem(s, y, z);
    }
  }

  lemma TickedAdvances(a: Arena, objects: seq<Item>, n0: ActorId, f: Field, e: Effect, g: Field)
    requires f.todo != [] && Advances(a, objects, n0, f) && Members(f, e, g)
    requires g.nextId == f.nextId + |e.spawn| && g.lost == f.lost + Ids(f.todo[1..]) * e.gone
    requires Possible(e, f.nextId, f.todo[0]) && Lands(a, f.All(), f.todo[0], e) && HitsBullets(e, f.All(), f.todo[0])
    requires e.self == Advanced(f.todo[0]) && (e.spawn != [] ==> Armed(f.todo[0]))
    requires Unique(objects) && Below(Ids(objects), n0) && StepIds(f, e, g)
    ensures Advances(a, objects, n0, g)
  {
    var x, rest := f.todo[0], f.todo[1..];
    InTail(f.todo, x);
    forall y | y in g.todo ensures Source(objects, n0, y) {
      InTail(f.todo, y);
    }
    forall y | y in g.done ensures Moved(objects, n0, y) && (y.BulletItem? ==> a.InMap(y.pos)) {
      assert y == e.self ==> Source(objects, n0, x) && y == Advanced(x);
    }
    forall y | y in objects && y.id in g.lost ensures y.BulletItem? {
      if y.id !in f.lost {
        IdsIn(rest);
        IdsIn(objects);
        var z :| z in rest && z.id == y.id;
        InTail(f.todo, z);
        assert z in f.All() && Source(objects, n0, z) && z.id < n0;
        SameItem(objects, y, z);
      }
    }
  }

  lemma {:induction false} RoundAdvances(a: Arena, objects: seq<Item>, n0: ActorId, f: Field)
    requires IdsFresh(f) && Advances(a, objects, n0, f) && Unique(objects) && Below(Ids(objects), n0)
    ensures Advances(a, objects, n0, Round(a, f))
    decreases Work(f.todo)
  {
    if f.todo == [] || f.score != [] {
    } else {
      StepFresh(a, f);
      TickedMembers(f, Next(a, f));
      TickPossible(a, f.All(), f.nextId, f.todo[0]);
      TickLands(a, f.All(), f.nextId, f.todo[0]);
      TickAdvances(a, f.All(), f.nextId, f.todo[0]);
      TickedAdvances(a, objects, n0, f, Next(a, f), Step(a, f));
      StepDecreases(a, f);
      RoundAdvances(a, objects, n0, Step(a, f));
    }
  }

  // ---------- when no tick erases the item held by `prev` ----------

  /** A bullet, or a gun about to fire one. */
  predicate Shooter(x: Item) {
    x.BulletItem? || Armed(x)
  }

  /** The cell the bullet, or the bullet fired by the gun, steps on in this round. */
  function Target(x: Item): Position
    requires Shooter(x)
  {
    Ahead(x.pos, x.dir)
  }

  /** No two shots of the coming round step on the same cell. A caller can check this before the move. */
  ghost predicate TargetsDiffer(s: seq<Item>) {
    forall x, y :: x in s && y in s && Shooter(x) && Shooter(y) && x.id != y.id ==> Target(x) != Target(y)
  }

  /** The same during the round: a bullet that has moved stands on its target. */
  ghost predicate TargetsApart(f: Field) {
    && TargetsDiffer(f.todo)
    && forall b, y :: b in f.done && b.BulletItem? && y in f.todo && Shooter(y) ==> b.pos != Target(y)
  }

  /** The pending item whose shot `y` is: itself, or the gun that has just fired it. */
  lemma ShotOf(f: Field, e: Effect, g: Field, y: Item) returns (u: Item)
    requires f.todo != [] && Members(f, e, g) && Possible(e, f.nextId, f.todo[0])
    requires e.spawn != [] ==> Armed(f.todo[0])
    requires y in g.todo && Shooter(y)
    ensures u in f.todo && Shooter(u) && Target(u) == Target(y)
    ensures if y in f.todo[1..] then u == y else u == f.todo[0] && e.spawn == [y]
  {
    u := if y in f.todo[1..] then y else f.todo[0];
    InTail(f.todo, u);
  }

  lemma TickedTargets(f: Field, e: Effect, g: Field)
    requires f.todo != [] && TargetsApart(f) && Members(f, e, g) && Possible(e, f.nextId, f.todo[0])
    requires e.self == Advanced(f.todo[0]) && (e.spawn != [] ==> Armed(f.todo[0]))
    requires f.todo[0].id !in Ids(f.todo[1..])
    ensures TargetsApart(g)
  {
    var x, rest := f.todo[0], f.todo[1..];
    IdsIn(rest);
    forall y, z | y in g.todo && z in g.todo && Shooter(y) && Shooter(z) && y.id != z.id
      ensures Target(y) != Target(z)
    {
      var u := ShotOf(f, e, g, y);
      var v := ShotOf(f, e, g, z);
      assert u.id != v.id;
    }
    forall b, y | b in g.done && b.BulletItem? && y in g.todo && Shooter(y) ensures b.pos != Target(y) {
      var u := ShotOf(f, e, g, y);
      if b == e.self {
        assert x in f.todo && x.BulletItem? && u in rest;
      }
    }
  }

  /** With targets apart, the bullet ticked next does not reach the last survivor. */
  lemma TargetsKeepPrev(f: Field, e: Effect, prev: Item)
    requires f.todo != [] && TargetsApart(f) && f.todo[0].id !in Ids(f.done)
    requires Possible(e, f.nextId, f.todo[0]) && HitsBullets(e, f.All(), f.todo[0])
    requires prev in f.done
    ensures prev.id !in e.gone
  {
    var x := f.todo[0];
    assert x in f.todo && prev in f.All();
    IdsIn(f.done);
  }

  /** The next tick is that of a bullet that steps, inside the map, on the cell of the last survivor,
      and that is a bullet too. */
  predicate StepsOnPrev(a: Arena, f: Field) {
    f.todo != [] && f.done != [] &&
    var x, prev := f.todo[0], f.done[|f.done| - 1];
    x.BulletItem? && prev.BulletItem? && a.InMap(Ahead(x.pos, x.dir)) && prev.pos == Ahead(x.pos, x.dir)
  }

  lemma HitCell(a: Arena, s: seq<Item>, x: Item, y: Item)
    requires x.BulletItem? && y.BulletItem? && y in s && y.id != x.id
    requires y.pos == Ahead(x.pos, x.dir) && a.InMap(y.pos)
    ensures y.id in TickBullet(a, s, x).gone
  {
    assert AnItem(y) in ItemsAt(s, y.pos, x.id);
    assert AnItem(y) in Collisions(a, s, y.pos, x.id);
    assert y.id in Downed(s, y.pos, x.id);
  }

  /** Exactly when the next tick erases the item held by `prev`. */
  lemma PrevErasedExactly(a: Arena, f: Field)
    requires f.todo != [] && IdsFresh(f)
    ensures !PrevKept(a, f) <==> StepsOnPrev(a, f)
  {
    if f.done != [] {
      var x, prev, s := f.todo[0], f.done[|f.done| - 1], f.All();
      StepFresh(a, f);
      IdsIn(f.done);
      assert prev in f.done && prev in s && x.id != prev.id;
      TickAdvances(a, s, f.nextId, x);
      if StepsOnPrev(a, f) {
        HitCell(a, s, x, prev);
      } else if x.BulletItem? && !a.InMap(Ahead(x.pos, x.dir)) {
        assert Tick(a, s, f.nextId, x).gone == {x.id};
      }
    }
  }

  /** The worklist that starts at `f` comes to the undecided field `g`. */
  ghost predicate Reaches(a: Arena, f: Field, g: Field)
    decreases Work(f.todo)
  {
    f.score == [] && (f == g || (f.todo != [] && (StepDecreases(a, f); Reaches(a, Step(a, f), g))))
  }

  /** A round loses `prev` exactly if, at some point of the worklist, a bullet steps on the last survivor. */
  lemma {:induction false} RoundLostExactly(a: Arena, f: Field)
    requires IdsFresh(f)
    ensures !RoundSafe(a, f) <==> exists g :: Reaches(a, f, g) && StepsOnPrev(a, g)
    decreases Work(f.todo)
  {
    if f.todo == [] || f.score != [] {
    } else {
      var next := Step(a, f);
      StepFresh(a, f);
      StepDecreases(a, f);
      PrevErasedExactly(a, f);
      RoundLostExactly(a, next);
      if StepsOnPrev(a, f) {
        assert Reaches(a, f, f);
      }
      forall g | Reaches(a, next, g) && StepsOnPrev(a, g) ensures Reaches(a, f, g) {
      }
      forall g | Reaches(a, f, g) && StepsOnPrev(a, g) ensures StepsOnPrev(a, f) || Reaches(a, next, g) {
      }
    }
  }

  /** If no two shots of a round step on the same cell, no tick erases the item held by `prev`:
      the iterator walk is defined, whatever else is on the board. */
  lemma {:induction false} TargetsMakeSafe(a: Arena, f: Field)
    requires IdsFresh(f) && TargetsApart(f)
    ensures RoundSafe(a, f)
    decreases Work(f.todo)
  {
    if f.todo == [] || f.score != [] {
    } else {
      StepFresh(a, f);
      TickedMembers(f, Next(a, f));
      TickPossible(a, f.All(), f.nextId, f.todo[0]);
      TickAdvances(a, f.All(), f.nextId, f.todo[0]);
      if f.done != [] {
        TargetsKeepPrev(f, Next(a, f), f.done[|f.done| - 1]);
      }
      TickedTargets(f, Next(a, f), Step(a, f));
      StepDecreases(a, f);
      TargetsMakeSafe(a, Step(a, f));
    }
  }

  /** On a board whose items are on different cells, guns and bullets that all face one way
      have different targets. */
  lemma OneDirectionTargets(s: seq<Item>, d: Direction)
    requires forall x, y :: x in s && y in s && x.id != y.id ==> x.pos != y.pos
    requires forall x :: x in s && !x.BombItem? ==> x.dir == d
    ensures TargetsDiffer(s)
  {
    forall x, y | x in s && y in s && Shooter(x) && Shooter(y) && x.id != y.id ensures Target(x) != Target(y) {
      assert x.pos != y.pos && x.dir == y.dir;
    }
  }
}
