/** What the events of a round say about each bomb and each gun on the board. */
module RoundStory {
  import opened Board
  import opened Ticks
  import opened Rounds
  import opened RoundBoard

  /** The names of the events of one actor, in order. */
  function Names(es: seq<Event>, id: ActorId): seq<EventName> {
    if es == [] then [] else (if es[0].actor == id then [es[0].name] else []) + Names(es[1..], id)
  }

  /** What the tick of a bomb or a gun logs. */
  function Page(o: Item): seq<EventName>
    requires !o.BulletItem?
  {
    if o.BombItem? then (if Decrement(o.ticksLeft) != 0 then [BombTicking] else [BombExplode])
    else if !Armed(o) then [GunWaiting]
    else if Decrement(o.shotsLeft) != 0 then [GunShot]
    else [GunShot, GunDestroy]
  }

  /** The bomb or gun stays on the board after its tick. */
  predicate Stays(o: Item)
    requires !o.BulletItem?
  {
    if o.BombItem? then Decrement(o.ticksLeft) != 0 else !(Armed(o) && Decrement(o.shotsLeft) == 0)
  }

  lemma {:induction false} NamesConcat(s: seq<Event>, t: seq<Event>, id: ActorId)
    ensures Names(s + t, id) == Names(s, id) + Names(t, id)
  {
    if s == [] {
      assert s + t == t;
    } else {
      assert (s + t)[0] == s[0] && (s + t)[1..] == s[1..] + t;
      NamesConcat(s[1..], t, id);
      Associate(if s[0].actor == id then [s[0].name] else [], Names(s[1..], id), Names(t, id));
    }
  }

  lemma {:induction false} NamesOfOthers(es: seq<Event>, id: ActorId)
    requires forall v :: v in es ==> v.actor != id
    ensures Names(es, id) == []
  {
    if es == [] {
    } else {
      NamesOfOthers(es[1..], id);
    }
  }

  /** The event is logged by an object, not by a player or the session. */
  predicate OfObject(v: Event) {
    v.name in {BombTicking, BombExplode, GunWaiting, GunShot, GunDestroy, BulletFly, BulletInteraction, BulletDestroy}
  }

  lemma BombTickPage(a: Arena, x: Item)
    requires x.BombItem?
    ensures var e := TickBomb(a, x);
      Names(e.events, x.id) == Page(x) && (x.id in e.gone <==> !Stays(x))
  {
    assert TickBomb(a, x).events[1..] == [];
  }

  lemma GunTickPage(x: Item, n: ActorId)
    requires x.GunItem?
    ensures var e := TickGun(x, n);
      Names(e.events, x.id) == Page(x) && (x.id in e.gone <==> !Stays(x))
  {
    var es := TickGun(x, n).events;
    if !Stays(x) {
      assert es[1..][1..] == [];
      assert es == [es[0]] + [es[1]];
      NamesConcat([es[0]], [es[1]], x.id);
    } else {
      assert es[1..] == [];
    }
  }

  /** All events of a tick belong to the ticked item; for a bomb or a gun they are its page,
      and it leaves the list exactly when it does not stay. */
  lemma TickPage(a: Arena, s: seq<Item>, n: ActorId, x: Item)
    ensures var e := Tick(a, s, n, x);
      && (forall v :: v in e.events ==> v.actor == x.id && OfObject(v))
      && (!x.BulletItem? ==> Names(e.events, x.id) == Page(x) && (x.id in e.gone <==> !Stays(x)))
  {
    match x
    case BombItem(_, _, _, _) => BombTickPage(a, x);
    case GunItem(_, _, _, _, _, _) => GunTickPage(x, n);
    case BulletItem(_, _, _, _) =>
  }

  /** The bomb or gun `o` is either untouched and silent, or has had exactly its one tick. */
  ghost predicate Told(o: Item, f: Field)
    requires !o.BulletItem?
  {
    || (o in f.todo && Names(f.events, o.id) == [])
    || (o.id !in Ids(f.todo) && Names(f.events, o.id) == Page(o) &&
        if Stays(o) then Advanced(o) in f.done else o.id !in Ids(f.done))
  }

  /** The tick of `o` itself. */
  lemma OwnTick(o: Item, f: Field, e: Effect, g: Field)
    requires f.todo != [] && !o.BulletItem? && o == f.todo[0] && Names(f.events, o.id) == []
    requires Members(f, e, g) && o.id !in Ids(g.todo) && (o.id in Ids(g.done) <==> o.id !in e.gone)
    requires g.events == f.events + e.events && e.self == Advanced(o)
    requires Names(e.events, o.id) == Page(o) && (o.id in e.gone <==> !Stays(o))
    ensures Told(o, g)
  {
    NamesConcat(f.events, e.events, o.id);
  }

  /** The tick of another item. */
  lemma OtherTick(o: Item, f: Field, e: Effect, g: Field)
    requires f.todo != [] && !o.BulletItem? && o.id != f.todo[0].id && Told(o, f) && Members(f, e, g)
    requires g.events == f.events + e.events && HitsBullets(e, f.All(), f.todo[0])
    requires o.id !in Ids(f.todo) ==> o.id !in Ids(g.todo)
    requires o.id !in Ids(f.done) ==> o.id !in Ids(g.done)
    requires forall v :: v in e.events ==> v.actor == f.todo[0].id
    ensures Told(o, g)
  {
    NamesConcat(f.events, e.events, o.id);
    NamesOfOthers(e.events, o.id);
    assert Names(f.events, o.id) + [] == Names(f.events, o.id);
    InTail(f.todo, o);
    if o in f.todo {
      assert o in f.All();
    } else if Stays(o) {
      assert Advanced(o) in f.All();
    }
  }

  lemma SpawnIds(e: Effect, n: ActorId, x: Item)
    requires Possible(e, n, x)
    ensures forall i :: i in Ids(e.spawn) ==> i == n
  {
    assert e.spawn != [] ==> e.spawn[1..] == [];
  }

  lemma OwnIds(f: Field, e: Effect, g: Field)
    requires f.todo != [] && StepIds(f, e, g) && Possible(e, f.nextId, f.todo[0]) && f.todo[0].id < f.nextId
    ensures var id := f.todo[0].id; id !in Ids(g.todo) && (id in Ids(g.done) <==> id !in e.gone)
  {
    SpawnIds(e, f.nextId, f.todo[0]);
  }

  lemma OtherIds(f: Field, e: Effect, g: Field, id: ActorId)
    requires f.todo != [] && StepIds(f, e, g) && Possible(e, f.nextId, f.todo[0]) && f.todo[0].id != id < f.nextId
    ensures id !in Ids(f.todo) ==> id !in Ids(g.todo)
    ensures id !in Ids(f.done) ==> id !in Ids(g.done)
  {
    SpawnIds(e, f.nextId, f.todo[0]);
  }

  lemma TickedTold(o: Item, f: Field, e: Effect, g: Field)
    requires f.todo != [] && !o.BulletItem? && Told(o, f) && Members(f, e, g) && StepIds(f, e, g)
    requires g.events == f.events + e.events && e.self == Advanced(f.todo[0]) && o.id < f.nextId
    requires Possible(e, f.nextId, f.todo[0]) && HitsBullets(e, f.All(), f.todo[0])
    requires forall v :: v in e.events ==> v.actor == f.todo[0].id
    requires !f.todo[0].BulletItem? ==>
      Names(e.events, f.todo[0].id) == Page(f.todo[0]) && (f.todo[0].id in e.gone <==> !Stays(f.todo[0]))
    ensures Told(o, g)
  {
    InTail(f.todo, o);
    if f.todo[0].id == o.id {
      IdsIn(f.todo[1..]);
      assert o == f.todo[0];
      OwnIds(f, e, g);
      OwnTick(o, f, e, g);
    } else {
      OtherIds(f, e, g, o.id);
      OtherTick(o, f, e, g);
    }
  }

  lemma {:induction false} RoundTold(a: Arena, o: Item, f: Field)
    requires !o.BulletItem? && IdsFresh(f) && Told(o, f) && o.id < f.nextId
    ensures Told(o, Round(a, f))
    decreases Work(f.todo)
  {
    if f.todo == [] || f.score != [] {
    } else {
      StepFresh(a, f);
      TickedMembers(f, Next(a, f));
      TickPossible(a, f.All(), f.nextId, f.todo[0]);
      TickAdvances(a, f.All(), f.nextId, f.todo[0]);
      TickPage(a, f.All(), f.nextId, f.todo[0]);
      TickedTold(o, f, Next(a, f), Step(a, f));
      StepDecreases(a, f);
      RoundTold(a, o, Step(a, f));
    }
  }

  /** In a round that stays undecided every bomb and gun logs exactly one page, and either leaves
      or stays advanced by one tick. */
  lemma OnePageEach(a: Arena, objects: seq<Item>, n: ActorId, o: Item)
    requires Unique(objects) && Below(Ids(objects), n) && o in objects && !o.BulletItem?
    ensures var r := Round(a, Start(objects, n, []));
      r.score == [] ==>
        Names(r.events, o.id) == Page(o) &&
        if Stays(o) then Advanced(o) in r.All() else o.id !in Ids(r.All())
  {
    var f := Start(objects, n, []);
    assert f.All() == objects;
    IdsIn(objects);
    RoundTold(a, o, f);
    RoundEnds(a, f);
    var r := Round(a, f);
    if r.score == [] {
      assert r.All() == r.done;
    }
  }

  /** Only ticked items log events. */
  lemma {:induction false} ActorsTicked(a: Arena, f: Field)
    requires forall v :: v in f.events ==> v.actor in f.ticked && OfObject(v)
    ensures forall v :: v in Round(a, f).events ==> v.actor in Round(a, f).ticked && OfObject(v)
    decreases Work(f.todo)
  {
    if f.todo == [] || f.score != [] {
    } else {
      TickPage(a, f.All(), f.nextId, f.todo[0]);
      StepDecreases(a, f);
      ActorsTicked(a, Step(a, f));
    }
  }
}
