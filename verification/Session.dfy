/** The session and its objects as the program keeps them: classes updated in place, each method proved
    against the value-level reference in `Ticks`, `Rounds` and `Game`. */
module Sessions {
  import opened Board
  import opened Ticks
  import opened Rounds
  import opened EventLog
  import opened Validation
  import G = Game

  // ---------- the object list ----------

  /** An element of `State::objects`: a pointer to one of the three object classes.
      It is also the identity an iterator of the list stands for. */
  datatype ObjectPtr = BombPtr(bomb: Bomb) | GunPtr(gun: Gun) | BulletPtr(bullet: Bullet)
  {
    function Id(): ActorId {
      match this
      case BombPtr(b) => b.actorId
      case GunPtr(g) => g.actorId
      case BulletPtr(b) => b.actorId
    }

    ghost function Ref(): object {
      match this
      case BombPtr(b) => b
      case GunPtr(g) => g
      case BulletPtr(b) => b
    }

    function Value(): (x: Item)
      reads Ref()
      ensures x.id == Id()
    {
      match this
      case BombPtr(b) => BombItem(b.owner, b.actorId, b.position, b.ticksLeft)
      case GunPtr(g) => GunItem(g.owner, g.actorId, g.position, g.direction, g.ticksToShot, g.shotsLeft)
      case BulletPtr(b) => BulletItem(b.owner, b.actorId, b.position, b.direction)
    }
  }

  ghost function Refs(ps: seq<ObjectPtr>): set<object> {
    set p | p in ps :: p.Ref()
  }

  /** The values of the listed objects. */
  function View(ps: seq<ObjectPtr>): (s: seq<Item>)
    reads Refs(ps)
    ensures |s| == |ps| && forall i :: 0 <= i < |ps| ==> s[i] == ps[i].Value()
  {
    if ps == [] then [] else [ps[0].Value()] + View(ps[1..])
  }

  ghost predicate UniquePtrs(ps: seq<ObjectPtr>) {
    forall i, j :: 0 <= i < j < |ps| ==> ps[i].Id() != ps[j].Id()
  }

  function KeepPtrs(ps: seq<ObjectPtr>, gone: set<ActorId>): seq<ObjectPtr> {
    if ps == [] then [] else (if ps[0].Id() in gone then [] else [ps[0]]) + KeepPtrs(ps[1..], gone)
  }

  function PtrIds(ps: seq<ObjectPtr>): set<ActorId> {
    set i | 0 <= i < |ps| :: ps[i].Id()
  }

  lemma InPtrIds(ps: seq<ObjectPtr>, p: ObjectPtr)
    requires p in ps
    ensures p.Id() in PtrIds(ps)
  {
    var i :| 0 <= i < |ps| && ps[i] == p;
  }

  lemma {:induction false} KeepPtrsIn(ps: seq<ObjectPtr>, gone: set<ActorId>)
    ensures var r := KeepPtrs(ps, gone);
      && (forall j :: 0 <= j < |r| ==> r[j] in ps && r[j].Id() !in gone)
      && (forall j :: 0 <= j < |ps| && ps[j].Id() !in gone ==> ps[j] in r)
  {
    if ps == [] {
    } else {
      KeepPtrsIn(ps[1..], gone);
      var head, tail := if ps[0].Id() in gone then [] else [ps[0]], KeepPtrs(ps[1..], gone);
      var r := head + tail;
      forall j | 0 <= j < |r| ensures r[j] in ps && r[j].Id() !in gone {
        if j >= |head| {
          assert r[j] == tail[j - |head|] && tail[j - |head|] in ps[1..];
        } else {
          assert r[j] == ps[0];
        }
      }
      forall j | 0 <= j < |ps| && ps[j].Id() !in gone ensures ps[j] in r {
        if j > 0 {
          assert ps[1..][j - 1] == ps[j] && ps[j] in tail;
          var k :| 0 <= k < |tail| && tail[k] == ps[j];
          assert r[|head| + k] == ps[j];
        } else {
          assert r[0] == ps[0];
        }
      }
    }
  }

  lemma {:induction false} KeepPtrsUnique(ps: seq<ObjectPtr>, gone: set<ActorId>)
    requires UniquePtrs(ps)
    ensures UniquePtrs(KeepPtrs(ps, gone))
  {
    if ps == [] {
    } else {
      KeepPtrsUnique(ps[1..], gone);
      KeepPtrsIn(ps[1..], gone);
      var tail := KeepPtrs(ps[1..], gone);
      forall j | 0 <= j < |tail| ensures tail[j].Id() != ps[0].Id() {
        var k :| 0 <= k < |ps[1..]| && ps[1..][k] == tail[j];
        assert ps[k + 1] == tail[j];
      }
    }
  }

  lemma {:induction false} KeepPtrsAll(ps: seq<ObjectPtr>, gone: set<ActorId>)
    requires forall j :: 0 <= j < |ps| ==> ps[j].Id() !in gone
    ensures KeepPtrs(ps, gone) == ps
  {
    if ps == [] {
    } else {
      KeepPtrsAll(ps[1..], gone);
    }
  }

  lemma {:induction false} KeepPtrsTwice(ps: seq<ObjectPtr>, gone: set<ActorId>, more: set<ActorId>)
    ensures KeepPtrs(KeepPtrs(ps, gone), more) == KeepPtrs(ps, gone + more)
  {
    if ps == [] {
    } else {
      KeepPtrsTwice(ps[1..], gone, more);
      var head, tail := if ps[0].Id() in gone then [] else [ps[0]], KeepPtrs(ps[1..], gone);
      if head != [] {
        assert (head + tail)[0] == ps[0] && (head + tail)[1..] == tail;
      } else {
        assert head + tail == tail;
      }
    }
  }

  lemma {:induction false} KeepPtrsConcat(ps: seq<ObjectPtr>, qs: seq<ObjectPtr>, gone: set<ActorId>)
    ensures KeepPtrs(ps + qs, gone) == KeepPtrs(ps, gone) + KeepPtrs(qs, gone)
  {
    if ps == [] {
      assert ps + qs == qs;
    } else {
      assert (ps + qs)[0] == ps[0] && (ps + qs)[1..] == ps[1..] + qs;
      KeepPtrsConcat(ps[1..], qs, gone);
      Associate(if ps[0].Id() in gone then [] else [ps[0]], KeepPtrs(ps[1..], gone), KeepPtrs(qs, gone));
    }
  }

  /** The listed objects have the values `v`. */
  ghost predicate Shows(ps: seq<ObjectPtr>, v: seq<Item>)
    reads Refs(ps)
  {
    |ps| == |v| && forall i :: 0 <= i < |ps| ==> ps[i].Value() == v[i]
  }

  lemma ShowsMore(ps: seq<ObjectPtr>, v: seq<Item>, p: ObjectPtr)
    requires Shows(ps, v)
    ensures Shows(ps + [p], v + [p.Value()])
  {
  }

  lemma ShowsView(ps: seq<ObjectPtr>, v: seq<Item>)
    ensures Shows(ps, v) <==> View(ps) == v
  {
  }

  lemma ViewConcat(ps: seq<ObjectPtr>, qs: seq<ObjectPtr>)
    ensures View(ps + qs) == View(ps) + View(qs)
  {
  }

  /** Erasing pointers erases their values. */
  lemma {:induction false} ViewKeep(ps: seq<ObjectPtr>, gone: set<ActorId>)
    ensures View(KeepPtrs(ps, gone)) == Keep(View(ps), gone)
  {
    if ps == [] {
    } else {
      ViewKeep(ps[1..], gone);
      var head, tail := if ps[0].Id() in gone then [] else [ps[0]], KeepPtrs(ps[1..], gone);
      ViewConcat(head, tail);
      assert View(ps)[1..] == View(ps[1..]);
    }
  }

  lemma PtrIdsTail(ps: seq<ObjectPtr>)
    requires ps != []
    ensures PtrIds(ps) == {ps[0].Id()} + PtrIds(ps[1..])
    ensures UniquePtrs(ps) ==> ps[0].Id() !in PtrIds(ps[1..])
  {
    forall i | i in PtrIds(ps) ensures i in {ps[0].Id()} + PtrIds(ps[1..]) {
      var k :| 0 <= k < |ps| && ps[k].Id() == i;
      assert k > 0 ==> ps[1..][k - 1] == ps[k];
    }
    forall i | i in PtrIds(ps[1..]) ensures i in PtrIds(ps) && (UniquePtrs(ps) ==> i != ps[0].Id()) {
      var k :| 0 <= k < |ps[1..]| && ps[1..][k].Id() == i;
      assert ps[k + 1].Id() == i;
    }
  }

  lemma {:induction false} PtrIdsUnique(ps: seq<ObjectPtr>, v: seq<Item>)
    requires UniquePtrs(ps) && |v| == |ps| && forall i :: 0 <= i < |ps| ==> v[i].id == ps[i].Id()
    ensures Unique(v) && Ids(v) == PtrIds(ps)
  {
    if ps == [] {
    } else {
      PtrIdsUnique(ps[1..], v[1..]);
      PtrIdsTail(ps);
    }
  }

  /** If only the object `p` may have changed since the list had the values `v`, its new value replaces the old one. */
  lemma ShowsReplace(ps: seq<ObjectPtr>, v: seq<Item>, p: ObjectPtr)
    requires UniquePtrs(ps) && p in ps && |v| == |ps|
    requires forall i :: 0 <= i < |ps| ==> v[i].id == ps[i].Id()
    requires forall i :: 0 <= i < |ps| && ps[i] != p ==> ps[i].Value() == v[i]
    ensures Shows(ps, Replace(v, p.Value()))
  {
    var k :| 0 <= k < |ps| && ps[k] == p;
    var self := p.Value();
    forall i | 0 <= i < |ps| ensures ps[i].Value() == if v[i].id == self.id then self else v[i] {
      if i != k {
        assert ps[i].Id() != ps[k].Id();
      }
    }
  }

  /** The values of the list after a tick with effect `e`. */
  lemma ShowsApply(ps: seq<ObjectPtr>, v: seq<Item>, e: Effect, fired: seq<ObjectPtr>)
    requires Shows(ps, Replace(v, e.self)) && Shows(fired, e.spawn)
    ensures Shows(KeepPtrs(ps, e.gone) + fired, Apply(v, e))
  {
    ShowsView(ps, Replace(v, e.self));
    ViewKeep(ps, e.gone);
    ShowsView(KeepPtrs(ps, e.gone), Keep(Replace(v, e.self), e.gone));
  }

  lemma RefsKeep(ps: seq<ObjectPtr>, gone: set<ActorId>, fired: seq<ObjectPtr>)
    ensures Refs(KeepPtrs(ps, gone) + fired) <= Refs(ps) + Refs(fired)
  {
    KeepPtrsIn(ps, gone);
    var r := KeepPtrs(ps, gone);
    forall o | o in Refs(r + fired) ensures o in Refs(ps) + Refs(fired) {
      var i :| 0 <= i < |r + fired| && (r + fired)[i].Ref() == o;
      if i < |r| {
        assert r[i] in ps;
      } else {
        assert fired[i - |r|] in fired;
      }
    }
  }

  /** Objects not erased are still in the list. */
  ghost predicate Survive(before: seq<ObjectPtr>, gone: set<ActorId>, after: seq<ObjectPtr>) {
    forall i :: 0 <= i < |before| && before[i].Id() !in gone ==> before[i] in after
  }

  /** The pointers in the list have the ids of the values `v`. */
  ghost predicate SameIds(ps: seq<ObjectPtr>, v: seq<Item>) {
    |ps| == |v| && forall i :: 0 <= i < |ps| ==> ps[i].Id() == v[i].id
  }

  /** The list after a tick of `p` with effect `e`, which changed no other object: its values, who is still in it,
      and which objects it refers to. */
  lemma ShowsTick(before: seq<ObjectPtr>, after: seq<ObjectPtr>, v: seq<Item>, p: ObjectPtr, e: Effect,
                  fired: seq<ObjectPtr>)
    requires UniquePtrs(before) && p in before && p.Value() == e.self && Shows(fired, e.spawn)
    requires SameIds(before, v) && forall i :: 0 <= i < |before| && before[i] != p ==> before[i].Value() == v[i]
    requires after == KeepPtrs(before, e.gone) + fired
    ensures Shows(after, Apply(v, e)) && Survive(before, e.gone, after)
    ensures Refs(after) <= Refs(before) + Refs(fired)
  {
    ShowsReplace(before, v, p);
    ShowsApply(before, v, e, fired);
    RefsKeep(before, e.gone, fired);
    KeepPtrsIn(before, e.gone);
  }

  function IndexOf(ps: seq<ObjectPtr>, p: ObjectPtr): (i: nat)
    requires p in ps
    ensures i < |ps| && ps[i] == p
  {
    if ps[0] == p then 0 else 1 + IndexOf(ps[1..], p)
  }

  /** `std::next` of an iterator into the list; `None` is `end()`. */
  function NextOf(ps: seq<ObjectPtr>, p: ObjectPtr): Option<ObjectPtr>
    requires p in ps
  {
    var i := IndexOf(ps, p);
    if i + 1 < |ps| then Some(ps[i + 1]) else None
  }

  /** Erasing the one pointer with a given id. */
  lemma {:induction false} KeepWithout(ps: seq<ObjectPtr>, i: nat)
    requires UniquePtrs(ps) && i < |ps|
    ensures KeepPtrs(ps, {ps[i].Id()}) == ps[..i] + ps[i + 1..]
  {
    if i == 0 {
      KeepPtrsAll(ps[1..], {ps[0].Id()});
    } else {
      KeepWithout(ps[1..], i - 1);
      assert ps[..i] + ps[i + 1..] == [ps[0]] + (ps[1..][..i - 1] + ps[1..][i..]);
    }
  }

  // ---------- what a bullet meets ----------

  datatype PlaceablePtr = WallOn(wall: Wall) | ObjectOn(ptr: ObjectPtr) | PlayerOn(player: Player)

  ghost function RefsOn(cs: seq<PlaceablePtr>): set<object> {
    (set c | c in cs && c.ObjectOn? :: c.ptr.Ref()) + (set c | c in cs && c.PlayerOn? :: c.player as object)
  }

  function WallsOn(ws: seq<Wall>, p: Position): seq<PlaceablePtr> {
    if ws == [] then [] else (if ws[0].pos == p then [WallOn(ws[0])] else []) + WallsOn(ws[1..], p)
  }

  function ObjectsOn(ps: seq<ObjectPtr>, p: Position, self: ActorId): seq<PlaceablePtr>
    reads Refs(ps)
  {
    if ps == [] then []
    else (if ps[0].Value().pos == p && ps[0].Id() != self then [ObjectOn(ps[0])] else []) + ObjectsOn(ps[1..], p, self)
  }

  predicate Shot(c: PlaceablePtr) {
    c.ObjectOn? && c.ptr.BulletPtr?
  }

  /** The bullets among the things met. */
  function ShotIds(cs: seq<PlaceablePtr>): set<ActorId> {
    if cs == [] then {}
    else ShotIds(cs[..|cs| - 1]) + (if Shot(cs[|cs| - 1]) then {cs[|cs| - 1].ptr.Id()} else {})
  }

  /** Objects met by one bullet are different ones. */
  ghost predicate DifferentObjects(cs: seq<PlaceablePtr>) {
    forall i, j :: 0 <= i < j < |cs| && cs[i].ObjectOn? && cs[j].ObjectOn? ==> cs[i].ptr.Id() != cs[j].ptr.Id()
  }

  lemma {:induction false} ShotEarlier(cs: seq<PlaceablePtr>, i: nat)
    requires DifferentObjects(cs) && i < |cs| && cs[i].ObjectOn?
    ensures forall k :: 0 <= k <= i ==> cs[i].ptr.Id() !in ShotIds(cs[..k])
  {
    var k := 0;
    while k < i
      invariant 0 <= k <= i
      invariant forall h :: 0 <= h <= k ==> cs[i].ptr.Id() !in ShotIds(cs[..h])
    {
      assert cs[..k + 1][..k] == cs[..k];
      k := k + 1;
    }
  }

  lemma {:induction false} ShotIdsConcat(cs: seq<PlaceablePtr>, ds: seq<PlaceablePtr>)
    ensures ShotIds(cs + ds) == ShotIds(cs) + ShotIds(ds)
  {
    if ds == [] {
      assert cs + ds == cs;
    } else {
      assert (cs + ds)[..|cs + ds| - 1] == cs + ds[..|ds| - 1];
      ShotIdsConcat(cs, ds[..|ds| - 1]);
    }
  }

  /** `cs` are objects of the list `ps`, not the one with id `self`. */
  ghost predicate Listed(cs: seq<PlaceablePtr>, ps: seq<ObjectPtr>, self: ActorId) {
    forall j :: 0 <= j < |cs| ==> cs[j].ObjectOn? && cs[j].ptr in ps && cs[j].ptr.Id() != self
  }

  lemma ListedCons(head: seq<PlaceablePtr>, tail: seq<PlaceablePtr>, ps: seq<ObjectPtr>, self: ActorId)
    requires ps != [] && Listed(tail, ps[1..], self)
    requires head == [] || (head == [ObjectOn(ps[0])] && ps[0].Id() != self)
    ensures Listed(head + tail, ps, self)
  {
  }

  lemma {:induction false} ObjectsOnIn(ps: seq<ObjectPtr>, p: Position, self: ActorId)
    ensures Listed(ObjectsOn(ps, p, self), ps, self)
  {
    if ps == [] {
    } else {
      ObjectsOnIn(ps[1..], p, self);
      var head := if ps[0].Value().pos == p && ps[0].Id() != self then [ObjectOn(ps[0])] else [];
      ListedCons(head, ObjectsOn(ps[1..], p, self), ps, self);
    }
  }

  lemma DifferCons(head: seq<PlaceablePtr>, tail: seq<PlaceablePtr>, ps: seq<ObjectPtr>, self: ActorId)
    requires ps != [] && Listed(tail, ps[1..], self) && DifferentObjects(tail)
    requires head == [] || head == [ObjectOn(ps[0])]
    requires ps[0].Id() !in PtrIds(ps[1..])
    ensures DifferentObjects(head + tail)
  {
    forall j | 0 <= j < |tail| ensures tail[j].ptr.Id() != ps[0].Id() {
      InPtrIds(ps[1..], tail[j].ptr);
    }
  }

  lemma {:induction false} ObjectsOnDiffer(ps: seq<ObjectPtr>, p: Position, self: ActorId)
    requires UniquePtrs(ps)
    ensures DifferentObjects(ObjectsOn(ps, p, self))
  {
    if ps == [] {
    } else {
      ObjectsOnDiffer(ps[1..], p, self);
      ObjectsOnIn(ps[1..], p, self);
      PtrIdsTail(ps);
      DifferCons(if ps[0].Value().pos == p && ps[0].Id() != self then [ObjectOn(ps[0])] else [],
                 ObjectsOn(ps[1..], p, self), ps, self);
    }
  }

  lemma ShotIdsOne(cs: seq<PlaceablePtr>)
    requires |cs| <= 1
    ensures ShotIds(cs) == if cs != [] && Shot(cs[0]) then {cs[0].ptr.Id()} else {}
  {
    if cs != [] {
      assert cs[..0] == [];
    }
  }

  lemma DownedConcat(s: seq<Item>, t: seq<Item>, p: Position, self: ActorId)
    ensures Downed(s + t, p, self) == Downed(s, p, self) + Downed(t, p, self)
  {
    assert forall x :: x in s + t <==> x in s || x in t;
  }

  lemma {:induction false} ObjectsOnShot(ps: seq<ObjectPtr>, p: Position, self: ActorId)
    ensures ShotIds(ObjectsOn(ps, p, self)) == Downed(View(ps), p, self)
  {
    if ps == [] {
    } else {
      var head := if ps[0].Value().pos == p && ps[0].Id() != self then [ObjectOn(ps[0])] else [];
      ObjectsOnShot(ps[1..], p, self);
      ShotIdsConcat(head, ObjectsOn(ps[1..], p, self));
      ShotIdsOne(head);
      DownedConcat([ps[0].Value()], View(ps[1..]), p, self);
    }
  }

  lemma {:induction false} NoShotWalls(ws: seq<Wall>, p: Position)
    ensures var r := WallsOn(ws, p); ShotIds(r) == {} && forall j :: 0 <= j < |r| ==> r[j].WallOn?
  {
    if ws == [] {
    } else {
      NoShotWalls(ws[1..], p);
      var head := if ws[0].pos == p then [WallOn(ws[0])] else [];
      ShotIdsConcat(head, WallsOn(ws[1..], p));
      ShotIdsOne(head);
    }
  }

  // ---------- players ----------

  class Player {
    const actorId: ActorId
    const login: Login
    var position: Position

    constructor (position: Position, actorId: ActorId, login: Login)
      ensures this.position == position && this.actorId == actorId && this.login == login
    {
      this.position := position;
      this.actorId := actorId;
      this.login := login;
    }

    function Value(): PlayerValue
      reads this
    {
      PlayerValue(actorId, login, position)
    }

    /** The death of a player finishes the session in favour of the other one. */
    method Die(interactor: Session) returns (happened: seq<Event>)
      requires interactor.Players() && this in {interactor.player1, interactor.player2}
      modifies interactor`scoreboard
      ensures interactor.Players()
      ensures interactor.Score() == old(interactor.Score()) + Verdict(interactor.SideOf(this))
      ensures happened == [Plain(actorId, PlayerDead)]
    {
      interactor.FinishSession(actorId == 1);
      happened := [Plain(actorId, PlayerDead)];
    }

    method InteractWithBullet(interactor: Session, bullet: Bullet) returns (happened: seq<Event>)
      requires interactor.Players() && this in {interactor.player1, interactor.player2}
      modifies interactor`scoreboard
      ensures interactor.Players()
      ensures interactor.Score() == old(interactor.Score()) + Verdict(interactor.SideOf(this))
      ensures happened == [Plain(actorId, PlayerDead)]
    {
      happened := Die(interactor);
    }
  }

  class Bomb {
    const owner: Login
    const actorId: ActorId
    var position: Position
    var ticksLeft: nat

    constructor (owner: Login, actorId: ActorId, position: Position)
      ensures BombPtr(this).Value() == BombItem(owner, actorId, position, BOMB_TICKS_LEFT)
    {
      this.owner := owner;
      this.actorId := actorId;
      this.position := position;
      ticksLeft := BOMB_TICKS_LEFT;
    }

    method UpdateTick(interactor: Session) returns (happened: seq<Event>)
      requires interactor.OnBoard(BombPtr(this))
      modifies this`ticksLeft, interactor`objects, interactor`scoreboard
      ensures interactor.BoardValid()
      ensures var e := TickBomb(interactor.Arena(), old(BombPtr(this).Value()));
        && happened == e.events
        && BombPtr(this).Value() == e.self
        && interactor.objects == KeepPtrs(old(interactor.objects), e.gone)
        && interactor.Score() == old(interactor.Score()) + e.verdict
    {
      ticksLeft := Decrement(ticksLeft);
      if ticksLeft != 0 {
        KeepPtrsAll(interactor.objects, {});
        return [Plain(actorId, BombTicking)];
      }
      interactor.Explode(position);
      InPtrIds(interactor.objects, BombPtr(this));
      interactor.RemoveObject(actorId);
      happened := [Plain(actorId, BombExplode)];
    }
  }

  class Gun {
    const owner: Login
    const actorId: ActorId
    var position: Position
    var direction: Direction
    var ticksToShot: nat
    var shotsLeft: nat

    constructor (owner: Login, actorId: ActorId, position: Position, direction: Direction)
      ensures GunPtr(this).Value() == GunItem(owner, actorId, position, direction, GUN_COOLDOWN, GUN_SHOTS)
    {
      this.owner := owner;
      this.actorId := actorId;
      this.position := position;
      this.direction := direction;
      ticksToShot := GUN_COOLDOWN;
      shotsLeft := GUN_SHOTS;
    }

    /** The shot, and the end of the gun after the last one. */
    method Shoot(interactor: Session) returns (happened: seq<Event>, ghost fired: seq<ObjectPtr>)
      requires interactor.OnBoard(GunPtr(this))
      modifies this`shotsLeft, interactor`objects, interactor`idCounter
      ensures interactor.BoardValid()
      ensures var id := old(interactor.idCounter);
        && shotsLeft == Decrement(old(shotsLeft)) && interactor.idCounter == id + 1
        && Shows(fired, [BulletItem(owner, id, position, direction)]) && fresh(Refs(fired))
        && happened == [Event(UNSTAMPED, actorId, GunShot, NewDirObject(position, id, direction))] +
             if shotsLeft == 0 then [Plain(actorId, GunDestroy)] else []
      ensures interactor.objects == KeepPtrs(old(interactor.objects), if shotsLeft == 0 then {actorId} else {}) + fired
    {
      ghost var before := interactor.objects;
      var bullet := interactor.PlaceBulletObject(position, direction, owner);
      fired := [BulletPtr(bullet)];
      shotsLeft := Decrement(shotsLeft);
      happened := [Event(UNSTAMPED, actorId, GunShot, NewDirObject(position, bullet.actorId, direction))];
      if shotsLeft == 0 {
        InPtrIds(interactor.objects, GunPtr(this));
        interactor.RemoveObject(actorId);
        KeepPtrsConcat(before, fired, {actorId});
        KeepPtrsAll(fired, {actorId});
        happened := happened + [Plain(actorId, GunDestroy)];
      } else {
        KeepPtrsAll(before, {});
      }
    }

    method UpdateTick(interactor: Session) returns (happened: seq<Event>, ghost fired: seq<ObjectPtr>)
      requires interactor.OnBoard(GunPtr(this))
      modifies this`ticksToShot, this`shotsLeft, interactor`objects, interactor`idCounter
      ensures interactor.BoardValid()
      ensures var e := TickGun(old(GunPtr(this).Value()), old(interactor.idCounter));
        && happened == e.events
        && GunPtr(this).Value() == e.self
        && interactor.objects == KeepPtrs(old(interactor.objects), e.gone) + fired
        && fresh(Refs(fired)) && Shows(fired, e.spawn)
        && interactor.idCounter == old(interactor.idCounter) + |e.spawn|
    {
      fired := [];
      ticksToShot := Decrement(ticksToShot);
      if ticksToShot == 0 {
        ticksToShot := GUN_COOLDOWN;
        happened, fired := Shoot(interactor);
        return;
      }
      KeepPtrsAll(interactor.objects, {});
      happened := [Plain(actorId, GunWaiting)];
    }
  }

  class Bullet {
    const owner: Login
    const actorId: ActorId
    var position: Position
    var direction: Direction

    constructor (owner: Login, actorId: ActorId, position: Position, direction: Direction)
      ensures BulletPtr(this).Value() == BulletItem(owner, actorId, position, direction)
    {
      this.owner := owner;
      this.actorId := actorId;
      this.position := position;
      this.direction := direction;
    }

    /** `coll->InteractWithBullet(bullet)`: walls, bombs and guns do not react. */
    method HitOne(interactor: Session, coll: PlaceablePtr) returns (subevents: seq<Event>)
      requires interactor.BoardValid()
      requires coll.ObjectOn? ==> coll.ptr in interactor.objects
      requires coll.PlayerOn? ==> coll.player in {interactor.player1, interactor.player2}
      modifies interactor`objects, interactor`scoreboard
      ensures interactor.BoardValid()
      ensures subevents == interactor.ReactionOf(coll)
      ensures interactor.objects == KeepPtrs(old(interactor.objects), if Shot(coll) then {coll.ptr.Id()} else {})
      ensures interactor.Score() == old(interactor.Score()) + interactor.DeathOf(coll)
    {
      KeepPtrsAll(interactor.objects, {});
      subevents := [];
      match coll {
        case WallOn(_) =>
        case PlayerOn(p) =>
          subevents := p.InteractWithBullet(interactor, this);
        case ObjectOn(ptr) =>
          if ptr.BulletPtr? {
            subevents := ptr.bullet.InteractWithBullet(interactor, this);
          }
      }
    }

    /** A bullet not hit yet is still in the list. */
    lemma StillThere(before: seq<ObjectPtr>, cs: seq<PlaceablePtr>, i: nat)
      requires DifferentObjects(cs) && i < |cs| && cs[i].ObjectOn? && cs[i].ptr in before
      ensures cs[i].ptr in KeepPtrs(before, ShotIds(cs[..i]))
    {
      ShotEarlier(cs, i);
      KeepPtrsIn(before, ShotIds(cs[..i]));
      var k :| 0 <= k < |before| && before[k] == cs[i].ptr;
    }

    /** The interaction with the `i`th thing met, those before it done. */
    method HitNext(interactor: Session, ghost before: seq<ObjectPtr>, cs: seq<PlaceablePtr>, i: nat)
      returns (event: Event)
      requires interactor.BoardValid() && DifferentObjects(cs) && i < |cs|
      requires cs[i].ObjectOn? ==> cs[i].ptr in before
      requires cs[i].PlayerOn? ==> cs[i].player in {interactor.player1, interactor.player2}
      requires interactor.objects == KeepPtrs(before, ShotIds(cs[..i]))
      modifies interactor`objects, interactor`scoreboard
      ensures interactor.BoardValid()
      ensures event == interactor.Meeting(actorId, cs[i])
      ensures interactor.objects == KeepPtrs(before, ShotIds(cs[..i + 1]))
      ensures interactor.Score() == old(interactor.Score()) + interactor.DeathOf(cs[i])
    {
      if cs[i].ObjectOn? {
        StillThere(before, cs, i);
      }
      var subevents := HitOne(interactor, cs[i]);
      KeepPtrsTwice(before, ShotIds(cs[..i]), if Shot(cs[i]) then {cs[i].ptr.Id()} else {});
      assert cs[..i + 1][..i] == cs[..i];
      event := Event(UNSTAMPED, actorId, BulletInteraction, Interaction(interactor.IdOf(cs[i]), subevents));
    }

    /** The first `i` things met have been hit: the bullets among them are erased, the players dead. */
    ghost predicate HitSoFar(interactor: Session, before: seq<ObjectPtr>, score: seq<Side>, cs: seq<PlaceablePtr>,
                             i: nat)
      requires i <= |cs|
      reads interactor
    {
      && interactor.BoardValid()
      && interactor.objects == KeepPtrs(before, ShotIds(cs[..i]))
      && interactor.Score() == score + interactor.DeathsAmong(cs[..i])
    }

    method HitFurther(interactor: Session, ghost before: seq<ObjectPtr>, ghost score: seq<Side>,
                      cs: seq<PlaceablePtr>, i: nat)
      returns (event: Event)
      requires i < |cs| && DifferentObjects(cs) && HitSoFar(interactor, before, score, cs, i)
      requires cs[i].ObjectOn? ==> cs[i].ptr in before
      requires cs[i].PlayerOn? ==> cs[i].player in {interactor.player1, interactor.player2}
      modifies interactor`objects, interactor`scoreboard
      ensures event == interactor.Meeting(actorId, cs[i]) && HitSoFar(interactor, before, score, cs, i + 1)
    {
      event := HitNext(interactor, before, cs, i);
      interactor.DeathsSnoc(cs, i);
      Associate(score, interactor.DeathsAmong(cs[..i]), interactor.DeathOf(cs[i]));
    }

    /** Interacts with everything on the bullet's cell, in order. */
    method Hit(interactor: Session, cs: seq<PlaceablePtr>) returns (happened: seq<Event>)
      requires interactor.BoardValid() && interactor.Known(cs)
      modifies interactor`objects, interactor`scoreboard
      ensures interactor.BoardValid()
      ensures |happened| == |cs| && forall j :: 0 <= j < |cs| ==> happened[j] == interactor.Meeting(actorId, cs[j])
      ensures interactor.objects == KeepPtrs(old(interactor.objects), ShotIds(cs))
      ensures interactor.Score() == old(interactor.Score()) + interactor.DeathsAmong(cs)
    {
      happened := [];
      var i := 0;
      ghost var before, score := interactor.objects, interactor.Score();
      KeepPtrsAll(before, {});
      while i < |cs|
        invariant 0 <= i <= |cs| && HitSoFar(interactor, before, score, cs, i)
        invariant |happened| == i && forall j :: 0 <= j < i ==> happened[j] == interactor.Meeting(actorId, cs[j])
      {
        var event := HitFurther(interactor, before, score, cs, i);
        happened := happened + [event];
        i := i + 1;
      }
      assert cs[..i] == cs;
    }

    /** The bullet erases itself, after the bullets `gone` it has met. */
    method Vanish(interactor: Session, ghost before: seq<ObjectPtr>, ghost gone: set<ActorId>)
      requires interactor.BoardValid() && BulletPtr(this) in before && actorId !in gone
      requires interactor.objects == KeepPtrs(before, gone)
      modifies interactor`objects
      ensures interactor.BoardValid()
      ensures interactor.objects == KeepPtrs(before, {actorId} + gone)
    {
      KeepPtrsIn(before, gone);
      assert BulletPtr(this) in interactor.objects by {
        var k :| 0 <= k < |before| && before[k] == BulletPtr(this);
      }
      InPtrIds(interactor.objects, BulletPtr(this));
      interactor.RemoveObject(actorId);
      KeepPtrsTwice(before, gone, {actorId});
      assert gone + {actorId} == {actorId} + gone;
    }

    /** The bullet is destroyed, together with what it met. */
    method Crash(interactor: Session, cs: seq<PlaceablePtr>, ghost met: seq<Placeable>) returns (happened: seq<Event>)
      requires interactor.OnBoard(BulletPtr(this)) && interactor.Known(cs) && actorId !in ShotIds(cs)
      requires |met| == |cs| &&
        forall j :: 0 <= j < |cs| ==> interactor.Meeting(actorId, cs[j]) == Interactions(actorId, met)[j]
      modifies interactor`objects, interactor`scoreboard
      ensures interactor.BoardValid()
      ensures happened == Interactions(actorId, met) + [Plain(actorId, BulletDestroy)]
      ensures interactor.objects == KeepPtrs(old(interactor.objects), {actorId} + ShotIds(cs))
      ensures interactor.Score() == old(interactor.Score()) + interactor.DeathsAmong(cs)
    {
      ghost var before := interactor.objects;
      happened := Hit(interactor, cs);
      assert happened == Interactions(actorId, met);
      Vanish(interactor, before, ShotIds(cs));
      happened := happened + [Plain(actorId, BulletDestroy)];
    }

    /** A bullet hit by another one is erased. */
    method InteractWithBullet(interactor: Session, bullet: Bullet) returns (happened: seq<Event>)
      requires interactor.OnBoard(BulletPtr(this))
      modifies interactor`objects
      ensures interactor.BoardValid()
      ensures interactor.objects == KeepPtrs(old(interactor.objects), {actorId})
      ensures happened == [Plain(actorId, BulletDestroy)]
    {
      InPtrIds(interactor.objects, BulletPtr(this));
      interactor.RemoveObject(actorId);
      happened := [Plain(actorId, BulletDestroy)];
    }

    /** One cell in the bullet's direction. */
    method Fly()
      modifies this`position
      ensures position == Ahead(old(position), direction)
    {
      var mX, mY := 0, 0;
      match direction {
        case Up => mY := -1;
        case Left => mX := -1;
        case Down => mY := 1;
        case Right => mX := 1;
      }
      position := Position(position.x + mX, position.y + mY);
    }

    /** What `CollisionsOnCell` returned leads to the effect `e`. */
    ghost predicate LeadsTo(interactor: Session, found: Option<seq<PlaceablePtr>>, e: Effect)
      reads this, interactor, if found.Some? then RefsOn(found.value) else {}
    {
      match found
      case None => e.gone == {actorId} && e.verdict == [] && e.events == [Plain(actorId, BulletDestroy)]
      case Some(cs) =>
        && interactor.Known(cs) && actorId !in ShotIds(cs) && e.verdict == interactor.DeathsAmong(cs)
        && if cs == [] then e.gone == {} && e.events == [Plain(actorId, BulletFly)]
           else
             && e.gone == {actorId} + ShotIds(cs)
             && e.events == Interactions(actorId, interactor.Met(cs)) + [Plain(actorId, BulletDestroy)]
             && forall j :: 0 <= j < |cs| ==>
                  interactor.Meeting(actorId, cs[j]) == Interactions(actorId, interactor.Met(cs))[j]
    }

    lemma FoundLeadsTo(interactor: Session, s: seq<Item>, e: Effect)
      requires interactor.OnBoard(BulletPtr(this)) && Shows(interactor.objects, s)
      requires e == Land(interactor.Arena(), s, BulletPtr(this).Value())
      ensures LeadsTo(interactor, interactor.CollisionsOnCell(this), e)
    {
      interactor.CellContents(this, s);
    }

    method Meet(interactor: Session, collisions: Option<seq<PlaceablePtr>>, ghost e: Effect)
      returns (happened: seq<Event>)
      requires interactor.OnBoard(BulletPtr(this)) && LeadsTo(interactor, collisions, e)
      modifies interactor`objects, interactor`scoreboard
      ensures interactor.BoardValid()
      ensures happened == e.events
      ensures interactor.objects == KeepPtrs(old(interactor.objects), e.gone)
      ensures interactor.Score() == old(interactor.Score()) + e.verdict
    {
      if collisions.None? {
        happened := Crash(interactor, [], []);
        assert {actorId} + ShotIds([]) == e.gone;
        return;
      }
      if |collisions.value| == 0 {
        KeepPtrsAll(interactor.objects, {});
        return [Plain(actorId, BulletFly)];
      }
      happened := Crash(interactor, collisions.value, interactor.Met(collisions.value));
    }

    /** The rest of the tick, once the bullet is on its new cell. */
    method Arrive(interactor: Session, ghost s: seq<Item>, ghost e: Effect) returns (happened: seq<Event>)
      requires interactor.OnBoard(BulletPtr(this)) && Shows(interactor.objects, s)
      requires e == Land(interactor.Arena(), s, BulletPtr(this).Value())
      modifies interactor`objects, interactor`scoreboard
      ensures interactor.BoardValid()
      ensures happened == e.events
      ensures interactor.objects == KeepPtrs(old(interactor.objects), e.gone)
      ensures interactor.Score() == old(interactor.Score()) + e.verdict
    {
      FoundLeadsTo(interactor, s, e);
      var collisions := interactor.CollisionsOnCell(this);
      happened := Meet(interactor, collisions, e);
    }

    method UpdateTick(interactor: Session, ghost s: seq<Item>) returns (happened: seq<Event>)
      requires interactor.OnBoard(BulletPtr(this)) && Shows(interactor.objects, s)
      modifies this`position, interactor`objects, interactor`scoreboard
      ensures interactor.BoardValid()
      ensures var e := TickBullet(interactor.Arena(), s, old(BulletPtr(this).Value()));
        && happened == e.events
        && BulletPtr(this).Value() == e.self
        && interactor.objects == KeepPtrs(old(interactor.objects), e.gone)
        && interactor.Score() == old(interactor.Score()) + e.verdict
    {
      Fly();
      ghost var moved := BulletPtr(this).Value();
      ShowsReplace(interactor.objects, s, BulletPtr(this));
      LandReplace(interactor.Arena(), s, moved);
      happened := Arrive(interactor, Replace(s, moved), Land(interactor.Arena(), s, moved));
    }
  }

  // ---------- about a move ----------

  /** The log is ready for the move after `n`. */
  ghost predicate LogReady(log: Log, n: int) {
    IndexAgrees(log) && log.moveNumber == n == LastMove(log.value)
  }

  lemma AddOne(log: Log, event: Event)
    requires IndexAgrees(log) && InStep(log)
    ensures AddAll(log, []) == Some(log) && Add(log, event).Some? && AddAll(log, [event]) == Add(log, event)
  {
    AddAppends(log, event);
    var l := Add(log, event).value;
    assert [event][0] == event && [event][1..] == [];
    assert AddAll(l, []) == Some(l);
  }

  lemma RefsOneMore(before: seq<ObjectPtr>, after: seq<ObjectPtr>)
    requires before < after && |after| == |before| + 1
    ensures Refs(after) == Refs(before) + {after[|before|].Ref()}
  {
    assert after == before + [after[|before|]];
  }

  /** The log of an accepted move, put together from its two parts. */
  lemma MoveEventsInTwo(log: Log, c: G.Acted, r: Field, acted: Log)
    requires AddAll(log, [c.event]) == Some(acted)
    ensures AddAll(log, G.MoveEvents(c, r)) == AddAll(acted, r.events + G.Victory(c.arena, r.score))
  {
    AddAllConcat(log, [c.event], r.events + G.Victory(c.arena, r.score));
    Associate([c.event], r.events, G.Victory(c.arena, r.score));
  }

  /** The move with action `c` ends as `o`, the log ready for the next move. */
  ghost predicate Ends(s: G.GameState, c: G.Acted, o: G.Outcome) {
    var r := G.AfterAct(c);
    var l := AddAll(s.log.(moveNumber := s.moveNumber + 1), G.MoveEvents(c, r));
    if !TraverseSafe(c.arena, G.Pending(c)) then o == G.PrevErased
    else l.Some? && LogReady(l.value, s.moveNumber + 1) && o == G.Playing(G.Moved(s, c, r, l.value))
  }

  lemma AcceptEnds(s: G.GameState, side: Side, md: MoveData)
    requires LogReady(s.log, s.moveNumber)
    ensures Ends(s, G.Act(s, side, md), G.Accept(s, side, md))
  {
    var c := G.Act(s, side, md);
    AddAllAppends(s.log.(moveNumber := s.moveNumber + 1), G.MoveEvents(c, G.AfterAct(c)));
  }

  // ---------- about the walk over the list ----------

  /** The worklist that is at `f` continues at `g`. */
  ghost predicate Continues(a: Arena, f: Field, g: Field) {
    Round(a, f) == Round(a, g) && (RoundSafe(a, f) <==> RoundSafe(a, g))
  }

  /** The walk from `f` has come to `g`, or has lost `prev` on the way. */
  ghost predicate Went(a: Arena, f: Field, g: Field, lost: bool) {
    if lost then !RoundSafe(a, f) else Continues(a, f, g)
  }

  lemma WentThrough(a: Arena, f: Field, g: Field, lost: bool)
    requires Went(a, f, g, lost) && (!lost ==> g.todo == [] || g.score != [])
    ensures lost <==> !RoundSafe(a, f)
    ensures !lost ==> g == Round(a, f)
  {
  }

  /** One tick of the second loop. */
  lemma OtherStep(a: Arena, f: Field, e: Effect, prev: ActorId)
    requires f.todo != [] && f.score == [] && e == Next(a, f)
    requires f.done != [] && f.done[|f.done| - 1].id == prev
    ensures Work(Ticked(f, e).todo) < Work(f.todo)
    ensures if prev in e.gone then !RoundSafe(a, f) else Continues(a, f, Ticked(f, e))
  {
    StepDecreases(a, f);
  }

  lemma {:induction false} KeepLast(s: seq<Item>, gone: set<ActorId>)
    requires s != [] && s[|s| - 1].id !in gone
    ensures var r := Keep(s, gone); r != [] && r[|r| - 1] == s[|s| - 1]
  {
    if |s| == 1 {
    } else {
      KeepLast(s[1..], gone);
    }
  }

  /** The only place an object can have in the list is that of its id. */
  lemma PlaceOf(ps: seq<ObjectPtr>, v: seq<Item>, p: ObjectPtr, k: nat)
    requires UniquePtrs(ps) && SameIds(ps, v) && p in ps && k < |v| && v[k].id == p.Id()
    ensures ps[k] == p
    ensures NextOf(ps, p) == if k + 1 < |ps| then Some(ps[k + 1]) else None
  {
    assert ps[IndexOf(ps, p)].Id() == ps[k].Id();
  }

  /** An id that is not among the values is not in the list. */
  lemma NoPlaceOf(ps: seq<ObjectPtr>, v: seq<Item>, p: ObjectPtr)
    requires SameIds(ps, v) && p.Id() !in Ids(v)
    ensures p !in ps
  {
    IdsIn(v);
    forall i | 0 <= i < |ps| ensures ps[i] != p {
      assert v[i] in v;
    }
  }

  /** The ticked item is on the list after its tick exactly if it was not erased. */
  lemma SelfPlace(f: Field, e: Effect)
    requires f.todo != [] && IdsFresh(f) && Possible(e, f.nextId, f.todo[0])
    ensures f.todo[0].id in e.gone ==> f.todo[0].id !in Ids(Ticked(f, e).All())
  {
    TickedIds(f, e);
    var g := Ticked(f, e);
    IdsConcat(g.done, g.todo);
    IdsConcat(f.done, f.todo);
    assert e.spawn == [] || (e.spawn[1..] == [] && Ids(e.spawn) == {f.nextId});
  }

  /** Where the iterators of the second loop are after a tick that `prev` survived. */
  lemma KeptPlace(after: seq<ObjectPtr>, f: Field, e: Effect, prev: ObjectPtr, it: ObjectPtr)
    requires f.done != [] && f.todo != [] && IdsFresh(f) && Possible(e, f.nextId, f.todo[0])
    requires UniquePtrs(after) && SameIds(after, Ticked(f, e).All())
    requires prev.Id() == f.done[|f.done| - 1].id && prev in after && prev.Id() !in e.gone
    requires it.Id() == f.todo[0].id && (it.Id() !in e.gone ==> it in after)
    ensures var n := |Ticked(f, e).done|;
      if it.Id() in e.gone then
        && it !in after && 0 < n <= |after| && after[n - 1] == prev
        && NextOf(after, prev) == if n < |after| then Some(after[n]) else None
      else
        && 1 < n <= |after| && after[n - 1] == it
        && NextOf(after, prev) == Some(it)
        && NextOf(after, it) == if n < |after| then Some(after[n]) else None
  {
    var g, m := Ticked(f, e), |Keep(f.done, e.gone)|;
    KeepLast(f.done, e.gone);
    assert g.All()[m - 1].id == prev.Id();
    PlaceOf(after, g.All(), prev, m - 1);
    if it.Id() in e.gone {
      SelfPlace(f, e);
      NoPlaceOf(after, g.All(), it);
    } else {
      assert g.All()[m] == e.self;
      PlaceOf(after, g.All(), it, m);
    }
  }

  /** An erased survivor is not on the list after the tick. */
  lemma PrevGone(f: Field, e: Effect)
    requires f.done != [] && f.todo != [] && IdsFresh(f) && Possible(e, f.nextId, f.todo[0])
    requires f.done[|f.done| - 1].id in e.gone
    ensures f.done[|f.done| - 1].id !in Ids(Ticked(f, e).All())
  {
    var g, prev := Ticked(f, e), f.done[|f.done| - 1];
    TickedIds(f, e);
    IdsIn(f.done);
    assert prev in f.done;
    IdsConcat(g.done, g.todo);
    IdsConcat(f.done, f.todo);
    assert e.spawn == [] || (e.spawn[1..] == [] && Ids(e.spawn) == {f.nextId});
  }

  /** Where the iterators of the second loop are after a tick: if `prev` survived, it is the last of the
      processed objects but for the ticked one, which follows it exactly if it survived. */
  lemma OtherPlace(before: seq<ObjectPtr>, after: seq<ObjectPtr>, f: Field, e: Effect)
    requires f.done != [] && f.todo != [] && IdsFresh(f) && Possible(e, f.nextId, f.todo[0])
    requires UniquePtrs(after) && |before| > |f.done|
    requires SameIds(before, f.All()) && SameIds(after, Ticked(f, e).All()) && Survive(before, e.gone, after)
    ensures var prev, it, n := before[|f.done| - 1], before[|f.done|], |Ticked(f, e).done|;
      if prev.Id() in e.gone then prev !in after
      else
        && prev in after
        && if it.Id() in e.gone then
             && it !in after && 0 < n <= |after| && after[n - 1] == prev
             && NextOf(after, prev) == if n < |after| then Some(after[n]) else None
           else
             && it in after && 1 < n <= |after| && after[n - 1] == it
             && NextOf(after, prev) == Some(it)
             && NextOf(after, it) == if n < |after| then Some(after[n]) else None
  {
    var prev, it, g := before[|f.done| - 1], before[|f.done|], Ticked(f, e);
    assert f.All()[|f.done|] == f.todo[0] && f.All()[|f.done| - 1] == f.done[|f.done| - 1];
    if prev.Id() in e.gone {
      PrevGone(f, e);
      NoPlaceOf(after, g.All(), prev);
    } else {
      KeptPlace(after, f, e, prev, it);
    }
  }

  /** From the round `f` on, the worklist does what is left of the walk that started at `f0`. */
  ghost predicate Walked(a: Arena, f0: Field, f: Field) {
    Round(a, f) == Traverse(a, f0) && (RoundSafe(a, f) <==> TraverseSafe(a, f0))
  }

  /** One tick of the first loop. */
  lemma FirstStep(a: Arena, f0: Field, f: Field, e: Effect)
    requires f.done == [] && f.todo != [] && (f == f0 || (f.score == [] && Walked(a, f0, f))) && e == Next(a, f)
    ensures Walked(a, f0, Ticked(f, e)) && Work(Ticked(f, e).todo) < Work(f.todo)
  {
    StepDecreases(a, f);
  }

  /** After a tick in the first loop the ticked object is the first one exactly if it survived. */
  lemma FirstPlace(before: seq<ObjectPtr>, after: seq<ObjectPtr>, f: Field, e: Effect)
    requires f.done == [] && f.todo != [] && IdsFresh(f) && Possible(e, f.nextId, f.todo[0])
    requires UniquePtrs(after) && before != [] && before[0].Id() == f.todo[0].id
    requires SameIds(after, Ticked(f, e).All()) && Survive(before, e.gone, after)
    ensures if before[0].Id() in e.gone then Ticked(f, e).done == [] && before[0] !in after
            else |Ticked(f, e).done| == 1 && after != [] && after[0] == before[0]
  {
    var g := Ticked(f, e);
    if before[0].Id() in e.gone {
      SelfPlace(f, e);
      NoPlaceOf(after, g.All(), before[0]);
    } else {
      assert g.All()[0] == e.self;
      PlaceOf(after, g.All(), before[0], 0);
    }
  }

  function Max(a: int, b: int): int {
    if a < b then b else a
  }

  function Min(a: int, b: int): int {
    if a < b then a else b
  }

  // ---------- the session ----------

  class Session {
    const player1: Player
    const player2: Player
    const terrain: seq<Wall>
    const width: int
    const height: int
    const events: EventListWrapper
    var objects: seq<ObjectPtr>
    var moveNumber: int
    var nowTurn: Login
    var scoreboard: seq<Player>
    var idCounter: ActorId

    function SideOf(p: Player): Side {
      if p == player1 then First else Second
    }

    function Sides(ps: seq<Player>): (s: seq<Side>)
      ensures |s| == |ps| && forall i :: 0 <= i < |ps| ==> s[i] == SideOf(ps[i])
    {
      seq(|ps|, i requires 0 <= i < |ps| => SideOf(ps[i]))
    }

    function Score(): seq<Side>
      reads this
    {
      Sides(scoreboard)
    }

    function Arena(): Arena
      reads player1, player2
    {
      Board.Arena(player1.Value(), player2.Value(), terrain, width, height)
    }

    function State(): G.GameState
      reads this, player1, player2, events, Refs(objects)
    {
      G.GameState(Arena(), View(objects), idCounter, Score(), moveNumber, nowTurn,
                  Log(events.value, events.fromMove, events.moveNumber))
    }

    /** The two players have ids 0 and 1, and only they are on the scoreboard. */
    ghost predicate Players()
      reads this
    {
      && player1.actorId == 0 && player2.actorId == 1
      && forall p :: p in scoreboard ==> p in {player1, player2}
    }

    ghost predicate BoardValid()
      reads this
    {
      && Players()
      && UniquePtrs(objects)
      && forall i :: 0 <= i < |objects| ==> objects[i].Id() < idCounter
    }

    /** The board is in order, and the log ends with the current move. */
    ghost predicate Valid()
      reads this, events
    {
      && BoardValid() && player1 != player2
      && LogReady(events.State(), moveNumber)
    }

    /** The objects a session owns. */
    ghost function Repr(): set<object>
      reads this
    {
      {this, events, player1, player2} + Refs(objects)
    }

    /** `Session()` followed by `Init`. */
    constructor (login1: Login, login2: Login)
      ensures Valid() && State() == G.Init(login1, login2) && fresh(Repr())
    {
      player1 := new Player(Position(4, 1), 0, login1);
      player2 := new Player(Position(3, 6), 1, login2);
      terrain := G.WALLS;
      width := G.MAP_SIDE;
      height := G.MAP_SIDE;
      events := new EventListWrapper();
      objects := [];
      moveNumber := 0;
      nowTurn := login1;
      scoreboard := [];
      idCounter := G.FIRST_OBJECT_ID;
    }

    ghost predicate OnBoard(p: ObjectPtr)
      reads this
    {
      BoardValid() && p in objects
    }

    /** The move number and whose turn it is. */
    ghost function Clock(): (int, Login)
      reads this
    {
      (moveNumber, nowTurn)
    }

    method FinishSession(firstWinner: bool)
      requires Players()
      modifies this`scoreboard
      ensures Players()
      ensures Score() == old(Score()) + Verdict(if firstWinner then Second else First)
    {
      if firstWinner {
        scoreboard := scoreboard + [player1];
        scoreboard := scoreboard + [player2];
      } else {
        scoreboard := scoreboard + [player2];
        scoreboard := scoreboard + [player1];
      }
    }

    method GetId() returns (id: ActorId)
      modifies this`idCounter
      ensures id == old(idCounter) && idCounter == id + 1
    {
      id := idCounter;
      idCounter := idCounter + 1;
    }

    method PlaceBulletObject(position: Position, direction: Direction, login: Login) returns (obj: Bullet)
      requires BoardValid()
      modifies this`objects, this`idCounter
      ensures BoardValid() && fresh(obj)
      ensures objects == old(objects) + [BulletPtr(obj)] && idCounter == old(idCounter) + 1
      ensures BulletPtr(obj).Value() == BulletItem(login, old(idCounter), position, direction)
    {
      var id := GetId();
      obj := new Bullet(login, id, position, direction);
      objects := objects + [BulletPtr(obj)];
    }

    /** Erases the object with the given id, which must be in the list: `erase(end())` is undefined. */
    method RemoveObject(actorId: ActorId)
      requires BoardValid() && actorId in PtrIds(objects)
      modifies this`objects
      ensures BoardValid()
      ensures objects == KeepPtrs(old(objects), {actorId})
    {
      var i := 0;
      while objects[i].Id() != actorId
        invariant 0 <= i < |objects|
        invariant exists j :: i <= j < |objects| && objects[j].Id() == actorId
        decreases |objects| - i
      {
        i := i + 1;
      }
      KeepWithout(objects, i);
      KeepPtrsUnique(objects, {actorId});
      KeepPtrsIn(objects, {actorId});
      objects := objects[..i] + objects[i + 1..];
    }

    function IdOf(c: PlaceablePtr): ActorId {
      match c
      case WallOn(w) => w.id
      case ObjectOn(p) => p.Id()
      case PlayerOn(p) => p.actorId
    }

    /** The events returned by `InteractWithBullet`. */
    function ReactionOf(c: PlaceablePtr): seq<Event> {
      match c
      case WallOn(_) => []
      case ObjectOn(p) => if p.BulletPtr? then [Plain(p.Id(), BulletDestroy)] else []
      case PlayerOn(p) => [Plain(p.actorId, PlayerDead)]
    }

    /** The event of a bullet meeting `c`. */
    function Meeting(bullet: ActorId, c: PlaceablePtr): Event {
      Event(UNSTAMPED, bullet, BulletInteraction, Interaction(IdOf(c), ReactionOf(c)))
    }

    /** The value of something a bullet met. */
    ghost function Kind(c: PlaceablePtr): Placeable
      reads RefsOn([c])
    {
      match c
      case WallOn(w) => AWall(w)
      case ObjectOn(p) => assert c in [c]; AnItem(p.Value())
      case PlayerOn(p) => assert c in [c]; APlayer(SideOf(p), p.Value())
    }

    ghost function Met(cs: seq<PlaceablePtr>): (r: seq<Placeable>)
      reads RefsOn(cs)
      ensures |r| == |cs| && forall i :: 0 <= i < |cs| ==> r[i] == Kind(cs[i])
    {
      if cs == [] then []
      else
        assert cs[0] in cs;
        [Kind(cs[0])] + Met(cs[1..])
    }

    lemma {:induction false} MetConcat(cs: seq<PlaceablePtr>, ds: seq<PlaceablePtr>)
      ensures Met(cs + ds) == Met(cs) + Met(ds)
    {
    }

    /** The verdict of a player met. */
    ghost function DeathOf(c: PlaceablePtr): seq<Side> {
      match c
      case PlayerOn(p) => Verdict(SideOf(p))
      case _ => []
    }

    ghost function DeathsAmong(cs: seq<PlaceablePtr>): seq<Side> {
      if cs == [] then [] else DeathsAmong(cs[..|cs| - 1]) + DeathOf(cs[|cs| - 1])
    }

    lemma DeathsSnoc(cs: seq<PlaceablePtr>, i: nat)
      requires i < |cs|
      ensures DeathsAmong(cs[..i + 1]) == DeathsAmong(cs[..i]) + DeathOf(cs[i])
    {
      assert cs[..i + 1][..i] == cs[..i];
    }

    lemma {:induction false} DeathsConcat(cs: seq<PlaceablePtr>, ds: seq<PlaceablePtr>)
      ensures DeathsAmong(cs + ds) == DeathsAmong(cs) + DeathsAmong(ds)
    {
      if ds == [] {
        assert cs + ds == cs;
      } else {
        assert (cs + ds)[..|cs + ds| - 1] == cs + ds[..|ds| - 1];
        DeathsConcat(cs, ds[..|ds| - 1]);
        Associate(DeathsAmong(cs), DeathsAmong(ds[..|ds| - 1]), DeathOf(ds[|ds| - 1]));
      }
    }

    lemma {:induction false} NoDeaths(cs: seq<PlaceablePtr>)
      requires forall i :: 0 <= i < |cs| ==> !cs[i].PlayerOn?
      ensures DeathsAmong(cs) == []
    {
      if cs == [] {
      } else {
        NoDeaths(cs[..|cs| - 1]);
      }
    }

    lemma {:induction false} MetWalls(ws: seq<Wall>, p: Position)
      ensures Met(WallsOn(ws, p)) == WallsAt(ws, p)
    {
      if ws == [] {
      } else {
        MetWalls(ws[1..], p);
      }
    }

    lemma MetHead(q: ObjectPtr, tail: seq<PlaceablePtr>, p: Position, self: ActorId)
      ensures var here := q.Value().pos == p && q.Id() != self;
        Met((if here then [ObjectOn(q)] else []) + tail) == (if here then [AnItem(q.Value())] else []) + Met(tail)
    {
      if q.Value().pos == p && q.Id() != self {
        assert ([ObjectOn(q)] + tail)[1..] == tail;
      } else {
        assert [] + tail == tail;
      }
    }

    lemma {:induction false} MetObjects(ps: seq<ObjectPtr>, p: Position, self: ActorId)
      ensures Met(ObjectsOn(ps, p, self)) == ItemsAt(View(ps), p, self)
    {
      if ps == [] {
      } else {
        MetObjects(ps[1..], p, self);
        MetHead(ps[0], ObjectsOn(ps[1..], p, self), p, self);
        assert View(ps)[1..] == View(ps[1..]);
      }
    }

    function PlayersOn(p: Position): seq<PlaceablePtr>
      reads player1, player2
    {
      (if player1.position == p then [PlayerOn(player1)] else []) +
      (if player2.position == p then [PlayerOn(player2)] else [])
    }

    /** The players met, and the verdicts they cause. */
    lemma MetPlayers(p: Position)
      requires player1 != player2
      ensures var r := PlayersOn(p);
        && Met(r) == PlayersAt(Arena(), p) && ShotIds(r) == {} && DeathsAmong(r) == Deaths(Arena(), p)
    {
      var a := if player1.position == p then [PlayerOn(player1)] else [];
      var b := if player2.position == p then [PlayerOn(player2)] else [];
      DeathsConcat(a, b);
      ShotIdsConcat(a, b);
      assert a != [] ==> a[..0] == [];
      assert b != [] ==> b[..0] == [];
    }

    /** What `cs` lists are known objects and players, no object twice. */
    ghost predicate Known(cs: seq<PlaceablePtr>)
      reads this
    {
      && DifferentObjects(cs)
      && (forall i :: 0 <= i < |cs| && cs[i].ObjectOn? ==> cs[i].ptr in objects)
      && (forall i :: 0 <= i < |cs| && cs[i].PlayerOn? ==> cs[i].player in {player1, player2})
    }

    lemma ListedKnown(cs: seq<PlaceablePtr>, self: ActorId)
      requires Listed(cs, objects, self) && DifferentObjects(cs)
      ensures Known(cs)
    {
    }

    lemma KnownConcat(cs: seq<PlaceablePtr>, ds: seq<PlaceablePtr>)
      requires Known(cs) && Known(ds)
      requires (forall i :: 0 <= i < |cs| ==> !cs[i].ObjectOn?) || (forall i :: 0 <= i < |ds| ==> !ds[i].ObjectOn?)
      ensures Known(cs + ds)
    {
    }

    /** `cs` is what a bullet with the id `self` meets on the cell `p`: known things, none twice, the bullet not among
        them, in the order of walls, objects and players; with the bullets it erases, the deaths it causes and the
        interactions it logs. */
    ghost predicate Contents(cs: seq<PlaceablePtr>, s: seq<Item>, p: Position, self: ActorId)
      reads this, player1, player2, RefsOn(cs)
    {
      && Known(cs) && self !in ShotIds(cs)
      && Met(cs) == Collisions(Arena(), s, p, self)
      && ShotIds(cs) == Downed(s, p, self)
      && DeathsAmong(cs) == Deaths(Arena(), p)
      && forall j :: 0 <= j < |cs| ==> Meeting(self, cs[j]) == Interactions(self, Met(cs))[j]
    }

    lemma MeetingOne(bullet: ActorId, c: PlaceablePtr)
      ensures Meeting(bullet, c) ==
              Event(UNSTAMPED, bullet, BulletInteraction, Interaction(Kind(c).Id(), Kind(c).Reaction()))
    {
    }

    lemma Meetings(bullet: ActorId, cs: seq<PlaceablePtr>)
      ensures forall j :: 0 <= j < |cs| ==> Meeting(bullet, cs[j]) == Interactions(bullet, Met(cs))[j]
    {
      var met := Met(cs);
      forall j | 0 <= j < |cs| ensures Meeting(bullet, cs[j]) == Interactions(bullet, met)[j] {
        MeetingOne(bullet, cs[j]);
      }
    }

    lemma KnownThree(ws: seq<PlaceablePtr>, os: seq<PlaceablePtr>, ps: seq<PlaceablePtr>)
      requires (forall i :: 0 <= i < |ws| ==> ws[i].WallOn?) && Known(os)
      requires forall i :: 0 <= i < |ps| ==> ps[i].PlayerOn? && ps[i].player in {player1, player2}
      ensures Known(ws + os + ps)
    {
      KnownConcat(ws, os);
      KnownConcat(ws + os, ps);
    }

    lemma CellKnown(p: Position, self: ActorId)
      requires BoardValid()
      ensures Known(WallsOn(terrain, p) + ObjectsOn(objects, p, self) + PlayersOn(p))
    {
      ObjectsOnIn(objects, p, self);
      ObjectsOnDiffer(objects, p, self);
      ListedKnown(ObjectsOn(objects, p, self), self);
      NoShotWalls(terrain, p);
      KnownThree(WallsOn(terrain, p), ObjectsOn(objects, p, self), PlayersOn(p));
    }

    lemma CellMet(p: Position, self: ActorId)
      requires Players()
      ensures Met(WallsOn(terrain, p) + ObjectsOn(objects, p, self) + PlayersOn(p)) ==
              Collisions(Arena(), View(objects), p, self)
    {
      MetWalls(terrain, p);
      MetObjects(objects, p, self);
      MetPlayers(p);
      MetConcat(WallsOn(terrain, p), ObjectsOn(objects, p, self));
      MetConcat(WallsOn(terrain, p) + ObjectsOn(objects, p, self), PlayersOn(p));
    }

    lemma CellShots(p: Position, self: ActorId)
      requires Players()
      ensures var cs := WallsOn(terrain, p) + ObjectsOn(objects, p, self) + PlayersOn(p);
        && ShotIds(cs) == Downed(View(objects), p, self)
        && DeathsAmong(cs) == Deaths(Arena(), p)
    {
      var walls, items, players := WallsOn(terrain, p), ObjectsOn(objects, p, self), PlayersOn(p);
      NoShotWalls(terrain, p);
      ObjectsOnShot(objects, p, self);
      ObjectsOnIn(objects, p, self);
      MetPlayers(p);
      ShotIdsConcat(walls, items);
      ShotIdsConcat(walls + items, players);
      NoDeaths(walls + items);
      DeathsConcat(walls + items, players);
    }

    lemma CellFacts(cs: seq<PlaceablePtr>, s: seq<Item>, p: Position, self: ActorId)
      requires BoardValid() && Shows(objects, s)
      requires cs == WallsOn(terrain, p) + ObjectsOn(objects, p, self) + PlayersOn(p)
      ensures Contents(cs, s, p, self)
    {
      ShowsView(objects, s);
      CellKnown(p, self);
      CellShots(p, self);
      CellMet(p, self);
      Meetings(self, cs);
    }

    /** Everything on the bullet's cell; `None` when the bullet has left the map. */
    function CollisionsOnCell(bullet: Bullet): Option<seq<PlaceablePtr>>
      reads this, bullet, player1, player2, Refs(objects)
    {
      var position := bullet.position;
      if position.x >= width || position.y >= height || position.x < 0 || position.y < 0 then None
      else Some(WallsOn(terrain, position) + ObjectsOn(objects, position, bullet.actorId) + PlayersOn(position))
    }

    /** What `CollisionsOnCell` finds, in terms of the values of the objects. */
    lemma CellContents(bullet: Bullet, s: seq<Item>)
      requires OnBoard(BulletPtr(bullet)) && Shows(objects, s)
      ensures var r, p, id := CollisionsOnCell(bullet), bullet.position, bullet.actorId;
        && (r.None? <==> !Arena().InMap(p))
        && (r.Some? ==> Contents(r.value, s, p, id))
    {
      var p, id := bullet.position, bullet.actorId;
      CellFacts(WallsOn(terrain, p) + ObjectsOn(objects, p, id) + PlayersOn(p), s, p, id);
    }

    /** Kills the first player, in scan order, on a map cell within the explosion radius, which is one cell. */
    method Explode(position: Position)
      requires Players()
      modifies this`scoreboard
      ensures Players()
      ensures var v := Victim(Arena(), position);
        Score() == old(Score()) + if v.Some? then Verdict(v.value) else []
      ensures Score() == old(Score()) <==>
        !Near(Arena(), position, player1.position) && !Near(Arena(), position, player2.position)
    {
      VictimExactly(Arena(), position, First);
      var x := Max(0, position.x - BOMB_EXPLODE_RADIUS);
      while x <= Min(width - 1, position.x + BOMB_EXPLODE_RADIUS)
        invariant 0 <= x && position.x - BOMB_EXPLODE_RADIUS <= x
        invariant InBlast(Arena(), position, player1.position) ==> x <= player1.position.x
        invariant InBlast(Arena(), position, player2.position) ==> x <= player2.position.x
      {
        var y := Max(0, position.y - BOMB_EXPLODE_RADIUS);
        while y <= Min(height - 1, position.y + BOMB_EXPLODE_RADIUS)
          invariant 0 <= y && position.y - BOMB_EXPLODE_RADIUS <= y
          invariant InBlast(Arena(), position, player1.position) ==> !ScannedBefore(player1.position, Position(x, y))
          invariant InBlast(Arena(), position, player2.position) ==> !ScannedBefore(player2.position, Position(x, y))
        {
          var pos := Position(x, y);
          if player1.position == pos {
            var _ := player1.Die(this);
            return;
          }
          if player2.position == pos {
            var _ := player2.Die(this);
            return;
          }
          y := y + 1;
        }
        x := x + 1;
      }
    }

    // ---------- the walk over the list ----------

    /** `(*it)->UpdateTick()`. */
    method UpdateTick(p: ObjectPtr, ghost s: seq<Item>, ghost e: Effect)
      returns (happened: seq<Event>, ghost fired: seq<ObjectPtr>)
      requires OnBoard(p) && Shows(objects, s) && e == Tick(Arena(), s, idCounter, p.Value())
      modifies this`objects, this`scoreboard, this`idCounter, p.Ref()
      ensures BoardValid()
      ensures happened == e.events && p.Value() == e.self
      ensures Arena() == old(Arena()) && Clock() == old(Clock())
      ensures objects == KeepPtrs(old(objects), e.gone) + fired
      ensures Score() == old(Score()) + e.verdict
      ensures idCounter == old(idCounter) + |e.spawn|
      ensures fresh(Refs(fired)) && Shows(fired, e.spawn)
    {
      fired := [];
      match p {
        case BombPtr(bomb) => happened := bomb.UpdateTick(this);
        case GunPtr(gun) => happened, fired := gun.UpdateTick(this);
        case BulletPtr(bullet) => happened := bullet.UpdateTick(this, s);
      }
    }

    /** The same, the other objects of the list keeping their values. */
    method TickApart(p: ObjectPtr, ghost s: seq<Item>, ghost e: Effect)
      returns (happened: seq<Event>, ghost fired: seq<ObjectPtr>)
      requires OnBoard(p) && Shows(objects, s) && e == Tick(Arena(), s, idCounter, p.Value())
      modifies this`objects, this`scoreboard, this`idCounter, p.Ref()
      ensures BoardValid()
      ensures happened == e.events && p.Value() == e.self
      ensures Arena() == old(Arena()) && Clock() == old(Clock())
      ensures objects == KeepPtrs(old(objects), e.gone) + fired
      ensures Score() == old(Score()) + e.verdict
      ensures idCounter == old(idCounter) + |e.spawn|
      ensures fresh(Refs(fired)) && Shows(fired, e.spawn)
      ensures forall i :: 0 <= i < |old(objects)| && old(objects)[i] != p ==> old(objects)[i].Value() == s[i]
    {
      ghost var before := objects;
      happened, fired := UpdateTick(p, s, e);
      assert forall i :: 0 <= i < |before| && before[i] != p ==> before[i].Ref() != p.Ref();
    }

    /** The same for the values of the whole list. */
    method TickInList(p: ObjectPtr, ghost s: seq<Item>, ghost e: Effect)
      returns (happened: seq<Event>, ghost made: set<object>)
      requires OnBoard(p) && Shows(objects, s) && e == Tick(Arena(), s, idCounter, p.Value())
      modifies this`objects, this`scoreboard, this`idCounter, p.Ref()
      ensures BoardValid()
      ensures happened == e.events
      ensures Score() == old(Score()) + e.verdict
      ensures idCounter == old(idCounter) + |e.spawn|
      ensures Shows(objects, Apply(s, e))
      ensures Arena() == old(Arena()) && Clock() == old(Clock())
      ensures Survive(old(objects), e.gone, objects)
      ensures fresh(made) && Refs(objects) <= old(Refs(objects)) + made
    {
      ghost var before := objects;
      ghost var fired;
      happened, fired := TickApart(p, s, e);
      made := Refs(fired);
      ShowsTick(before, objects, s, p, e, fired);
    }

    /** The board is where a round in progress says it is. */
    ghost predicate Tracks(f: Field)
      reads this, Refs(objects)
    {
      Shows(objects, f.All()) && idCounter == f.nextId && Score() == f.score
    }

    /** The log holds `es` after what it held at `log`. */
    ghost predicate Logs(log: Log, es: seq<Event>)
      reads events
    {
      AddAll(log, es) == Some(events.State())
    }

    /** Ticks the object `p`, the first pending one of the round `f`. */
    method TickTracked(p: ObjectPtr, ghost f: Field, ghost e: Effect)
      returns (happened: seq<Event>, ghost made: set<object>)
      requires OnBoard(p) && Tracks(f)
      requires f.todo != [] && p.Value() == f.todo[0]
      requires e == Next(Arena(), f)
      modifies this`objects, this`scoreboard, this`idCounter, p.Ref()
      ensures BoardValid() && Tracks(Ticked(f, e))
      ensures Arena() == old(Arena()) && Clock() == old(Clock())
      ensures happened == e.events
      ensures Survive(old(objects), e.gone, objects)
      ensures fresh(made) && Refs(objects) <= old(Refs(objects)) + made
    {
      PtrIdsUnique(objects, f.All());
      TickPossible(Arena(), f.All(), f.nextId, f.todo[0]);
      TickedIsApply(f, e);
      happened, made := TickInList(p, f.All(), e);
    }

    /** Appends events to the log, which never refuses them. */
    method LogAll(happened: seq<Event>, ghost log: Log, ghost es: seq<Event>)
      requires Logs(log, es) && IndexAgrees(log) && InStep(log)
      modifies events
      ensures Logs(log, es + happened)
    {
      AddAllConcat(log, es, happened);
      AddAllAppends(log, es + happened);
      var threw := events.AddEvents(happened);
    }

    /** The same, the objects keeping their values. */
    method LogBesideBoard(happened: seq<Event>, ghost log: Log, ghost es: seq<Event>, ghost v: seq<Item>)
      requires Logs(log, es) && IndexAgrees(log) && InStep(log) && Shows(objects, v)
      modifies events
      ensures Logs(log, es + happened) && Shows(objects, v)
    {
      LogAll(happened, log, es);
    }

    /** Ticks the object `p` and logs its events. */
    method TickAndLog(p: ObjectPtr, ghost f: Field, ghost e: Effect, ghost log: Log) returns (ghost made: set<object>)
      requires OnBoard(p) && Tracks(f) && Logs(log, f.events) && IndexAgrees(log) && InStep(log)
      requires f.todo != [] && p.Value() == f.todo[0]
      requires e == Next(Arena(), f)
      modifies this`objects, this`scoreboard, this`idCounter, p.Ref(), events
      ensures BoardValid() && Tracks(Ticked(f, e)) && Logs(log, Ticked(f, e).events)
      ensures Arena() == old(Arena()) && Clock() == old(Clock())
      ensures Survive(old(objects), e.gone, objects)
      ensures fresh(made) && Refs(objects) <= old(Refs(objects)) + made
    {
      var happened;
      happened, made := TickTracked(p, f, e);
      LogBesideBoard(happened, log, f.events, Ticked(f, e).All());
    }

    lemma FreshIds(f: Field)
      requires BoardValid() && Tracks(f)
      ensures IdsFresh(f)
    {
      PtrIdsUnique(objects, f.All());
    }

    /** The body and the condition of the first loop of `AfterMove`. */
    method TickFirst(ghost f: Field, ghost e: Effect, ghost log: Log)
      returns (prev: ObjectPtr, again: bool, ghost made: set<object>)
      requires BoardValid() && Tracks(f) && Logs(log, f.events) && IndexAgrees(log) && InStep(log)
      requires f.done == [] && f.todo != [] && e == Next(Arena(), f)
      modifies this`objects, this`scoreboard, this`idCounter, objects[0].Ref(), events
      ensures BoardValid() && Tracks(Ticked(f, e)) && Logs(log, Ticked(f, e).events)
      ensures Arena() == old(Arena()) && Clock() == old(Clock())
      ensures fresh(made) && Refs(objects) <= old(Refs(objects)) + made
      ensures var g := Ticked(f, e);
        && (again <==> g.score == [] && g.done == [] && g.todo != [])
        && (g.done != [] ==> |g.done| == 1 && objects != [] && prev == objects[0])
    {
      prev := objects[0];
      ghost var before := objects;
      FreshIds(f);
      TickPossible(Arena(), f.All(), f.nextId, f.todo[0]);
      made := TickAndLog(prev, f, e, log);
      FirstPlace(before, objects, f, e);
      again := |scoreboard| == 0 && (|objects| == 0 || prev != objects[0]) && |objects| != 0;
    }

    /** The same, as one step of the worklist that started at `f0`. */
    method StepFirst(ghost f0: Field, ghost f: Field, ghost log: Log)
      returns (prev: ObjectPtr, again: bool, ghost g: Field, ghost made: set<object>)
      requires BoardValid() && Tracks(f) && Logs(log, f.events) && IndexAgrees(log) && InStep(log)
      requires f.done == [] && f.todo != [] && (f == f0 || (f.score == [] && Walked(Arena(), f0, f)))
      modifies this`objects, this`scoreboard, this`idCounter, objects[0].Ref(), events
      ensures BoardValid() && Tracks(g) && Logs(log, g.events)
      ensures Arena() == old(Arena()) && Clock() == old(Clock())
      ensures Walked(Arena(), f0, g) && Work(g.todo) < Work(f.todo)
      ensures fresh(made) && Refs(objects) <= old(Refs(objects)) + made
      ensures again <==> g.score == [] && g.done == [] && g.todo != []
      ensures g.done != [] ==> |g.done| == 1 && objects != [] && prev == objects[0]
    {
      ghost var e := Next(Arena(), f);
      FirstStep(Arena(), f0, f, e);
      g := Ticked(f, e);
      prev, again, made := TickFirst(f, e, log);
    }

    /** First loop of `AfterMove`: ticks the first object, again and again as long as it erases itself.
        `f` is the round afterwards. */
    method UpdateFirst(ghost f0: Field, ghost log: Log)
      returns (prev: ObjectPtr, ghost f: Field, ghost made: set<object>)
      requires BoardValid() && Tracks(f0) && Logs(log, f0.events) && IndexAgrees(log) && InStep(log)
      requires |objects| != 0 && f0.done == []
      modifies this`objects, this`scoreboard, this`idCounter, Refs(objects), events
      ensures BoardValid() && Tracks(f) && Logs(log, f.events)
      ensures fresh(made) && Refs(objects) <= old(Refs(objects)) + made
      ensures Arena() == old(Arena()) && Clock() == old(Clock()) && Walked(Arena(), f0, f)
      ensures |scoreboard| == 0 && |objects| != 0 ==> |f.done| == 1 && prev == objects[0]
    {
      f := f0;
      made := {};
      prev := objects[0];
      var again := true;
      while again
        invariant BoardValid() && Tracks(f) && Logs(log, f.events) && Arena() == old(Arena()) && Clock() == old(Clock())
        invariant fresh(made) && Refs(objects) <= old(Refs(objects)) + made
        invariant again ==> f.done == [] && f.todo != [] && (f == f0 || f.score == [])
        invariant f != f0 || !again ==> Walked(Arena(), f0, f)
        invariant !again && |scoreboard| == 0 && |objects| != 0 ==> |f.done| == 1 && prev == objects[0]
        decreases Work(f.todo), again
      {
        ghost var more;
        prev, again, f, more := StepFirst(f0, f, log);
        made := made + more;
      }
    }

    /** The iterators of the second loop: the last object processed, and the first pending one or `end()`. */
    ghost predicate At(f: Field, prev: ObjectPtr, it: Option<ObjectPtr>)
      reads this
    {
      && 0 < |f.done| <= |objects| && prev == objects[|f.done| - 1]
      && it == if |f.done| < |objects| then Some(objects[|f.done|]) else None
    }

    /** The body of the second loop of `AfterMove`. `erased` reports that `prev` was erased from the list:
        the program then reads an erased node. */
    method TickOther(prev: ObjectPtr, it: ObjectPtr, ghost f: Field, ghost e: Effect, ghost log: Log)
      returns (erased: bool, newPrev: ObjectPtr, newIt: Option<ObjectPtr>, ghost made: set<object>)
      requires BoardValid() && Tracks(f) && Logs(log, f.events) && IndexAgrees(log) && InStep(log)
      requires f.todo != [] && At(f, prev, Some(it)) && e == Next(Arena(), f)
      modifies this`objects, this`scoreboard, this`idCounter, it.Ref(), events
      ensures BoardValid() && Tracks(Ticked(f, e)) && Logs(log, Ticked(f, e).events)
      ensures Arena() == old(Arena()) && Clock() == old(Clock())
      ensures fresh(made) && Refs(objects) <= old(Refs(objects)) + made
      ensures erased <==> prev.Id() in e.gone
      ensures !erased ==> At(Ticked(f, e), newPrev, newIt)
    {
      newPrev, newIt := prev, Some(it);
      ghost var before := objects;
      FreshIds(f);
      TickPossible(Arena(), f.All(), f.nextId, f.todo[0]);
      made := TickAndLog(it, f, e, log);
      OtherPlace(before, objects, f, e);
      if prev !in objects {
        return true, prev, None, made;
      }
      erased := false;
      if NextOf(objects, prev) != Some(it) {
        newIt := NextOf(objects, prev);
      } else {
        newPrev := it;
        newIt := NextOf(objects, it);
      }
    }

    /** The same, as one step of the worklist that started at `f1`. */
    method StepOther(prev: ObjectPtr, it: ObjectPtr, ghost a: Arena, ghost f1: Field, ghost f: Field, ghost log: Log)
      returns (erased: bool, newPrev: ObjectPtr, newIt: Option<ObjectPtr>, ghost g: Field, ghost made: set<object>)
      requires BoardValid() && Tracks(f) && Logs(log, f.events) && IndexAgrees(log) && InStep(log)
      requires a == Arena() && f.todo != [] && f.score == [] && At(f, prev, Some(it)) && Continues(a, f1, f)
      modifies this`objects, this`scoreboard, this`idCounter, it.Ref(), events
      ensures BoardValid() && Tracks(g) && Logs(log, g.events)
      ensures Arena() == a && Clock() == old(Clock()) && Work(g.todo) < Work(f.todo)
      ensures fresh(made) && Refs(objects) <= old(Refs(objects)) + made
      ensures Went(a, f1, g, erased)
      ensures !erased ==> At(g, newPrev, newIt)
    {
      ghost var e := Next(a, f);
      g := Ticked(f, e);
      OtherStep(a, f, e, prev.Id());
      erased, newPrev, newIt, made := TickOther(prev, it, f, e, log);
    }

    /** The second loop, its iterators at the last object processed and the first pending one. */
    method WalkOthers(first: ObjectPtr, second: Option<ObjectPtr>, ghost a: Arena, ghost f1: Field, ghost log: Log)
      returns (prevErased: bool, ghost f: Field, ghost made: set<object>)
      requires BoardValid() && Tracks(f1) && Logs(log, f1.events) && IndexAgrees(log) && InStep(log)
      requires a == Arena() && (f1.score == [] ==> At(f1, first, second))
      modifies this`objects, this`scoreboard, this`idCounter, Refs(objects), events
      ensures BoardValid() && Tracks(f) && Logs(log, f.events) && Arena() == a && Clock() == old(Clock())
      ensures fresh(made) && Refs(objects) <= old(Refs(objects)) + made
      ensures Went(a, f1, f, prevErased) && (!prevErased ==> f.todo == [] || f.score != [])
    {
      f := f1;
      made := {};
      prevErased := false;
      ghost var refs, clock := Refs(objects), Clock();
      var prev, it := first, second;
      while !prevErased && |scoreboard| == 0 && it.Some?
        invariant BoardValid() && Tracks(f) && Logs(log, f.events) && Arena() == a && Clock() == clock
        invariant fresh(made) && Refs(objects) <= refs + made
        invariant Went(a, f1, f, prevErased)
        invariant !prevErased && f.score == [] ==> At(f, prev, it)
        decreases Work(f.todo)
      {
        ghost var more;
        prevErased, prev, it, f, more := StepOther(prev, it.value, a, f1, f, log);
        made := made + more;
      }
    }

    /** Second loop of `AfterMove`. */
    method UpdateOthers(first: ObjectPtr, ghost f1: Field, ghost log: Log)
      returns (prevErased: bool, ghost f: Field, ghost made: set<object>)
      requires BoardValid() && Tracks(f1) && Logs(log, f1.events) && IndexAgrees(log) && InStep(log)
      requires |objects| != 0
      requires |scoreboard| == 0 ==> |f1.done| == 1 && first == objects[0]
      modifies this`objects, this`scoreboard, this`idCounter, Refs(objects), events
      ensures BoardValid() && Arena() == old(Arena()) && Clock() == old(Clock())
      ensures fresh(made) && Refs(objects) <= old(Refs(objects)) + made
      ensures prevErased <==> !RoundSafe(Arena(), f1)
      ensures !prevErased ==> f == Round(Arena(), f1) && Tracks(f) && Logs(log, f.events)
    {
      ghost var a := Arena();
      prevErased, f, made := WalkOthers(first, if |objects| > 1 then Some(objects[1]) else None, a, f1, log);
      WentThrough(a, f1, f, prevErased);
    }

    function PlayerOther(): Player
      reads this
    {
      if nowTurn == player1.login then player2 else player1
    }

    /** Both loops of `AfterMove`. */
    method TickAll(ghost a: Arena, ghost f0: Field, ghost log: Log)
      returns (prevErased: bool, ghost f: Field, ghost made: set<object>)
      requires BoardValid() && Tracks(f0) && Logs(log, f0.events) && IndexAgrees(log) && InStep(log) && f0.done == []
      requires a == Arena()
      modifies this`objects, this`scoreboard, this`idCounter, Refs(objects), events
      ensures Arena() == a && Clock() == old(Clock()) && f == Traverse(a, f0)
      ensures fresh(made) && Refs(objects) <= old(Refs(objects)) + made
      ensures prevErased <==> !TraverseSafe(a, f0)
      ensures !prevErased ==> BoardValid() && Tracks(f) && Logs(log, f.events)
    {
      f := f0;
      made := {};
      prevErased := false;
      if |objects| != 0 { // the object at the front, until one stays there
        var prev;
        prev, f, made := UpdateFirst(f0, log);
        if |objects| != 0 { // the objects behind it
          ghost var more;
          prevErased, f, more := UpdateOthers(prev, f, log);
          made := made + more;
          f := Traverse(a, f0);
        }
      }
    }

    /** The end of a move: the victory or the other player's turn. */
    method EndMove(ghost a: Arena, ghost r: Field, ghost log: Log)
      requires BoardValid() && Tracks(r) && Logs(log, r.events) && IndexAgrees(log) && InStep(log)
      requires a == Arena()
      modifies this`nowTurn, events
      ensures Arena() == a && moveNumber == old(moveNumber) && BoardValid() && Tracks(r)
      ensures Logs(log, r.events + G.Victory(a, r.score))
      ensures nowTurn == if r.score != [] then old(nowTurn) else G.OtherTurn(a, old(nowTurn))
    {
      if |scoreboard| != 0 {
        assert r.score[0] == SideOf(scoreboard[0]) && scoreboard[0] in scoreboard;
        assert G.Victory(a, r.score) == [Plain(scoreboard[0].actorId, PlayerWon)];
        LogBesideBoard([Plain(scoreboard[0].actorId, PlayerWon)], log, r.events, r.All());
        return;
      }
      assert r.events + [] == r.events;
      nowTurn := PlayerOther().login;
    }

    /** The round of ticks after an action, and its end.
        `prevErased` reports that the walk reads an erased list node; nothing is said about the state then. */
    method AfterMove(ghost a: Arena, ghost f0: Field, ghost log: Log)
      returns (prevErased: bool, ghost made: set<object>)
      requires BoardValid() && Tracks(f0) && Logs(log, f0.events) && IndexAgrees(log) && InStep(log) && f0.done == []
      requires a == Arena()
      modifies this`objects, this`scoreboard, this`idCounter, this`nowTurn, Refs(objects), events
      ensures Arena() == a && moveNumber == old(moveNumber)
      ensures fresh(made) && Refs(objects) <= old(Refs(objects)) + made
      ensures prevErased <==> !TraverseSafe(a, f0)
      ensures !prevErased ==>
        var r := Traverse(a, f0);
        && BoardValid() && Tracks(r) && Logs(log, r.events + G.Victory(a, r.score))
        && nowTurn == if r.score != [] then old(nowTurn) else G.OtherTurn(a, old(nowTurn))
    {
      ghost var r;
      prevErased, r, made := TickAll(a, f0, log);
      if !prevErased {
        EndMove(a, r, log);
      }
    }

    // ---------- moves ----------

    method PlaceBombObject(position: Position, login: Login) returns (obj: Bomb)
      requires BoardValid()
      modifies this`objects, this`idCounter
      ensures BoardValid() && fresh(obj)
      ensures objects == old(objects) + [BombPtr(obj)] && idCounter == old(idCounter) + 1
      ensures BombPtr(obj).Value() == BombItem(login, old(idCounter), position, BOMB_TICKS_LEFT)
    {
      var id := GetId();
      obj := new Bomb(login, id, position);
      objects := objects + [BombPtr(obj)];
    }

    method PlaceGunObject(position: Position, direction: Direction, login: Login) returns (obj: Gun)
      requires BoardValid()
      modifies this`objects, this`idCounter
      ensures BoardValid() && fresh(obj)
      ensures objects == old(objects) + [GunPtr(obj)] && idCounter == old(idCounter) + 1
      ensures GunPtr(obj).Value() == GunItem(login, old(idCounter), position, direction, GUN_COOLDOWN, GUN_SHOTS)
    {
      var id := GetId();
      obj := new Gun(login, id, position, direction);
      objects := objects + [GunPtr(obj)];
    }

    /** The board is that of the state `s`. */
    ghost predicate Holds(s: G.GameState)
      reads this, player1, player2, Refs(objects)
    {
      && BoardValid() && Arena() == s.arena && Shows(objects, s.objects)
      && idCounter == s.nextId && Score() == s.score
    }

    /** The board is that between the action and the round. */
    ghost predicate Standing(c: G.Acted)
      reads this, player1, player2, Refs(objects)
    {
      BoardValid() && Arena() == c.arena && Tracks(G.Pending(c))
    }

    /** The player's action has been performed and its event logged. */
    ghost predicate Performed(c: G.Acted, log: Log)
      reads this, player1, player2, events, Refs(objects)
    {
      Standing(c) && Logs(log, [c.event])
    }

    method LogOne(event: Event, ghost log: Log)
      requires Logs(log, []) && IndexAgrees(log) && InStep(log)
      modifies events
      ensures Logs(log, [event])
    {
      AddOne(log, event);
      var threw := events.AddEvent(event);
    }

    /** Logs one event, the objects keeping their values. */
    method LogOneBeside(event: Event, ghost log: Log, ghost v: seq<Item>)
      requires Logs(log, []) && IndexAgrees(log) && InStep(log) && Shows(objects, v)
      modifies events
      ensures Logs(log, [event]) && Shows(objects, v)
    {
      LogOne(event, log);
    }

    /** Logs the event of the action `c` that has been performed. */
    method LogActed(event: Event, ghost c: G.Acted, ghost log: Log)
      requires Standing(c) && event == c.event && Logs(log, []) && IndexAgrees(log) && InStep(log)
      modifies events
      ensures Performed(c, log)
    {
      LogOneBeside(event, log, G.Pending(c).All());
    }

    method Step(player: Player, p: Position, ghost v: seq<Item>)
      requires BoardValid() && Shows(objects, v) && player in {player1, player2} && player1 != player2
      modifies player`position
      ensures BoardValid() && Shows(objects, v) && player.position == p
      ensures Arena() == G.MovePlayer(old(Arena()), SideOf(player), p)
    {
      player.position := p;
    }

    lemma StandsAt(c: G.Acted)
      requires BoardValid() && Arena() == c.arena && Shows(objects, c.objects)
      requires idCounter == c.nextId && Score() == c.score
      ensures Standing(c)
    {
      assert G.Pending(c).All() == c.objects;
    }

    method ApiWalk(player: Player, md: MoveData, ghost s: G.GameState, ghost log: Log)
      requires Holds(s) && Logs(log, []) && IndexAgrees(log) && InStep(log)
      requires player in {player1, player2} && player1 != player2 && md.moveType == Walk
      modifies player`position, events
      ensures Performed(G.Act(s, SideOf(player), md), log)
    {
      ghost var c := G.Act(s, SideOf(player), md);
      Step(player, md.position, s.objects);
      StandsAt(c);
      LogActed(Event(UNSTAMPED, player.actorId, PlayerWalk, Positioned(player.position)), c, log);
    }

    method Concede(player: Player, ghost v: seq<Item>)
      requires BoardValid() && Shows(objects, v) && player in {player1, player2}
      modifies this`scoreboard
      ensures BoardValid() && Shows(objects, v)
      ensures Score() == old(Score()) + Verdict(SideOf(player))
    {
      FinishSession(player1.actorId != player.actorId);
    }

    method ApiResign(player: Player, md: MoveData, ghost s: G.GameState, ghost log: Log)
      requires Holds(s) && Logs(log, []) && IndexAgrees(log) && InStep(log)
      requires player in {player1, player2} && md.moveType == Resign
      modifies this`scoreboard, events
      ensures Performed(G.Act(s, SideOf(player), md), log)
    {
      ghost var c := G.Act(s, SideOf(player), md);
      Concede(player, s.objects);
      StandsAt(c);
      LogActed(Plain(player.actorId, PlayerResign), c, log);
    }

    method ApiPlaceBomb(player: Player, md: MoveData, ghost s: G.GameState, ghost log: Log)
      requires Holds(s) && Logs(log, []) && IndexAgrees(log) && InStep(log)
      requires player in {player1, player2} && md.moveType == PlaceBomb
      modifies this`objects, this`idCounter, events
      ensures Performed(G.Act(s, SideOf(player), md), log)
      ensures |objects| == |old(objects)| + 1 && old(objects) < objects && fresh(objects[|old(objects)|].Ref())
    {
      ghost var c := G.Act(s, SideOf(player), md);
      ghost var before := objects;
      var bomb := PlaceBombObject(md.position, player.login);
      ShowsMore(before, s.objects, BombPtr(bomb));
      StandsAt(c);
      LogActed(Event(UNSTAMPED, player.actorId, PlayerPlaceBomb, NewObject(bomb.position, bomb.actorId)), c, log);
    }

    method ApiPlaceGun(player: Player, md: MoveData, ghost s: G.GameState, ghost log: Log)
      requires Holds(s) && Logs(log, []) && IndexAgrees(log) && InStep(log)
      requires player in {player1, player2} && md.moveType == PlaceGun
      modifies this`objects, this`idCounter, events
      ensures Performed(G.Act(s, SideOf(player), md), log)
      ensures |objects| == |old(objects)| + 1 && old(objects) < objects && fresh(objects[|old(objects)|].Ref())
    {
      ghost var c := G.Act(s, SideOf(player), md);
      ghost var before := objects;
      var gun := PlaceGunObject(md.position, md.direction, player.login);
      ShowsMore(before, s.objects, GunPtr(gun));
      StandsAt(c);
      LogActed(Event(UNSTAMPED, player.actorId, PlayerPlaceGun, NewDirObject(gun.position, gun.actorId, gun.direction)),
               c, log);
    }

    // ---------- the whole session ----------

    method IncreaseMoveNumber()
      modifies this`moveNumber, events
      ensures moveNumber == old(moveNumber) + 1
      ensures events.State() == old(events.State()).(moveNumber := moveNumber)
    {
      moveNumber := moveNumber + 1;
      events.SetMoveNumber(moveNumber);
    }

    /** The `switch` of `ApiMove`. */
    method Perform(player: Player, md: MoveData, ghost s: G.GameState, ghost log: Log) returns (ghost made: set<object>)
      requires Holds(s) && Logs(log, []) && IndexAgrees(log) && InStep(log)
      requires player in {player1, player2} && player1 != player2
      modifies player`position, this`scoreboard, this`objects, this`idCounter, events
      ensures Performed(G.Act(s, SideOf(player), md), log)
      ensures fresh(made) && Refs(objects) <= old(Refs(objects)) + made
    {
      made := {};
      ghost var before := objects;
      match md.moveType {
        case Walk => ApiWalk(player, md, s, log);
        case Resign => ApiResign(player, md, s, log);
        case PlaceBomb =>
          ApiPlaceBomb(player, md, s, log);
          made := {objects[|before|].Ref()};
          RefsOneMore(before, objects);
        case PlaceGun =>
          ApiPlaceGun(player, md, s, log);
          made := {objects[|before|].Ref()};
          RefsOneMore(before, objects);
      }
    }

    /** The round after a performed action. */
    method RoundAfter(ghost c: G.Acted, ghost r: Field, ghost log: Log)
      returns (prevErased: bool, ghost made: set<object>)
      requires Performed(c, log) && IndexAgrees(log) && InStep(log) && r == G.AfterAct(c)
      modifies this`objects, this`scoreboard, this`idCounter, this`nowTurn, Refs(objects), events
      ensures moveNumber == old(moveNumber) && Arena() == c.arena
      ensures fresh(made) && Refs(objects) <= old(Refs(objects)) + made
      ensures prevErased <==> !TraverseSafe(c.arena, G.Pending(c))
      ensures !prevErased ==>
        && BoardValid() && Tracks(r)
        && nowTurn == (if r.score != [] then old(nowTurn) else G.OtherTurn(c.arena, old(nowTurn)))
        && AddAll(log, G.MoveEvents(c, r)) == Some(events.State())
    {
      ghost var acted := events.State();
      AddAllAppends(log, [c.event]);
      prevErased, made := AfterMove(c.arena, G.Pending(c), acted);
      if !prevErased {
        MoveEventsInTwo(log, c, r, acted);
      }
    }

    method AdvanceBeside(ghost s: G.GameState)
      requires Holds(s)
      modifies this`moveNumber, events
      ensures Holds(s) && moveNumber == old(moveNumber) + 1
      ensures events.State() == old(events.State()).(moveNumber := moveNumber)
    {
      IncreaseMoveNumber();
    }

    /** The log moves on to the next move; the board stays. */
    method Advance(ghost s: G.GameState, ghost log: Log)
      requires Valid() && s == State() && log == s.log.(moveNumber := s.moveNumber + 1)
      modifies this`moveNumber, events
      ensures Holds(s) && Logs(log, []) && IndexAgrees(log) && InStep(log)
      ensures moveNumber == s.moveNumber + 1
    {
      ShowsView(objects, s.objects);
      assert Holds(s);
      AdvanceBeside(s);
    }

    /** The action of an accepted move. */
    method ActFirst(player: Player, md: MoveData, ghost s: G.GameState, ghost log: Log)
      returns (ghost made: set<object>)
      requires Valid() && player in {player1, player2} && s == State()
      requires log == s.log.(moveNumber := s.moveNumber + 1)
      modifies player`position, this`scoreboard, this`objects, this`idCounter, this`moveNumber, events
      ensures Performed(G.Act(s, SideOf(player), md), log) && IndexAgrees(log) && InStep(log)
      ensures moveNumber == s.moveNumber + 1 && nowTurn == s.nowTurn
      ensures fresh(made) && Refs(objects) <= old(Refs(objects)) + made
    {
      Advance(s, log);
      made := Perform(player, md, s, log);
    }

    /** The state at the end of an accepted move, put together from its parts. */
    lemma StateIs(s: G.GameState, c: G.Acted, r: Field)
      requires Arena() == c.arena && Tracks(r) && moveNumber == s.moveNumber + 1
      requires nowTurn == if r.score != [] then s.nowTurn else G.OtherTurn(c.arena, s.nowTurn)
      ensures State() == G.Moved(s, c, r, events.State())
    {
      ShowsView(objects, r.All());
    }

    /** An accepted move: the action, then the round of ticks. */
    method ActAndTick(player: Player, md: MoveData, ghost s: G.GameState, ghost c: G.Acted, ghost r: Field,
                      ghost log: Log)
      returns (prevErased: bool, ghost made: set<object>)
      requires Valid() && player in {player1, player2} && s == State()
      requires log == s.log.(moveNumber := s.moveNumber + 1)
      requires c == G.Act(s, SideOf(player), md) && r == G.AfterAct(c)
      modifies this, events, player1, player2, Refs(objects)
      ensures fresh(made) && Refs(objects) <= old(Refs(objects)) + made
      ensures prevErased <==> !TraverseSafe(c.arena, G.Pending(c))
      ensures !prevErased ==>
        && BoardValid() && AddAll(log, G.MoveEvents(c, r)) == Some(events.State())
        && State() == G.Moved(s, c, r, events.State())
    {
      ghost var more;
      made := ActFirst(player, md, s, log);
      prevErased, more := RoundAfter(c, r, log);
      made := made + more;
      if !prevErased {
        StateIs(s, c, r);
      }
    }

    /** An accepted move whose outcome is `o`. */
    method Accept(player: Player, md: MoveData, ghost s: G.GameState, ghost c: G.Acted, ghost o: G.Outcome)
      returns (prevErased: bool, ghost made: set<object>)
      requires Valid() && player in {player1, player2} && s == State()
      requires c == G.Act(s, SideOf(player), md) && Ends(s, c, o)
      modifies this, events, player1, player2, Refs(objects)
      ensures fresh(made) && Refs(objects) <= old(Refs(objects)) + made
      ensures prevErased <==> o.PrevErased?
      ensures !prevErased ==> Valid() && State() == o.state
    {
      prevErased, made := ActAndTick(player, md, s, c, G.AfterAct(c), s.log.(moveNumber := s.moveNumber + 1));
    }

    /** `prevErased` reports that the walk over the objects read an erased list node.
        `made` holds the objects allocated. */
    method ApiMove(id: Login, md: MoveData)
      returns (status: GameApiStatus, prevErased: bool, ghost made: set<object>)
      requires Valid()
      modifies this, events, player1, player2, Refs(objects)
      ensures var o := old(G.ApiMove(State(), id, md));
        && status == o.0
        && !o.1.LogThrew?
        && (prevErased <==> o.1.PrevErased?)
        && (!prevErased ==> Valid() && State() == o.1.state)
      ensures fresh(made) && Refs(objects) <= old(Refs(objects)) + made
    {
      var player := if id == player1.login then player1 else player2;
      status := Validate(Arena(), View(objects), nowTurn, player.Value(), md);
      prevErased := false;
      made := {};
      if status == Ok {
        ghost var s, side := State(), SideOf(player);
        AcceptEnds(s, side, md);
        prevErased, made := Accept(player, md, s, G.Act(s, side, md), G.Accept(s, side, md));
      }
    }

    /** Winner and loser, once the scoreboard has them. */
    function GetResults(): (r: Option<G.Results>)
      requires Players() && |scoreboard| != 1
      reads this, player1, player2, events, Refs(objects)
      ensures r == G.GetResults(State())
    {
      if |scoreboard| == 0 then None
      else
        assert scoreboard[0] in scoreboard && scoreboard[1] in scoreboard;
        Some(G.Results(scoreboard[0].login, scoreboard[1].login))
    }
  }
}
