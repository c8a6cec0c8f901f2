/** The log determines the board: a client that holds the log and knows the two logins and how a game starts
    can rebuild it. */
module GameReplay {
  import opened Board
  import opened Ticks
  import opened Rounds
  import opened RoundBoard
  import opened EventLog
  import opened Validation
  import opened GameInvariant
  import opened GameRun
  import S = GameServer
  import N = StateNotifier
  import G = Game

  /** What a client draws: where the players are, and the objects with ids, cells, directions and countdowns. */
  datatype Picture = Picture(first: Position, second: Position, objects: seq<Item>)

  datatype Logins = Logins(first: Login, second: Login)

  const START := Picture(Position(4, 1), Position(3, 6), [])

  /** The object `id` after one tick that it survives. */
  function Touch(s: seq<Item>, id: ActorId): (r: seq<Item>)
    ensures |r| == |s| && forall i :: 0 <= i < |s| ==> r[i] == if s[i].id == id then Advanced(s[i]) else s[i]
  {
    seq(|s|, i requires 0 <= i < |s| => if s[i].id == id then Advanced(s[i]) else s[i])
  }

  function OwnerOf(s: seq<Item>, id: ActorId): Login {
    if s == [] then "" else if s[0].id == id then s[0].owner else OwnerOf(s[1..], id)
  }

  /** The bullets whose end is told inside an interaction. */
  function Fallen(happened: seq<Event>): set<ActorId> {
    set e | e in happened && e.name == BulletDestroy :: e.actor
  }

  /** The picture after one more event. */
  function Redraw(ls: Logins, p: Picture, e: Event): Picture {
    var login := if e.actor == 0 then ls.first else ls.second;
    match e.name
    case PlayerWalk =>
      if !e.payload.Positioned? then p
      else if e.actor == 0 then p.(first := e.payload.pos) else p.(second := e.payload.pos)
    case PlayerPlaceBomb =>
      if !e.payload.NewObject? then p
      else p.(objects := p.objects + [BombItem(login, e.payload.newActor, e.payload.pos, BOMB_TICKS_LEFT)])
    case PlayerPlaceGun =>
      if !e.payload.NewDirObject? then p
      else
        var gun := GunItem(login, e.payload.newActor, e.payload.pos, e.payload.dir, GUN_COOLDOWN, GUN_SHOTS);
        p.(objects := p.objects + [gun])
    case BombTicking => p.(objects := Touch(p.objects, e.actor))
    case GunWaiting => p.(objects := Touch(p.objects, e.actor))
    case BulletFly => p.(objects := Touch(p.objects, e.actor))
    case GunShot =>
      if !e.payload.NewDirObject? then p
      else
        var bullet := BulletItem(OwnerOf(p.objects, e.actor), e.payload.newActor, e.payload.pos, e.payload.dir);
        p.(objects := Touch(p.objects, e.actor) + [bullet])
    case BulletInteraction =>
      if !e.payload.Interaction? then p else p.(objects := Keep(p.objects, Fallen(e.payload.happened)))
    case BombExplode => p.(objects := Keep(p.objects, {e.actor}))
    case GunDestroy => p.(objects := Keep(p.objects, {e.actor}))
    case BulletDestroy => p.(objects := Keep(p.objects, {e.actor}))
    case _ => p
  }

  /** The picture after further events. */
  function Draw(ls: Logins, p: Picture, es: seq<Event>): Picture {
    if es == [] then p else Redraw(ls, Draw(ls, p, es[..|es| - 1]), es[|es| - 1])
  }

  lemma {:induction false} DrawConcat(ls: Logins, p: Picture, es: seq<Event>, fs: seq<Event>)
    ensures Draw(ls, p, es + fs) == Draw(ls, Draw(ls, p, es), fs)
  {
    if fs == [] {
      assert es + fs == es;
    } else {
      assert (es + fs)[..|es + fs| - 1] == es + fs[..|fs| - 1];
      DrawConcat(ls, p, es, fs[..|fs| - 1]);
    }
  }

  lemma DrawOne(ls: Logins, p: Picture, e: Event)
    ensures Draw(ls, p, [e]) == Redraw(ls, p, e)
  {
    assert [e][..0] == [];
  }

  lemma DrawTwo(ls: Logins, p: Picture, e: Event, f: Event)
    ensures Draw(ls, p, [e, f]) == Redraw(ls, Redraw(ls, p, e), f)
  {
    DrawOne(ls, p, e);
    assert [e, f][..1] == [e];
  }

  // ---------- move numbers do not matter ----------

  lemma FallenStamped(es: seq<Event>, n: int)
    ensures Fallen(StampAll(es, n)) == Fallen(es)
  {
    var fs := StampAll(es, n);
    forall id | id in Fallen(fs) ensures id in Fallen(es) {
      var i :| 0 <= i < |fs| && fs[i].name == BulletDestroy && fs[i].actor == id;
      assert es[i] in es;
    }
    forall id | id in Fallen(es) ensures id in Fallen(fs) {
      var i :| 0 <= i < |es| && es[i].name == BulletDestroy && es[i].actor == id;
      assert fs[i] in fs;
    }
  }

  lemma StampRedraws(ls: Logins, p: Picture, e: Event, n: int)
    ensures Redraw(ls, p, Stamp(e, n)) == Redraw(ls, p, e)
  {
    if e.payload.Interaction? {
      FallenStamped(e.payload.happened, n);
    }
  }

  lemma {:induction false} StampedDraws(ls: Logins, p: Picture, es: seq<Event>, n: int)
    ensures Draw(ls, p, Stamped(es, n)) == Draw(ls, p, es)
  {
    if es == [] {
    } else {
      var front := es[..|es| - 1];
      StampedDraws(ls, p, front, n);
      assert Stamped(es, n)[..|es| - 1] == Stamped(front, n);
      StampRedraws(ls, Draw(ls, p, front), es[|es| - 1], n);
    }
  }

  // ---------- one tick ----------

  lemma {:induction false} KeepTwice(s: seq<Item>, gone: set<ActorId>, more: set<ActorId>)
    ensures Keep(Keep(s, gone), more) == Keep(s, gone + more)
  {
    if s == [] {
    } else {
      KeepTwice(s[1..], gone, more);
      var head, tail := if s[0].id in gone then [] else [s[0]], Keep(s[1..], gone);
      KeepConcat(head, tail, more);
      assert head != [] ==> head[1..] == [];
    }
  }

  /** An erased item need not be advanced first. */
  lemma {:induction false} KeepReplaced(s: seq<Item>, self: Item, gone: set<ActorId>)
    requires self.id in gone
    ensures Keep(Replace(s, self), gone) == Keep(s, gone)
  {
    if s == [] {
    } else {
      KeepReplaced(s[1..], self, gone);
      assert Replace(s, self)[1..] == Replace(s[1..], self);
    }
  }

  /** With unique ids, touching the item `x` replaces it. */
  lemma TouchReplaces(s: seq<Item>, x: Item)
    requires Unique(s) && x in s
    ensures Touch(s, x.id) == Replace(s, Advanced(x))
  {
    forall i | 0 <= i < |s| && s[i].id == x.id ensures s[i] == x {
      SameItem(s, s[i], x);
    }
  }

  lemma {:induction false} OwnerFound(s: seq<Item>, x: Item)
    requires Unique(s) && x in s
    ensures OwnerOf(s, x.id) == x.owner
  {
    if s[0] == x {
    } else {
      InTail(s, x);
      IdsIn(s[1..]);
      OwnerFound(s[1..], x);
    }
  }

  /** The bullets among the things met. */
  function DownedIn(met: seq<Placeable>): set<ActorId> {
    set c | c in met && c.AnItem? && c.item.BulletItem? :: c.item.id
  }

  lemma FallenReaction(c: Placeable)
    ensures Fallen(c.Reaction()) == DownedIn([c])
  {
    if c.AnItem? && c.item.BulletItem? {
      var e := Plain(c.item.id, BulletDestroy);
      assert c.Reaction() == [e] && e in c.Reaction();
      assert c in [c];
    }
  }

  lemma DownedInSnoc(met: seq<Placeable>, c: Placeable)
    ensures DownedIn(met + [c]) == DownedIn(met) + DownedIn([c])
  {
    assert forall d :: d in met + [c] <==> d in met || d in [c];
  }

  lemma {:induction false} InteractionsDraw(ls: Logins, p: Picture, bullet: ActorId, met: seq<Placeable>)
    ensures Draw(ls, p, Interactions(bullet, met)) == p.(objects := Keep(p.objects, DownedIn(met)))
  {
    if met == [] {
      assert DownedIn(met) == {};
      KeepAll(p.objects, {});
    } else {
      var front, c := met[..|met| - 1], met[|met| - 1];
      InteractionsDraw(ls, p, bullet, front);
      assert Interactions(bullet, met)[..|met| - 1] == Interactions(bullet, front);
      FallenReaction(c);
      assert met == front + [c];
      DownedInSnoc(front, c);
      KeepTwice(p.objects, DownedIn(front), DownedIn([c]));
    }
  }

  lemma {:induction false} WallsOnly(ws: seq<Wall>, p: Position)
    ensures forall c :: c in WallsAt(ws, p) ==> c.AWall?
  {
    if ws == [] {
    } else {
      WallsOnly(ws[1..], p);
    }
  }

  lemma DownedMet(a: Arena, s: seq<Item>, p: Position, self: ActorId)
    ensures DownedIn(Collisions(a, s, p, self)) == Downed(s, p, self)
  {
    var met := Collisions(a, s, p, self);
    assert forall c :: c in met && c.AnItem? ==> c in ItemsAt(s, p, self) by {
      WallsOnly(a.walls, p);
    }
    forall x | x in s && x.BulletItem? && x.pos == p && x.id != self ensures x.id in DownedIn(met) {
      assert AnItem(x) in ItemsAt(s, p, self);
      assert AnItem(x) in met;
    }
  }

  /** The picture has the objects `s`. */
  predicate Shows(p: Picture, s: seq<Item>, x: Item) {
    p.objects == s && Unique(s) && x in s
  }

  lemma SurvivorDraws(ls: Logins, p: Picture, s: seq<Item>, x: Item, name: EventName, e: Effect)
    requires Shows(p, s, x) && name in {BombTicking, GunWaiting, BulletFly}
    requires e == Effect(Advanced(x), {}, [], [], [Plain(x.id, name)])
    ensures Draw(ls, p, e.events) == p.(objects := Apply(s, e))
  {
    DrawOne(ls, p, Plain(x.id, name));
    TouchReplaces(s, x);
    KeepAll(Replace(s, e.self), {});
  }

  lemma BombDraws(ls: Logins, p: Picture, a: Arena, s: seq<Item>, x: Item)
    requires Shows(p, s, x) && x.BombItem?
    ensures Draw(ls, p, TickBomb(a, x).events) == p.(objects := Apply(s, TickBomb(a, x)))
  {
    var e := TickBomb(a, x);
    if Decrement(x.ticksLeft) != 0 {
      SurvivorDraws(ls, p, s, x, BombTicking, e);
    } else {
      DrawOne(ls, p, Plain(x.id, BombExplode));
      KeepReplaced(s, e.self, e.gone);
    }
  }

  lemma ShotDraws(ls: Logins, p: Picture, s: seq<Item>, x: Item, n: ActorId, e: Effect)
    requires Shows(p, s, x) && x.GunItem? && x.id < n && e == TickGun(x, n) && Decrement(x.ticksToShot) == 0
    ensures Draw(ls, p, e.events) == p.(objects := Apply(s, e))
  {
    var shot, touched := e.events[0], Replace(s, e.self);
    OwnerFound(s, x);
    TouchReplaces(s, x);
    assert e.self == Advanced(x);
    assert Redraw(ls, p, shot) == p.(objects := touched + e.spawn);
    if Decrement(x.shotsLeft) == 0 {
      DrawTwo(ls, p, shot, Plain(x.id, GunDestroy));
      KeepConcat(touched, e.spawn, {x.id});
      KeepAll(e.spawn, {x.id});
    } else {
      DrawOne(ls, p, shot);
      KeepAll(touched, {});
    }
  }

  lemma GunDraws(ls: Logins, p: Picture, s: seq<Item>, x: Item, n: ActorId)
    requires Shows(p, s, x) && x.GunItem? && x.id < n
    ensures Draw(ls, p, TickGun(x, n).events) == p.(objects := Apply(s, TickGun(x, n)))
  {
    var e := TickGun(x, n);
    if Decrement(x.ticksToShot) != 0 {
      SurvivorDraws(ls, p, s, x, GunWaiting, e);
    } else {
      ShotDraws(ls, p, s, x, n, e);
    }
  }

  lemma BulletDraws(ls: Logins, p: Picture, a: Arena, s: seq<Item>, x: Item)
    requires Shows(p, s, x) && x.BulletItem?
    ensures Draw(ls, p, TickBullet(a, s, x).events) == p.(objects := Apply(s, TickBullet(a, s, x)))
  {
    var e := TickBullet(a, s, x);
    var q, last := Ahead(x.pos, x.dir), Plain(x.id, BulletDestroy);
    var met := Collisions(a, s, q, x.id);
    if !a.InMap(q) {
      DrawOne(ls, p, last);
      KeepReplaced(s, e.self, e.gone);
    } else if met == [] {
      SurvivorDraws(ls, p, s, x, BulletFly, e);
    } else {
      var downed := Downed(s, q, x.id);
      InteractionsDraw(ls, p, x.id, met);
      DownedMet(a, s, q, x.id);
      DrawConcat(ls, p, Interactions(x.id, met), [last]);
      DrawOne(ls, p.(objects := Keep(s, downed)), last);
      KeepTwice(s, downed, {x.id});
      assert downed + {x.id} == e.gone;
      KeepReplaced(s, e.self, e.gone);
    }
  }

  /** The events of a tick tell exactly what it does to the list. */
  lemma TickDraws(ls: Logins, p: Picture, a: Arena, s: seq<Item>, n: ActorId, x: Item)
    requires Shows(p, s, x) && x.id < n
    ensures Draw(ls, p, Tick(a, s, n, x).events) == p.(objects := Apply(s, Tick(a, s, n, x)))
  {
    match x
    case BombItem(_, _, _, _) => BombDraws(ls, p, a, s, x);
    case GunItem(_, _, _, _, _, _) => GunDraws(ls, p, s, x, n);
    case BulletItem(_, _, _, _) => BulletDraws(ls, p, a, s, x);
  }

  // ---------- rounds, moves and runs ----------

  /** The events of the round so far tell exactly its list. */
  ghost predicate Drawn(ls: Logins, p: Picture, f: Field) {
    Draw(ls, p, f.events) == p.(objects := f.All())
  }

  lemma StepDraws(ls: Logins, p: Picture, a: Arena, f: Field)
    requires f.todo != [] && IdsFresh(f) && Drawn(ls, p, f)
    ensures Drawn(ls, p, Step(a, f))
  {
    var e, q := Next(a, f), p.(objects := f.All());
    assert f.All()[|f.done|] == f.todo[0];
    IdsIn(f.All());
    TickDraws(ls, q, a, f.All(), f.nextId, f.todo[0]);
    DrawConcat(ls, p, f.events, e.events);
    TickPossible(a, f.All(), f.nextId, f.todo[0]);
    TickedIsApply(f, e);
  }

  lemma {:induction false} RoundDraws(ls: Logins, p: Picture, a: Arena, f: Field)
    requires IdsFresh(f) && Drawn(ls, p, f)
    ensures Drawn(ls, p, Round(a, f))
    decreases Work(f.todo)
  {
    if f.todo == [] || f.score != [] {
    } else {
      StepFresh(a, f);
      StepDraws(ls, p, a, f);
      StepDecreases(a, f);
      RoundDraws(ls, p, a, Step(a, f));
    }
  }

  lemma TraverseDraws(ls: Logins, p: Picture, a: Arena, n: ActorId, score: seq<Side>)
    requires IdsInOrder(p.objects, n)
    ensures Drawn(ls, p, Traverse(a, Start(p.objects, n, score)))
  {
    var f := Start(p.objects, n, score);
    assert f.All() == p.objects;
    if f.todo != [] {
      StepFresh(a, f);
      StepDraws(ls, p, a, f);
      RoundDraws(ls, p, a, Step(a, f));
    }
  }

  function PictureOf(s: GameState): Picture {
    Picture(s.arena.first.pos, s.arena.second.pos, s.objects)
  }

  function LoginsOf(s: GameState): Logins {
    Logins(s.arena.first.login, s.arena.second.login)
  }

  /** The log, drawn from the start, gives the whole board. */
  ghost predicate Replays(s: GameState) {
    Draw(LoginsOf(s), START, s.log.value) == PictureOf(s)
  }

  /** The picture between the action and the round. */
  function PictureActed(c: G.Acted): Picture {
    Picture(c.arena.first.pos, c.arena.second.pos, c.objects)
  }

  lemma ActDraws(s: GameState, side: Side, md: MoveData)
    requires Ground(s.arena)
    ensures var c := G.Act(s, side, md);
      && Redraw(LoginsOf(s), PictureOf(s), c.event) == PictureActed(c)
      && c.arena.first.login == s.arena.first.login && c.arena.second.login == s.arena.second.login
  {
  }

  lemma VictoryDraws(ls: Logins, p: Picture, a: Arena, score: seq<Side>)
    ensures Draw(ls, p, G.Victory(a, score)) == p
  {
    if score != [] {
      DrawOne(ls, p, Plain(a.At(score[0]).id, PlayerWon));
    }
  }

  /** What a move logs tells exactly what it does to the board. */
  lemma MoveEventsDraw(s: GameState, side: Side, c: G.Acted, r: Field, p: Picture)
    requires p == PictureActed(c) && Redraw(LoginsOf(s), PictureOf(s), c.event) == p
    requires IdsInOrder(c.objects, c.nextId) && r == G.AfterAct(c)
    ensures Draw(LoginsOf(s), PictureOf(s), G.MoveEvents(c, r)) == p.(objects := r.All())
  {
    var ls, q, victory := LoginsOf(s), PictureOf(s), G.Victory(c.arena, r.score);
    DrawConcat(ls, q, [c.event] + r.events, victory);
    DrawConcat(ls, q, [c.event], r.events);
    DrawOne(ls, q, c.event);
    TraverseDraws(ls, p, c.arena, c.nextId, c.score);
    VictoryDraws(ls, p.(objects := r.All()), c.arena, r.score);
  }

  lemma MoveReplays(s: GameState, side: Side, md: MoveData, t: GameState)
    requires Inv(s) && Replays(s) && Accepted(s, side, md) && Follows(s, side, md, t)
    ensures Replays(t)
  {
    var c := G.Act(s, side, md);
    var r := G.AfterAct(c);
    var es := G.MoveEvents(c, r);
    AcceptedActs(s, side, md);
    ActDraws(s, side, md);
    MoveEventsDraw(s, side, c, r, PictureActed(c));
    DrawConcat(LoginsOf(s), START, s.log.value, Stamped(es, s.moveNumber + 1));
    StampedDraws(LoginsOf(s), PictureOf(s), es, s.moveNumber + 1);
  }

  lemma ServeReplays(s: GameState, r: G.Request)
    requires Inv(s) && Replays(s)
    ensures G.Serve(s, r).Playing? ==> Replays(G.Serve(s, r).state)
  {
    if s.score == [] && G.StatusOf(s, r.login, r.move) == Ok {
      var side := G.SideOf(s, r.login);
      MoveLogs(s, side, r.move);
      var o := G.Serve(s, r);
      if o.Playing? {
        MoveReplays(s, side, r.move, o.state);
      }
    }
  }

  lemma LoginsStay(s: GameState, r: G.Request)
    ensures G.Serve(s, r).Playing? ==> LoginsOf(G.Serve(s, r).state) == LoginsOf(s)
  {
  }

  /** In every state of every run, decided or not, the log, drawn from the starting picture with the two logins, gives
      the cells of both players and the whole object list: ids, owners, cells, directions and countdowns, in order. */
  lemma {:induction false} LogDeterminesBoard(l1: Login, l2: Login, rs: seq<G.Request>)
    requires l1 != l2
    ensures var o := G.Play(G.Init(l1, l2), rs);
      o.Playing? ==> LoginsOf(o.state) == Logins(l1, l2) &&
                     Draw(Logins(l1, l2), START, o.state.log.value) == PictureOf(o.state)
  {
    var s0 := G.Init(l1, l2);
    InitInv(l1, l2);
    if rs == [] {
    } else {
      var front := rs[..|rs| - 1];
      LogDeterminesBoard(l1, l2, front);
      RunKeepsInv(s0, front);
      if G.Play(s0, front).Playing? {
        ServeReplays(G.Play(s0, front).state, rs[|rs| - 1]);
        LoginsStay(G.Play(s0, front).state, rs[|rs| - 1]);
      }
    }
  }

  // ---------- the client of the server ----------

  lemma {:induction false} DeskReplays(me: N.Key, calls: seq<S.Call>)
    requires S.Proper(me, calls) && S.Run(me, calls).Some? && S.Run(me, calls).value.game.Some?
    ensures Replays(S.Run(me, calls).value.game.value)
  {
    var before, c := calls[..|calls| - 1], calls[|calls| - 1];
    var d := S.Run(me, before).value;
    if c.session == me.session && c.Create? {
    } else {
      DeskReplays(me, before);
      S.RunKeeps(me, before);
      if c.session == me.session && c.Move? {
        ServeReplays(d.game.value, G.Request(c.login, c.move));
      }
    }
  }

  /** A client that polls from the move after the last one it has seen can rebuild the game: whenever its last answer
      was `Ok` and no move has come since, drawing what it has received gives the board. */
  lemma ClientRebuildsGame(me: N.Key, calls: seq<S.Call>, d: S.Desk)
    requires S.Proper(me, calls) && S.Run(me, calls) == Some(d) && d.game.Some?
    requires S.UpToDate(d.watch.history)
    ensures Draw(LoginsOf(d.game.value), START, S.Received(d.watch.history)) == PictureOf(d.game.value)
  {
    S.ClientFollowsLog(me, calls, d);
    DeskReplays(me, calls);
  }
}
