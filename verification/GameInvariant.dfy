/** What every state reachable from `Init` satisfies. */
module GameInvariant {
  import opened Board
  import opened Ticks
  import opened Rounds
  import opened RoundBoard
  import opened RoundStory
  import opened EventLog
  import opened Validation
  import G = Game

  type GameState = G.GameState

  /** The players are actors 0 and 1 with different logins, on different cells without a wall. */
  ghost predicate Ground(a: Arena) {
    && a.first.id == 0 && a.second.id == 1 && a.first.login != a.second.login
    && a.walls == G.WALLS && a.width == G.MAP_SIDE && a.height == G.MAP_SIDE
    && a.first.pos != a.second.pos
    && forall w :: w in a.walls ==> w.pos != a.first.pos && w.pos != a.second.pos
  }

  /** Object ids are unique, below the counter, and never those of players or walls. */
  ghost predicate IdsInOrder(objects: seq<Item>, nextId: ActorId) {
    && Unique(objects)
    && G.FIRST_OBJECT_ID <= nextId
    && forall i :: i in Ids(objects) ==> G.FIRST_OBJECT_ID <= i < nextId
  }

  /** The event logs the placement of a bomb or a gun. */
  predicate Places(e: Event) {
    (e.name == PlayerPlaceBomb && e.payload.NewObject?) || (e.name == PlayerPlaceGun && e.payload.NewDirObject?)
  }

  function Placed(e: Event): ActorId
    requires Places(e)
  {
    e.payload.newActor
  }

  ghost predicate EntryInOrder(e: Event, nextId: ActorId) {
    && 0 <= e.actor < nextId && 1 <= e.moveNumber
    && (Places(e) ==> G.FIRST_OBJECT_ID <= Placed(e) < nextId)
  }

  /** The log index agrees and the log ends with the current move; its actors and placed ids are in use. */
  ghost predicate LogInOrder(s: GameState) {
    && IndexAgrees(s.log)
    && s.log.moveNumber == s.moveNumber == LastMove(s.log.value)
    && forall e :: e in s.log.value ==> EntryInOrder(e, s.nextId)
  }

  /** Items are on clear cells, all different. */
  ghost predicate CellsDiffer(a: Arena, objects: seq<Item>) {
    && (forall x :: x in objects ==> Clear(a, x.pos))
    && (forall x, y :: x in objects && y in objects && x.id != y.id ==> x.pos != y.pos)
  }

  /** A countdown that has not run out; a bullet inside the map. */
  predicate Fit(a: Arena, x: Item) {
    match x
    case BombItem(_, _, _, left) => 1 <= left <= BOMB_TICKS_LEFT
    case GunItem(_, _, _, _, ticks, shots) => 1 <= ticks <= GUN_COOLDOWN && 1 <= shots <= GUN_SHOTS
    case BulletItem(_, _, p, _) => a.InMap(p)
  }

  ghost predicate Running(a: Arena, objects: seq<Item>) {
    forall x :: x in objects ==> Fit(a, x)
  }

  /** The first player moves after an even number of moves. */
  predicate TurnAlternates(s: GameState) {
    s.nowTurn == if s.moveNumber % 2 == 0 then s.arena.first.login else s.arena.second.login
  }

  /** The first entry of each move `m` is an action of the player whose turn it was. */
  ghost predicate ActionsAlternate(s: GameState) {
    forall m :: 0 <= m < |s.log.fromMove| ==>
      FirstOf(s.log.value, m + 1, s.log.fromMove[m]) &&
      var e := s.log.value[s.log.fromMove[m]];
      e.actor == m % 2 && e.name in {PlayerWalk, PlayerPlaceBomb, PlayerPlaceGun}
  }

  ghost predicate Undecided(s: GameState) {
    s.score == [] ==>
      && CellsDiffer(s.arena, s.objects)
      && Running(s.arena, s.objects)
      && TurnAlternates(s)
      && ActionsAlternate(s)
  }

  ghost predicate Inv(s: GameState) {
    && Ground(s.arena)
    && IdsInOrder(s.objects, s.nextId)
    && LogInOrder(s)
    && Undecided(s)
  }

  lemma InitInv(login1: Login, login2: Login)
    requires login1 != login2
    ensures Inv(G.Init(login1, login2))
  {
  }

  // ---------- the action ----------

  lemma AppendFresh(objects: seq<Item>, nextId: ActorId, x: Item)
    requires IdsInOrder(objects, nextId) && x.id == nextId
    ensures IdsInOrder(objects + [x], nextId + 1)
    ensures forall y :: y in objects ==> y.id != x.id
  {
    UniqueConcat(objects, [x]);
    IdsConcat(objects, [x]);
    IdsIn(objects);
  }

  /** What an accepted action leaves in order. */
  ghost predicate ActsInOrder(s: GameState, side: Side, md: MoveData, c: G.Acted) {
    && Ground(c.arena) && IdsInOrder(c.objects, c.nextId)
    && CellsDiffer(c.arena, c.objects) && Running(c.arena, c.objects)
    && s.nextId <= c.nextId && c.event.actor == s.arena.At(side).id
    && c.score == (if md.moveType == Resign then Verdict(side) else [])
    && (Places(c.event) ==> Placed(c.event) == s.nextId && c.nextId == s.nextId + 1)
  }

  lemma WalkInOrder(s: GameState, side: Side, md: MoveData, c: G.Acted)
    requires Inv(s) && s.score == [] && md.moveType == Walk && c == G.Act(s, side, md)
    requires Free(s.arena, s.objects, md.position)
    ensures ActsInOrder(s, side, md, c)
  {
    forall x | x in s.objects ensures Fit(c.arena, x) {
      assert Fit(s.arena, x);
    }
  }

  lemma AppendFits(a: Arena, objects: seq<Item>, x: Item)
    requires CellsDiffer(a, objects) && Running(a, objects) && Free(a, objects, x.pos) && Fit(a, x)
    ensures CellsDiffer(a, objects + [x]) && Running(a, objects + [x])
  {
  }

  lemma PlacementInOrder(s: GameState, side: Side, md: MoveData, c: G.Acted, x: Item)
    requires Inv(s) && s.score == [] && md.moveType in {PlaceBomb, PlaceGun} && c == G.Act(s, side, md)
    requires Free(s.arena, s.objects, md.position) && c.objects == s.objects + [x]
    ensures ActsInOrder(s, side, md, c)
  {
    assert c.objects[|s.objects|] == x && x.pos == md.position;
    AppendFresh(s.objects, s.nextId, x);
    AppendFits(s.arena, s.objects, x);
  }

  lemma AcceptedActs(s: GameState, side: Side, md: MoveData)
    requires Inv(s) && s.score == [] && Validate(s.arena, s.objects, s.nowTurn, s.arena.At(side), md) == Ok
    ensures ActsInOrder(s, side, md, G.Act(s, side, md))
  {
    AcceptedExactly(s.arena, s.objects, s.nowTurn, side, md);
    var c := G.Act(s, side, md);
    match md.moveType
    case Walk => WalkInOrder(s, side, md, c);
    case Resign =>
    case _ => PlacementInOrder(s, side, md, c, c.objects[|s.objects|]);
  }

  // ---------- the round ----------

  /** Without a resignation, the walk after the action is the worklist from the start. */
  lemma TraverseIsRound(a: Arena, f: Field)
    requires f.score == []
    ensures Traverse(a, f) == Round(a, f)
    ensures TraverseSafe(a, f) <==> (f.todo == [] || PrevKept(a, f)) && RoundSafe(a, f)
  {
  }

  lemma StartLedger(objects: seq<Item>, n: ActorId, score: seq<Side>)
    requires IdsInOrder(objects, n)
    ensures IdsFresh(Start(objects, n, score)) && Ledger(Ids(objects), n, Start(objects, n, score))
  {
    var f := Start(objects, n, score);
    assert f.All() == objects;
    assert Set(f.ticked) == {} && NewIds(n, n) == {};
  }

  lemma FirstLedger(a: Arena, ids: set<ActorId>, n0: ActorId, f: Field, g: Field)
    requires f.todo != [] && g == Step(a, f)
    requires IdsFresh(f) && Ledger(ids, n0, f) && Below(ids, n0) && f.events == []
    ensures IdsFresh(g) && Ledger(ids, n0, g) && forall v :: v in g.events ==> v.actor in g.ticked && OfObject(v)
  {
    TickPossible(a, f.All(), f.nextId, f.todo[0]);
    TickPage(a, f.All(), f.nextId, f.todo[0]);
    StepFresh(a, f);
    TickedLedger(ids, n0, f, Next(a, f), g);
  }

  lemma TraverseLedger(a: Arena, ids: set<ActorId>, n0: ActorId, f: Field)
    requires IdsFresh(f) && Ledger(ids, n0, f) && Below(ids, n0) && f.events == []
    ensures var r := Traverse(a, f);
      && IdsFresh(r) && Ledger(ids, n0, r)
      && forall v :: v in r.events ==> v.actor in r.ticked && OfObject(v)
  {
    if f.todo != [] {
      FirstLedger(a, ids, n0, f, Step(a, f));
      RoundLedger(ids, n0, a, Step(a, f));
      ActorsTicked(a, Step(a, f));
    }
  }

  /** The ids after a round over a list with ids `ids`: unique, in use, old or newly handed out,
      and so are the actors of its events. */
  ghost predicate RoundIds(ids: set<ActorId>, n0: ActorId, r: Field) {
    && n0 <= r.nextId
    && IdsInOrder(r.All(), r.nextId)
    && (forall i :: i in Ids(r.All()) ==> i in ids || n0 <= i)
    && (forall v :: v in r.events ==> OfObject(v) && (v.actor in ids || n0 <= v.actor < r.nextId))
  }

  lemma LedgerIds(ids: set<ActorId>, n0: ActorId, r: Field)
    requires Ledger(ids, n0, r)
    ensures n0 <= r.nextId
    ensures forall i :: i in r.ticked || i in Ids(r.All()) ==> i in ids || n0 <= i < r.nextId
  {
    IdsConcat(r.done, r.todo);
    assert forall i :: i in r.ticked ==> i in Set(r.ticked);
    assert forall i :: i in Set(r.ticked) + Ids(r.todo) ==> i in ids + NewIds(n0, r.nextId);
  }

  lemma LedgerRoundIds(objects: seq<Item>, n0: ActorId, r: Field)
    requires IdsInOrder(objects, n0) && Ledger(Ids(objects), n0, r) && IdsFresh(r)
    requires forall v :: v in r.events ==> v.actor in r.ticked && OfObject(v)
    ensures RoundIds(Ids(objects), n0, r)
  {
    LedgerIds(Ids(objects), n0, r);
  }

  lemma TraverseIds(a: Arena, objects: seq<Item>, nextId: ActorId, score: seq<Side>)
    requires IdsInOrder(objects, nextId)
    ensures RoundIds(Ids(objects), nextId, Traverse(a, Start(objects, nextId, score)))
  {
    StartLedger(objects, nextId, score);
    TraverseLedger(a, Ids(objects), nextId, Start(objects, nextId, score));
    LedgerRoundIds(objects, nextId, Traverse(a, Start(objects, nextId, score)));
  }

  lemma ApartEnds(a: Arena, r: Field)
    requires Apart(a, r)
    ensures r.todo == [] ==> CellsDiffer(a, r.All())
  {
    if r.todo == [] {
      assert r.All() == r.done;
      assert forall x :: x in r.done ==> On(r, x);
    }
  }

  lemma RoundCells(a: Arena, objects: seq<Item>, n: ActorId)
    requires Unique(objects) && Below(Ids(objects), n) && CellsDiffer(a, objects)
    ensures var r := Round(a, Start(objects, n, []));
      r.score == [] ==> CellsDiffer(a, r.All())
  {
    var f := Start(objects, n, []);
    assert f.All() == objects;
    RoundApart(a, f);
    RoundEnds(a, f);
    ApartEnds(a, Round(a, f));
  }

  lemma StaysFit(a: Arena, objects: seq<Item>, n: ActorId, y: Item)
    requires Running(a, objects) && Source(objects, n, y) && !y.BulletItem? && Stays(y)
    ensures Fit(a, Advanced(y))
  {
    assert Fit(a, y);
  }

  lemma RoundFits(a: Arena, objects: seq<Item>, n: ActorId, x: Item)
    requires Unique(objects) && Below(Ids(objects), n) && Running(a, objects)
    requires var r := Round(a, Start(objects, n, [])); r.score == [] && x in r.All()
    ensures Fit(a, x) && RoundBoard.Moved(objects, n, x)
  {
    var f := Start(objects, n, []);
    assert f.All() == objects;
    RoundEnds(a, f);
    assert forall y :: y in objects ==> Source(objects, n, y);
    RoundAdvances(a, objects, n, f);
    var r := Round(a, f);
    assert r.All() == r.done;
    if !x.BulletItem? {
      var y :| Source(objects, n, y) && x == Advanced(y);
      IdsIn(r.All());
      OnePageEach(a, objects, n, y);
      StaysFit(a, objects, n, y);
    }
  }

  /** A round that stays undecided keeps the board in order. */
  lemma RoundBoardInOrder(a: Arena, objects: seq<Item>, n: ActorId)
    requires Unique(objects) && Below(Ids(objects), n) && CellsDiffer(a, objects) && Running(a, objects)
    ensures var r := Round(a, Start(objects, n, []));
      r.score == [] ==> CellsDiffer(a, r.All()) && Running(a, r.All())
  {
    RoundCells(a, objects, n);
    var r := Round(a, Start(objects, n, []));
    if r.score == [] {
      forall x | x in r.All() ensures Fit(a, x) {
        RoundFits(a, objects, n, x);
      }
    }
  }
}
