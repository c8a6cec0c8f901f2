/** One round of ticks as a plain worklist, and what it guarantees for every object list.
    `Session.AfterMove` walks the list with two iterators; it is proved equal to this worklist. */
module Rounds {
  import opened Board
  import opened Ticks

  /** A round in progress. The object list is `done + todo`; `done` has had its tick.
      `ticked` and `lost` record the ids ticked, in order, and those erased before their tick. */
  datatype Field = Field(
    done: seq<Item>, todo: seq<Item>, nextId: ActorId, score: seq<Side>,
    events: seq<Event>, ticked: seq<ActorId>, lost: set<ActorId>)
  {
    function All(): seq<Item> {
      done + todo
    }
  }

  function Start(objects: seq<Item>, nextId: ActorId, score: seq<Side>): Field {
    Field([], objects, nextId, score, [], [], {})
  }

  /** The effect of ticking the first pending item. */
  function Next(a: Arena, f: Field): Effect
    requires f.todo != []
  {
    Tick(a, f.All(), f.nextId, f.todo[0])
  }

  /** The round after its first pending item has been ticked with effect `e`. */
  function Ticked(f: Field, e: Effect): Field
    requires f.todo != []
  {
    var self := if e.self.id in e.gone then [] else [e.self];
    Field(Keep(f.done, e.gone) + self, Keep(f.todo[1..], e.gone) + e.spawn,
          f.nextId + |e.spawn|, f.score + e.verdict, f.events + e.events,
          f.ticked + [f.todo[0].id], f.lost + Ids(f.todo[1..]) * e.gone)
  }

  function Step(a: Arena, f: Field): Field
    requires f.todo != []
  {
    Ticked(f, Next(a, f))
  }

  /** Two for a gun, one for anything else: a gun may still append a bullet. */
  function Work(todo: seq<Item>): nat {
    if todo == [] then 0 else (if todo[0].GunItem? then 2 else 1) + Work(todo[1..])
  }

  // ---------- termination ----------

  lemma {:induction false} WorkConcat(s: seq<Item>, t: seq<Item>)
    ensures Work(s + t) == Work(s) + Work(t)
  {
    if s == [] {
      assert s + t == t;
    } else {
      assert (s + t)[1..] == s[1..] + t;
      WorkConcat(s[1..], t);
    }
  }

  lemma {:induction false} WorkKeep(s: seq<Item>, gone: set<ActorId>)
    ensures Work(Keep(s, gone)) <= Work(s)
  {
    if s == [] {
    } else {
      WorkKeep(s[1..], gone);
      WorkConcat(if s[0].id in gone then [] else [s[0]], Keep(s[1..], gone));
    }
  }

  /** Every tick uses up work, although it may append to the list. */
  lemma StepDecreases(a: Arena, f: Field)
    requires f.todo != []
    ensures Work(Step(a, f).todo) < Work(f.todo)
  {
    var e := Next(a, f);
    WorkConcat(Keep(f.todo[1..], e.gone), e.spawn);
    WorkKeep(f.todo[1..], e.gone);
    if e.spawn != [] {
      assert e.spawn[1..] == [];
      assert Work(e.spawn) == 1;
    }
  }

  // ---------- the worklist ----------

  /** Process the list front to back: tick, drop what was erased, append what was spawned,
      and stop as soon as the scoreboard is not empty. */
  function Round(a: Arena, f: Field): Field
    decreases Work(f.todo)
  {
    if f.todo == [] || f.score != [] then f
    else
      StepDecreases(a, f);
      Round(a, Step(a, f))
  }

  /** The walk after a move. With a scoreboard already decided by a resignation,
      the first object is still ticked once. */
  function Traverse(a: Arena, f: Field): Field {
    if f.todo == [] then f else Round(a, Step(a, f))
  }

  // ---------- when the iterator walk is defined ----------

  /** No tick of the round erases the item that was ticked just before it and survived:
      that item is the one the walk remembers as `prev`. */
  predicate PrevKept(a: Arena, f: Field)
    requires f.todo != []
  {
    f.done == [] || f.done[|f.done| - 1].id !in Next(a, f).gone
  }

  predicate RoundSafe(a: Arena, f: Field)
    decreases Work(f.todo)
  {
    f.todo == [] || f.score != [] ||
    (StepDecreases(a, f); PrevKept(a, f) && RoundSafe(a, Step(a, f)))
  }

  predicate TraverseSafe(a: Arena, f: Field) {
    f.todo == [] || (PrevKept(a, f) && RoundSafe(a, Step(a, f)))
  }

  // ---------- ids ----------

  function Set<T>(s: seq<T>): set<T> {
    set x | x in s
  }

  ghost predicate NoRepeat<T>(s: seq<T>) {
    forall i, j :: 0 <= i < j < |s| ==> s[i] != s[j]
  }

  ghost predicate Below(ids: set<ActorId>, n: ActorId) {
    forall i :: i in ids ==> i < n
  }

  /** Ids on the board are unique and below the counter. */
  ghost predicate IdsFresh(f: Field) {
    Unique(f.All()) && Below(Ids(f.All()), f.nextId)
  }

  /** The shape of any tick of `x`: it erases nothing or at least `x`; it appends nothing, or one bullet
      with the next id on the cell of the gun `x`. */
  predicate Possible(e: Effect, n: ActorId, x: Item) {
    && e.self.id == x.id
    && (e.gone == {} || x.id in e.gone)
    && (e.spawn == [] || (x.GunItem? && e.spawn == [BulletItem(x.owner, n, x.pos, x.dir)]))
  }

  lemma TickPossible(a: Arena, s: seq<Item>, n: ActorId, x: Item)
    ensures Possible(Tick(a, s, n, x), n, x)
  {
  }

  lemma SplitUnique(done: seq<Item>, x: Item, rest: seq<Item>)
    ensures Unique(done + ([x] + rest)) <==>
            Unique(done) && Unique(rest) && x.id !in Ids(done) && x.id !in Ids(rest) && Ids(done) !! Ids(rest)
    ensures Ids(done + ([x] + rest)) == Ids(done) + {x.id} + Ids(rest)
  {
    UniqueConcat(done, [x] + rest);
    UniqueConcat([x], rest);
    IdsConcat([x], rest);
    IdsConcat(done, [x] + rest);
  }

  /** The ids of both halves of the list before and after a step. */
  ghost predicate StepIds(f: Field, e: Effect, g: Field)
    requires f.todo != []
  {
    var x, rest := f.todo[0], f.todo[1..];
    && Ids(f.todo) == {x.id} + Ids(rest)
    && x.id !in Ids(f.done) + Ids(rest)
    && Ids(f.done) !! Ids(rest)
    && Ids(g.done) == (Ids(f.done) - e.gone) + ({x.id} - e.gone)
    && Ids(g.todo) == (Ids(rest) - e.gone) + Ids(e.spawn)
  }

  lemma SurvivorIds(done: seq<Item>, self: Item, gone: set<ActorId>)
    requires Unique(done) && self.id !in Ids(done)
    ensures var r := Keep(done, gone) + (if self.id in gone then [] else [self]);
      Unique(r) && Ids(r) == (Ids(done) - gone) + ({self.id} - gone)
  {
    var tail := if self.id in gone then [] else [self];
    KeepUnique(done, gone);
    IdsConcat(Keep(done, gone), tail);
    UniqueConcat(Keep(done, gone), tail);
  }

  lemma PendingIds(rest: seq<Item>, spawn: seq<Item>, gone: set<ActorId>, n: ActorId)
    requires Unique(rest) && Below(Ids(rest), n)
    requires spawn == [] || (|spawn| == 1 && spawn[0].id == n)
    ensures var r := Keep(rest, gone) + spawn;
      Unique(r) && Ids(r) == (Ids(rest) - gone) + Ids(spawn)
    ensures Ids(spawn) <= {n}
  {
    KeepUnique(rest, gone);
    IdsConcat(Keep(rest, gone), spawn);
    UniqueConcat(Keep(rest, gone), spawn);
  }

  lemma HalvesApart(done: set<ActorId>, x: ActorId, rest: set<ActorId>, gone: set<ActorId>, spawn: set<ActorId>,
                    n: ActorId, m: ActorId)
    requires done !! rest && x !in done && x !in rest && Below(done + {x} + rest, n)
    requires n <= m && forall i :: i in spawn ==> i == n < m
    ensures (done - gone) + ({x} - gone) !! (rest - gone) + spawn
    ensures Below(((done - gone) + ({x} - gone)) + ((rest - gone) + spawn), m)
  {
    var before, left, right := done + {x} + rest, (done - gone) + ({x} - gone), (rest - gone) + spawn;
    assert n !in before;
    assert forall i :: i in left ==> i in before && i !in rest && i != n;
    assert forall i :: i in right ==> i == n || i in rest;
    assert left * right == {};
  }

  lemma TickedStepIds(f: Field, e: Effect)
    requires f.todo != [] && IdsFresh(f) && Possible(e, f.nextId, f.todo[0])
    ensures StepIds(f, e, Ticked(f, e))
    ensures Unique(Ticked(f, e).done) && Unique(Ticked(f, e).todo)
    ensures Ids(f.All()) == Ids(f.done) + Ids(f.todo)
    ensures forall i :: i in Ids(e.spawn) ==> i == f.nextId < Ticked(f, e).nextId
  {
    var x, rest := f.todo[0], f.todo[1..];
    assert f.todo == [x] + rest;
    SplitUnique(f.done, x, rest);
    SurvivorIds(f.done, e.self, e.gone);
    PendingIds(rest, e.spawn, e.gone, f.nextId);
  }

  lemma TickedIds(f: Field, e: Effect)
    requires f.todo != [] && IdsFresh(f) && Possible(e, f.nextId, f.todo[0])
    ensures IdsFresh(Ticked(f, e)) && StepIds(f, e, Ticked(f, e))
  {
    var g := Ticked(f, e);
    TickedStepIds(f, e);
    HalvesApart(Ids(f.done), f.todo[0].id, Ids(f.todo[1..]), e.gone, Ids(e.spawn), f.nextId, g.nextId);
    UniqueConcat(g.done, g.todo);
    IdsConcat(g.done, g.todo);
  }

  lemma StepFresh(a: Arena, f: Field)
    requires f.todo != [] && IdsFresh(f)
    ensures IdsFresh(Step(a, f)) && StepIds(f, Next(a, f), Step(a, f))
  {
    TickPossible(a, f.All(), f.nextId, f.todo[0]);
    TickedIds(f, Next(a, f));
  }

  /** On a list without repeated ids, a step of the worklist is the tick's effect on the whole list. */
  lemma TickedIsApply(f: Field, e: Effect)
    requires f.todo != [] && Unique(f.All()) && e.self.id == f.todo[0].id
    ensures Ticked(f, e).All() == Apply(f.All(), e)
  {
    var x, rest := f.todo[0], f.todo[1..];
    assert f.todo == [x] + rest;
    SplitUnique(f.done, x, rest);
    ApplySplit(f.done, x, rest, e);
  }

  // ---------- every object is ticked exactly once ----------

  /** The ids from `n0` up to, but not including, `n`. */
  function NewIds(n0: ActorId, n: ActorId): (r: set<ActorId>)
    ensures forall i :: i in r <==> n0 <= i < n
    decreases n - n0
  {
    if n <= n0 then {} else NewIds(n0, n - 1) + {n - 1}
  }

  /** Every id of the starting list, and every id handed out since, is pending, ticked or lost,
      and only one of these. */
  ghost predicate Ledger(ids: set<ActorId>, n0: ActorId, f: Field) {
    && n0 <= f.nextId
    && NoRepeat(f.ticked)
    && Set(f.ticked) !! f.lost !! Ids(f.todo)
    && ids + NewIds(n0, f.nextId) == Set(f.ticked) + f.lost + Ids(f.todo)
    && Ids(f.done) <= Set(f.ticked)
  }

  lemma TickedLedger(ids: set<ActorId>, n0: ActorId, f: Field, e: Effect, g: Field)
    requires f.todo != [] && Ledger(ids, n0, f) && StepIds(f, e, g)
    requires g.ticked == f.ticked + [f.todo[0].id] && g.lost == f.lost + Ids(f.todo[1..]) * e.gone
    requires g.nextId == f.nextId + |e.spawn| && Possible(e, f.nextId, f.todo[0])
    requires Below(ids, n0)
    ensures Ledger(ids, n0, g)
  {
    var x, rest := f.todo[0].id, Ids(f.todo[1..]);
    assert Set(g.ticked) == Set(f.ticked) + {x};
    assert NewIds(n0, g.nextId) == NewIds(n0, f.nextId) + Ids(e.spawn);
    assert forall i :: i in ids + NewIds(n0, f.nextId) ==> i < f.nextId;
    assert forall i :: i in Ids(e.spawn) ==> i == f.nextId;
    assert rest == (rest - e.gone) + (rest * e.gone);
    assert x in Ids(f.todo);
  }

  lemma {:induction false} RoundLedger(ids: set<ActorId>, n0: ActorId, a: Arena, f: Field)
    requires IdsFresh(f) && Ledger(ids, n0, f)
    requires Below(ids, n0)
    ensures IdsFresh(Round(a, f)) && Ledger(ids, n0, Round(a, f))
    decreases Work(f.todo)
  {
    if f.todo == [] || f.score != [] {
    } else {
      TickPossible(a, f.All(), f.nextId, f.todo[0]);
      StepFresh(a, f);
      TickedLedger(ids, n0, f, Next(a, f), Step(a, f));
      StepDecreases(a, f);
      RoundLedger(ids, n0, a, Step(a, f));
    }
  }

  lemma LedgerEnds(ids: set<ActorId>, n0: ActorId, r: Field)
    requires Ledger(ids, n0, r)
    ensures r.todo == [] ==> Set(r.ticked) + r.lost == ids + NewIds(n0, r.nextId) && Set(r.ticked) !! r.lost
  {
    assert r.todo == [] ==> Ids(r.todo) == {};
  }

  lemma {:induction false} RoundEnds(a: Arena, f: Field)
    ensures var r := Round(a, f); r.todo == [] || r.score != []
    ensures f.score <= Round(a, f).score
    decreases Work(f.todo)
  {
    if f.todo == [] || f.score != [] {
    } else {
      StepDecreases(a, f);
      RoundEnds(a, Step(a, f));
    }
  }

  /** In a round that stays undecided, every object of the list and every bullet spawned during the round
      is ticked exactly once, unless a bullet removed it before its tick; nothing is both. */
  lemma ExactlyOnce(a: Arena, objects: seq<Item>, n: ActorId)
    requires Unique(objects) && Below(Ids(objects), n)
    ensures var r := Round(a, Start(objects, n, []));
      && NoRepeat(r.ticked)
      && (r.score == [] ==>
            && r.todo == []
            && Set(r.ticked) + r.lost == Ids(objects) + NewIds(n, r.nextId)
            && Set(r.ticked) !! r.lost
            && Ids(r.done) <= Set(r.ticked))
      && IdsFresh(r)
  {
    var f := Start(objects, n, []);
    assert f.All() == objects;
    RoundLedger(Ids(objects), n, a, f);
    RoundEnds(a, f);
    LedgerEnds(Ids(objects), n, Round(a, f));
  }
}
