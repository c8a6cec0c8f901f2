/** Runs of a session: the invariant holds throughout and the log never refuses an event. */
module GameRun {
  import opened Board
  import opened Ticks
  import opened Rounds
  import opened RoundBoard
  import opened EventLog
  import opened Validation
  import opened GameInvariant
  import G = Game

  /** The session is undecided and the move passes validation. */
  ghost predicate Accepted(s: GameState, side: Side, md: MoveData) {
    s.score == [] && Validate(s.arena, s.objects, s.nowTurn, s.arena.At(side), md) == Ok
  }

  /** The fields of a state reached by an accepted move. */
  ghost predicate Follows(s: GameState, side: Side, md: MoveData, t: GameState) {
    var c := G.Act(s, side, md);
    var r := G.AfterAct(c);
    && t == G.Moved(s, c, r, t.log)
    && IndexAgrees(t.log) && t.log.moveNumber == s.moveNumber + 1 == LastMove(t.log.value)
    && t.log.value == s.log.value + Stamped(G.MoveEvents(c, r), s.moveNumber + 1)
    && t.log.fromMove == s.log.fromMove + [|s.log.value|]
  }

  /** An accepted move never makes the log throw; unless the walk reads an erased node it completes,
      and exactly its own events are appended under the next move number. */
  lemma MoveLogs(s: GameState, side: Side, md: MoveData)
    requires Inv(s) && Accepted(s, side, md)
    ensures var o := G.Accept(s, side, md);
      && !o.LogThrew?
      && (o.PrevErased? <==> !TraverseSafe(G.Act(s, side, md).arena, G.Pending(G.Act(s, side, md))))
      && (o.Playing? ==> Follows(s, side, md, o.state))
  {
    var c := G.Act(s, side, md);
    var es := G.MoveEvents(c, G.AfterAct(c));
    assert es[0] == c.event;
    AddAllAppends(s.log.(moveNumber := s.moveNumber + 1), es);
  }

  /** What the rest of the proofs need to know about an accepted action and the round after it. */
  ghost predicate Sane(s: GameState, side: Side, c: G.Acted, r: Field) {
    && Ground(c.arena) && IdsInOrder(c.objects, c.nextId) && s.nextId <= c.nextId
    && c.event.actor == (if side == First then 0 else 1)
    && (Places(c.event) ==> Placed(c.event) == s.nextId && c.nextId == s.nextId + 1)
    && RoundIds(Ids(c.objects), c.nextId, r)
  }

  lemma AcceptedSane(s: GameState, side: Side, md: MoveData)
    requires Inv(s) && Accepted(s, side, md)
    ensures var c := G.Act(s, side, md); Sane(s, side, c, G.AfterAct(c))
  {
    var c := G.Act(s, side, md);
    AcceptedActs(s, side, md);
    TraverseIds(c.arena, c.objects, c.nextId, c.score);
  }

  /** Who can be the actor of an event of a move. */
  lemma MoveActors(s: GameState, side: Side, c: G.Acted, r: Field, e: Event)
    requires Sane(s, side, c, r) && e in G.MoveEvents(c, r)
    ensures 0 <= e.actor < r.nextId
    ensures Places(e) ==> e == c.event && Placed(e) == s.nextId && s.nextId < r.nextId
    ensures e.actor in {0, 1} || e.actor in Ids(c.objects) || c.nextId <= e.actor
  {
  }

  lemma StampedFrom(es: seq<Event>, n: int, e: Event) returns (i: nat)
    requires e in Stamped(es, n)
    ensures i < |es| && e == Stamp(es[i], n)
  {
    i :| 0 <= i < |es| && Stamped(es, n)[i] == e;
  }

  lemma MoveLogInOrder(s: GameState, side: Side, c: G.Acted, r: Field, t: GameState)
    requires LogInOrder(s) && Sane(s, side, c, r) && G.FIRST_OBJECT_ID <= s.nextId
    requires IndexAgrees(t.log) && t.log.moveNumber == t.moveNumber == LastMove(t.log.value) == s.moveNumber + 1
    requires s.moveNumber >= 0 && t.nextId == r.nextId
    requires t.log.value == s.log.value + Stamped(G.MoveEvents(c, r), s.moveNumber + 1)
    ensures LogInOrder(t)
  {
    var es, n := G.MoveEvents(c, r), s.moveNumber + 1;
    assert s.nextId <= t.nextId;
    forall e | e in t.log.value ensures EntryInOrder(e, t.nextId) {
      if e in s.log.value {
        assert EntryInOrder(e, s.nextId);
      } else {
        var i := StampedFrom(es, n, e);
        MoveActors(s, side, c, r, es[i]);
      }
    }
  }

  lemma TurnPasses(s: GameState, a: Arena, t: GameState)
    requires Ground(s.arena) && TurnAlternates(s)
    requires a.first.login == s.arena.first.login && a.second.login == s.arena.second.login
    requires t.arena == a && t.moveNumber == s.moveNumber + 1 && t.nowTurn == G.OtherTurn(a, s.nowTurn)
    ensures TurnAlternates(t)
  {
    if s.moveNumber % 2 == 0 {
      assert t.moveNumber % 2 == 1;
    } else {
      assert t.moveNumber % 2 == 0;
    }
  }

  lemma NewActionAlternates(s: GameState, t: GameState, e: Event)
    requires ActionsAlternate(s) && IndexAgrees(t.log) && |s.log.fromMove| == s.moveNumber
    requires s.log.value <= t.log.value && t.log.fromMove == s.log.fromMove + [|s.log.value|]
    requires |s.log.value| < |t.log.value| && t.log.value[|s.log.value|] == e
    requires e.actor == s.moveNumber % 2 && e.name in {PlayerWalk, PlayerPlaceBomb, PlayerPlaceGun}
    ensures ActionsAlternate(t)
  {
    forall m | 0 <= m < |t.log.fromMove|
      ensures FirstOf(t.log.value, m + 1, t.log.fromMove[m])
      ensures var e := t.log.value[t.log.fromMove[m]];
        e.actor == m % 2 && e.name in {PlayerWalk, PlayerPlaceBomb, PlayerPlaceGun}
    {
      if m < |s.log.fromMove| {
        assert FirstOf(s.log.value, m + 1, s.log.fromMove[m]);
      }
    }
  }

  /** The scoreboard only grows during a round. */
  lemma ScoreStays(a: Arena, f: Field)
    ensures f.score <= Traverse(a, f).score
  {
    if f.todo != [] {
      RoundEnds(a, Step(a, f));
    }
  }

  /** A move that leaves the session undecided is an action of the player in turn, first in its log entries. */
  lemma MoveTurns(s: GameState, side: Side, md: MoveData, t: GameState)
    requires Inv(s) && Accepted(s, side, md) && Follows(s, side, md, t) && t.score == []
    ensures TurnAlternates(t) && ActionsAlternate(t)
  {
    var c := G.Act(s, side, md);
    AcceptedInTurn(s.arena, s.objects, s.nowTurn, s.arena.At(side), md);
    ScoreStays(c.arena, G.Pending(c));
    assert md.moveType != Resign;
    var e := Stamp(c.event, s.moveNumber + 1);
    assert t.log.value[|s.log.value|] == e by {
      assert G.MoveEvents(c, G.AfterAct(c))[0] == c.event;
    }
    NewActionAlternates(s, t, e);
    TurnPasses(s, c.arena, t);
  }

  /** Every accepted move that completes leads from a state satisfying the invariant to another one. */
  lemma MoveKeepsInv(s: GameState, side: Side, md: MoveData, t: GameState)
    requires Inv(s) && Accepted(s, side, md) && Follows(s, side, md, t)
    ensures Inv(t)
  {
    var c := G.Act(s, side, md);
    var r := G.AfterAct(c);
    AcceptedActs(s, side, md);
    AcceptedSane(s, side, md);
    MoveLogInOrder(s, side, c, r, t);
    if t.score == [] {
      ScoreStays(c.arena, G.Pending(c));
      MoveTurns(s, side, md, t);
      TraverseIsRound(c.arena, G.Pending(c));
      RoundBoardInOrder(c.arena, c.objects, c.nextId);
    }
  }

  lemma ServeKeepsInv(s: GameState, r: G.Request)
    requires Inv(s)
    ensures var o := G.Serve(s, r);
      && !o.LogThrew?
      && (o.Playing? ==> Inv(o.state))
      && (o.Playing? ==> o.state == s || (s.score == [] && o.state.moveNumber == s.moveNumber + 1))
  {
    if s.score == [] && G.StatusOf(s, r.login, r.move) == Ok {
      var side := G.SideOf(s, r.login);
      MoveLogs(s, side, r.move);
      var o := G.Serve(s, r);
      if o.Playing? {
        MoveKeepsInv(s, side, r.move, o.state);
      }
    }
  }

  /** Every state reachable from `Init` satisfies the invariant, over every run of requests,
      and no run makes the log throw. */
  lemma {:induction false} RunKeepsInv(s: GameState, rs: seq<G.Request>)
    requires Inv(s)
    ensures !G.Play(s, rs).LogThrew?
    ensures G.Play(s, rs).Playing? ==> Inv(G.Play(s, rs).state)
  {
    if rs == [] {
    } else {
      RunKeepsInv(s, rs[..|rs| - 1]);
      var o := G.Play(s, rs[..|rs| - 1]);
      if o.Playing? {
        ServeKeepsInv(o.state, rs[|rs| - 1]);
      }
    }
  }

  lemma RunInv(l1: Login, l2: Login, rs: seq<G.Request>, s: GameState)
    requires l1 != l2 && G.Play(G.Init(l1, l2), rs) == G.Playing(s)
    ensures Inv(s)
  {
    InitInv(l1, l2);
    RunKeepsInv(G.Init(l1, l2), rs);
  }

  /** Walls, players and objects are on pairwise different cells. */
  ghost predicate CellsApart(a: Arena, xs: seq<Item>) {
    && a.first.pos != a.second.pos
    && (forall i, j :: 0 <= i < j < |a.walls| ==> a.walls[i].pos != a.walls[j].pos)
    && (forall w :: w in a.walls ==> w.pos != a.first.pos && w.pos != a.second.pos)
    && (forall i :: 0 <= i < |xs| ==> xs[i].pos != a.first.pos && xs[i].pos != a.second.pos)
    && (forall i, w :: 0 <= i < |xs| && w in a.walls ==> w.pos != xs[i].pos)
    && (forall i, j :: 0 <= i < j < |xs| ==> xs[i].pos != xs[j].pos)
  }

  lemma WallsApart(a: Arena)
    requires a.walls == G.WALLS
    ensures forall i, j :: 0 <= i < j < |a.walls| ==> a.walls[i].pos != a.walls[j].pos
  {
  }

  lemma InvCellsApart(a: Arena, xs: seq<Item>)
    requires Ground(a) && CellsDiffer(a, xs) && Unique(xs)
    ensures CellsApart(a, xs)
  {
    WallsApart(a);
    forall i, j | 0 <= i < j < |xs| ensures xs[i].pos != xs[j].pos {
      UniqueAt(xs, i, j);
    }
    forall i | 0 <= i < |xs| ensures Clear(a, xs[i].pos) {
    }
  }

  /** In every undecided state of every run, walls, players and objects are on pairwise different cells. */
  lemma CellsNeverShared(l1: Login, l2: Login, rs: seq<G.Request>, s: GameState)
    requires l1 != l2 && G.Play(G.Init(l1, l2), rs) == G.Playing(s) && s.score == []
    ensures CellsApart(s.arena, s.objects)
  {
    RunInv(l1, l2, rs, s);
    InvCellsApart(s.arena, s.objects);
  }

  /** Actor ids are unique: players are 0 and 1, walls 2 to 9, and objects have pairwise different ids from 10 up to,
      but not including, the counter. */
  ghost predicate ActorsApart(a: Arena, xs: seq<Item>, n: ActorId) {
    && a.first.id == 0 && a.second.id == 1
    && (forall k :: 0 <= k < |a.walls| ==> a.walls[k].id == 2 + k < 10)
    && (forall i :: 0 <= i < |xs| ==> 10 <= xs[i].id < n)
    && (forall i, j :: 0 <= i < j < |xs| ==> xs[i].id != xs[j].id)
  }

  lemma WallIds(a: Arena)
    requires a.walls == G.WALLS
    ensures forall k :: 0 <= k < |a.walls| ==> a.walls[k].id == 2 + k < 10
  {
  }

  lemma InvActorsApart(a: Arena, xs: seq<Item>, n: ActorId)
    requires Ground(a) && IdsInOrder(xs, n)
    ensures ActorsApart(a, xs, n)
  {
    IdsIn(xs);
    WallIds(a);
    forall i | 0 <= i < |xs| ensures G.FIRST_OBJECT_ID <= xs[i].id < n {
      assert xs[i] in xs;
    }
    forall i, j | 0 <= i < j < |xs| ensures xs[i].id != xs[j].id {
      UniqueAt(xs, i, j);
    }
  }

  /** In every state of every run, decided or not, actor ids are unique. */
  lemma IdsNeverShared(l1: Login, l2: Login, rs: seq<G.Request>, s: GameState)
    requires l1 != l2 && G.Play(G.Init(l1, l2), rs) == G.Playing(s)
    ensures ActorsApart(s.arena, s.objects, s.nextId)
  {
    RunInv(l1, l2, rs, s);
    InvActorsApart(s.arena, s.objects, s.nextId);
  }

  /** In every state of every run, `FromMove` answers with exactly the events of the asked moves. */
  lemma IndexAlwaysAgrees(l1: Login, l2: Login, rs: seq<G.Request>, s: GameState, k: int)
    requires l1 != l2 && G.Play(G.Init(l1, l2), rs) == G.Playing(s)
    ensures var l := s.log;
      && (1 <= k <= |l.fromMove| ==> l.fromMove[k - 1] <= |l.value|)
      && IndexedFrom(l, k) == Since(l.value, k)
  {
    RunInv(l1, l2, rs, s);
    FromMoveIsSince(s.log, k);
  }

  /** How many of the requests were accepted. */
  function AcceptedIn(s: GameState, rs: seq<G.Request>): nat {
    if rs == [] then 0
    else
      var before, r := rs[..|rs| - 1], rs[|rs| - 1];
      var o := G.Play(s, before);
      AcceptedIn(s, before) +
      if o.Playing? && o.state.score == [] && G.StatusOf(o.state, r.login, r.move) == Ok then 1 else 0
  }

  lemma {:induction false} MovesCounted(s: GameState, rs: seq<G.Request>)
    requires Inv(s)
    ensures var o := G.Play(s, rs); o.Playing? ==> o.state.moveNumber == s.moveNumber + AcceptedIn(s, rs)
  {
    if rs == [] {
    } else {
      var before, r := rs[..|rs| - 1], rs[|rs| - 1];
      MovesCounted(s, before);
      RunKeepsInv(s, before);
      if G.Play(s, before).Playing? {
        var t := G.Play(s, before).state;
        if t.score == [] && G.StatusOf(t, r.login, r.move) == Ok {
          MoveLogs(t, G.SideOf(t, r.login), r.move);
        }
      }
    }
  }

  /** Alternation over whole runs with two different logins: after `n` accepted moves the move number is `n`, the log
      covers the moves 1 to `n`, and in an undecided session the first player is in turn exactly if `n` is even and the
      first entry of each move is the action of the player whose turn it was. */
  lemma RunAlternates(l1: Login, l2: Login, rs: seq<G.Request>)
    requires l1 != l2
    ensures var s := G.Init(l1, l2);
      var o, n := G.Play(s, rs), AcceptedIn(s, rs);
      o.Playing? ==>
        && o.state.moveNumber == n == |o.state.log.fromMove| && IndexAgrees(o.state.log)
        && (o.state.score == [] ==>
              && o.state.nowTurn == o.state.arena.At(if n % 2 == 0 then First else Second).login
              && ActionsAlternate(o.state))
  {
    var s := G.Init(l1, l2);
    InitInv(l1, l2);
    RunKeepsInv(s, rs);
    MovesCounted(s, rs);
  }
}
