/** How a session is decided: who loses, what the log says last, and that the first verdict is final. */
module GameVerdict {
  import opened Board
  import opened Ticks
  import opened Rounds
  import opened RoundBoard
  import opened EventLog
  import opened Validation
  import opened GameInvariant
  import opened GameRun
  import G = Game

  /** The scoreboard lists winner and loser of each verdict, the two being different players. */
  predicate Pairs(score: seq<Side>) {
    score == [] || (|score| >= 2 && score[0] == Other(score[1]) && Pairs(score[2..]))
  }

  lemma {:induction false} PairsConcat(s: seq<Side>, t: seq<Side>)
    requires Pairs(s) && Pairs(t)
    ensures Pairs(s + t)
  {
    if s == [] {
      assert s + t == t;
    } else {
      assert (s + t)[2..] == s[2..] + t;
      PairsConcat(s[2..], t);
    }
  }

  lemma TickPairs(a: Arena, s: seq<Item>, n: ActorId, x: Item)
    ensures Pairs(Tick(a, s, n, x).verdict)
  {
    PairsConcat([], Verdict(First));
    PairsConcat([], Verdict(Second));
    PairsConcat(Verdict(First), Verdict(Second));
  }

  /** Over any round the scoreboard only grows, by pairs: the first verdict is never changed. */
  lemma {:induction false} RoundPairs(a: Arena, f: Field)
    requires Pairs(f.score)
    ensures f.score <= Round(a, f).score && Pairs(Round(a, f).score)
    decreases Work(f.todo)
  {
    if f.todo == [] || f.score != [] {
    } else {
      TickPairs(a, f.All(), f.nextId, f.todo[0]);
      PairsConcat(f.score, Next(a, f).verdict);
      StepDecreases(a, f);
      RoundPairs(a, Step(a, f));
    }
  }

  lemma TraversePairs(a: Arena, f: Field)
    requires Pairs(f.score)
    ensures f.score <= Traverse(a, f).score && Pairs(Traverse(a, f).score)
  {
    if f.todo != [] {
      TickPairs(a, f.All(), f.nextId, f.todo[0]);
      PairsConcat(f.score, Next(a, f).verdict);
      RoundPairs(a, Step(a, f));
    }
  }

  /** The scoreboard after a move of an undecided session names both players or none. */
  lemma MovePairs(s: G.GameState, side: Side, md: MoveData)
    requires s.score == []
    ensures Pairs(G.AfterAct(G.Act(s, side, md)).score)
  {
    PairsConcat([], Verdict(side));
    var c := G.Act(s, side, md);
    assert Pairs(c.score);
    TraversePairs(c.arena, G.Pending(c));
  }

  /** The tick of `x` kills the player `loser`, and only that one: a bomb runs out near the loser, the other player not
      being near it in a lesser column, or the same one and a lesser row; or a bullet steps, inside the map, on the
      loser's cell. */
  predicate Kills(a: Arena, x: Item, loser: Side) {
    match x
    case BombItem(_, _, p, left) =>
      var here, there := a.At(loser).pos, a.At(Other(loser)).pos;
      left == 1 && Near(a, p, here) &&
      !(Near(a, p, there) && (there.x < here.x || (there.x == here.x && there.y < here.y)))
    case GunItem(_, _, _, _, _, _) => false
    case BulletItem(_, _, p, d) => a.InMap(Ahead(p, d)) && a.At(loser).pos == Ahead(p, d)
  }

  /** With the players on different cells, a tick decides the session exactly by killing one player. */
  lemma TickVerdict(a: Arena, s: seq<Item>, n: ActorId, x: Item, loser: Side)
    requires a.first.pos != a.second.pos
    ensures Tick(a, s, n, x).verdict == Verdict(loser) <==> Kills(a, x, loser)
    ensures var v := Tick(a, s, n, x).verdict; v == [] || v == Verdict(First) || v == Verdict(Second)
  {
    if x.BombItem? {
      VictimExactly(a, x.pos, First);
      VictimExactly(a, x.pos, Second);
    } else if x.BulletItem? {
      var p := Ahead(x.pos, x.dir);
      assert PlayersAt(a, p) != [] ==> Collisions(a, s, p, x.id) != [];
      assert a.At(loser).pos == p ==> PlayersAt(a, p) != [];
      assert Verdict(First) + [] == Verdict(First) && [] + Verdict(Second) == Verdict(Second);
    }
    assert Verdict(First)[0] != Verdict(Second)[0];
  }

  /** A round that decides an undecided session: some field `g` of the worklist was still undecided,
      its first pending item killed exactly the loser, and the round stopped there. */
  lemma {:induction false} DecidingTick(a: Arena, f: Field) returns (g: Field, loser: Side)
    requires f.score == [] && Round(a, f).score != [] && a.first.pos != a.second.pos
    ensures g.score == [] && g.todo != [] && Round(a, f) == Step(a, g)
    ensures Kills(a, g.todo[0], loser) && Round(a, f).score == Verdict(loser)
    ensures f.ticked <= g.ticked && Reaches(a, f, g)
    decreases Work(f.todo)
  {
    StepDecreases(a, f);
    if Step(a, f).score == [] {
      g, loser := DecidingTick(a, Step(a, f));
    } else {
      g := f;
      TickVerdict(a, f.All(), f.nextId, f.todo[0], First);
      TickVerdict(a, f.All(), f.nextId, f.todo[0], Second);
      loser := if Next(a, f).verdict == Verdict(First) then First else Second;
    }
  }

  /** After an accepted resignation the first object of the list, if there is one, is ticked, and no other;
      the resigning player has lost whatever that tick does. */
  lemma ResignTicksOnce(s: G.GameState, side: Side, md: MoveData)
    requires s.score == [] && md.moveType == Resign
    ensures var r := G.AfterAct(G.Act(s, side, md));
      && r.ticked == (if s.objects == [] then [] else [s.objects[0].id])
      && Verdict(side) <= r.score
  {
    var c := G.Act(s, side, md);
    var f := G.Pending(c);
    assert [] + Verdict(side) == Verdict(side);
    if f.todo != [] {
      assert f.ticked + [f.todo[0].id] == [f.todo[0].id];
      RoundEnds(c.arena, Step(c.arena, f));
    }
  }

  /** The log tells, under the number `n`, how `killer` ended the game: a bomb exploded,
      or a bullet met the player `id`, who died. */
  ghost predicate DeathLogged(t: G.GameState, killer: Item, n: int, id: ActorId) {
    match killer
    case BombItem(_, bomb, _, _) => Event(n, bomb, BombExplode, Nothing) in t.log.value
    case GunItem(_, _, _, _, _, _) => false
    case BulletItem(_, bullet, _, _) =>
      Event(n, bullet, BulletInteraction, Interaction(id, [Event(n, id, PlayerDead, Nothing)])) in t.log.value
  }

  /** The same in the events of the tick, before the log stamps them. */
  function DeathNote(killer: Item, id: ActorId): Event {
    if killer.BulletItem? then Note(killer.id, id, [Event(UNSTAMPED, id, PlayerDead, Nothing)])
    else Event(UNSTAMPED, killer.id, BombExplode, Nothing)
  }

  lemma KillerTells(a: Arena, g: Field, loser: Side)
    requires g.todo != [] && Kills(a, g.todo[0], loser) && a.first.id != a.second.id
    ensures DeathNote(g.todo[0], a.At(loser).id) in Next(a, g).events
  {
    if g.todo[0].BulletItem? {
      DeathTold(a, g.All(), g.todo[0], loser);
    }
  }

  lemma TickLogged(s: G.GameState, c: G.Acted, r: Field, t: G.GameState, g: Field, id: ActorId)
    requires g.todo != [] && !g.todo[0].GunItem? && r == Step(c.arena, g)
    requires t.log.value == s.log.value + Stamped(G.MoveEvents(c, r), s.moveNumber + 1)
    requires DeathNote(g.todo[0], id) in Next(c.arena, g).events
    ensures DeathLogged(t, g.todo[0], s.moveNumber + 1, id)
  {
    var note, es, n := DeathNote(g.todo[0], id), G.MoveEvents(c, r), s.moveNumber + 1;
    assert note in r.events && note in es;
    var i :| 0 <= i < |es| && es[i] == note;
    assert Stamped(es, n)[i] == Stamp(note, n) && Stamp(note, n) in t.log.value;
    if g.todo[0].BulletItem? {
      assert StampAll(note.payload.happened, n) == [Event(n, id, PlayerDead, Nothing)];
    }
  }

  /** The deciding move: after a resignation the loser is the resigning player, whatever the one further tick does;
      otherwise the first and only player killed. The results name both players,
      and the last event of the move is the victory of the winner. */
  lemma DecidingMove(s: G.GameState, side: Side, md: MoveData, t: G.GameState)
    returns (loser: Side, g: Field)
    requires Inv(s) && Accepted(s, side, md) && Follows(s, side, md, t) && t.score != []
    ensures Pairs(t.score) && Verdict(loser) <= t.score
    ensures md.moveType == Resign ==>
      loser == side && G.AfterAct(G.Act(s, side, md)).ticked == if s.objects == [] then [] else [s.objects[0].id]
    ensures md.moveType != Resign ==>
      && t.score == Verdict(loser)
      && g.score == [] && g.todo != [] && Kills(t.arena, g.todo[0], loser)
      && G.AfterAct(G.Act(s, side, md)) == Step(t.arena, g) && Reaches(t.arena, G.Pending(G.Act(s, side, md)), g)
      && DeathLogged(t, g.todo[0], s.moveNumber + 1, t.arena.At(loser).id)
    ensures G.GetResults(t) == Some(G.Results(t.arena.At(Other(loser)).login, t.arena.At(loser).login))
    ensures t.log.value[|t.log.value| - 1] ==
            Event(s.moveNumber + 1, t.arena.At(Other(loser)).id, PlayerWon, Nothing)
  {
    var c := G.Act(s, side, md);
    var f := G.Pending(c);
    AcceptedActs(s, side, md);
    assert Pairs(c.score) by {
      PairsConcat([], Verdict(side));
    }
    TraversePairs(c.arena, f);
    if md.moveType == Resign {
      loser, g := side, f;
      ResignTicksOnce(s, side, md);
    } else {
      TraverseIsRound(c.arena, f);
      g, loser := DecidingTick(c.arena, f);
      KillerTells(c.arena, g, loser);
      TickLogged(s, c, G.AfterAct(c), t, g, c.arena.At(loser).id);
    }
    var es := G.MoveEvents(c, G.AfterAct(c));
    assert es[|es| - 1] == Plain(c.arena.At(Other(loser)).id, PlayerWon);
    assert t.log.value[|t.log.value| - 1] == Stamp(es[|es| - 1], s.moveNumber + 1);
  }

  lemma SameLogins(s: G.GameState, side: Side, md: MoveData, a: Arena)
    requires a == s.arena
    ensures forall w :: G.Act(s, side, md).arena.At(w).login == a.At(w).login
  {
  }

  /** The first verdict is final, for every state whose scoreboard lists pairs and every request, decided sessions
      and resignations followed by a deadly tick included: the scoreboard only grows, by pairs of the two players,
      and set results never change. */
  lemma FirstVerdictFinal(s: G.GameState, login: Login, md: MoveData)
    requires Pairs(s.score)
    ensures var o := G.ApiMove(s, login, md).1;
      o.Playing? ==>
        && Pairs(o.state.score) && s.score <= o.state.score
        && (s.score != [] ==> G.GetResults(o.state) == G.GetResults(s))
  {
    if G.ApiMove(s, login, md).0 == Ok {
      var side := G.SideOf(s, login);
      var c := G.Act(s, side, md);
      PairsConcat(s.score, []);
      PairsConcat([], Verdict(side));
      PairsConcat(s.score, Verdict(side));
      assert s.score <= c.score && Pairs(c.score);
      TraversePairs(c.arena, G.Pending(c));
      SameLogins(s, side, md, s.arena);
    }
  }

  // ---------- who survives ----------

  /** In the coming round `x` is a bomb about to explode near the player, or a bullet or a gun about to fire one
      whose shot steps on the player's cell. */
  ghost predicate Threatens(a: Arena, x: Item, v: Side) {
    || (x.BombItem? && x.ticksLeft == 1 && Near(a, x.pos, a.At(v).pos))
    || (Shooter(x) && Target(x) == a.At(v).pos)
  }

  lemma {:induction false} ReachesAdvances(a: Arena, objects: seq<Item>, n0: ActorId, f: Field, g: Field)
    requires IdsFresh(f) && Advances(a, objects, n0, f) && Unique(objects) && Below(Ids(objects), n0)
    requires Reaches(a, f, g)
    ensures Advances(a, objects, n0, g)
    decreases Work(f.todo)
  {
    if f == g {
    } else {
      StepFresh(a, f);
      TickedMembers(f, Next(a, f));
      TickPossible(a, f.All(), f.nextId, f.todo[0]);
      TickLands(a, f.All(), f.nextId, f.todo[0]);
      TickAdvances(a, f.All(), f.nextId, f.todo[0]);
      TickedAdvances(a, objects, n0, f, Next(a, f), Step(a, f));
      StepDecreases(a, f);
      ReachesAdvances(a, objects, n0, Step(a, f), g);
    }
  }

  lemma KillerThreatens(a: Arena, objects: seq<Item>, n: ActorId, y: Item, loser: Side)
    requires Source(objects, n, y) && Kills(a, y, loser)
    ensures exists x :: x in objects && Threatens(a, x, loser)
  {
    if y in objects {
      assert Threatens(a, y, loser);
    } else {
      var g :| g in objects && Armed(g) && y == BulletItem(g.owner, y.id, g.pos, g.dir);
      assert Threatens(a, g, loser);
    }
  }

  /** A player whom nothing on the board threatens after the action does not lose in the round: a bomb kills nobody
      who is more than one cell away on either axis, and a shot nobody who is not on its target. */
  lemma UnthreatenedSurvives(s: G.GameState, side: Side, md: MoveData, t: G.GameState, v: Side)
    requires Inv(s) && Accepted(s, side, md) && Follows(s, side, md, t) && md.moveType != Resign
    requires forall x :: x in G.Act(s, side, md).objects ==> !Threatens(t.arena, x, v)
    ensures t.score == [] || t.score == Verdict(Other(v))
  {
    if t.score != [] {
      var c := G.Act(s, side, md);
      var f := G.Pending(c);
      var loser, g := DecidingMove(s, side, md, t);
      AcceptedActs(s, side, md);
      assert f.All() == c.objects;
      assert forall y :: y in c.objects ==> Source(c.objects, c.nextId, y);
      ReachesAdvances(c.arena, c.objects, c.nextId, f, g);
      KillerThreatens(c.arena, c.objects, c.nextId, g.todo[0], loser);
      assert loser != v;
    }
  }
}
