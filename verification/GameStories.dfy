/** The life of every bomb and every gun, told by the log: over whole runs, a bomb placed in move m explodes
    in move m+2, and a gun placed in move m fires in moves m+2, m+5 and m+8 and is gone after that. */
module GameStories {
  import opened Board
  import opened Ticks
  import opened Rounds
  import opened RoundBoard
  import opened RoundStory
  import opened EventLog
  import opened Validation
  import opened GameInvariant
  import opened GameRun
  import G = Game

  /** An entry of a story: the move and the name of the event. */
  datatype Entry = Entry(move: int, name: EventName)

  /** What the log says about one actor, in order. */
  function Story(v: seq<Event>, id: ActorId): seq<Entry> {
    if v == [] then []
    else (if v[0].actor == id then [Entry(v[0].moveNumber, v[0].name)] else []) + Story(v[1..], id)
  }

  function Dated(names: seq<EventName>, move: int): seq<Entry> {
    if names == [] then [] else [Entry(move, names[0])] + Dated(names[1..], move)
  }

  /** What a bomb logs `k` moves after its own. */
  function BombPage(k: int): seq<EventName> {
    if k < 2 then [BombTicking] else if k == 2 then [BombExplode] else []
  }

  /** What a gun logs `k` moves after its own. */
  function GunPage(k: int): seq<EventName> {
    if k > 8 then [] else if k % 3 != 2 then [GunWaiting] else if k < 8 then [GunShot] else [GunShot, GunDestroy]
  }

  function BombStory(m: int, n: int): seq<Entry>
    decreases n - m
  {
    if n < m then [] else BombStory(m, n - 1) + Dated(BombPage(n - m), n)
  }

  function GunStory(m: int, n: int): seq<Entry>
    decreases n - m
  {
    if n < m then [] else GunStory(m, n - 1) + Dated(GunPage(n - m), n)
  }

  /** Moves left until the gun's last shot. */
  function Countdown(x: Item): int
    requires x.GunItem?
  {
    x.ticksToShot + GUN_COOLDOWN * (x.shotsLeft - 1)
  }

  /** The log and the board agree, after move `n`, on the bomb placed with id `b` in move `m`. */
  ghost predicate BombTold(s: GameState, b: ActorId, m: int) {
    && Story(s.log.value, b) == BombStory(m, s.moveNumber)
    && if s.moveNumber < m + 2
       then exists x :: x in s.objects && x.BombItem? && x.id == b && x.ticksLeft == m + 2 - s.moveNumber
       else b !in Ids(s.objects)
  }

  /** The gun `b`, `k` moves after its own. */
  predicate GunOfAge(x: Item, b: ActorId, k: int) {
    x.GunItem? && x.id == b && 1 <= x.ticksToShot <= GUN_COOLDOWN && Countdown(x) == 8 - k
  }

  ghost predicate GunTold(s: GameState, b: ActorId, m: int) {
    && Story(s.log.value, b) == GunStory(m, s.moveNumber)
    && if s.moveNumber < m + 8
       then exists x :: x in s.objects && GunOfAge(x, b, s.moveNumber - m)
       else b !in Ids(s.objects)
  }

  ghost predicate EntryTold(s: GameState, e: Event) {
    Places(e) ==>
      && e.moveNumber <= s.moveNumber
      && if e.name == PlayerPlaceBomb then BombTold(s, Placed(e), e.moveNumber)
         else GunTold(s, Placed(e), e.moveNumber)
  }

  /** Every bomb and gun ever placed has exactly the story of its age. */
  ghost predicate AllTold(s: GameState) {
    s.score == [] ==> forall e :: e in s.log.value ==> EntryTold(s, e)
  }

  // ---------- stories of a longer log ----------

  lemma {:induction false} StoryConcat(v: seq<Event>, w: seq<Event>, id: ActorId)
    ensures Story(v + w, id) == Story(v, id) + Story(w, id)
  {
    if v == [] {
      assert v + w == w;
    } else {
      assert (v + w)[0] == v[0] && (v + w)[1..] == v[1..] + w;
      StoryConcat(v[1..], w, id);
      Associate(if v[0].actor == id then [Entry(v[0].moveNumber, v[0].name)] else [],
                Story(v[1..], id), Story(w, id));
    }
  }

  lemma {:induction false} StoryStamped(es: seq<Event>, n: int, id: ActorId)
    ensures Story(Stamped(es, n), id) == Dated(Names(es, id), n)
  {
    if es == [] {
    } else {
      StoryStamped(es[1..], n, id);
      assert Stamped(es, n)[1..] == Stamped(es[1..], n);
      assert Stamped(es, n)[0] == Stamp(es[0], n);
      var names := Names(es[1..], id);
      if es[0].actor == id {
        assert ([es[0].name] + names)[1..] == names;
      } else {
        assert [] + names == names;
      }
    }
  }

  lemma {:induction false} StoryOfOthers(v: seq<Event>, id: ActorId)
    requires forall e :: e in v ==> e.actor != id
    ensures Story(v, id) == []
  {
    if v == [] {
    } else {
      StoryOfOthers(v[1..], id);
    }
  }

  // ---------- one move ----------

  /** An accepted move leading from one undecided state to another, and the round it contains. */
  ghost predicate Turn(s: GameState, c: G.Acted, r: Field, t: GameState) {
    && s.score == [] && c.score == [] && t.score == [] && r.score == []
    && t.moveNumber == s.moveNumber + 1 && s.nextId <= c.nextId
    && Unique(c.objects) && Below(Ids(c.objects), c.nextId) && Running(c.arena, c.objects)
    && (c.objects == s.objects || exists x :: c.objects == s.objects + [x] && x.id == s.nextId)
    && r == Round(c.arena, Start(c.objects, c.nextId, []))
    && t.objects == r.All()
    && t.log.value == s.log.value + Stamped([c.event] + r.events, t.moveNumber)
    && RoundIds(Ids(c.objects), c.nextId, r)
    && c.event.actor in {0, 1}
  }

  lemma MoveIsTurn(s: GameState, side: Side, md: MoveData, t: GameState)
    requires Inv(s) && Accepted(s, side, md) && Follows(s, side, md, t) && t.score == []
    ensures var c := G.Act(s, side, md); Turn(s, c, G.AfterAct(c), t)
    ensures md.moveType != Resign
  {
    var c := G.Act(s, side, md);
    AcceptedActs(s, side, md);
    AcceptedSane(s, side, md);
    ScoreStays(c.arena, G.Pending(c));
    TraverseIsRound(c.arena, G.Pending(c));
    assert G.MoveEvents(c, G.AfterAct(c)) == [c.event] + G.AfterAct(c).events;
  }

  /** A turn adds one page to the story of each bomb and gun on the board, and it stays or leaves accordingly. */
  lemma TurnPage(s: GameState, c: G.Acted, r: Field, t: GameState, o: Item)
    requires Turn(s, c, r, t) && o in c.objects && !o.BulletItem? && o.id !in {0, 1}
    ensures Story(t.log.value, o.id) == Story(s.log.value, o.id) + Dated(Page(o), t.moveNumber)
    ensures if Stays(o) then Advanced(o) in t.objects else o.id !in Ids(t.objects)
  {
    OnePageEach(c.arena, c.objects, c.nextId, o);
    NamesConcat([c.event], r.events, o.id);
    assert Names([c.event], o.id) == [];
    assert [] + Names(r.events, o.id) == Names(r.events, o.id);
    StoryStamped([c.event] + r.events, t.moveNumber, o.id);
    StoryConcat(s.log.value, Stamped([c.event] + r.events, t.moveNumber), o.id);
  }

  /** A turn says nothing about an id that is not on the board, and does not bring it back. */
  lemma TurnSilence(s: GameState, c: G.Acted, r: Field, t: GameState, b: ActorId)
    requires Turn(s, c, r, t) && b !in Ids(c.objects) && b < c.nextId && b !in {0, 1}
    ensures Story(t.log.value, b) == Story(s.log.value, b)
    ensures b !in Ids(t.objects)
  {
    var es := [c.event] + r.events;
    NamesOfOthers(es, b);
    StoryStamped(es, t.moveNumber, b);
    StoryConcat(s.log.value, Stamped(es, t.moveNumber), b);
    assert Story(s.log.value, b) + [] == Story(s.log.value, b);
  }

  lemma OldOnBoard(s: GameState, c: G.Acted, r: Field, t: GameState, b: ActorId)
    requires Turn(s, c, r, t) && b < s.nextId
    ensures forall x :: x in s.objects ==> x in c.objects
    ensures b !in Ids(s.objects) ==> b !in Ids(c.objects)
  {
    if c.objects != s.objects {
      var x :| c.objects == s.objects + [x] && x.id == s.nextId;
      IdsConcat(s.objects, [x]);
    }
  }

  lemma GoneBombTurn(s: GameState, c: G.Acted, r: Field, t: GameState, b: ActorId, m: int)
    requires Turn(s, c, r, t) && G.FIRST_OBJECT_ID <= b < s.nextId && m + 2 <= s.moveNumber && BombTold(s, b, m)
    ensures BombTold(t, b, m)
  {
    OldOnBoard(s, c, r, t, b);
    TurnSilence(s, c, r, t, b);
    assert BombStory(m, s.moveNumber) + [] == BombStory(m, s.moveNumber);
  }

  lemma LiveBombTurn(s: GameState, t: GameState, x: Item, m: int)
    requires x.BombItem? && t.moveNumber == s.moveNumber + 1 <= m + 2 && m <= s.moveNumber
    requires x.ticksLeft == m + 2 - s.moveNumber && Story(s.log.value, x.id) == BombStory(m, s.moveNumber)
    requires Story(t.log.value, x.id) == Story(s.log.value, x.id) + Dated(Page(x), t.moveNumber)
    requires if Stays(x) then Advanced(x) in t.objects else x.id !in Ids(t.objects)
    ensures BombTold(t, x.id, m)
  {
  }

  lemma BombTurn(s: GameState, c: G.Acted, r: Field, t: GameState, b: ActorId, m: int)
    requires Turn(s, c, r, t) && G.FIRST_OBJECT_ID <= b < s.nextId && m <= s.moveNumber && BombTold(s, b, m)
    ensures BombTold(t, b, m)
  {
    OldOnBoard(s, c, r, t, b);
    if s.moveNumber < m + 2 {
      var x :| x in s.objects && x.BombItem? && x.id == b && x.ticksLeft == m + 2 - s.moveNumber;
      TurnPage(s, c, r, t, x);
      LiveBombTurn(s, t, x, m);
    } else {
      GoneBombTurn(s, c, r, t, b, m);
    }
  }

  lemma GoneGunTurn(s: GameState, c: G.Acted, r: Field, t: GameState, b: ActorId, m: int)
    requires Turn(s, c, r, t) && b !in {0, 1} && b < s.nextId && b !in Ids(c.objects)
    requires s.moveNumber >= m + 8 && Story(s.log.value, b) == GunStory(m, s.moveNumber)
    ensures GunTold(t, b, m)
  {
    TurnSilence(s, c, r, t, b);
    assert GunPage(t.moveNumber - m) == [];
    assert GunStory(m, s.moveNumber) + [] == GunStory(m, s.moveNumber);
  }

  lemma GunPageTold(s: GameState, t: GameState, x: Item, m: int)
    requires x.GunItem? && t.moveNumber == s.moveNumber + 1 && m <= t.moveNumber <= m + 8
    requires Story(t.log.value, x.id) == Story(s.log.value, x.id) + Dated(Page(x), t.moveNumber)
    requires Story(s.log.value, x.id) == GunStory(m, s.moveNumber)
    requires Page(x) == GunPage(t.moveNumber - m) && (Stays(x) <==> t.moveNumber < m + 8)
    requires Stays(x) ==> Advanced(x) in t.objects && GunOfAge(Advanced(x), x.id, t.moveNumber - m)
    requires !Stays(x) ==> x.id !in Ids(t.objects)
    ensures GunTold(t, x.id, m)
  {
  }

  /** The arithmetic of a gun's countdown: its next page is the one of its age `k`. */
  lemma GunTicks(x: Item, k: int)
    requires x.GunItem? && 1 <= x.ticksToShot <= GUN_COOLDOWN && 1 <= x.shotsLeft <= GUN_SHOTS
    requires k <= 8 && Countdown(x) == 9 - k
    ensures Page(x) == GunPage(k) && (Stays(x) <==> k < 8)
    ensures Stays(x) ==> GunOfAge(Advanced(x), x.id, k)
  {
  }

  lemma LiveGunTurn(s: GameState, c: G.Acted, r: Field, t: GameState, x: Item, m: int)
    requires Turn(s, c, r, t) && x in c.objects && x.id !in {0, 1}
    requires m <= s.moveNumber < m + 8 && GunOfAge(x, x.id, s.moveNumber - m)
    requires Story(s.log.value, x.id) == GunStory(m, s.moveNumber)
    ensures GunTold(t, x.id, m)
  {
    TurnPage(s, c, r, t, x);
    assert Fit(c.arena, x);
    GunTicks(x, t.moveNumber - m);
    GunPageTold(s, t, x, m);
  }

  lemma GunTurn(s: GameState, c: G.Acted, r: Field, t: GameState, b: ActorId, m: int)
    requires Turn(s, c, r, t) && G.FIRST_OBJECT_ID <= b < s.nextId && m <= s.moveNumber && GunTold(s, b, m)
    ensures GunTold(t, b, m)
  {
    OldOnBoard(s, c, r, t, b);
    if s.moveNumber < m + 8 {
      var x :| x in s.objects && GunOfAge(x, b, s.moveNumber - m);
      LiveGunTurn(s, c, r, t, x, m);
    } else {
      GoneGunTurn(s, c, r, t, b, m);
    }
  }

  /** The object placed by this very move. */
  lemma NewTurn(s: GameState, c: G.Acted, r: Field, t: GameState, x: Item)
    requires Turn(s, c, r, t) && LogInOrder(s) && c.objects == s.objects + [x]
    requires x.id == s.nextId && G.FIRST_OBJECT_ID <= s.nextId
    ensures x == BombItem(x.owner, x.id, x.pos, BOMB_TICKS_LEFT) ==> BombTold(t, x.id, t.moveNumber)
    ensures x.GunItem? && x.ticksToShot == GUN_COOLDOWN && x.shotsLeft == GUN_SHOTS ==>
              GunTold(t, x.id, t.moveNumber)
  {
    forall e | e in s.log.value ensures e.actor != x.id {
      assert EntryInOrder(e, s.nextId);
    }
    StoryOfOthers(s.log.value, x.id);
    assert x in c.objects;
    if !x.BulletItem? {
      TurnPage(s, c, r, t, x);
    }
    var n := t.moveNumber;
    assert BombStory(n, n - 1) == [] && GunStory(n, n - 1) == [];
  }

  /** A placement event comes with its object, fully charged, at the end of the list. */
  ghost predicate Charged(s: GameState, c: G.Acted) {
    Places(c.event) ==>
      && |c.objects| == |s.objects| + 1
      && var x := c.objects[|s.objects|];
         && c.objects == s.objects + [x]
         && x.id == s.nextId == Placed(c.event)
         && if c.event.name == PlayerPlaceBomb then x.BombItem? && x.ticksLeft == BOMB_TICKS_LEFT
            else x.GunItem? && x.ticksToShot == GUN_COOLDOWN && x.shotsLeft == GUN_SHOTS
  }

  lemma ActCharges(s: GameState, side: Side, md: MoveData)
    ensures Charged(s, G.Act(s, side, md))
  {
  }

  lemma NewEntryTold(s: GameState, side: Side, c: G.Acted, r: Field, t: GameState, e: Event)
    requires Turn(s, c, r, t) && Sane(s, side, c, r) && Charged(s, c)
    requires LogInOrder(s) && G.FIRST_OBJECT_ID <= s.nextId
    requires e in Stamped([c.event] + r.events, t.moveNumber)
    ensures EntryTold(t, e)
  {
    var es := [c.event] + r.events;
    var i := StampedFrom(es, t.moveNumber, e);
    if Places(es[i]) {
      assert es[i] in G.MoveEvents(c, r);
      MoveActors(s, side, c, r, es[i]);
      NewTurn(s, c, r, t, c.objects[|s.objects|]);
    }
  }

  lemma OldEntryTold(s: GameState, c: G.Acted, r: Field, t: GameState, e: Event)
    requires Turn(s, c, r, t) && AllTold(s) && LogInOrder(s) && e in s.log.value
    ensures EntryTold(t, e)
  {
    assert EntryTold(s, e) && EntryInOrder(e, s.nextId);
    if Places(e) {
      if e.name == PlayerPlaceBomb {
        BombTurn(s, c, r, t, Placed(e), e.moveNumber);
      } else {
        GunTurn(s, c, r, t, Placed(e), e.moveNumber);
      }
    }
  }

  lemma MoveTells(s: GameState, side: Side, md: MoveData, t: GameState)
    requires Inv(s) && AllTold(s) && Accepted(s, side, md) && Follows(s, side, md, t)
    ensures AllTold(t)
  {
    if t.score == [] {
      var c := G.Act(s, side, md);
      var r := G.AfterAct(c);
      MoveIsTurn(s, side, md, t);
      AcceptedSane(s, side, md);
      forall e | e in t.log.value ensures EntryTold(t, e) {
        if e in s.log.value {
          OldEntryTold(s, c, r, t, e);
        } else {
          ActCharges(s, side, md);
          NewEntryTold(s, side, c, r, t, e);
        }
      }
    }
  }

  // ---------- over whole runs ----------

  lemma ServeTells(s: GameState, r: G.Request)
    requires Inv(s) && AllTold(s)
    ensures G.Serve(s, r).Playing? ==> AllTold(G.Serve(s, r).state)
  {
    if s.score == [] && G.StatusOf(s, r.login, r.move) == Ok {
      var side := G.SideOf(s, r.login);
      MoveLogs(s, side, r.move);
      var o := G.Serve(s, r);
      if o.Playing? {
        MoveTells(s, side, r.move, o.state);
      }
    }
  }

  /** In every undecided state of every run, every bomb and gun ever placed has exactly the story of its age. */
  lemma {:induction false} RunTells(login1: Login, login2: Login, rs: seq<G.Request>)
    requires login1 != login2
    ensures var o := G.Play(G.Init(login1, login2), rs);
      o.Playing? ==> Inv(o.state) && AllTold(o.state)
  {
    var s0 := G.Init(login1, login2);
    InitInv(login1, login2);
    RunKeepsInv(s0, rs);
    if rs == [] {
    } else {
      RunTells(login1, login2, rs[..|rs| - 1]);
      var o := G.Play(s0, rs[..|rs| - 1]);
      if o.Playing? {
        ServeTells(o.state, rs[|rs| - 1]);
      }
    }
  }

  lemma DatedOne(name: EventName, n: int)
    ensures Dated([name], n) == [Entry(n, name)]
  {
    assert [name][1..] == [];
  }

  /** A page of a gun's story that is neither the third, the sixth nor the ninth. */
  lemma OneWait(m: int, n: int)
    requires m <= n <= m + 8 && (n - m) % 3 != 2
    ensures GunStory(m, n) == GunStory(m, n - 1) + [Entry(n, GunWaiting)]
  {
    DatedOne(GunWaiting, n);
  }

  /** Three pages of a gun's story: two of waiting and one with a shot. */
  lemma Salvo(m: int, k: int)
    requires k in {0, 3, 6}
    ensures GunStory(m, m + k + 2) ==
            GunStory(m, m + k - 1) + [Entry(m + k, GunWaiting), Entry(m + k + 1, GunWaiting)] +
              Dated(GunPage(k + 2), m + k + 2)
  {
    var n := m + k;
    OneWait(m, n);
    OneWait(m, n + 1);
    assert n + 2 - m == k + 2;
    assert GunStory(m, n + 2) == GunStory(m, n + 1) + Dated(GunPage(k + 2), n + 2);
  }

  /** A bomb of full age ticks twice and explodes two moves after its own. */
  lemma {:induction false} FullBombStory(m: int, n: int)
    requires n >= m + 2
    ensures BombStory(m, n) == [Entry(m, BombTicking), Entry(m + 1, BombTicking), Entry(m + 2, BombExplode)]
    decreases n - m
  {
    if n > m + 2 {
      FullBombStory(m, n - 1);
    } else {
      DatedOne(BombTicking, m);
      DatedOne(BombTicking, m + 1);
      DatedOne(BombExplode, m + 2);
      assert BombStory(m, m) == [Entry(m, BombTicking)];
      assert BombStory(m, m + 1) == [Entry(m, BombTicking), Entry(m + 1, BombTicking)];
    }
  }

  lemma TwoSalvos(m: int)
    ensures GunStory(m, m + 5) == [
      Entry(m, GunWaiting), Entry(m + 1, GunWaiting), Entry(m + 2, GunShot),
      Entry(m + 3, GunWaiting), Entry(m + 4, GunWaiting), Entry(m + 5, GunShot)]
  {
    assert GunStory(m, m - 1) == [];
    Salvo(m, 0);
    DatedOne(GunShot, m + 2);
    assert GunStory(m, m + 2) == [Entry(m, GunWaiting), Entry(m + 1, GunWaiting), Entry(m + 2, GunShot)];
    Salvo(m, 3);
    DatedOne(GunShot, m + 5);
  }

  /** A gun of full age has fired exactly three times, two, five and eight moves after its own. */
  lemma {:induction false} FullGunStory(m: int, n: int)
    requires n >= m + 8
    ensures GunStory(m, n) == [
      Entry(m, GunWaiting), Entry(m + 1, GunWaiting), Entry(m + 2, GunShot),
      Entry(m + 3, GunWaiting), Entry(m + 4, GunWaiting), Entry(m + 5, GunShot),
      Entry(m + 6, GunWaiting), Entry(m + 7, GunWaiting), Entry(m + 8, GunShot), Entry(m + 8, GunDestroy)]
    decreases n - m
  {
    if n > m + 8 {
      FullGunStory(m, n - 1);
    } else {
      TwoSalvos(m);
      Salvo(m, 6);
      DatedOne(GunDestroy, m + 8);
      assert [GunShot, GunDestroy][1..] == [GunDestroy];
      assert Dated(GunPage(8), m + 8) == [Entry(m + 8, GunShot), Entry(m + 8, GunDestroy)];
    }
  }

  /** The log says of the placed bomb exactly that it ticked twice and exploded, and it is gone. */
  ghost predicate BombOver(s: GameState, e: Event)
    requires Places(e)
  {
    var m := e.moveNumber;
    && Story(s.log.value, Placed(e)) == [Entry(m, BombTicking), Entry(m + 1, BombTicking), Entry(m + 2, BombExplode)]
    && Placed(e) !in Ids(s.objects)
  }

  /** The log says of the placed gun exactly that it fired three times and was destroyed, and it is gone. */
  ghost predicate GunOver(s: GameState, e: Event)
    requires Places(e)
  {
    var m := e.moveNumber;
    && Story(s.log.value, Placed(e)) == [
         Entry(m, GunWaiting), Entry(m + 1, GunWaiting), Entry(m + 2, GunShot),
         Entry(m + 3, GunWaiting), Entry(m + 4, GunWaiting), Entry(m + 5, GunShot),
         Entry(m + 6, GunWaiting), Entry(m + 7, GunWaiting), Entry(m + 8, GunShot), Entry(m + 8, GunDestroy)]
    && Placed(e) !in Ids(s.objects)
  }

  lemma ToldOver(s: GameState, e: Event)
    requires EntryTold(s, e) && Places(e)
    ensures e.name == PlayerPlaceBomb && s.moveNumber >= e.moveNumber + 2 ==> BombOver(s, e)
    ensures e.name == PlayerPlaceGun && s.moveNumber >= e.moveNumber + 8 ==> GunOver(s, e)
  {
    if e.name == PlayerPlaceBomb && s.moveNumber >= e.moveNumber + 2 {
      FullBombStory(e.moveNumber, s.moveNumber);
    }
    if e.name == PlayerPlaceGun && s.moveNumber >= e.moveNumber + 8 {
      FullGunStory(e.moveNumber, s.moveNumber);
    }
  }

  lemma AllOver(s: GameState)
    requires AllTold(s) && s.score == []
    ensures forall e :: e in s.log.value && Places(e) ==>
      && (e.name == PlayerPlaceBomb && s.moveNumber >= e.moveNumber + 2 ==> BombOver(s, e))
      && (e.name == PlayerPlaceGun && s.moveNumber >= e.moveNumber + 8 ==> GunOver(s, e))
  {
    forall e | e in s.log.value && Places(e)
      ensures
        && (e.name == PlayerPlaceBomb && s.moveNumber >= e.moveNumber + 2 ==> BombOver(s, e))
        && (e.name == PlayerPlaceGun && s.moveNumber >= e.moveNumber + 8 ==> GunOver(s, e))
    {
      ToldOver(s, e);
    }
  }

  /** In any undecided state of any run: of a bomb placed in move `m`, once move `m + 2` has been played, the log says
      exactly that it ticked in `m` and `m + 1` and exploded in `m + 2`; of a gun placed in move `m`, once move `m + 8`
      has been played, exactly that it fired in `m + 2`, `m + 5` and `m + 8` and was destroyed then. */
  lemma {:induction false} PlacedObjectsEnd(login1: Login, login2: Login, rs: seq<G.Request>)
    requires login1 != login2
    ensures var o := G.Play(G.Init(login1, login2), rs);
      o.Playing? && o.state.score == [] ==> forall e :: e in o.state.log.value && Places(e) ==>
        && (e.name == PlayerPlaceBomb && o.state.moveNumber >= e.moveNumber + 2 ==> BombOver(o.state, e))
        && (e.name == PlayerPlaceGun && o.state.moveNumber >= e.moveNumber + 8 ==> GunOver(o.state, e))
  {
    var o := G.Play(G.Init(login1, login2), rs);
    RunTells(login1, login2, rs);
    if o.Playing? && o.state.score == [] {
      AllOver(o.state);
    }
  }
}
