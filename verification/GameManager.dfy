/** `GameManager`: the sessions, their watchers and the queued users, as the program keeps them. */
module GameManagers {
  import opened Board
  import opened EventLog
  import opened Validation
  import opened GameServer
  import opened GameVerdict
  import opened Sessions
  import N = StateNotifier
  import Q = QueueNotifiers
  import G = Game

  /** What is stored about a played session. */
  datatype Line = Line(session: SessionId, results: G.Results)

  /** The list of played sessions. */
  class PlayedSessions {
    var lines: seq<Line>

    constructor ()
      ensures lines == []
    {
      lines := [];
    }

    method AddLine(line: Line)
      modifies this
      ensures lines == old(lines) + [line]
    {
      lines := lines + [line];
    }
  }

  ghost predicate Lists(lines: seq<Line>, sid: SessionId) {
    exists i :: 0 <= i < |lines| && lines[i].session == sid
  }

  /** The game is decided between its two players, and its log ends with the victory of the winner. */
  ghost predicate Decided(t: G.GameState) {
    && |t.score| >= 2 && t.score[0] != t.score[1]
    && t.log.value != []
    && var winner := if t.score[0] == First then t.arena.first else t.arena.second;
       t.log.value[|t.log.value| - 1] == Event(t.moveNumber, winner.id, PlayerWon, Nothing)
  }

  /** The results name winner and loser of the first verdict by their logins. */
  ghost predicate NamesBoth(results: G.Results, t: G.GameState) {
    && |t.score| >= 2
    && results == if t.score[0] == First then G.Results(t.arena.first.login, t.arena.second.login)
                  else G.Results(t.arena.second.login, t.arena.first.login)
  }

  /** Every finished session has exactly one line, which names winner and loser, and no other session has any;
      `finals` are the last states of the finished sessions. */
  ghost predicate OneLineEach(lines: seq<Line>, finals: map<SessionId, G.GameState>) {
    && (forall i, j :: 0 <= i < j < |lines| ==> lines[i].session != lines[j].session)
    && (forall sid :: sid in finals <==> Lists(lines, sid))
    && (forall i :: 0 <= i < |lines| ==>
          lines[i].session in finals && Decided(finals[lines[i].session]) &&
          NamesBoth(lines[i].results, finals[lines[i].session]))
  }

  lemma OneLineMore(lines: seq<Line>, finals: map<SessionId, G.GameState>, line: Line, t: G.GameState)
    requires OneLineEach(lines, finals) && line.session !in finals
    requires Decided(t) && NamesBoth(line.results, t)
    ensures OneLineEach(lines + [line], finals[line.session := t])
  {
    var more := lines + [line];
    assert more[|lines|] == line;
    forall i | 0 <= i < |lines| ensures lines[i].session != line.session {
      assert Lists(lines, lines[i].session);
    }
    forall sid | Lists(lines, sid) ensures Lists(more, sid) {
      var i :| 0 <= i < |lines| && lines[i].session == sid;
      assert more[i].session == sid;
    }
  }

  /** A move that decides the game ends its log with the victory of the winner. */
  lemma DecidingMoveTold(s: G.GameState, side: Side, md: MoveData, t: G.GameState)
    requires LogReady(s.log, s.moveNumber) && s.score == [] && G.Accept(s, side, md) == G.Playing(t)
    ensures t.score == [] || Decided(t)
  {
    if t.score != [] {
      var c := G.Act(s, side, md);
      var r := G.AfterAct(c);
      var es := G.MoveEvents(c, r);
      MovePairs(s, side, md);
      AddAllAppends(s.log.(moveNumber := s.moveNumber + 1), es);
      assert es[|es| - 1] == Plain(c.arena.At(r.score[0]).id, PlayerWon);
      assert t.log.value[|t.log.value| - 1] == Stamp(es[|es| - 1], s.moveNumber + 1);
    }
  }

  class GameManager {
    const watchers: N.SessionStateNotifier
    const queue: Q.QueueNotifier
    const played: PlayedSessions
    var sessions: map<SessionId, Session>
    ghost var ended: map<SessionId, G.GameState>
    ghost var repr: set<object>

    ghost predicate Owned(s: Session)
      reads this, repr
    {
      s in repr && s.Repr() <= repr && {this, watchers, queue, played} !! s.Repr() && s.Valid()
    }

    /** Sessions are valid and share no object, and no id is used again. */
    ghost predicate Sound()
      reads this, repr
    {
      && {this, watchers, queue, played} <= repr && watchers.Valid()
      && (forall sid :: sid in sessions ==> sid !in ended && Owned(sessions[sid]))
      && (forall i, j :: i in sessions && j in sessions && i != j ==> sessions[i].Repr() !! sessions[j].Repr())
    }

    ghost predicate Booked()
      reads this, played
    {
      OneLineEach(played.lines, ended)
    }

    ghost predicate UndecidedBut(sids: set<SessionId>)
      requires Sound()
      reads this, repr
    {
      forall sid :: sid in sessions && sid !in sids ==> sessions[sid].State().score == []
    }

    /** Between requests no session is decided, and the finished ones have one line each. */
    ghost predicate Valid()
      reads this, repr
    {
      Sound() && UndecidedBut({}) && Booked()
    }

    ghost function GameOf(sid: SessionId): Option<G.GameState>
      requires Sound()
      reads this, repr
    {
      if sid in sessions then Some(sessions[sid].State()) else None
    }

    /** What one user as a watcher of one session has to do with the server. */
    ghost function DeskOf(k: N.Key): Desk
      requires Sound()
      reads this, repr
    {
      Desk(GameOf(k.session), if k.session in ended then Some(ended[k.session].log) else None, watchers.View(k))
    }

    constructor ()
      ensures Valid() && forall k :: DeskOf(k) == EMPTY
      ensures fresh(repr)
    {
      watchers := new N.SessionStateNotifier();
      queue := new Q.QueueNotifier();
      played := new PlayedSessions();
      sessions := map[];
      ended := map[];
      new;
      repr := {this, watchers, queue, played};
    }

    lemma ServesCreate(before: Desk, emplaced: Desk, after: Desk, k: N.Key, c: Call)
      requires c.Create?
      requires emplaced ==
               if k.session == c.session then before.(game := Some(G.Init(c.login1, c.login2))) else before
      requires after == emplaced.(watch :=
                 N.After(N.After(emplaced.watch, k, N.Action.Subscribe(c.user1, c.session)), k,
                         N.Action.Subscribe(c.user2, c.session)))
      ensures Some(after) == Serve(before, k, c)
    {
    }

    /** A session none of whose objects changed. */
    twostate lemma Untouched(s: Session)
      requires old(s.Valid()) && unchanged(old(s.Repr()))
      ensures s.Valid() && s.Repr() == old(s.Repr()) && s.State() == old(s.State()) && s.scoreboard == old(s.scoreboard)
    {
    }

    /** Only the map changed: `session` has been added. */
    twostate lemma Added(new si: SessionId, new session: Session, new own: set<object>, new s: G.GameState)
      requires old(allocated(session) && allocated(own))
      requires old(Valid()) && si !in old(sessions) && si !in ended && ended == old(ended)
      requires old(session.Valid() && session.State() == s && session.Repr() == own && own !! repr) && s.score == []
      requires unchanged(old(repr) - {this}) && unchanged(own)
      requires sessions == old(sessions)[si := session] && repr == old(repr) + own
      ensures Valid()
      ensures forall sid :: GameOf(sid) == if sid == si then Some(s) else old(GameOf(sid))
    {
      Untouched(session);
      forall sid | sid in old(sessions)
        ensures sessions[sid] == old(sessions[sid]) && sessions[sid].Repr() == old(sessions[sid].Repr())
        ensures Owned(sessions[sid]) && sessions[sid].State() == old(sessions[sid].State())
      {
        Untouched(old(sessions)[sid]);
      }
    }

    method Link(si: SessionId, session: Session, ghost own: set<object>, ghost s: G.GameState)
      requires Valid() && si !in sessions && si !in ended
      requires session.Valid() && s == session.State() && s.score == [] && own == session.Repr() && own !! repr
      modifies this
      ensures Valid() && repr == old(repr) + own
      ensures ended == old(ended) && sessions == old(sessions)[si := session]
      ensures forall sid :: GameOf(sid) == if sid == si then Some(s) else old(GameOf(sid))
    {
      sessions := sessions[si := session];
      repr := repr + own;
      Added(si, session, own, s);
    }

    method Emplace(si: SessionId, login1: Login, login2: Login)
      requires Valid() && si !in sessions && si !in ended
      modifies this
      ensures Valid() && fresh(repr - old(repr)) && old(repr) <= repr
      ensures ended == old(ended) && sessions.Keys == old(sessions.Keys) + {si}
      ensures forall sid :: GameOf(sid) == if sid == si then Some(G.Init(login1, login2)) else old(GameOf(sid))
    {
      var session := new Session(login1, login2);
      forall sid | sid in sessions
        ensures Owned(sessions[sid]) && sessions[sid].Repr() == old(sessions[sid].Repr())
        ensures sessions[sid].State() == old(sessions[sid].State())
      {
        Untouched(sessions[sid]);
      }
      Link(si, session, session.Repr(), session.State());
    }

    /** Only notifiers changed. */
    twostate lemma SessionsUntouched()
      requires old(Sound()) && unchanged(this) && unchanged(old(repr) - {watchers, queue, played}) && watchers.Valid()
      ensures Sound() && forall sid :: GameOf(sid) == old(GameOf(sid))
    {
      forall sid | sid in sessions
        ensures sessions[sid].Repr() == old(sessions[sid].Repr()) && Owned(sessions[sid])
        ensures sessions[sid].State() == old(sessions[sid].State())
      {
        Untouched(sessions[sid]);
      }
    }

    method Tell(player1: Uuid, player2: Uuid, si: SessionId)
      requires watchers.Valid()
      modifies watchers, queue
      ensures watchers.Valid()
      ensures forall k :: watchers.View(k) ==
                N.After(N.After(old(watchers.View(k)), k, N.Action.Subscribe(player1, si)), k,
                        N.Action.Subscribe(player2, si))
      ensures forall u :: queue.View(u) ==
                Q.After(Q.After(old(queue.View(u)), u, Q.Action.Notify(player1, Q.PollData(si, Q.Ok))),
                        u, Q.Action.Notify(player2, Q.PollData(si, Q.Ok)))
    {
      var _ := queue.Notify(player1, Q.PollData(si, Q.Ok));
      var _ := queue.Notify(player2, Q.PollData(si, Q.Ok));
      var _ := watchers.SessionCreated(player1, player2, si);
    }

    method Announce(player1: Uuid, player2: Uuid, si: SessionId)
      requires Valid()
      modifies watchers, queue
      ensures Valid()
      ensures forall sid :: GameOf(sid) == old(GameOf(sid))
      ensures forall k :: watchers.View(k) ==
                N.After(N.After(old(watchers.View(k)), k, N.Action.Subscribe(player1, si)), k,
                        N.Action.Subscribe(player2, si))
      ensures forall u :: queue.View(u) ==
                Q.After(Q.After(old(queue.View(u)), u, Q.Action.Notify(player1, Q.PollData(si, Q.Ok))),
                        u, Q.Action.Notify(player2, Q.PollData(si, Q.Ok)))
    {
      Tell(player1, player2, si);
      SessionsUntouched();
    }

    /** `si` is a new session id, `login1` and `login2` are the logins of the two users. */
    method CreateSession(player1: Uuid, player2: Uuid, si: SessionId, login1: Login, login2: Login) returns (ok: bool)
      requires Valid() && si !in sessions && si !in ended
      modifies repr
      ensures Valid() && fresh(repr - old(repr)) && ok && played.lines == old(played.lines)
      ensures forall k :: Some(DeskOf(k)) == Serve(old(DeskOf(k)), k, Create(si, player1, player2, login1, login2))
      ensures forall u :: queue.View(u) ==
                Q.After(Q.After(old(queue.View(u)), u, Q.Action.Notify(player1, Q.PollData(si, Q.Ok))),
                        u, Q.Action.Notify(player2, Q.PollData(si, Q.Ok)))
    {
      Emplace(si, login1, login2);
      label emplaced:
      Announce(player1, player2, si);
      forall k ensures Some(DeskOf(k)) == Serve(old(DeskOf(k)), k, Create(si, player1, player2, login1, login2)) {
        ServesCreate(old(DeskOf(k)), old@emplaced(DeskOf(k)), DeskOf(k), k,
                     Create(si, player1, player2, login1, login2));
      }
      ok := si in sessions;
    }

    /** The log of a session, if there is one. */
    function GetEvents(sid: SessionId): Option<Log>
      requires Sound()
      reads this, repr
    {
      if sid in sessions then Some(sessions[sid].events.State()) else None
    }

    method Ask(uuid: Uuid, sid: SessionId, responser: N.Responder) returns (ok: bool)
      requires Valid()
      modifies watchers
      ensures Valid() && forall i :: GameOf(i) == old(GameOf(i))
      ensures ok == old(sid in watchers.sessions || N.Key(sid, uuid) in watchers.sendAndClose)
      ensures forall k :: watchers.View(k) ==
                N.After(old(watchers.View(k)), k, N.Action.ChangePoll(uuid, sid, responser, old(GetEvents(sid))))
    {
      ok := watchers.ChangePoll(uuid, sid, responser, GetEvents(sid));
      SessionsUntouched();
    }

    lemma ServesPoll(before: Desk, after: Desk, k: N.Key, uuid: Uuid, sid: SessionId, responser: N.Responder,
                     events: Option<Log>)
      requires after.game == before.game && after.ended == before.ended
      requires k.session == sid ==> events == if before.game.Some? then Some(before.game.value.log) else None
      requires after.watch == N.After(before.watch, k, N.Action.ChangePoll(uuid, sid, responser, events))
      ensures Serve(before, k, GameServer.Poll(sid, uuid, responser)) == Some(after)
    {
    }

    /** A user polls for the events of a session. */
    method Poll(uuid: Uuid, sid: SessionId, responser: N.Responder) returns (ok: bool)
      requires Valid()
      modifies repr
      ensures Valid() && repr == old(repr) && played.lines == old(played.lines)
      ensures ok == old(sid in watchers.sessions || N.Key(sid, uuid) in watchers.sendAndClose)
      ensures forall k :: Some(DeskOf(k)) == Serve(old(DeskOf(k)), k, GameServer.Poll(sid, uuid, responser))
    {
      ghost var events := GetEvents(sid);
      ok := Ask(uuid, sid, responser);
      forall k ensures Some(DeskOf(k)) == Serve(old(DeskOf(k)), k, GameServer.Poll(sid, uuid, responser)) {
        ServesPoll(old(DeskOf(k)), DeskOf(k), k, uuid, sid, responser, events);
      }
    }

    /** The sessions other than `sid`, none of whose objects changed, still belong to the manager. */
    twostate lemma OthersKept(sid: SessionId)
      requires old(Sound()) && sid in old(sessions) && sessions == old(sessions) && old(repr) <= repr
      requires unchanged(old(repr) - old(sessions[sid].Repr()) - {this})
      ensures forall i :: i in sessions && i != sid ==>
        && sessions[i] == old(sessions[i]) && sessions[i].Repr() == old(sessions[i].Repr())
        && Owned(sessions[i]) && sessions[i].State() == old(sessions[i].State())
    {
      forall i | i in sessions && i != sid
        ensures sessions[i].Repr() == old(sessions[i].Repr()) && Owned(sessions[i])
        ensures sessions[i].State() == old(sessions[i].State())
      {
        Untouched(sessions[i]);
      }
    }

    /** The session that changed still belongs to the manager, and shares nothing with the others. */
    twostate lemma SidKept(sid: SessionId, new made: set<object>)
      requires old(Sound()) && sid in old(sessions) && sessions == old(sessions)
      requires fresh(made) && repr == old(repr) + made
      requires old(sessions)[sid].Valid() && old(sessions)[sid].Repr() <= old(sessions[sid].Repr()) + made
      ensures Owned(sessions[sid])
      ensures forall i :: i in sessions && i != sid ==> old(sessions[i].Repr()) !! sessions[sid].Repr()
    {
    }

    /** Only the session `sid` changed, and owns the new objects `made`. */
    twostate lemma OthersUntouched(sid: SessionId, new made: set<object>)
      requires old(Sound()) && sid in old(sessions) && sessions == old(sessions) && ended == old(ended)
      requires fresh(made) && repr == old(repr) + made
      requires unchanged(old(repr) - old(sessions[sid].Repr()) - {this})
      requires old(sessions)[sid].Valid() && old(sessions)[sid].Repr() <= old(sessions[sid].Repr()) + made
      ensures Sound() && forall k :: watchers.View(k) == old(watchers.View(k))
      ensures forall i :: i != sid ==> GameOf(i) == old(GameOf(i))
    {
      OthersKept(sid);
      SidKept(sid, made);
    }

    /** The desk of `k` after the session `sid` has been played to `t`. */
    ghost predicate Played(before: Desk, after: Desk, k: N.Key, sid: SessionId, t: G.GameState) {
      after == if k.session == sid then before.(game := Some(t)) else before
    }

    twostate lemma DesksPlayed(new sid: SessionId, new t: G.GameState)
      requires old(Sound()) && Sound() && ended == old(ended) && GameOf(sid) == Some(t)
      requires forall i :: i != sid ==> GameOf(i) == old(GameOf(i))
      requires forall k :: watchers.View(k) == old(watchers.View(k))
      ensures forall k :: Played(old(DeskOf(k)), DeskOf(k), k, sid, t)
    {
    }

    twostate lemma StillUndecided(sid: SessionId)
      requires old(Sound() && UndecidedBut({sid})) && Sound() && sessions == old(sessions)
      requires forall i :: i != sid ==> GameOf(i) == old(GameOf(i))
      ensures UndecidedBut({sid})
    {
      forall i | i in sessions && i !in {sid} ensures sessions[i].State().score == [] {
        assert GameOf(i) == old(GameOf(i));
      }
    }

    /** Only the session `sid` changed, and is now at `t`. */
    twostate lemma SessionPlayed(new sid: SessionId, new made: set<object>, new t: G.GameState)
      requires old(Valid()) && sid in old(sessions) && sessions == old(sessions) && ended == old(ended)
      requires fresh(made) && repr == old(repr) + made
      requires unchanged(old(repr) - old(sessions[sid].Repr()) - {this})
      requires old(sessions)[sid].Valid() && old(sessions)[sid].Repr() <= old(sessions[sid].Repr()) + made
      requires old(sessions)[sid].State() == t
      ensures Sound() && UndecidedBut({sid}) && GameOf(sid) == Some(t)
      ensures forall k :: Played(old(DeskOf(k)), DeskOf(k), k, sid, t)
    {
      OthersUntouched(sid, made);
      assert old(UndecidedBut({sid}));
      StillUndecided(sid);
      DesksPlayed(sid, t);
    }

    method PlayOne(session: Session, id: Login, data: MoveData, ghost o: (GameApiStatus, G.Outcome))
      returns (status: GameApiStatus, prevErased: bool, ghost made: set<object>)
      requires session.Valid() && this !in session.Repr() && o == G.ApiMove(session.State(), id, data)
      modifies this`repr, session.Repr()
      ensures fresh(made) && repr == old(repr) + made
      ensures status == o.0 && (prevErased <==> o.1.PrevErased?)
      ensures !prevErased ==>
        o.1.Playing? && session.Valid() && session.State() == o.1.state && session.Repr() <= old(session.Repr()) + made
    {
      status, prevErased, made := session.ApiMove(id, data);
      repr := repr + made;
    }

    /** The move of one session, whose outcome is `o`: the others stay as they are. */
    method Play(sid: SessionId, id: Login, data: MoveData, ghost o: (GameApiStatus, G.Outcome))
      returns (status: GameApiStatus, prevErased: bool)
      requires Valid() && sid in sessions && o == G.ApiMove(sessions[sid].State(), id, data)
      modifies repr
      ensures fresh(repr - old(repr))
      ensures status == o.0 && (prevErased <==> o.1.PrevErased?)
      ensures !prevErased ==>
        && o.1.Playing? && Sound() && UndecidedBut({sid}) && sessions == old(sessions) && ended == old(ended)
        && played.lines == old(played.lines)
        && GameOf(sid) == Some(o.1.state)
        && forall k :: Played(old(DeskOf(k)), DeskOf(k), k, sid, o.1.state)
    {
      ghost var made;
      status, prevErased, made := PlayOne(sessions[sid], id, data, o);
      if !prevErased {
        SessionPlayed(sid, made, o.1.state);
      }
    }

    /** The desk of `k` after the log of the session `sid`, now at `t`, has been announced. */
    ghost predicate Announced(before: Desk, after: Desk, k: N.Key, sid: SessionId, t: G.GameState) {
      if k.session == sid then
        after == before.(game := Some(t), watch := N.After(before.watch, k, N.Action.Notify(sid, Some(t.log))))
      else
        after == before
    }

    method NotifyWatchers(sid: SessionId, ghost t: G.GameState)
      requires Sound() && UndecidedBut({sid}) && GameOf(sid) == Some(t)
      modifies watchers
      ensures Sound() && UndecidedBut({sid}) && GameOf(sid) == Some(t)
      ensures forall k :: Announced(old(DeskOf(k)), DeskOf(k), k, sid, t)
    {
      var _ := watchers.Notify(sid, GetEvents(sid));
      SessionsUntouched();
      StillUndecided(sid);
    }

    /** The line is added to the list of played sessions, nothing else changes. */
    method Book(sid: SessionId, results: G.Results, ghost t: G.GameState)
      requires Sound() && UndecidedBut({sid}) && GameOf(sid) == Some(t)
      modifies played
      ensures Sound() && UndecidedBut({sid}) && GameOf(sid) == Some(t)
      ensures played.lines == old(played.lines) + [Line(sid, results)]
      ensures forall k :: DeskOf(k) == old(DeskOf(k))
    {
      played.AddLine(Line(sid, results));
      SessionsUntouched();
      StillUndecided(sid);
    }

    method CloseWatchers(sid: SessionId, ghost t: G.GameState)
      requires Sound() && UndecidedBut({sid}) && GameOf(sid) == Some(t)
      modifies watchers
      ensures Sound() && UndecidedBut({sid})
      ensures forall i :: GameOf(i) == old(GameOf(i))
      ensures forall k :: watchers.View(k) == N.After(old(watchers.View(k)), k, N.Action.Unsubscribe(sid, Some(t.log)))
    {
      var _ := watchers.Unsubscribe(sid, GetEvents(sid));
      SessionsUntouched();
      StillUndecided(sid);
    }

    /** Only the maps changed: `sid` has moved from the sessions to the ended ones. */
    twostate lemma Removed(sid: SessionId)
      requires old(Sound() && UndecidedBut({sid})) && unchanged(old(repr) - {this}) && repr == old(repr)
      requires sessions == old(sessions) - {sid} && forall i :: i in ended ==> i == sid || i in old(ended)
      ensures Sound() && UndecidedBut({}) && forall i :: GameOf(i) == if i == sid then None else old(GameOf(i))
      ensures forall k :: watchers.View(k) == old(watchers.View(k))
    {
      forall i | i in sessions
        ensures sessions[i] == old(sessions[i]) && sessions[i].Repr() == old(sessions[i].Repr()) && Owned(sessions[i])
        ensures sessions[i].State() == old(sessions[i].State())
      {
        Untouched(old(sessions)[i]);
      }
    }

    method Erase(sid: SessionId, ghost t: G.GameState)
      requires Sound() && UndecidedBut({sid}) && sid in sessions
      modifies this
      ensures Sound() && UndecidedBut({}) && repr == old(repr)
      ensures forall k :: watchers.View(k) == old(watchers.View(k))
      ensures ended == old(ended)[sid := t]
      ensures forall i :: GameOf(i) == if i == sid then None else old(GameOf(i))
    {
      sessions := sessions - {sid};
      ended := ended[sid := t];
      Removed(sid);
    }

    /** The desk of `k` after the session `sid`, at `t`, has been finished if `t` is decided. */
    ghost predicate Finished(before: Desk, after: Desk, k: N.Key, sid: SessionId, t: G.GameState) {
      after ==
        if k.session != sid || t.score == [] then before
        else Desk(None, Some(t.log), N.After(before.watch, k, N.Action.Unsubscribe(sid, Some(t.log))))
    }

    /** The session is dismissed and erased. */
    method Close(sid: SessionId, ghost t: G.GameState)
      requires t.score != [] && Sound() && UndecidedBut({sid}) && GameOf(sid) == Some(t)
      modifies this, watchers
      ensures Sound() && UndecidedBut({}) && repr == old(repr) && ended == old(ended)[sid := t]
      ensures forall k :: Finished(old(DeskOf(k)), DeskOf(k), k, sid, t)
    {
      CloseWatchers(sid, t);
      Erase(sid, t);
    }

    /** Both users are known. */
    method FinishSession(sid: SessionId, results: G.Results, ghost t: G.GameState)
      requires Decided(t) && NamesBoth(results, t)
      requires Sound() && Booked() && UndecidedBut({sid}) && GameOf(sid) == Some(t)
      modifies this, watchers, played
      ensures Valid() && repr == old(repr) && played.lines == old(played.lines) + [Line(sid, results)]
      ensures forall k :: Finished(old(DeskOf(k)), DeskOf(k), k, sid, t)
    {
      OneLineMore(played.lines, ended, Line(sid, results), t);
      Book(sid, results, t);
      Close(sid, t);
    }

    /** The desk of `k` after the status of a move of the session `sid` to `t` has been checked. */
    ghost predicate Concluded(before: Desk, after: Desk, k: N.Key, sid: SessionId, status: GameApiStatus,
                              t: G.GameState) {
      after == if k.session != sid then before
               else if status == Ok then Checked(before, k, t)
               else before.(game := Some(t))
    }

    /** The session `sid`, at `t`, gets a line that names its winner and loser if `t` is decided, and none otherwise. */
    ghost predicate Lined(before: seq<Line>, after: seq<Line>, sid: SessionId, line: Option<G.Results>,
                          t: G.GameState) {
      if t.score == [] then line == None && after == before
      else line.Some? && NamesBoth(line.value, t) && after == before + [Line(sid, line.value)]
    }

    lemma StillOpen(sid: SessionId, t: G.GameState)
      requires Sound() && Booked() && UndecidedBut({sid}) && GameOf(sid) == Some(t) && t.score == []
      ensures Valid()
    {
    }

    method FinishIf(sid: SessionId, results: Option<G.Results>, ghost t: G.GameState)
      requires Sound() && Booked() && UndecidedBut({sid}) && GameOf(sid) == Some(t)
      requires if t.score == [] then results == None else Decided(t) && results.Some? && NamesBoth(results.value, t)
      modifies this, watchers, played
      ensures Valid() && repr == old(repr) && Lined(old(played.lines), played.lines, sid, results, t)
      ensures forall k :: Finished(old(DeskOf(k)), DeskOf(k), k, sid, t)
    {
      if results.Some? {
        FinishSession(sid, results.value, t);
      } else {
        StillOpen(sid, t);
      }
    }

    lemma ConcludedThen(before: Desk, told: Desk, after: Desk, k: N.Key, sid: SessionId, t: G.GameState)
      requires Announced(before, told, k, sid, t) && Finished(told, after, k, sid, t)
      ensures Concluded(before, after, k, sid, Ok, t)
    {
    }

    /** `desks` are the desks before the notification. */
    method FinishDecided(sid: SessionId, results: Option<G.Results>, ghost t: G.GameState,
                         ghost desks: imap<N.Key, Desk>)
      requires Sound() && Booked() && UndecidedBut({sid}) && GameOf(sid) == Some(t)
      requires if t.score == [] then results == None else Decided(t) && results.Some? && NamesBoth(results.value, t)
      requires forall k :: k in desks && Announced(desks[k], DeskOf(k), k, sid, t)
      modifies this, watchers, played
      ensures Valid() && repr == old(repr) && Lined(old(played.lines), played.lines, sid, results, t)
      ensures forall k :: Concluded(desks[k], DeskOf(k), k, sid, Ok, t)
    {
      FinishIf(sid, results, t);
      forall k ensures Concluded(desks[k], DeskOf(k), k, sid, Ok, t) {
        ConcludedThen(desks[k], old(DeskOf(k)), DeskOf(k), k, sid, t);
      }
    }

    method Conclude(sid: SessionId, ghost t: G.GameState) returns (line: Option<G.Results>)
      requires Sound() && Booked() && UndecidedBut({sid}) && GameOf(sid) == Some(t)
      requires t.score == [] || Decided(t)
      modifies this, watchers, played
      ensures Valid() && repr == old(repr)
      ensures Lined(old(played.lines), played.lines, sid, line, t)
      ensures forall k :: Concluded(old(DeskOf(k)), DeskOf(k), k, sid, Ok, t)
    {
      ghost var desks := imap k: N.Key | true :: DeskOf(k);
      NotifyWatchers(sid, t);
      line := sessions[sid].GetResults();
      FinishDecided(sid, line, t, desks);
    }

    /** After a move of the session `sid` that led to `t`. `line` holds the results of a finished session. */
    method CheckStatus(sid: SessionId, status: GameApiStatus, ghost t: G.GameState) returns (line: Option<G.Results>)
      requires Sound() && Booked() && UndecidedBut({sid}) && GameOf(sid) == Some(t)
      requires (status != Ok ==> t.score == []) && (t.score == [] || Decided(t))
      modifies this, watchers, played
      ensures Valid() && repr == old(repr)
      ensures Lined(old(played.lines), played.lines, sid, line, t)
      ensures forall k :: Concluded(old(DeskOf(k)), DeskOf(k), k, sid, status, t)
    {
      line := None;
      if status == Ok {
        line := Conclude(sid, t);
      }
    }

    lemma PlayedThen(before: Desk, played: Desk, after: Desk, k: N.Key, sid: SessionId, status: GameApiStatus,
                     t: G.GameState)
      requires Played(before, played, k, sid, t)
      requires Concluded(played, after, k, sid, status, t)
      ensures Concluded(before, after, k, sid, status, t)
    {
    }

    lemma ScoreFits(s: G.GameState, id: Login, data: MoveData, o: (GameApiStatus, G.Outcome))
      requires LogReady(s.log, s.moveNumber) && s.score == [] && o == G.ApiMove(s, id, data) && o.1.Playing?
      ensures o.1.state.score == [] || Decided(o.1.state)
      ensures o.0 != Ok ==> o.1.state == s
    {
      if o.0 == Ok {
        DecidingMoveTold(s, G.SideOf(s, id), data, o.1.state);
      }
    }

    /** A move of an existing session, whose outcome is `o`. */
    method MoveIn(sid: SessionId, id: Login, data: MoveData, ghost s: G.GameState, ghost o: (GameApiStatus, G.Outcome))
      returns (status: GameApiStatus, prevErased: bool, line: Option<G.Results>)
      requires Valid() && GameOf(sid) == Some(s) && o == G.ApiMove(s, id, data) && LogReady(s.log, s.moveNumber)
      modifies repr
      ensures fresh(repr - old(repr))
      ensures status == o.0 && (prevErased <==> o.1.PrevErased?)
      ensures !prevErased ==> Valid() && o.1.Playing?
      ensures !prevErased ==> o.1.state.score == [] || Decided(o.1.state)
      ensures !prevErased ==> Lined(old(played.lines), played.lines, sid, line, o.1.state)
      ensures !prevErased ==> forall k :: Concluded(old(DeskOf(k)), DeskOf(k), k, sid, status, o.1.state)
    {
      line := None;
      status, prevErased := Play(sid, id, data, o);
      if !prevErased {
        label played:
        ScoreFits(s, id, data, o);
        line := CheckStatus(sid, status, o.1.state);
        forall k ensures Concluded(old(DeskOf(k)), DeskOf(k), k, sid, status, o.1.state) {
          PlayedThen(old(DeskOf(k)), old@played(DeskOf(k)), DeskOf(k), k, sid, status, o.1.state);
        }
      }
    }

    lemma ServesMove(before: Desk, after: Desk, k: N.Key, sid: SessionId, id: Login, data: MoveData,
                     s: G.GameState, o: (GameApiStatus, G.Outcome))
      requires k.session == sid ==> before.game == Some(s)
      requires o == G.ApiMove(s, id, data) && o.1.Playing?
      requires Concluded(before, after, k, sid, o.0, o.1.state)
      ensures Serve(before, k, Move(sid, id, data)) == Some(after)
    {
    }

    lemma ServesErased(before: Desk, k: N.Key, sid: SessionId, id: Login, data: MoveData,
                       s: G.GameState, o: (GameApiStatus, G.Outcome))
      requires k.session == sid && before.game == Some(s) && o == G.ApiMove(s, id, data) && o.1.PrevErased?
      ensures Serve(before, k, Move(sid, id, data)) == None
    {
    }

    /** A request to move; `None` if there is no such session. A move that decides the session adds its line, naming
        winner and loser of its first verdict, to the list of played sessions. */
    method ApiMove(id: Login, sid: SessionId, data: MoveData)
      returns (status: Option<GameApiStatus>, prevErased: bool, line: Option<G.Results>)
      requires Valid()
      modifies repr
      ensures fresh(repr - old(repr))
      ensures status == if sid in old(sessions) then Some(old(G.ApiMove(sessions[sid].State(), id, data)).0) else None
      ensures sid !in old(sessions) ==> line == None && played.lines == old(played.lines)
      ensures !prevErased && sid in old(sessions) ==>
        var o := old(G.ApiMove(sessions[sid].State(), id, data)).1;
        && o.Playing? && (o.state.score == [] || Decided(o.state))
        && Lined(old(played.lines), played.lines, sid, line, o.state)
      ensures prevErased ==>
        forall k: N.Key :: k.session == sid ==> Serve(old(DeskOf(k)), k, Move(sid, id, data)) == None
      ensures !prevErased ==> Valid() && forall k :: Serve(old(DeskOf(k)), k, Move(sid, id, data)) == Some(DeskOf(k))
    {
      if sid !in sessions {
        return None, false, None;
      }
      ghost var s := sessions[sid].State();
      ghost var o := G.ApiMove(s, id, data);
      var st;
      st, prevErased, line := MoveIn(sid, id, data, s, o);
      status := Some(st);
      if prevErased {
        forall k: N.Key | k.session == sid ensures Serve(old(DeskOf(k)), k, Move(sid, id, data)) == None {
          ServesErased(old(DeskOf(k)), k, sid, id, data, s, o);
        }
      } else {
        forall k ensures Serve(old(DeskOf(k)), k, Move(sid, id, data)) == Some(DeskOf(k)) {
          ServesMove(old(DeskOf(k)), DeskOf(k), k, sid, id, data, s, o);
        }
      }
    }
  }
}
