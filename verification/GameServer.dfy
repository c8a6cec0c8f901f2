/** A session served to its players and watched by a polling client: what the client has received of the log.
    The machine follows one session and one watcher, whatever else the server does. */
module GameServer {
  import opened Board
  import opened EventLog
  import opened Validation
  import opened GameInvariant
  import opened GameRun
  import opened GameRequests
  import N = StateNotifier
  import G = Game

  type SessionId = N.SessionId
  type Uuid = N.Uuid

  /** Calls of the server that touch sessions and their watchers. */
  datatype Call =
    | Create(session: SessionId, user1: Uuid, user2: Uuid, login1: Login, login2: Login)
    | Move(session: SessionId, login: Login, move: MoveData)
    | Poll(session: SessionId, user: Uuid, responder: N.Responder)

  /** The session while it is played, its log once it has been finished, and the watcher. */
  datatype Desk = Desk(game: Option<G.GameState>, ended: Option<Log>, watch: N.Watch)

  const EMPTY := Desk(None, None, N.UNWATCHED)

  /** `GameManager::CheckStatus` after an accepted move that led to `t`. */
  function Checked(d: Desk, me: N.Key, t: G.GameState): Desk {
    var notified := N.After(d.watch, me, N.Action.Notify(me.session, Some(t.log)));
    if t.score == [] then Desk(Some(t), d.ended, notified)
    else Desk(None, Some(t.log), N.After(notified, me, N.Action.Unsubscribe(me.session, Some(t.log))))
  }

  /** One call as the desk of `me` sees it; `None` when the walk over the objects read an erased node. */
  function Serve(d: Desk, me: N.Key, c: Call): Option<Desk> {
    if c.session != me.session then Some(d)
    else
      match c
      case Create(sid, u1, u2, l1, l2) =>
        var w := N.After(N.After(d.watch, me, N.Action.Subscribe(u1, sid)), me, N.Action.Subscribe(u2, sid));
        Some(d.(game := Some(G.Init(l1, l2)), watch := w))
      case Move(_, login, md) =>
        if d.game.None? then Some(d)
        else
          var (status, o) := G.ApiMove(d.game.value, login, md);
          if status != Ok then Some(d)
          else if o.Playing? then Some(Checked(d, me, o.state))
          else None
      case Poll(sid, u, r) =>
        var events := if d.game.Some? then Some(d.game.value.log) else None;
        Some(d.(watch := N.After(d.watch, me, N.Action.ChangePoll(u, sid, r, events))))
  }

  function Run(me: N.Key, calls: seq<Call>): Option<Desk> {
    if calls == [] then Some(EMPTY)
    else
      match Run(me, calls[..|calls| - 1])
      case None => None
      case Some(d) => Serve(d, me, calls[|calls| - 1])
  }

  // ---------- what the client has received ----------

  /** The events sent with an `Ok` answer: those `FromMove` gives. An index beyond the log, which the program would
      read without a check, is given no events; `ToldLogsAgree` shows that no log told has one. */
  function Answer(l: Log, k: int): seq<Event> {
    if 1 <= k <= |l.fromMove| && l.fromMove[k - 1] > |l.value| then [] else IndexedFrom(l, k)
  }

  lemma AnswerIsSince(l: Log, k: int)
    requires IndexAgrees(l)
    ensures Answer(l, k) == IndexedFrom(l, k) == Since(l.value, k)
  {
    FromMoveIsSince(l, k);
  }

  /** The answers with events, one after the other. */
  function Received(h: N.History): seq<Event> {
    if h.Blank? then []
    else
      match h.last
      case Told(r, Ok, Some(l)) => Received(h.past) + Answer(l, r.fromMove)
      case ToldLate(r, Some(l)) => Received(h.past) + Answer(l, r.fromMove)
      case _ => Received(h.past)
  }

  /** Every log told so far has an agreeing index. */
  ghost predicate LogsAgree(h: N.History) {
    h.Blank? ||
    (LogsAgree(h.past) &&
     match h.last
     case Told(_, _, Some(l)) => IndexAgrees(l)
     case ToldLate(_, Some(l)) => IndexAgrees(l)
     case _ => true)
  }

  ghost predicate ProperCall(me: N.Key, d: Desk, c: Call) {
    c.session == me.session ==>
      match c
      case Create(_, _, _, l1, l2) => l1 != l2 && d.game.None? && d.ended.None?
      case Move(_, _, _) => true
      case Poll(_, u, r) => u == me.user ==> r.fromMove == LastMove(Received(d.watch.history)) + 1
  }

  /** Session ids are new, players have different logins, and the client `me` polls
      from the move after the last one it has seen. */
  ghost predicate Proper(me: N.Key, calls: seq<Call>) {
    calls != [] ==>
      var before, c := calls[..|calls| - 1], calls[|calls| - 1];
      Proper(me, before) && (Run(me, before).Some? ==> ProperCall(me, Run(me, before).value, c))
  }

  /** The last thing that mattered to the watcher was an `Ok` answer: no notification has come since. */
  predicate UpToDate(h: N.History) {
    h.Then? && (
      (h.last.Told? && h.last.status == N.Ok) ||
      (UpToDate(h.past) && !h.last.Notified? && !h.last.Subscribed?))
  }

  /** `v` is the part of the log `l` up to a move: the rest are the events of later moves. */
  ghost predicate Cut(v: seq<Event>, l: seq<Event>) {
    v + Since(l, LastMove(v) + 1) == l
  }

  ghost predicate Watching(w: N.Watch, log: seq<Event>) {
    && N.InOrder(w) && w.live && w.late.None?
    && Cut(Received(w.history), log)
    && (w.sub.None? ==> w.history.Blank?)
    && (w.sub.Some? && w.sub.value.responder.Some? ==>
          w.sub.value.responder.value.fromMove == LastMove(Received(w.history)) + 1)
    && (UpToDate(w.history) ==> Received(w.history) == log)
  }

  /** The session has been closed with the final log `l`: the watcher has it all, or finds the rest at its next poll,
      unless it has never watched. */
  ghost predicate Closed(w: N.Watch, l: Log) {
    && !w.live && w.sub.None?
    && match w.late
       case None => w.history.Blank? || Received(w.history) == l.value
       case Some(kept) => kept == Some(l) && Cut(Received(w.history), l.value)
  }

  ghost predicate DeskInv(d: Desk) {
    match d.game
    case Some(s) => d.ended.None? && Inv(s) && s.score == [] && Watching(d.watch, s.log.value)
    case None =>
      match d.ended
      case Some(l) => IndexAgrees(l) && Closed(d.watch, l)
      case None => d.watch == N.UNWATCHED
  }

  // ---------- proofs ----------

  lemma CutAll(l: seq<Event>)
    requires NonDecreasing(l)
    ensures Cut(l, l)
  {
    SinceNone(l, LastMove(l) + 1);
  }

  /** A cut stays a cut when the next move is logged. */
  lemma CutGrows(v: seq<Event>, l: seq<Event>, es: seq<Event>, n: int)
    requires Cut(v, l) && NonDecreasing(l) && n == LastMove(l) + 1 && 0 <= LastMove(l)
    requires forall e :: e in es ==> e.moveNumber == n
    ensures Cut(v, l + es)
  {
    var k := LastMove(v) + 1;
    assert k <= n by {
      if v != [] {
        assert v[|v| - 1] == l[|v| - 1];
      }
    }
    SinceConcat(l, es, k);
    SinceAll(es, k);
    Associate(v, Since(l, k), es);
  }

  /** A watch whose history ends with an `Ok` answer that completes the log. */
  lemma AnswerKeeps(w: N.Watch, h: N.History, l: Log, r: N.Responder)
    requires w.live && w.late.None? && Cut(l.value, l.value)
    requires Received(h) + Answer(l, r.fromMove) == l.value
    ensures Watching(w.(sub := Some(N.Sub(None, false)), history := N.Then(h, N.Told(r, N.Ok, Some(l)))), l.value)
  {
  }

  /** After a notification, if an answer would complete the log, the subscriber has the whole log or is waiting. */
  lemma NotifiedKeeps(w: N.Watch, me: N.Key, l: Log)
    requires N.InOrder(w) && w.live && w.late.None? && Cut(Received(w.history), l.value)
    requires w.sub.None? ==> w.history.Blank?
    requires w.sub.Some? && w.sub.value.responder.Some? ==>
      Cut(l.value, l.value) && Received(w.history) + Answer(l, w.sub.value.responder.value.fromMove) == l.value
    ensures var n := N.After(w, me, N.Action.Notify(me.session, Some(l)));
      && Watching(n, l.value)
      && (n.sub.Some? ==> n.sub.value.responder.None? && (n.sub.value.waiting || UpToDate(n.history)))
  {
    var h := N.Then(w.history, N.Notified);
    assert Received(h) == Received(w.history) && N.Missed(h) && !UpToDate(h);
    if w.sub.Some? && w.sub.value.responder.Some? {
      AnswerKeeps(w, h, l, w.sub.value.responder.value);
      assert !w.sub.value.waiting;
    }
  }

  /** An answer from the next move on completes the log. */
  lemma AnswerCompletes(v: seq<Event>, l: Log, k: int)
    requires IndexAgrees(l) && Cut(v, l.value) && k == LastMove(v) + 1
    ensures v + Answer(l, k) == l.value && Cut(l.value, l.value)
  {
    AnswerIsSince(l, k);
    CutAll(l.value);
  }

  /** After a notification the subscriber either has the whole log or is waiting. */
  lemma NotifyKeeps(w: N.Watch, me: N.Key, logged: seq<Event>, l: Log, es: seq<Event>)
    requires Watching(w, logged) && NonDecreasing(logged) && 0 <= LastMove(logged)
    requires IndexAgrees(l) && l.value == logged + es
    requires forall e :: e in es ==> e.moveNumber == LastMove(logged) + 1
    ensures var n := N.After(w, me, N.Action.Notify(me.session, Some(l)));
      && Watching(n, l.value)
      && (n.sub.Some? ==> n.sub.value.responder.None? && (n.sub.value.waiting || UpToDate(n.history)))
  {
    CutGrows(Received(w.history), logged, es, LastMove(logged) + 1);
    if w.sub.Some? && w.sub.value.responder.Some? {
      AnswerCompletes(Received(w.history), l, w.sub.value.responder.value.fromMove);
    }
    NotifiedKeeps(w, me, l);
  }

  lemma CloseKeeps(w: N.Watch, me: N.Key, l: Log)
    requires Watching(w, l.value)
    requires w.sub.Some? ==> w.sub.value.responder.None? && (w.sub.value.waiting || UpToDate(w.history))
    ensures Closed(N.After(w, me, N.Action.Unsubscribe(me.session, Some(l))), l)
  {
  }

  lemma SubscribeKeeps(w: N.Watch, log: seq<Event>)
    requires Watching(w, log)
    ensures Watching(N.Subscribing(w), log)
    ensures Received(N.Subscribing(w).history) == Received(w.history)
  {
  }

  lemma StoreKeeps(w: N.Watch, log: seq<Event>, r: N.Responder, told: N.History)
    requires w.sub.Some? && !w.sub.value.waiting && Watching(w, log)
    requires told == N.Telling(w.history, w.sub.value.responder, N.PollClosed)
    requires r.fromMove == LastMove(Received(w.history)) + 1
    ensures Watching(w.(sub := Some(N.Sub(Some(r), false)), history := N.Then(told, N.Accepted(r))), log)
  {
    assert Received(told) == Received(w.history) && N.Missed(told) == N.Missed(w.history);
    assert UpToDate(told) == UpToDate(w.history);
  }

  lemma ReplaceKeeps(w: N.Watch, l: Log, r: N.Responder)
    requires w.sub.Some? && Watching(w, l.value) && IndexAgrees(l)
    requires r.fromMove == LastMove(Received(w.history)) + 1
    ensures Watching(N.Replacing(w, r, Some(l)), l.value)
  {
    if w.sub.value.waiting {
      AnswerCompletes(Received(w.history), l, r.fromMove);
      AnswerKeeps(w, N.Then(w.history, N.Accepted(r)), l, r);
    } else {
      StoreKeeps(w, l.value, r, N.Telling(w.history, w.sub.value.responder, N.PollClosed));
    }
  }

  lemma PollKeeps(w: N.Watch, me: N.Key, l: Log, u: Uuid, r: N.Responder)
    requires Watching(w, l.value) && IndexAgrees(l)
    requires u == me.user ==> r.fromMove == LastMove(Received(w.history)) + 1
    ensures Watching(N.After(w, me, N.Action.ChangePoll(u, me.session, r, Some(l))), l.value)
  {
    if u == me.user {
      SubscribeKeeps(w, l.value);
      ReplaceKeeps(N.Subscribing(w), l, r);
    }
  }

  lemma LatePollKeeps(w: N.Watch, me: N.Key, l: Log, u: Uuid, r: N.Responder)
    requires Closed(w, l) && IndexAgrees(l)
    requires u == me.user ==> r.fromMove == LastMove(Received(w.history)) + 1
    ensures Closed(N.After(w, me, N.Action.ChangePoll(u, me.session, r, None)), l)
  {
    if u == me.user && w.late.Some? {
      AnswerCompletes(Received(w.history), l, r.fromMove);
      assert Received(N.Then(w.history, N.Accepted(r))) == Received(w.history);
    }
  }

  lemma OpenKeeps(me: N.Key, u1: Uuid, u2: Uuid)
    ensures var first := N.After(N.UNWATCHED, me, N.Action.Subscribe(u1, me.session));
      Watching(N.After(first, me, N.Action.Subscribe(u2, me.session)), [])
  {
  }

  lemma CreateKeeps(d: Desk, me: N.Key, c: Call)
    requires DeskInv(d) && ProperCall(me, d, c) && c.Create? && c.session == me.session
    ensures Serve(d, me, c).Some? && DeskInv(Serve(d, me, c).value)
  {
    InitInv(c.login1, c.login2);
    OpenKeeps(me, c.user1, c.user2);
  }

  lemma CheckedKeeps(d: Desk, me: N.Key, t: G.GameState, es: seq<Event>)
    requires DeskInv(d) && d.game.Some? && Inv(t)
    requires t.log.value == d.game.value.log.value + es
    requires forall e :: e in es ==> e.moveNumber == d.game.value.moveNumber + 1
    ensures DeskInv(Checked(d, me, t))
  {
    NotifyKeeps(d.watch, me, d.game.value.log.value, t.log, es);
    CloseKeeps(N.After(d.watch, me, N.Action.Notify(me.session, Some(t.log))), me, t.log);
  }

  lemma MoveKeeps(d: Desk, me: N.Key, c: Call)
    requires DeskInv(d) && c.Move? && c.session == me.session
    ensures Serve(d, me, c).Some? ==> DeskInv(Serve(d, me, c).value)
  {
    if d.game.Some? && Serve(d, me, c).Some? && G.StatusOf(d.game.value, c.login, c.move) == Ok {
      var s := d.game.value;
      var side := G.SideOf(s, c.login);
      MoveLogs(s, side, c.move);
      var t := G.Accept(s, side, c.move).state;
      MoveKeepsInv(s, side, c.move, t);
      var es := G.MoveEvents(G.Act(s, side, c.move), G.AfterAct(G.Act(s, side, c.move)));
      CheckedKeeps(d, me, t, Stamped(es, s.moveNumber + 1));
    }
  }

  lemma PolledKeeps(d: Desk, me: N.Key, c: Call)
    requires DeskInv(d) && ProperCall(me, d, c) && c.Poll? && c.session == me.session
    ensures DeskInv(Serve(d, me, c).value)
  {
    if d.game.Some? {
      PollKeeps(d.watch, me, d.game.value.log, c.user, c.responder);
    } else if d.ended.Some? {
      LatePollKeeps(d.watch, me, d.ended.value, c.user, c.responder);
    }
  }

  lemma {:induction false} RunKeeps(me: N.Key, calls: seq<Call>)
    requires Proper(me, calls) && Run(me, calls).Some?
    ensures DeskInv(Run(me, calls).value)
  {
    if calls == [] {
    } else {
      var before, c := calls[..|calls| - 1], calls[|calls| - 1];
      RunKeeps(me, before);
      var d := Run(me, before).value;
      if c.session == me.session {
        match c
        case Create(_, _, _, _, _) => CreateKeeps(d, me, c);
        case Move(_, _, _) => MoveKeeps(d, me, c);
        case Poll(_, _, _) => PolledKeeps(d, me, c);
      }
    }
  }

  /** Reconstruction of the log by a client that polls from the move after the last one it has seen, in every run:
      while the session is played, what it has received is always exactly a prefix of the log, nothing lost and
      nothing twice; right after an `Ok` answer, and until the next move, it is the whole log. */
  lemma ClientFollowsLog(me: N.Key, calls: seq<Call>, d: Desk)
    requires Proper(me, calls) && Run(me, calls) == Some(d) && d.game.Some?
    ensures Received(d.watch.history) <= d.game.value.log.value
    ensures UpToDate(d.watch.history) ==> Received(d.watch.history) == d.game.value.log.value
  {
    RunKeeps(me, calls);
    assert Cut(Received(d.watch.history), d.game.value.log.value);
  }

  /** What the client has received after one more poll. */
  function ReceivedNext(d: Desk, me: N.Key, r: N.Responder): seq<Event> {
    Received(Serve(d, me, Poll(me.session, me.user, r)).value.watch.history)
  }

  lemma LateAnswer(d: Desk, me: N.Key, r: N.Responder)
    requires d.watch.late.Some? && d.watch.late.value.Some?
    ensures ReceivedNext(d, me, r) ==
            Received(d.watch.history) + Answer(d.watch.late.value.value, r.fromMove)
  {
    assert Received(N.Then(d.watch.history, N.Accepted(r))) == Received(d.watch.history);
  }

  /** Once the session is finished, a client that ever watched it has received exactly the final log,
      unless the rest is kept for its next poll, which then brings exactly the missing events. */
  lemma ClientGetsFinalLog(me: N.Key, calls: seq<Call>, d: Desk, r: N.Responder)
    requires Proper(me, calls) && Run(me, calls) == Some(d) && d.ended.Some?
    requires r.fromMove == LastMove(Received(d.watch.history)) + 1
    ensures d.watch.late.None? ==> d.watch.history.Blank? || Received(d.watch.history) == d.ended.value.value
    ensures d.watch.late.Some? ==>
      Received(d.watch.history) <= d.ended.value.value && ReceivedNext(d, me, r) == d.ended.value.value
  {
    RunKeeps(me, calls);
    assert Closed(d.watch, d.ended.value);
    if d.watch.late.Some? {
      LateAnswer(d, me, r);
      AnswerIsSince(d.ended.value, r.fromMove);
    }
  }

  // ---------- the watcher of a server run is a watcher of a notifier run ----------

  /** The calls of the notifier behind one call of the server. */
  function Behind(d: Desk, me: N.Key, c: Call): seq<N.Action> {
    if c.session != me.session then []
    else
      match c
      case Create(sid, u1, u2, _, _) => [N.Action.Subscribe(u1, sid), N.Action.Subscribe(u2, sid)]
      case Move(sid, login, md) =>
        if d.game.None? || G.StatusOf(d.game.value, login, md) != Ok then []
        else
          var o := G.ApiMove(d.game.value, login, md).1;
          if !o.Playing? then []
          else
            var events := Some(o.state.log);
            [N.Action.Notify(sid, events)] + if o.state.score == [] then [] else [N.Action.Unsubscribe(sid, events)]
      case Poll(sid, u, r) =>
        [N.Action.ChangePoll(u, sid, r, if d.game.Some? then Some(d.game.value.log) else None)]
  }

  lemma ServesBehind(d: Desk, me: N.Key, c: Call)
    requires Serve(d, me, c).Some?
    ensures Serve(d, me, c).value.watch == N.RunFrom(d.watch, me, Behind(d, me, c))
  {
    var acts := Behind(d, me, c);
    if |acts| >= 1 {
      assert acts[..1][..0] == [] && acts[..1][0] == acts[0];
      assert N.RunFrom(d.watch, me, acts[..1]) == N.After(d.watch, me, acts[0]);
      assert |acts| == 1 ==> acts[..1] == acts;
      assert |acts| == 2 ==> acts[..|acts| - 1] == acts[..1];
    }
  }

  /** Hence everything proved about runs of the notifier holds of every run of the server. */
  lemma {:induction false} WatchIsNotifierRun(me: N.Key, calls: seq<Call>) returns (acts: seq<N.Action>)
    requires Run(me, calls).Some?
    ensures Run(me, calls).value.watch == N.Run(me, acts)
  {
    if calls == [] {
      acts := [];
    } else {
      var before, c := calls[..|calls| - 1], calls[|calls| - 1];
      acts := WatchIsNotifierRun(me, before);
      ServesBehind(Run(me, before).value, me, c);
      N.RunConcat(N.UNWATCHED, me, acts, Behind(Run(me, before).value, me, c));
      acts := acts + Behind(Run(me, before).value, me, c);
    }
  }

  /** What the handler sends for an entry that calls a responder: an `Ok` without events becomes `NotRelevant`. */
  function Sent(e: N.Entry): Option<N.PollStatus> {
    match e
    case Told(_, status, events) => Some(if status == N.Ok && events.None? then N.NotRelevant else status)
    case ToldLate(_, events) => Some(if events.None? then N.NotRelevant else N.Ok)
    case _ => None
  }

  predicate NeverNotRelevant(h: N.History) {
    h.Blank? || (NeverNotRelevant(h.past) && Sent(h.last) != Some(N.NotRelevant))
  }

  /** A known session is being played, and a kept answer has a log. */
  predicate Supplied(d: Desk) {
    (d.watch.live ==> d.game.Some?) && (d.watch.late.Some? ==> d.watch.late.value.Some?)
  }

  lemma CheckNeverNotRelevant(d: Desk, me: N.Key, t: G.GameState)
    requires N.InOrder(d.watch) && NeverNotRelevant(d.watch.history) && Supplied(d)
    ensures NeverNotRelevant(Checked(d, me, t).watch.history) && Supplied(Checked(d, me, t))
  {
    assert NeverNotRelevant(N.Then(d.watch.history, N.Notified));
    var told := N.After(d.watch, me, N.Action.Notify(me.session, Some(t.log)));
    assert NeverNotRelevant(told.history);
  }

  lemma PollNeverNotRelevant(w: N.Watch, r: N.Responder, events: Option<Log>)
    requires NeverNotRelevant(w.history) && (w.live ==> events.Some?) && (w.late.Some? ==> w.late.value.Some?)
    ensures NeverNotRelevant(N.Polling(w, r, events).history)
  {
    if w.late.Some? {
      assert NeverNotRelevant(N.Then(w.history, N.Accepted(r)));
    } else if w.live {
      var v := N.Subscribing(w);
      assert NeverNotRelevant(v.history);
      assert NeverNotRelevant(N.Then(v.history, N.Accepted(r)));
      assert NeverNotRelevant(N.Telling(v.history, v.sub.value.responder, N.PollClosed));
    }
  }

  lemma ServeNeverNotRelevant(d: Desk, me: N.Key, c: Call)
    requires Serve(d, me, c).Some? && N.InOrder(d.watch) && NeverNotRelevant(d.watch.history) && Supplied(d)
    ensures NeverNotRelevant(Serve(d, me, c).value.watch.history) && Supplied(Serve(d, me, c).value)
  {
    if c.session != me.session {
    } else {
      match c
      case Create(_, _, _, _, _) =>
      case Move(_, login, md) =>
        if d.game.Some? && G.StatusOf(d.game.value, login, md) == Ok {
          CheckNeverNotRelevant(d, me, G.ApiMove(d.game.value, login, md).1.state);
        }
      case Poll(_, u, r) =>
        if u == me.user {
          PollNeverNotRelevant(d.watch, r, if d.game.Some? then Some(d.game.value.log) else None);
        }
    }
  }

  /** Closing comes right after a notification, and every `Ok` and every late answer carries a log:
      the server never sends `NotRelevant` through a responder, whether stored or called at once. */
  lemma {:induction false} NotRelevantNeverSent(me: N.Key, calls: seq<Call>)
    requires Run(me, calls).Some?
    ensures NeverNotRelevant(Run(me, calls).value.watch.history) && Supplied(Run(me, calls).value)
  {
    if calls == [] {
    } else {
      var before, c := calls[..|calls| - 1], calls[|calls| - 1];
      NotRelevantNeverSent(me, before);
      var acts := WatchIsNotifierRun(me, before);
      N.NoLostUpdate(me, acts);
      ServeNeverNotRelevant(Run(me, before).value, me, c);
    }
  }

  // ---------- the logs told ----------

  /** The logs the watch may still be told have agreeing indexes too. */
  ghost predicate DeskAgrees(d: Desk) {
    && LogsAgree(d.watch.history)
    && (d.game.Some? ==> IndexAgrees(d.game.value.log) && d.game.value.score == [] && Inv(d.game.value))
    && (d.watch.late.Some? && d.watch.late.value.Some? ==> IndexAgrees(d.watch.late.value.value))
  }

  lemma NotifyingAgrees(w: N.Watch, l: Log)
    requires LogsAgree(w.history) && IndexAgrees(l)
    ensures LogsAgree(N.Notifying(w, Some(l)).history)
  {
    assert LogsAgree(N.Then(w.history, N.Notified));
  }

  lemma ClosingAgrees(w: N.Watch, l: Log)
    requires LogsAgree(w.history)
    ensures LogsAgree(N.Closing(w, Some(l)).history)
  {
    if w.sub.Some? {
      assert LogsAgree(N.Telling(w.history, w.sub.value.responder, N.NotRelevant));
    }
  }

  lemma CheckAgrees(d: Desk, me: N.Key, t: G.GameState)
    requires DeskAgrees(d) && IndexAgrees(t.log) && Inv(t)
    ensures DeskAgrees(Checked(d, me, t))
  {
    NotifyingAgrees(d.watch, t.log);
    ClosingAgrees(N.After(d.watch, me, N.Action.Notify(me.session, Some(t.log))), t.log);
  }

  lemma MoveAgrees(d: Desk, me: N.Key, c: Call)
    requires DeskAgrees(d) && c.Move? && c.session == me.session
    ensures Serve(d, me, c).Some? ==> DeskAgrees(Serve(d, me, c).value)
  {
    if d.game.Some? && Serve(d, me, c).Some? && G.StatusOf(d.game.value, c.login, c.move) == Ok {
      var s := d.game.value;
      var side := G.SideOf(s, c.login);
      MoveLogs(s, side, c.move);
      MoveKeepsInv(s, side, c.move, G.Accept(s, side, c.move).state);
      CheckAgrees(d, me, G.Accept(s, side, c.move).state);
    }
  }

  lemma ReplacingAgrees(w: N.Watch, r: N.Responder, events: Option<Log>)
    requires w.sub.Some? && LogsAgree(w.history) && (events.Some? ==> IndexAgrees(events.value))
    ensures LogsAgree(N.Replacing(w, r, events).history)
  {
    assert LogsAgree(N.Then(w.history, N.Accepted(r)));
    assert LogsAgree(N.Telling(w.history, w.sub.value.responder, N.PollClosed));
  }

  lemma PollingAgrees(w: N.Watch, r: N.Responder, events: Option<Log>)
    requires LogsAgree(w.history) && (events.Some? ==> IndexAgrees(events.value))
    requires w.late.Some? && w.late.value.Some? ==> IndexAgrees(w.late.value.value)
    ensures LogsAgree(N.Polling(w, r, events).history)
  {
    if w.late.Some? {
      assert LogsAgree(N.Then(w.history, N.Accepted(r)));
    } else if w.live {
      assert LogsAgree(N.Subscribing(w).history);
      ReplacingAgrees(N.Subscribing(w), r, events);
    }
  }

  lemma PollAgrees(d: Desk, me: N.Key, u: Uuid, r: N.Responder)
    requires DeskAgrees(d)
    ensures DeskAgrees(Serve(d, me, Poll(me.session, u, r)).value)
  {
    if u == me.user {
      var events := if d.game.Some? then Some(d.game.value.log) else None;
      PollingAgrees(d.watch, r, events);
    }
  }

  /** In every run of the server, whatever its clients ask for, every log told to a watcher has an agreeing index:
      `FromMove` answers with exactly the events of the asked moves. */
  lemma {:induction false} ToldLogsAgree(me: N.Key, calls: seq<Call>)
    requires Run(me, calls).Some?
    requires forall c :: c in calls && c.Create? ==> c.login1 != c.login2
    ensures DeskAgrees(Run(me, calls).value)
  {
    if calls == [] {
    } else {
      var before, c := calls[..|calls| - 1], calls[|calls| - 1];
      ToldLogsAgree(me, before);
      var d := Run(me, before).value;
      if c.session == me.session {
        match c
        case Create(_, _, _, l1, l2) => InitInv(l1, l2);
        case Move(_, _, _) => MoveAgrees(d, me, c);
        case Poll(_, u, r) => PollAgrees(d, me, u, r);
      }
    }
  }

  // ---------- the players of a session ----------

  /** No session is created under an id that is, or has been, in use. */
  ghost predicate FreshIds(me: N.Key, calls: seq<Call>) {
    calls != [] ==>
      var before, c := calls[..|calls| - 1], calls[|calls| - 1];
      && FreshIds(me, before)
      && (Run(me, before).Some? && c.Create? && c.session == me.session ==>
            Run(me, before).value.game.None? && Run(me, before).value.ended.None?)
  }

  predicate Names(c: Call, me: N.Key) {
    c.Create? && c.session == me.session && (c.user1 == me.user || c.user2 == me.user)
  }

  /** The user is one of the two for whom the session was created. */
  ghost predicate Plays(me: N.Key, calls: seq<Call>) {
    exists c :: c in calls && Names(c, me)
  }

  function TimesNotified(h: N.History): nat {
    if h.Blank? then 0 else TimesNotified(h.past) + if h.last.Notified? then 1 else 0
  }

  predicate NeverPolled(h: N.History) {
    h.Blank? || (NeverPolled(h.past) && !h.last.Accepted?)
  }

  /** Nothing but the subscription and notifications has happened. */
  predicate OnlyNotified(h: N.History) {
    h.Then? && if h.last.Subscribed? then h.past.Blank? else h.last.Notified? && OnlyNotified(h.past)
  }

  /** A player is a subscriber with one notification for each accepted move. */
  ghost predicate PlayerServed(w: N.Watch, moves: int) {
    && w.sub.Some? && TimesNotified(w.history) == moves
    && (NeverPolled(w.history) ==> OnlyNotified(w.history) && w.sub.value.responder.None?)
  }

  ghost predicate PlayersServed(d: Desk, plays: bool) {
    && N.InOrder(d.watch)
    && (d.game.Some? ==>
          && d.watch.live && d.watch.late.None? && d.game.value.score == []
          && (plays ==> PlayerServed(d.watch, d.game.value.moveNumber)))
    && (d.game.None? && d.ended.None? ==> d.watch == N.UNWATCHED && !plays)
  }

  /** Creating a session starts the game of its two logins, the first in turn, and subscribes its two users. */
  lemma CreateStarts(d: Desk, me: N.Key, c: Call)
    requires c.Create? && c.session == me.session && d.watch == N.UNWATCHED
    ensures Serve(d, me, c).Some?
    ensures var v := Serve(d, me, c).value;
      && v.game.Some? && v.ended == d.ended
      && v.game.value.arena.first.login == c.login1 && v.game.value.arena.second.login == c.login2
      && v.game.value.nowTurn == c.login1 && v.game.value.moveNumber == 0
      && v.game.value.log.value == [] && v.game.value.objects == [] && v.game.value.score == []
      && v.watch ==
         if me.user == c.user1 || me.user == c.user2
         then N.Watch(true, Some(N.Sub(None, false)), None, N.Then(N.Blank, N.Subscribed))
         else N.Watch(true, None, None, N.Blank)
  {
  }

  lemma PlaysSnoc(me: N.Key, calls: seq<Call>)
    requires calls != []
    ensures Plays(me, calls) <==> Plays(me, calls[..|calls| - 1]) || Names(calls[|calls| - 1], me)
  {
    var front, c := calls[..|calls| - 1], calls[|calls| - 1];
    assert calls == front + [c];
  }

  /** A poll keeps a player served; it counts as no notification. */
  lemma PollServes(w: N.Watch, r: N.Responder, l: Log, moves: int)
    requires N.InOrder(w) && w.live && w.late.None? && PlayerServed(w, moves)
    ensures PlayerServed(N.Polling(w, r, Some(l)), moves) && !NeverPolled(N.Polling(w, r, Some(l)).history)
  {
    var told := N.Telling(w.history, w.sub.value.responder, N.PollClosed);
    assert TimesNotified(told) == TimesNotified(w.history);
    assert TimesNotified(N.Then(w.history, N.Accepted(r))) == TimesNotified(w.history);
    assert !NeverPolled(N.Then(w.history, N.Accepted(r))) && !NeverPolled(N.Then(told, N.Accepted(r)));
  }

  lemma NotifyServes(w: N.Watch, me: N.Key, l: Log, moves: int)
    requires w.live && PlayerServed(w, moves)
    ensures PlayerServed(N.After(w, me, N.Action.Notify(me.session, Some(l))), moves + 1)
  {
    var h := N.Then(w.history, N.Notified);
    assert TimesNotified(h) == moves + 1;
    assert NeverPolled(w.history) ==> OnlyNotified(h);
    if w.sub.value.responder.Some? {
      assert !NeverPolled(w.history) && !NeverPolled(h);
    }
  }

  lemma PollKeepsLive(w: N.Watch, r: N.Responder, l: Log)
    requires w.live && w.late.None?
    ensures var v := N.Polling(w, r, Some(l)); v.live && v.late.None?
  {
  }

  lemma ServeServes(d: Desk, me: N.Key, c: Call, plays: bool)
    requires PlayersServed(d, plays) && Serve(d, me, c).Some?
    requires c.Create? && c.session == me.session ==> d.game.None? && d.ended.None?
    ensures N.InOrder(Serve(d, me, c).value.watch) ==> PlayersServed(Serve(d, me, c).value, plays || Names(c, me))
  {
    if c.session != me.session {
    } else {
      match c
      case Create(_, _, _, _, _) => CreateStarts(d, me, c);
      case Move(_, login, md) =>
        if d.game.Some? && G.StatusOf(d.game.value, login, md) == Ok && plays {
          NotifyServes(d.watch, me, G.ApiMove(d.game.value, login, md).1.state.log, d.game.value.moveNumber);
        }
      case Poll(_, u, r) =>
        if d.game.Some? && u == me.user {
          PollKeepsLive(d.watch, r, d.game.value.log);
          if plays {
            PollServes(d.watch, r, d.game.value.log, d.game.value.moveNumber);
          }
        }
    }
  }

  lemma {:induction false} AllServed(me: N.Key, calls: seq<Call>)
    requires FreshIds(me, calls) && Run(me, calls).Some?
    ensures PlayersServed(Run(me, calls).value, Plays(me, calls))
  {
    if calls == [] {
    } else {
      var before, c := calls[..|calls| - 1], calls[|calls| - 1];
      AllServed(me, before);
      PlaysSnoc(me, calls);
      ServeServes(Run(me, before).value, me, c, Plays(me, before));
      var acts := WatchIsNotifierRun(me, calls);
      N.NoLostUpdate(me, acts);
    }
  }

  /** As long as the session is played, each of its two users is a subscriber, without having polled, and has been
      notified exactly once for every accepted move; no answer is kept for after a close. */
  lemma PlayersWatch(me: N.Key, calls: seq<Call>, d: Desk)
    requires FreshIds(me, calls) && Run(me, calls) == Some(d) && d.game.Some? && Plays(me, calls)
    ensures d.watch.sub.Some? && d.watch.late.None?
    ensures TimesNotified(d.watch.history) == d.game.value.moveNumber
  {
    AllServed(me, calls);
  }

  lemma OnlyNotifiedMissed(h: N.History)
    requires OnlyNotified(h) && TimesNotified(h) > 0
    ensures N.Missed(h)
  {
  }

  lemma WholeLog(l: Log)
    requires IndexAgrees(l)
    ensures Answer(l, 1) == l.value
  {
    AnswerIsSince(l, 1);
    SinceAll(l.value, 1);
  }

  /** The first poll of a player, once a move has been accepted, is answered at once: with the whole log when the
      player asks from the first move on. */
  lemma FirstPollAnswered(me: N.Key, calls: seq<Call>, d: Desk, r: N.Responder)
    requires FreshIds(me, calls) && (forall c :: c in calls && c.Create? ==> c.login1 != c.login2)
    requires Run(me, calls) == Some(d) && d.game.Some? && Plays(me, calls)
    requires d.game.value.moveNumber >= 1 && NeverPolled(d.watch.history)
    ensures Serve(d, me, Poll(me.session, me.user, r)).Some?
    ensures var h, l := d.watch.history, d.game.value.log;
      && Serve(d, me, Poll(me.session, me.user, r)).value.watch.history ==
         N.Then(N.Then(h, N.Accepted(r)), N.Told(r, N.Ok, Some(l)))
      && (r.fromMove == 1 ==> Answer(l, r.fromMove) == l.value)
  {
    AllServed(me, calls);
    OnlyNotifiedMissed(d.watch.history);
    ToldLogsAgree(me, calls);
    WholeLog(d.game.value.log);
  }

  /** A request to move that its sender may not make, or that comes when the session is not played, changes nothing
      and tells nobody anything. */
  lemma RefusedMoveSilent(d: Desk, me: N.Key, c: Call, side: Side)
    requires c.Move? && c.session == me.session
    requires d.game.Some? ==> Sends(d.game.value.arena, c.login, side) && !Allowed(d.game.value, side, c.move)
    ensures Serve(d, me, c) == Some(d)
  {
    if d.game.Some? {
      RequestAnswered(d.game.value, side, c.login, c.move);
    }
  }
}
