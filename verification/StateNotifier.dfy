/** `SessionStateNotifier`: long polls of the users watching a session.
    The class is proved against a machine for one user and one session, whatever all the others do. */
module StateNotifier {
  import opened Board
  import opened EventLog

  type Uuid = string
  type SessionId = string

  datatype PollStatus = Ok | NotRelevant | PollClosed

  /** A responder is known by its ticket; its answer to `Ok` holds the events from `fromMove` on. */
  datatype Responder = Responder(ticket: nat, fromMove: int)

  /** What happens to a user as a watcher of a session; `ToldLate` is an answer out of `send_and_close_`. */
  datatype Entry =
    | Subscribed
    | Notified
    | Closed
    | Accepted(responder: Responder)
    | Told(responder: Responder, status: PollStatus, events: Option<Log>)
    | ToldLate(responder: Responder, events: Option<Log>)

  datatype History = Blank | Then(past: History, last: Entry)

  datatype Key = Key(session: SessionId, user: Uuid)

  // ---------- one user and one session ----------

  datatype Sub = Sub(responder: Option<Responder>, waiting: bool)

  /** Whether the session is known, the user's subscription, the answer kept for after the close, and the past. */
  datatype Watch = Watch(live: bool, sub: Option<Sub>, late: Option<Option<Log>>, history: History)

  const UNWATCHED := Watch(false, None, None, Blank)

  /** Calls of the notifier; `events` is what `GetEvents` returns at that moment. */
  datatype Action =
    | Subscribe(user: Uuid, session: SessionId)
    | Unsubscribe(session: SessionId, events: Option<Log>)
    | ChangePoll(user: Uuid, session: SessionId, responder: Responder, events: Option<Log>)
    | Notify(session: SessionId, events: Option<Log>)

  function Subscribing(w: Watch): Watch {
    if w.sub.Some? then w
    else w.(live := true, sub := Some(Sub(None, false)), history := Then(w.history, Subscribed))
  }

  /** The stored responder, if any, is called without events. */
  function Telling(h: History, responder: Option<Responder>, status: PollStatus): History {
    if responder.Some? then Then(h, Told(responder.value, status, None)) else h
  }

  function Closing(w: Watch, events: Option<Log>): Watch {
    if w.sub.None? then w.(live := false)
    else
      Watch(false, None, if w.sub.value.waiting then Some(events) else w.late,
            Then(Telling(w.history, w.sub.value.responder, NotRelevant), Closed))
  }

  function Notifying(w: Watch, events: Option<Log>): Watch {
    if w.sub.None? then w
    else if w.sub.value.responder.None? then
      w.(sub := Some(Sub(None, true)), history := Then(w.history, Notified))
    else
      w.(sub := Some(w.sub.value.(responder := None)),
         history := Then(Then(w.history, Notified), Told(w.sub.value.responder.value, Ok, events)))
  }

  /** The poll of a subscribed user of a live session. */
  function Replacing(w: Watch, r: Responder, events: Option<Log>): Watch
    requires w.sub.Some?
  {
    var s := w.sub.value;
    if s.waiting then
      w.(sub := Some(s.(waiting := false)), history := Then(Then(w.history, Accepted(r)), Told(r, Ok, events)))
    else
      w.(sub := Some(s.(responder := Some(r))),
         history := Then(Telling(w.history, s.responder, PollClosed), Accepted(r)))
  }

  function Polling(w: Watch, r: Responder, events: Option<Log>): Watch {
    if w.late.Some? then
      w.(late := None, history := Then(Then(w.history, Accepted(r)), ToldLate(r, w.late.value)))
    else if !w.live then w
    else Replacing(Subscribing(w), r, events)
  }

  /** One call, as the watch of `me` sees it. */
  function After(w: Watch, me: Key, a: Action): Watch {
    if a.session != me.session then w
    else
      match a
      case Subscribe(u, _) => if u == me.user then Subscribing(w) else w.(live := true)
      case Unsubscribe(_, events) => if w.live then Closing(w, events) else w
      case ChangePoll(u, _, r, events) => if u == me.user then Polling(w, r, events) else w
      case Notify(_, events) => if w.live then Notifying(w, events) else w
  }

  /** The watch of `me` after further calls. */
  function RunFrom(w: Watch, me: Key, acts: seq<Action>): Watch {
    if acts == [] then w else After(RunFrom(w, me, acts[..|acts| - 1]), me, acts[|acts| - 1])
  }

  /** The watch of `me` after the calls `acts`, from an empty notifier. */
  function Run(me: Key, acts: seq<Action>): Watch {
    RunFrom(UNWATCHED, me, acts)
  }

  lemma {:induction false} RunConcat(w: Watch, me: Key, acts: seq<Action>, more: seq<Action>)
    ensures RunFrom(w, me, acts + more) == RunFrom(RunFrom(w, me, acts), me, more)
  {
    if more == [] {
      assert acts + more == acts;
    } else {
      assert (acts + more)[..|acts + more| - 1] == acts + more[..|more| - 1];
      RunConcat(w, me, acts, more[..|more| - 1]);
    }
  }

  // ---------- conservation of responders, and no lost update ----------

  /** How often the responder `r` was accepted, and how often it was called. */
  function TimesAccepted(h: History, r: Responder): nat {
    if h.Blank? then 0 else TimesAccepted(h.past, r) + if h.last == Accepted(r) then 1 else 0
  }

  function TimesTold(h: History, r: Responder): nat {
    if h.Blank? then 0
    else TimesTold(h.past, r) + if (h.last.Told? || h.last.ToldLate?) && h.last.responder == r then 1 else 0
  }

  /** 1 if `r` is the stored responder. */
  function TimesStored(w: Watch, r: Responder): nat {
    if w.sub.Some? && w.sub.value.responder == Some(r) then 1 else 0
  }

  /** The responder `r` was accepted as often as it was called or is stored. */
  predicate Conserved(w: Watch, r: Responder) {
    TimesAccepted(w.history, r) == TimesTold(w.history, r) + TimesStored(w, r)
  }

  /** A notification has come since the subscription or its last `Ok` answer. */
  predicate Missed(h: History) {
    h.Then? && (h.last.Notified? || (Missed(h.past) && !h.last.Subscribed? && !(h.last.Told? && h.last.status == Ok)))
  }

  /** A subscribed user is waiting exactly if a notification was missed, and then no responder is stored. */
  predicate InOrder(w: Watch) {
    w.sub.Some? ==>
      && w.live
      && (w.sub.value.waiting <==> Missed(w.history))
      && (w.sub.value.waiting ==> w.sub.value.responder.None?)
  }

  /** One call keeps responders conserved; a responder stored for a waiting user would be dropped unanswered. */
  lemma AfterConserves(w: Watch, me: Key, a: Action, r: Responder)
    requires Conserved(w, r) && InOrder(w)
    ensures Conserved(After(w, me, a), r)
  {
  }

  /** No update is lost: in every run, for every subscriber, `poll_waiting` holds the user exactly if a notification
      came since the subscription or its last `Ok` answer. */
  lemma {:induction false} NoLostUpdate(me: Key, acts: seq<Action>)
    ensures InOrder(Run(me, acts))
  {
    if acts == [] {
    } else {
      NoLostUpdate(me, acts[..|acts| - 1]);
    }
  }

  /** In every run, every responder was accepted from the user as often as it was called or is stored. */
  lemma {:induction false} RespondersConserved(me: Key, acts: seq<Action>, r: Responder)
    ensures Conserved(Run(me, acts), r)
  {
    if acts == [] {
    } else {
      RespondersConserved(me, acts[..|acts| - 1], r);
      NoLostUpdate(me, acts[..|acts| - 1]);
      AfterConserves(Run(me, acts[..|acts| - 1]), me, acts[|acts| - 1], r);
    }
  }

  /** A responder accepted once is called at most once, and not called while it is stored. */
  lemma NoneCalledTwice(me: Key, acts: seq<Action>, r: Responder)
    requires TimesAccepted(Run(me, acts).history, r) <= 1
    ensures TimesTold(Run(me, acts).history, r) + TimesStored(Run(me, acts), r) <= 1
  {
    RespondersConserved(me, acts, r);
  }

  // ---------- answers after the close ----------

  /** The calls neither poll for `me` nor start a new session with the id of the old one. */
  ghost predicate LeavesAlone(acts: seq<Action>, me: Key) {
    forall a :: a in acts && a.session == me.session ==>
      !a.Subscribe? && (a.ChangePoll? ==> a.user != me.user)
  }

  lemma {:induction false} KeptForLater(w: Watch, me: Key, acts: seq<Action>)
    requires !w.live && w.sub.None? && LeavesAlone(acts, me)
    ensures RunFrom(w, me, acts) == w
  {
    if acts == [] {
    } else {
      KeptForLater(w, me, acts[..|acts| - 1]);
    }
  }

  /** A user who misses a notification before the session closes gets exactly one answer after it: the next poll,
      whenever it comes, is told `Ok` with the events at the close, and a further poll, by any responder, is refused.
      A user who misses none gets no answer after the close. */
  lemma AnsweredOnceAfterClose(me: Key, before: seq<Action>, events: Option<Log>, meanwhile: seq<Action>,
                               r: Responder, later: seq<Action>, r2: Responder, events2: Option<Log>)
    requires Run(me, before).sub.Some? && Run(me, before).late.None?
    requires LeavesAlone(meanwhile, me) && LeavesAlone(later, me)
    ensures var poll := ChangePoll(me.user, me.session, r, None);
      var closed := Run(me, before + [Unsubscribe(me.session, events)]);
      var polled := After(RunFrom(closed, me, meanwhile), me, poll);
      if Missed(Run(me, before).history) then
        && polled.history == Then(Then(closed.history, Accepted(r)), ToldLate(r, events))
        && After(RunFrom(polled, me, later), me, ChangePoll(me.user, me.session, r2, events2)) == polled
      else
        polled == closed
  {
    var acts := before + [Unsubscribe(me.session, events)];
    assert acts[..|acts| - 1] == before;
    NoLostUpdate(me, before);
    var closed := Run(me, acts);
    KeptForLater(closed, me, meanwhile);
    KeptForLater(After(closed, me, ChangePoll(me.user, me.session, r, None)), me, later);
  }

  // ---------- what each call does in a run ----------

  ghost predicate NotClosedAfter(acts: seq<Action>, i: int, sid: SessionId) {
    forall j :: 0 <= i < j < |acts| ==> !(acts[j].Unsubscribe? && acts[j].session == sid)
  }

  /** The session has been subscribed to, by anyone, and not closed since. */
  ghost predicate Opened(acts: seq<Action>, sid: SessionId) {
    exists i :: 0 <= i < |acts| && acts[i].Subscribe? && acts[i].session == sid && NotClosedAfter(acts, i, sid)
  }

  /** After the calls `before`, the call `a` makes `me` a subscriber: the user is subscribed, or polls while the session
      is open and no answer is kept for after a close. */
  ghost predicate Joins(me: Key, before: seq<Action>, a: Action) {
    && a.session == me.session
    && ((a.Subscribe? && a.user == me.user)
        || (a.ChangePoll? && a.user == me.user && Opened(before, me.session) && Run(me, before).late.None?))
  }

  ghost predicate Joined(me: Key, acts: seq<Action>) {
    exists i :: 0 <= i < |acts| && Joins(me, acts[..i], acts[i]) && NotClosedAfter(acts, i, me.session)
  }

  lemma NotClosedSnoc(acts: seq<Action>, a: Action, i: int, sid: SessionId)
    requires 0 <= i < |acts|
    ensures NotClosedAfter(acts + [a], i, sid) <==>
      NotClosedAfter(acts, i, sid) && !(a.Unsubscribe? && a.session == sid)
  {
    var more := acts + [a];
    assert more[|acts|] == a;
    if NotClosedAfter(more, i, sid) {
      forall j | i < j < |acts| ensures !(acts[j].Unsubscribe? && acts[j].session == sid) {
        assert more[j] == acts[j];
      }
    }
  }

  lemma OpenedSnoc(acts: seq<Action>, a: Action, sid: SessionId)
    ensures Opened(acts + [a], sid) <==>
      (a.Subscribe? && a.session == sid) || (Opened(acts, sid) && !(a.Unsubscribe? && a.session == sid))
  {
    var more := acts + [a];
    if a.Subscribe? && a.session == sid {
      assert more[|acts|] == a && NotClosedAfter(more, |acts|, sid);
    } else if Opened(acts, sid) && !(a.Unsubscribe? && a.session == sid) {
      var i :| 0 <= i < |acts| && acts[i].Subscribe? && acts[i].session == sid && NotClosedAfter(acts, i, sid);
      NotClosedSnoc(acts, a, i, sid);
      assert more[i] == acts[i];
    }
    forall i | 0 <= i < |acts| && more[i].Subscribe? && more[i].session == sid && NotClosedAfter(more, i, sid)
      ensures Opened(acts, sid) && !(a.Unsubscribe? && a.session == sid)
    {
      NotClosedSnoc(acts, a, i, sid);
      assert more[i] == acts[i];
    }
  }

  lemma JoinedSnoc(me: Key, acts: seq<Action>, a: Action)
    ensures Joined(me, acts + [a]) <==>
      Joins(me, acts, a) || (Joined(me, acts) && !(a.Unsubscribe? && a.session == me.session))
  {
    var more, sid := acts + [a], me.session;
    assert more[..|acts|] == acts && more[|acts|] == a;
    if Joins(me, acts, a) {
      assert NotClosedAfter(more, |acts|, sid);
    } else if Joined(me, acts) && !(a.Unsubscribe? && a.session == sid) {
      var i :| 0 <= i < |acts| && Joins(me, acts[..i], acts[i]) && NotClosedAfter(acts, i, sid);
      NotClosedSnoc(acts, a, i, sid);
      assert more[..i] == acts[..i] && more[i] == acts[i];
    }
    forall i | 0 <= i < |acts| && Joins(me, more[..i], more[i]) && NotClosedAfter(more, i, sid)
      ensures Joined(me, acts) && !(a.Unsubscribe? && a.session == sid)
    {
      NotClosedSnoc(acts, a, i, sid);
      assert more[..i] == acts[..i] && more[i] == acts[i];
    }
  }

  /** In every run the session is live exactly if it is open, and the user is a subscriber exactly if one of the calls
      made the user one and the session was not closed since. */
  lemma {:induction false} SubscribedExactly(me: Key, acts: seq<Action>)
    ensures Run(me, acts).live <==> Opened(acts, me.session)
    ensures Run(me, acts).sub.Some? <==> Joined(me, acts)
  {
    if acts == [] {
    } else {
      var front, a := acts[..|acts| - 1], acts[|acts| - 1];
      assert acts == front + [a];
      SubscribedExactly(me, front);
      NoLostUpdate(me, front);
      OpenedSnoc(front, a, me.session);
      JoinedSnoc(me, front, a);
    }
  }

  function StoredIn(w: Watch): Option<Responder> {
    if w.sub.Some? then w.sub.value.responder else None
  }

  /** What a poll of the user does while no answer is kept: it is refused if the session is not open; a user who is no
      subscriber becomes one and the responder is stored; a subscriber who missed a notification is answered at once,
      with the events; any other one's responder is stored, and the one stored before is told that its poll
      is closed. */
  lemma PollExactly(me: Key, acts: seq<Action>, r: Responder, events: Option<Log>)
    requires Run(me, acts).late.None?
    ensures var w := Run(me, acts);
      var h := w.history;
      var polled := After(w, me, ChangePoll(me.user, me.session, r, events));
      if !Opened(acts, me.session) then polled == w
      else
        && polled.live && polled.late.None?
        && if !Joined(me, acts) then
             polled.sub == Some(Sub(Some(r), false)) && polled.history == Then(Then(h, Subscribed), Accepted(r))
           else if Missed(h) then
             polled.sub == Some(Sub(None, false)) && polled.history == Then(Then(h, Accepted(r)), Told(r, Ok, events))
           else
             && polled.sub == Some(Sub(Some(r), false))
             && polled.history ==
                if StoredIn(w).Some?
                then Then(Then(h, Told(StoredIn(w).value, PollClosed, None)), Accepted(r))
                else Then(h, Accepted(r))
  {
    SubscribedExactly(me, acts);
    NoLostUpdate(me, acts);
  }

  /** What a notification does to a subscriber: the stored responder is told the events and is no longer stored;
      without one the user is waiting. Nothing happens to anyone else. */
  lemma NotifyExactly(me: Key, acts: seq<Action>, events: Option<Log>)
    ensures var w := Run(me, acts);
      var told := After(w, me, Notify(me.session, events));
      if !Joined(me, acts) then told == w
      else
        && told.live && told.late == w.late
        && if StoredIn(w).Some? then
             && told.sub == Some(Sub(None, false))
             && told.history == Then(Then(w.history, Notified), Told(StoredIn(w).value, Ok, events))
           else
             told.sub == Some(Sub(None, true)) && told.history == Then(w.history, Notified)
  {
    SubscribedExactly(me, acts);
    NoLostUpdate(me, acts);
  }

  /** What closing the session does: it is no longer live and has no subscribers; a stored responder is told that it
      is not relevant, without events; a subscriber who missed a notification has the events kept. */
  lemma CloseExactly(me: Key, acts: seq<Action>, events: Option<Log>)
    ensures var w := Run(me, acts);
      var closed := After(w, me, Unsubscribe(me.session, events));
      && !closed.live && closed.sub.None?
      && closed.late == (if Joined(me, acts) && Missed(w.history) then Some(events) else w.late)
      && closed.history ==
         if !Joined(me, acts) then w.history
         else if StoredIn(w).Some?
         then Then(Then(w.history, Told(StoredIn(w).value, NotRelevant, None)), Closed)
         else Then(w.history, Closed)
  {
    SubscribedExactly(me, acts);
    NoLostUpdate(me, acts);
  }

  // ---------- the class ----------

  datatype SessionData = SessionData(usersResponser: map<Uuid, Option<Responder>>, pollWaiting: seq<Uuid>)

  const NO_DATA := SessionData(map[], [])

  ghost predicate NoDuplicates(pw: seq<Uuid>) {
    forall i, j :: 0 <= i < j < |pw| ==> pw[i] != pw[j]
  }

  /** `pw.erase(std::find(...))`. */
  function EraseFound(pw: seq<Uuid>, u: Uuid): (r: seq<Uuid>)
    requires u in pw && NoDuplicates(pw)
    ensures NoDuplicates(r) && forall v :: v in r <==> v in pw && v != u
  {
    assert forall v :: v in pw[1..] ==> v != pw[0];
    if pw[0] == u then pw[1..]
    else
      var rest := EraseFound(pw[1..], u);
      assert pw[0] !in rest;
      [pw[0]] + rest
  }

  class SessionStateNotifier {
    var sessions: map<SessionId, SessionData>
    var sendAndClose: map<Key, Option<Log>>
    ghost var histories: map<Key, History>

    ghost predicate DataValid(d: SessionData) {
      NoDuplicates(d.pollWaiting) && forall u :: u in d.pollWaiting ==> u in d.usersResponser
    }

    /** Waiting users are subscribed, and listed once. */
    ghost predicate Valid()
      reads this
    {
      forall sid :: sid in sessions ==> DataValid(sessions[sid])
    }

    ghost function HistoryOf(k: Key): History
      reads this
    {
      if k in histories then histories[k] else Blank
    }

    function SubOf(d: SessionData, u: Uuid): Option<Sub> {
      if u in d.usersResponser then Some(Sub(d.usersResponser[u], u in d.pollWaiting)) else None
    }

    /** What one user as a watcher of one session sees of the notifier. */
    ghost function View(k: Key): Watch
      reads this
    {
      Watch(k.session in sessions,
            if k.session in sessions then SubOf(sessions[k.session], k.user) else None,
            if k in sendAndClose then Some(sendAndClose[k]) else None,
            HistoryOf(k))
    }

    constructor ()
      ensures Valid() && forall k :: View(k) == UNWATCHED
    {
      sessions := map[];
      sendAndClose := map[];
      histories := map[];
    }

    ghost method Record(k: Key, e: Entry)
      modifies this`histories
      ensures forall j :: HistoryOf(j) == if j == k then Then(old(HistoryOf(j)), e) else old(HistoryOf(j))
    {
      histories := histories[k := Then(HistoryOf(k), e)];
    }

    method Subscribe(uuid: Uuid, sid: SessionId) returns (ok: bool)
      requires Valid()
      modifies this
      ensures Valid() && ok == old(View(Key(sid, uuid))).sub.None?
      ensures forall k :: View(k) == After(old(View(k)), k, Action.Subscribe(uuid, sid))
    {
      if sid !in sessions {
        sessions := sessions[sid := NO_DATA];
      }
      var d := sessions[sid];
      if uuid in d.usersResponser {
        return false;
      }
      sessions := sessions[sid := d.(usersResponser := d.usersResponser[uuid := None])];
      Record(Key(sid, uuid), Subscribed);
      ok := true;
    }

    /** The rest of `ChangePoll`, the user being subscribed. */
    method Replace(uuid: Uuid, sid: SessionId, responser: Responder, events: Option<Log>)
      requires Valid() && View(Key(sid, uuid)).sub.Some?
      modifies this
      ensures Valid()
      ensures forall k :: View(k) ==
                if k == Key(sid, uuid) then Replacing(old(View(k)), responser, events) else old(View(k))
    {
      var me, d := Key(sid, uuid), sessions[sid];
      if uuid in d.pollWaiting {
        Record(me, Accepted(responser));
        Record(me, Told(responser, Ok, events));
        sessions := sessions[sid := d.(pollWaiting := EraseFound(d.pollWaiting, uuid))];
        return;
      }
      if d.usersResponser[uuid].Some? {
        Record(me, Told(d.usersResponser[uuid].value, PollClosed, None));
      }
      Record(me, Accepted(responser));
      sessions := sessions[sid := d.(usersResponser := d.usersResponser[uuid := Some(responser)])];
    }

    /** `events` is what `GetEvents` returns. */
    method ChangePoll(uuid: Uuid, sid: SessionId, responser: Responder, events: Option<Log>) returns (ok: bool)
      requires Valid()
      modifies this
      ensures Valid() && ok == old(View(Key(sid, uuid)).late.Some? || View(Key(sid, uuid)).live)
      ensures forall k :: View(k) == After(old(View(k)), k, Action.ChangePoll(uuid, sid, responser, events))
    {
      var me := Key(sid, uuid);
      if me in sendAndClose {
        Record(me, Accepted(responser));
        Record(me, ToldLate(responser, sendAndClose[me]));
        sendAndClose := sendAndClose - {me};
        return true;
      }
      if sid !in sessions {
        return false;
      }
      if uuid !in sessions[sid].usersResponser {
        var _ := Subscribe(uuid, sid);
      }
      Replace(uuid, sid, responser, events);
      ok := true;
    }

    /** The body of the loop of `Notify`. */
    method NotifyOne(u: Uuid, sid: SessionId, events: Option<Log>)
      requires Valid() && View(Key(sid, u)).sub.Some?
      modifies this
      ensures Valid() && sid in sessions && sessions[sid].usersResponser.Keys == old(sessions[sid].usersResponser.Keys)
      ensures forall k :: View(k) == if k == Key(sid, u) then Notifying(old(View(k)), events) else old(View(k))
    {
      var me, d := Key(sid, u), sessions[sid];
      Record(me, Notified);
      if d.usersResponser[u].None? {
        if u !in d.pollWaiting {
          sessions := sessions[sid := d.(pollWaiting := d.pollWaiting + [u])];
        }
        return;
      }
      Record(me, Told(d.usersResponser[u].value, Ok, events));
      sessions := sessions[sid := d.(usersResponser := d.usersResponser[u := None])];
    }

    /** The loop over the subscribers, in whatever order the map lists them. */
    method Notify(sid: SessionId, events: Option<Log>) returns (ok: bool)
      requires Valid()
      modifies this
      ensures Valid() && ok == (sid in old(sessions))
      ensures forall k :: View(k) == After(old(View(k)), k, Action.Notify(sid, events))
    {
      if sid !in sessions {
        return false;
      }
      var todo := sessions[sid].usersResponser.Keys;
      while todo != {}
        invariant Valid() && sid in sessions
        invariant sessions[sid].usersResponser.Keys == old(sessions[sid].usersResponser.Keys)
        invariant todo <= sessions[sid].usersResponser.Keys
        invariant forall k :: View(k) ==
                    if k.session == sid && k.user !in todo then Notifying(old(View(k)), events) else old(View(k))
        decreases |todo|
      {
        var u :| u in todo;
        NotifyOne(u, sid, events);
        todo := todo - {u};
      }
      ok := true;
    }

    /** Everyone who is waited for is moved to `send_and_close_`. */
    method KeepForLater(sid: SessionId, events: Option<Log>)
      requires Valid() && sid in sessions
      modifies this`sendAndClose
      ensures forall k :: k in sendAndClose <==>
                k in old(sendAndClose) || (k.session == sid && k.user in sessions[sid].pollWaiting)
      ensures forall k :: k in sendAndClose ==>
        sendAndClose[k] ==
          if k.session == sid && k.user in sessions[sid].pollWaiting then events else old(sendAndClose)[k]
    {
      var pw := sessions[sid].pollWaiting;
      var i := 0;
      while i < |pw|
        invariant 0 <= i <= |pw|
        invariant forall k :: k in sendAndClose <==> k in old(sendAndClose) || (k.session == sid && k.user in pw[..i])
        invariant forall k :: k in sendAndClose ==>
          sendAndClose[k] == if k.session == sid && k.user in pw[..i] then events else old(sendAndClose)[k]
      {
        sendAndClose := sendAndClose[Key(sid, pw[i]) := events];
        i := i + 1;
      }
    }

    /** Everyone who waits for an answer gets `NotRelevant`. */
    method Dismiss(sid: SessionId)
      requires Valid() && sid in sessions
      modifies this`histories
      ensures forall k :: HistoryOf(k) ==
                if k.session == sid && k.user in sessions[sid].usersResponser
                then Then(Telling(old(HistoryOf(k)), sessions[sid].usersResponser[k.user], NotRelevant), Closed)
                else old(HistoryOf(k))
    {
      var ur := sessions[sid].usersResponser;
      var todo := ur.Keys;
      while todo != {}
        invariant todo <= ur.Keys
        invariant forall k :: HistoryOf(k) ==
                    if k.session == sid && k.user in ur && k.user !in todo
                    then Then(Telling(old(HistoryOf(k)), ur[k.user], NotRelevant), Closed)
                    else old(HistoryOf(k))
        decreases |todo|
      {
        var u :| u in todo;
        if ur[u].Some? {
          Record(Key(sid, u), Told(ur[u].value, NotRelevant, None));
        }
        Record(Key(sid, u), Closed);
        todo := todo - {u};
      }
    }

    method Unsubscribe(sid: SessionId, events: Option<Log>) returns (ok: bool)
      requires Valid()
      modifies this
      ensures Valid() && ok == (sid in old(sessions))
      ensures forall k :: View(k) == After(old(View(k)), k, Action.Unsubscribe(sid, events))
    {
      if sid !in sessions {
        return false;
      }
      KeepForLater(sid, events);
      Dismiss(sid);
      sessions := sessions - {sid};
      ok := true;
    }

    method SessionCreated(player1: Uuid, player2: Uuid, sid: SessionId) returns (ok: bool)
      requires Valid()
      modifies this
      ensures Valid() && ok
      ensures forall k :: View(k) ==
                After(After(old(View(k)), k, Action.Subscribe(player1, sid)), k, Action.Subscribe(player2, sid))
    {
      var _ := Subscribe(player1, sid);
      var _ := Subscribe(player2, sid);
      ok := true;
    }
  }
}
