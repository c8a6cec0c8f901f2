/** `QueueNotifier`: long polls of queued users waiting for an opponent.
    The class, whose methods call each other in a cycle, is proved against a machine for one user. */
module QueueNotifiers {
  import opened Board

  type Uuid = string

  datatype PollStatus = Ok | PollClosed

  datatype PollData = PollData(additionalData: string, code: PollStatus)

  type Ticket = nat

  /** What happens to a user's polls: calls of `Notify`, responders taken, responders called,
      and responders erased without having been called. */
  datatype Entry =
    | Notified(data: PollData)
    | Accepted(ticket: Ticket)
    | Answered(ticket: Ticket, data: PollData)
    | Dropped(ticket: Ticket)

  datatype History = Blank | Then(past: History, last: Entry)

  /** The stored responder, the notification kept for the next poll, and the past. */
  datatype Watch = Watch(responder: Option<Ticket>, waiting: Option<PollData>, history: History)

  const NEW_USER := Watch(None, None, Blank)
  const REPLACED := "new poll connected"

  datatype Action =
    | Subscribe(user: Uuid, ticket: Ticket)
    | Unsubscribe(user: Uuid, reason: string)
    | Notify(user: Uuid, data: PollData)

  function Notifying(w: Watch, data: PollData): Watch {
    var h := Then(w.history, Notified(data));
    if w.responder.Some? then w.(responder := None, history := Then(h, Answered(w.responder.value, data)))
    else w.(waiting := if w.waiting.Some? then w.waiting else Some(data), history := h)
  }

  function Dismissing(w: Watch, reason: string): Watch {
    if w.responder.None? then w
    else if reason != "" then Notifying(w, PollData(reason, PollClosed))
    else w.(responder := None, history := Then(w.history, Dropped(w.responder.value)))
  }

  function Subscribing(w: Watch, t: Ticket): Watch {
    var v := Dismissing(w, REPLACED);
    var stored := v.(responder := Some(t), history := Then(v.history, Accepted(t)));
    if w.waiting.Some? then Notifying(stored, w.waiting.value).(waiting := None) else stored
  }

  /** One call, as the watch of the user `me` sees it. */
  function After(w: Watch, me: Uuid, a: Action): Watch {
    if a.user != me then w
    else
      match a
      case Subscribe(_, t) => Subscribing(w, t)
      case Unsubscribe(_, reason) => Dismissing(w, reason)
      case Notify(_, data) => Notifying(w, data)
  }

  function Run(me: Uuid, acts: seq<Action>): Watch {
    if acts == [] then NEW_USER else After(Run(me, acts[..|acts| - 1]), me, acts[|acts| - 1])
  }

  // ---------- properties of runs ----------

  /** The oldest notification not answered yet. */
  function Unanswered(h: History): Option<PollData> {
    if h.Blank? then None
    else
      match h.last
      case Notified(data) => if Unanswered(h.past).Some? then Unanswered(h.past) else Some(data)
      case Answered(_, _) => None
      case _ => Unanswered(h.past)
  }

  /** `poll_waiting_` holds the oldest unanswered notification, and never together with a stored responder. */
  predicate InOrder(w: Watch) {
    w.waiting == Unanswered(w.history) && (w.responder.None? || w.waiting.None?)
  }

  lemma AfterInOrder(w: Watch, me: Uuid, a: Action)
    requires InOrder(w)
    ensures InOrder(After(w, me, a))
  {
    if a.user == me && a.Subscribe? {
      var v := Dismissing(w, REPLACED);
      assert Unanswered(Then(v.history, Accepted(a.ticket))) == Unanswered(w.history);
    }
  }

  /** In every run: no user is in both maps, and `poll_waiting_` holds exactly the oldest unanswered notification. */
  lemma {:induction false} OldestNotificationKept(me: Uuid, acts: seq<Action>)
    ensures InOrder(Run(me, acts))
  {
    if acts == [] {
    } else {
      OldestNotificationKept(me, acts[..|acts| - 1]);
      AfterInOrder(Run(me, acts[..|acts| - 1]), me, acts[|acts| - 1]);
    }
  }

  function TimesAccepted(h: History, t: Ticket): nat {
    if h.Blank? then 0 else TimesAccepted(h.past, t) + if h.last == Accepted(t) then 1 else 0
  }

  function TimesCalled(h: History, t: Ticket): nat {
    if h.Blank? then 0
    else TimesCalled(h.past, t) + if h.last.Answered? && h.last.ticket == t then 1 else 0
  }

  function TimesDropped(h: History, t: Ticket): nat {
    if h.Blank? then 0 else TimesDropped(h.past, t) + if h.last == Dropped(t) then 1 else 0
  }

  function TimesStored(w: Watch, t: Ticket): nat {
    if w.responder == Some(t) then 1 else 0
  }

  predicate Accounted(w: Watch, t: Ticket) {
    TimesAccepted(w.history, t) == TimesCalled(w.history, t) + TimesStored(w, t) + TimesDropped(w.history, t)
  }

  lemma AfterAccounts(w: Watch, me: Uuid, a: Action, t: Ticket)
    requires Accounted(w, t)
    ensures Accounted(After(w, me, a), t)
  {
    if a.user == me && a.Subscribe? {
      var v := Dismissing(w, REPLACED);
      assert Accounted(v, t);
      assert Accounted(v.(responder := Some(a.ticket), history := Then(v.history, Accepted(a.ticket))), t);
    }
  }

  /** Every responder accepted was called, is stored, or was dropped by an `Unsubscribe` without a reason. */
  lemma {:induction false} RespondersAccounted(me: Uuid, acts: seq<Action>, t: Ticket)
    ensures Accounted(Run(me, acts), t)
  {
    if acts == [] {
    } else {
      RespondersAccounted(me, acts[..|acts| - 1], t);
      AfterAccounts(Run(me, acts[..|acts| - 1]), me, acts[|acts| - 1], t);
    }
  }

  /** The call drops a stored responder without calling it. */
  predicate Drops(w: Watch, me: Uuid, a: Action) {
    a == Action.Unsubscribe(me, "") && w.responder.Some?
  }

  /** No call of the run drops a responder. */
  predicate DropsNone(me: Uuid, acts: seq<Action>) {
    acts == [] ||
    (DropsNone(me, acts[..|acts| - 1]) && !Drops(Run(me, acts[..|acts| - 1]), me, acts[|acts| - 1]))
  }

  lemma AfterDrops(w: Watch, me: Uuid, a: Action, t: Ticket)
    ensures TimesDropped(After(w, me, a).history, t) ==
            TimesDropped(w.history, t) + if Drops(w, me, a) && w.responder == Some(t) then 1 else 0
  {
    if a.user == me && a.Subscribe? {
      var v := Dismissing(w, REPLACED);
      assert REPLACED[0] == 'n';
      assert TimesDropped(v.history, t) == TimesDropped(w.history, t);
      assert TimesDropped(Then(v.history, Accepted(a.ticket)), t) == TimesDropped(v.history, t);
    }
  }

  /** No drop, no responder dropped; after any drop, some responder `dropped` was. */
  lemma {:induction false} DropsCounted(me: Uuid, acts: seq<Action>) returns (dropped: Ticket)
    ensures DropsNone(me, acts) ==> forall t: Ticket :: TimesDropped(Run(me, acts).history, t) == 0
    ensures !DropsNone(me, acts) ==> TimesDropped(Run(me, acts).history, dropped) > 0
  {
    dropped := 0;
    if acts == [] {
    } else {
      var w, a := Run(me, acts[..|acts| - 1]), acts[|acts| - 1];
      dropped := DropsCounted(me, acts[..|acts| - 1]);
      forall t: Ticket
        ensures TimesDropped(After(w, me, a).history, t) ==
                TimesDropped(w.history, t) + if Drops(w, me, a) && w.responder == Some(t) then 1 else 0
      {
        AfterDrops(w, me, a, t);
      }
      if DropsNone(me, acts[..|acts| - 1]) && Drops(w, me, a) {
        dropped := w.responder.value;
      }
    }
  }

  /** Responders are conserved, accepted ones being those called and those stored, exactly in the runs in which
      no user with a stored responder is unsubscribed without a reason. */
  lemma {:induction false} ConservedExactly(me: Uuid, acts: seq<Action>)
    ensures DropsNone(me, acts) <==>
      forall t: Ticket :: TimesAccepted(Run(me, acts).history, t) ==
                  TimesCalled(Run(me, acts).history, t) + TimesStored(Run(me, acts), t)
  {
    var w := Run(me, acts);
    var dropped := DropsCounted(me, acts);
    if DropsNone(me, acts) {
      forall t: Ticket ensures TimesAccepted(w.history, t) == TimesCalled(w.history, t) + TimesStored(w, t) {
        RespondersAccounted(me, acts, t);
      }
    } else {
      RespondersAccounted(me, acts, dropped);
      assert TimesAccepted(w.history, dropped) != TimesCalled(w.history, dropped) + TimesStored(w, dropped);
    }
  }

  /** Such a run exists: the responder `t` is accepted, never called, and gone. */
  lemma ResponderLost(me: Uuid, t: Ticket)
    ensures var acts := [Action.Subscribe(me, t), Action.Unsubscribe(me, "")];
      var w := Run(me, acts);
      !DropsNone(me, acts) &&
      TimesAccepted(w.history, t) == 1 && TimesCalled(w.history, t) == 0 && TimesStored(w, t) == 0
  {
    var acts := [Action.Subscribe(me, t), Action.Unsubscribe(me, "")];
    assert acts[..1] == [acts[0]] && acts[..1][..0] == [];
    var h := Then(Blank, Accepted(t));
    assert Run(me, acts[..1]) == Watch(Some(t), None, h);
    assert Run(me, acts) == Watch(None, None, Then(h, Dropped(t)));
    assert TimesAccepted(h, t) == 1 && TimesCalled(h, t) == 0;
  }

  lemma {:induction false} NoReasonlessDrop(me: Uuid, acts: seq<Action>)
    requires forall a :: a in acts ==> !a.Unsubscribe?
    ensures DropsNone(me, acts)
  {
    if acts == [] {
    } else {
      NoReasonlessDrop(me, acts[..|acts| - 1]);
    }
  }

  /** Runs made of the calls the program makes, `Subscribe` and `Notify`, conserve responders:
      each was accepted as often as it was called or is stored. */
  lemma {:induction false} ProgramConserves(me: Uuid, acts: seq<Action>, t: Ticket)
    requires forall a :: a in acts ==> !a.Unsubscribe?
    ensures TimesAccepted(Run(me, acts).history, t) ==
            TimesCalled(Run(me, acts).history, t) + TimesStored(Run(me, acts), t)
  {
    NoReasonlessDrop(me, acts);
    ConservedExactly(me, acts);
  }

  // ---------- conservation of notifications ----------

  /** How often `Notify` was called for `me` with the data `d`. */
  function TimesNotified(me: Uuid, acts: seq<Action>, d: PollData): nat {
    if acts == [] then 0
    else TimesNotified(me, acts[..|acts| - 1], d) + if acts[|acts| - 1] == Action.Notify(me, d) then 1 else 0
  }

  /** How often a responder was called with the data `d`. */
  function TimesTold(h: History, d: PollData): nat {
    if h.Blank? then 0 else TimesTold(h.past, d) + if h.last.Answered? && h.last.data == d then 1 else 0
  }

  /** 1 if `d` is kept for the next poll. */
  function TimesKept(w: Watch, d: PollData): nat {
    if w.waiting == Some(d) then 1 else 0
  }

  /** The call brings a notification while another one is kept. */
  predicate Overlooks(w: Watch, me: Uuid, a: Action) {
    a.Notify? && a.user == me && w.responder.None? && w.waiting.Some?
  }

  function TimesOverlooked(me: Uuid, acts: seq<Action>, d: PollData): nat {
    if acts == [] then 0
    else
      var front, a := acts[..|acts| - 1], acts[|acts| - 1];
      TimesOverlooked(me, front, d) + if Overlooks(Run(me, front), me, a) && a.data == d then 1 else 0
  }

  lemma AfterAccountsNews(w: Watch, me: Uuid, a: Action, d: PollData)
    requires d.code == Ok && InOrder(w)
    ensures var v := After(w, me, a);
      TimesTold(v.history, d) + TimesKept(v, d) + (if Overlooks(w, me, a) && a.data == d then 1 else 0) ==
      TimesTold(w.history, d) + TimesKept(w, d) + if a == Action.Notify(me, d) then 1 else 0
  {
    if a.user == me && a.Subscribe? {
      var v := Dismissing(w, REPLACED);
      assert REPLACED[0] == 'n';
      assert TimesTold(v.history, d) == TimesTold(w.history, d);
      assert TimesTold(Then(v.history, Accepted(a.ticket)), d) == TimesTold(v.history, d);
    }
  }

  /** Every notification with code `Ok` was told, is kept, or came while another one was kept.
      The other code is also that of dismissals. */
  lemma {:induction false} NewsAccounted(me: Uuid, acts: seq<Action>, d: PollData)
    requires d.code == Ok
    ensures TimesNotified(me, acts, d) ==
            TimesTold(Run(me, acts).history, d) + TimesKept(Run(me, acts), d) + TimesOverlooked(me, acts, d)
  {
    if acts == [] {
    } else {
      var front := acts[..|acts| - 1];
      NewsAccounted(me, front, d);
      OldestNotificationKept(me, front);
      AfterAccountsNews(Run(me, front), me, acts[|acts| - 1], d);
    }
  }

  /** No notification with code `Ok` comes while another one is kept. */
  predicate OverlooksNone(me: Uuid, acts: seq<Action>) {
    acts == [] ||
    var front, a := acts[..|acts| - 1], acts[|acts| - 1];
    OverlooksNone(me, front) && !(Overlooks(Run(me, front), me, a) && a.data.code == Ok)
  }

  /** No overlooked notification, none missing; after any, the notification `lost` is. */
  lemma {:induction false} OverlookedCounted(me: Uuid, acts: seq<Action>) returns (lost: PollData)
    ensures OverlooksNone(me, acts) ==> forall d: PollData :: d.code == Ok ==> TimesOverlooked(me, acts, d) == 0
    ensures !OverlooksNone(me, acts) ==> lost.code == Ok && TimesOverlooked(me, acts, lost) > 0
  {
    if acts == [] {
      lost := PollData("", Ok);
    } else {
      var front, a := acts[..|acts| - 1], acts[|acts| - 1];
      lost := OverlookedCounted(me, front);
      if OverlooksNone(me, front) && Overlooks(Run(me, front), me, a) && a.data.code == Ok {
        lost := a.data;
      }
    }
  }

  /** Notifications with code `Ok` are conserved, those sent being those told and the one kept, exactly in the runs
      in which none comes while another one is kept. */
  lemma NewsConservedExactly(me: Uuid, acts: seq<Action>)
    ensures OverlooksNone(me, acts) <==>
      forall d: PollData :: d.code == Ok ==>
        TimesNotified(me, acts, d) == TimesTold(Run(me, acts).history, d) + TimesKept(Run(me, acts), d)
  {
    var w := Run(me, acts);
    var lost := OverlookedCounted(me, acts);
    if OverlooksNone(me, acts) {
      forall d: PollData | d.code == Ok
        ensures TimesNotified(me, acts, d) == TimesTold(w.history, d) + TimesKept(w, d)
      {
        NewsAccounted(me, acts, d);
      }
    } else {
      NewsAccounted(me, acts, lost);
      assert TimesNotified(me, acts, lost) != TimesTold(w.history, lost) + TimesKept(w, lost);
    }
  }

  lemma NewsLostCounts(me: Uuid, d1: PollData, d2: PollData, t1: Ticket, h: History)
    requires d1 != d2 && h == Then(Then(Blank, Notified(d1)), Notified(d2))
    ensures var answered := Then(Then(Then(h, Accepted(t1)), Notified(d1)), Answered(t1, d1));
      TimesTold(answered, d1) == 1 && TimesTold(answered, d2) == 0
  {
    var first := Then(Blank, Notified(d1));
    assert TimesTold(first, d1) == 0 && TimesTold(first, d2) == 0;
    assert TimesTold(h, d1) == 0 && TimesTold(h, d2) == 0;
    var g := Then(Then(h, Accepted(t1)), Notified(d1));
    assert TimesTold(g, d1) == 0 && TimesTold(g, d2) == 0;
  }

  /** A run in which one is lost: the first of two notifications without a poll in between answers the next poll,
      the second is never told, and the poll after that is left hanging. */
  lemma NewsLost(me: Uuid, d1: PollData, d2: PollData, t1: Ticket, t2: Ticket)
    requires d1.code == d2.code == Ok && d1 != d2
    ensures var acts := [Action.Notify(me, d1), Action.Notify(me, d2),
                         Action.Subscribe(me, t1), Action.Subscribe(me, t2)];
      var w := Run(me, acts);
      && !OverlooksNone(me, acts)
      && TimesNotified(me, acts, d2) == 1 && TimesTold(w.history, d2) == 0 && TimesTold(w.history, d1) == 1
      && w.responder == Some(t2) && w.waiting.None?
  {
    var n1, n2 := Action.Notify(me, d1), Action.Notify(me, d2);
    var acts := [n1, n2, Action.Subscribe(me, t1), Action.Subscribe(me, t2)];
    assert acts[..3][..2] == [n1, n2] && [n1, n2][..1] == [n1] && [n1][..0] == [];
    var h := Then(Then(Blank, Notified(d1)), Notified(d2));
    assert Run(me, [n1]) == Watch(None, Some(d1), Then(Blank, Notified(d1)));
    assert Run(me, [n1, n2]) == Watch(None, Some(d1), h);
    var answered := Then(Then(Then(h, Accepted(t1)), Notified(d1)), Answered(t1, d1));
    assert Run(me, acts[..3]) == Watch(None, None, answered);
    assert Run(me, acts) == Watch(Some(t2), None, Then(answered, Accepted(t2)));
    NewsLostCounts(me, d1, d2, t1, h);
    assert TimesNotified(me, [n1], d2) == 0;
    assert !OverlooksNone(me, [n1, n2]) && TimesNotified(me, [n1, n2], d2) == 1;
    assert !OverlooksNone(me, acts[..3]) && TimesNotified(me, acts[..3], d2) == 1;
  }

  // ---------- what each call does in a run ----------

  /** The last responder accepted, unless it was called or dropped since. */
  function Hanging(h: History): Option<Ticket> {
    if h.Blank? then None
    else
      match h.last
      case Accepted(t) => Some(t)
      case Notified(_) => Hanging(h.past)
      case _ => None
  }

  lemma {:induction false} StoredHangs(me: Uuid, acts: seq<Action>)
    ensures Run(me, acts).responder == Hanging(Run(me, acts).history)
  {
    if acts == [] {
    } else {
      StoredHangs(me, acts[..|acts| - 1]);
    }
  }

  lemma RunSnoc(me: Uuid, acts: seq<Action>, a: Action)
    ensures Run(me, acts + [a]) == After(Run(me, acts), me, a)
  {
    assert (acts + [a])[..|acts|] == acts;
  }

  /** In every run, a new poll closes the one left hanging, is told the oldest unanswered notification at once,
      and is left hanging itself if there is none. */
  lemma SubscribeExactly(me: Uuid, acts: seq<Action>, t: Ticket)
    ensures var h := Run(me, acts).history;
      var v := Run(me, acts + [Action.Subscribe(me, t)]);
      var closing := PollData("new poll connected", PollClosed);
      var closed := if Hanging(h).None? then h
                    else Then(Then(h, Notified(closing)), Answered(Hanging(h).value, closing));
      && v.waiting.None?
      && if Unanswered(h).None? then
           v.responder == Some(t) && v.history == Then(closed, Accepted(t))
         else
           && v.responder.None?
           && v.history == Then(Then(Then(h, Accepted(t)), Notified(Unanswered(h).value)),
                                Answered(t, Unanswered(h).value))
  {
    assert REPLACED[0] == 'n';
    RunSnoc(me, acts, Action.Subscribe(me, t));
    StoredHangs(me, acts);
    OldestNotificationKept(me, acts);
  }

  /** In every run, a notification answers the poll left hanging, and is kept if there is none and it is the oldest. */
  lemma NotifyExactly(me: Uuid, acts: seq<Action>, d: PollData)
    ensures var h := Run(me, acts).history;
      var v := Run(me, acts + [Action.Notify(me, d)]);
      && v.responder.None?
      && if Hanging(h).Some? then
           v.waiting.None? && v.history == Then(Then(h, Notified(d)), Answered(Hanging(h).value, d))
         else
           v.history == Then(h, Notified(d)) && v.waiting == (if Unanswered(h).Some? then Unanswered(h) else Some(d))
  {
    RunSnoc(me, acts, Action.Notify(me, d));
    StoredHangs(me, acts);
    OldestNotificationKept(me, acts);
  }

  /** In every run, a dismissal ends the poll left hanging, telling it the reason unless that is empty, and leaves the
      kept notification. */
  lemma UnsubscribeExactly(me: Uuid, acts: seq<Action>, reason: string)
    ensures var h := Run(me, acts).history;
      var v := Run(me, acts + [Action.Unsubscribe(me, reason)]);
      var dismissal := PollData(reason, PollClosed);
      && v.responder.None? && v.waiting == Run(me, acts).waiting
      && v.history == if Hanging(h).None? then h
                      else if reason == "" then Then(h, Dropped(Hanging(h).value))
                      else Then(Then(h, Notified(dismissal)), Answered(Hanging(h).value, dismissal))
  {
    RunSnoc(me, acts, Action.Unsubscribe(me, reason));
    StoredHangs(me, acts);
    OldestNotificationKept(me, acts);
  }

  // ---------- the class ----------

  class QueueNotifier {
    var usersResponser: map<Uuid, Ticket>
    var pollWaiting: map<Uuid, PollData>
    ghost var histories: map<Uuid, History>

    ghost function HistoryOf(u: Uuid): History
      reads this
    {
      if u in histories then histories[u] else Blank
    }

    ghost function View(u: Uuid): Watch
      reads this
    {
      Watch(if u in usersResponser then Some(usersResponser[u]) else None,
            if u in pollWaiting then Some(pollWaiting[u]) else None,
            HistoryOf(u))
    }

    constructor ()
      ensures forall u :: View(u) == NEW_USER
    {
      usersResponser := map[];
      pollWaiting := map[];
      histories := map[];
    }

    ghost method Record(u: Uuid, e: Entry)
      modifies this`histories
      ensures forall v :: HistoryOf(v) == if v == u then Then(old(HistoryOf(v)), e) else old(HistoryOf(v))
    {
      histories := histories[u := Then(HistoryOf(u), e)];
    }

    /** The result says whether a hanging poll was answered. */
    method Notify(uuid: Uuid, data: PollData) returns (ok: bool)
      modifies this
      ensures forall u :: View(u) == After(old(View(u)), u, Action.Notify(uuid, data))
      ensures ok == old(View(uuid)).responder.Some?
      decreases 1
    {
      Record(uuid, Notified(data));
      if uuid in usersResponser {
        Record(uuid, Answered(usersResponser[uuid], data));
        ok := Unsubscribe(uuid, "", true);
        return;
      }
      if uuid !in pollWaiting {
        pollWaiting := pollWaiting[uuid := data];
      }
      ok := false;
    }

    /** `called` says that the stored responder has just been called. The result is false after a dismissal
        with a reason: the responder is already erased when the erasure is counted. */
    method Unsubscribe(uuid: Uuid, reason: string, ghost called: bool) returns (ok: bool)
      requires called ==> reason == ""
      modifies this
      ensures !called ==> forall u :: View(u) == After(old(View(u)), u, Action.Unsubscribe(uuid, reason))
      ensures called ==> forall u :: View(u) == if u == uuid then old(View(u)).(responder := None) else old(View(u))
      ensures ok == (reason == "" && old(View(uuid)).responder.Some?)
      decreases if reason == "" then 0 else 2
    {
      if reason != "" && uuid in usersResponser {
        var _ := Notify(uuid, PollData(reason, PollClosed));
      }
      ok := uuid in usersResponser;
      if ok {
        ghost var ticket := usersResponser[uuid];
        usersResponser := usersResponser - {uuid};
        if !called {
          Record(uuid, Dropped(ticket));
        }
      }
    }

    /** The result says whether the new poll is left hanging. */
    method Subscribe(uuid: Uuid, notifier: Ticket) returns (ok: bool)
      modifies this
      ensures forall u :: View(u) == After(old(View(u)), u, Action.Subscribe(uuid, notifier))
      ensures ok == View(uuid).responder.Some?
      decreases 3
    {
      assert REPLACED[0] == 'n';
      if uuid in usersResponser {
        var _ := Unsubscribe(uuid, REPLACED, false);
      }
      usersResponser := usersResponser[uuid := notifier];
      Record(uuid, Accepted(notifier));
      if uuid in pollWaiting {
        var _ := Notify(uuid, pollWaiting[uuid]);
        label delivered:
        pollWaiting := pollWaiting - {uuid};
        assert forall u :: View(u) ==
                 if u == uuid then old@delivered(View(u)).(waiting := None) else old@delivered(View(u));
      }
      ok := uuid in usersResponser;
    }
  }
}
