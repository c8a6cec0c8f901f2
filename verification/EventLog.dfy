/** `EventListWrapper`: the log of a session and its index by move number. */
module EventLog {
  import opened Board

  /** The fields of the wrapper as a value. */
  datatype Log = Log(value: seq<Event>, fromMove: seq<nat>, moveNumber: int)

  const EMPTY_LOG := Log([], [], 0)

  /** The move number of the last event, 0 for an empty log. */
  function LastMove(v: seq<Event>): int {
    if v == [] then 0 else v[|v| - 1].moveNumber
  }

  /** `AddEvent`; `None` is the thrown `logic_error`. */
  function Add(l: Log, e: Event): Option<Log> {
    var n := l.moveNumber;
    if n < (if l.value == [] then 1 else LastMove(l.value)) then None
    else
      Some(l.(value := l.value + [Stamp(e, n)],
              fromMove := if n == LastMove(l.value) + 1 then l.fromMove + [|l.value|] else l.fromMove))
  }

  /** `AddEvents`, one event after the other. */
  function AddAll(l: Log, es: seq<Event>): Option<Log>
    decreases es
  {
    if es == [] then Some(l)
    else
      match Add(l, es[0])
      case None => None
      case Some(m) => AddAll(m, es[1..])
  }

  /** The simple form of `FromMove`: the events with move number at least `k`. */
  function Since(v: seq<Event>, k: int): seq<Event> {
    if v == [] then [] else (if v[0].moveNumber >= k then [v[0]] else []) + Since(v[1..], k)
  }

  function Stamped(es: seq<Event>, n: int): (r: seq<Event>)
    ensures |r| == |es| && forall i :: 0 <= i < |es| ==> r[i] == Stamp(es[i], n)
  {
    seq(|es|, i requires 0 <= i < |es| => Stamp(es[i], n))
  }

  ghost predicate NonDecreasing(v: seq<Event>) {
    forall i, j :: 0 <= i <= j < |v| ==> v[i].moveNumber <= v[j].moveNumber
  }

  /** `p` is the position of the first event of move `m`. */
  ghost predicate FirstOf(v: seq<Event>, m: int, p: nat) {
    p < |v| && v[p].moveNumber == m && forall j :: 0 <= j < p ==> v[j].moveNumber < m
  }

  /** Move numbers run from 1 to the last one without gaps or descents,
      and the index holds the first position of each. */
  ghost predicate IndexAgrees(l: Log) {
    && NonDecreasing(l.value)
    && (l.value != [] ==> l.value[0].moveNumber >= 1)
    && |l.fromMove| == LastMove(l.value)
    && forall m :: 0 <= m < |l.fromMove| ==> FirstOf(l.value, m + 1, l.fromMove[m])
  }

  lemma {:induction false} SinceConcat(v: seq<Event>, w: seq<Event>, k: int)
    ensures Since(v + w, k) == Since(v, k) + Since(w, k)
  {
    if v == [] {
      assert v + w == w;
    } else {
      assert (v + w)[0] == v[0] && (v + w)[1..] == v[1..] + w;
      SinceConcat(v[1..], w, k);
      Associate(if v[0].moveNumber >= k then [v[0]] else [], Since(v[1..], k), Since(w, k));
    }
  }

  lemma {:induction false} SinceNone(v: seq<Event>, k: int)
    requires forall e :: e in v ==> e.moveNumber < k
    ensures Since(v, k) == []
  {
    if v == [] {
    } else {
      SinceNone(v[1..], k);
    }
  }

  lemma {:induction false} SinceAll(v: seq<Event>, k: int)
    requires forall e :: e in v ==> e.moveNumber >= k
    ensures Since(v, k) == v
  {
    if v == [] {
    } else {
      SinceAll(v[1..], k);
    }
  }

  /** In a non-decreasing log the events from move `k` on are a suffix. */
  lemma SinceSuffix(v: seq<Event>, k: int, p: nat)
    requires p <= |v|
    requires forall j :: 0 <= j < p ==> v[j].moveNumber < k
    requires forall j :: p <= j < |v| ==> v[j].moveNumber >= k
    ensures Since(v, k) == v[p..]
  {
    assert v == v[..p] + v[p..];
    SinceConcat(v[..p], v[p..], k);
    SinceNone(v[..p], k);
    SinceAll(v[p..], k);
  }

  /** `FromMove` on the fields, as the code computes it. */
  function IndexedFrom(l: Log, k: int): seq<Event>
    requires 1 <= k <= |l.fromMove| ==> l.fromMove[k - 1] <= |l.value|
  {
    if k < 1 then l.value
    else if k > |l.fromMove| then []
    else l.value[l.fromMove[k - 1]..]
  }

  /** With an agreeing index, `FromMove` is the filter by move number, for every integer. */
  lemma FromMoveIsSince(l: Log, k: int)
    requires IndexAgrees(l)
    ensures 1 <= k <= |l.fromMove| ==> l.fromMove[k - 1] <= |l.value|
    ensures IndexedFrom(l, k) == Since(l.value, k)
  {
    if k < 1 {
      SinceSuffix(l.value, k, 0);
    } else if k > |l.fromMove| {
      SinceSuffix(l.value, k, |l.value|);
    } else {
      assert FirstOf(l.value, k, l.fromMove[k - 1]);
      SinceSuffix(l.value, k, l.fromMove[k - 1]);
    }
  }

  /** Adding one event keeps the index agreeing exactly when the current move number
      is not beyond the one after the last logged move. */
  lemma AddKeepsIndex(l: Log, e: Event)
    requires IndexAgrees(l) && Add(l, e).Some?
    ensures IndexAgrees(Add(l, e).value) <==> l.moveNumber <= LastMove(l.value) + 1
  {
    var m := Add(l, e).value;
    var n := l.moveNumber;
    assert LastMove(m.value) == n;
    if n <= LastMove(l.value) + 1 {
      forall k | 0 <= k < |m.fromMove| ensures FirstOf(m.value, k + 1, m.fromMove[k]) {
        if k < |l.fromMove| {
          assert FirstOf(l.value, k + 1, l.fromMove[k]);
        }
      }
    }
  }

  /** `Session` sets the move number to the last one logged or to the next one. */
  predicate InStep(l: Log) {
    1 <= l.moveNumber && LastMove(l.value) <= l.moveNumber <= LastMove(l.value) + 1
  }

  /** `m` is `l` with the stamped events `es` appended, its index still agreeing;
      the index grows by one entry when the move is new. */
  ghost predicate Appended(l: Log, es: seq<Event>, m: Log) {
    && IndexAgrees(m) && m.moveNumber == l.moveNumber
    && m.value == l.value + Stamped(es, l.moveNumber)
    && LastMove(m.value) == (if es == [] then LastMove(l.value) else l.moveNumber)
    && m.fromMove == l.fromMove + (if es != [] && l.moveNumber > LastMove(l.value) then [|l.value|] else [])
  }

  lemma AddAppends(l: Log, e: Event)
    requires IndexAgrees(l) && InStep(l)
    ensures Add(l, e).Some? && Appended(l, [e], Add(l, e).value)
  {
    AddKeepsIndex(l, e);
    assert Stamped([e], l.moveNumber) == [Stamp(e, l.moveNumber)];
  }

  lemma AppendedThen(l: Log, es: seq<Event>, m: Log, fs: seq<Event>, r: Log)
    requires es != [] && Appended(l, es, m) && Appended(m, fs, r)
    ensures Appended(l, es + fs, r)
  {
    assert Stamped(es + fs, l.moveNumber) == Stamped(es, l.moveNumber) + Stamped(fs, l.moveNumber);
    Associate(l.value, Stamped(es, l.moveNumber), Stamped(fs, l.moveNumber));
  }

  /** As `Session` drives the log, adding never throws, appends the stamped events and keeps the index. */
  lemma {:induction false} AddAllAppends(l: Log, es: seq<Event>)
    requires IndexAgrees(l) && InStep(l)
    ensures AddAll(l, es).Some? && Appended(l, es, AddAll(l, es).value)
    decreases es
  {
    if es == [] {
      assert l.value + Stamped(es, l.moveNumber) == l.value;
    } else {
      var m := Add(l, es[0]).value;
      AddAppends(l, es[0]);
      AddAllAppends(m, es[1..]);
      AppendedThen(l, [es[0]], m, es[1..], AddAll(m, es[1..]).value);
      assert es == [es[0]] + es[1..];
    }
  }

  lemma {:induction false} AddAllConcat(l: Log, es: seq<Event>, fs: seq<Event>)
    ensures AddAll(l, es + fs) ==
            (match AddAll(l, es) case None => None case Some(m) => AddAll(m, fs))
    decreases es
  {
    if es == [] {
      assert es + fs == fs;
    } else {
      assert (es + fs)[0] == es[0] && (es + fs)[1..] == es[1..] + fs;
      if Add(l, es[0]).Some? {
        AddAllConcat(Add(l, es[0]).value, es[1..], fs);
      }
    }
  }

  class EventListWrapper {
    var moveNumber: int
    var fromMove: seq<nat>
    var value: seq<Event>

    function State(): Log
      reads this
    {
      Log(value, fromMove, moveNumber)
    }

    constructor ()
      ensures State() == EMPTY_LOG
    {
      moveNumber := 0;
      fromMove := [];
      value := [];
    }

    method Clear()
      modifies this
      ensures State() == EMPTY_LOG
    {
      fromMove := [];
      value := [];
      moveNumber := 0;
    }

    method SetMoveNumber(mn: int)
      modifies this`moveNumber
      ensures State() == old(State()).(moveNumber := mn)
    {
      moveNumber := mn;
    }

    /** `threw` reports the `logic_error`; the log is then unchanged. */
    method AddEvent(event: Event) returns (threw: bool)
      modifies this
      ensures match Add(old(State()), event)
              case None => threw && State() == old(State())
              case Some(l) => !threw && State() == l
    {
      var stamped := Stamp(event, moveNumber);
      if moveNumber < (if |value| != 0 then value[|value| - 1].moveNumber else 1) {
        return true;
      }
      if moveNumber == (if |value| != 0 then value[|value| - 1].moveNumber + 1 else 1) {
        fromMove := fromMove + [|value|];
      }
      value := value + [stamped];
      threw := false;
    }

    method AddEvents(events: seq<Event>) returns (threw: bool)
      modifies this
      ensures match AddAll(old(State()), events)
              case None => threw
              case Some(l) => !threw && State() == l
    {
      var i := 0;
      while i < |events|
        invariant 0 <= i <= |events|
        invariant AddAll(State(), events[i..]) == AddAll(old(State()), events)
      {
        threw := AddEvent(events[i]);
        if threw {
          return;
        }
        assert events[i..][1..] == events[i + 1..];
        i := i + 1;
      }
      threw := false;
    }

    /** The index must not point beyond the log. */
    method FromMove(k: int) returns (r: seq<Event>)
      requires 1 <= k <= |fromMove| ==> fromMove[k - 1] <= |value|
      ensures r == IndexedFrom(State(), k)
      ensures IndexAgrees(State()) ==> r == Since(value, k)
    {
      if IndexAgrees(State()) {
        FromMoveIsSince(State(), k);
      }
      if k < 1 {
        return value;
      }
      if k > |fromMove| {
        return [];
      }
      r := value[fromMove[k - 1]..];
    }
  }
}
