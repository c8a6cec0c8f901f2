/** `ConnectionPool`: connections handed out of an array and returned in any order. */
module ConnectionPools {
  import opened Board

  /** A connection is a token: what it connects to is not modelled. */
  type Connection = nat

  const MAX_CONNECTION_COUNT := 80

  /** The pool as a value: its slots, `used_connections_`, and the connections held by wrappers. */
  datatype Pool = Pool(slots: seq<Option<Connection>>, used: nat, held: multiset<Connection>)

  function Full(conns: seq<Connection>): Pool {
    Pool(seq(|conns|, i requires 0 <= i < |conns| => Some(conns[i])), 0, multiset{})
  }

  function PooledOne(slot: Option<Connection>): multiset<Connection> {
    if slot.Some? then multiset{slot.value} else multiset{}
  }

  /** The connections in the slots. */
  function Pooled(slots: seq<Option<Connection>>): multiset<Connection> {
    if slots == [] then multiset{} else PooledOne(slots[0]) + Pooled(slots[1..])
  }

  /** A wrapper asks for a connection, or gives one back. */
  datatype Step = Acquire | Return(conn: Connection)

  /** A wrapper waits until a connection is free, and only returns what it holds. */
  predicate Enabled(p: Pool, s: Step) {
    match s
    case Acquire => p.used < |p.slots|
    case Return(c) => c in p.held
  }

  /** `used_connections_` counts the connections held; the slots below it are empty, the others full. */
  ghost predicate InOrder(p: Pool) {
    && p.used <= |p.slots| && |p.held| == p.used
    && (forall i :: 0 <= i < p.used ==> p.slots[i].None?)
    && (forall i :: p.used <= i < |p.slots| ==> p.slots[i].Some?)
  }

  /** The assertion in `ReturnConnection`: a held connection means that some are in use. */
  lemma HeldIsUsed(p: Pool, c: Connection)
    requires InOrder(p) && c in p.held
    ensures p.used > 0
  {
    assert multiset{c} <= p.held;
  }

  function After(p: Pool, s: Step): Pool
    requires InOrder(p) && Enabled(p, s)
  {
    match s
    case Acquire =>
      Pool(p.slots[p.used := None], p.used + 1, p.held + multiset{p.slots[p.used].value})
    case Return(c) =>
      HeldIsUsed(p, c);
      Pool(p.slots[p.used - 1 := Some(c)], p.used - 1, p.held - multiset{c})
  }

  lemma PooledCons(slot: Option<Connection>, rest: seq<Option<Connection>>)
    ensures Pooled([slot] + rest) == PooledOne(slot) + Pooled(rest)
  {
    assert ([slot] + rest)[1..] == rest;
  }

  lemma PooledFirst(slots: seq<Option<Connection>>, rest: seq<Option<Connection>>, c: Connection)
    requires slots != [] && slots[0].None? && rest == slots[1..]
    ensures Pooled(slots[0 := Some(c)]) == Pooled(slots) + multiset{c}
  {
    assert slots[0 := Some(c)] == [Some(c)] + rest;
    PooledCons(Some(c), rest);
    assert multiset{c} + Pooled(rest) == Pooled(rest) + multiset{c};
  }

  lemma Regroup(m: multiset<Connection>, n: multiset<Connection>, c: Connection)
    ensures m + (n + multiset{c}) == (m + n) + multiset{c}
  {
  }

  lemma PooledLater(slots: seq<Option<Connection>>, first: Option<Connection>, rest: seq<Option<Connection>>,
                    updated: seq<Option<Connection>>, c: Connection)
    requires slots != [] && first == slots[0] && rest == slots[1..] && Pooled(updated) == Pooled(rest) + multiset{c}
    ensures Pooled([first] + updated) == Pooled(slots) + multiset{c}
  {
    PooledCons(first, updated);
    Regroup(PooledOne(first), Pooled(rest), c);
  }

  lemma {:induction false} PooledUpdate(slots: seq<Option<Connection>>, i: nat, c: Connection)
    requires i < |slots| && slots[i].None?
    ensures Pooled(slots[i := Some(c)]) == Pooled(slots) + multiset{c}
  {
    var first, rest := slots[0], slots[1..];
    if i == 0 {
      PooledFirst(slots, rest, c);
    } else {
      PooledUpdate(rest, i - 1, c);
      PooledLater(slots, first, rest, rest[i - 1 := Some(c)], c);
      assert slots[i := Some(c)] == [first] + rest[i - 1 := Some(c)];
    }
  }

  lemma AfterInOrder(p: Pool, s: Step)
    requires InOrder(p) && Enabled(p, s)
    ensures InOrder(After(p, s))
  {
    if s.Return? {
      HeldIsUsed(p, s.conn);
    }
  }

  lemma Give(pooled: multiset<Connection>, held: multiset<Connection>, c: Connection)
    ensures pooled + (held + multiset{c}) == (pooled + multiset{c}) + held
  {
  }

  lemma AcquireConserves(p: Pool)
    requires InOrder(p) && Enabled(p, Acquire)
    ensures Pooled(After(p, Acquire).slots) + After(p, Acquire).held == Pooled(p.slots) + p.held
  {
    var slots, c := p.slots[p.used := None], p.slots[p.used].value;
    PooledUpdate(slots, p.used, c);
    assert slots[p.used := Some(c)] == p.slots;
    Give(Pooled(slots), p.held, c);
  }

  lemma Take(pooled: multiset<Connection>, held: multiset<Connection>, c: Connection)
    requires c in held
    ensures (pooled + multiset{c}) + (held - multiset{c}) == pooled + held
  {
  }

  /** A step moves one connection between the pool and its wrappers. */
  lemma AfterConserves(p: Pool, s: Step)
    requires InOrder(p) && Enabled(p, s)
    ensures Pooled(After(p, s).slots) + After(p, s).held == Pooled(p.slots) + p.held
  {
    match s
    case Acquire => AcquireConserves(p);
    case Return(c) =>
      HeldIsUsed(p, c);
      PooledUpdate(p.slots, p.used - 1, c);
      Take(Pooled(p.slots), p.held, c);
  }

  /** The pool after an interleaving of acquisitions and returns; `None` if some step was not enabled. */
  function Run(conns: seq<Connection>, steps: seq<Step>): Option<Pool>
    ensures Run(conns, steps).Some? ==> InOrder(Run(conns, steps).value)
  {
    if steps == [] then Some(Full(conns))
    else
      var before := Run(conns, steps[..|steps| - 1]);
      if before.None? || !Enabled(before.value, steps[|steps| - 1]) then None
      else
        AfterInOrder(before.value, steps[|steps| - 1]);
        Some(After(before.value, steps[|steps| - 1]))
  }

  lemma {:induction false} PooledFull(conns: seq<Connection>)
    ensures Pooled(Full(conns).slots) == multiset(conns)
  {
    if conns == [] {
    } else {
      PooledFull(conns[1..]);
      assert Full(conns).slots[1..] == Full(conns[1..]).slots;
      assert conns == [conns[0]] + conns[1..];
    }
  }

  /** Over every interleaving the connections held and those in the pool are exactly the initial ones. */
  lemma {:induction false} ConnectionsConserved(conns: seq<Connection>, steps: seq<Step>)
    requires Run(conns, steps).Some?
    ensures var p := Run(conns, steps).value;
      InOrder(p) && |p.slots| == |conns| && Pooled(p.slots) + p.held == multiset(conns)
  {
    if steps == [] {
      PooledFull(conns);
    } else {
      ConnectionsConserved(conns, steps[..|steps| - 1]);
      AfterConserves(Run(conns, steps[..|steps| - 1]).value, steps[|steps| - 1]);
    }
  }

  /** Different connections are never held twice, nor held and pooled at once. */
  lemma NoConnectionShared(conns: seq<Connection>, steps: seq<Step>, c: Connection)
    requires Run(conns, steps).Some? && multiset(conns)[c] <= 1
    ensures var p := Run(conns, steps).value; p.held[c] + Pooled(p.slots)[c] <= 1
  {
    ConnectionsConserved(conns, steps);
    var p := Run(conns, steps).value;
    assert (Pooled(p.slots) + p.held)[c] == multiset(conns)[c];
  }

  class ConnectionPool {
    const pool: array<Option<Connection>>
    var usedConnections: nat
    ghost var held: multiset<Connection>

    ghost function State(): Pool
      reads this, pool
    {
      Pool(pool[..], usedConnections, held)
    }

    /** `conns` are the connections the factory makes. */
    constructor (conns: seq<Connection>)
      requires |conns| == MAX_CONNECTION_COUNT
      ensures State() == Full(conns) && fresh(pool)
    {
      pool := new Option<Connection>[|conns|](i requires 0 <= i < |conns| => Some(conns[i]));
      usedConnections := 0;
      held := multiset{};
    }

    /** Enabled once the condition variable's predicate holds. */
    method GetConnection() returns (conn: Connection)
      requires InOrder(State()) && Enabled(State(), Acquire)
      modifies this, pool
      ensures State() == After(old(State()), Acquire) && InOrder(State())
      ensures held == old(held) + multiset{conn}
    {
      AfterInOrder(State(), Acquire);
      conn := pool[usedConnections].value;
      pool[usedConnections] := None;
      usedConnections := usedConnections + 1;
      held := held + multiset{conn};
    }

    /** Called when a wrapper that still holds its connection is destroyed. */
    method ReturnConnection(conn: Connection)
      requires InOrder(State()) && Enabled(State(), Return(conn))
      modifies this, pool
      ensures State() == After(old(State()), Return(conn)) && InOrder(State())
    {
      AfterInOrder(State(), Return(conn));
      HeldIsUsed(State(), conn);
      usedConnections := usedConnections - 1;
      pool[usedConnections] := Some(conn);
      held := held - multiset{conn};
    }
  }
}
