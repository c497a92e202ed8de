// The session cache (include/fastcgi++/http.hpp, class Sessions): lazy expiry and a
// periodic sweep, against a map in which nothing ever expires by itself.

module SessionCache {
  import opened BigEndian
  import opened Common

  /** The shared pointer to a session's data. */
  type Data = nat

  /** The data and the time of the last access. */
  datatype Entry = Entry(data: Data, time: int)

  type Table = map<bytes, Entry>

  datatype Cache = Cache(keepAlive: nat, cleanupTime: int, sessions: Table)

  // ---- The cache ------------------------------------------------------------

  function Sweep(m: Table, oldest: int): Table {
    map id | id in m && m[id].time >= oldest :: m[id]
  }

  /** The clock is read once, then again if the sweep is due, then to refresh. */
  datatype Times = Times(now: int, cleaned: int, refreshed: int)

  function SweepIfDue(c: Cache, t: Times): Cache {
    if t.now >= c.cleanupTime then
      c.(sessions := Sweep(c.sessions, t.now - c.keepAlive), cleanupTime := t.cleaned + c.keepAlive)
    else c
  }

  /** Sessions::get: expired entries are erased when they are met. */
  function Get(c: Cache, id: bytes, t: Times): (Cache, Option<Data>) {
    var c := SweepIfDue(c, t);
    if id !in c.sessions then (c, None)
    else if c.sessions[id].time < t.now - c.keepAlive then (c.(sessions := c.sessions - {id}), None)
    else (c.(sessions := c.sessions[id := c.sessions[id].(time := t.refreshed)]), Some(c.sessions[id].data))
  }

  function Insert(c: Cache, id: bytes, data: Data, now: int): Cache {
    c.(sessions := c.sessions[id := Entry(data, now)])
  }

  function Erase(c: Cache, id: bytes): Cache {
    c.(sessions := c.sessions - {id})
  }

  // ---- The simple map -------------------------------------------------------

  /** An entry is live if its last successful access is no older than keepAlive. */
  predicate Live(m: Table, id: bytes, keepAlive: nat, now: int) {
    id in m && m[id].time >= now - keepAlive
  }

  function Lookup(m: Table, id: bytes, keepAlive: nat, t: Times): (Table, Option<Data>) {
    if Live(m, id, keepAlive, t.now) then (m[id := m[id].(time := t.refreshed)], Some(m[id].data))
    else (m, None)
  }

  // ---- Histories ------------------------------------------------------------

  /** generate() draws identifiers until one is not stored; id is that one. */
  datatype Operation =
    | Generate(id: bytes, data: Data, now: int)
    | Find(id: bytes, times: Times)
    | Remove(id: bytes)

  datatype Result = Generated(id: bytes) | Found(data: Option<Data>) | Removed

  function Step(c: Cache, op: Operation): (Cache, Result) {
    match op
    case Generate(id, data, now) => (Insert(c, id, data, now), Generated(id))
    case Find(id, t) => var (c, r) := Get(c, id, t); (c, Found(r))
    case Remove(id) => (Erase(c, id), Removed)
  }

  function MapStep(m: Table, keepAlive: nat, op: Operation): (Table, Result) {
    match op
    case Generate(id, data, now) => (m[id := Entry(data, now)], Generated(id))
    case Find(id, t) => var (m, r) := Lookup(m, id, keepAlive, t); (m, Found(r))
    case Remove(id) => (m - {id}, Removed)
  }

  /** When the operation ends, if it began after the clock had shown some time and the
      clock does not go back. */
  predicate After(clock: int, op: Operation) {
    match op
    case Generate(_, _, now) => clock <= now
    case Find(_, t) => clock <= t.now <= t.cleaned <= t.refreshed
    case Remove(_) => true
  }

  function Clock(clock: int, op: Operation): int {
    match op
    case Generate(_, _, now) => now
    case Find(_, t) => t.refreshed
    case Remove(_) => clock
  }

  /** The operations take place one after the other, and every identifier generated is
      one that is not stored. */
  predicate Possible(c: Cache, clock: int, ops: seq<Operation>)
    decreases |ops|
  {
    ops != [] ==>
      && After(clock, ops[0]) && (ops[0].Generate? ==> ops[0].id !in c.sessions)
      && Possible(Step(c, ops[0]).0, Clock(clock, ops[0]), ops[1..])
  }

  function Results(c: Cache, ops: seq<Operation>): seq<Result>
    decreases |ops|
  {
    if ops == [] then [] else [Step(c, ops[0]).1] + Results(Step(c, ops[0]).0, ops[1..])
  }

  function MapResults(m: Table, keepAlive: nat, ops: seq<Operation>): seq<Result>
    decreases |ops|
  {
    if ops == [] then []
    else [MapStep(m, keepAlive, ops[0]).1] + MapResults(MapStep(m, keepAlive, ops[0]).0, keepAlive, ops[1..])
  }

  // ---- The sweep is invisible -----------------------------------------------

  /** What the cache stores is in the map, and what it dropped had expired. */
  predicate Agree(c: Cache, m: Table, clock: int) {
    && (forall id <- c.sessions :: id in m && m[id] == c.sessions[id])
    && (forall id <- m :: id !in c.sessions ==> m[id].time < clock - c.keepAlive)
  }

  lemma AgreeLater(c: Cache, m: Table, clock: int, later: int)
    requires Agree(c, m, clock) && clock <= later
    ensures Agree(c, m, later)
  {
  }

  lemma SweepAgrees(c: Cache, m: Table, t: Times)
    requires Agree(c, m, t.now)
    ensures Agree(SweepIfDue(c, t), m, t.now)
  {
  }

  lemma GetAgrees(c: Cache, m: Table, id: bytes, t: Times)
    requires Agree(c, m, t.now) && t.now <= t.refreshed
    ensures var (d, r) := Get(c, id, t);
      var (n, q) := Lookup(m, id, c.keepAlive, t);
      r == q && Agree(d, n, t.refreshed) && d.keepAlive == c.keepAlive
  {
    SweepAgrees(c, m, t);
  }

  lemma StepAgrees(c: Cache, m: Table, clock: int, op: Operation)
    requires Agree(c, m, clock) && After(clock, op)
    ensures Step(c, op).1 == MapStep(m, c.keepAlive, op).1
    ensures Agree(Step(c, op).0, MapStep(m, c.keepAlive, op).0, Clock(clock, op))
    ensures Step(c, op).0.keepAlive == c.keepAlive
  {
    match op {
      case Generate(_, _, now) => AgreeLater(c, m, clock, now);
      case Find(id, t) =>
        AgreeLater(c, m, clock, t.now);
        GetAgrees(c, m, id, t);
      case Remove(_) =>
    }
  }

  lemma {:induction false} SameResults(c: Cache, m: Table, clock: int, ops: seq<Operation>)
    requires Agree(c, m, clock) && Possible(c, clock, ops)
    ensures Results(c, ops) == MapResults(m, c.keepAlive, ops)
    decreases |ops|
  {
    if ops != [] {
      StepAgrees(c, m, clock, ops[0]);
      SameResults(Step(c, ops[0]).0, MapStep(m, c.keepAlive, ops[0]).0, Clock(clock, ops[0]), ops[1..]);
    }
  }

  /** Under a clock that does not go back, whenever the sweep is due: generate, get and
      erase give the results of the simple map. */
  lemma SweepIsInvisible(keepAlive: nat, cleanupTime: int, start: int, ops: seq<Operation>)
    requires Possible(Cache(keepAlive, cleanupTime, map[]), start, ops)
    ensures Results(Cache(keepAlive, cleanupTime, map[]), ops) == MapResults(map[], keepAlive, ops)
  {
    SameResults(Cache(keepAlive, cleanupTime, map[]), map[], start, ops);
  }

  /** Only size() shows whether a sweep took place: a live entry is always stored, an
      expired one may be. */
  lemma StoredSessions(c: Cache, m: Table, clock: int)
    requires Agree(c, m, clock)
    ensures forall id <- m :: Live(m, id, c.keepAlive, clock) ==> id in c.sessions
    ensures c.sessions.Keys <= m.Keys
  {
  }

  /** Whatever was swept or not, all results to come are the same: two caches that
      agree with one map cannot be told apart by generate, get and erase. */
  lemma SweepsDoNotTell(c: Cache, d: Cache, m: Table, clock: int, ops: seq<Operation>)
    requires Agree(c, m, clock) && Agree(d, m, clock) && c.keepAlive == d.keepAlive
    requires Possible(c, clock, ops) && Possible(d, clock, ops)
    ensures Results(c, ops) == Results(d, ops)
  {
    SameResults(c, m, clock, ops);
    SameResults(d, m, clock, ops);
  }

  /** But size() tells: a sweep makes it smaller exactly if an expired entry is stored. */
  lemma SizeShowsSweep(m: Table, oldest: int)
    ensures |Sweep(m, oldest)| <= |m|
    ensures |Sweep(m, oldest)| < |m| <==> exists id :: id in m && m[id].time < oldest
  {
    var swept := Sweep(m, oldest);
    assert swept.Keys <= m.Keys;
    Smaller(swept.Keys, m.Keys);
    forall id | id in m && m[id].time < oldest ensures swept.Keys != m.Keys {
      assert id in m.Keys && id !in swept.Keys;
    }
    if swept.Keys != m.Keys {
      var id :| id in m.Keys && id !in swept.Keys;
      assert m[id].time < oldest;
    }
  }

  // ---- How long a session is stored -----------------------------------------

  function Final(c: Cache, ops: seq<Operation>): Cache
    decreases |ops|
  {
    if ops == [] then c else Final(Step(c, ops[0]).0, ops[1..])
  }

  /** Between the two readings of the clock around a sweep no more than this goes by. */
  predicate Prompt(op: Operation, slack: nat) {
    op.Find? ==> op.times.cleaned <= op.times.now + slack
  }

  /** The next sweep is no more than keepAlive away, and the last one left nothing that
      was too old. */
  predicate Swept(c: Cache, clock: int, slack: nat) {
    && c.cleanupTime <= clock + c.keepAlive
    && forall id <- c.sessions :: c.sessions[id].time >= c.cleanupTime - 2 * c.keepAlive - slack
  }

  lemma StepSwept(c: Cache, clock: int, op: Operation, slack: nat)
    requires Swept(c, clock, slack) && After(clock, op) && Prompt(op, slack)
    ensures Swept(Step(c, op).0, Clock(clock, op), slack)
  {
  }

  /** No entry is older than two periods before the time t. */
  predicate Recent(d: Cache, keepAlive: nat, now: int, slack: nat) {
    forall id <- d.sessions :: d.sessions[id].time >= now - 2 * keepAlive - slack
  }

  lemma AfterFind(c: Cache, clock: int, op: Operation, slack: nat)
    requires Swept(c, clock, slack) && After(clock, op) && Prompt(op, slack) && op.Find?
    ensures Recent(Step(c, op).0, c.keepAlive, op.times.now, slack)
  {
  }

  lemma KeepAliveStays(c: Cache, op: Operation)
    ensures Step(c, op).0.keepAlive == c.keepAlive
  {
  }

  /** A session that was not used for two keepAlive periods is not stored any more once
      get() was called: the sweeps come often enough and leave nothing out. */
  lemma {:induction false} NothingLingers(c: Cache, clock: int, ops: seq<Operation>, slack: nat)
    requires Swept(c, clock, slack) && Possible(c, clock, ops) && forall op <- ops :: Prompt(op, slack)
    requires ops != [] && ops[|ops| - 1].Find?
    ensures Recent(Final(c, ops), c.keepAlive, ops[|ops| - 1].times.now, slack)
    decreases |ops|
  {
    hide After, Clock, Prompt, Swept, Recent, Step;
    assert ops[0] in ops;
    StepSwept(c, clock, ops[0], slack);
    var d, rest := Step(c, ops[0]).0, ops[1..];
    assert Final(c, ops) == Final(d, rest);
    if rest == [] {
      AfterFind(c, clock, ops[0], slack);
      assert Final(d, rest) == d;
    } else {
      assert rest[|rest| - 1] == ops[|ops| - 1];
      KeepAliveStays(c, ops[0]);
      NothingLingers(d, Clock(clock, ops[0]), rest, slack);
    }
  }

  /** A sweep that is due leaves no expired session; one that is not takes none but the one
      asked for. */
  lemma DueSweepClears(c: Cache, id: bytes, t: Times)
    requires t.now <= t.refreshed
    ensures var d := Get(c, id, t).0;
      if t.now >= c.cleanupTime then
        && (forall x <- d.sessions :: Live(d.sessions, x, c.keepAlive, t.now))
        && d.cleanupTime == t.cleaned + c.keepAlive
      else d.sessions.Keys >= c.sessions.Keys - {id} && d.cleanupTime == c.cleanupTime
  {
  }

  lemma {:induction false} Smaller(a: set<bytes>, b: set<bytes>)
    requires a <= b
    ensures |a| <= |b| && (|a| == |b| ==> a == b)
    decreases |a|
  {
    if x :| x in a {
      Smaller(a - {x}, b - {x});
      assert a == a - {x} + {x} && b == b - {x} + {x};
    }
  }
}

/** The class that does this in place. */
module SessionStore {
  import opened BigEndian
  import opened Common
  import opened SessionCache

  class Sessions {
    const keepAlive: nat
    var cleanupTime: int
    var sessions: Table

    ghost function Abs(): Cache
      reads this
    {
      Cache(keepAlive, cleanupTime, sessions)
    }

    constructor (k: nat, now: int)
      ensures Abs() == Cache(k, now + k, map[])
    {
      keepAlive, cleanupTime, sessions := k, now + k, map[];
    }

    method Get(id: bytes, t: Times) returns (r: Option<Data>)
      modifies this
      ensures (Abs(), r) == SessionCache.Get(old(Abs()), id, t)
    {
      var oldest := t.now - keepAlive;
      if t.now >= cleanupTime {
        Cleanup(oldest);
        cleanupTime := t.cleaned + keepAlive;
      }
      r := None;
      if id in sessions {
        if sessions[id].time < oldest {
          sessions := sessions - {id};
        } else {
          r := Some(sessions[id].data);
          sessions := sessions[id := sessions[id].(time := t.refreshed)];
        }
      }
    }

    /** The loop over all sessions. */
    method Cleanup(oldest: int)
      modifies this`sessions
      ensures sessions == Sweep(old(sessions), oldest)
    {
      var ids := sessions.Keys;
      while ids != {}
        invariant ids <= sessions.Keys && Sweep(sessions, oldest) == Sweep(old(sessions), oldest)
        invariant forall id <- sessions.Keys - ids :: sessions[id].time >= oldest
        decreases |ids|
      {
        var id :| id in ids;
        ids := ids - {id};
        if sessions[id].time < oldest {
          sessions := sessions - {id};
        }
      }
    }

    /** The identifiers drawn at random, up to one that is new: that is the one used. */
    method Generate(draws: seq<bytes>, data: Data, now: int) returns (id: bytes)
      requires exists k :: 0 <= k < |draws| && draws[k] !in sessions
      modifies this
      ensures exists k :: && 0 <= k < |draws| && id == draws[k] && id !in old(sessions)
                          && forall j | 0 <= j < k :: draws[j] in old(sessions)
      ensures Abs() == Insert(old(Abs()), id, data, now)
    {
      var k := 0;
      while draws[k] in sessions
        invariant 0 <= k < |draws| && forall j | 0 <= j < k :: draws[j] in sessions
        decreases |draws| - k
      {
        k := k + 1;
      }
      id := draws[k];
      sessions := sessions[id := Entry(data, now)];
    }

    method Erase(id: bytes)
      modifies this
      ensures Abs() == SessionCache.Erase(old(Abs()), id)
    {
      sessions := sessions - {id};
    }
  }
}
