/**
 The subscription cache: entries live eight seconds, end with the first of their
 clients' entitlements, and are dropped when the configuration changes.
 */
module SubscriptionCache {
  import opened Wrappers

  /** Time is in nanoseconds, entitlements in seconds. */
  const SECOND: int := 1_000_000_000
  const TTL: int := 8 * SECOND
  const GC_INTERVAL: int := 60 * SECOND

  /** UUID, format, server address and dual-stack flag. */
  datatype Key = Key(uuid: string, format: string, server: string, dualStack: bool)

  /** One enabled client on one enabled inbound; 0 never expires. */
  datatype Row = Row(node: string, expiry: int)

  /** `epoch` counts the invalidations before the rows were read. */
  datatype Entry = Entry(rows: seq<Row>, storedAt: int, expiresAt: Option<int>, epoch: nat)

  predicate Expired(r: Row, now: int) { 0 < r.expiry && r.expiry * SECOND <= now }

  function Active(rows: seq<Row>, now: int): (active: seq<Row>)
    ensures forall r <- active :: r in rows && !Expired(r, now)
    ensures forall r <- rows :: Expired(r, now) || r in active
  {
    if rows == [] then []
    else (if Expired(rows[0], now) then [] else [rows[0]]) + Active(rows[1..], now)
  }

  /** The earliest end of an entitlement, if any ends. */
  function Earliest(rows: seq<Row>): Option<int> {
    if rows == [] then None
    else
      var n := |rows| - 1;
      var before := Earliest(rows[..n]);
      var e := rows[n].expiry * SECOND;
      if rows[n].expiry == 0 then before
      else if before.None? || e < before.value then Some(e)
      else before
  }

  lemma {:induction false} EarliestIsFirst(rows: seq<Row>)
    ensures forall r <- rows :: r.expiry != 0 ==> Earliest(rows).Some? && Earliest(rows).value <= r.expiry * SECOND
    ensures Earliest(rows).Some? ==> exists r <- rows :: r.expiry != 0 && Earliest(rows).value == r.expiry * SECOND
  {
    if rows != [] {
      var n := |rows| - 1;
      EarliestIsFirst(rows[..n]);
      assert rows == rows[..n] + [rows[n]] && rows[n] in rows;
      assert forall r <- rows :: r in rows[..n] || r == rows[n];
    }
  }

  method EarliestExpiry(rows: seq<Row>) returns (expiresAt: Option<int>)
    ensures expiresAt == Earliest(rows)
  {
    expiresAt := None;
    for i := 0 to |rows|
      invariant expiresAt == Earliest(rows[..i])
    {
      assert rows[..i + 1][..i] == rows[..i];
      if rows[i].expiry != 0 {
        var e := rows[i].expiry * SECOND;
        if expiresAt.None? || e < expiresAt.value {
          expiresAt := Some(e);
        }
      }
    }
    assert rows[..|rows|] == rows;
  }

  /** The entitlements of an entry have not begun to end. */
  predicate Alive(expiresAt: Option<int>, now: int) { expiresAt.None? || now < expiresAt.value }

  predicate Usable(e: Entry, now: int) { now - e.storedAt <= TTL && Alive(e.expiresAt, now) }

  type Entries = map<Key, Entry>

  function Hit(entries: Entries, key: Key, now: int): Option<Entry> {
    if key in entries && Usable(entries[key], now) then Some(entries[key]) else None
  }

  function Looked(entries: Entries, key: Key, now: int): Entries {
    if key in entries && !Usable(entries[key], now) then entries - {key} else entries
  }

  function Swept(entries: Entries, now: int): Entries {
    map k | k in entries && Usable(entries[k], now) :: entries[k]
  }

  function Stored(entries: Entries, gc: int, key: Key, e: Entry, now: int): (Entries, int) {
    if now - gc > GC_INTERVAL then (Swept(entries[key := e], now), now) else (entries[key := e], gc)
  }

  /** Looking up and sweeping never cost a hit. */
  lemma SweepingLosesNoHit(entries: Entries, gc: int, key: Key, e: Entry, other: Key, now: int, later: int)
    requires now <= later
    ensures Hit(Looked(entries, other, now), key, later) == Hit(entries, key, later)
    ensures Hit(Stored(entries, gc, key, e, now).0, other, later) == if other == key then (if Usable(e, later) then Some(e) else None)
                                                                     else Hit(entries, other, later)
  {
  }

  class Cache {
    var entries: Entries
    var gcAt: int

    constructor ()
      ensures entries == map[]
    {
      entries, gcAt := map[], 0;
    }

    method Get(key: Key, now: int) returns (hit: Option<Entry>)
      modifies this`entries
      ensures hit == Hit(old(entries), key, now)
      ensures entries == Looked(old(entries), key, now)
    {
      if key !in entries {
        return None;
      }
      var e := entries[key];
      if now - e.storedAt > TTL || (e.expiresAt.Some? && !(now < e.expiresAt.value)) {
        entries := entries - {key};
        return None;
      }
      return Some(e);
    }

    method Put(key: Key, e: Entry, now: int)
      modifies this
      ensures (entries, gcAt) == Stored(old(entries), old(gcAt), key, e, now)
    {
      entries := entries[key := e];
      if now - gcAt > GC_INTERVAL {
        ghost var all := entries;
        var cutoff := now - TTL;
        var rest := entries.Keys;
        while rest != {}
          invariant rest <= all.Keys
          invariant forall k :: k in entries <==> k in all && (k in rest || Usable(all[k], now))
          invariant forall k <- entries :: entries[k] == all[k]
          invariant gcAt == old(gcAt)
          decreases |rest|
        {
          var k :| k in rest;
          if entries[k].storedAt < cutoff || (entries[k].expiresAt.Some? && !(now < entries[k].expiresAt.value)) {
            entries := entries - {k};
          }
          rest := rest - {k};
        }
        assert entries == Swept(all, now);
        gcAt := now;
      }
    }

    method Invalidate()
      modifies this`entries
      ensures entries == map[]
    {
      entries := map[];
    }
  }

  // ---------- Concurrent requests ----------

  /** A request that missed the cache, before and after it read its rows. */
  datatype Build = Missed(key: Key) | Loaded(key: Key, rows: seq<Row>, epoch: nat)

  datatype State = State(now: int, entries: Entries, gcAt: int, rows: map<string, seq<Row>>, builds: map<nat, Build>, epoch: nat)

  datatype Action =
    | Tick(elapsed: nat)
    | SetRows(uuid: string, rows: seq<Row>)
    | Invalidate
    | Lookup(id: nat, key: Key)
    | Load(id: nat)
    | Finish(id: nat)

  function LookupStep(s: State, id: nat, key: Key): State {
    var seen := s.(entries := Looked(s.entries, key, s.now));
    if id in s.builds || Hit(s.entries, key, s.now).Some? then seen else seen.(builds := s.builds[id := Missed(key)])
  }

  function RowsOf(s: State, uuid: string): seq<Row> { if uuid in s.rows then s.rows[uuid] else [] }

  /** Without an active row the answer is 404 and nothing is stored. */
  function LoadStep(s: State, id: nat, key: Key): State {
    var active := Active(RowsOf(s, key.uuid), s.now);
    s.(builds := if active == [] then s.builds - {id} else s.builds[id := Loaded(key, active, s.epoch)])
  }

  function EntryOf(b: Build, now: int): Entry
    requires b.Loaded?
  {
    Entry(b.rows, now, Earliest(b.rows), b.epoch)
  }

  function FinishStep(s: State, id: nat, b: Build): State
    requires b.Loaded?
  {
    var (entries, gcAt) := Stored(s.entries, s.gcAt, b.key, EntryOf(b, s.now), s.now);
    s.(entries := entries, gcAt := gcAt, builds := s.builds - {id})
  }

  function Step(s: State, a: Action): State {
    match a
    case Tick(d) => s.(now := s.now + d)
    case SetRows(uuid, rows) => s.(rows := s.rows[uuid := rows])
    case Invalidate => s.(entries := map[], epoch := s.epoch + 1)
    case Lookup(id, key) => LookupStep(s, id, key)
    case Load(id) => if id in s.builds && s.builds[id].Missed? then LoadStep(s, id, s.builds[id].key) else s
    case Finish(id) => if id in s.builds && s.builds[id].Loaded? then FinishStep(s, id, s.builds[id]) else s
  }

  function Run(s: State, actions: seq<Action>): State
    decreases |actions|
  {
    if actions == [] then s else Run(Step(s, actions[0]), actions[1..])
  }

  function Initial(now: int): State { State(now, map[], 0, map[], map[], 0) }

  /** Entries end with their first entitlement and were stored in the past. */
  predicate EntryOk(e: Entry, now: int) { e.storedAt <= now && e.expiresAt == Earliest(e.rows) && e.rows != [] }

  predicate Invariant(s: State) {
    && (forall k <- s.entries :: EntryOk(s.entries[k], s.now))
    && forall id <- s.builds :: s.builds[id].Loaded? ==> s.builds[id].rows != []
  }

  lemma StepPreserves(s: State, a: Action)
    requires Invariant(s)
    ensures Invariant(Step(s, a)) && s.now <= Step(s, a).now
  {
  }

  lemma {:induction false} RunPreserves(s: State, actions: seq<Action>)
    requires Invariant(s)
    ensures Invariant(Run(s, actions)) && s.now <= Run(s, actions).now
    decreases |actions|
  {
    if actions != [] {
      StepPreserves(s, actions[0]);
      RunPreserves(Step(s, actions[0]), actions[1..]);
    }
  }

  /** What is served from the cache, at any time of any run: it was stored within
      eight seconds and holds no client whose entitlement is over. */
  lemma HitsAreCurrent(start: int, actions: seq<Action>, key: Key, s: State)
    requires s == Run(Initial(start), actions) && Hit(s.entries, key, s.now).Some?
    ensures var e := Hit(s.entries, key, s.now).value;
            && 0 <= s.now - e.storedAt <= 8_000_000_000
            && e.rows != [] && forall r <- e.rows :: r.expiry <= 0 || s.now < r.expiry * 1_000_000_000
  {
    RunPreserves(Initial(start), actions);
    EarliestIsFirst(s.entries[key].rows);
  }

  /** These were the active rows of a client at some time of the run, with this
      number of invalidations before. */
  ghost predicate Seen(start: int, actions: seq<Action>, uuid: string, rows: seq<Row>, epoch: nat) {
    exists k :: 0 <= k <= |actions| && SeenAt(Run(Initial(start), actions[..k]), uuid, rows, epoch)
  }

  predicate SeenAt(s: State, uuid: string, rows: seq<Row>, epoch: nat) {
    rows == Active(if uuid in s.rows then s.rows[uuid] else [], s.now) && epoch == s.epoch
  }

  ghost predicate AllSeen(start: int, actions: seq<Action>, s: State) {
    && (forall k <- s.entries :: Seen(start, actions, k.uuid, s.entries[k].rows, s.entries[k].epoch))
    && forall id <- s.builds :: s.builds[id].Loaded? ==> Seen(start, actions, s.builds[id].key.uuid, s.builds[id].rows, s.builds[id].epoch)
  }

  lemma {:induction false} RunSnoc(s: State, actions: seq<Action>, a: Action)
    ensures Run(s, actions + [a]) == Step(Run(s, actions), a)
    decreases |actions|
  {
    if actions == [] {
      assert [a][1..] == [] && [] + [a] == [a];
    } else {
      assert (actions + [a])[0] == actions[0] && (actions + [a])[1..] == actions[1..] + [a];
      RunSnoc(Step(s, actions[0]), actions[1..], a);
    }
  }

  lemma StillSeen(start: int, actions: seq<Action>, a: Action, uuid: string, rows: seq<Row>, epoch: nat)
    requires Seen(start, actions, uuid, rows, epoch) || SeenAt(Run(Initial(start), actions), uuid, rows, epoch)
    ensures Seen(start, actions + [a], uuid, rows, epoch)
  {
    if SeenAt(Run(Initial(start), actions), uuid, rows, epoch) {
      assert (actions + [a])[..|actions|] == actions;
    } else {
      var k :| 0 <= k <= |actions| && SeenAt(Run(Initial(start), actions[..k]), uuid, rows, epoch);
      assert (actions + [a])[..k] == actions[..k];
    }
  }

  lemma {:induction false} RunSees(start: int, actions: seq<Action>)
    ensures AllSeen(start, actions, Run(Initial(start), actions))
    decreases |actions|
  {
    if actions != [] {
      var n := |actions| - 1;
      var init, a, s := actions[..n], actions[n], Run(Initial(start), actions[..n]);
      RunSees(start, init);
      RunSnoc(Initial(start), init, a);
      assert actions == init + [a];
      forall uuid, rows, epoch | Seen(start, init, uuid, rows, epoch) || SeenAt(s, uuid, rows, epoch) ensures Seen(start, actions, uuid, rows, epoch) {
        StillSeen(start, init, a, uuid, rows, epoch);
      }
      StepSees(start, init, actions, s, a);
    }
  }

  lemma StepSees(start: int, init: seq<Action>, actions: seq<Action>, s: State, a: Action)
    requires AllSeen(start, init, s)
    requires forall uuid, rows, epoch :: Seen(start, init, uuid, rows, epoch) || SeenAt(s, uuid, rows, epoch) ==> Seen(start, actions, uuid, rows, epoch)
    ensures AllSeen(start, actions, Step(s, a))
  {
    hide Seen;
  }

  /** What is served under a key was, at some time of the run, exactly what that
      client was entitled to: answers are never mixed up between clients. */
  lemma HitsAreOwn(start: int, actions: seq<Action>, key: Key, s: State)
    requires s == Run(Initial(start), actions) && Hit(s.entries, key, s.now).Some?
    ensures var e := Hit(s.entries, key, s.now).value; Seen(start, actions, key.uuid, e.rows, e.epoch)
  {
    RunSees(start, actions);
  }

  /** A request that misses reads the client's rows and stores them; the answer is
      then found, until the first entitlement ends. */
  lemma MissIsServedNext(s: State, id: nat, key: Key)
    requires id !in s.builds && Hit(s.entries, key, s.now).None?
    ensures var active := Active(if key.uuid in s.rows then s.rows[key.uuid] else [], s.now);
            var t := Step(Step(Step(s, Lookup(id, key)), Load(id)), Finish(id));
            if active != [] && forall r <- active :: r.expiry == 0 || s.now < r.expiry * 1_000_000_000
            then Hit(t.entries, key, s.now) == Some(Entry(active, s.now, Earliest(active), s.epoch))
            else Hit(t.entries, key, s.now).None?
  {
    hide Step, Stored, Looked, Active, Earliest;
    var active := Active(RowsOf(s, key.uuid), s.now);
    Built(s, id, key);
    EarliestIsFirst(active);
    SweepingLosesNoHit(s.entries, s.gcAt, key, Entry(active, s.now, Earliest(active), s.epoch), key, s.now, s.now);
    SweepingLosesNoHit(Looked(s.entries, key, s.now), s.gcAt, key, Entry(active, s.now, Earliest(active), s.epoch), key, s.now, s.now);
  }

  lemma Built(s: State, id: nat, key: Key)
    requires id !in s.builds && Hit(s.entries, key, s.now).None?
    ensures var active, looked := Active(RowsOf(s, key.uuid), s.now), Looked(s.entries, key, s.now);
            Step(Step(Step(s, Lookup(id, key)), Load(id)), Finish(id)).entries ==
            if active == [] then looked else Stored(looked, s.gcAt, key, Entry(active, s.now, Earliest(active), s.epoch), s.now).0
  {
    hide Stored, Looked, Active, Earliest, Hit;
  }

  /** A request that hits builds nothing. */
  lemma HitBuildsNothing(s: State, id: nat, key: Key)
    requires Hit(s.entries, key, s.now).Some?
    ensures Step(s, Lookup(id, key)) == s
  {
  }

  // ---------- Invalidation ----------

  /** Nothing read before epoch `e` can be served any more. */
  predicate Since(s: State, e: nat) {
    && e <= s.epoch
    && (forall k <- s.entries :: s.entries[k].epoch >= e || !Alive(s.entries[k].expiresAt, s.now))
    && forall id <- s.builds :: s.builds[id].Loaded? ==> s.builds[id].epoch >= e || !Alive(Earliest(s.builds[id].rows), s.now)
  }

  lemma StepKeepsSince(s: State, a: Action, e: nat)
    requires Since(s, e)
    ensures Since(Step(s, a), e)
  {
  }

  lemma {:induction false} RunKeepsSince(s: State, actions: seq<Action>, e: nat)
    requires Since(s, e)
    ensures Since(Run(s, actions), e)
    decreases |actions|
  {
    if actions != [] {
      StepKeepsSince(s, actions[0], e);
      RunKeepsSince(Step(s, actions[0]), actions[1..], e);
    }
  }

  /** A build in flight that read its rows before and could still be stored. */
  predicate InFlight(s: State, id: nat) {
    id in s.builds && s.builds[id].Loaded? && Alive(Earliest(s.builds[id].rows), s.now)
  }

  ghost predicate ServesOnlyNewer(s: State, e: nat) {
    forall actions: seq<Action>, key: Key ::
      var t := Run(s, actions);
      Hit(t.entries, key, t.now).Some? ==> Hit(t.entries, key, t.now).value.epoch >= e
  }

  lemma StaleAfter(s: State, id: nat)
    requires InFlight(s, id) && s.builds[id].epoch <= s.epoch
    ensures !ServesOnlyNewer(Step(s, Invalidate), s.epoch + 1)
  {
    var after := Step(s, Invalidate);
    var key, run := s.builds[id].key, [Finish(id)];
    var t := Run(after, run);
    assert run[0] == Finish(id) && run[1..] == [];
    assert t == Run(Step(after, Finish(id)), []);
    assert Hit(t.entries, key, t.now) == Some(EntryOf(s.builds[id], s.now));
  }

  /** Builds never come from the future. */
  predicate EpochsOk(s: State) { forall id <- s.builds :: s.builds[id].Loaded? ==> s.builds[id].epoch <= s.epoch }

  lemma {:induction false} EpochsStayOk(s: State, actions: seq<Action>)
    requires EpochsOk(s)
    ensures EpochsOk(Run(s, actions))
    decreases |actions|
  {
    if actions != [] {
      EpochsStayOk(Step(s, actions[0]), actions[1..]);
    }
  }

  /** After an invalidation, at any time of any run, every hit of every later run
      was built from rows read after it, if and only if no build was in flight
      between reading its rows and storing its answer. */
  lemma InvalidationIff(start: int, past: seq<Action>, s: State)
    requires s == Run(Initial(start), past)
    ensures ServesOnlyNewer(Step(s, Invalidate), s.epoch + 1) <==> forall id :: !InFlight(s, id)
  {
    EpochsStayOk(Initial(start), past);
    var after := Step(s, Invalidate);
    if id :| InFlight(s, id) {
      StaleAfter(s, id);
    } else {
      forall id | id in s.builds && s.builds[id].Loaded? ensures !Alive(Earliest(s.builds[id].rows), s.now) {
        assert !InFlight(s, id);
      }
      forall actions: seq<Action>, key: Key | Hit(Run(after, actions).entries, key, Run(after, actions).now).Some?
        ensures Hit(Run(after, actions).entries, key, Run(after, actions).now).value.epoch >= s.epoch + 1
      {
        RunKeepsSince(after, actions, s.epoch + 1);
      }
    }
  }
}
