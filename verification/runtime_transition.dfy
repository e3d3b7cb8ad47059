/**
 The local two-engine transition: snapshot and validate every engine, stop what
 changes, start the new set, verify; on any failure stop everything that
 changed and restore the snapshots.  Any call may fail at any point.
 */
module RuntimeTransition {
  import opened Wrappers
  import opened ProxyEngine

  /** What is hashed for one engine.  The digest is taken as injective, so a
      revision is the hashed list itself. */
  datatype Entry = Entry(name: string, wanted: bool, dual: bool, candidate: Option<Config>)
  type Revision = seq<Entry>

  class Target {
    const name: string
    const engine: Engine
    const wanted: bool
    const dual: bool
    const force: bool
    /** What its generator gets from the database: it drops the errors of its
        queries, so this need not be what the caller read. */
    const db: Database
    var previous: Snapshot
    var candidate: Option<Config>
    var settled: bool

    constructor (name: string, engine: Engine, wanted: bool, dual: bool, force: bool, db: Database)
      ensures this.name == name && this.engine == engine && this.wanted == wanted
      ensures this.dual == dual && this.force == force && this.db == db
    {
      this.name, this.engine, this.wanted, this.dual, this.force, this.db := name, engine, wanted, dual, force, db;
      previous, candidate, settled := Snapshot(None, false, false), None, false;
    }
  }

  function Engines(ts: seq<Target>): set<Engine> {
    set t <- ts :: t.engine
  }

  ghost predicate Distinct(ts: seq<Target>) {
    forall i, j :: 0 <= i < j < |ts| ==> ts[i] != ts[j] && ts[i].engine != ts[j].engine
  }

  ghost predicate AllCoherent(ts: seq<Target>)
    reads Engines(ts)
  {
    forall i :: 0 <= i < |ts| ==> ts[i].engine.State().Coherent()
  }

  /** Every engine was in step with its file in the old state: the rest of the
      contracts then says more. */
  twostate predicate WereCoherent(ts: seq<Target>)
    reads Engines(ts)
  {
    old(AllCoherent(ts))
  }

  /** File, running flag and mode of every engine are those of the old state, and
      so is the process of an engine that was in step with its file. */
  twostate predicate AllRestored(ts: seq<Target>)
    reads Engines(ts)
  {
    forall i :: 0 <= i < |ts| ==> GivenBack(old(ts[i].engine.State()), ts[i].engine.State())
  }

  predicate GivenBack(was: EngineState, now: EngineState) {
    SnapshotOf(now) == SnapshotOf(was) && (was.Coherent() ==> now == was)
  }

  /** Every engine is exactly as it was in the old state. */
  twostate predicate Untouched(ts: seq<Target>)
    reads Engines(ts)
  {
    forall i :: 0 <= i < |ts| ==> ts[i].engine.State() == old(ts[i].engine.State())
  }

  /** An engine already in the wanted condition, when not forced. */
  predicate InPlace(t: Target, previous: Snapshot, candidate: Option<Config>) {
    && !t.force && previous.running == t.wanted
    && (t.wanted ==> candidate.Some? && previous.config == candidate && previous.dual == t.dual)
  }

  predicate WasInPlace(t: Target, was: EngineState) {
    InPlace(t, SnapshotOf(was), if t.wanted then Some(ConfigFor(t.engine.kind, t.dual, t.db)) else None)
  }

  /** The bookkeeping of target `t` agrees with the state of its engine. */
  ghost predicate Prepared(t: Target)
    reads t, t.engine
  {
    && t.previous == SnapshotOf(t.engine.State())
    && (t.previous.running ==> t.previous.config.Some?)
    && t.candidate == (if t.wanted then Some(ConfigFor(t.engine.kind, t.dual, t.db)) else None)
    && t.settled == InPlace(t, t.previous, t.candidate)
  }

  /** The outcome a successful transition promises for one engine: it runs iff
      wanted, and what it runs is exactly the configuration generated for it. */
  predicate Committed(t: Target, s: EngineState) {
    && s.Running() == t.wanted
    && (t.wanted ==> s == EngineState(Some(ConfigFor(t.engine.kind, t.dual, t.db)),
                                      Some(ConfigFor(t.engine.kind, t.dual, t.db)), t.dual))
  }

  /** Every engine that was changed is committed, and so is every other one that
      was in step with its file. */
  twostate predicate AllCommitted(ts: seq<Target>)
    reads ts, Engines(ts)
  {
    forall i :: 0 <= i < |ts| && (!ts[i].settled || old(ts[i].engine.State()).Coherent()) ==>
      Committed(ts[i], ts[i].engine.State())
  }

  function RevisionOf(ts: seq<Target>): Revision {
    if ts == [] then []
    else
      var t := ts[|ts| - 1];
      RevisionOf(ts[..|ts| - 1])
      + [Entry(t.name, t.wanted, t.dual, if t.wanted then Some(ConfigFor(t.engine.kind, t.dual, t.db)) else None)]
  }

  /** A live engine has a configuration file. */
  predicate HasFile(e: EngineState) { e.Running() ==> e.file.Some? }

  ghost predicate AllHaveFiles(ts: seq<Target>)
    reads Engines(ts)
  {
    forall i :: 0 <= i < |ts| ==> HasFile(ts[i].engine.State())
  }

  /** Snapshot and candidate of one engine. */
  method PreflightOne(t: Target, calm: bool) returns (ok: bool)
    modifies t, t.engine`dual
    ensures calm && HasFile(t.engine.State()) ==> ok
    ensures t.engine.State() == old(t.engine.State())
    ensures ok ==> Prepared(t)
  {
    var read, s := t.engine.TakeSnapshot(calm);
    t.previous := s;
    if !read {
      return false;
    }
    t.candidate := None;
    if t.wanted {
      t.candidate := t.engine.Prepare(t.db, t.dual, calm);
      if t.candidate.None? {
        return false;
      }
    }
    t.settled := InPlace(t, t.previous, t.candidate);
    return true;
  }

  /** Snapshots, candidates and the hash of all engines; stops at the first failure. */
  method Preflight(ts: seq<Target>, calm: bool) returns (revision: Option<Revision>)
    requires Distinct(ts)
    modifies ts, Engines(ts)
    ensures calm && old(AllHaveFiles(ts)) ==> revision.Some?
    ensures Untouched(ts)
    ensures revision.Some? ==> revision.value == RevisionOf(ts)
    ensures revision.Some? ==> forall i :: 0 <= i < |ts| ==> Prepared(ts[i])
  {
    var hash: Revision := [];
    for i := 0 to |ts|
      invariant Untouched(ts)
      invariant hash == RevisionOf(ts[..i])
      invariant forall j :: 0 <= j < i ==> Prepared(ts[j])
    {
      var t := ts[i];
      var ok := Try(calm);
      if !ok {
        return None;
      }
      ok := PreflightOne(t, calm);
      if !ok {
        return None;
      }
      hash := hash + [Entry(t.name, t.wanted, t.dual, t.candidate)];
      assert ts[..i + 1][..i] == ts[..i];
    }
    assert ts[..|ts|] == ts;
    var going := Try(calm);
    return if going then Some(hash) else None;
  }

  /** Stops every changed engine, giving up at the first failure. */
  method StopChanged(ts: seq<Target>, calm: bool) returns (ok: bool)
    requires Distinct(ts)
    modifies Engines(ts)
    ensures calm ==> ok
    ensures WereCoherent(ts) ==> AllCoherent(ts)
    ensures forall i :: 0 <= i < |ts| && ts[i].settled ==> ts[i].engine.State() == old(ts[i].engine.State())
    ensures forall i :: 0 <= i < |ts| ==> StopRel(old(ts[i].engine.State()), ts[i].engine.State().proc.None?, ts[i].engine.State())
    ensures ok ==> forall i :: 0 <= i < |ts| && !ts[i].settled ==> !ts[i].engine.State().Running()
  {
    for i := 0 to |ts|
      invariant WereCoherent(ts) ==> AllCoherent(ts)
      invariant forall j :: 0 <= j < |ts| && (j >= i || ts[j].settled) ==> ts[j].engine.State() == old(ts[j].engine.State())
      invariant forall j :: 0 <= j < i && !ts[j].settled ==> StopRel(old(ts[j].engine.State()), true, ts[j].engine.State())
    {
      if ts[i].settled {
        continue;
      }
      var stopped := ts[i].engine.Stop(calm);
      if !stopped {
        return false;
      }
    }
    return true;
  }

  /** Starts every changed engine that is wanted, giving up at the first failure. */
  method StartWanted(ts: seq<Target>, calm: bool) returns (ok: bool)
    requires Distinct(ts)
    requires forall t <- ts :: t.wanted ==> t.candidate.Some?
    requires forall t <- ts :: !t.settled ==> !t.engine.State().Running()
    modifies Engines(ts)
    ensures calm ==> ok
    ensures WereCoherent(ts) ==> AllCoherent(ts)
    ensures forall i :: 0 <= i < |ts| && ts[i].settled ==> ts[i].engine.State() == old(ts[i].engine.State())
    ensures forall i :: 0 <= i < |ts| && !ts[i].settled && !ts[i].wanted ==> ts[i].engine.State() == old(ts[i].engine.State())
    ensures ok ==> forall i :: 0 <= i < |ts| && !ts[i].settled && ts[i].wanted ==>
                     ts[i].engine.State() == EngineState(ts[i].candidate, ts[i].candidate, ts[i].dual)
  {
    for i := 0 to |ts|
      invariant WereCoherent(ts) ==> AllCoherent(ts)
      invariant forall j :: 0 <= j < |ts| && (j >= i || ts[j].settled || !ts[j].wanted) ==> ts[j].engine.State() == old(ts[j].engine.State())
      invariant forall j :: 0 <= j < i && !ts[j].settled && ts[j].wanted ==>
                  ts[j].engine.State() == EngineState(ts[j].candidate, ts[j].candidate, ts[j].dual)
    {
      if !ts[i].wanted || ts[i].settled {
        continue;
      }
      var started := ts[i].engine.Start(ts[i].candidate.value, ts[i].dual, calm);
      if !started {
        return false;
      }
    }
    return true;
  }

  /** Stops all changed engines first, then restores each; failures are
      collected and never end the loops early. */
  method Rollback(ts: seq<Target>, calm: bool) returns (errors: nat)
    requires Distinct(ts)
    requires forall t <- ts :: t.previous.running ==> t.previous.config.Some?
    modifies Engines(ts)
    ensures calm ==> errors == 0
    ensures WereCoherent(ts) ==> AllCoherent(ts)
    ensures forall i :: 0 <= i < |ts| && ts[i].settled ==> ts[i].engine.State() == old(ts[i].engine.State())
    ensures errors == 0 ==> forall i :: 0 <= i < |ts| && !ts[i].settled ==> ts[i].engine.State() == Restored(ts[i].previous)
  {
    errors := 0;
    for i := 0 to |ts|
      invariant calm ==> errors == 0
      invariant WereCoherent(ts) ==> AllCoherent(ts)
      invariant forall j :: 0 <= j < |ts| && ts[j].settled ==> ts[j].engine.State() == old(ts[j].engine.State())
    {
      if !ts[i].settled {
        var stopped := ts[i].engine.Stop(calm);
        errors := errors + if stopped then 0 else 1;
      }
    }
    for i := 0 to |ts|
      invariant calm ==> errors == 0
      invariant WereCoherent(ts) ==> AllCoherent(ts)
      invariant forall j :: 0 <= j < |ts| && ts[j].settled ==> ts[j].engine.State() == old(ts[j].engine.State())
      invariant errors == 0 ==> forall j :: 0 <= j < i && !ts[j].settled ==> ts[j].engine.State() == Restored(ts[j].previous)
    {
      if !ts[i].settled {
        var restored := ts[i].engine.Restore(ts[i].previous, calm);
        errors := errors + if restored then 0 else 1;
      }
    }
  }

  predicate Answers(e: EngineState, port: nat) {
    e.proc.Some? && port in Ports(e.proc.value)
  }

  /** Something listens on the port: a process of an engine, or a foreign one. */
  predicate Answered(ts: seq<Target>, port: nat, foreign: set<nat>)
    reads Engines(ts)
  {
    port in foreign || exists t <- ts :: Answers(t.engine.State(), port)
  }

  predicate AllAnswered(ts: seq<Target>, ports: seq<nat>, foreign: set<nat>)
    reads Engines(ts)
  {
    forall port <- ports :: Answered(ts, port, foreign)
  }

  /** Every probed port is one of a foreign process or of a wanted configuration. */
  predicate ServesPorts(ts: seq<Target>, ports: seq<nat>, foreign: set<nat>) {
    forall port <- ports :: port in foreign || exists t <- ts :: t.wanted && port in Ports(ConfigFor(t.engine.kind, t.dual, t.db))
  }

  /** Engines that are all committed listen on the ports of their configurations. */
  lemma CommittedAnswer(ts: seq<Target>, ports: seq<nat>, foreign: set<nat>)
    requires forall i :: 0 <= i < |ts| ==> Committed(ts[i], ts[i].engine.State())
    ensures AllAnswered(ts, ports, foreign) <==> ServesPorts(ts, ports, foreign)
  {
    forall port | port in ports
      ensures Answered(ts, port, foreign) <==>
              port in foreign || exists t <- ts :: t.wanted && port in Ports(ConfigFor(t.engine.kind, t.dual, t.db))
    {
      forall t | t in ts ensures Answers(t.engine.State(), port) <==> t.wanted && port in Ports(ConfigFor(t.engine.kind, t.dual, t.db)) {
        var i :| 0 <= i < |ts| && ts[i] == t;
        assert Committed(ts[i], ts[i].engine.State());
      }
    }
  }

  /** The listener probes, which may fail for other reasons too. */
  method Verify(ts: seq<Target>, ports: seq<nat>, foreign: set<nat>, calm: bool) returns (ok: bool)
    ensures ok ==> AllAnswered(ts, ports, foreign)
    ensures calm && AllAnswered(ts, ports, foreign) ==> ok
  {
    for i := 0 to |ports|
      invariant AllAnswered(ts, ports[..i], foreign)
    {
      var replied := Try(calm);
      if !replied || !Answered(ts, ports[i], foreign) {
        return false;
      }
      assert ports[..i + 1] == ports[..i] + [ports[i]];
    }
    assert ports[..|ports|] == ports;
    return true;
  }

  /** Stops, starts and verifies. */
  method Forward(ts: seq<Target>, ports: seq<nat>, foreign: set<nat>, calm: bool) returns (ok: bool)
    requires Distinct(ts) && forall i :: 0 <= i < |ts| ==> Prepared(ts[i])
    modifies Engines(ts)
    ensures WereCoherent(ts) ==> AllCoherent(ts)
    ensures forall i :: 0 <= i < |ts| && ts[i].settled ==> ts[i].engine.State() == old(ts[i].engine.State())
    ensures ok ==> AllCommitted(ts) && AllAnswered(ts, ports, foreign)
    ensures calm && WereCoherent(ts) && ServesPorts(ts, ports, foreign) ==> ok
  {
    ok := StopChanged(ts, calm);
    if ok {
      ok := StartWanted(ts, calm);
    }
    if ok {
      forall i | 0 <= i < |ts| && ts[i].settled && old(ts[i].engine.State()).Coherent()
        ensures Committed(ts[i], ts[i].engine.State())
      {
        InPlaceIsCommitted(ts[i], ts[i].engine.State(), ts[i].previous);
      }
      if WereCoherent(ts) {
        CommittedAnswer(ts, ports, foreign);
      }
      ok := Verify(ts, ports, foreign, calm);
    }
  }

  /** What a restored engine keeps of its former state. */
  lemma RestoredKeeps(was: EngineState, previous: Snapshot, now: EngineState)
    requires previous == SnapshotOf(was) && now == Restored(previous) && (previous.running ==> previous.config.Some?)
    ensures GivenBack(was, now)
  {
    if was.Coherent() {
      RestoredSnapshotIsIdentity(was);
    }
  }

  /** `was` lists the states of the engines that the targets were prepared from. */
  ghost predicate PreparedFrom(ts: seq<Target>, was: seq<EngineState>)
    reads ts
  {
    |was| == |ts| && forall i :: 0 <= i < |ts| ==>
      ts[i].previous == SnapshotOf(was[i]) && (ts[i].previous.running ==> ts[i].previous.config.Some?)
  }

  /** Rolls back; without errors every changed engine is what it was. */
  method Undo(ts: seq<Target>, ghost was: seq<EngineState>, calm: bool) returns (ok: bool)
    requires Distinct(ts) && PreparedFrom(ts, was)
    modifies Engines(ts)
    ensures calm ==> ok
    ensures WereCoherent(ts) ==> AllCoherent(ts)
    ensures forall i :: 0 <= i < |ts| && ts[i].settled ==> ts[i].engine.State() == old(ts[i].engine.State())
    ensures ok ==> forall i :: 0 <= i < |ts| && !ts[i].settled ==>
                     GivenBack(was[i], ts[i].engine.State())
  {
    var errors := Rollback(ts, calm);
    ok := errors == 0;
    if ok {
      forall i | 0 <= i < |ts| && !ts[i].settled
        ensures GivenBack(was[i], ts[i].engine.State())
      {
        RestoredKeeps(was[i], ts[i].previous, ts[i].engine.State());
      }
    }
  }

  lemma InPlaceIsCommitted(t: Target, s: EngineState, previous: Snapshot)
    requires previous == SnapshotOf(s) && s.Coherent()
    requires InPlace(t, previous, if t.wanted then Some(ConfigFor(t.engine.kind, t.dual, t.db)) else None)
    ensures Committed(t, s)
  {
  }

  /** Everything after the preflight. */
  method Commit(ts: seq<Target>, ports: seq<nat>, foreign: set<nat>, calm: bool) returns (rolledBack: bool, ok: bool)
    requires Distinct(ts) && forall i :: 0 <= i < |ts| ==> Prepared(ts[i])
    modifies Engines(ts)
    ensures WereCoherent(ts) ==> AllCoherent(ts)
    ensures forall i :: 0 <= i < |ts| && ts[i].settled ==> ts[i].engine.State() == old(ts[i].engine.State())
    ensures ok ==> AllCommitted(ts) && AllAnswered(ts, ports, foreign)
    ensures rolledBack ==> !ok && AllRestored(ts)
    ensures calm ==> ok || rolledBack
    ensures calm && WereCoherent(ts) && ServesPorts(ts, ports, foreign) ==> ok
  {
    ghost var was := seq(|ts|, i requires 0 <= i < |ts| reads Engines(ts) => ts[i].engine.State());
    rolledBack := false;
    ok := Forward(ts, ports, foreign, calm);
    if !ok {
      rolledBack := Undo(ts, was, calm);
    }
  }

  /**
   The whole transaction.  No revision: nothing was touched.  Success: every
   engine that was touched is committed, and so is every other one that was in
   step with its file, and something listens on every probed port.  Failure with `rolledBack`: file, running flag and mode of
   every engine are those of its snapshot, and its process too if it was in step
   with its file.  An engine already in place is never touched.
   */
  method TransitionRuntime(ts: seq<Target>, ports: seq<nat>, foreign: set<nat>, calm: bool)
    returns (revision: Option<Revision>, rolledBack: bool, ok: bool)
    requires Distinct(ts)
    modifies ts, Engines(ts)
    ensures WereCoherent(ts) ==> AllCoherent(ts)
    ensures revision.None? ==> !ok && !rolledBack && Untouched(ts)
    ensures revision.Some? ==> revision.value == RevisionOf(ts)
    ensures ok ==> revision.Some? && !rolledBack
    ensures ok ==> AllCommitted(ts) && AllAnswered(ts, ports, foreign)
    ensures rolledBack ==> !ok && AllRestored(ts)
    ensures calm && old(AllHaveFiles(ts)) ==> revision.Some? && (ok || rolledBack)
    ensures calm && WereCoherent(ts) ==> (ok <==> ServesPorts(ts, ports, foreign))
    ensures revision.Some? ==> forall i :: 0 <= i < |ts| && ts[i].settled ==> ts[i].engine.State() == old(ts[i].engine.State())
    ensures revision.Some? ==> forall i :: 0 <= i < |ts| ==> ts[i].settled == WasInPlace(ts[i], old(ts[i].engine.State()))
  {
    assert WereCoherent(ts) ==> old(AllHaveFiles(ts));
    revision := Preflight(ts, calm);
    if revision.None? {
      return None, false, false;
    }
    rolledBack, ok := Commit(ts, ports, foreign, calm);
    if ok && WereCoherent(ts) {
      CommittedAnswer(ts, ports, foreign);
    }
  }

  datatype Phase = Idle | Applying | Failed | RolledBack | RollbackFailed | Applied

  datatype Status = Status(phase: Phase, mode: Mode, revision: Option<Revision>, rolledBack: bool)

  /** The engine of kind `kind` is to serve this inbound under the mode. */
  predicate Assigned(mode: Mode, in_: Inbound, kind: Kind) {
    match mode
    case XrayOnly => kind == Xray && in_.protocol in {"vless", "vmess", "trojan", "shadowsocks"}
    case SingboxOnly => kind == Singbox
    case Auto => kind == if in_.protocol in {"vless", "vmess", "trojan", "shadowsocks"} then Xray else Singbox
  }

  predicate IsAssigned(mode: Mode, in_: Inbound) { Assigned(mode, in_, Xray) || Assigned(mode, in_, Singbox) }

  predicate Serves(e: EngineState, in_: Inbound) {
    e.proc.Some? && in_ in e.proc.value.inbounds
  }

  /** The loop that decides which engines are wanted. */
  method WantedEngines(mode: Mode, enabled: seq<Inbound>) returns (wantXray: bool, wantSingbox: bool)
    ensures wantXray <==> exists in_ <- enabled :: Assigned(mode, in_, Xray)
    ensures wantSingbox <==> exists in_ <- enabled :: Assigned(mode, in_, Singbox)
  {
    wantXray, wantSingbox := false, false;
    for i := 0 to |enabled|
      invariant wantXray <==> exists j :: 0 <= j < i && Assigned(mode, enabled[j], Xray)
      invariant wantSingbox <==> exists j :: 0 <= j < i && Assigned(mode, enabled[j], Singbox)
    {
      ghost var onXray, onSingbox := Assigned(mode, enabled[i], Xray), Assigned(mode, enabled[i], Singbox);
      if mode == SingboxOnly {
        wantSingbox := true;
      } else if IsXraySupported(enabled[i].protocol) {
        wantXray := true;
      } else if mode == Auto {
        wantSingbox := true;
      }
    }
  }

  /** The loop over the inbounds that are probed. */
  method ProbedPorts(mode: Mode, enabled: seq<Inbound>) returns (ports: seq<nat>)
    ensures forall p :: p in ports <==> exists in_ <- enabled :: IsAssigned(mode, in_) && in_.port == p
  {
    ports := [];
    for i := 0 to |enabled|
      invariant forall p :: p in ports <==> exists j :: 0 <= j < i && IsAssigned(mode, enabled[j]) && enabled[j].port == p
    {
      if mode == XrayOnly && !IsXraySupported(enabled[i].protocol) {
        continue;
      }
      ports := ports + [enabled[i].port];
    }
  }

  predicate Wants(mode: Mode, enabled: seq<Inbound>, kind: Kind) { exists in_ <- enabled :: Assigned(mode, in_, kind) }

  /** A committed engine serves, of the enabled inbounds, exactly those that its
      mode assigns to it and that its generator got from the database. */
  lemma CommittedServesExactly(mode: Mode, enabled: seq<Inbound>, got: Database, kind: Kind, e: EngineState, in_: Inbound)
    requires in_ in enabled
    requires e.Running() <==> Wants(mode, enabled, kind)
    requires e.Running() ==> e.proc.value == ConfigFor(kind, mode == Auto, got)
    ensures Serves(e, in_) <==> Assigned(mode, in_, kind) && in_ in got.enabled
  {
    KeptIsFilter(kind, mode == Auto, got.enabled, in_);
    if mode == XrayOnly {
      forall i | i in enabled
        ensures !Assigned(mode, i, Singbox)
      {
      }
    }
  }

  /** A live engine whose process is not what its file says, while the file, the
      mode and the running flag are already the wanted ones: without `force` a
      transition takes it for being in place. */
  predicate Stale(e: EngineState, kind: Kind, wanted: bool, dual: bool, got: Database, force: bool) {
    !force && wanted && !e.Coherent() && e.file == Some(ConfigFor(kind, dual, got)) && e.dual == dual
  }

  /** What an engine is after an applied transition. */
  predicate Outcome(kind: Kind, mode: Mode, enabled: seq<Inbound>, got: Database, force: bool, was: EngineState, now: EngineState) {
    if Stale(was, kind, Wants(mode, enabled, kind), mode == Auto, got, force) then now == was
    else
      && (now.Running() <==> Wants(mode, enabled, kind))
      && (now.Running() ==> now.proc.value == ConfigFor(kind, mode == Auto, got))
      && forall in_ <- enabled :: Serves(now, in_) <==> Assigned(mode, in_, kind) && in_ in got.enabled
  }

  lemma CommittedOutcome(kind: Kind, mode: Mode, enabled: seq<Inbound>, got: Database, force: bool, was: EngineState, now: EngineState)
    requires if Stale(was, kind, Wants(mode, enabled, kind), mode == Auto, got, force) then now == was
             else now.Running() == Wants(mode, enabled, kind) && (now.Running() ==> now.proc.value == ConfigFor(kind, mode == Auto, got))
    ensures Outcome(kind, mode, enabled, got, force, was, now)
  {
    if !Stale(was, kind, Wants(mode, enabled, kind), mode == Auto, got, force) {
      forall in_ | in_ in enabled ensures Serves(now, in_) <==> Assigned(mode, in_, kind) && in_ in got.enabled {
        CommittedServesExactly(mode, enabled, got, kind, now, in_);
      }
    }
  }

  /** Each enabled inbound has a port of its own, which no foreign process and no
      API of an engine listens on, and a generator gets no other inbounds. */
  ghost predicate PortsApart(enabled: seq<Inbound>, got: Database, foreign: set<nat>) {
    && (forall a, b :: a in enabled && b in enabled && a.port == b.port ==> a == b)
    && (forall a <- enabled :: a.port !in foreign + got.xrayApi + got.singboxApi)
    && (forall a <- got.enabled :: a in enabled)
  }

  /** Where ports are apart, the probes make up for the errors the generators
      drop: an apply that succeeds serves every enabled inbound as its mode
      prescribes, by the engine of kind `kind` as by the other one. */
  lemma ProbesFindTheMissed(mode: Mode, enabled: seq<Inbound>, force: bool, foreign: set<nat>, kind: Kind, got: Database,
                            was: EngineState, now: EngineState, other: Kind, otherGot: Database, otherWas: EngineState,
                            otherNow: EngineState, in_: Inbound)
    requires PortsApart(enabled, got, foreign) && PortsApart(enabled, otherGot, foreign) && kind != other
    requires Outcome(kind, mode, enabled, got, force, was, now)
    requires Outcome(other, mode, enabled, otherGot, force, otherWas, otherNow)
    requires !Stale(was, kind, Wants(mode, enabled, kind), mode == Auto, got, force)
    requires !Stale(otherWas, other, Wants(mode, enabled, other), mode == Auto, otherGot, force)
    requires in_ in enabled
    requires IsAssigned(mode, in_) ==> in_.port in foreign || Answers(now, in_.port) || Answers(otherNow, in_.port)
    ensures Serves(now, in_) <==> Assigned(mode, in_, kind)
  {
    if Assigned(mode, in_, kind) {
      if Answers(now, in_.port) {
        ListensFor(kind, mode, enabled, got, foreign, now, in_);
      } else {
        ListensFor(other, mode, enabled, otherGot, foreign, otherNow, in_);
      }
    }
  }

  /** An engine that listens on the port of an enabled inbound serves it. */
  lemma ListensFor(kind: Kind, mode: Mode, enabled: seq<Inbound>, got: Database, foreign: set<nat>, now: EngineState, in_: Inbound)
    requires PortsApart(enabled, got, foreign) && in_ in enabled && Answers(now, in_.port)
    requires now.proc.value == ConfigFor(kind, mode == Auto, got)
    ensures Serves(now, in_)
  {
    var c :| c in now.proc.value.inbounds && c.port == in_.port;
    KeptIsFilter(kind, mode == Auto, got.enabled, c);
  }

  /** What is hashed for an engine. */
  function EntryOf(name: string, wanted: bool, kind: Kind, dual: bool, got: Database): Entry {
    Entry(name, wanted, dual, if wanted then Some(ConfigFor(kind, dual, got)) else None)
  }

  predicate PlansPort(wanted: bool, kind: Kind, dual: bool, got: Database, port: nat) {
    wanted && port in Ports(ConfigFor(kind, dual, got))
  }

  lemma TwoServe(ts: seq<Target>, ports: seq<nat>, foreign: set<nat>)
    requires |ts| == 2
    ensures ServesPorts(ts, ports, foreign) <==>
            forall port <- ports :: port in foreign || PlansPort(ts[0].wanted, ts[0].engine.kind, ts[0].dual, ts[0].db, port)
                                    || PlansPort(ts[1].wanted, ts[1].engine.kind, ts[1].dual, ts[1].db, port)
  {
    assert ts[0] in ts && ts[1] in ts;
  }

  lemma TwoRevise(ts: seq<Target>)
    requires |ts| == 2
    ensures RevisionOf(ts) == [EntryOf(ts[0].name, ts[0].wanted, ts[0].engine.kind, ts[0].dual, ts[0].db),
                               EntryOf(ts[1].name, ts[1].wanted, ts[1].engine.kind, ts[1].dual, ts[1].db)]
  {
    assert ts[..1][..0] == [] && ts[..1][0] == ts[0];
    assert RevisionOf(ts[..1]) == RevisionOf([]) + [EntryOf(ts[0].name, ts[0].wanted, ts[0].engine.kind, ts[0].dual, ts[0].db)];
  }

  /** Every enabled inbound that the mode assigns will have a listener on its port:
      a foreign process, or a wanted engine whose configuration has that port. */
  predicate ReachesAll(mode: Mode, enabled: seq<Inbound>, xrayGot: Database, singboxGot: Database, foreign: set<nat>) {
    forall in_ <- enabled :: IsAssigned(mode, in_) ==>
      || in_.port in foreign
      || PlansPort(Wants(mode, enabled, Xray), Xray, mode == Auto, xrayGot, in_.port)
      || PlansPort(Wants(mode, enabled, Singbox), Singbox, mode == Auto, singboxGot, in_.port)
  }

  lemma ReachesPorts(mode: Mode, enabled: seq<Inbound>, xrayGot: Database, singboxGot: Database, foreign: set<nat>, ports: seq<nat>)
    requires forall p :: p in ports <==> exists in_ <- enabled :: IsAssigned(mode, in_) && in_.port == p
    ensures ReachesAll(mode, enabled, xrayGot, singboxGot, foreign) <==>
            forall port <- ports :: port in foreign || PlansPort(Wants(mode, enabled, Xray), Xray, mode == Auto, xrayGot, port)
                                    || PlansPort(Wants(mode, enabled, Singbox), Singbox, mode == Auto, singboxGot, port)
  {
    forall in_ | in_ in enabled && IsAssigned(mode, in_) ensures in_.port in ports {
    }
  }

  /** That is so whenever each generator gets the inbounds assigned to its engine. */
  lemma GotReachesAll(mode: Mode, enabled: seq<Inbound>, xrayGot: Database, singboxGot: Database, foreign: set<nat>)
    requires forall in_ <- enabled :: (Assigned(mode, in_, Xray) ==> in_ in xrayGot.enabled) && (Assigned(mode, in_, Singbox) ==> in_ in singboxGot.enabled)
    ensures ReachesAll(mode, enabled, xrayGot, singboxGot, foreign)
  {
    forall in_ | in_ in enabled && IsAssigned(mode, in_)
      ensures PlansPort(Wants(mode, enabled, Xray), Xray, mode == Auto, xrayGot, in_.port)
              || PlansPort(Wants(mode, enabled, Singbox), Singbox, mode == Auto, singboxGot, in_.port)
    {
      KeptIsFilter(Xray, mode == Auto, xrayGot.enabled, in_);
      KeptIsFilter(Singbox, mode == Auto, singboxGot.enabled, in_);
    }
  }

  /** A transition of two engines. */
  method RunTwo(x: Target, s: Target, ports: seq<nat>, foreign: set<nat>, calm: bool) returns (revision: Option<Revision>, restored: bool, done: bool)
    requires x != s && x.engine != s.engine
    modifies x, s, x.engine, s.engine
    ensures old(x.engine.State().Coherent() && s.engine.State().Coherent()) ==> x.engine.State().Coherent() && s.engine.State().Coherent()
    ensures revision.None? ==> !done && !restored && x.engine.State() == old(x.engine.State()) && s.engine.State() == old(s.engine.State())
    ensures restored ==> GivenBack(old(x.engine.State()), x.engine.State()) && GivenBack(old(s.engine.State()), s.engine.State())
    ensures done ==> revision.Some? && !restored
    ensures done ==> forall port <- ports :: port in foreign || Answers(x.engine.State(), port) || Answers(s.engine.State(), port)
    ensures revision.Some? ==> revision.value == [EntryOf(x.name, x.wanted, x.engine.kind, x.dual, x.db), EntryOf(s.name, s.wanted, s.engine.kind, s.dual, s.db)]
    ensures done && (!WasInPlace(x, old(x.engine.State())) || old(x.engine.State()).Coherent()) ==> Committed(x, x.engine.State())
    ensures done && (!WasInPlace(s, old(s.engine.State())) || old(s.engine.State()).Coherent()) ==> Committed(s, s.engine.State())
    ensures revision.Some? && WasInPlace(x, old(x.engine.State())) ==> x.engine.State() == old(x.engine.State())
    ensures revision.Some? && WasInPlace(s, old(s.engine.State())) ==> s.engine.State() == old(s.engine.State())
    ensures calm && HasFile(old(x.engine.State())) && HasFile(old(s.engine.State())) ==> revision.Some? && (done || restored)
    ensures calm && old(x.engine.State().Coherent() && s.engine.State().Coherent()) ==>
              (done <==> forall port <- ports :: port in foreign || PlansPort(x.wanted, x.engine.kind, x.dual, x.db, port)
                                                 || PlansPort(s.wanted, s.engine.kind, s.dual, s.db, port))
  {
    hide ServesPorts, PlansPort, RevisionOf, EntryOf, ConfigFor, GivenBack, WasInPlace, Committed;
    var ts := [x, s];
    assert ts[0] == x && ts[1] == s;
    TwoServe(ts, ports, foreign);
    TwoRevise(ts);
    revision, restored, done := TransitionRuntime(ts, ports, foreign, calm);
    assert old(x.engine.State().Coherent() && s.engine.State().Coherent()) ==> WereCoherent(ts);
    assert revision.Some? ==> ts[0].settled == WasInPlace(x, old(x.engine.State())) && ts[1].settled == WasInPlace(s, old(s.engine.State()));
    assert done && (!x.settled || old(x.engine.State()).Coherent()) ==> Committed(ts[0], ts[0].engine.State());
    assert done && (!s.settled || old(s.engine.State()).Coherent()) ==> Committed(ts[1], ts[1].engine.State());
    assert restored ==> GivenBack(old(ts[0].engine.State()), ts[0].engine.State()) && GivenBack(old(ts[1].engine.State()), ts[1].engine.State());
  }

  class Coordinator {
    const xray: Engine
    const singbox: Engine
    var status: Status
    var persistedMode: Option<Mode>

    predicate Valid()
    {
      xray != singbox && xray.kind == Xray && singbox.kind == Singbox
    }

    /** What runs is what the files say. */
    predicate InStep()
      reads xray, singbox
    {
      xray.State().Coherent() && singbox.State().Coherent()
    }

    constructor (xray: Engine, singbox: Engine)
      requires xray != singbox && xray.kind == Xray && singbox.kind == Singbox
      ensures Valid() && this.xray == xray && this.singbox == singbox && status.phase == Idle
    {
      this.xray, this.singbox := xray, singbox;
      status, persistedMode := Status(Idle, Auto, None, false), None;
    }

    /** What a committed engine of a given kind looks like. */
    predicate EngineCommitted(e: Engine, wanted: bool, dual: bool, got: Database)
      reads e
    {
      && e.State().Running() == wanted
      && (wanted ==> e.State() == EngineState(Some(ConfigFor(e.kind, dual, got)), Some(ConfigFor(e.kind, dual, got)), dual))
    }

    /** An engine whose mode has been set is what the outcome says. */
    lemma EngineOutcome(e: Engine, mode: Mode, enabled: seq<Inbound>, got: Database, force: bool, was: EngineState)
      requires var stale := Stale(was, e.kind, Wants(mode, enabled, e.kind), mode == Auto, got, force);
               if stale then e.State() == was
               else e.State().Running() == Wants(mode, enabled, e.kind) && (e.State().Running() ==> e.State().proc.value == ConfigFor(e.kind, mode == Auto, got))
      ensures Outcome(e.kind, mode, enabled, got, force, was, e.State())
    {
      CommittedOutcome(e.kind, mode, enabled, got, force, was, e.State());
    }

    predicate BothAnswer(ports: seq<nat>, foreign: set<nat>)
      reads xray, singbox
    {
      forall port <- ports :: port in foreign || Answers(xray.State(), port) || Answers(singbox.State(), port)
    }

    /** The transition over both engines. */
    method TransitionBoth(wantXray: bool, wantSingbox: bool, dual: bool, xrayGot: Database, singboxGot: Database, force: bool,
                          ports: seq<nat>, foreign: set<nat>, calm: bool)
      returns (revision: Option<Revision>, restored: bool, done: bool)
      requires Valid()
      modifies xray, singbox
      ensures old(InStep()) ==> InStep()
      ensures revision.None? ==> !done && !restored && xray.State() == old(xray.State()) && singbox.State() == old(singbox.State())
      ensures restored ==> GivenBack(old(xray.State()), xray.State()) && GivenBack(old(singbox.State()), singbox.State())
      ensures done ==> revision.Some? && !restored && BothAnswer(ports, foreign)
      ensures revision.Some? ==> revision.value == [EntryOf("xray", wantXray, Xray, dual, xrayGot), EntryOf("singbox", wantSingbox, Singbox, dual, singboxGot)]
      ensures calm && HasFile(old(xray.State())) && HasFile(old(singbox.State())) ==> revision.Some? && (done || restored)
      ensures calm && old(InStep()) ==>
                (done <==> forall port <- ports :: port in foreign || PlansPort(wantXray, Xray, dual, xrayGot, port)
                                                   || PlansPort(wantSingbox, Singbox, dual, singboxGot, port))
      ensures done ==> (EngineCommitted(xray, wantXray, dual, xrayGot) <==> !Stale(old(xray.State()), Xray, wantXray, dual, xrayGot, force))
      ensures done ==> (EngineCommitted(singbox, wantSingbox, dual, singboxGot) <==> !Stale(old(singbox.State()), Singbox, wantSingbox, dual, singboxGot, force))
      ensures revision.Some? && Stale(old(xray.State()), Xray, wantXray, dual, xrayGot, force) ==> xray.State() == old(xray.State())
      ensures revision.Some? && Stale(old(singbox.State()), Singbox, wantSingbox, dual, singboxGot, force) ==> singbox.State() == old(singbox.State())
    {
      hide PlansPort, EntryOf, ConfigFor, GivenBack;
      var x := new Target("xray", xray, wantXray, dual, force, xrayGot);
      var s := new Target("singbox", singbox, wantSingbox, dual, force, singboxGot);
      revision, restored, done := RunTwo(x, s, ports, foreign, calm);
    }

    /** ApplyRuntime with locally managed engines.  The reported phase is
        truthful: "failed" touched nothing, "rolled back" restored everything the
        snapshots tell, "applied" serves every enabled inbound as its mode
        prescribes, except by an engine that was stale and is as it was, or whose
        generator missed the inbound; and something listens on its port.
        `xrayGot` and `singboxGot` are what the generators get from the database,
        `foreign` the ports that other processes listen on.  When nothing fails and
        the engines run what their files say, the apply succeeds exactly if every
        assigned inbound will have a listener on its port. */
    method ApplyRuntime(mode: Mode, enabled: seq<Inbound>, xrayGot: Database, singboxGot: Database, force: bool, foreign: set<nat>, calm: bool)
      returns (ok: bool)
      requires Valid()
      modifies this, xray, singbox
      ensures old(InStep()) ==> InStep()
      ensures status.phase in {Failed, RolledBack, RollbackFailed, Applied}
      ensures status.phase == Failed ==> xray.State() == old(xray.State()) && singbox.State() == old(singbox.State())
      ensures status.phase == RolledBack ==> GivenBack(old(xray.State()), xray.State()) && GivenBack(old(singbox.State()), singbox.State())
      ensures status.phase == RolledBack ==> status.mode == old(status.mode)
      ensures status.rolledBack <==> status.phase == RolledBack
      ensures status.phase != Applied ==> !ok && status.revision == old(status.revision) && persistedMode == old(persistedMode)
      ensures status.phase == Applied ==> status.revision.Some? && status.mode == mode
      ensures status.phase == Applied ==> xray.dual == singbox.dual == (mode == Auto)
      ensures status.phase == Applied ==> Outcome(Xray, mode, enabled, xrayGot, force, old(xray.State()), xray.State())
      ensures status.phase == Applied ==> Outcome(Singbox, mode, enabled, singboxGot, force, old(singbox.State()), singbox.State())
      ensures status.phase == Applied ==> forall in_ <- enabled :: IsAssigned(mode, in_) ==>
                in_.port in foreign || Answers(xray.State(), in_.port) || Answers(singbox.State(), in_.port)
      ensures ok ==> status.phase == Applied && persistedMode == Some(mode)
      ensures status.phase == Applied ==> status.revision == Some([EntryOf("xray", Wants(mode, enabled, Xray), Xray, mode == Auto, xrayGot),
                                                                   EntryOf("singbox", Wants(mode, enabled, Singbox), Singbox, mode == Auto, singboxGot)])
      ensures calm && old(InStep()) ==> (ok <==> ReachesAll(mode, enabled, xrayGot, singboxGot, foreign))
      ensures calm && HasFile(old(xray.State())) && HasFile(old(singbox.State())) ==> ok || status.phase == RolledBack
    {
      hide Outcome, ReachesAll, PlansPort, ConfigFor, GivenBack, EntryOf;
      var previous := status;
      status := Status(Applying, mode, previous.revision, false);
      var readOk := Try(calm);
      if !readOk {
        status := status.(phase := Failed);
        return false;
      }
      var wantXray, wantSingbox := WantedEngines(mode, enabled);
      var ports := ProbedPorts(mode, enabled);
      ReachesPorts(mode, enabled, xrayGot, singboxGot, foreign, ports);
      var revision, restored, done := TransitionBoth(wantXray, wantSingbox, mode == Auto, xrayGot, singboxGot, force, ports, foreign, calm);
      if !done {
        status := status.(phase := Failed, rolledBack := restored);
        if restored {
          status := status.(phase := RolledBack, mode := previous.mode);
        }
        if revision.Some? && !restored {
          status := status.(phase := RollbackFailed);
        }
        return false;
      }
      xray.dual := mode == Auto;
      singbox.dual := mode == Auto;
      status := status.(phase := Applied, revision := revision);
      EngineOutcome(xray, mode, enabled, xrayGot, force, old(xray.State()));
      EngineOutcome(singbox, mode, enabled, singboxGot, force, old(singbox.State()));
      var persisted := Try(calm);
      if persisted {
        persistedMode := Some(mode);
      }
      return persisted;
    }
  }
}
