/**
 One proxy engine as the panel sees it: the configuration file on disk, the
 process (if any) and the configuration that process was started with, and the
 dual-mode flag.  Every call that may fail is a relation between the state
 before and the state after; class `Engine` below implements the calls step by
 step and is proved to stay inside these relations.
 */
module ProxyEngine {
  import opened Wrappers

  datatype Kind = Xray | Singbox

  datatype Mode = Auto | XrayOnly | SingboxOnly

  /** An enabled row of the inbounds table. */
  datatype Inbound = Inbound(tag: string, protocol: string, port: nat)

  /** A generated configuration: the inbounds it serves, the loopback ports of
      its own API, and the rest of the text. */
  datatype Config = Config(inbounds: seq<Inbound>, apiPorts: set<nat>, rest: string)

  /** What the generators read from the database during one apply. */
  datatype Database = Database(enabled: seq<Inbound>, xrayApi: set<nat>, singboxApi: set<nat>,
                               xrayRest: string, singboxRest: string)

  function Ports(c: Config): set<nat> {
    c.apiPorts + set in_ <- c.inbounds :: in_.port
  }

  predicate IsXraySupported(protocol: string) {
    protocol in {"vless", "vmess", "trojan", "shadowsocks"}
  }

  /** Which enabled rows an engine keeps: Xray keeps what it supports whatever
      the mode; sing-box drops those rows only in dual mode. */
  predicate Keeps(kind: Kind, dual: bool, in_: Inbound) {
    match kind
    case Xray => IsXraySupported(in_.protocol)
    case Singbox => !(dual && IsXraySupported(in_.protocol))
  }

  function Kept(kind: Kind, dual: bool, rows: seq<Inbound>): seq<Inbound> {
    if rows == [] then []
    else
      var init := Kept(kind, dual, rows[..|rows| - 1]);
      if Keeps(kind, dual, rows[|rows| - 1]) then init + [rows[|rows| - 1]] else init
  }

  function ConfigFor(kind: Kind, dual: bool, db: Database): Config {
    var inbounds := Kept(kind, dual, db.enabled);
    match kind
    case Xray => Config(inbounds, db.xrayApi, db.xrayRest)
    case Singbox => Config(inbounds, db.singboxApi, db.singboxRest)
  }

  lemma {:induction false} KeptIsFilter(kind: Kind, dual: bool, rows: seq<Inbound>, in_: Inbound)
    ensures in_ in Kept(kind, dual, rows) <==> in_ in rows && Keeps(kind, dual, in_)
  {
    if rows != [] {
      var last := rows[|rows| - 1];
      assert rows == rows[..|rows| - 1] + [last];
      KeptIsFilter(kind, dual, rows[..|rows| - 1], in_);
    }
  }

  /** In dual mode the two generated configurations partition the enabled rows. */
  lemma DualModePartitions(db: Database, in_: Inbound)
    requires in_ in db.enabled
    ensures in_ in ConfigFor(Xray, true, db).inbounds <==> in_ !in ConfigFor(Singbox, true, db).inbounds
  {
    KeptIsFilter(Xray, true, db.enabled, in_);
    KeptIsFilter(Singbox, true, db.enabled, in_);
  }

  /** The filtering loop of both generators. */
  method FilterInbounds(kind: Kind, dual: bool, rows: seq<Inbound>) returns (kept: seq<Inbound>)
    ensures kept == Kept(kind, dual, rows)
  {
    kept := [];
    for i := 0 to |rows|
      invariant kept == Kept(kind, dual, rows[..i])
    {
      assert rows[..i + 1][..i] == rows[..i];
      if Keeps(kind, dual, rows[i]) {
        kept := kept + [rows[i]];
      }
    }
    assert rows[..|rows|] == rows;
  }

  datatype EngineState = EngineState(file: Option<Config>, proc: Option<Config>, dual: bool) {
    predicate Running() { proc.Some? }

    /** A live process serves the configuration that is on disk. */
    predicate Coherent() { proc.Some? ==> file == proc }
  }

  datatype Snapshot = Snapshot(config: Option<Config>, running: bool, dual: bool)

  function SnapshotOf(e: EngineState): Snapshot {
    Snapshot(e.file, e.Running(), e.dual)
  }

  /** The state a successful restore leaves. */
  function Restored(s: Snapshot): EngineState {
    EngineState(s.config, if s.running then s.config else None, s.dual)
  }

  /** Killing never touches files; a failed or timed-out kill may still have
      taken effect; stopping an engine without a process succeeds. */
  predicate StopRel(e: EngineState, ok: bool, e': EngineState) {
    && e'.file == e.file && e'.dual == e.dual
    && (e'.proc == e.proc || e'.proc.None?)
    && (ok ==> e'.proc.None?)
    && (e.proc.None? ==> ok)
  }

  /** A start refuses a live engine, replaces the file atomically, switches the
      mode, and only then launches the process. */
  predicate StartRel(e: EngineState, c: Config, dual: bool, ok: bool, e': EngineState) {
    if e.Running() then !ok && e' == e
    else if ok then e' == EngineState(Some(c), Some(c), dual)
    else e' == e || e' == EngineState(Some(c), None, dual)
  }

  /** A restore either reaches the snapshot exactly or leaves no process that
      was not there before. */
  predicate RestoreRel(e: EngineState, s: Snapshot, ok: bool, e': EngineState) {
    if ok then e' == Restored(s)
    else e' == e || (e'.proc.None? && e'.file in {e.file, s.config} && e'.dual in {e.dual, s.dual})
  }

  lemma RestoredSnapshotIsIdentity(e: EngineState)
    requires e.Coherent()
    ensures Restored(SnapshotOf(e)) == e
  {
  }

  /** engineAdapter over BaseCore.  In every call, `calm` says that no file
      operation, process or check fails during it. */
  class Engine {
    const kind: Kind
    var file: Option<Config>
    var proc: Option<Config>
    var dual: bool

    constructor (kind: Kind, file: Option<Config>)
      ensures this.kind == kind && State() == EngineState(file, None, false)
    {
      this.kind, this.file, this.proc, this.dual := kind, file, None, false;
    }

    function State(): EngineState
      reads this
    {
      EngineState(file, proc, dual)
    }

    /** Reading the state may fail; an unreadable file of a live engine is an
        error, a missing file of a stopped engine is not. */
    method TakeSnapshot(calm: bool) returns (ok: bool, s: Snapshot)
      ensures s == SnapshotOf(State())
      ensures ok && s.running ==> s.config.Some?
      ensures calm && (s.running ==> s.config.Some?) ==> ok
    {
      s := Snapshot(file, proc.Some?, dual);
      ok := Try(calm);
      if s.running && file.None? {
        ok := false;
      }
    }

    /** Generates and validates a candidate under the wanted mode, then puts the
        old mode back, whatever happened. */
    method Prepare(db: Database, wantDual: bool, calm: bool) returns (candidate: Option<Config>)
      modifies `dual
      ensures dual == old(dual)
      ensures calm ==> candidate.Some?
      ensures candidate.Some? ==> candidate.value == ConfigFor(kind, wantDual, db)
    {
      var oldMode := dual;
      dual := wantDual;
      var inbounds := FilterInbounds(kind, dual, db.enabled);
      var buildOk := Try(calm); // an inbound row with malformed JSON, or a temp file error
      var checkOk := Try(calm); // the engine's offline checker
      if buildOk && checkOk {
        candidate := Some(match kind
                          case Xray => Config(inbounds, db.xrayApi, db.xrayRest)
                          case Singbox => Config(inbounds, db.singboxApi, db.singboxRest));
      } else {
        candidate := None;
      }
      dual := oldMode;
    }

    method Stop(calm: bool) returns (ok: bool)
      modifies `proc
      ensures calm ==> ok
      ensures StopRel(old(State()), ok, State())
    {
      if proc.None? {
        return true;
      }
      var killOk := Try(calm);
      if !killOk {
        return false;
      }
      var reaped := Try(calm);
      if reaped {
        proc := None;
      }
      return reaped;
    }

    method Start(c: Config, mode: bool, calm: bool) returns (ok: bool)
      modifies this
      ensures calm && old(proc).None? ==> ok
      ensures StartRel(old(State()), c, mode, ok, State())
    {
      if proc.Some? {
        return false;
      }
      var writeOk := Try(calm);
      if !writeOk {
        return false;
      }
      file := Some(c);
      dual := mode;
      var launched := Try(calm); // offline check, exec and the early-crash window
      if launched {
        proc := Some(c);
      }
      return launched;
    }

    method Restore(s: Snapshot, calm: bool) returns (ok: bool)
      requires s.running ==> s.config.Some?
      modifies this
      ensures calm ==> ok
      ensures RestoreRel(old(State()), s, ok, State())
    {
      ok := Stop(calm);
      if !ok {
        return;
      }
      dual := s.dual;
      var fileOk := Try(calm);
      if s.config.None? {
        if fileOk {
          file := None;
        }
        return fileOk;
      }
      if s.running {
        ok := Start(s.config.value, s.dual, calm);
        return;
      }
      if fileOk {
        file := s.config;
      }
      return fileOk;
    }
  }
}
