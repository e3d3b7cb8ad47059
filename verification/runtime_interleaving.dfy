/**
 ApplyRuntime under concurrency: any number of callers, one gate, any number of
 engines, and every call of the transition as its own step, so that waiting,
 cancelling, crashing and failing interleave freely.  The safety property is
 that no two live engines hold a common port in any reachable state.
 */
module RuntimeInterleaving {
  import opened Wrappers
  import opened ProxyEngine

  /** What one caller asks for; `candidate` is what preflight generates. */
  datatype Plan = Plan(wanted: seq<bool>, dual: seq<bool>, force: bool, candidate: seq<Option<Config>>)

  datatype Phase =
    | Snapshotting(next: nat)
    | Stopping(next: nat)
    | Starting(next: nat)
    | Verifying
    | RollbackStopping(next: nat)
    | RollbackRestoring(next: nat)
    | Finished

  datatype Run = Run(plan: Plan, previous: seq<Snapshot>, phase: Phase)

  datatype Caller = Outside | Waiting | Inside(run: Run)

  /** `blemished` records that a stop call of some rollback has failed. */
  datatype World = World(engines: seq<EngineState>, callers: seq<Caller>, gateTaken: bool, blemished: bool)

  /** `Advance` carries the result of the engine call it stands for. */
  datatype Action =
    | Enter(caller: nat)
    | Cancel(caller: nat)
    | Acquire(caller: nat, plan: Plan)
    | Advance(caller: nat, ok: bool, after: EngineState)
    | Release(caller: nat)
    | Crash(engine: nat)

  ghost predicate Clash(a: Option<Config>, b: Option<Config>) {
    a.Some? && b.Some? && !(Ports(a.value) !! Ports(b.value))
  }

  ghost predicate PairwiseDisjoint(cs: seq<Option<Config>>) {
    forall i, j :: 0 <= i < j < |cs| ==> !Clash(cs[i], cs[j])
  }

  function Procs(es: seq<EngineState>): (ps: seq<Option<Config>>)
    ensures |ps| == |es| && forall i :: 0 <= i < |es| ==> ps[i] == es[i].proc
  {
    seq(|es|, i requires 0 <= i < |es| => es[i].proc)
  }

  /** No two live engines hold a common port. */
  ghost predicate NoPortConflict(w: World) {
    PairwiseDisjoint(Procs(w.engines))
  }

  ghost predicate WellFormedPlan(p: Plan, n: nat) {
    && |p.wanted| == |p.dual| == |p.candidate| == n
    && (forall i :: 0 <= i < n ==> (p.wanted[i] <==> p.candidate[i].Some?))
    && PairwiseDisjoint(p.candidate)
  }

  predicate Settled(r: Run, i: nat)
    requires i < |r.previous| && i < |r.plan.wanted| && i < |r.plan.dual| && i < |r.plan.candidate|
  {
    && !r.plan.force && r.previous[i].running == r.plan.wanted[i]
    && (r.plan.wanted[i] ==> r.previous[i].config == r.plan.candidate[i] && r.previous[i].dual == r.plan.dual[i])
  }

  /** Lengths that every started run keeps. */
  predicate Shaped(r: Run, n: nat) {
    && |r.plan.wanted| == |r.plan.dual| == |r.plan.candidate| == n
    && (match r.phase
        case Snapshotting(k) => |r.previous| == k <= n
        case Stopping(k) => |r.previous| == n && k <= n
        case Starting(k) => |r.previous| == n && k <= n
        case RollbackStopping(k) => |r.previous| == n && k <= n
        case RollbackRestoring(k) => |r.previous| == n && k <= n
        case Verifying => |r.previous| == n
        case Finished => true)
  }

  /** The engine call of a phase, as a relation; loops skip settled engines. */
  ghost predicate CallAllowed(r: Run, e: EngineState, i: nat, ok: bool, after: EngineState)
    requires i < |r.plan.wanted| && Shaped(r, |r.plan.wanted|)
  {
    match r.phase
    case Snapshotting(_) => after == e
    case Stopping(_) =>
      if Settled(r, i) then ok && after == e else StopRel(e, ok, after)
    case Starting(_) =>
      if Settled(r, i) || r.plan.candidate[i].None? then ok && after == e
      else StartRel(e, r.plan.candidate[i].value, r.plan.dual[i], ok, after)
    case RollbackStopping(_) =>
      if Settled(r, i) then ok && after == e else StopRel(e, ok, after)
    case RollbackRestoring(_) =>
      if Settled(r, i) then ok && after == e else RestoreRel(e, r.previous[i], ok, after)
    case Verifying => false
    case Finished => false
  }

  /** Where the run goes after the call for engine `next` (or after the loop). */
  function PhaseAfter(p: Phase, n: nat, ok: bool): Phase {
    match p
    case Snapshotting(k) => if !ok then Finished else if k < n then Snapshotting(k + 1) else Stopping(0)
    case Stopping(k) => if k == n then Starting(0) else if ok then Stopping(k + 1) else RollbackStopping(0)
    case Starting(k) => if k == n then Verifying else if ok then Starting(k + 1) else RollbackStopping(0)
    case Verifying => if ok then Finished else RollbackStopping(0)
    case RollbackStopping(k) => if k == n then RollbackRestoring(0) else RollbackStopping(k + 1)
    case RollbackRestoring(k) => if k == n then Finished else RollbackRestoring(k + 1)
    case Finished => Finished
  }

  /** The engine a phase is about to call, if its loop is not over. */
  function Current(p: Phase, n: nat): Option<nat> {
    if (p.Snapshotting? || p.Stopping? || p.Starting? || p.RollbackStopping? || p.RollbackRestoring?) && p.next < n
    then Some(p.next) else None
  }

  ghost predicate Enabled(w: World, a: Action) {
    match a
    case Enter(c) => c < |w.callers| && w.callers[c].Outside?
    case Cancel(c) => c < |w.callers| && w.callers[c].Waiting?
    case Acquire(c, plan) =>
      c < |w.callers| && w.callers[c].Waiting? && !w.gateTaken && WellFormedPlan(plan, |w.engines|)
    case Advance(c, ok, after) =>
      && c < |w.callers| && w.callers[c].Inside?
      && var r := w.callers[c].run;
      && Shaped(r, |w.engines|) && !r.phase.Finished?
      && var i := Current(r.phase, |w.engines|);
      (i.Some? ==> CallAllowed(r, w.engines[i.value], i.value, ok, after))
    case Release(c) => c < |w.callers| && w.callers[c].Inside? && w.callers[c].run.phase.Finished?
    case Crash(i) => i < |w.engines|
  }

  function AdvanceRun(r: Run, engines: seq<EngineState>, ok: bool): Run {
    var previous :=
      if r.phase.Snapshotting? && r.phase.next < |engines| && ok
      then r.previous + [SnapshotOf(engines[r.phase.next])]
      else r.previous;
    Run(r.plan, previous, PhaseAfter(r.phase, |engines|, ok))
  }

  ghost function After(w: World, a: Action): World
    requires Enabled(w, a)
  {
    match a
    case Enter(c) => w.(callers := w.callers[c := Waiting])
    case Cancel(c) => w.(callers := w.callers[c := Outside])
    case Acquire(c, plan) => w.(callers := w.callers[c := Inside(Run(plan, [], Snapshotting(0)))], gateTaken := true)
    case Advance(c, ok, after) =>
      var r := w.callers[c].run;
      var i := Current(r.phase, |w.engines|);
      World(if i.Some? then w.engines[i.value := after] else w.engines,
            w.callers[c := Inside(AdvanceRun(r, w.engines, ok))],
            w.gateTaken,
            w.blemished || (r.phase.RollbackStopping? && i.Some? && !ok))
    case Release(c) => w.(callers := w.callers[c := Outside], gateTaken := false)
    case Crash(i) => w.(engines := w.engines[i := w.engines[i].(proc := None)])
  }

  ghost predicate Initial(w: World) {
    && (forall i :: 0 <= i < |w.callers| ==> w.callers[i].Outside?)
    && (forall i :: 0 <= i < |w.engines| ==> w.engines[i].Coherent())
    && !w.gateTaken && !w.blemished && NoPortConflict(w)
  }

  /** `as_` is a possible sequence of steps from `w`. */
  ghost predicate Execution(w: World, as_: seq<Action>)
    decreases |as_|
  {
    as_ == [] || (Enabled(w, as_[0]) && Execution(After(w, as_[0]), as_[1..]))
  }

  ghost function Reached(w: World, as_: seq<Action>): World
    requires Execution(w, as_)
    decreases |as_|
  {
    if as_ == [] then w else Reached(After(w, as_[0]), as_[1..])
  }

  // ---------- The invariant ----------

  /** `a` is dead or serves exactly `b`. */
  predicate Within(a: Option<Config>, b: Option<Config>) { a.None? || a == b }

  function LiveIn(s: Snapshot): Option<Config> { if s.running then s.config else None }

  /** What each engine served when it was snapshotted, or serves now. */
  function Baseline(r: Run, es: seq<EngineState>): (b: seq<Option<Config>>)
    ensures |b| == |es|
    ensures forall i :: 0 <= i < |es| ==> b[i] == if i < |r.previous| then LiveIn(r.previous[i]) else es[i].proc
  {
    seq(|es|, i requires 0 <= i < |es| => if i < |r.previous| then LiveIn(r.previous[i]) else es[i].proc)
  }

  ghost predicate AllWithin(es: seq<EngineState>, b: seq<Option<Config>>)
    requires |es| == |b|
  {
    forall i :: 0 <= i < |es| ==> Within(es[i].proc, b[i])
  }

  /** The changed engines before index `k` are stopped. */
  ghost predicate StoppedBefore(r: Run, es: seq<EngineState>, k: nat)
    requires Shaped(r, |es|) && |r.previous| == |es|
  {
    forall i :: 0 <= i < k && i < |es| && !Settled(r, i) ==> es[i].proc.None?
  }

  ghost predicate RunInvariant(r: Run, es: seq<EngineState>) {
    && Shaped(r, |es|) && WellFormedPlan(r.plan, |es|)
    && (r.phase.Finished? ||
        (&& PairwiseDisjoint(Baseline(r, es))
         && match r.phase
            case Snapshotting(_) => AllWithin(es, Baseline(r, es))
            case Stopping(k) => AllWithin(es, Baseline(r, es)) && StoppedBefore(r, es, k)
            case Starting(_) => AllWithin(es, r.plan.candidate)
            case Verifying => AllWithin(es, r.plan.candidate)
            case RollbackStopping(k) =>
              (AllWithin(es, Baseline(r, es)) || AllWithin(es, r.plan.candidate)) && StoppedBefore(r, es, k)
            case RollbackRestoring(_) => AllWithin(es, Baseline(r, es))
            case Finished => true))
  }

  /** The gate token is out exactly while one caller is inside. */
  ghost predicate GateInvariant(w: World) {
    && (w.gateTaken <==> exists c :: 0 <= c < |w.callers| && w.callers[c].Inside?)
    && (forall c, d :: 0 <= c < |w.callers| && 0 <= d < |w.callers| && w.callers[c].Inside? && w.callers[d].Inside? ==> c == d)
  }

  ghost predicate Invariant(w: World) {
    && GateInvariant(w)
    && (forall i :: 0 <= i < |w.engines| ==> w.engines[i].Coherent())
    && (!w.blemished ==>
          && NoPortConflict(w)
          && forall c :: 0 <= c < |w.callers| && w.callers[c].Inside? ==> RunInvariant(w.callers[c].run, w.engines))
  }

  lemma WithinDisjoint(es: seq<EngineState>, b: seq<Option<Config>>)
    requires |es| == |b| && AllWithin(es, b) && PairwiseDisjoint(b)
    ensures PairwiseDisjoint(Procs(es))
  {
    forall i, j | 0 <= i < j < |es|
      ensures !Clash(es[i].proc, es[j].proc)
    {
      assert Within(es[i].proc, b[i]) && Within(es[j].proc, b[j]);
    }
  }

  lemma GatePreserved(w: World, a: Action)
    requires GateInvariant(w) && Enabled(w, a)
    ensures GateInvariant(After(w, a))
  {
    var w' := After(w, a);
    match a
    case Acquire(c, plan) => assert w'.callers[c].Inside?;
    case Advance(c, ok, after) => assert w'.callers[c].Inside?;
    case Release(c) =>
    case Enter(c) =>
      forall d | 0 <= d < |w.callers| && w.callers[d].Inside? ensures w'.callers[d].Inside? {}
    case Cancel(c) =>
      forall d | 0 <= d < |w.callers| && w.callers[d].Inside? ensures w'.callers[d].Inside? {}
    case Crash(i) =>
  }

  lemma CoherencePreserved(w: World, a: Action)
    requires (forall i :: 0 <= i < |w.engines| ==> w.engines[i].Coherent()) && Enabled(w, a)
    ensures forall i :: 0 <= i < |w.engines| ==> After(w, a).engines[i].Coherent()
  {
  }

  /** One step of the run of the caller inside. */
  lemma RunPreserved(r: Run, es: seq<EngineState>, ok: bool, after: EngineState)
    requires RunInvariant(r, es) && !r.phase.Finished?
    requires forall i :: 0 <= i < |es| ==> es[i].Coherent()
    requires Current(r.phase, |es|).Some? ==>
               CallAllowed(r, es[Current(r.phase, |es|).value], Current(r.phase, |es|).value, ok, after)
    requires r.phase.RollbackStopping? && Current(r.phase, |es|).Some? ==> ok
    ensures var i := Current(r.phase, |es|);
            var es' := if i.Some? then es[i.value := after] else es;
            var r' := AdvanceRun(r, es, ok);
            RunInvariant(r', es') && PairwiseDisjoint(Procs(es'))
  {
    var n := |es|;
    var i := Current(r.phase, n);
    var es' := if i.Some? then es[i.value := after] else es;
    var r' := AdvanceRun(r, es, ok);
    if !r.phase.Snapshotting? {
      assert Baseline(r', es') == Baseline(r, es);
    } else if i.Some? && ok {
      assert Baseline(r', es') == Baseline(r, es);
    }
    match r'.phase
    case Starting(_) => WithinDisjoint(es', r'.plan.candidate);
    case Verifying => WithinDisjoint(es', r'.plan.candidate);
    case RollbackStopping(_) =>
      if AllWithin(es', Baseline(r', es')) {
        WithinDisjoint(es', Baseline(r', es'));
      } else {
        WithinDisjoint(es', r'.plan.candidate);
      }
    case Finished =>
      if r.phase.Verifying? {
        WithinDisjoint(es', r.plan.candidate);
      } else {
        WithinDisjoint(es', Baseline(r, es));
      }
    case _ => WithinDisjoint(es', Baseline(r', es'));
  }

  lemma CrashPreservesRun(r: Run, es: seq<EngineState>, i: nat)
    requires RunInvariant(r, es) && i < |es| && PairwiseDisjoint(Procs(es))
    ensures RunInvariant(r, es[i := es[i].(proc := None)])
    ensures PairwiseDisjoint(Procs(es[i := es[i].(proc := None)]))
  {
    var es' := es[i := es[i].(proc := None)];
    WithinDisjoint(es', Procs(es));
    if !r.phase.Finished? {
      var b, b' := Baseline(r, es), Baseline(r, es');
      forall j, k | 0 <= j < k < |b'|
        ensures !Clash(b'[j], b'[k])
      {
        assert !Clash(b[j], b[k]);
      }
    }
  }

  lemma StepPreserves(w: World, a: Action)
    requires Invariant(w) && Enabled(w, a)
    ensures Invariant(After(w, a))
  {
    GatePreserved(w, a);
    CoherencePreserved(w, a);
    var w' := After(w, a);
    if !w'.blemished {
      match a
      case Advance(c, ok, after) =>
        RunPreserved(w.callers[c].run, w.engines, ok, after);
      case Crash(i) =>
        WithinDisjoint(w'.engines, Procs(w.engines));
        forall c | 0 <= c < |w'.callers| && w'.callers[c].Inside?
          ensures RunInvariant(w'.callers[c].run, w'.engines)
        {
          CrashPreservesRun(w.callers[c].run, w.engines, i);
        }
      case Acquire(c, plan) =>
        assert Baseline(Run(plan, [], Snapshotting(0)), w.engines) == Procs(w.engines);
      case _ =>
    }
  }

  lemma {:induction false} InvariantAlways(w: World, as_: seq<Action>)
    requires Invariant(w) && Execution(w, as_)
    ensures Invariant(Reached(w, as_))
    decreases |as_|
  {
    if as_ != [] {
      StepPreserves(w, as_[0]);
      InvariantAlways(After(w, as_[0]), as_[1..]);
    }
  }

  /** At most one caller is ever inside the transition. */
  lemma MutualExclusion(w: World, as_: seq<Action>, c: nat, d: nat)
    requires Initial(w) && Execution(w, as_)
    requires c < |Reached(w, as_).callers| && d < |Reached(w, as_).callers|
    requires Reached(w, as_).callers[c].Inside? && Reached(w, as_).callers[d].Inside?
    ensures c == d
  {
    InvariantAlways(w, as_);
  }

  /** In every reachable state, forward or rollback, no two live engines hold a
      common port, as long as no stop call of a rollback has failed. */
  lemma PortsNeverConflict(w: World, as_: seq<Action>)
    requires Initial(w) && Execution(w, as_)
    ensures !Reached(w, as_).blemished ==> NoPortConflict(Reached(w, as_))
  {
    InvariantAlways(w, as_);
  }

  // ---------- Failing rollback stops ----------

  /** A new configuration has a port of what another engine serves now.  Callers
      can look at this before they ask for the plan. */
  ghost predicate Crosses(p: Plan, es: seq<EngineState>) {
    exists i, j :: 0 <= i < |p.candidate| && 0 <= j < |es| && i != j && Clash(p.candidate[i], es[j].proc)
  }

  ghost predicate Apart(cs: seq<Option<Config>>, bs: seq<Option<Config>>) {
    forall i, j :: 0 <= i < |cs| && 0 <= j < |bs| && i != j ==> !Clash(cs[i], bs[j])
  }

  /** Every plan of the execution is apart from what the other engines serve when
      its caller gets the gate. */
  ghost predicate Careful(w: World, as_: seq<Action>)
    requires Execution(w, as_)
    decreases |as_|
  {
    as_ == [] || ((as_[0].Acquire? ==> !Crosses(as_[0].plan, w.engines)) && Careful(After(w, as_[0]), as_[1..]))
  }

  /** Each engine is dead, serves what it served at the snapshot, or serves its
      candidate, in any mixture; no stop needs to have worked for this. */
  ghost predicate Mixed(r: Run, es: seq<EngineState>) {
    && Shaped(r, |es|) && WellFormedPlan(r.plan, |es|)
    && (r.phase.Finished? ||
        (&& PairwiseDisjoint(Baseline(r, es)) && Apart(r.plan.candidate, Baseline(r, es))
         && forall i :: 0 <= i < |es| ==> Within(es[i].proc, Baseline(r, es)[i]) || Within(es[i].proc, r.plan.candidate[i])))
  }

  ghost predicate CarefulInvariant(w: World) {
    && GateInvariant(w) && NoPortConflict(w)
    && (forall i :: 0 <= i < |w.engines| ==> w.engines[i].Coherent())
    && forall c :: 0 <= c < |w.callers| && w.callers[c].Inside? ==> Mixed(w.callers[c].run, w.engines)
  }

  lemma MixtureDisjoint(es: seq<EngineState>, b: seq<Option<Config>>, cs: seq<Option<Config>>)
    requires |es| == |b| == |cs| && PairwiseDisjoint(b) && PairwiseDisjoint(cs) && Apart(cs, b)
    requires forall i :: 0 <= i < |es| ==> Within(es[i].proc, b[i]) || Within(es[i].proc, cs[i])
    ensures PairwiseDisjoint(Procs(es))
  {
    forall i, j | 0 <= i < j < |es|
      ensures !Clash(es[i].proc, es[j].proc)
    {
      assert !Clash(b[i], b[j]) && !Clash(cs[i], cs[j]) && !Clash(cs[i], b[j]) && !Clash(cs[j], b[i]);
    }
  }

  /** One step of the run inside, whatever it does. */
  lemma MixedPreserved(r: Run, es: seq<EngineState>, ok: bool, after: EngineState)
    requires Mixed(r, es) && !r.phase.Finished?
    requires forall i :: 0 <= i < |es| ==> es[i].Coherent()
    requires Current(r.phase, |es|).Some? ==>
               CallAllowed(r, es[Current(r.phase, |es|).value], Current(r.phase, |es|).value, ok, after)
    ensures var i := Current(r.phase, |es|);
            var es' := if i.Some? then es[i.value := after] else es;
            Mixed(AdvanceRun(r, es, ok), es') && PairwiseDisjoint(Procs(es'))
  {
    var i := Current(r.phase, |es|);
    var es' := if i.Some? then es[i.value := after] else es;
    var r' := AdvanceRun(r, es, ok);
    if !r'.phase.Finished? {
      assert Baseline(r', es') == Baseline(r, es);
    }
    MixtureDisjoint(es', Baseline(r, es), r.plan.candidate);
  }

  lemma CrashPreservesMixed(r: Run, es: seq<EngineState>, i: nat)
    requires Mixed(r, es) && i < |es|
    ensures Mixed(r, es[i := es[i].(proc := None)])
  {
    var es' := es[i := es[i].(proc := None)];
    if !r.phase.Finished? {
      var b, b' := Baseline(r, es), Baseline(r, es');
      assert forall j :: 0 <= j < |b'| ==> Within(b'[j], b[j]);
      forall j, k | 0 <= j < k < |b'| ensures !Clash(b'[j], b'[k]) {
        assert !Clash(b[j], b[k]);
      }
      forall j, k | 0 <= j < |b'| && 0 <= k < |b'| && j != k ensures !Clash(r.plan.candidate[j], b'[k]) {
        assert !Clash(r.plan.candidate[j], b[k]);
      }
    }
  }

  lemma CarefulStep(w: World, a: Action)
    requires CarefulInvariant(w) && Enabled(w, a)
    requires a.Acquire? ==> !Crosses(a.plan, w.engines)
    ensures CarefulInvariant(After(w, a))
  {
    GatePreserved(w, a);
    CoherencePreserved(w, a);
    var w' := After(w, a);
    match a
    case Advance(c, ok, after) =>
      MixedPreserved(w.callers[c].run, w.engines, ok, after);
    case Crash(i) =>
      WithinDisjoint(w'.engines, Procs(w.engines));
      forall c | 0 <= c < |w'.callers| && w'.callers[c].Inside?
        ensures Mixed(w'.callers[c].run, w'.engines)
      {
        CrashPreservesMixed(w.callers[c].run, w.engines, i);
      }
    case Acquire(c, plan) =>
      assert Baseline(Run(plan, [], Snapshotting(0)), w.engines) == Procs(w.engines);
    case _ =>
  }

  lemma {:induction false} CarefulAlways(w: World, as_: seq<Action>)
    requires CarefulInvariant(w) && Execution(w, as_) && Careful(w, as_)
    ensures CarefulInvariant(Reached(w, as_))
    decreases |as_|
  {
    if as_ != [] {
      CarefulStep(w, as_[0]);
      CarefulAlways(After(w, as_[0]), as_[1..]);
    }
  }

  /** Whatever fails, rollback stops included: when no plan crosses what the other
      engines serve, no two live engines ever hold a common port. */
  lemma CarefulPortsNeverConflict(w: World, as_: seq<Action>)
    requires Initial(w) && Execution(w, as_) && Careful(w, as_)
    ensures NoPortConflict(Reached(w, as_))
  {
    CarefulAlways(w, as_);
  }

  // ---------- A plan that crosses can conflict ----------

  lemma ExecutionStep(w: World, as_: seq<Action>, a: Action)
    requires Execution(w, as_) && Enabled(Reached(w, as_), a)
    ensures Execution(w, as_ + [a]) && Reached(w, as_ + [a]) == After(Reached(w, as_), a)
    decreases |as_|
  {
    if as_ == [] {
      assert Execution(After(w, a), []);
    } else {
      assert (as_ + [a])[1..] == as_[1..] + [a];
      ExecutionStep(After(w, as_[0]), as_[1..], a);
    }
  }

  /** Nobody gets the gate. */
  ghost predicate NoAcquire(as_: seq<Action>) {
    forall i :: 0 <= i < |as_| ==> !as_[i].Acquire?
  }

  /** From `w` caller `c` can come, without anyone getting the gate, to run `r`
      with the engines in states `es`. */
  ghost predicate Comes(w: World, c: nat, es: seq<EngineState>, r: Run) {
    c < |w.callers| && exists as_ :: ComesBy(w, c, es, r, as_)
  }

  ghost predicate ComesBy(w: World, c: nat, es: seq<EngineState>, r: Run, as_: seq<Action>)
    requires c < |w.callers|
  {
    && Execution(w, as_) && NoAcquire(as_)
    && Reached(w, as_).engines == es && Reached(w, as_).callers == w.callers[c := Inside(r)]
  }

  lemma Advances(w: World, c: nat, es: seq<EngineState>, r: Run, ok: bool, after: EngineState)
    requires Comes(w, c, es, r) && Shaped(r, |es|) && !r.phase.Finished?
    requires var i := Current(r.phase, |es|); i.Some? ==> CallAllowed(r, es[i.value], i.value, ok, after)
    ensures var i := Current(r.phase, |es|);
            Comes(w, c, if i.Some? then es[i.value := after] else es, AdvanceRun(r, es, ok))
  {
    var as_ :| ComesBy(w, c, es, r, as_);
    var a := Advance(c, ok, after);
    ExecutionStep(w, as_, a);
    var i := Current(r.phase, |es|);
    assert ComesBy(w, c, if i.Some? then es[i.value := after] else es, AdvanceRun(r, es, ok), as_ + [a]);
  }

  function Snapshots(es: seq<EngineState>): (ss: seq<Snapshot>)
    ensures |ss| == |es|
  {
    seq(|es|, i requires 0 <= i < |es| => SnapshotOf(es[i]))
  }

  lemma {:induction false} SnapshotLoop(w: World, c: nat, plan: Plan, es: seq<EngineState>, k: nat)
    requires k <= |es| && WellFormedPlan(plan, |es|)
    requires Comes(w, c, es, Run(plan, Snapshots(es)[..k], Snapshotting(k)))
    ensures Comes(w, c, es, Run(plan, Snapshots(es), Stopping(0)))
    decreases |es| - k
  {
    var r := Run(plan, Snapshots(es)[..k], Snapshotting(k));
    if k < |es| {
      Advances(w, c, es, r, true, es[k]);
      assert es[k := es[k]] == es;
      assert Snapshots(es)[..k] + [SnapshotOf(es[k])] == Snapshots(es)[..k + 1];
      SnapshotLoop(w, c, plan, es, k + 1);
    } else {
      assert Snapshots(es)[..k] == Snapshots(es);
      Advances(w, c, es, r, true, EngineState(None, None, false));
    }
  }

  /** A loop of the transition over all engines, with these results. */
  lemma {:induction false} CallLoop(w: World, c: nat, r: Run, from: seq<EngineState>, to: seq<EngineState>, oks: seq<bool>, k: nat)
    requires |from| == |to| == |oks| && k <= |from| && Shaped(r, |from|)
    requires (r.phase.Stopping? || r.phase.Starting? || r.phase.RollbackStopping? || r.phase.RollbackRestoring?) && r.phase.next == k
    requires Comes(w, c, to[..k] + from[k..], r)
    requires forall i :: k <= i < |from| ==> CallAllowed(r, from[i], i, oks[i], to[i])
    requires forall i :: k <= i < |from| ==> oks[i] || r.phase.RollbackStopping? || r.phase.RollbackRestoring?
    ensures Comes(w, c, to, r.(phase := r.phase.(next := |from|)))
    decreases |from| - k
  {
    if k < |from| {
      var es := to[..k] + from[k..];
      Advances(w, c, es, r, oks[k], to[k]);
      assert es[k := to[k]] == to[..k + 1] + from[k + 1..];
      CallLoop(w, c, AdvanceRun(r, es, oks[k]), from, to, oks, k + 1);
    } else {
      assert to[..k] + from[k..] == to;
    }
  }

  /** One whole loop, and the step to the next phase. */
  lemma WholeLoop(w: World, c: nat, r: Run, from: seq<EngineState>, to: seq<EngineState>, oks: seq<bool>)
    requires |from| == |to| == |oks| && Shaped(r, |from|)
    requires r.phase in {Stopping(0), Starting(0), RollbackStopping(0), RollbackRestoring(0)}
    requires Comes(w, c, from, r)
    requires forall i :: 0 <= i < |from| ==> CallAllowed(r, from[i], i, oks[i], to[i])
    requires forall i :: 0 <= i < |from| ==> oks[i] || r.phase.RollbackStopping? || r.phase.RollbackRestoring?
    ensures Comes(w, c, to, r.(phase := PhaseAfter(r.phase.(next := |from|), |from|, true)))
  {
    assert to[..0] + from[0..] == from;
    CallLoop(w, c, r, from, to, oks, 0);
    Advances(w, c, to, r.(phase := r.phase.(next := |from|)), true, EngineState(None, None, false));
  }

  function Stopped(e: EngineState): EngineState { e.(proc := None) }

  /** The engines after all stops, after all starts, and after a rollback in which
      only engine `bad` could be neither stopped nor restored. */
  function AfterStops(r: Run, es: seq<EngineState>): (es': seq<EngineState>)
    requires Shaped(r, |es|) && |r.previous| == |es|
    ensures |es'| == |es| && forall i :: 0 <= i < |es| ==> es'[i] == if Settled(r, i) then es[i] else Stopped(es[i])
  {
    seq(|es|, i requires 0 <= i < |es| => if Settled(r, i) then es[i] else Stopped(es[i]))
  }

  function AfterStarts(r: Run, es: seq<EngineState>): (es': seq<EngineState>)
    requires Shaped(r, |es|) && |r.previous| == |es|
    ensures |es'| == |es|
    ensures forall i :: 0 <= i < |es| ==> es'[i] == if Settled(r, i) || r.plan.candidate[i].None? then es[i]
                                                     else EngineState(r.plan.candidate[i], r.plan.candidate[i], r.plan.dual[i])
  {
    seq(|es|, i requires 0 <= i < |es| => if Settled(r, i) || r.plan.candidate[i].None? then es[i]
                                           else EngineState(r.plan.candidate[i], r.plan.candidate[i], r.plan.dual[i]))
  }

  function AfterRollbackStops(r: Run, es: seq<EngineState>, bad: nat): (es': seq<EngineState>)
    requires Shaped(r, |es|) && |r.previous| == |es|
    ensures |es'| == |es| && forall i :: 0 <= i < |es| ==> es'[i] == if i == bad || Settled(r, i) then es[i] else Stopped(es[i])
  {
    seq(|es|, i requires 0 <= i < |es| => if i == bad || Settled(r, i) then es[i] else Stopped(es[i]))
  }

  function AfterRestores(r: Run, es: seq<EngineState>, bad: nat): (es': seq<EngineState>)
    requires Shaped(r, |es|) && |r.previous| == |es|
    ensures |es'| == |es| && forall i :: 0 <= i < |es| ==> es'[i] == if i == bad || Settled(r, i) then es[i] else Restored(r.previous[i])
  {
    seq(|es|, i requires 0 <= i < |es| => if i == bad || Settled(r, i) then es[i] else Restored(r.previous[i]))
  }

  function AllBut(n: nat, bad: int): (oks: seq<bool>)
    ensures |oks| == n && forall i :: 0 <= i < n ==> oks[i] == (i != bad)
  {
    seq(n, i requires 0 <= i < n => i != bad)
  }

  /** Everything is stopped and started, and the verification fails. */
  lemma ForwardLoops(w: World, c: nat, plan: Plan, es: seq<EngineState>)
    requires WellFormedPlan(plan, |es|) && Comes(w, c, es, Run(plan, Snapshots(es), Stopping(0)))
    ensures var r := Run(plan, Snapshots(es), RollbackStopping(0));
            Comes(w, c, AfterStarts(r, AfterStops(r, es)), r)
  {
    var r := Run(plan, Snapshots(es), Stopping(0));
    var stopped := AfterStops(r, es);
    WholeLoop(w, c, r, es, stopped, AllBut(|es|, -1));
    r := r.(phase := Starting(0));
    var started := AfterStarts(r, stopped);
    WholeLoop(w, c, r, stopped, started, AllBut(|es|, -1));
    Advances(w, c, started, r.(phase := Verifying), false, EngineState(None, None, false));
    r := r.(phase := RollbackStopping(0));
    assert AfterStops(r, es) == stopped && AfterStarts(r, stopped) == started;
  }

  /** The rollback fails for engine `bad` alone. */
  lemma RollbackLoops(w: World, c: nat, r: Run, es: seq<EngineState>, bad: nat)
    requires r.phase == RollbackStopping(0) && Shaped(r, |es|) && bad < |es| && es[bad].proc.Some? && !Settled(r, bad)
    requires Comes(w, c, es, r)
    ensures Comes(w, c, AfterRestores(r, AfterRollbackStops(r, es, bad), bad), r.(phase := Finished))
  {
    var stopped := AfterRollbackStops(r, es, bad);
    WholeLoop(w, c, r, es, stopped, AllBut(|es|, bad));
    var r' := r.(phase := RollbackRestoring(0));
    assert AfterRestores(r', stopped, bad) == AfterRestores(r, stopped, bad);
    WholeLoop(w, c, r', stopped, AfterRestores(r', stopped, bad), AllBut(|es|, bad));
  }

  /** Nobody is inside, and the engines are in order. */
  ghost predicate Idle(w: World) {
    && (forall c :: 0 <= c < |w.callers| ==> !w.callers[c].Inside?) && !w.gateTaken
    && (forall i :: 0 <= i < |w.engines| ==> w.engines[i].Coherent()) && NoPortConflict(w)
  }

  /** Caller `c` gets the gate for `plan`, and `as_` follows. */
  ghost predicate ConflictBy(w: World, c: nat, plan: Plan, as_: seq<Action>) {
    && NoAcquire(as_) && Execution(w, [Acquire(c, plan)] + as_)
    && !NoPortConflict(Reached(w, [Acquire(c, plan)] + as_))
  }

  /** When a plan crosses what another engine serves, its transition can end with
      both on one port: the verification fails, and the rollback can neither stop
      nor restore the first engine but restores the second. */
  lemma FailedRollbackStopCanConflict(w: World, c: nat, plan: Plan) returns (as_: seq<Action>)
    requires Idle(w) && c < |w.callers| && w.callers[c].Waiting? && WellFormedPlan(plan, |w.engines|)
    requires Crosses(plan, w.engines)
    ensures ConflictBy(w, c, plan, as_)
  {
    var i, j :| 0 <= i < |plan.candidate| && 0 <= j < |w.engines| && i != j && Clash(plan.candidate[i], w.engines[j].proc);
    var a := Acquire(c, plan);
    BothChange(w, plan, i, j);
    as_ := FailingRun(After(w, a), c, plan, i, j);
    assert ([a] + as_)[1..] == as_;
  }

  /** The failing transition, from the moment the caller is inside. */
  lemma FailingRun(w: World, c: nat, plan: Plan, i: nat, j: nat) returns (as_: seq<Action>)
    requires c < |w.callers| && w.callers[c] == Inside(Run(plan, [], Snapshotting(0))) && WellFormedPlan(plan, |w.engines|)
    requires i < |w.engines| && j < |w.engines| && i != j && Clash(plan.candidate[i], w.engines[j].proc)
    requires var r := Run(plan, Snapshots(w.engines), RollbackStopping(0)); !Settled(r, i) && !Settled(r, j)
    requires w.engines[j].Coherent()
    ensures NoAcquire(as_) && Execution(w, as_) && !NoPortConflict(Reached(w, as_))
  {
    var es := w.engines;
    var r := Run(plan, Snapshots(es), RollbackStopping(0));
    assert w.callers[c := Inside(Run(plan, [], Snapshotting(0)))] == w.callers;
    assert ComesBy(w, c, es, Run(plan, Snapshots(es)[..0], Snapshotting(0)), []);
    SnapshotLoop(w, c, plan, es, 0);
    ForwardLoops(w, c, plan, es);
    var started := AfterStarts(r, AfterStops(r, es));
    RollbackLoops(w, c, r, started, i);
    var end := AfterRestores(r, AfterRollbackStops(r, started, i), i);
    as_ :| ComesBy(w, c, end, r.(phase := Finished), as_);
    ClashShows(end, i, j);
  }

  lemma ClashShows(es: seq<EngineState>, i: nat, j: nat)
    requires i < |es| && j < |es| && i != j && Clash(es[i].proc, es[j].proc)
    ensures !PairwiseDisjoint(Procs(es))
  {
    var lo, hi := if i < j then i else j, if i < j then j else i;
    assert Clash(Procs(es)[lo], Procs(es)[hi]);
  }

  /** Engines that clash across are both changed by the plan. */
  lemma BothChange(w: World, plan: Plan, i: nat, j: nat)
    requires Idle(w) && WellFormedPlan(plan, |w.engines|)
    requires i < |w.engines| && j < |w.engines| && i != j && Clash(plan.candidate[i], w.engines[j].proc)
    ensures var r := Run(plan, Snapshots(w.engines), RollbackStopping(0)); !Settled(r, i) && !Settled(r, j)
  {
    var ps := Procs(w.engines);
    assert !Clash(ps[i], ps[j]) && !Clash(plan.candidate[i], plan.candidate[j]) by {
      if i < j {
        assert !Clash(ps[i], ps[j]) && !Clash(plan.candidate[i], plan.candidate[j]);
      } else {
        assert !Clash(ps[j], ps[i]) && !Clash(plan.candidate[j], plan.candidate[i]);
      }
    }
  }

  /** Exactly then.  From any idle state, the transition of one plan, with any
      failures, crashes and other callers coming and going, can reach two live
      engines on one port if and only if the plan crosses. */
  lemma ConflictIff(w: World, c: nat, plan: Plan)
    requires Idle(w) && c < |w.callers| && w.callers[c].Waiting? && WellFormedPlan(plan, |w.engines|)
    ensures (exists as_ :: ConflictBy(w, c, plan, as_)) <==> Crosses(plan, w.engines)
  {
    if Crosses(plan, w.engines) {
      var as_ := FailedRollbackStopCanConflict(w, c, plan);
    } else {
      var a := Acquire(c, plan);
      forall as_ | NoAcquire(as_) && Execution(w, [a] + as_)
        ensures NoPortConflict(Reached(w, [a] + as_))
      {
        assert ([a] + as_)[1..] == as_;
        CarefulStep(w, a);
        NoAcquireIsCareful(After(w, a), as_);
        CarefulAlways(After(w, a), as_);
      }
    }
  }

  lemma {:induction false} NoAcquireIsCareful(w: World, as_: seq<Action>)
    requires Execution(w, as_) && NoAcquire(as_)
    ensures Careful(w, as_)
    decreases |as_|
  {
    if as_ != [] {
      NoAcquireIsCareful(After(w, as_[0]), as_[1..]);
    }
  }
}
