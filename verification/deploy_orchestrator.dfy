/**
 The Smart Deploy orchestrator.  Every database write, file write and table
 change is its own call and may fail; `Valid` holds after each of them, so the
 write-ahead property it contains holds at every step of every run.
 */
module DeployOrchestrator {
  import opened Wrappers
  import opened DeployLog

  datatype Status = Running | Succeeded | FailedDeployment | RolledBack

  /** The drop-in the named operation writes, if it writes one. */
  datatype TuneSpec = TuneSpec(op: string, dropin: Option<Dropin>) {
    function Path(): Option<Path> { if dropin.Some? then Some(dropin.value.path) else None }

    function Content(): string { if dropin.Some? then dropin.value.content else "" }
  }
  datatype Dropin = Dropin(path: Path, content: string)

  datatype InboundSpec = InboundSpec(row: InboundRow, uuids: seq<string>)

  datatype Plan = Plan(tuning: seq<TuneSpec>, inbounds: seq<InboundSpec>) {
    /** The files its operations write. */
    function Paths(): set<Path> { set t <- tuning | t.dropin.Some? :: t.dropin.value.path }
  }

  /** `torn` and `stray`: the file or the inbound that a failed operation has left
      behind.  `misread`: the files whose first read by the deployment failed. */
  datatype StepResult = StepResult(ok: bool, torn: set<Path>, stray: set<nat>, misread: set<Path>)

  /** `Deployed(saved := false)`: only the final status could not be saved; the
      caller sees an error, but the deployment is live.  `Undone`: `clean` says
      that the rollback reverted everything; `lost` are the files whose content no
      row could keep. */
  datatype ApplyResult =
    | Refused
    | Deployed(deployment: nat, saved: bool, misread: set<Path>, ids: seq<nat>)
    | Undone(clean: bool, torn: set<Path>, stray: set<nat>, lost: set<Path>, misread: set<Path>)

  /** The indices a rollback of deployment `d` selects, in table order. */
  function Selected(rows: seq<OpRow>, d: nat): (r: seq<nat>)
    ensures forall a :: 0 <= a < |r| ==> r[a] < |rows| && rows[r[a]].deployment == d && rows[r[a]].Revertible()
    ensures forall a, b :: 0 <= a < b < |r| ==> r[a] < r[b]
    ensures forall i: nat :: i < |rows| && rows[i].deployment == d && rows[i].Revertible() ==> i in r
  {
    if rows == [] then []
    else
      var n: nat := |rows| - 1;
      Selected(rows[..n], d) + if rows[n].deployment == d && rows[n].Revertible() then [n] else []
  }

  /** What those rows recorded. */
  function Log(rows: seq<OpRow>, d: nat): seq<Post> {
    if rows == [] then []
    else
      var n := |rows| - 1;
      Log(rows[..n], d) + if rows[n].deployment == d && rows[n].Revertible() then [rows[n].post] else []
  }

  lemma {:induction false} LogIsSelected(rows: seq<OpRow>, d: nat)
    ensures |Log(rows, d)| == |Selected(rows, d)|
    ensures forall m :: 0 <= m < |Selected(rows, d)| ==> Log(rows, d)[m] == rows[Selected(rows, d)[m]].post
  {
    if rows != [] {
      LogIsSelected(rows[..|rows| - 1], d);
    }
  }

  lemma LogOfLast(init: seq<OpRow>, row: OpRow, d: nat)
    ensures Log(init + [row], d) == Log(init, d) + if row.deployment == d && row.Revertible() then [row.post] else []
  {
    assert (init + [row])[..|init|] == init;
  }

  lemma {:induction false} LogOfFresh(rows: seq<OpRow>, d: nat)
    requires forall i :: 0 <= i < |rows| ==> rows[i].deployment != d
    ensures Log(rows, d) == []
  {
    if rows != [] {
      LogOfFresh(rows[..|rows| - 1], d);
    }
  }

  /** Completing the open last row of `d` adds at most its own entry. */
  lemma LogOfCompleted(rows: seq<OpRow>, row: OpRow, d: nat)
    requires rows != [] && rows[|rows| - 1].deployment == row.deployment == d && !rows[|rows| - 1].Revertible()
    ensures Log(rows[|rows| - 1 := row], d) == Log(rows, d) + if row.Revertible() then [row.post] else []
  {
    var init := rows[..|rows| - 1];
    assert rows == init + [rows[|rows| - 1]] && rows[|rows| - 1 := row] == init + [row];
    LogOfLast(init, rows[|rows| - 1], d);
    LogOfLast(init, row, d);
  }

  function Posts(rows: seq<OpRow>): (posts: seq<Post>)
    ensures |posts| == |rows| && forall i :: 0 <= i < |rows| ==> posts[i] == rows[i].post
  {
    seq(|rows|, i requires 0 <= i < |rows| => rows[i].post)
  }

  /** The rows a rollback of `d` selects, as a set. */
  function Chosen(rows: seq<OpRow>, d: nat): set<nat> {
    set i: nat | i < |rows| && rows[i].deployment == d && rows[i].Revertible()
  }

  // ---------- What is in place ----------

  /** The log and what it does not say: the rows whose tuning or inbound effect may
      still be in place, the row that created an inbound, the file a row writes. */
  datatype Ledger = Ledger(rows: seq<OpRow>, inPlace: set<nat>, owner: map<nat, nat>, drops: map<nat, Path>)

  /** Every effect in place has a row written before it, and all but at most one
      such row of a deployment say "applied" or "revert_failed". */
  ghost predicate WriteAhead(l: Ledger) {
    && (forall k :: k in l.inPlace ==> k < |l.rows| && l.rows[k].opType != CertOp)
    && (forall k, m :: k in l.inPlace && m in l.inPlace && k != m && l.rows[k].deployment == l.rows[m].deployment ==>
          l.rows[k].Revertible() || l.rows[m].Revertible())
  }

  /** What is in place can be seen in the tables: the row that created an inbound
      still there is in place, and deletes that inbound when it is reverted. */
  ghost predicate Owned(l: Ledger, inbounds: map<nat, InboundRow>, nextInbound: nat) {
    && (forall id :: id in l.owner ==> id < nextInbound && l.owner[id] < |l.rows| && l.rows[l.owner[id]].opType == InboundOp)
    && (forall id :: id in l.owner && id in inbounds ==> l.owner[id] in l.inPlace)
    && (forall id, other :: id in l.owner && other in l.owner && l.owner[id] == l.owner[other] ==> id == other)
    && (forall i :: 0 <= i < |l.rows| && l.rows[i].post.InboundPost? ==> Creates(l, i, l.rows[i].post.id))
  }

  predicate Creates(l: Ledger, k: nat, id: nat) { id in l.owner && l.owner[id] == k }

  /** A row records no file but the one it writes. */
  ghost predicate Recorded(l: Ledger) {
    && (forall k :: k in l.drops ==> k < |l.rows|)
    && (forall i :: 0 <= i < |l.rows| && l.rows[i].post.TunePost? ==> OwnFile(l, i, l.rows[i].post.snap))
  }

  ghost predicate OwnFile(l: Ledger, k: nat, snap: Files) {
    forall p :: p in snap ==> k in l.drops && l.drops[k] == p
  }

  /** `post` is what row `k` may record. */
  ghost predicate PostOf(l: Ledger, k: nat, post: Post)
    requires k < |l.rows|
  {
    match post
    case Nothing => true
    case TunePost(snap) => l.rows[k].opType == TuneOp && OwnFile(l, k, snap)
    case InboundPost(id) => l.rows[k].opType == InboundOp && Creates(l, k, id)
  }

  /** No effect of deployment `d`, row `k` apart, is in place without saying so. */
  ghost predicate OthersSettled(l: Ledger, d: nat, k: nat) {
    forall m :: m in l.inPlace && m != k && m < |l.rows| && l.rows[m].deployment == d ==> l.rows[m].Revertible()
  }

  predicate KeysBelow(inbounds: map<nat, InboundRow>, clients: map<nat, ClientRow>, nextInbound: nat, nextClient: nat) {
    && (forall id :: id in inbounds ==> id < nextInbound)
    && (forall c :: c in clients ==> c < nextClient && clients[c].inboundID < nextInbound)
  }

  lemma KeysAdded(inbounds: map<nat, InboundRow>, clients: map<nat, ClientRow>, id: nat, row: InboundRow, next: nat, uuids: seq<string>)
    requires KeysBelow(inbounds, clients, id, next)
    ensures KeysBelow(inbounds[id := row], clients + NewClients(id, next, uuids), id + 1, next + |uuids|)
    ensures id !in inbounds
  {
  }

  lemma CreationUndone(s: System, id: nat, row: InboundRow, next: nat, uuids: seq<string>)
    requires KeysBelow(s.inbounds, s.clients, id, next)
    ensures RevertPost(System(s.files, s.inbounds[id := row], s.clients + NewClients(id, next, uuids)), InboundPost(id)) == s
  {
    InboundRoundTrip(s, id, row, next, uuids);
  }

  lemma KeysRemoved(s: System, id: nat, nextInbound: nat, nextClient: nat)
    requires KeysBelow(s.inbounds, s.clients, nextInbound, nextClient)
    ensures KeysBelow(RemoveInbound(s, id).inbounds, RemoveInbound(s, id).clients, nextInbound, nextClient)
  {
  }

  /** Row `k`, which has created nothing yet, creates inbound `id`. */
  lemma OwnerAdded(l: Ledger, k: nat, inbounds: map<nat, InboundRow>, id: nat, row: InboundRow)
    requires WriteAhead(l) && Owned(l, inbounds, id) && Recorded(l)
    requires k < |l.rows| && l.rows[k].opType == InboundOp && OthersSettled(l, l.rows[k].deployment, k)
    requires forall other :: other in l.owner ==> l.owner[other] != k
    ensures var l' := l.(inPlace := l.inPlace + {k}, owner := l.owner[id := k]);
            WriteAhead(l') && Owned(l', inbounds[id := row], id + 1) && Recorded(l')
  {
    hide WriteAhead, Recorded, OthersSettled;
    var l' := l.(inPlace := l.inPlace + {k}, owner := l.owner[id := k]);
    PlaceAdded(l, l', k);
    SameRecords(l, l');
    forall i | 0 <= i < |l.rows| && l.rows[i].post.InboundPost? ensures Creates(l', i, l.rows[i].post.id) {
      assert Creates(l, i, l.rows[i].post.id);
    }
  }

  lemma PlaceAdded(l: Ledger, l': Ledger, k: nat)
    requires WriteAhead(l) && l'.rows == l.rows && l'.inPlace == l.inPlace + {k}
    requires k < |l.rows| && l.rows[k].opType != CertOp && OthersSettled(l, l.rows[k].deployment, k)
    ensures WriteAhead(l')
  {
  }

  lemma SameRecords(l: Ledger, l': Ledger)
    requires Recorded(l) && l'.rows == l.rows && l'.drops == l.drops
    ensures Recorded(l')
  {
    forall i | 0 <= i < |l'.rows| && l'.rows[i].post.TunePost? ensures OwnFile(l', i, l'.rows[i].post.snap) {
      assert OwnFile(l, i, l.rows[i].post.snap);
    }
  }

  lemma OwnerRemoved(l: Ledger, k: nat, inbounds: map<nat, InboundRow>, id: nat, next: nat)
    requires WriteAhead(l) && Owned(l, inbounds, next) && Recorded(l) && Creates(l, k, id)
    ensures var l' := l.(inPlace := l.inPlace - {k}); WriteAhead(l') && Owned(l', inbounds - {id}, next) && Recorded(l')
  {
    var l' := l.(inPlace := l.inPlace - {k});
    SameRecords(l, l');
    SameCreations(l, l');
  }

  lemma SameCreations(l: Ledger, l': Ledger)
    requires l'.rows == l.rows && l'.owner == l.owner
    requires forall i :: 0 <= i < |l.rows| && l.rows[i].post.InboundPost? ==> Creates(l, i, l.rows[i].post.id)
    ensures forall i :: 0 <= i < |l.rows| && l.rows[i].post.InboundPost? ==> Creates(l', i, l.rows[i].post.id)
  {
    forall i | 0 <= i < |l.rows| && l.rows[i].post.InboundPost? ensures Creates(l', i, l.rows[i].post.id) {
      assert Creates(l, i, l.rows[i].post.id);
    }
  }

  /** A tuning row has created no inbound. */
  lemma TuneRemoved(l: Ledger, k: nat, inbounds: map<nat, InboundRow>, next: nat)
    requires WriteAhead(l) && Owned(l, inbounds, next) && Recorded(l) && k < |l.rows| && l.rows[k].opType == TuneOp
    ensures var l' := l.(inPlace := l.inPlace - {k}); WriteAhead(l') && Owned(l', inbounds, next) && Recorded(l')
  {
    var l' := l.(inPlace := l.inPlace - {k});
    SameRecords(l, l');
    SameCreations(l, l');
  }

  /** Row `k`, which has recorded nothing yet, is about to write a file or none. */
  lemma DropAdded(l: Ledger, k: nat, path: Option<Path>, inbounds: map<nat, InboundRow>, next: nat)
    requires WriteAhead(l) && Owned(l, inbounds, next) && Recorded(l)
    requires k < |l.rows| && l.rows[k].opType == TuneOp && l.rows[k].post == Nothing && OthersSettled(l, l.rows[k].deployment, k)
    ensures var l' := WithDrop(l, k, path); WriteAhead(l') && Owned(l', inbounds, next) && Recorded(l')
  {
    hide WriteAhead, OthersSettled;
    var l' := WithDrop(l, k, path);
    PlaceAdded(l, l', k);
    SameCreations(l, l');
    forall i | 0 <= i < |l'.rows| && l'.rows[i].post.TunePost? ensures OwnFile(l', i, l'.rows[i].post.snap) {
      assert OwnFile(l, i, l.rows[i].post.snap);
    }
  }

  function WithDrop(l: Ledger, k: nat, path: Option<Path>): Ledger {
    l.(inPlace := l.inPlace + {k}, drops := if path.Some? then l.drops[k := path.value] else l.drops)
  }

  lemma RowAdded(l: Ledger, row: OpRow, inbounds: map<nat, InboundRow>, next: nat)
    requires WriteAhead(l) && Owned(l, inbounds, next) && Recorded(l) && row.post == Nothing
    ensures var l' := l.(rows := l.rows + [row]); WriteAhead(l') && Owned(l', inbounds, next) && Recorded(l')
  {
    var l' := l.(rows := l.rows + [row]);
    forall i | 0 <= i < |l'.rows| && l'.rows[i].post.InboundPost? ensures Creates(l', i, l'.rows[i].post.id) {
      assert Creates(l, i, l.rows[i].post.id);
    }
    forall i | 0 <= i < |l'.rows| && l'.rows[i].post.TunePost? ensures OwnFile(l', i, l'.rows[i].post.snap) {
      assert OwnFile(l, i, l.rows[i].post.snap);
    }
  }

  lemma RowSaved(l: Ledger, k: nat, post: Post, status: OpStatus, inbounds: map<nat, InboundRow>, next: nat)
    requires WriteAhead(l) && Owned(l, inbounds, next) && Recorded(l) && k < |l.rows| && PostOf(l, k, post)
    requires k in l.inPlace && status !in {Applied, RevertFailed} ==> OthersSettled(l, l.rows[k].deployment, k)
    ensures var l' := l.(rows := l.rows[k := l.rows[k].(post := post, status := status)]);
            WriteAhead(l') && Owned(l', inbounds, next) && Recorded(l')
  {
    var l' := l.(rows := l.rows[k := l.rows[k].(post := post, status := status)]);
    forall i | 0 <= i < |l'.rows| && l'.rows[i].post.InboundPost? ensures Creates(l', i, l'.rows[i].post.id) {
      assert i != k ==> Creates(l, i, l.rows[i].post.id);
    }
    forall i | 0 <= i < |l'.rows| && l'.rows[i].post.TunePost? ensures OwnFile(l', i, l'.rows[i].post.snap) {
      assert i != k ==> OwnFile(l, i, l.rows[i].post.snap);
    }
  }

  predicate SameRow<V(==)>(m: map<nat, V>, n: map<nat, V>, id: nat) {
    (id in m <==> id in n) && (id in m ==> m[id] == n[id])
  }

  ghost predicate RowInPlace(l: Ledger, d: nat, k: nat) {
    k in l.inPlace && k < |l.rows| && l.rows[k].deployment == d
  }

  ghost predicate DropInPlace(l: Ledger, d: nat, p: Path) {
    exists k :: RowInPlace(l, d, k) && k in l.drops && l.drops[k] == p
  }

  ghost predicate InboundInPlace(l: Ledger, d: nat, now: System, id: nat) {
    id in now.inbounds && id in l.owner && RowInPlace(l, d, l.owner[id])
  }

  /** Whatever differs between `start` and `now` is the doing of a row of `d` in
      place: a file is the one that row writes, an inbound the one it created. */
  ghost predicate AccountsFor(l: Ledger, d: nat, now: System, start: System) {
    && (forall p :: SameFile(now.files, start.files, p) || DropInPlace(l, d, p))
    && (forall id :: SameRow(now.inbounds, start.inbounds, id) || InboundInPlace(l, d, now, id))
    && (forall c :: SameRow(now.clients, start.clients, c) || (c in now.clients && InboundInPlace(l, d, now, now.clients[c].inboundID)))
  }

  /** Nothing that was in place or known has been forgotten. */
  ghost predicate Grew(l: Ledger, l': Ledger) {
    && l.inPlace <= l'.inPlace
    && |l.rows| <= |l'.rows| && (forall i :: 0 <= i < |l.rows| ==> l'.rows[i].deployment == l.rows[i].deployment)
    && (forall k :: k in l.drops ==> k in l'.drops && l'.drops[k] == l.drops[k])
    && (forall id :: id in l.owner ==> id in l'.owner && l'.owner[id] == l.owner[id])
  }

  lemma StillAccounts(l: Ledger, l': Ledger, d: nat, start: System, mid: System, now: System)
    requires AccountsFor(l, d, mid, start) && Grew(l, l') && AccountsFor(l', d, now, mid)
    ensures AccountsFor(l', d, now, start)
  {
    forall p ensures SameFile(now.files, start.files, p) || DropInPlace(l', d, p) {
      if SameFile(now.files, mid.files, p) && !SameFile(mid.files, start.files, p) {
        assert DropInPlace(l, d, p);
        var k :| RowInPlace(l, d, k) && k in l.drops && l.drops[k] == p;
        assert RowInPlace(l', d, k) && k in l'.drops && l'.drops[k] == p;
      }
    }
    forall id ensures SameRow(now.inbounds, start.inbounds, id) || InboundInPlace(l', d, now, id) {
      if SameRow(now.inbounds, mid.inbounds, id) && !SameRow(mid.inbounds, start.inbounds, id) {
        assert InboundInPlace(l, d, mid, id);
      }
    }
    forall c ensures SameRow(now.clients, start.clients, c) || (c in now.clients && InboundInPlace(l', d, now, now.clients[c].inboundID)) {
      if SameRow(now.clients, mid.clients, c) && !SameRow(mid.clients, start.clients, c) {
        assert InboundInPlace(l, d, mid, mid.clients[c].inboundID);
        assert SameRow(now.inbounds, mid.inbounds, now.clients[c].inboundID) || InboundInPlace(l', d, now, now.clients[c].inboundID);
      }
    }
  }

  lemma NothingToAccount(l: Ledger, d: nat, s: System)
    ensures AccountsFor(l, d, s, s)
  {
  }

  lemma TuneAccounts(l: Ledger, d: nat, k: nat, now: System, start: System)
    requires now.inbounds == start.inbounds && now.clients == start.clients
    requires forall p :: SameFile(now.files, start.files, p) || (RowInPlace(l, d, k) && k in l.drops && l.drops[k] == p)
    ensures AccountsFor(l, d, now, start)
  {
  }

  lemma InboundAccounts(l: Ledger, d: nat, id: nat, now: System, start: System)
    requires now.files == start.files && InboundInPlace(l, d, now, id)
    requires forall i :: SameRow(now.inbounds, start.inbounds, i) || i == id
    requires forall c :: SameRow(now.clients, start.clients, c) || (c in now.clients && now.clients[c].inboundID == id)
    ensures AccountsFor(l, d, now, start)
  {
  }

  // ---------- One operation ----------

  /** What an operation of `Apply` promises: whatever it left is accounted for; on
      failure the log is as before, and so is the system, apart from what the one
      row in place that does not say so has left. */
  ghost predicate Stepped(l: Ledger, s: System, l': Ledger, s': System, d: nat, paths: set<Path>, r: StepResult) {
    && Grew(l, l') && AccountsFor(l', d, s', s)
    && (forall p :: Covers(Log(l'.rows, d), p) ==> Covers(Log(l.rows, d), p) || p in paths)
    && (r.ok ==> r.torn == {} && r.stray == {})
    && (!r.ok ==> Log(l'.rows, d) == Log(l.rows, d) && SameExcept(s', s, r.torn, r.stray) && Unsettled(l', d, r.torn, r.stray))
  }

  /** Row `k` of `d` is in place without saying so; the files and inbounds are its. */
  ghost predicate LeftBy(l: Ledger, d: nat, k: nat, torn: set<Path>, stray: set<nat>) {
    && RowInPlace(l, d, k) && !l.rows[k].Revertible()
    && (forall p :: p in torn ==> k in l.drops && l.drops[k] == p)
    && (forall id :: id in stray ==> Creates(l, k, id))
  }

  ghost predicate Unsettled(l: Ledger, d: nat, torn: set<Path>, stray: set<nat>) {
    (torn == {} && stray == {}) || exists k :: LeftBy(l, d, k, torn, stray)
  }

  /** Rows in place that do not say so stay as they are. */
  ghost predicate UnsettledStays(l: Ledger, l': Ledger) {
    && l'.owner == l.owner && l'.drops == l.drops
    && forall k :: k in l.inPlace && k < |l.rows| && !l.rows[k].Revertible() ==> k in l'.inPlace && k < |l'.rows| && l'.rows[k] == l.rows[k]
  }

  lemma StillUnsettled(l: Ledger, l': Ledger, d: nat, torn: set<Path>, stray: set<nat>, fewer: set<Path>)
    requires Unsettled(l, d, torn, stray) && UnsettledStays(l, l') && fewer <= torn
    ensures Unsettled(l', d, fewer, stray)
  {
    if k :| LeftBy(l, d, k, torn, stray) {
      assert LeftBy(l', d, k, fewer, stray);
    }
  }

  /** Row `k` of `d` has been completed, and no other row has changed. */
  predicate Completed(l: Ledger, l': Ledger, d: nat, k: nat) {
    |l'.rows| == |l.rows| && k < |l.rows| && l'.rows == l.rows[k := l'.rows[k]] && l'.rows[k].deployment == l.rows[k].deployment == d
  }

  /** Row `k` has done nothing yet. */
  predicate Untouched(l: Ledger, k: nat) {
    k !in l.inPlace && k !in l.drops && forall id :: id in l.owner ==> l.owner[id] != k
  }

  /** The next row has done nothing, and the next inbound is nobody's. */
  lemma FreshRow(l: Ledger, inbounds: map<nat, InboundRow>, next: nat)
    requires WriteAhead(l) && Owned(l, inbounds, next) && Recorded(l)
    ensures Untouched(l, |l.rows|) && next !in l.owner
  {
  }

  /** Reverting a row that says so leaves the others in place. */
  lemma SettledRowStays(l: Ledger, l': Ledger, k: nat)
    requires k < |l.rows| == |l'.rows| && l.rows[k].Revertible() && l'.rows == l.rows[k := l'.rows[k]]
    requires l.inPlace - {k} <= l'.inPlace && l'.owner == l.owner && l'.drops == l.drops
    ensures UnsettledStays(l, l')
  {
  }

  /** What row `k` has recorded is what it may record. */
  lemma RowsPost(l: Ledger, inbounds: map<nat, InboundRow>, next: nat, k: nat)
    requires WriteAhead(l) && Owned(l, inbounds, next) && Recorded(l) && k < |l.rows|
    requires l.rows[k].post.TunePost? ==> l.rows[k].opType == TuneOp
    requires l.rows[k].post.InboundPost? ==> l.rows[k].opType == InboundOp
    ensures PostOf(l, k, l.rows[k].post) && (l.rows[k].opType == CertOp ==> k !in l.inPlace)
  {
  }

  function Files1(path: Option<Path>): set<Path> { if path.Some? then {path.value} else {} }

  lemma SameSelf(s: System)
    ensures SameExcept(s, s, {}, {})
  {
    RemoveNone(s);
  }

  /** Nothing but a row has been written. */
  lemma RowStepped(l: Ledger, l': Ledger, s: System, d: nat, r: StepResult)
    requires l' == l.(rows := l'.rows) && |l.rows| <= |l'.rows|
    requires forall i :: 0 <= i < |l.rows| ==> l'.rows[i].deployment == l.rows[i].deployment
    requires r.torn == {} && r.stray == {}
    requires Log(l'.rows, d) == Log(l.rows, d) + if r.ok then [Nothing] else []
    ensures Stepped(l, s, l', s, d, {}, r)
  {
    NothingToAccount(l', d, s);
    SameSelf(s);
    assert !r.ok ==> Log(l'.rows, d) == Log(l.rows, d);
    forall p | Covers(Log(l'.rows, d), p) ensures Covers(Log(l.rows, d), p) {
      CoversLast(Log(l.rows, d), Nothing, p);
    }
  }

  /** A step after a row has been opened. */
  lemma OpenedStepped(l: Ledger, m: Ledger, s: System, l': Ledger, s': System, d: nat, paths: set<Path>, r: StepResult)
    requires m == l.(rows := m.rows) && |l.rows| < |m.rows| && m.rows[..|l.rows|] == l.rows && Log(m.rows, d) == Log(l.rows, d)
    requires Stepped(m, s, l', s', d, paths, r)
    ensures Stepped(l, s, l', s', d, paths, r)
  {
    forall i | 0 <= i < |l.rows| ensures l'.rows[i].deployment == l.rows[i].deployment {
      assert m.rows[..|l.rows|][i] == l.rows[i];
    }
  }

  /** A tuning operation, failed, cleaned up (`back`) or saved. */
  lemma TuneStepped(l: Ledger, s: System, l': Ledger, s': System, d: nat, k: nat, path: Option<Path>, snap: Files, back: bool, r: StepResult)
    requires Untouched(l, k) && Completed(l, l', d, k)
    requires var m := WithDrop(l, k, path); l' == m.(rows := l'.rows, inPlace := m.inPlace - if back then {k} else {})
    requires s'.inbounds == s.inbounds && s'.clients == s.clients && (back ==> s' == s && !r.ok) && snap.Keys == Files1(path)
    requires forall p :: p !in Files1(path) ==> SameFile(s'.files, s.files, p)
    requires r.stray == {} && r.torn == if r.ok || back then {} else Files1(path)
    requires if r.ok then Log(l'.rows, d) == Log(l.rows, d) + [TunePost(snap)]
             else Log(l'.rows, d) == Log(l.rows, d) && !l'.rows[k].Revertible()
    ensures Stepped(l, s, l', s', d, Files1(path), r)
  {
    hide Log, UndoAll, AccountsFor, Covers;
    RemoveNone(s');
    forall p | r.ok ensures Covers(Log(l'.rows, d), p) ==> Covers(Log(l.rows, d), p) || p in Files1(path) {
      CoversLast(Log(l.rows, d), TunePost(snap), p);
    }
    if back {
      NothingToAccount(l', d, s);
    } else {
      TuneAccounts(l', d, k, s', s);
      assert !r.ok ==> LeftBy(l', d, k, r.torn, {});
    }
  }

  /** A created inbound, deleted again (`back`), left behind, or saved. */
  lemma InboundStepped(l: Ledger, s: System, s1: System, l': Ledger, s': System, d: nat, k: nat, id: nat, back: bool, r: StepResult)
    requires Untouched(l, k) && Completed(l, l', d, k) && id !in l.owner
    requires l' == l.(rows := l'.rows, owner := l.owner[id := k], inPlace := l.inPlace + {k} - if back then {k} else {})
    requires RevertPost(s1, InboundPost(id)) == s && id in s1.inbounds && (back ==> !r.ok) && s' == if back then s else s1
    requires r.torn == {} && r.stray == if r.ok || back then {} else {id}
    requires if r.ok then Log(l'.rows, d) == Log(l.rows, d) + [InboundPost(id)]
             else Log(l'.rows, d) == Log(l.rows, d) && !l'.rows[k].Revertible()
    ensures Stepped(l, s, l', s', d, {}, r) && s'.files == s.files
  {
    hide Log, UndoAll, AccountsFor, Covers;
    SameSelf(s);
    RemoveOne(s1, id);
    forall p | r.ok ensures Covers(Log(l'.rows, d), p) ==> Covers(Log(l.rows, d), p) {
      CoversLast(Log(l.rows, d), InboundPost(id), p);
    }
    if back {
      NothingToAccount(l', d, s);
    } else {
      InboundAccounts(l', d, id, s', s);
      assert !r.ok ==> LeftBy(l', d, k, {}, {id});
    }
  }

  /** What the row keeps of a record. */
  function StoredPost(post: Post): Post { if post.TunePost? then TunePost(Stored(post.snap)) else post }

  // ---------- What a deployment carries out ----------

  /** Every file has the content of the last operation that writes it, or the one
      it had. */
  ghost predicate FilesTuned(tuning: seq<TuneSpec>, start: Files, now: Files) {
    && (forall i :: 0 <= i < |tuning| && LastWriter(tuning, i) ==>
          tuning[i].dropin.value.path in now && now[tuning[i].dropin.value.path] == tuning[i].dropin.value.content)
    && (forall p :: (forall t <- tuning :: t.dropin.Some? ==> t.dropin.value.path != p) ==> SameFile(now, start, p))
  }

  ghost predicate LastWriter(tuning: seq<TuneSpec>, i: nat)
    requires i < |tuning|
  {
    && tuning[i].dropin.Some?
    && forall j :: i < j < |tuning| && tuning[j].dropin.Some? ==> tuning[j].dropin.value.path != tuning[i].dropin.value.path
  }

  /** One new inbound, enabled, under an id of its own, per specification; no
      other inbound is new, changed or gone. */
  ghost predicate InboundsCreated(specs: seq<InboundSpec>, ids: seq<nat>, start: System, now: System) {
    && |ids| == |specs|
    && (forall i, j :: 0 <= i < j < |ids| ==> ids[i] != ids[j])
    && (forall i :: 0 <= i < |ids| ==> ids[i] !in start.inbounds && ids[i] in now.inbounds
                                        && now.inbounds[ids[i]] == specs[i].row.(enable := true))
    && (forall id :: id !in ids ==> SameRow(now.inbounds, start.inbounds, id))
  }

  /** The clients of the new inbounds are exactly the specified ones, in order from
      the key `first[i]` on; no other client is new, changed or gone. */
  ghost predicate ClientsCreated(specs: seq<InboundSpec>, ids: seq<nat>, first: seq<nat>, start: System, now: System) {
    && |ids| == |first| == |specs|
    && (forall c :: c in start.clients ==> SameRow(now.clients, start.clients, c))
    && (forall c :: c in now.clients ==> c in start.clients || now.clients[c].inboundID in ids)
    && (forall i :: 0 <= i < |ids| ==> ClientsOf(now, ids[i], first[i], specs[i].uuids))
  }

  ghost predicate ClientsOf(s: System, id: nat, first: nat, uuids: seq<string>) {
    && (forall c: nat :: c in s.clients && s.clients[c].inboundID == id <==> first <= c < first + |uuids|)
    && (forall c: nat :: first <= c < first + |uuids| && c in s.clients ==> s.clients[c].uuid == uuids[c - first])
  }

  /** One applied row per operation, in order. */
  ghost predicate AllLogged(plan: Plan, ids: seq<nat>, d: nat, was: seq<OpRow>, rows: seq<OpRow>) {
    && |ids| == |plan.inbounds| && |rows| == |was| + 1 + |plan.tuning| + |plan.inbounds| && rows[..|was|] == was
    && rows[|was|] == OpRow(d, 0, CertOp, Nothing, Applied)
    && (forall i :: 0 <= i < |plan.tuning| ==> TuneLogged(rows[|was| + 1 + i], d, 1 + i, plan.tuning[i]))
    && (forall i :: 0 <= i < |plan.inbounds| ==>
          rows[|was| + 1 + |plan.tuning| + i] == OpRow(d, 1 + |plan.tuning| + i, InboundOp, InboundPost(ids[i]), Applied))
  }

  ghost predicate TuneLogged(row: OpRow, d: nat, sequence: nat, t: TuneSpec) {
    && row == OpRow(d, sequence, TuneOp, row.post, Applied) && row.post.TunePost?
    && forall p :: p in row.post.snap <==> t.dropin.Some? && t.dropin.value.path == p
  }

  /** The whole plan has been carried out: files, tables and log. */
  ghost predicate CarriedOut(plan: Plan, ids: seq<nat>, first: seq<nat>, d: nat, was: seq<OpRow>, rows: seq<OpRow>, start: System, now: System) {
    && FilesTuned(plan.tuning, start.files, now.files)
    && InboundsCreated(plan.inbounds, ids, start, now) && ClientsCreated(plan.inbounds, ids, first, start, now)
    && AllLogged(plan, ids, d, was, rows)
  }

  /** A tuning operation has succeeded. */
  ghost predicate TuneDone(t: TuneSpec, d: nat, sequence: nat, was: seq<OpRow>, rows: seq<OpRow>, s: System, s': System) {
    && s' == s.(files := Written(s.files, t.Path(), t.Content()))
    && |rows| == |was| + 1 && rows[..|was|] == was && TuneLogged(rows[|was|], d, sequence, t)
  }

  /** An inbound has been created under `id`, its clients from key `first` on. */
  ghost predicate InboundDone(spec: InboundSpec, id: nat, first: nat, d: nat, sequence: nat, was: seq<OpRow>, rows: seq<OpRow>, s: System, s': System) {
    Adds(spec, id, first, s, s') && rows == was + [OpRow(d, sequence, InboundOp, InboundPost(id), Applied)]
  }

  ghost predicate Adds(spec: InboundSpec, id: nat, first: nat, s: System, s': System) {
    && KeysBelow(s.inbounds, s.clients, id, first)
    && s' == System(s.files, s.inbounds[id := spec.row.(enable := true)], s.clients + NewClients(id, first, spec.uuids))
  }

  lemma TuneIsDone(t: TuneSpec, d: nat, sequence: nat, was: seq<OpRow>, k: nat, rows: seq<OpRow>, s: System, s': System, snap: Files)
    requires k < |was| == k + 1 && rows == was[k := OpRow(d, sequence, TuneOp, TunePost(snap), Applied)] && snap.Keys == Files1(t.Path())
    requires s' == s.(files := Written(s.files, t.Path(), t.Content()))
    ensures TuneDone(t, d, sequence, was[..k], rows, s, s')
  {
    assert forall p :: p in snap <==> p in snap.Keys;
  }

  /** No enabled inbound has the port. */
  predicate PortFree(inbounds: map<nat, InboundRow>, port: nat) {
    forall i <- inbounds :: inbounds[i].enable ==> inbounds[i].port != port
  }

  /** The new inbounds take free ports, and different ones. */
  ghost predicate PortsFree(specs: seq<InboundSpec>, inbounds: map<nat, InboundRow>) {
    && (forall i :: 0 <= i < |specs| ==> PortFree(inbounds, specs[i].row.port))
    && (forall i, j :: 0 <= i < j < |specs| ==> specs[i].row.port != specs[j].row.port)
  }

  lemma NoPortsTaken(inbounds: map<nat, InboundRow>)
    ensures PortsFree([], inbounds)
  {
  }

  lemma NextPortFree(plan: Plan, i: nat, ids: seq<nat>, first: seq<nat>, d: nat, was: seq<OpRow>, rows: seq<OpRow>, start: System, now: System)
    requires i < |plan.inbounds| && CarriedOut(plan.(inbounds := plan.inbounds[..i]), ids, first, d, was, rows, start, now)
    requires PortsFree(plan.inbounds[..i], start.inbounds)
    ensures PortFree(now.inbounds, plan.inbounds[i].row.port) <==> PortsFree(plan.inbounds[..i + 1], start.inbounds)
    ensures PortsFree(plan.inbounds, start.inbounds) ==> PortsFree(plan.inbounds[..i + 1], start.inbounds)
  {
    NextPort(plan.inbounds, i, ids, start, now);
  }

  /** The next port is free now if it was free and no inbound before it took it. */
  lemma NextPort(specs: seq<InboundSpec>, i: nat, ids: seq<nat>, start: System, now: System)
    requires i < |specs| && InboundsCreated(specs[..i], ids, start, now) && PortsFree(specs[..i], start.inbounds)
    ensures PortFree(now.inbounds, specs[i].row.port) <==> PortsFree(specs[..i + 1], start.inbounds)
  {
    var port := specs[i].row.port;
    forall j | 0 <= j < i ensures specs[j] == specs[..i][j] == specs[..i + 1][j] {
    }
    forall id ensures SameRow(now.inbounds, start.inbounds, id) || id in ids {
    }
    if PortFree(now.inbounds, port) {
      forall id | id in start.inbounds && start.inbounds[id].enable ensures start.inbounds[id].port != port {
        assert id !in ids;
      }
      forall j | 0 <= j < i ensures specs[j].row.port != port {
        assert now.inbounds[ids[j]] == specs[..i][j].row.(enable := true);
      }
    } else {
      var id :| id in now.inbounds && now.inbounds[id].enable && now.inbounds[id].port == port;
      if id in ids {
        var j :| 0 <= j < |ids| && ids[j] == id;
        assert specs[..i + 1][j].row.port == specs[..i + 1][i].row.port;
      }
    }
  }

  lemma CertCarriedOut(d: nat, was: seq<OpRow>, rows: seq<OpRow>, s: System)
    requires rows == was + [OpRow(d, 0, CertOp, Nothing, Applied)]
    ensures CarriedOut(Plan([], []), [], [], d, was, rows, s, s)
  {
  }

  lemma TuneCarriedOut(plan: Plan, t: TuneSpec, d: nat, was: seq<OpRow>, mid: seq<OpRow>, rows: seq<OpRow>,
                       start: System, s: System, s': System)
    requires CarriedOut(plan, [], [], d, was, mid, start, s) && TuneDone(t, d, |plan.tuning| + 1, mid, rows, s, s')
    ensures CarriedOut(plan.(tuning := plan.tuning + [t]), [], [], d, was, rows, start, s')
  {
    FileTuned(plan.tuning, t, start.files, s.files);
    OneMoreLogged(plan, t, d, was, mid, rows);
    assert forall id :: SameRow(s'.inbounds, start.inbounds, id) <==> SameRow(s.inbounds, start.inbounds, id);
    assert forall c :: SameRow(s'.clients, start.clients, c) <==> SameRow(s.clients, start.clients, c);
  }

  lemma OneMoreLogged(plan: Plan, t: TuneSpec, d: nat, was: seq<OpRow>, mid: seq<OpRow>, rows: seq<OpRow>)
    requires AllLogged(plan, [], d, was, mid)
    requires |rows| == |mid| + 1 && rows[..|mid|] == mid && TuneLogged(rows[|mid|], d, |plan.tuning| + 1, t)
    ensures AllLogged(plan.(tuning := plan.tuning + [t]), [], d, was, rows)
  {
    hide TuneLogged;
    assert rows[..|mid|][..|was|] == rows[..|was|];
    assert forall i :: 0 <= i < |mid| ==> rows[i] == mid[i];
  }

  lemma FileTuned(tuning: seq<TuneSpec>, t: TuneSpec, start: Files, now: Files)
    requires FilesTuned(tuning, start, now)
    ensures FilesTuned(tuning + [t], start, Written(now, t.Path(), t.Content()))
  {
    var all, after := tuning + [t], Written(now, t.Path(), t.Content());
    assert all[|tuning|] == t;
    forall i | 0 <= i < |all| && LastWriter(all, i)
      ensures all[i].dropin.value.path in after && after[all[i].dropin.value.path] == all[i].dropin.value.content
    {
      assert i < |tuning| ==> all[i] == tuning[i] && t.Path() != tuning[i].Path();
      assert forall j :: i < j < |tuning| ==> all[j] == tuning[j];
      assert i < |tuning| ==> LastWriter(tuning, i);
    }
    forall p | forall u <- all :: u.dropin.Some? ==> u.dropin.value.path != p ensures SameFile(after, start, p) {
      assert t in all && forall u <- tuning :: u in all;
      assert SameFile(now, start, p);
    }
  }

  lemma InboundCarriedOut(plan: Plan, ids: seq<nat>, first: seq<nat>, spec: InboundSpec, id: nat, next: nat, d: nat, was: seq<OpRow>, mid: seq<OpRow>,
                          rows: seq<OpRow>, start: System, s: System, s': System)
    requires CarriedOut(plan, ids, first, d, was, mid, start, s)
    requires InboundDone(spec, id, next, d, |plan.tuning| + |plan.inbounds| + 1, mid, rows, s, s')
    ensures CarriedOut(plan.(inbounds := plan.inbounds + [spec]), ids + [id], first + [next], d, was, rows, start, s')
  {
    assert forall x :: x in ids + [id] <==> x in ids || x == id;
    OneMoreInbound(plan.inbounds, ids, start, s, spec, id, next, s');
    OneMoreClients(plan.inbounds, ids, first, start, s, spec, id, next, s');
    assert rows[..|was|] == mid[..|was|];
  }

  lemma OneMoreInbound(specs: seq<InboundSpec>, ids: seq<nat>, start: System, s: System, spec: InboundSpec, id: nat, next: nat, s': System)
    requires InboundsCreated(specs, ids, start, s) && Adds(spec, id, next, s, s')
    requires forall x :: x in ids + [id] <==> x in ids || x == id
    ensures InboundsCreated(specs + [spec], ids + [id], start, s')
  {
    assert id !in ids && SameRow(s.inbounds, start.inbounds, id);
  }

  lemma OneMoreClients(specs: seq<InboundSpec>, ids: seq<nat>, first: seq<nat>, start: System, s: System, spec: InboundSpec, id: nat,
                       next: nat, s': System)
    requires InboundsCreated(specs, ids, start, s) && ClientsCreated(specs, ids, first, start, s) && Adds(spec, id, next, s, s')
    requires forall x :: x in ids + [id] <==> x in ids || x == id
    ensures ClientsCreated(specs + [spec], ids + [id], first + [next], start, s')
  {
    ClientsAdded(s, s', spec, id, next);
    forall i | 0 <= i < |ids| ensures ClientsOf(s', ids[i], first[i], specs[i].uuids) {
      assert ids[i] in s.inbounds;
      ClientsKept(s, s', spec, id, next, ids[i], first[i], specs[i].uuids);
    }
    forall c | c in start.clients ensures SameRow(s'.clients, start.clients, c) {
      assert SameRow(s.clients, start.clients, c);
    }
  }

  lemma ClientsAdded(s: System, s': System, spec: InboundSpec, id: nat, next: nat)
    requires Adds(spec, id, next, s, s')
    ensures ClientsOf(s', id, next, spec.uuids)
    ensures forall c :: c in s.clients ==> SameRow(s'.clients, s.clients, c)
    ensures forall c :: c in s'.clients ==> c in s.clients || s'.clients[c].inboundID == id
  {
  }

  lemma ClientsKept(s: System, s': System, spec: InboundSpec, id: nat, next: nat, other: nat, first: nat, uuids: seq<string>)
    requires Adds(spec, id, next, s, s') && other != id && ClientsOf(s, other, first, uuids)
    ensures ClientsOf(s', other, first, uuids)
  {
    assert forall c :: c in s.clients ==> SameRow(s'.clients, s.clients, c) by { ClientsAdded(s, s', spec, id, next); }
  }

  // ---------- The orchestrator ----------

  predicate AllAbsent(torn: set<Path>, fs: Files) { forall p <- torn :: p in fs && fs[p] == ABSENT }

  /** What is in memory is enough to clean up. */
  predicate Exact(fs: Files, path: Option<Path>, readable: bool) { path.Some? ==> Remembers(fs, path.value, readable) }

  lemma InexactIsAbsent(fs: Files, path: Option<Path>)
    ensures AllAbsent({}, fs) && (!Exact(fs, path, true) ==> AllAbsent(Files1(path), fs))
  {
  }

  /** Reverting the snapshot itself, when it remembers everything. */
  lemma TuneUndone(was: System, path: Option<Path>, content: string, readable: bool, now: System, snap: Files)
    requires now.inbounds == was.inbounds && now.clients == was.clients
    requires snap == Snapshot(was.files, path, readable) && now.files == Written(was.files, path, content)
    requires Exact(was.files, path, readable)
    ensures RevertPost(now, TunePost(snap)) == was
  {
    if path.Some? {
      DropinRoundTrip(was.files, path.value, content, readable);
    } else {
      assert RevertFiles(now.files, snap) == now.files;
    }
  }

  function Snapshot(fs: Files, path: Option<Path>, readable: bool): Files {
    if path.Some? then map[path.value := Remembered(fs, path.value, readable)] else map[]
  }

  function Written(fs: Files, path: Option<Path>, content: string): Files {
    if path.Some? then fs[path.value := content] else fs
  }

  function Misread(log: seq<Post>, misread: set<Path>, path: Option<Path>, readable: bool): set<Path> {
    if path.Some? then MisreadAfter(log, misread, path.value, readable) else misread
  }

  /** A tuning operation that its row has recorded. */
  lemma UndoableTune(log: seq<Post>, s: System, start: System, misread: set<Path>, path: Option<Path>, content: string, readable: bool)
    requires Undoable(log, s, start, misread, {}, {})
    ensures Undoable(log + [StoredPost(TunePost(Snapshot(s.files, path, readable)))], s.(files := Written(s.files, path, content)), start,
                     Misread(log, misread, path, readable), {}, {})
  {
    if path.Some? {
      UndoableDropin(log, s, start, misread, path.value, content, readable);
    } else {
      assert Stored(map[]) == map[];
      RevertNothing(s.files);
      UndoableOther(log, s, start, misread, TunePost(map[]), s);
    }
  }

  lemma NothingStepped(l: Ledger, s: System, d: nat, paths: set<Path>, r: StepResult)
    requires !r.ok && r.torn == {} && r.stray == {}
    ensures Stepped(l, s, l, s, d, paths, r)
  {
    NothingToAccount(l, d, s);
    SameSelf(s);
  }

  lemma RevertedFiles(s: System, s1: System, s': System, snap: Files, path: Option<Path>, saved: bool, reverted: bool)
    requires s1.inbounds == s.inbounds && s1.clients == s.clients && snap.Keys == Files1(path)
    requires forall p :: p !in Files1(path) ==> SameFile(s1.files, s.files, p)
    requires if saved then s' == s1 else RevertTried(TunePost(snap), reverted, s1, s')
    ensures s'.inbounds == s.inbounds && s'.clients == s.clients
    ensures forall p :: p !in Files1(path) ==> SameFile(s'.files, s.files, p)
    ensures !saved && reverted ==> s' == RevertPost(s1, TunePost(snap))
  {
    forall p | p !in Files1(path) ensures SameFile(s'.files, s.files, p) {
      assert p !in snap && SameFile(s1.files, s.files, p);
      assert SameFile(s'.files, s1.files, p);
    }
  }

  /** An inbound whose deletion failed is as it was. */
  lemma KeptOrGone(s1: System, s': System, id: nat, saved: bool, reverted: bool)
    requires if saved then s' == s1 else RevertTried(InboundPost(id), reverted, s1, s')
    ensures s' == if !saved && reverted then RevertPost(s1, InboundPost(id)) else s1
  {
    if !saved && !reverted {
      SameFilesAreEqual(s'.files, s1.files);
    }
  }

  lemma FailedIsUndoable(l: Ledger, s: System, l': Ledger, s': System, d: nat, paths: set<Path>, r: StepResult, start: System, misread: set<Path>)
    requires Stepped(l, s, l', s', d, paths, r) && !r.ok && r.misread == misread
    requires Undoable(Log(l.rows, d), s, start, misread, {}, {})
    ensures Undoable(Log(l'.rows, d), s', start, r.misread, Uncovered(r.torn, Log(l'.rows, d)), r.stray)
  {
    UndoableFailed(Log(l.rows, d), s, start, misread, s', r.torn, r.stray);
  }

  lemma NothingCovered()
    ensures forall p :: !Covers([], p)
  {
  }

  lemma NoneUncovered(log: seq<Post>)
    ensures Uncovered({}, log) == {}
  {
  }

  lemma PathIsPlanned(plan: Plan, i: nat)
    requires i < |plan.tuning|
    ensures Files1(plan.tuning[i].Path()) <= plan.Paths()
  {
    assert plan.tuning[i] in plan.tuning;
  }

  /** What does not fail during a call: writes of log rows and deployments, or
      everything else, that is file, table and certificate operations. */
  datatype Calm = Calm(log: bool, effects: bool) {
    predicate All() { log && effects }
  }

  /** These files had the very text that marks absence, or were to get it. */
  predicate OnlyAbsentTexts(torn: set<Path>, plan: Plan, fs: Files) {
    forall p <- torn :: (p in fs && fs[p] == ABSENT) || exists t <- plan.tuning :: t.dropin == Some(Dropin(p, ABSENT))
  }

  lemma AbsentTexts(plan: Plan, i: nat, ids: seq<nat>, first: seq<nat>, d: nat, was: seq<OpRow>, rows: seq<OpRow>, start: System, now: System,
                    torn: set<Path>)
    requires i <= |plan.tuning| && CarriedOut(Plan(plan.tuning[..i], []), ids, first, d, was, rows, start, now)
    requires AllAbsent(torn, now.files)
    ensures OnlyAbsentTexts(torn, plan, start.files)
  {
    forall p | p in torn
      ensures (p in start.files && start.files[p] == ABSENT) || exists t <- plan.tuning :: t.dropin == Some(Dropin(p, ABSENT))
    {
      if t :| t in plan.tuning[..i] && t.dropin.Some? && t.dropin.value.path == p {
        var j := LastOf(plan.tuning[..i], p);
        assert plan.tuning[..i][j].dropin == Some(Dropin(p, ABSENT)) && plan.tuning[j] in plan.tuning;
      } else {
        assert SameFile(now.files, start.files, p);
      }
    }
  }

  lemma NothingAbsent(plan: Plan, fs: Files)
    ensures OnlyAbsentTexts({}, plan, fs)
  {
  }

  lemma FewerAbsent(torn: set<Path>, fewer: set<Path>, plan: Plan, fs: Files)
    requires OnlyAbsentTexts(torn, plan, fs) && fewer <= torn
    ensures OnlyAbsentTexts(fewer, plan, fs)
  {
  }

  /** The last operation that writes a file. */
  lemma {:induction false} LastOf(tuning: seq<TuneSpec>, p: Path) returns (j: nat)
    requires exists t <- tuning :: t.dropin.Some? && t.dropin.value.path == p
    ensures j < |tuning| && LastWriter(tuning, j) && tuning[j].dropin.value.path == p
  {
    var n := |tuning| - 1;
    if tuning[n].dropin.Some? && tuning[n].dropin.value.path == p {
      j := n;
    } else {
      j := LastOf(tuning[..n], p);
      forall k | j < k < |tuning| && tuning[k].dropin.Some? ensures tuning[k].dropin.value.path != p {
        assert k < n ==> tuning[..n][k] == tuning[k];
      }
    }
  }

  class Orchestrator {
    var files: Files
    var inbounds: map<nat, InboundRow>
    var clients: map<nat, ClientRow>
    var nextInbound: nat
    var nextClient: nat
    var rows: seq<OpRow>
    var deployments: map<nat, Status>
    var nextDeployment: nat
    ghost var inPlace: set<nat>
    ghost var owner: map<nat, nat>
    ghost var drops: map<nat, Path>

    function Sys(): System
      reads this`files, this`inbounds, this`clients
    {
      System(files, inbounds, clients)
    }

    ghost function Book(): Ledger
      reads this`rows, this`inPlace, this`owner, this`drops
    {
      Ledger(rows, inPlace, owner, drops)
    }

    predicate FreshKeys()
      reads this`inbounds, this`clients, this`nextInbound, this`nextClient, this`deployments, this`nextDeployment
    {
      KeysBelow(inbounds, clients, nextInbound, nextClient) && forall d :: d in deployments ==> d < nextDeployment
    }

    predicate WellFormedRows()
      reads this`rows, this`deployments
    {
      && (forall i :: 0 <= i < |rows| ==> rows[i].deployment in deployments)
      && (forall i, j :: 0 <= i < j < |rows| && rows[i].deployment == rows[j].deployment ==> rows[i].sequence < rows[j].sequence)
      && (forall i :: 0 <= i < |rows| && rows[i].Revertible() ==> (rows[i].post.Nothing? <==> rows[i].opType == CertOp))
      && (forall i :: 0 <= i < |rows| && rows[i].post.TunePost? ==> rows[i].opType == TuneOp)
      && (forall i :: 0 <= i < |rows| && rows[i].post.InboundPost? ==> rows[i].opType == InboundOp)
    }

    /** A rolled-back deployment has no row left to revert. */
    predicate RolledBackClean()
      reads this`rows, this`deployments
    {
      forall i :: 0 <= i < |rows| && rows[i].Revertible() && rows[i].deployment in deployments ==>
        deployments[rows[i].deployment] != RolledBack
    }

    ghost predicate Valid()
      reads this
    {
      && FreshKeys() && WellFormedRows() && RolledBackClean()
      && WriteAhead(Book()) && Owned(Book(), inbounds, nextInbound) && Recorded(Book())
    }

    constructor ()
      ensures Valid() && Sys() == System(map[], map[], map[]) && deployments == map[] && rows == []
    {
      files, inbounds, clients := map[], map[], map[];
      nextInbound, nextClient, nextDeployment := 1, 1, 1;
      rows, deployments := [], map[];
      inPlace, owner, drops := {}, map[], map[];
    }

    predicate SequencesBelow(d: nat, s: nat)
      reads this`rows
    {
      forall i :: 0 <= i < |rows| && rows[i].deployment == d ==> rows[i].sequence < s
    }

    // ---------- Single steps ----------

    method CreateRow(d: nat, sequence: nat, opType: OpType, calm: bool) returns (ok: bool)
      requires Valid() && d in deployments
      requires SequencesBelow(d, sequence)
      modifies `rows
      ensures calm ==> ok
      ensures Valid() && SequencesBelow(d, sequence + 1)
      ensures rows == if ok then old(rows) + [OpRow(d, sequence, opType, Nothing, Pending)] else old(rows)
    {
      hide WriteAhead, Owned, Recorded;
      ok := Try(calm);
      if ok {
        RowAdded(Book(), OpRow(d, sequence, opType, Nothing, Pending), inbounds, nextInbound);
        rows := rows + [OpRow(d, sequence, opType, Nothing, Pending)];
      }
    }

    method SaveRow(k: nat, post: Post, status: OpStatus, calm: bool) returns (ok: bool)
      requires Valid() && k < |rows| && PostOf(Book(), k, post)
      requires status in {Applied, RevertFailed} ==>
                 deployments[rows[k].deployment] != RolledBack && (post.Nothing? <==> rows[k].opType == CertOp)
      requires k in inPlace && status !in {Applied, RevertFailed} ==> OthersSettled(Book(), rows[k].deployment, k)
      modifies `rows
      ensures calm ==> ok
      ensures Valid()
      ensures rows == if ok then old(rows)[k := old(rows)[k].(post := post, status := status)] else old(rows)
    {
      hide WriteAhead, Owned, Recorded, OthersSettled, FreshKeys;
      ok := Try(calm);
      if ok {
        RowSaved(Book(), k, post, status, inbounds, nextInbound);
        rows := rows[k := rows[k].(post := post, status := status)];
      }
    }

    method SaveDeployment(d: nat, status: Status, calm: bool) returns (ok: bool)
      requires Valid() && d in deployments && deployments[d] != RolledBack
      requires status == RolledBack ==> Selected(rows, d) == []
      modifies `deployments
      ensures calm ==> ok
      ensures Valid()
      ensures deployments == if ok then old(deployments)[d := status] else old(deployments)
    {
      ok := Try(calm);
      if ok {
        if status == RolledBack {
          forall i: nat | i < |rows| && rows[i].Revertible() ensures rows[i].deployment != d {
            assert i !in Selected(rows, d);
          }
        }
        deployments := deployments[d := status];
      }
    }

    /** A tuning operation for row `k`: reads the old content, writes the drop-in,
        reloads.  A file that cannot be read counts as missing; a failing write may
        leave anything in that one file. */
    method ApplyTune(k: nat, t: TuneSpec, calm: bool) returns (ok: bool, snap: Files, readable: bool)
      requires Valid() && k < |rows| && rows[k].opType == TuneOp && rows[k].post == Nothing
      requires OthersSettled(Book(), rows[k].deployment, k)
      modifies `files, `inPlace, `drops
      ensures calm ==> ok && readable
      ensures Valid() && Book() == WithDrop(old(Book()), k, t.Path())
      ensures snap == Snapshot(old(files), t.Path(), readable)
      ensures ok ==> files == Written(old(files), t.Path(), t.Content())
      ensures forall p :: p !in Files1(t.Path()) ==> SameFile(files, old(files), p)
    {
      hide WriteAhead, Owned, Recorded, OthersSettled, FreshKeys, WellFormedRows, RolledBackClean;
      DropAdded(Book(), k, t.Path(), inbounds, nextInbound);
      inPlace := inPlace + {k};
      snap := map[];
      ok := Try(calm);
      readable := Try(calm);
      if t.dropin.None? {
        return;
      }
      var d := t.dropin.value;
      snap := map[d.path := Remembered(files, d.path, readable)];
      drops := drops[k := d.path];
      var touched: bool := *;
      if ok || touched {
        var content: string := *;
        files := files[d.path := if ok then d.content else content];
      }
    }

    /** Restores every path of the snapshot, past failures; a failed write may tear
        the file.  An effect whose snapshot is not `exact` stays in place. */
    method RevertTune(k: nat, snap: Files, ghost exact: bool, calm: bool) returns (ok: bool)
      requires Valid() && k < |rows| && rows[k].opType == TuneOp
      modifies `files, `inPlace
      ensures calm ==> ok
      ensures Valid() && inPlace == old(inPlace) - if ok && exact then {k} else {}
      ensures ok ==> files == RevertFiles(old(files), snap)
      ensures forall p :: p !in snap ==> SameFile(files, old(files), p)
    {
      hide WriteAhead, Owned, Recorded, WellFormedRows, RolledBackClean, FreshKeys;
      ok := true;
      var todo := snap.Keys;
      ghost var was := files;
      while todo != {}
        invariant todo <= snap.Keys
        invariant forall p :: p !in snap ==> SameFile(files, was, p)
        invariant ok ==> forall p :: p in snap.Keys - todo ==> SameFile(files, RevertFiles(was, snap), p)
        invariant inPlace == old(inPlace)
        invariant calm ==> ok
        decreases todo
      {
        var p :| p in todo;
        todo := todo - {p};
        ghost var before := files;
        var done := Try(calm);
        if done {
          files := RevertPath(files, p, snap[p]);
        } else {
          var torn: bool, content: string := *, *;
          if torn && snap[p] != ABSENT {
            files := files[p := content];
          }
        }
        ok := ok && done;
        forall q | ok && q in snap.Keys - todo ensures SameFile(files, RevertFiles(was, snap), q) {
          assert q != p ==> SameFile(before, RevertFiles(was, snap), q);
        }
      }
      if ok {
        forall p ensures SameFile(files, RevertFiles(was, snap), p) {
          assert p !in snap ==> SameFile(files, was, p);
        }
        SameFilesAreEqual(files, RevertFiles(was, snap));
        if exact {
          TuneRemoved(Book(), k, inbounds, nextInbound);
          inPlace := inPlace - {k};
        }
      }
    }

    /** One transaction: port check, inbound row, client rows. */
    method CreateInbound(k: nat, spec: InboundSpec, calm: bool) returns (ok: bool, id: nat)
      requires Valid() && k < |rows| && rows[k].opType == InboundOp && OthersSettled(Book(), rows[k].deployment, k)
      requires forall other :: other in owner ==> owner[other] != k
      modifies `inbounds, `clients, `nextInbound, `nextClient, `inPlace, `owner
      ensures ok ==> PortFree(old(inbounds), spec.row.port)
      ensures calm && PortFree(old(inbounds), spec.row.port) ==> ok
      ensures Valid() && inPlace == old(inPlace) + if ok then {k} else {}
      ensures owner == if ok then old(owner)[id := k] else old(owner)
      ensures !ok ==> inbounds == old(inbounds) && clients == old(clients)
      ensures ok ==> id == old(nextInbound) && id !in old(inbounds)
                     && inbounds == old(inbounds)[id := spec.row.(enable := true)]
                     && clients == old(clients) + NewClients(id, old(nextClient), spec.uuids)
    {
      hide WriteAhead, Owned, Recorded, KeysBelow, OthersSettled, WellFormedRows, RolledBackClean, NewClients;
      id := nextInbound;
      if !PortFree(inbounds, spec.row.port) {
        return false, 0;
      }
      ok := Try(calm);
      if ok {
        inbounds := inbounds[id := spec.row.(enable := true)];
        clients := clients + NewClients(id, nextClient, spec.uuids);
        nextInbound, nextClient := nextInbound + 1, nextClient + |spec.uuids|;
        inPlace, owner := inPlace + {k}, owner[id := k];
        KeysAdded(old(inbounds), old(clients), id, spec.row.(enable := true), old(nextClient), spec.uuids);
        OwnerAdded(old(Book()), k, old(inbounds), id, spec.row.(enable := true));
      }
    }

    /** One transaction: the clients of the inbound, then the inbound. */
    method DeleteInbound(k: nat, id: nat, calm: bool) returns (ok: bool)
      requires Valid() && Creates(Book(), k, id)
      modifies `inbounds, `clients, `inPlace
      ensures calm ==> ok
      ensures Valid() && inPlace == old(inPlace) - if ok then {k} else {}
      ensures Sys() == if ok then RemoveInbound(old(Sys()), id) else old(Sys())
    {
      hide WriteAhead, Owned, Recorded, KeysBelow, Creates;
      ok := Try(calm);
      if ok {
        KeysRemoved(Sys(), id, nextInbound, nextClient);
        clients := map c | c in clients && clients[c].inboundID != id :: clients[c];
        inbounds := inbounds - {id};
        inPlace := inPlace - {k};
        OwnerRemoved(old(Book()), k, old(inbounds), id, nextInbound);
      }
    }

    /** Dispatches on the kind of the row; certificates stay. */
    method RevertOne(k: nat, post: Post, ghost exact: bool, calm: bool) returns (ok: bool)
      requires Valid() && k < |rows| && PostOf(Book(), k, post)
      modifies `files, `inbounds, `clients, `inPlace
      ensures calm ==> ok
      ensures Valid()
      ensures inPlace == old(inPlace) - if ok && !post.Nothing? && (post.TunePost? ==> exact) then {k} else {}
      ensures RevertTried(post, ok, old(Sys()), Sys())
    {
      hide WriteAhead, Owned, Recorded, Creates, OwnFile;
      match post
      case Nothing =>
        ok := true;
      case TunePost(snap) =>
        ok := RevertTune(k, snap, exact, calm);
      case InboundPost(id) =>
        ok := DeleteInbound(k, id, calm);
    }

    /** The row an operation has just opened is saved with its outcome. */
    method FinishRow(d: nat, k: nat, sequence: nat, post: Post, status: OpStatus, calm: bool) returns (ok: bool)
      requires Valid() && k == |rows| - 1 && rows[k].deployment == d && rows[k].status == Pending
      requires PostOf(Book(), k, post)
      requires status in {Applied, Failed} && OthersSettled(Book(), d, k) && SequencesBelow(d, sequence)
      requires status == Applied ==> (post.Nothing? <==> rows[k].opType == CertOp)
      requires deployments[d] != RolledBack
      modifies `rows
      ensures calm ==> ok
      ensures Valid() && Completed(old(Book()), Book(), d, k) && rows[k].opType == old(rows)[k].opType
      ensures rows[k].Revertible() <==> ok && status == Applied
      ensures ok ==> rows == old(rows)[k := old(rows)[k].(post := post, status := status)]
      ensures Log(rows, d) == old(Log(rows, d)) + if ok && status == Applied then [post] else []
      ensures ok && status == Applied ==> OthersSettled(Book(), d, |rows|)
      ensures SequencesBelow(d, sequence)
    {
      hide WriteAhead, Owned, Recorded, KeysBelow, PostOf;
      LogOfCompleted(rows, rows[k].(post := post, status := status), d);
      ok := SaveRow(k, post, status, calm);
    }

    // ---------- Operations ----------

    ghost predicate ReadyFor(d: nat, sequence: nat)
      reads this
    {
      && Valid() && d in deployments && deployments[d] == Running && OthersSettled(Book(), d, |rows|)
      && SequencesBelow(d, sequence)
    }

    /** The open last row `k` belongs to deployment `d`, and everything else of
        `d` is settled. */
    ghost predicate Open(d: nat, k: nat, sequence: nat, opType: OpType)
      reads this
    {
      && Valid() && d in deployments && deployments[d] == Running
      && k == |rows| - 1 && rows[k] == OpRow(d, sequence, opType, Nothing, Pending)
      && OthersSettled(Book(), d, k) && SequencesBelow(d, sequence + 1)
    }

    method OpenRow(d: nat, sequence: nat, opType: OpType, calm: bool) returns (ok: bool, k: nat)
      requires ReadyFor(d, sequence)
      modifies `rows
      ensures calm ==> ok
      ensures Valid() && Log(rows, d) == old(Log(rows, d)) && k == |old(rows)|
      ensures rows == if ok then old(rows) + [OpRow(d, sequence, opType, Nothing, Pending)] else old(rows)
      ensures ok ==> Open(d, k, sequence, opType) && Untouched(Book(), k)
    {
      hide WriteAhead, Owned, Recorded, KeysBelow;
      k := |rows|;
      FreshRow(Book(), inbounds, nextInbound);
      LogOfLast(rows, OpRow(d, sequence, opType, Nothing, Pending), d);
      ok := CreateRow(d, sequence, opType, calm);
    }

    method RunCert(d: nat, sequence: nat, misread: set<Path>, ghost start: System, calm: Calm) returns (r: StepResult)
      requires ReadyFor(d, sequence) && Undoable(Log(rows, d), Sys(), start, misread, {}, {})
      modifies `rows
      ensures calm.All() ==> r.ok
      ensures Valid() && Stepped(old(Book()), old(Sys()), Book(), Sys(), d, {}, r) && r.torn == {} && r.stray == {}
      ensures r.ok ==> ReadyFor(d, sequence + 1) && Undoable(Log(rows, d), Sys(), start, r.misread, {}, {})
      ensures !r.ok ==> r.misread == misread
      ensures r.ok ==> rows == old(rows) + [OpRow(d, sequence, CertOp, Nothing, Applied)]
    {
      hide WriteAhead, Owned, Recorded, KeysBelow, Stepped, Log, Undoable, FreshKeys, WellFormedRows, RolledBackClean;
      var created, k := OpenRow(d, sequence, CertOp, calm.log);
      r := StepResult(false, {}, {}, misread);
      if created {
        var provisioned := Try(calm.effects);
        var saved := FinishRow(d, k, sequence + 1, Nothing, if provisioned then Applied else Failed, calm.log);
        if provisioned && saved {
          UndoableOther(old(Log(rows, d)), Sys(), start, misread, Nothing, Sys());
          r := r.(ok := true);
        }
      }
      RowStepped(old(Book()), Book(), Sys(), d, r);
    }

    /** Records a finished effect; if the record cannot be saved, the effect is
        reverted on the spot, from memory. */
    method Close(d: nat, k: nat, sequence: nat, post: Post, ghost exact: bool, calm: Calm) returns (saved: bool, reverted: bool)
      requires post.TunePost? || post.InboundPost?
      requires Open(d, k, sequence, if post.TunePost? then TuneOp else InboundOp) && PostOf(Book(), k, post)
      modifies `rows, `files, `inbounds, `clients, `inPlace
      ensures (calm.log ==> saved) && (!saved && calm.effects ==> reverted)
      ensures Valid() && Completed(old(Book()), Book(), d, k)
      ensures inPlace == old(inPlace) - if !saved && reverted && (post.TunePost? ==> exact) then {k} else {}
      ensures saved ==> ReadyFor(d, sequence + 1) && Sys() == old(Sys()) && Log(rows, d) == old(Log(rows, d)) + [StoredPost(post)]
      ensures saved ==> rows == old(rows)[k := OpRow(d, sequence, old(rows)[k].opType, StoredPost(post), Applied)]
      ensures !saved ==> Log(rows, d) == old(Log(rows, d)) && !rows[k].Revertible() && RevertTried(post, reverted, old(Sys()), Sys())
    {
      hide WriteAhead, Owned, Recorded, KeysBelow;
      reverted := false;
      saved := FinishRow(d, k, sequence + 1, StoredPost(post), Applied, calm.log);
      if !saved {
        reverted := RevertOne(k, post, exact, calm.effects);
      }
    }

    method TuneRow(d: nat, k: nat, t: TuneSpec, sequence: nat, misread: set<Path>, ghost start: System, calm: Calm) returns (r: StepResult)
      requires Open(d, k, sequence, TuneOp) && Untouched(Book(), k) && Undoable(Log(rows, d), Sys(), start, misread, {}, {})
      modifies `files, `rows, `inPlace, `drops, `inbounds, `clients
      ensures calm.All() ==> r.ok
      ensures r.stray == {} && (calm.effects ==> AllAbsent(r.torn, old(files)))
      ensures Valid() && Stepped(old(Book()), old(Sys()), Book(), Sys(), d, Files1(t.Path()), r)
      ensures r.ok ==> ReadyFor(d, sequence + 1) && Undoable(Log(rows, d), Sys(), start, r.misread, {}, {})
      ensures !r.ok ==> r.misread == misread
      ensures r.ok ==> TuneDone(t, d, sequence, old(rows)[..k], rows, old(Sys()), Sys())
    {
      hide WriteAhead, Owned, Recorded, KeysBelow, Stepped, OwnFile, RevertPost, RevertTried, Undoable, Log, Stored, Misread, Written, TuneDone, Exact, AllAbsent;
      var was, log := files, Log(rows, d);
      var applied, snap, readable := TuneForRow(d, k, sequence, t, calm.effects);
      var exact := Exact(was, t.Path(), readable);
      InexactIsAbsent(was, t.Path());
      if !applied {
        var _ := FinishRow(d, k, sequence + 1, Nothing, Failed, calm.log);
        r := StepResult(false, Files1(t.Path()), {}, misread);
        TuneStepped(old(Book()), old(Sys()), Book(), Sys(), d, k, t.Path(), snap, false, r);
        return;
      }
      ghost var mid := Sys();
      var saved, reverted := Close(d, k, sequence, TunePost(snap), exact, calm);
      var back := !saved && reverted && exact;
      r := StepResult(saved, if saved || back then {} else Files1(t.Path()), {},
                      if saved then Misread(log, misread, t.Path(), readable) else misread);
      if back {
        TuneUndone(old(Sys()), t.Path(), t.Content(), readable, mid, snap);
      }
      RevertedFiles(old(Sys()), mid, Sys(), snap, t.Path(), saved, reverted);
      TuneStepped(old(Book()), old(Sys()), Book(), Sys(), d, k, t.Path(), Stored(snap), back, r);
      if saved {
        TuneIsDone(t, d, sequence, old(rows), k, rows, old(Sys()), Sys(), Stored(snap));
        UndoableTune(old(Log(rows, d)), old(Sys()), start, misread, t.Path(), t.Content(), readable);
      }
    }

    /** Applying a tuning operation, seen from the row: what it remembers is its
        record, and it has written its own file only. */
    method TuneForRow(d: nat, k: nat, sequence: nat, t: TuneSpec, calm: bool) returns (ok: bool, snap: Files, readable: bool)
      requires Open(d, k, sequence, TuneOp)
      modifies `files, `inPlace, `drops
      ensures calm ==> ok && readable
      ensures Open(d, k, sequence, TuneOp) && Book() == WithDrop(old(Book()), k, t.Path()) && PostOf(Book(), k, TunePost(snap))
      ensures snap == Snapshot(old(files), t.Path(), readable) && snap.Keys == Files1(t.Path())
      ensures ok ==> files == Written(old(files), t.Path(), t.Content())
      ensures forall p :: p !in Files1(t.Path()) ==> SameFile(files, old(files), p)
    {
      hide WriteAhead, Owned, Recorded, KeysBelow;
      ok, snap, readable := ApplyTune(k, t, calm);
    }

    method RunTune(d: nat, t: TuneSpec, sequence: nat, misread: set<Path>, ghost start: System, calm: Calm) returns (r: StepResult)
      requires ReadyFor(d, sequence) && Undoable(Log(rows, d), Sys(), start, misread, {}, {})
      modifies `files, `rows, `inPlace, `drops, `inbounds, `clients
      ensures calm.All() ==> r.ok
      ensures r.stray == {} && (calm.effects ==> AllAbsent(r.torn, old(files)))
      ensures Valid() && Stepped(old(Book()), old(Sys()), Book(), Sys(), d, Files1(t.Path()), r)
      ensures r.ok ==> ReadyFor(d, sequence + 1) && Undoable(Log(rows, d), Sys(), start, r.misread, {}, {})
      ensures !r.ok ==> r.misread == misread
      ensures r.ok ==> TuneDone(t, d, sequence, old(rows), rows, old(Sys()), Sys())
    {
      hide WriteAhead, Owned, Recorded, KeysBelow, Stepped, Undoable, TuneDone, AllAbsent;
      InexactIsAbsent(files, None);
      var created, k := OpenRow(d, sequence, TuneOp, calm.log);
      ghost var book := Book();
      if !created {
        r := StepResult(false, {}, {}, misread);
        NothingStepped(Book(), Sys(), d, Files1(t.Path()), r);
      } else {
        assert rows[..k] == old(rows);
        r := TuneRow(d, k, t, sequence, misread, start, calm);
        OpenedStepped(old(Book()), book, old(Sys()), Book(), Sys(), d, Files1(t.Path()), r);
      }
    }

    /** Creating an inbound, seen from the log: deleting its id undoes it. */
    method CreateForRow(d: nat, k: nat, sequence: nat, spec: InboundSpec, calm: bool) returns (ok: bool, id: nat)
      requires Open(d, k, sequence, InboundOp) && Untouched(Book(), k)
      modifies `inbounds, `clients, `nextInbound, `nextClient, `inPlace, `owner
      ensures ok ==> PortFree(old(inbounds), spec.row.port)
      ensures calm && PortFree(old(inbounds), spec.row.port) ==> ok
      ensures Open(d, k, sequence, InboundOp)
      ensures !ok ==> Sys() == old(Sys()) && Book() == old(Book())
      ensures ok ==> RevertPost(Sys(), InboundPost(id)) == old(Sys()) && id in inbounds && id !in old(owner)
      ensures ok ==> Adds(spec, id, old(nextClient), old(Sys()), Sys())
      ensures ok ==> Book() == old(Book()).(inPlace := old(inPlace) + {k}, owner := old(owner)[id := k])
    {
      hide WriteAhead, Owned, Recorded, KeysBelow, NewClients, RevertPost, WellFormedRows, RolledBackClean;
      FreshRow(Book(), inbounds, nextInbound);
      ok, id := CreateInbound(k, spec, calm);
      if ok {
        CreationUndone(old(Sys()), id, spec.row.(enable := true), old(nextClient), spec.uuids);
      }
    }

    method InboundRowStep(d: nat, k: nat, spec: InboundSpec, sequence: nat, misread: set<Path>, ghost start: System, calm: Calm)
      returns (r: StepResult, id: nat)
      requires Open(d, k, sequence, InboundOp) && Untouched(Book(), k) && Undoable(Log(rows, d), Sys(), start, misread, {}, {})
      modifies `inbounds, `clients, `nextInbound, `nextClient, `inPlace, `owner, `rows, `files
      ensures r.ok ==> PortFree(old(inbounds), spec.row.port)
      ensures calm.effects ==> r.stray == {}
      ensures calm.All() && PortFree(old(inbounds), spec.row.port) ==> r.ok
      ensures Valid() && Stepped(old(Book()), old(Sys()), Book(), Sys(), d, {}, r) && r.misread == misread
      ensures r.ok ==> ReadyFor(d, sequence + 1) && Undoable(Log(rows, d), Sys(), start, r.misread, {}, {})
      ensures r.torn == {} && files == old(files)
      ensures r.ok ==> InboundDone(spec, id, old(nextClient), d, sequence, old(rows)[..k], rows, old(Sys()), Sys())
    {
      hide WriteAhead, Owned, Recorded, KeysBelow, Stepped, RevertPost, RevertTried, Undoable, Log, Adds, PortFree, WellFormedRows, RolledBackClean;
      var done;
      done, id := CreateForRow(d, k, sequence, spec, calm.effects);
      if !done {
        var _ := FinishRow(d, k, sequence + 1, Nothing, Failed, calm.log);
        r := StepResult(false, {}, {}, misread);
        RowStepped(old(Book()), Book(), Sys(), d, r);
        return;
      }
      ghost var mid := Sys();
      var saved, reverted := Close(d, k, sequence, InboundPost(id), true, calm);
      var back := !saved && reverted;
      r := StepResult(saved, {}, if saved || back then {} else {id}, misread);
      KeptOrGone(mid, Sys(), id, saved, reverted);
      InboundStepped(old(Book()), old(Sys()), mid, Book(), Sys(), d, k, id, back, r);
      if saved {
        UndoableOther(old(Log(rows, d)), old(Sys()), start, misread, InboundPost(id), Sys());
      }
    }

    method RunInbound(d: nat, spec: InboundSpec, sequence: nat, misread: set<Path>, ghost start: System, calm: Calm)
      returns (r: StepResult, id: nat)
      requires ReadyFor(d, sequence) && Undoable(Log(rows, d), Sys(), start, misread, {}, {})
      modifies `inbounds, `clients, `nextInbound, `nextClient, `inPlace, `owner, `rows, `files
      ensures r.ok ==> PortFree(old(inbounds), spec.row.port)
      ensures calm.effects ==> r.stray == {}
      ensures calm.All() && PortFree(old(inbounds), spec.row.port) ==> r.ok
      ensures Valid() && Stepped(old(Book()), old(Sys()), Book(), Sys(), d, {}, r) && r.misread == misread
      ensures r.ok ==> ReadyFor(d, sequence + 1) && Undoable(Log(rows, d), Sys(), start, r.misread, {}, {})
      ensures r.torn == {} && files == old(files)
      ensures r.ok ==> InboundDone(spec, id, old(nextClient), d, sequence, old(rows), rows, old(Sys()), Sys())
    {
      hide WriteAhead, Owned, Recorded, KeysBelow, Stepped, Undoable, InboundDone;
      id := 0;
      var created, k := OpenRow(d, sequence, InboundOp, calm.log);
      ghost var book := Book();
      if !created {
        r := StepResult(false, {}, {}, misread);
        NothingStepped(Book(), Sys(), d, {}, r);
      } else {
        assert rows[..k] == old(rows);
        r, id := InboundRowStep(d, k, spec, sequence, misread, start, calm);
        OpenedStepped(old(Book()), book, old(Sys()), Book(), Sys(), d, {}, r);
      }
    }

    // ---------- The pipeline ----------

    /** Certificate, tuning, inbounds; stops at the first failure.  Whether or not
        it fails, everything it has left is the doing of a row in place, and
        undoing the log gives the start, what the failed operation left apart and
        the files whose content no row could keep.  If it succeeds, the plan has
        been carried out to the letter. */
    method Execute(d: nat, plan: Plan, calm: Calm) returns (r: StepResult, ids: seq<nat>, ghost first: seq<nat>)
      requires ReadyFor(d, 0) && Log(rows, d) == []
      modifies this
      ensures r.ok ==> PortsFree(plan.inbounds, old(inbounds))
      ensures calm.effects ==> r.stray == {} && OnlyAbsentTexts(r.torn, plan, old(files))
      ensures calm.All() && PortsFree(plan.inbounds, old(inbounds)) ==> r.ok
      ensures Valid() && deployments == old(deployments) && nextDeployment == old(nextDeployment)
      ensures AccountsFor(Book(), d, Sys(), old(Sys()))
      ensures Undoable(Log(rows, d), Sys(), old(Sys()), r.misread, Uncovered(r.torn, Log(rows, d)), r.stray)
      ensures Unsettled(Book(), d, r.torn, r.stray) && (r.ok ==> r.torn == {} && r.stray == {})
      ensures forall p :: Covers(Log(rows, d), p) ==> p in plan.Paths()
      ensures r.ok ==> CarriedOut(plan, ids, first, d, old(rows), rows, old(Sys()), Sys())
    {
      hide Valid, OthersSettled, SequencesBelow, Log, UndoAll, AccountsFor, Grew, SameExcept, Undoable, Covers, CarriedOut, TuneDone, InboundDone, PortFree, PortsFree, OnlyAbsentTexts, AllAbsent;
      ids, first := [], [];
      NothingAbsent(plan, files);
      NothingToUndo(Sys());
      NothingCovered();
      NothingToAccount(Book(), d, Sys());
      ghost var begun := Book();
      r := RunCert(d, 0, {}, old(Sys()), calm);
      StillAccounts(begun, Book(), d, old(Sys()), old(Sys()), Sys());
      if !r.ok {
        FailedIsUndoable(begun, old(Sys()), Book(), Sys(), d, {}, r, old(Sys()), {});
        return;
      }
      CertCarriedOut(d, old(rows), rows, Sys());
      assert PortsFree([], old(inbounds)) by {
        NoPortsTaken(old(inbounds));
      }
      assert plan.tuning[..0] == [] && plan.inbounds[..0] == [] && plan.tuning[..|plan.tuning|] == plan.tuning;
      for i := 0 to |plan.tuning|
        invariant ReadyFor(d, i + 1) && r.ok && r.torn == {} && r.stray == {}
        invariant deployments == old(deployments) && nextDeployment == old(nextDeployment)
        invariant Undoable(Log(rows, d), Sys(), old(Sys()), r.misread, {}, {}) && AccountsFor(Book(), d, Sys(), old(Sys()))
        invariant forall p :: Covers(Log(rows, d), p) ==> p in plan.Paths()
        invariant CarriedOut(Plan(plan.tuning[..i], []), ids, first, d, old(rows), rows, old(Sys()), Sys()) && ids == first == []
      {
        ghost var before, book, misread := Sys(), Book(), r.misread;
        PathIsPlanned(plan, i);
        r := RunTune(d, plan.tuning[i], i + 1, r.misread, old(Sys()), calm);
        StillAccounts(book, Book(), d, old(Sys()), before, Sys());
        if !r.ok {
          FailedIsUndoable(book, before, Book(), Sys(), d, Files1(plan.tuning[i].Path()), r, old(Sys()), misread);
          if calm.effects {
            AbsentTexts(plan, i, ids, first, d, old(rows), book.rows, old(Sys()), before, r.torn);
          }
          return;
        }
        TuneCarriedOut(Plan(plan.tuning[..i], []), plan.tuning[i], d, old(rows), book.rows, rows, old(Sys()), before, Sys());
        assert plan.tuning[..i + 1] == plan.tuning[..i] + [plan.tuning[i]];
      }
      for i := 0 to |plan.inbounds|
        invariant ReadyFor(d, |plan.tuning| + i + 1) && r.ok && r.torn == {} && r.stray == {}
        invariant deployments == old(deployments) && nextDeployment == old(nextDeployment)
        invariant Undoable(Log(rows, d), Sys(), old(Sys()), r.misread, {}, {}) && AccountsFor(Book(), d, Sys(), old(Sys()))
        invariant forall p :: Covers(Log(rows, d), p) ==> p in plan.Paths()
        invariant PortsFree(plan.inbounds[..i], old(inbounds))
        invariant CarriedOut(Plan(plan.tuning, plan.inbounds[..i]), ids, first, d, old(rows), rows, old(Sys()), Sys())
      {
        ghost var before, book, misread, next := Sys(), Book(), r.misread, nextClient;
        NextPortFree(plan, i, ids, first, d, old(rows), rows, old(Sys()), Sys());
        var id;
        r, id := RunInbound(d, plan.inbounds[i], |plan.tuning| + i + 1, r.misread, old(Sys()), calm);
        StillAccounts(book, Book(), d, old(Sys()), before, Sys());
        if !r.ok {
          FailedIsUndoable(book, before, Book(), Sys(), d, {}, r, old(Sys()), misread);
          return;
        }
        InboundCarriedOut(Plan(plan.tuning, plan.inbounds[..i]), ids, first, plan.inbounds[i], id, next, d, old(rows), book.rows, rows,
                          old(Sys()), before, Sys());
        ids, first := ids + [id], first + [next];
        assert plan.inbounds[..i + 1] == plan.inbounds[..i] + [plan.inbounds[i]];
      }
      assert plan.inbounds[..|plan.inbounds|] == plan.inbounds;
      var recorded := Try(calm.log); // the inbound ids on the deployment row
      NoneUncovered(Log(rows, d));
      r := r.(ok := recorded);
    }

    // ---------- Rolling back ----------

    /** Reverts one row and saves what became of it. */
    method RevertRow(k: nat, calm: bool) returns (reverted: bool, saved: bool)
      requires Valid() && k < |rows| && rows[k].Revertible()
      modifies `files, `inbounds, `clients, `inPlace, `rows
      ensures calm ==> reverted && saved
      ensures Valid() && |rows| == |old(rows)|
      ensures rows == old(rows)[k := rows[k]]
      ensures rows[k].deployment == old(rows)[k].deployment && rows[k].post == old(rows)[k].post
      ensures RevertTried(rows[k].post, reverted, old(Sys()), Sys())
      ensures rows[k].Revertible() <==> !(reverted && saved)
      ensures UnsettledStays(old(Book()), Book())
    {
      hide WriteAhead, Owned, Recorded, KeysBelow, RevertTried, PostOf, UnsettledStays;
      RowsPost(Book(), inbounds, nextInbound, k);
      reverted := RevertOne(k, rows[k].post, true, calm);
      RowsPost(Book(), inbounds, nextInbound, k);
      saved := SaveRow(k, rows[k].post, if reverted then Reverted else RevertFailed, calm);
      SettledRowStays(old(Book()), Book(), k);
    }

    /** Reverts the rows `ks` in descending sequence, past failures. */
    method RevertSelected(ks: seq<nat>, ghost posts: seq<Post>, calm: bool) returns (ok: bool, clean: bool)
      requires Valid() && |posts| == |ks|
      requires forall m :: 0 <= m < |ks| ==> ks[m] < |rows| && rows[ks[m]].Revertible() && posts[m] == rows[ks[m]].post
      requires forall a, b :: 0 <= a < b < |ks| ==> ks[a] < ks[b]
      modifies `files, `inbounds, `clients, `inPlace, `rows
      ensures calm ==> ok
      ensures Valid() && RolledBackFrom(rows, old(rows), ks, 0, ok)
      ensures Pass(Posts(old(rows)), From(ks, 0), StillIn(rows, From(ks, 0)), old(Sys()), Sys())
      ensures UnsettledStays(old(Book()), Book())
      ensures ok ==> clean
      ensures clean ==> Sys() == UndoAll(posts, old(Sys()))
    {
      hide Valid, Pass, Undoing, UndoAll, RevertPost;
      ghost var was, sys, expected := rows, Sys(), Sys();
      ok, clean := true, true;
      UndoingStarts(posts, sys);
      NoPass(Posts(was), {}, sys);
      assert From(ks, |ks|) == {} && StillIn(rows, {}) == {};
      var j := |ks|;
      while j > 0
        invariant 0 <= j <= |ks| && Valid()
        invariant RolledBackFrom(rows, was, ks, j, ok)
        invariant ok ==> clean
        invariant calm ==> ok
        invariant clean ==> Sys() == expected
        invariant Undoing(posts, sys, j, expected)
        invariant Pass(Posts(was), From(ks, j), StillIn(rows, From(ks, j)), sys, Sys())
        invariant UnsettledStays(old(Book()), Book())
      {
        j := j - 1;
        var k := ks[j];
        ghost var before, now := rows, Sys();
        UndoingStep(posts, sys, j, expected);
        expected := RevertPost(expected, posts[j]);
        var reverted, saved := RevertRow(k, calm);
        RolledBackStep(before, rows, was, ks, j, ok, reverted && saved);
        PassStep(was, before, rows, ks, j, sys, now, reverted, reverted && saved, Sys());
        ok, clean := ok && reverted && saved, clean && reverted;
      }
      UndoingEnds(posts, sys, expected);
    }

    /** Selects what is applied or half reverted, and reverts it.  Whatever fails,
        this is one pass over those rows that leaves the ones still selected. */
    method RollbackOps(d: nat, calm: bool) returns (ok: bool, clean: bool)
      requires Valid() && d in deployments && deployments[d] != RolledBack
      modifies `files, `inbounds, `clients, `inPlace, `rows
      ensures calm ==> ok
      ensures Valid() && Posts(rows) == Posts(old(rows))
      ensures Pass(Posts(rows), Chosen(old(rows), d), Chosen(rows, d), old(Sys()), Sys())
      ensures UnsettledStays(old(Book()), Book())
      ensures ok ==> clean && Selected(rows, d) == []
      ensures clean ==> Sys() == UndoAll(old(Log(rows, d)), old(Sys()))
    {
      var readOk := Try(calm);
      if !readOk {
        NoPass(Posts(rows), Chosen(rows, d), Sys());
        return false, false;
      }
      var ks := Selected(rows, d);
      LogIsSelected(rows, d);
      ok, clean := RevertSelected(ks, Log(rows, d), calm);
      SelectionAfter(rows, old(rows), ks, d, ok);
      if ok {
        LeftoverRows(rows, old(rows), ks, d);
      }
    }

    /** The failure path of an apply: roll back, then record the failure. */
    method Abort(d: nat, calm: bool) returns (clean: bool)
      requires Valid() && d in deployments && deployments[d] == Running
      modifies `files, `inbounds, `clients, `inPlace, `rows, `deployments
      ensures calm ==> clean && deployments == old(deployments)[d := FailedDeployment]
      ensures Valid() && (deployments == old(deployments) || deployments == old(deployments)[d := FailedDeployment])
      ensures Posts(rows) == Posts(old(rows)) && Pass(Posts(rows), Chosen(old(rows), d), Chosen(rows, d), old(Sys()), Sys())
      ensures UnsettledStays(old(Book()), Book())
      ensures clean ==> Sys() == UndoAll(old(Log(rows, d)), old(Sys()))
    {
      var _, reverted := RollbackOps(d, calm);
      var saved := SaveDeployment(d, FailedDeployment, calm);
      return reverted;
    }

    /** Creates the deployment row and runs the pipeline. */
    method Attempt(d: nat, plan: Plan, calm: Calm) returns (e: StepResult, ids: seq<nat>, ghost first: seq<nat>)
      requires Valid() && d == nextDeployment
      modifies this
      ensures e.ok ==> PortsFree(plan.inbounds, old(inbounds))
      ensures calm.effects ==> e.stray == {} && OnlyAbsentTexts(e.torn, plan, old(files))
      ensures calm.All() && PortsFree(plan.inbounds, old(inbounds)) ==> e.ok
      ensures Valid() && deployments == old(deployments)[d := Running]
      ensures AccountsFor(Book(), d, Sys(), old(Sys()))
      ensures Undoable(Log(rows, d), Sys(), old(Sys()), e.misread, Uncovered(e.torn, Log(rows, d)), e.stray)
      ensures Unsettled(Book(), d, e.torn, e.stray) && (e.ok ==> e.torn == {} && e.stray == {})
      ensures forall p :: Covers(Log(rows, d), p) ==> p in plan.Paths()
      ensures nextDeployment == d + 1
      ensures e.ok ==> CarriedOut(plan, ids, first, d, old(rows), rows, old(Sys()), Sys())
    {
      hide WriteAhead, Owned, Recorded, KeysBelow, UndoAll, AccountsFor, Undoable, Unsettled, CarriedOut;
      deployments, nextDeployment := deployments[d := Running], nextDeployment + 1;
      LogOfFresh(rows, d);
      e, ids, first := Execute(d, plan, calm);
    }

    /** A whole deployment.  A deployment that is undone and whose reverts all
        succeeded leaves everything as it was but: the file or inbound of the one
        row in place that does not say so, and exactly the files whose content no
        row could keep, because it could not be read, is not UTF-8, or is the text
        that marks absence.  When reverts fail, what is wrong is confined to the
        operations a retry would select and to these.  A deployment that is not
        undone has carried out its plan. */
    method Apply(plan: Plan, calm: Calm) returns (r: ApplyResult, ghost first: seq<nat>)
      requires Valid()
      modifies this
      ensures r.Undone? && calm.effects ==> r.stray == {} && OnlyAbsentTexts(r.torn, plan, old(files))
      ensures calm.All() ==> (r.Deployed? <==> PortsFree(plan.inbounds, old(inbounds))) && (r.Deployed? ==> r.saved) && (r.Undone? ==> r.clean) && !r.Refused?
      ensures r.Deployed? ==> PortsFree(plan.inbounds, old(inbounds))
      ensures Valid()
      ensures forall d :: d in old(deployments) ==> d in deployments && deployments[d] == old(deployments)[d]
      ensures r.Refused? ==> Sys() == old(Sys()) && rows == old(rows)
      ensures r.Undone? ==> Unsettled(Book(), old(nextDeployment), r.torn, r.stray)
      ensures r.Undone? ==> forall p :: p in r.lost ==> p in plan.Paths() && !CanKeep(old(files), p, r.misread)
      ensures r.Undone? && r.clean ==> Restored(Sys(), old(Sys()), r.torn, r.stray, r.lost)
      ensures r.Undone? ==> Confined(Posts(rows), Chosen(rows, old(nextDeployment)), Sys(), old(Sys()), r.torn + r.lost, r.stray)
      ensures r.Deployed? ==> Undoable(Log(rows, r.deployment), Sys(), old(Sys()), r.misread, {}, {})
      ensures r.Deployed? ==> CarriedOut(plan, r.ids, first, r.deployment, old(rows), rows, old(Sys()), Sys())
      ensures r.Deployed? ==> deployments == old(deployments)[old(nextDeployment) := if r.saved then Succeeded else Running]
      ensures r.Deployed? ==> r.deployment == old(nextDeployment)
      ensures r.Undone? ==> old(nextDeployment) in deployments && deployments[old(nextDeployment)] in {Running, FailedDeployment}
      ensures r.Undone? ==> deployments - {old(nextDeployment)} == old(deployments)
    {
      hide CarriedOut, WellFormedRows, RolledBackClean, Uncovered, Lost, CanKeep, OnlyAbsentTexts;
      hide WriteAhead, Owned, Recorded, KeysBelow, Log, UndoAll, Pass, Undoable, Unsettled, UnsettledStays, Confined, Restored, AccountsFor;
      var accepted := Try(calm.All()); // probe, preset expansion, root check, the deployment row
      if !accepted {
        return Refused, [];
      }
      var was, d := files, nextDeployment;
      var e, ids;
      e, ids, first := Attempt(d, plan, calm);
      ghost var made, mid, book := rows, Sys(), Book();
      var recorded := Log(rows, d);
      var activated := Try(calm.All());
      if e.ok && activated {
        NoneUncovered(recorded);
        var saved := SaveDeployment(d, Succeeded, calm.log);
        return Deployed(d, saved, e.misread, ids), first;
      }
      var torn, lost := Uncovered(e.torn, recorded), Lost(recorded, was, e.misread);
      if calm.effects {
        FewerAbsent(e.torn, torn, plan, was);
      }
      var clean := Abort(d, calm.All());
      StillUnsettled(book, Book(), d, e.torn, e.stray, torn);
      AbortConfines(made, rows, d, mid, Sys(), old(Sys()), e.misread, torn, e.stray);
      AbortRestores(recorded, mid, old(Sys()), e.misread, torn, e.stray);
      return Undone(clean, torn, e.stray, lost, e.misread), first;
    }

    /** Manual rollback, also of a failed or half-rolled-back deployment: one more
        pass over what is still selected. */
    method Rollback(d: nat, calm: bool) returns (ok: bool)
      requires Valid()
      modifies this
      ensures calm && d in old(deployments) ==> ok
      ensures Valid() && Posts(rows) == Posts(old(rows))
      ensures forall x :: x in old(deployments) && old(deployments)[x] == RolledBack ==> x in deployments && deployments[x] == RolledBack
      ensures d !in old(deployments) ==> !ok && Sys() == old(Sys()) && rows == old(rows)
      ensures d in old(deployments) && old(deployments)[d] == RolledBack ==> ok && Sys() == old(Sys()) && rows == old(rows)
      ensures ok ==> d in deployments && deployments[d] == RolledBack && Selected(rows, d) == []
      ensures ok && old(deployments)[d] != RolledBack ==> Sys() == UndoAll(old(Log(rows, d)), old(Sys()))
      ensures d in old(deployments) ==> Pass(Posts(rows), Chosen(old(rows), d), Chosen(rows, d), old(Sys()), Sys())
    {
      hide WriteAhead, Owned, Recorded, KeysBelow, Pass, UndoAll, Log, Posts;
      if d !in deployments {
        return false;
      }
      if deployments[d] == RolledBack {
        NothingSelected(rows, d);
        NoPass(Posts(rows), Chosen(rows, d), Sys());
        return true;
      }
      var reverted, clean := RollbackOps(d, calm);
      var activated := Try(calm);
      if !reverted || !activated {
        var saved := SaveDeployment(d, FailedDeployment, calm);
        return false;
      }
      ok := SaveDeployment(d, RolledBack, calm);
    }
  }

  // ---------- Passes of a rollback ----------

  function From(ks: seq<nat>, j: nat): set<nat> {
    set m | j <= m < |ks| :: ks[m]
  }

  function StillIn(rows: seq<OpRow>, ks: set<nat>): set<nat> {
    set k | k in ks && k < |rows| && rows[k].Revertible()
  }

  lemma PassStep(was: seq<OpRow>, before: seq<OpRow>, rows: seq<OpRow>, ks: seq<nat>, j: nat, s: System, t: System,
                 reverted: bool, cleared: bool, u: System)
    requires j < |ks| && (forall a, b :: 0 <= a < b < |ks| ==> ks[a] < ks[b])
    requires ks[j] < |was| == |before| == |rows| && rows == before[ks[j] := rows[ks[j]]]
    requires Pass(Posts(was), From(ks, j + 1), StillIn(before, From(ks, j + 1)), s, t)
    requires RevertTried(was[ks[j]].post, reverted, t, u) && (cleared ==> reverted) && (rows[ks[j]].Revertible() <==> !cleared)
    ensures Pass(Posts(was), From(ks, j), StillIn(rows, From(ks, j)), s, u)
  {
    var k, later := ks[j], From(ks, j + 1);
    PassGoesOn(Posts(was), later, StillIn(before, later), s, t, k, reverted, cleared, u);
    assert From(ks, j) == later + {k} by {
      forall i | i in From(ks, j) ensures i in later + {k} {
        var m :| j <= m < |ks| && ks[m] == i;
      }
    }
    assert k !in later;
    assert StillIn(rows, From(ks, j)) == if cleared then StillIn(before, later) else StillIn(before, later) + {k};
  }

  lemma SelectionAfter(rows: seq<OpRow>, was: seq<OpRow>, ks: seq<nat>, d: nat, ok: bool)
    requires ks == Selected(was, d) && RolledBackFrom(rows, was, ks, 0, ok)
    ensures From(ks, 0) == Chosen(was, d) && StillIn(rows, From(ks, 0)) == Chosen(rows, d) && Posts(rows) == Posts(was)
  {
    forall i: nat ensures i in ks <==> i in Chosen(was, d) {
    }
    forall i: nat ensures i in ks <==> i in From(ks, 0) {
      if i in ks {
        var m :| 0 <= m < |ks| && ks[m] == i;
      }
    }
    forall i: nat | i < |rows| && i !in ks ensures rows[i] == was[i] {
    }
  }

  /** The last row, in the selection and in the log. */
  lemma LastRow(rows: seq<OpRow>, d: nat)
    requires rows != []
    ensures var n: nat := |rows| - 1; var mine := rows[n].deployment == d && rows[n].Revertible();
            && Chosen(rows, d) == Chosen(rows[..n], d) + (if mine then {n} else {})
            && (forall i :: i in Chosen(rows[..n], d) ==> i < n)
            && Posts(rows)[..n] == Posts(rows[..n])
            && Log(rows, d) == Log(rows[..n], d) + (if mine then [Posts(rows)[n]] else [])
  {
    var n: nat := |rows| - 1;
    forall i: nat ensures i in Chosen(rows, d) <==> i in Chosen(rows[..n], d) + if rows[n].deployment == d && rows[n].Revertible() then {n} else {} {
      assert i < n ==> rows[..n][i] == rows[i];
    }
  }

  /** Undoing the log is an undisturbed pass over the selected rows. */
  lemma {:induction false} LogIsPass(rows: seq<OpRow>, d: nat, s: System)
    ensures UndoAll(Log(rows, d), s) == UndoSome(Posts(rows), Chosen(rows, d), s)
    decreases |rows|, 1
  {
    if rows == [] {
      NoneOfPass(s);
      assert Posts(rows) == [] && Chosen(rows, d) == {} && Log(rows, d) == [];
    } else {
      LogIsPassStep(rows, d, s);
    }
  }

  lemma {:induction false} LogIsPassStep(rows: seq<OpRow>, d: nat, s: System)
    requires rows != []
    ensures UndoAll(Log(rows, d), s) == UndoSome(Posts(rows), Chosen(rows, d), s)
    decreases |rows|, 0
  {
    hide UndoAll, UndoSome, RevertPost, Chosen, Posts, Log;
    var n: nat := |rows| - 1;
    var init, post := rows[..n], Posts(rows)[n];
    var mine := rows[n].deployment == d && rows[n].Revertible();
    LastRow(rows, d);
    if mine {
      UndoSnoc(Log(init, d), post, s);
    } else {
      assert Log(init, d) + [] == Log(init, d);
    }
    LogIsPass(init, d, if mine then RevertPost(s, post) else s);
    LastOfPass(Posts(rows), Chosen(init, d), mine, s);
  }

  lemma NoneOfPass(s: System)
    ensures UndoSome([], {}, s) == s
  {
    RemoveNone(s);
    assert IdsOf([], {}) == {};
  }

  /** A pass starts with the last operation. */
  lemma LastOfPass(posts: seq<Post>, chosen: set<nat>, mine: bool, s: System)
    requires posts != [] && forall i :: i in chosen ==> i < |posts| - 1
    ensures var n: nat := |posts| - 1;
            UndoSome(posts, chosen + if mine then {n} else {}, s)
            == UndoSome(posts[..n], chosen, if mine then RevertPost(s, posts[n]) else s)
  {
    hide RevertSome, RevertPost;
    var n: nat := |posts| - 1;
    LastFiles(posts, chosen, mine, s);
    IdsOfBoth(posts, chosen, if mine then {n} else {});
    assert IdsOf(posts, chosen) == IdsOf(posts[..n], chosen);
    LastTables(posts, mine, s);
    RemoveTwice(s, if mine then IdsOf(posts, {n}) else {}, IdsOf(posts, chosen));
    assert IdsOf(posts, {}) == {};
  }

  lemma LastFiles(posts: seq<Post>, chosen: set<nat>, mine: bool, s: System)
    requires posts != [] && forall i :: i in chosen ==> i < |posts| - 1
    ensures var n: nat := |posts| - 1;
            RevertSome(Snaps(posts), chosen + if mine then {n} else {}, s.files)
            == RevertSome(Snaps(posts[..n]), chosen, if mine then RevertPost(s, posts[n]).files else s.files)
  {
    var n: nat := |posts| - 1;
    RevertNothing(s.files);
    assert Snaps(posts)[..n] == Snaps(posts[..n]);
    OnlyBelow(Snaps(posts[..n]), chosen + if mine then {n} else {}, chosen, if mine then RevertPost(s, posts[n]).files else s.files);
  }

  lemma LastTables(posts: seq<Post>, mine: bool, s: System)
    requires posts != []
    ensures var n: nat := |posts| - 1; var u := if mine then RevertPost(s, posts[n]) else s;
            u == RemoveInbounds(s, if mine then IdsOf(posts, {n}) else {}).(files := u.files)
  {
    var n: nat := |posts| - 1;
    RevertedTables(posts, n, true, s, RevertPost(s, posts[n]));
    RemoveNone(s);
  }

  /** `now` is `original` but for the files in `torn`, the inbounds in `stray` and,
      exactly, the files in `lost`. */
  ghost predicate Restored(now: System, original: System, torn: set<Path>, stray: set<nat>, lost: set<Path>) {
    && SameExcept(now, original, torn + lost, stray)
    && forall p :: p in lost - torn ==> !SameFile(now.files, original.files, p)
  }

  lemma AbortRestores(log: seq<Post>, mid: System, original: System, misread: set<Path>, torn: set<Path>, stray: set<nat>)
    requires Undoable(log, mid, original, misread, torn, stray)
    ensures Restored(UndoAll(log, mid), original, torn, stray, Lost(log, original.files, misread))
    ensures forall p :: p in Lost(log, original.files, misread) ==> Covers(log, p) && !CanKeep(original.files, p, misread)
  {
    UndoableIsSame(log, mid, original, misread, torn, stray);
  }

  lemma AbortConfines(made: seq<OpRow>, rows: seq<OpRow>, d: nat, mid: System, now: System, original: System,
                      misread: set<Path>, torn: set<Path>, stray: set<nat>)
    requires Posts(rows) == Posts(made) && Pass(Posts(rows), Chosen(made, d), Chosen(rows, d), mid, now)
    requires Undoable(Log(made, d), mid, original, misread, torn, stray)
    ensures Confined(Posts(rows), Chosen(rows, d), now, original, torn + Lost(Log(made, d), original.files, misread), stray)
  {
    var posts, left := Posts(rows), Chosen(rows, d);
    var target, lost := UndoAll(Log(made, d), mid), Lost(Log(made, d), original.files, misread);
    LogIsPass(made, d, mid);
    PassConfines(posts, Chosen(made, d), left, mid, now);
    UndoableIsSame(Log(made, d), mid, original, misread, torn, stray);
    ConfinedFurther(posts, left, now, target, original, torn + lost, stray);
  }

  lemma ConfinedFurther(posts: seq<Post>, left: set<nat>, now: System, target: System, original: System, torn: set<Path>, stray: set<nat>)
    requires Confined(posts, left, now, target, {}, {}) && SameExcept(target, original, torn, stray)
    ensures Confined(posts, left, now, original, torn, stray)
  {
    var ids := IdsOf(posts, left);
    forall p | p !in torn && !Touched(Snaps(posts), left, p) ensures SameFile(now.files, original.files, p) {
      assert SameFile(now.files, target.files, p) && SameFile(target.files, original.files, p);
    }
    assert {} + ids == ids && ids + stray == stray + ids && stray + stray + ids == stray + ids;
    RemoveTwice(now, ids, stray);
    RemoveTwice(target, ids, stray);
    RemoveTwice(target, stray, stray + ids);
    assert stray + (stray + ids) == stray + ids;
  }

  /** A deployment, wherever its execution stopped, rolled back again and again
      until nothing is selected: whatever fails on the way, this restores the
      original system, apart from what the failed operation left and the files
      whose content no row could keep, if and only if no two of its operations
      recorded different contents for any other path. */
  lemma RetriesRestoreOriginal(rows: seq<OpRow>, d: nat, sys: System, original: System, misread: set<Path>, torn: set<Path>, stray: set<nat>)
    requires Undoable(Log(rows, d), sys, original, misread, torn, stray)
    ensures var gone := torn + Lost(Log(rows, d), original.files, misread);
            RetriesReach(Posts(rows), Chosen(rows, d), sys, original, gone, stray) <==> AgreeOnShared(Posts(rows), Chosen(rows, d), gone)
  {
    var gone := torn + Lost(Log(rows, d), original.files, misread);
    LogIsPass(rows, d, sys);
    UndoableIsSame(Log(rows, d), sys, original, misread, torn, stray);
    RetriesRestoreIff(Posts(rows), Chosen(rows, d), sys, original, gone, stray);
  }

  lemma NothingSelected(rows: seq<OpRow>, d: nat)
    requires forall i :: 0 <= i < |rows| && rows[i].deployment == d ==> !rows[i].Revertible()
    ensures Selected(rows, d) == []
  {
  }

  /** Undoing `posts[..j]` from `now` ends where undoing all from `sys` ends. */
  ghost predicate Undoing(posts: seq<Post>, sys: System, j: nat, now: System) {
    j <= |posts| && UndoAll(posts[..j], now) == UndoAll(posts, sys)
  }

  lemma UndoingStarts(posts: seq<Post>, sys: System)
    ensures Undoing(posts, sys, |posts|, sys)
  {
    assert posts[..|posts|] == posts;
  }

  lemma UndoingEnds(posts: seq<Post>, sys: System, now: System)
    requires Undoing(posts, sys, 0, now)
    ensures now == UndoAll(posts, sys)
  {
  }

  lemma UndoingStep(posts: seq<Post>, sys: System, j: nat, now: System)
    requires Undoing(posts, sys, j + 1, now)
    ensures Undoing(posts, sys, j, RevertPost(now, posts[j]))
  {
    assert posts[..j + 1] == posts[..j] + [posts[j]];
    UndoSnoc(posts[..j], posts[j], now);
  }

  /** A rollback over the selection `ks` has dealt with `ks[j..]`, and if `ok`
      cleared all of it. */
  ghost predicate RolledBackFrom(rows: seq<OpRow>, was: seq<OpRow>, ks: seq<nat>, j: nat, ok: bool) {
    && |rows| == |was| && j <= |ks|
    && (forall m :: 0 <= m < |ks| ==> ks[m] < |was|)
    && (forall i :: 0 <= i < |rows| ==> rows[i].deployment == was[i].deployment && rows[i].post == was[i].post)
    && (forall m :: 0 <= m < j ==> rows[ks[m]] == was[ks[m]])
    && (forall i: nat :: i < |rows| && i !in ks ==> rows[i] == was[i])
    && (ok ==> forall m :: j <= m < |ks| ==> !rows[ks[m]].Revertible())
  }

  lemma RolledBackStep(before: seq<OpRow>, rows: seq<OpRow>, was: seq<OpRow>, ks: seq<nat>, j: nat, ok: bool, cleared: bool)
    requires RolledBackFrom(before, was, ks, j + 1, ok) && ks[j] < |rows|
    requires forall a, b :: 0 <= a < b < |ks| ==> ks[a] < ks[b]
    requires rows == before[ks[j] := rows[ks[j]]]
    requires rows[ks[j]].deployment == before[ks[j]].deployment && rows[ks[j]].post == before[ks[j]].post
    requires cleared ==> !rows[ks[j]].Revertible()
    ensures RolledBackFrom(rows, was, ks, j, ok && cleared)
  {
  }

  lemma LeftoverRows(rows: seq<OpRow>, was: seq<OpRow>, ks: seq<nat>, d: nat)
    requires ks == Selected(was, d) && RolledBackFrom(rows, was, ks, 0, true)
    ensures Selected(rows, d) == []
  {
    forall i: nat | i < |rows| && rows[i].deployment == d
      ensures !rows[i].Revertible()
    {
      if i in ks {
        var m :| 0 <= m < |ks| && ks[m] == i;
      }
    }
    NothingSelected(rows, d);
  }
}
