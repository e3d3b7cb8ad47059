/**
 External mode: a separately managed runner reads configuration files and
 `.enabled` markers from a shared directory.  An apply rewrites those files,
 then the `external-managed` marker, restarts the runner, verifies it, and at
 last commits the revision to the database.  Readiness for a panel update is
 "the marker equals the stored revision"; the results say what that implies.
 */
module ExternalRuntime {
  import opened Wrappers
  import opened ProxyEngine
  import Local = RuntimeTransition

  datatype Path = ConfigFile(engine: string) | EnabledMarker(engine: string) | Managed

  /** The digest is taken as injective: a revision is what is hashed. */
  datatype Entry = Entry(name: string, wanted: bool, candidate: Option<Config>)
  datatype Revision = Revision(mode: Mode, entries: seq<Entry>)

  /** `Torn` is what a failed in-place write may leave behind. */
  datatype Data = ConfigText(config: Config) | EnabledText | RevisionText(revision: Revision) | Torn

  type Files = map<Path, Data>

  /** The shared directory and the committed settings row. */
  datatype Store = Store(files: Files, stored: Option<Revision>)

  /** `db` is what the generator gets from the database, dropping errors. */
  datatype Target = Target(name: string, kind: Kind, wanted: bool, dual: bool, db: Database)

  function EntryFor(t: Target): Entry {
    Entry(t.name, t.wanted, if t.wanted then Some(ConfigFor(t.kind, t.dual, t.db)) else None)
  }

  function RevisionFor(mode: Mode, ts: seq<Target>): (r: Revision)
    ensures r.mode == mode && |r.entries| == |ts|
    ensures forall i :: 0 <= i < |ts| ==>
              r.entries[i] == Entry(ts[i].name, ts[i].wanted, if ts[i].wanted then Some(ConfigFor(ts[i].kind, ts[i].dual, ts[i].db)) else None)
  {
    Revision(mode, seq(|ts|, i requires 0 <= i < |ts| => EntryFor(ts[i])))
  }

  ghost predicate WellFormed(es: seq<Entry>) {
    && (forall i, j :: 0 <= i < j < |es| ==> es[i].name != es[j].name)
    && (forall i :: 0 <= i < |es| ==> (es[i].wanted <==> es[i].candidate.Some?))
  }

  /** Forward writes for one engine: a disabled engine keeps its old file. */
  function WriteEntry(files: Files, e: Entry): Files {
    if e.wanted && e.candidate.Some?
    then files[ConfigFile(e.name) := ConfigText(e.candidate.value)][EnabledMarker(e.name) := EnabledText]
    else files - {EnabledMarker(e.name)}
  }

  function WriteEntries(files: Files, es: seq<Entry>): Files {
    if es == [] then files else WriteEntry(WriteEntries(files, es[..|es| - 1]), es[|es| - 1])
  }

  function Installed(files: Files, r: Revision): Files {
    WriteEntries(files, r.entries)[Managed := RevisionText(r)]
  }

  /** The files are those hashed into the entry. */
  predicate EntryMatches(files: Files, e: Entry) {
    if e.wanted
    then EnabledMarker(e.name) in files && e.candidate.Some?
         && ConfigFile(e.name) in files && files[ConfigFile(e.name)] == ConfigText(e.candidate.value)
    else EnabledMarker(e.name) !in files
  }

  ghost predicate Matches(files: Files, r: Revision) {
    forall i :: 0 <= i < |r.entries| ==> EntryMatches(files, r.entries[i])
  }

  /** The part of the readiness check that reads the marker.  It is compared with
      the stored revision, or with one read from a cache a little earlier. */
  predicate Passes(s: Store, seen: Revision) {
    Managed in s.files && s.files[Managed] == RevisionText(seen)
  }

  predicate Ready(s: Store) { s.stored.Some? && Passes(s, s.stored.value) }

  /** Whatever revision the marker names, the files are exactly those of it. */
  ghost predicate Sound(s: Store) {
    Managed in s.files && s.files[Managed].RevisionText? ==> Matches(s.files, s.files[Managed].revision)
  }

  // ---------- What one apply may do ----------

  datatype Outcome = Failed | Applied(revision: Revision) | AppliedUnpersisted(revision: Revision)

  /** One ApplyRuntime call in external mode whose restore writes, if any, succeed. */
  ghost predicate ApplyRel(s: Store, o: Outcome, s': Store) {
    match o
    case Failed => s' == s
    case Applied(r) => WellFormed(r.entries) && s' == Store(Installed(s.files, r), Some(r))
    case AppliedUnpersisted(r) =>
      && WellFormed(r.entries) && s'.stored == s.stored
      && s'.files in {Installed(s.files, r), Installed(s.files, r) - {Managed}}
  }

  lemma {:induction false} WriteEntriesFrame(files: Files, es: seq<Entry>, p: Path)
    requires forall i :: 0 <= i < |es| ==> p != ConfigFile(es[i].name) && p != EnabledMarker(es[i].name)
    ensures p in WriteEntries(files, es) <==> p in files
    ensures p in files ==> WriteEntries(files, es)[p] == files[p]
  {
    if es != [] {
      WriteEntriesFrame(files, es[..|es| - 1], p);
    }
  }

  lemma {:induction false} WriteEntriesMatches(files: Files, es: seq<Entry>, i: nat)
    requires WellFormed(es) && i < |es|
    ensures EntryMatches(WriteEntries(files, es), es[i])
  {
    var init, last := es[..|es| - 1], es[|es| - 1];
    if i < |init| {
      assert init[i] == es[i];
      WriteEntriesMatches(files, init, i);
      assert es[i].name != last.name;
    }
  }

  lemma InstalledMatches(files: Files, r: Revision)
    requires WellFormed(r.entries)
    ensures Matches(Installed(files, r), r)
    ensures Matches(Installed(files, r) - {Managed}, r)
  {
    forall i | 0 <= i < |r.entries|
      ensures EntryMatches(Installed(files, r), r.entries[i])
      ensures EntryMatches(Installed(files, r) - {Managed}, r.entries[i])
    {
      WriteEntriesMatches(files, r.entries, i);
    }
  }

  /** Every apply, whatever fails in it but the writes of a restore, keeps the
      store sound. */
  lemma ApplyKeepsSound(s: Store, o: Outcome, s': Store)
    requires Sound(s) && ApplyRel(s, o, s')
    ensures Sound(s')
  {
    if !o.Failed? {
      InstalledMatches(s.files, o.revision);
    }
  }

  /** Any run of applies: whenever the marker equals the revision the check
      compares it with, stored now or seen before, the files on disk are exactly
      those hashed into that revision. */
  lemma {:induction false} RunsStaySound(stores: seq<Store>, outcomes: seq<Outcome>, k: nat)
    requires |stores| == |outcomes| + 1 && k < |stores| && Sound(stores[0])
    requires forall i :: 0 <= i < |outcomes| ==> ApplyRel(stores[i], outcomes[i], stores[i + 1])
    ensures Sound(stores[k]) && forall seen :: Passes(stores[k], seen) ==> Matches(stores[k].files, seen)
    decreases k
  {
    if k > 0 {
      RunsStaySound(stores, outcomes, k - 1);
      ApplyKeepsSound(stores[k - 1], outcomes[k - 1], stores[k]);
    }
  }

  // ---------- Inside an apply ----------

  /** The readiness check does not take the gate.  While the first `k` engines of
      the new revision are written and the marker is still the old one, a check
      that runs then is right if and only if none of those engines changed. */
  lemma MidApplyWindow(s: Store, new_: Revision, k: nat)
    requires Ready(s) && Sound(s) && k <= |new_.entries|
    requires WellFormed(new_.entries) && WellFormed(s.stored.value.entries)
    requires |s.stored.value.entries| == |new_.entries|
    requires forall i :: 0 <= i < |new_.entries| ==> new_.entries[i].name == s.stored.value.entries[i].name
    ensures var mid := s.(files := WriteEntries(s.files, new_.entries[..k]));
            && Ready(mid)
            && (Sound(mid) <==> new_.entries[..k] == s.stored.value.entries[..k])
  {
    var old_, es := s.stored.value.entries, new_.entries[..k];
    var mid := s.(files := WriteEntries(s.files, es));
    WriteEntriesFrame(s.files, es, Managed);
    forall i | 0 <= i < k
      ensures EntryMatches(mid.files, old_[i]) <==> es[i] == old_[i]
    {
      WriteEntriesMatches(s.files, es, i);
    }
    forall i | k <= i < |old_|
      ensures EntryMatches(mid.files, old_[i])
    {
      WriteEntriesFrame(s.files, es, ConfigFile(old_[i].name));
      WriteEntriesFrame(s.files, es, EnabledMarker(old_[i].name));
    }
  }

  /** The same between the two writes of an engine: its configuration is the new
      one, its marker still the old one.  The check is right if and only if the
      engines before are unchanged and this one keeps its configuration, or was
      not enabled. */
  lemma MidEngineWindow(s: Store, new_: Revision, k: nat)
    requires Ready(s) && Sound(s) && k < |new_.entries| && new_.entries[k].wanted
    requires WellFormed(new_.entries) && WellFormed(s.stored.value.entries)
    requires |s.stored.value.entries| == |new_.entries|
    requires forall i :: 0 <= i < |new_.entries| ==> new_.entries[i].name == s.stored.value.entries[i].name
    ensures var e, was := new_.entries[k], s.stored.value.entries[k];
            var mid := s.(files := WriteEntries(s.files, new_.entries[..k])[ConfigFile(e.name) := ConfigText(e.candidate.value)]);
            && Ready(mid)
            && (Sound(mid) <==> new_.entries[..k] == s.stored.value.entries[..k] && (was.wanted ==> was.candidate == e.candidate))
  {
    var e, old_ := new_.entries[k], s.stored.value.entries;
    var before := s.(files := WriteEntries(s.files, new_.entries[..k]));
    var mid := before.(files := before.files[ConfigFile(e.name) := ConfigText(e.candidate.value)]);
    MidApplyWindow(s, new_, k);
    WriteEntriesFrame(s.files, new_.entries[..k], ConfigFile(e.name));
    WriteEntriesFrame(s.files, new_.entries[..k], EnabledMarker(e.name));
    assert EntryMatches(before.files, old_[k]);
    forall i | 0 <= i < |old_| && i != k ensures EntryMatches(mid.files, old_[i]) <==> EntryMatches(before.files, old_[i]) {
      assert old_[i].name != e.name;
    }
  }

  // ---------- Restoring ----------

  predicate SameAt(f: Files, g: Files, p: Path) {
    (p in f <==> p in g) && (p in f ==> f[p] == g[p])
  }

  lemma SameEverywhere(f: Files, g: Files)
    requires forall p :: SameAt(f, g, p)
    ensures f == g
  {
    forall p ensures p in f <==> p in g {
      assert SameAt(f, g, p);
    }
    forall p | p in f ensures f[p] == g[p] {
      assert SameAt(f, g, p);
    }
  }

  /** How one path fares in a restore: restored, left alone, or torn. */
  datatype Fate = Back | Left | TornApart

  function RestoreOne(files: Files, was: Files, p: Path, fate: Fate): Files {
    match fate
    case Back => if p in was then files[p := was[p]] else files - {p}
    case Left => files
    case TornApart => if p in was then files[p := Torn] else files
  }

  /** The restore loop, path by path, past failures. */
  function RestoreRun(files: Files, was: Files, paths: seq<Path>, fates: seq<Fate>): Files
    requires |paths| == |fates|
  {
    if paths == [] then files
    else
      var n := |paths| - 1;
      RestoreOne(RestoreRun(files, was, paths[..n], fates[..n]), was, paths[n], fates[n])
  }

  /** The paths whose restore failed. */
  function NotBack(paths: seq<Path>, fates: seq<Fate>): set<Path>
    requires |paths| == |fates|
  {
    set i | 0 <= i < |paths| && !fates[i].Back? :: paths[i]
  }

  /** A path that did not fail is as it was before the apply; one that failed is
      that, or as it was before the restore, or torn. */
  ghost predicate RestoredBut(after: Files, files: Files, was: Files, failed: set<Path>) {
    forall p :: if p in failed then SameAt(after, was, p) || SameAt(after, files, p) || (p in after && after[p] == Torn)
                else SameAt(after, was, p)
  }

  lemma RestoreOneIs(files: Files, was: Files, q: Path, fate: Fate, p: Path)
    ensures var after := RestoreOne(files, was, q, fate);
            && (q != p ==> SameAt(after, files, p)) && (q == p && fate.Back? ==> SameAt(after, was, p))
            && (SameAt(after, was, p) || SameAt(after, files, p) || (p in after && after[p] == Torn))
  {
  }

  lemma {:induction false} RestoreRunIs(files: Files, was: Files, paths: seq<Path>, fates: seq<Fate>, p: Path)
    requires |paths| == |fates|
    ensures var after := RestoreRun(files, was, paths, fates);
            && (p !in paths ==> SameAt(after, files, p))
            && (p in paths && p !in NotBack(paths, fates) ==> SameAt(after, was, p))
            && (SameAt(after, was, p) || SameAt(after, files, p) || (p in after && after[p] == Torn))
    decreases |paths|
  {
    hide RestoreOne;
    if paths != [] {
      var n := |paths| - 1;
      RestoreRunIs(files, was, paths[..n], fates[..n], p);
      RestoreOneIs(RestoreRun(files, was, paths[..n], fates[..n]), was, paths[n], fates[n], p);
      assert paths == paths[..n] + [paths[n]];
      if p in paths && p !in NotBack(paths, fates) {
        forall i | 0 <= i < n && !fates[..n][i].Back? ensures paths[..n][i] != p {
          assert !fates[i].Back?;
        }
        if paths[n] == p {
          assert fates[n].Back?;
        }
      }
    }
  }

  lemma RestoreOutcome(files: Files, was: Files, paths: seq<Path>, fates: seq<Fate>)
    requires |paths| == |fates| && forall p :: p !in paths ==> SameAt(files, was, p)
    ensures RestoredBut(RestoreRun(files, was, paths, fates), files, was, NotBack(paths, fates))
    ensures NotBack(paths, fates) == {} ==> RestoreRun(files, was, paths, fates) == was
  {
    var after := RestoreRun(files, was, paths, fates);
    forall p
      ensures if p in NotBack(paths, fates) then SameAt(after, was, p) || SameAt(after, files, p) || (p in after && after[p] == Torn)
              else SameAt(after, was, p)
    {
      RestoreRunIs(files, was, paths, fates, p);
      if p !in paths {
        assert SameAt(files, was, p);
      }
    }
    if NotBack(paths, fates) == {} {
      SameEverywhere(after, was);
    }
  }

  function Tracked(ts: seq<Target>): seq<Path> {
    if ts == [] then [Managed]
    else Tracked(ts[..|ts| - 1]) + [ConfigFile(ts[|ts| - 1].name), EnabledMarker(ts[|ts| - 1].name)]
  }

  predicate Distinct(paths: seq<Path>) { forall i, j :: 0 <= i < j < |paths| ==> paths[i] != paths[j] }

  /** How the restore fared with `p`; a path it does not track is back by itself. */
  function FateAt(paths: seq<Path>, fates: seq<Fate>, p: Path): Fate
    requires |paths| == |fates|
  {
    if paths == [] then Back
    else
      var n := |paths| - 1;
      if paths[n] == p then fates[n] else FateAt(paths[..n], fates[..n], p)
  }

  /** A path ends up as its own fate says. */
  lemma {:induction false} RestoreAt(files: Files, was: Files, paths: seq<Path>, fates: seq<Fate>, p: Path)
    requires |paths| == |fates| && Distinct(paths)
    ensures SameAt(RestoreRun(files, was, paths, fates), if p in paths then RestoreOne(files, was, p, FateAt(paths, fates, p)) else files, p)
    decreases |paths|
  {
    hide RestoreOne;
    if paths != [] {
      var n := |paths| - 1;
      var before := RestoreRun(files, was, paths[..n], fates[..n]);
      RestoreAt(files, was, paths[..n], fates[..n], p);
      assert paths == paths[..n] + [paths[n]];
      if paths[n] == p {
        assert p !in paths[..n];
        RestoreSame(before, files, was, p, fates[n]);
      } else {
        RestoreOther(before, was, paths[n], fates[n], p);
      }
    }
  }

  lemma RestoreSame(f: Files, g: Files, was: Files, p: Path, fate: Fate)
    requires SameAt(f, g, p)
    ensures SameAt(RestoreOne(f, was, p, fate), RestoreOne(g, was, p, fate), p)
  {
  }

  lemma RestoreOther(f: Files, was: Files, q: Path, fate: Fate, p: Path)
    requires q != p
    ensures SameAt(RestoreOne(f, was, q, fate), f, p)
  {
  }

  /** What an apply has written when `k` engines are done and, if `marked`, the
      marker too. */
  function Progress(was: Files, new_: Revision, k: nat, marked: bool): Files
    requires k <= |new_.entries|
  {
    var files := WriteEntries(was, new_.entries[..k]);
    if marked then files[Managed := RevisionText(new_)] else files
  }

  /** The restore leaves this entry of the old revision matching: `c` and `m` are
      the fates of its configuration and its marker, `e'` is what the apply has
      written for the engine, if it got there. */
  predicate Survives(e: Entry, e': Option<Entry>, c: Fate, m: Fate) {
    if e.wanted then
      && (c.Back? || (c.Left? && (e'.None? || !e'.value.wanted || e'.value.candidate == e.candidate)))
      && (!m.Left? || e'.None? || e'.value.wanted)
    else m.Back? || e'.None? || !e'.value.wanted
  }

  /** What a restore with failures leaves, by the fates of the paths and the two
      revisions alone: the store passes the check if and only if the marker came
      back, or was left while it named the same revision; and is then sound if and
      only if every entry of the stored revision survives. */
  lemma FailedRestoreIff(s: Store, new_: Revision, ts: seq<Target>, k: nat, marked: bool, fates: seq<Fate>)
    requires Ready(s) && Sound(s) && WellFormed(s.stored.value.entries) && WellFormed(new_.entries)
    requires |ts| == |new_.entries| == |s.stored.value.entries| && k <= |ts| && (marked ==> k == |ts|) && |fates| == |Tracked(ts)|
    requires forall j :: 0 <= j < |ts| ==> ts[j].name == new_.entries[j].name == s.stored.value.entries[j].name
    ensures var paths, old_ := Tracked(ts), s.stored.value;
            var after := Store(RestoreRun(Progress(s.files, new_, k, marked), s.files, paths, fates), s.stored);
            var marker := FateAt(paths, fates, Managed);
            && (Ready(after) <==> marker.Back? || (marker.Left? && (!marked || new_ == old_)))
            && (Ready(after) ==> (Sound(after) <==> forall i :: 0 <= i < |ts| ==> EntrySurvives(old_, new_, ts, k, fates, i)))
  {
    var paths, old_, files := Tracked(ts), s.stored.value, Progress(s.files, new_, k, marked);
    var after := Store(RestoreRun(files, s.files, paths, fates), s.stored);
    TrackedDistinct(ts);
    ManagedIsTracked(ts);
    RestoreAt(files, s.files, paths, fates, Managed);
    WriteEntriesFrame(s.files, new_.entries[..k], Managed);
    forall i | 0 <= i < |ts| ensures EntryMatches(after.files, old_.entries[i]) <==> EntrySurvives(old_, new_, ts, k, fates, i) {
      EntryAfterRestore(s, new_, ts, k, marked, fates, i);
    }
  }

  predicate EntrySurvives(old_: Revision, new_: Revision, ts: seq<Target>, k: nat, fates: seq<Fate>, i: nat)
    requires i < |ts| == |old_.entries| == |new_.entries| && |fates| == |Tracked(ts)|
  {
    Survives(old_.entries[i], if i < k then Some(new_.entries[i]) else None,
             FateAt(Tracked(ts), fates, ConfigFile(ts[i].name)), FateAt(Tracked(ts), fates, EnabledMarker(ts[i].name)))
  }

  lemma EntryAfterRestore(s: Store, new_: Revision, ts: seq<Target>, k: nat, marked: bool, fates: seq<Fate>, i: nat)
    requires Ready(s) && Sound(s) && WellFormed(new_.entries) && WellFormed(s.stored.value.entries)
    requires i < |ts| == |new_.entries| == |s.stored.value.entries| && k <= |ts| && |fates| == |Tracked(ts)| && Distinct(Tracked(ts))
    requires forall j :: 0 <= j < |ts| ==> ts[j].name == new_.entries[j].name == s.stored.value.entries[j].name
    ensures var after := RestoreRun(Progress(s.files, new_, k, marked), s.files, Tracked(ts), fates);
            EntryMatches(after, s.stored.value.entries[i]) <==> EntrySurvives(s.stored.value, new_, ts, k, fates, i)
  {
    var name, files := ts[i].name, Progress(s.files, new_, k, marked);
    TargetsAreTracked(ts, i);
    RestoreAt(files, s.files, Tracked(ts), fates, ConfigFile(name));
    RestoreAt(files, s.files, Tracked(ts), fates, EnabledMarker(name));
    assert EntryMatches(s.files, s.stored.value.entries[i]);
    ProgressAt(s.files, new_, k, marked, i);
  }

  /** What an apply has written for engine `i`. */
  lemma ProgressAt(was: Files, new_: Revision, k: nat, marked: bool, i: nat)
    requires WellFormed(new_.entries) && k <= |new_.entries| && i < |new_.entries|
    ensures var e, files := new_.entries[i], Progress(was, new_, k, marked);
            && (if i < k && e.wanted then ConfigFile(e.name) in files && files[ConfigFile(e.name)] == ConfigText(e.candidate.value)
                else SameAt(files, was, ConfigFile(e.name)))
            && (if i < k then (EnabledMarker(e.name) in files <==> e.wanted) else SameAt(files, was, EnabledMarker(e.name)))
  {
    var es := new_.entries[..k];
    if i < k {
      EntryWritten(was, es, i);
    } else {
      assert forall j :: 0 <= j < k ==> es[j].name != new_.entries[i].name;
      WriteEntriesFrame(was, es, ConfigFile(new_.entries[i].name));
      WriteEntriesFrame(was, es, EnabledMarker(new_.entries[i].name));
    }
  }

  lemma {:induction false} EntryWritten(was: Files, es: seq<Entry>, i: nat)
    requires WellFormed(es) && i < |es|
    ensures var e, files := es[i], WriteEntries(was, es);
            && (if e.wanted then ConfigFile(e.name) in files && files[ConfigFile(e.name)] == ConfigText(e.candidate.value)
                else SameAt(files, was, ConfigFile(e.name)))
            && (EnabledMarker(e.name) in files <==> e.wanted)
    decreases |es|
  {
    var n := |es| - 1;
    var init := es[..n];
    if i < n {
      EntryWritten(was, init, i);
      assert init[i] == es[i] && es[i].name != es[n].name;
    } else {
      assert forall j :: 0 <= j < n ==> init[j].name != es[n].name;
      WriteEntriesFrame(was, init, ConfigFile(es[n].name));
    }
  }

  lemma DistinctConcat(a: seq<Path>, b: seq<Path>)
    requires Distinct(a) && Distinct(b) && forall p :: p in a ==> p !in b
    ensures Distinct(a + b)
  {
    forall i, j | 0 <= i < j < |a + b| ensures (a + b)[i] != (a + b)[j] {
      if i < |a| <= j {
        assert a[i] in a && b[j - |a|] in b;
      }
    }
  }

  lemma {:induction false} TrackedDistinct(ts: seq<Target>)
    requires forall i, j :: 0 <= i < j < |ts| ==> ts[i].name != ts[j].name
    ensures Distinct(Tracked(ts))
    ensures forall p :: p in Tracked(ts) ==> p == Managed || exists j :: 0 <= j < |ts| && (p == ConfigFile(ts[j].name) || p == EnabledMarker(ts[j].name))
  {
    if ts != [] {
      var n := |ts| - 1;
      TrackedDistinct(ts[..n]);
      var more := [ConfigFile(ts[n].name), EnabledMarker(ts[n].name)];
      forall p | p in Tracked(ts[..n]) ensures p !in more && (p == Managed || exists j :: 0 <= j < |ts| && (p == ConfigFile(ts[j].name) || p == EnabledMarker(ts[j].name))) {
        if p != Managed {
          var j :| 0 <= j < n && (p == ConfigFile(ts[..n][j].name) || p == EnabledMarker(ts[..n][j].name));
          assert ts[..n][j] == ts[j];
        }
      }
      DistinctConcat(Tracked(ts[..n]), more);
    }
  }

  /** Every path comes back but one. */
  function AllBackBut(paths: seq<Path>, p: Path): (fates: seq<Fate>)
    ensures |fates| == |paths| && forall i :: 0 <= i < |paths| ==> fates[i] == if paths[i] == p then Left else Back
  {
    seq(|paths|, i requires 0 <= i < |paths| => if paths[i] == p then Left else Back)
  }

  lemma {:induction false} FateOfAllBackBut(paths: seq<Path>, p: Path, q: Path)
    ensures FateAt(paths, AllBackBut(paths, p), q) == if p == q && p in paths then Left else Back
    decreases |paths|
  {
    if paths != [] {
      var n := |paths| - 1;
      FateOfAllBackBut(paths[..n], p, q);
      assert AllBackBut(paths, p)[..n] == AllBackBut(paths[..n], p) && paths == paths[..n] + [paths[n]];
    }
  }

  /** So successful restore writes are needed.  Whatever ready store an apply
      starts from, and whatever it does: if it changes the configuration of an
      enabled engine, fails, and the restore loop gets everything back but that
      configuration, the store is ready and holds a foreign file. */
  lemma FailedRestoreIsUnsound(s: Store, new_: Revision, ts: seq<Target>, i: nat) returns (after: Store)
    requires Ready(s) && Sound(s) && WellFormed(new_.entries) && WellFormed(s.stored.value.entries)
    requires |ts| == |new_.entries| == |s.stored.value.entries| && i < |ts|
    requires forall j :: 0 <= j < |ts| ==> ts[j].name == new_.entries[j].name == s.stored.value.entries[j].name
    requires s.stored.value.entries[i].wanted && new_.entries[i].wanted && new_.entries[i].candidate != s.stored.value.entries[i].candidate
    ensures var paths := Tracked(ts);
            after == Store(RestoreRun(Installed(s.files, new_), s.files, paths, AllBackBut(paths, ConfigFile(ts[i].name))), s.stored)
    ensures Ready(after) && !Sound(after)
  {
    var paths, p := Tracked(ts), ConfigFile(ts[i].name);
    var fates := AllBackBut(paths, p);
    assert new_.entries[..|ts|] == new_.entries;
    after := Store(RestoreRun(Installed(s.files, new_), s.files, paths, fates), s.stored);
    FateOfAllBackBut(paths, p, Managed);
    FateOfAllBackBut(paths, p, p);
    TargetsAreTracked(ts, i);
    FailedRestoreIff(s, new_, ts, |ts|, true, fates);
    assert !EntrySurvives(s.stored.value, new_, ts, |ts|, fates, i);
  }

  // ---------- The apply itself ----------

  lemma {:induction false} TargetsAreTracked(ts: seq<Target>, i: nat)
    requires i < |ts|
    ensures ConfigFile(ts[i].name) in Tracked(ts) && EnabledMarker(ts[i].name) in Tracked(ts)
  {
    if i < |ts| - 1 {
      TargetsAreTracked(ts[..|ts| - 1], i);
    }
  }

  lemma {:induction false} ManagedIsTracked(ts: seq<Target>)
    ensures Managed in Tracked(ts)
  {
    if ts != [] {
      ManagedIsTracked(ts[..|ts| - 1]);
    }
  }

  lemma NoneFailed(paths: seq<Path>, fates: seq<Fate>)
    requires |paths| == |fates|
    ensures NotBack(paths, fates) == {} <==> forall i :: 0 <= i < |fates| ==> fates[i].Back?
  {
    if i :| 0 <= i < |fates| && !fates[i].Back? {
      assert paths[i] in NotBack(paths, fates);
    }
  }

  /** What the runner finds for one engine: it is enabled if and only if the mode
      wants it, and then its configuration serves, of the enabled inbounds, exactly
      those that the mode assigns to it and that its generator got. */
  predicate FilesServe(files: Files, name: string, kind: Kind, mode: Mode, enabled: seq<Inbound>, got: Database) {
    var c := ConfigFile(name);
    && (EnabledMarker(name) in files <==> exists in_ <- enabled :: Local.Assigned(mode, in_, kind))
    && (EnabledMarker(name) in files ==>
          && c in files && files[c].ConfigText?
          && forall in_ <- enabled :: in_ in files[c].config.inbounds <==> Local.Assigned(mode, in_, kind) && in_ in got.enabled)
  }

  lemma MatchServes(files: Files, e: Entry, kind: Kind, mode: Mode, enabled: seq<Inbound>, got: Database)
    requires EntryMatches(files, e) && e.wanted == Local.Wants(mode, enabled, kind)
    requires e.candidate == if e.wanted then Some(ConfigFor(kind, mode == Auto, got)) else None
    ensures FilesServe(files, e.name, kind, mode, enabled, got)
  {
    forall in_ | e.wanted && in_ in enabled
      ensures in_ in ConfigFor(kind, mode == Auto, got).inbounds <==> Local.Assigned(mode, in_, kind) && in_ in got.enabled
    {
      var config := Some(ConfigFor(kind, mode == Auto, got));
      Local.CommittedServesExactly(mode, enabled, got, kind, EngineState(config, config, mode == Auto), in_);
    }
  }

  lemma Served(files: Files, r: Revision, ts: seq<Target>, mode: Mode, enabled: seq<Inbound>)
    requires Matches(files, r) && r == RevisionFor(mode, ts)
    requires forall i :: 0 <= i < |ts| ==> ts[i].wanted == Local.Wants(mode, enabled, ts[i].kind) && ts[i].dual == (mode == Auto)
    ensures forall i :: 0 <= i < |ts| ==> FilesServe(files, ts[i].name, ts[i].kind, mode, enabled, ts[i].db)
  {
    forall i | 0 <= i < |ts| ensures FilesServe(files, ts[i].name, ts[i].kind, mode, enabled, ts[i].db) {
      MatchServes(files, r.entries[i], ts[i].kind, mode, enabled, ts[i].db);
    }
  }

  /** In every call, `calm` says that no file operation, check or restart fails
      during it, and that the runner then serves what is on disk. */
  class Runner {
    var files: Files
    var stored: Option<Revision>

    constructor ()
      ensures Current() == Store(map[], None)
    {
      files, stored := map[], None;
    }

    function Current(): Store
      reads this
    {
      Store(files, stored)
    }

    /** Write to a temporary file and rename. */
    method WriteAtomic(p: Path, d: Data, calm: bool) returns (ok: bool)
      modifies `files
      ensures calm ==> ok
      ensures files == if ok then old(files)[p := d] else old(files)
    {
      ok := Try(calm);
      if ok {
        files := files[p := d];
      }
    }

    /** Truncate and write. */
    method WriteInPlace(p: Path, d: Data, calm: bool) returns (ok: bool)
      modifies `files
      ensures calm ==> ok
      ensures ok ==> files == old(files)[p := d]
      ensures !ok ==> files in {old(files), old(files)[p := Torn]}
    {
      ok := Try(calm);
      if ok {
        files := files[p := d];
      } else {
        var torn: bool := *;
        if torn {
          files := files[p := Torn];
        }
      }
    }

    method Remove(p: Path, calm: bool) returns (ok: bool)
      modifies `files
      ensures calm ==> ok
      ensures files == if ok then old(files) - {p} else old(files)
    {
      ok := Try(calm);
      if ok {
        files := files - {p};
      }
    }

    /** Restores the snapshot `was` of the tracked paths, marker first, past
        failures: exactly a run of the restore loop with some fates. */
    method RestoreAll(paths: seq<Path>, was: Files, calm: bool) returns (ok: bool, ghost fates: seq<Fate>)
      requires forall p :: p !in paths ==> SameAt(files, was, p)
      modifies `files
      ensures |fates| == |paths| && files == RestoreRun(old(files), was, paths, fates)
      ensures ok <==> NotBack(paths, fates) == {}
      ensures RestoredBut(files, old(files), was, NotBack(paths, fates))
      ensures ok ==> files == was
      ensures calm ==> ok
    {
      ok := true;
      fates := [];
      for i := 0 to |paths|
        invariant |fates| == i && files == RestoreRun(old(files), was, paths[..i], fates)
        invariant ok <==> forall j :: 0 <= j < i ==> fates[j].Back?
        invariant calm ==> ok
      {
        ghost var before := files;
        var done;
        if paths[i] in was {
          done := WriteInPlace(paths[i], was[paths[i]], calm);
        } else {
          done := Remove(paths[i], calm);
        }
        ok := ok && done;
        ghost var fate := if done then Back else if files == before then Left else TornApart;
        assert files == RestoreOne(before, was, paths[i], fate);
        assert paths[..i + 1][..i] == paths[..i] && (fates + [fate])[..i] == fates;
        fates := fates + [fate];
      }
      assert paths[..|paths|] == paths;
      RestoreOutcome(old(files), was, paths, fates);
      NoneFailed(paths, fates);
    }

    /** Writes one engine's configuration and marker. */
    method WriteTarget(e: Entry, calm: bool) returns (ok: bool)
      requires e.wanted <==> e.candidate.Some?
      modifies `files
      ensures calm ==> ok
      ensures ok ==> files == WriteEntry(old(files), e)
      ensures forall p :: p != ConfigFile(e.name) && p != EnabledMarker(e.name) ==> SameAt(files, old(files), p)
    {
      if e.wanted {
        ok := WriteAtomic(ConfigFile(e.name), ConfigText(e.candidate.value), calm);
        if !ok {
          return;
        }
        ok := WriteInPlace(EnabledMarker(e.name), EnabledText, calm);
      } else {
        ok := Remove(EnabledMarker(e.name), calm);
      }
    }

    /** transitionExternalRuntime: success installs the new revision; failure
        whose restore writes succeed leaves every file as it was. */
    method Transition(mode: Mode, ts: seq<Target>, calm: bool) returns (revision: Option<Revision>, restored: bool)
      modifies `files
      ensures calm ==> revision.Some?
      ensures revision.Some? ==> restored && revision.value == RevisionFor(mode, ts)
      ensures revision.Some? ==> files == Installed(old(files), revision.value)
      ensures revision.None? && restored ==> files == old(files)
    {
      var preflightOk := Try(calm); // topology, snapshots, generation, the runner's own checker, cancellation
      if !preflightOk {
        return None, true;
      }
      ghost var was := files;
      var snapshot := files;
      var paths := Tracked(ts);
      var r := RevisionFor(mode, ts);
      for i := 0 to |ts|
        invariant files == WriteEntries(was, r.entries[..i])
        invariant forall p :: p !in paths ==> SameAt(files, was, p)
      {
        TargetsAreTracked(ts, i);
        ghost var mid := files;
        var going := Try(calm);
        var ok := false;
        if going {
          ok := WriteTarget(r.entries[i], calm);
        }
        forall p | p !in paths ensures SameAt(files, was, p) {
          assert SameAt(mid, was, p) && (going ==> SameAt(files, mid, p));
        }
        if !ok {
          var back, fates := RestoreAll(paths, snapshot, calm);
          return None, back;
        }
        assert r.entries[..i + 1][..i] == r.entries[..i];
      }
      assert r.entries[..|ts|] == r.entries;
      ManagedIsTracked(ts);
      var marked := WriteInPlace(Managed, RevisionText(r), calm);
      var serving := Try(calm); // restart, engine wait and listener probes
      if !marked || !serving {
        var back, fates := RestoreAll(paths, snapshot, calm);
        return None, back;
      }
      return Some(r), true;
    }

    /** ApplyRuntime in external mode, whether the commit succeeds or not: what is
        on disk is what the mode prescribes, and the revision is its hash.  A commit
        failure quarantines the marker.  `xrayGot` and `singboxGot` are what the
        generators get from the database. */
    method ApplyRuntime(mode: Mode, enabled: seq<Inbound>, xrayGot: Database, singboxGot: Database, calm: bool)
      returns (o: Outcome, restored: bool)
      modifies this
      ensures calm ==> o.Applied?
      ensures !o.Failed? ==> restored && FilesServe(files, "xray", Xray, mode, enabled, xrayGot)
      ensures !o.Failed? ==> FilesServe(files, "singbox", Singbox, mode, enabled, singboxGot)
      ensures !o.Failed? ==> o.revision.mode == mode && |o.revision.entries| == 2 && Matches(files, o.revision)
      ensures !o.Failed? ==> o.revision.entries[0].name == "xray" && o.revision.entries[1].name == "singbox"
      ensures restored ==> ApplyRel(old(Current()), o, Current())
      ensures restored && old(Sound(Current())) ==> Sound(Current())
    {
      hide Installed, Matches, EntryMatches, FilesServe, ConfigFor;
      ghost var before := Current();
      var wantXray, wantSingbox := Local.WantedEngines(mode, enabled);
      var ts := [Target("xray", Xray, wantXray, mode == Auto, xrayGot), Target("singbox", Singbox, wantSingbox, mode == Auto, singboxGot)];
      var revision;
      revision, restored := Transition(mode, ts, calm);
      if revision.None? {
        o := Failed;
      } else {
        var committed := Try(calm);
        if committed {
          stored := revision;
          o := Applied(revision.value);
        } else {
          var removed := Remove(Managed, calm);
          o := AppliedUnpersisted(revision.value);
        }
        InstalledMatches(before.files, o.revision);
        Served(files, o.revision, ts, mode, enabled);
        assert ts[0].name == "xray" && ts[1].name == "singbox";
      }
      if restored && Sound(before) {
        ApplyKeepsSound(before, o, Current());
      }
    }
  }
}
