/**
 The operation log of Smart Deploy: what one recorded operation undoes, what a
 whole rollback undoes, and what a retried rollback undoes.
 */
module DeployLog {
  import opened JsonText

  type Path = string

  /** Contents by path; a missing path is a missing file. */
  type Files = map<Path, string>

  /** Marks "the file did not exist" inside a snapshot. */
  const ABSENT := "__zenith_absent__"

  datatype InboundRow = InboundRow(tag: string, protocol: string, port: nat, enable: bool)

  datatype ClientRow = ClientRow(inboundID: nat, uuid: string)

  /** Everything a deployment changes outside its own log. */
  datatype System = System(files: Files, inbounds: map<nat, InboundRow>, clients: map<nat, ClientRow>)

  /** What a row remembers about its effect. */
  datatype Post = Nothing | TunePost(snap: Files) | InboundPost(id: nat)

  datatype OpType = CertOp | TuneOp | InboundOp

  datatype OpStatus = Pending | Applied | Failed | Reverted | RevertFailed

  datatype OpRow = OpRow(deployment: nat, sequence: nat, opType: OpType, post: Post, status: OpStatus) {
    /** The rows a rollback selects. */
    predicate Revertible() { status == Applied || status == RevertFailed }
  }

  /** What a tuning operation remembers of a file before it writes it.  A file that
      is there but cannot be read counts as missing. */
  function Remembered(fs: Files, p: Path, readable: bool): string {
    if p in fs && readable then fs[p] else ABSENT
  }

  /** What is left of a snapshot in the row: the row holds it as JSON text. */
  function Stored(snap: Files): (r: Files)
    ensures r.Keys == snap.Keys
  {
    map p | p in snap :: Coerced(snap[p])
  }

  /** The content of a path that a row can give back. */
  predicate Recoverable(fs: Files, p: Path, readable: bool) {
    p in fs ==> readable && IsUtf8(fs[p]) && fs[p] != ABSENT
  }

  /** The content of a path that the snapshot itself can give back. */
  predicate Remembers(fs: Files, p: Path, readable: bool) {
    p in fs ==> readable && fs[p] != ABSENT
  }

  function RevertPath(fs: Files, p: Path, prev: string): Files {
    if prev == ABSENT then fs - {p} else fs[p := prev]
  }

  /** Restores or removes every path of the snapshot. */
  function RevertFiles(fs: Files, snap: Files): Files {
    map p | p in fs.Keys + snap.Keys && !(p in snap && snap[p] == ABSENT) :: if p in snap then snap[p] else fs[p]
  }

  function SnapOf(post: Post): Files { if post.TunePost? then post.snap else map[] }

  function RemoveInbound(sys: System, id: nat): System {
    sys.(inbounds := sys.inbounds - {id},
         clients := map c | c in sys.clients && sys.clients[c].inboundID != id :: sys.clients[c])
  }

  function RevertPost(sys: System, post: Post): System {
    match post
    case Nothing => sys
    case TunePost(snap) => sys.(files := RevertFiles(sys.files, snap))
    case InboundPost(id) => RemoveInbound(sys, id)
  }

  /** Reverting a log from its last operation to its first. */
  function UndoAll(posts: seq<Post>, sys: System): System {
    if posts == [] then sys
    else UndoAll(posts[..|posts| - 1], RevertPost(sys, posts[|posts| - 1]))
  }

  /** Writing a drop-in and reverting what the row kept of its snapshot is the
      identity if and only if the file was missing, or was read, is UTF-8 and is
      not the very text that marks absence.  The snapshot itself, as the immediate
      clean-up uses it, asks for less. */
  lemma DropinRoundTrip(fs: Files, p: Path, content: string, readable: bool)
    ensures RevertFiles(fs[p := content], Stored(map[p := Remembered(fs, p, readable)])) == fs <==> Recoverable(fs, p, readable)
    ensures RevertFiles(fs[p := content], map[p := Remembered(fs, p, readable)]) == fs <==> Remembers(fs, p, readable)
  {
    hide Coerced, IsUtf8, RevertFiles;
    var snap := map[p := Remembered(fs, p, readable)];
    RevertOneFile(fs, p, content, Remembered(fs, p, readable));
    RevertOneFile(fs, p, content, Coerced(Remembered(fs, p, readable)));
    assert Stored(snap) == map[p := Coerced(Remembered(fs, p, readable))];
    AbsentStays();
    if p in fs {
      CoercedIff(fs[p]);
    }
  }

  lemma AbsentStays()
    ensures Coerced(ABSENT) == ABSENT
  {
    AsciiIsUtf8(ABSENT);
    CoercedIff(ABSENT);
  }

  lemma RevertOneFile(fs: Files, p: Path, content: string, prev: string)
    ensures RevertFiles(fs[p := content], map[p := prev]) == fs <==> if prev == ABSENT then p !in fs else p in fs && fs[p] == prev
  {
    var back := RevertFiles(fs[p := content], map[p := prev]);
    if prev == ABSENT {
      assert p !in back;
      assert p !in fs ==> back.Keys == fs.Keys;
    } else {
      assert p in back && back[p] == prev;
      assert p in fs ==> back.Keys == fs.Keys;
    }
  }

  /** The client rows created with an inbound, under consecutive fresh keys. */
  function NewClients(id: nat, next: nat, uuids: seq<string>): (r: map<nat, ClientRow>)
    ensures forall c :: c in r <==> next <= c < next + |uuids|
    ensures forall c :: c in r ==> r[c] == ClientRow(id, uuids[c - next])
  {
    if uuids == [] then map[]
    else NewClients(id, next, uuids[..|uuids| - 1])[next + |uuids| - 1 := ClientRow(id, uuids[|uuids| - 1])]
  }

  /** An inbound created under a fresh id, with its clients, is undone by
      deleting that id and every client that refers to it. */
  lemma InboundRoundTrip(sys: System, id: nat, row: InboundRow, next: nat, uuids: seq<string>)
    requires id !in sys.inbounds
    requires forall c :: c in sys.clients ==> c < next && sys.clients[c].inboundID != id
    ensures RemoveInbound(System(sys.files, sys.inbounds[id := row], sys.clients + NewClients(id, next, uuids)), id) == sys
  {
    var after := RemoveInbound(System(sys.files, sys.inbounds[id := row], sys.clients + NewClients(id, next, uuids)), id);
    assert after.inbounds == sys.inbounds;
    assert after.clients.Keys == sys.clients.Keys;
  }

  // ---------- Torn paths ----------

  predicate SameFile(f: Files, g: Files, p: Path) {
    (p in f <==> p in g) && (p in f ==> f[p] == g[p])
  }

  function RemoveInbounds(sys: System, ids: set<nat>): System {
    sys.(inbounds := sys.inbounds - ids,
         clients := map c | c in sys.clients && sys.clients[c].inboundID !in ids :: sys.clients[c])
  }

  /** `s` is `t`, except possibly for the files in `torn` and for the inbounds in
      `stray`, which `t` does not have. */
  ghost predicate SameExcept(s: System, t: System, torn: set<Path>, stray: set<nat>) {
    && RemoveInbounds(s, stray).(files := t.files) == t
    && forall p :: p !in torn ==> SameFile(s.files, t.files, p)
  }

  predicate Covers(posts: seq<Post>, p: Path) {
    exists i :: 0 <= i < |posts| && posts[i].TunePost? && p in posts[i].snap
  }

  /** Torn files that no operation of the log has recorded. */
  function Uncovered(torn: set<Path>, posts: seq<Post>): (r: set<Path>)
    ensures r <= torn
  {
    set p <- torn | !Covers(posts, p)
  }

  /** Undoing the same log from two states that differ in a file ends in states
      that agree on it once some operation of the log has recorded it. */
  lemma {:induction false} UndoForgetsTornFile(posts: seq<Post>, s: System, t: System, p: Path)
    requires Covers(posts, p) || SameFile(s.files, t.files, p)
    ensures SameFile(UndoAll(posts, s).files, UndoAll(posts, t).files, p)
    decreases |posts|
  {
    if posts != [] {
      var init, last := posts[..|posts| - 1], posts[|posts| - 1];
      CoversLast(init, last, p);
      assert posts == init + [last];
      UndoForgetsTornFile(init, RevertPost(s, last), RevertPost(t, last), p);
    }
  }

  lemma CoversLast(init: seq<Post>, last: Post, p: Path)
    ensures Covers(init + [last], p) <==> Covers(init, p) || (last.TunePost? && p in last.snap)
  {
    var posts := init + [last];
    if i :| 0 <= i < |posts| && posts[i].TunePost? && p in posts[i].snap {
      assert i < |init| ==> init[i] == posts[i];
    }
    if i :| 0 <= i < |init| && init[i].TunePost? && p in init[i].snap {
      assert posts[i] == init[i];
    }
    if last.TunePost? && p in last.snap {
      assert posts[|init|] == last;
    }
  }

  /** A file that no operation has recorded stays as it is. */
  lemma {:induction false} UndoLeavesUncovered(posts: seq<Post>, s: System, p: Path)
    requires !Covers(posts, p)
    ensures SameFile(UndoAll(posts, s).files, s.files, p)
    decreases |posts|
  {
    if posts != [] {
      var init, last := posts[..|posts| - 1], posts[|posts| - 1];
      CoversLast(init, last, p);
      assert posts == init + [last];
      UndoLeavesUncovered(init, RevertPost(s, last), p);
    }
  }

  lemma RemoveTwice(s: System, a: set<nat>, b: set<nat>)
    ensures RemoveInbounds(RemoveInbounds(s, a), b) == RemoveInbounds(s, a + b)
  {
    assert RemoveInbounds(RemoveInbounds(s, a), b).inbounds == RemoveInbounds(s, a + b).inbounds;
    assert RemoveInbounds(RemoveInbounds(s, a), b).clients == RemoveInbounds(s, a + b).clients;
  }

  lemma RemoveNone(s: System)
    ensures RemoveInbounds(s, {}) == s
  {
    assert RemoveInbounds(s, {}).inbounds == s.inbounds && RemoveInbounds(s, {}).clients == s.clients;
  }

  lemma RemoveOne(s: System, id: nat)
    ensures RemoveInbound(s, id) == RemoveInbounds(s, {id})
  {
    assert RemoveInbound(s, id).clients == RemoveInbounds(s, {id}).clients;
  }

  /** Removing inbounds before or after undoing a log comes to the same. */
  lemma {:induction false} UndoForgetsStray(posts: seq<Post>, s: System, stray: set<nat>)
    ensures RemoveInbounds(UndoAll(posts, s), stray) == UndoAll(posts, RemoveInbounds(s, stray))
    decreases |posts|
  {
    if posts != [] {
      var init, last := posts[..|posts| - 1], posts[|posts| - 1];
      UndoForgetsStray(init, RevertPost(s, last), stray);
      if last.InboundPost? {
        RemoveOne(s, last.id);
        RemoveOne(RemoveInbounds(s, stray), last.id);
        RemoveTwice(s, {last.id}, stray);
        RemoveTwice(s, stray, {last.id});
        assert {last.id} + stray == stray + {last.id};
      }
    }
  }

  /** The tables of an undone log do not depend on the files. */
  lemma {:induction false} UndoTables(posts: seq<Post>, s: System, t: System)
    requires s.inbounds == t.inbounds && s.clients == t.clients
    ensures UndoAll(posts, s).inbounds == UndoAll(posts, t).inbounds && UndoAll(posts, s).clients == UndoAll(posts, t).clients
    decreases |posts|
  {
    if posts != [] {
      UndoTables(posts[..|posts| - 1], RevertPost(s, posts[|posts| - 1]), RevertPost(t, posts[|posts| - 1]));
    }
  }

  /** Undoing the same log from two states that differ a little. */
  lemma UndoForgets(posts: seq<Post>, s: System, t: System, torn: set<Path>, stray: set<nat>)
    requires SameExcept(s, t, torn, stray)
    ensures SameExcept(UndoAll(posts, s), UndoAll(posts, t), Uncovered(torn, posts), stray)
  {
    forall p | p !in Uncovered(torn, posts) ensures SameFile(UndoAll(posts, s).files, UndoAll(posts, t).files, p) {
      UndoForgetsTornFile(posts, s, t, p);
    }
    UndoForgetsStray(posts, s, stray);
    UndoTables(posts, RemoveInbounds(s, stray), t);
  }

  lemma SameFilesAreEqual(f: Files, g: Files)
    requires forall p :: SameFile(f, g, p)
    ensures f == g
  {
    forall p ensures p in f <==> p in g {
      assert SameFile(f, g, p);
    }
    forall p | p in f ensures f[p] == g[p] {
      assert SameFile(f, g, p);
    }
  }

  lemma SameTwice(s: System, t: System, u: System, torn: set<Path>, stray: set<nat>)
    requires SameExcept(s, t, torn, {}) && SameExcept(t, u, torn, stray)
    ensures SameExcept(s, u, torn, stray)
  {
    RemoveNone(s);
    forall p | p !in torn ensures SameFile(s.files, u.files, p) {
      assert SameFile(s.files, t.files, p) && SameFile(t.files, u.files, p);
    }
  }

  lemma UndoSnoc(posts: seq<Post>, post: Post, sys: System)
    ensures UndoAll(posts + [post], sys) == UndoAll(posts, RevertPost(sys, post))
  {
    assert (posts + [post])[..|posts|] == posts;
  }

  // ---------- What a log gives back ----------

  /** Undoing `log` from `s` gives `start`, the files in `torn` and the inbounds in
      `stray` apart, except exactly for the recorded files whose content no row
      could keep; `misread` are those whose first read failed. */
  ghost predicate Undoable(log: seq<Post>, s: System, start: System, misread: set<Path>, torn: set<Path>, stray: set<nat>) {
    && RemoveInbounds(UndoAll(log, s), stray).(files := start.files) == start
    && forall p :: p !in torn ==>
         (SameFile(UndoAll(log, s).files, start.files, p) <==> GivesBack(log, start.files, misread, p))
  }

  /** The file was not recorded, or its first record can give back its content. */
  predicate GivesBack(log: seq<Post>, fs: Files, misread: set<Path>, p: Path) {
    Covers(log, p) ==> CanKeep(fs, p, misread)
  }

  predicate CanKeep(fs: Files, p: Path, misread: set<Path>) { Recoverable(fs, p, p !in misread) }

  /** The recorded files whose content is lost. */
  function Lost(log: seq<Post>, fs: Files, misread: set<Path>): set<Path> {
    set p | p in fs && !GivesBack(log, fs, misread, p)
  }

  lemma UndoableIsSame(log: seq<Post>, s: System, start: System, misread: set<Path>, torn: set<Path>, stray: set<nat>)
    requires Undoable(log, s, start, misread, torn, stray)
    ensures SameExcept(UndoAll(log, s), start, torn + Lost(log, start.files, misread), stray)
    ensures forall p :: p in Lost(log, start.files, misread) - torn ==> !SameFile(UndoAll(log, s).files, start.files, p)
  {
  }

  lemma NothingToUndo(s: System)
    ensures Undoable([], s, s, {}, {}, {})
  {
    RemoveNone(s);
  }

  /** An operation that touches no file and that its record undoes. */
  lemma UndoableOther(log: seq<Post>, s: System, start: System, misread: set<Path>, post: Post, s': System)
    requires Undoable(log, s, start, misread, {}, {}) && RevertPost(s', post) == s && SnapOf(post) == map[]
    ensures Undoable(log + [post], s', start, misread, {}, {})
  {
    UndoSnoc(log, post, s');
    forall p ensures Covers(log + [post], p) <==> Covers(log, p) {
      CoversLast(log, post, p);
    }
  }

  function MisreadAfter(log: seq<Post>, misread: set<Path>, p: Path, readable: bool): set<Path> {
    if Covers(log, p) then misread else if readable then misread - {p} else misread + {p}
  }

  /** A drop-in that its operation has recorded. */
  lemma UndoableDropin(log: seq<Post>, s: System, start: System, misread: set<Path>, p: Path, content: string, readable: bool)
    requires Undoable(log, s, start, misread, {}, {})
    ensures Undoable(log + [TunePost(Stored(map[p := Remembered(s.files, p, readable)]))], s.(files := s.files[p := content]), start,
                     MisreadAfter(log, misread, p, readable), {}, {})
  {
    hide Stored, Remembered, UndoAll, RevertFiles, Recoverable, MisreadAfter, Covers;
    var post, s' := TunePost(Stored(map[p := Remembered(s.files, p, readable)])), s.(files := s.files[p := content]);
    var misread' := MisreadAfter(log, misread, p, readable);
    var back := RevertPost(s', post);
    UndoSnoc(log, post, s');
    DropinFiles(s.files, p, content, readable, post.snap, back.files);
    UndoTables(log, back, s);
    RemoveNone(UndoAll(log, s));
    RemoveNone(UndoAll(log, back));
    forall q
      ensures SameFile(UndoAll(log, back).files, start.files, q) <==> GivesBack(log + [post], start.files, misread', q)
    {
      CoversLast(log, post, q);
      FileGiven(log, s, back, start.files, misread, post, p, readable, q);
    }
  }

  lemma FileGiven(log: seq<Post>, s: System, back: System, fs: Files, misread: set<Path>, post: Post, p: Path, readable: bool, q: Path)
    requires SameFile(UndoAll(log, s).files, fs, q) <==> GivesBack(log, fs, misread, q)
    requires (q != p ==> SameFile(back.files, s.files, q)) && (SameFile(back.files, s.files, p) <==> Recoverable(s.files, p, readable))
    requires Covers(log + [post], q) <==> Covers(log, q) || q == p
    ensures SameFile(UndoAll(log, back).files, fs, q) <==> GivesBack(log + [post], fs, MisreadAfter(log, misread, p, readable), q)
  {
    hide UndoAll, Covers, IsUtf8;
    if Covers(log, q) || q != p {
      UndoForgetsTornFile(log, back, s, q);
    } else {
      UndoLeavesUncovered(log, back, q);
      UndoLeavesUncovered(log, s, q);
    }
  }

  /** The drop-in reverted from its row, file by file. */
  lemma DropinFiles(fs: Files, p: Path, content: string, readable: bool, snap: Files, back: Files)
    requires snap == Stored(map[p := Remembered(fs, p, readable)]) && back == RevertFiles(fs[p := content], snap)
    ensures (forall q :: q in snap <==> q == p) && (forall q :: q != p ==> SameFile(back, fs, q))
    ensures SameFile(back, fs, p) <==> Recoverable(fs, p, readable)
  {
    hide Coerced, IsUtf8;
    AbsentStays();
    if p in fs {
      CoercedIff(fs[p]);
    }
    assert snap[p] == Coerced(Remembered(fs, p, readable));
  }

  /** An operation that failed, whatever it left. */
  lemma UndoableFailed(log: seq<Post>, s: System, start: System, misread: set<Path>, s': System, torn: set<Path>, stray: set<nat>)
    requires Undoable(log, s, start, misread, {}, {}) && SameExcept(s', s, torn, stray)
    ensures Undoable(log, s', start, misread, Uncovered(torn, log), stray)
  {
    UndoForgets(log, s', s, torn, stray);
    RemoveNone(UndoAll(log, s));
    forall p | p !in Uncovered(torn, log)
      ensures SameFile(UndoAll(log, s').files, start.files, p) <==> GivesBack(log, start.files, misread, p)
    {
      assert SameFile(UndoAll(log, s').files, UndoAll(log, s).files, p);
    }
  }

  // ---------- Retried rollbacks ----------

  /** One pass, last operation first, over the operations in `chosen`. */
  function RevertSome(snaps: seq<Files>, chosen: set<nat>, fs: Files): Files {
    if snaps == [] then fs
    else
      var n: nat := |snaps| - 1;
      RevertSome(snaps[..n], chosen, if n in chosen then RevertFiles(fs, snaps[n]) else fs)
  }

  predicate IsLowest(snaps: seq<Files>, chosen: set<nat>, p: Path, i: nat) {
    && i < |snaps| && i in chosen && p in snaps[i]
    && forall j: nat :: j < i && j in chosen ==> p !in snaps[j]
  }

  predicate Touched(snaps: seq<Files>, chosen: set<nat>, p: Path) {
    exists i: nat :: i < |snaps| && i in chosen && p in snaps[i]
  }

  lemma LowestExists(snaps: seq<Files>, chosen: set<nat>, p: Path, bound: nat) returns (i: nat)
    requires bound < |snaps| && bound in chosen && p in snaps[bound]
    ensures IsLowest(snaps, chosen, p, i) && i <= bound
  {
    i := 0;
    while !(i in chosen && p in snaps[i])
      invariant i <= bound
      invariant forall j: nat :: j < i && j in chosen ==> p !in snaps[j]
      decreases bound - i
    {
      i := i + 1;
    }
  }

  /** After a pass, a file has the content recorded by the earliest operation of
      the pass that touched it. */
  lemma {:induction false} PassLeavesEarliest(snaps: seq<Files>, chosen: set<nat>, fs: Files, p: Path)
    ensures !Touched(snaps, chosen, p) ==> SameFile(RevertSome(snaps, chosen, fs), fs, p)
    ensures forall i: nat :: IsLowest(snaps, chosen, p, i) ==> SameFile(RevertSome(snaps, chosen, fs), RevertPath(fs, p, snaps[i][p]), p)
    decreases |snaps|
  {
    if snaps != [] {
      var n: nat := |snaps| - 1;
      var init := snaps[..n];
      var fs' := if n in chosen then RevertFiles(fs, snaps[n]) else fs;
      PassLeavesEarliest(init, chosen, fs', p);
      if Touched(init, chosen, p) {
        var k: nat :| k < |init| && k in chosen && p in init[k];
        var low := LowestExists(init, chosen, p, k);
        forall i: nat | IsLowest(snaps, chosen, p, i)
          ensures i == low
        {
          assert snaps[low] == init[low];
          if i < n {
            assert init[i] == snaps[i];
          }
        }
      } else {
        forall i: nat | i < n && i in chosen ensures p !in snaps[i] {
          assert init[i] == snaps[i];
        }
      }
    }
  }

  /** What operations outside the snapshots does not matter. */
  lemma {:induction false} OnlyBelow(snaps: seq<Files>, chosen: set<nat>, other: set<nat>, fs: Files)
    requires forall i: nat :: i < |snaps| ==> (i in chosen <==> i in other)
    ensures RevertSome(snaps, chosen, fs) == RevertSome(snaps, other, fs)
    decreases |snaps|
  {
    if snaps != [] {
      var n: nat := |snaps| - 1;
      OnlyBelow(snaps[..n], chosen, other, if n in chosen then RevertFiles(fs, snaps[n]) else fs);
    }
  }

  lemma {:induction false} NothingChosen(snaps: seq<Files>, chosen: set<nat>, fs: Files)
    requires forall i: nat :: i < |snaps| ==> i !in chosen
    ensures RevertSome(snaps, chosen, fs) == fs
    decreases |snaps|
  {
    if snaps != [] {
      NothingChosen(snaps[..|snaps| - 1], chosen, fs);
    }
  }

  /** A pass is extended at its earlier end. */
  lemma {:induction false} OneMore(snaps: seq<Files>, chosen: set<nat>, k: nat, fs: Files)
    requires k < |snaps| && forall i :: i in chosen ==> k < i
    ensures RevertSome(snaps, chosen + {k}, fs) == RevertFiles(RevertSome(snaps, chosen, fs), snaps[k])
    decreases |snaps|
  {
    var n: nat := |snaps| - 1;
    if n == k {
      NothingChosen(snaps[..n], chosen, fs);
      NothingChosen(snaps[..n], chosen + {k}, RevertFiles(fs, snaps[k]));
    } else {
      OneMore(snaps[..n], chosen, k, if n in chosen then RevertFiles(fs, snaps[n]) else fs);
    }
  }

  // ---------- Passes that fail in part ----------

  function Snaps(posts: seq<Post>): (snaps: seq<Files>)
    ensures |snaps| == |posts| && forall i :: 0 <= i < |posts| ==> snaps[i] == SnapOf(posts[i])
  {
    seq(|posts|, i requires 0 <= i < |posts| => SnapOf(posts[i]))
  }

  /** The inbounds created by the operations in `chosen`. */
  function IdsOf(posts: seq<Post>, chosen: set<nat>): set<nat> {
    set i | i in chosen && i < |posts| && posts[i].InboundPost? :: posts[i].id
  }

  /** An undisturbed pass over the operations in `chosen`. */
  function UndoSome(posts: seq<Post>, chosen: set<nat>, sys: System): System {
    RemoveInbounds(sys, IdsOf(posts, chosen)).(files := RevertSome(Snaps(posts), chosen, sys.files))
  }

  /** One attempt to revert an operation: it works, or its own files may hold
      anything and its inbound stays. */
  ghost predicate RevertTried(post: Post, ok: bool, s: System, s': System) {
    if ok then s' == RevertPost(s, post)
    else s'.inbounds == s.inbounds && s'.clients == s.clients && forall p :: p !in SnapOf(post) ==> SameFile(s'.files, s.files, p)
  }

  /** One pass over the operations in `chosen`, any of which may fail.  Those in
      `left` are to be tried again.  A file none of them recorded is as after a
      pass over the others, whose inbounds are all gone. */
  ghost predicate Pass(posts: seq<Post>, chosen: set<nat>, left: set<nat>, s: System, s': System) {
    && left <= chosen
    && (forall p :: !Touched(Snaps(posts), left, p) ==> SameFile(s'.files, RevertSome(Snaps(posts), chosen - left, s.files), p))
    && exists gone :: TablesAfter(posts, chosen, left, s, s', gone)
  }

  ghost predicate TablesAfter(posts: seq<Post>, chosen: set<nat>, left: set<nat>, s: System, s': System, gone: set<nat>) {
    && IdsOf(posts, chosen - left) <= gone <= IdsOf(posts, chosen)
    && s' == RemoveInbounds(s, gone).(files := s'.files)
  }

  lemma NoPass(posts: seq<Post>, chosen: set<nat>, s: System)
    ensures Pass(posts, chosen, chosen, s, s)
  {
    NothingChosen(Snaps(posts), {}, s.files);
    assert chosen - chosen == {};
    assert RemoveInbounds(s, {}) == s;
    assert TablesAfter(posts, chosen, chosen, s, s, {});
  }

  lemma RevertNothing(fs: Files)
    ensures RevertFiles(fs, map[]) == fs
  {
  }

  /** A pass that has dealt with `chosen` goes on to an earlier operation. */
  lemma PassGoesOn(posts: seq<Post>, chosen: set<nat>, left: set<nat>, s: System, t: System, k: nat, ok: bool, cleared: bool, u: System)
    requires Pass(posts, chosen, left, s, t) && k < |posts| && (forall i :: i in chosen ==> k < i)
    requires RevertTried(posts[k], ok, t, u) && (cleared ==> ok)
    ensures Pass(posts, chosen + {k}, if cleared then left else left + {k}, s, u)
  {
    var left' := if cleared then left else left + {k};
    PassFiles(posts, chosen, left, s, t, k, ok, cleared, u);
    var gone :| TablesAfter(posts, chosen, left, s, t, gone);
    var mine := if ok then IdsOf(posts, {k}) else {};
    assert (chosen + {k}) - left' == (chosen - left) + if cleared then {k} else {};
    IdsOfBoth(posts, chosen, {k});
    IdsOfBoth(posts, chosen - left, if cleared then {k} else {});
    RevertedTables(posts, k, ok, t, u);
    RemoveTwice(s, gone, mine);
    assert TablesAfter(posts, chosen + {k}, left', s, u, gone + mine);
  }

  lemma PassFiles(posts: seq<Post>, chosen: set<nat>, left: set<nat>, s: System, t: System, k: nat, ok: bool, cleared: bool, u: System)
    requires Pass(posts, chosen, left, s, t) && k < |posts| && (forall i :: i in chosen ==> k < i)
    requires RevertTried(posts[k], ok, t, u) && (cleared ==> ok)
    ensures var left' := if cleared then left else left + {k};
            forall p :: !Touched(Snaps(posts), left', p) ==>
              SameFile(u.files, RevertSome(Snaps(posts), (chosen + {k}) - left', s.files), p)
  {
    var snaps, rest := Snaps(posts), chosen - left;
    var left' := if cleared then left else left + {k};
    OneMore(snaps, rest, k, s.files);
    RevertNothing(t.files);
    assert (chosen + {k}) - left' == if cleared then rest + {k} else rest;
    forall p | !Touched(snaps, left', p)
      ensures SameFile(u.files, RevertSome(snaps, (chosen + {k}) - left', s.files), p)
    {
      assert !Touched(snaps, left, p) && SameFile(t.files, RevertSome(snaps, rest, s.files), p);
      if !cleared {
        assert k in left' && p !in snaps[k];
      }
    }
  }

  lemma IdsOfBoth(posts: seq<Post>, a: set<nat>, b: set<nat>)
    ensures IdsOf(posts, a + b) == IdsOf(posts, a) + IdsOf(posts, b)
  {
    forall id | id in IdsOf(posts, a) + IdsOf(posts, b) ensures id in IdsOf(posts, a + b) {
      var i :| (i in a || i in b) && i < |posts| && posts[i].InboundPost? && posts[i].id == id;
      assert i in a + b;
    }
  }

  lemma RevertedTables(posts: seq<Post>, k: nat, ok: bool, t: System, u: System)
    requires k < |posts| && RevertTried(posts[k], ok, t, u)
    ensures u == RemoveInbounds(t, if ok then IdsOf(posts, {k}) else {}).(files := u.files)
  {
    var ids := if ok then IdsOf(posts, {k}) else {};
    assert ids == if ok && posts[k].InboundPost? then {posts[k].id} else {};
    var r := RemoveInbounds(t, ids);
    assert u.inbounds == r.inbounds && u.clients == r.clients;
  }

  // ---------- Retried rollbacks ----------

  /** No two of the operations recorded different contents for one path, the paths
      in `torn` apart. */
  ghost predicate AgreeOnShared(posts: seq<Post>, chosen: set<nat>, torn: set<Path>) {
    forall i, j, p :: i in chosen && j in chosen && i < j < |posts| && p in SnapOf(posts[i]) && p in SnapOf(posts[j]) && p !in torn ==>
      SnapOf(posts[i])[p] == SnapOf(posts[j])[p]
  }

  /** Passes from `states[0]` on, each over what the one before has left, until
      nothing is left. */
  ghost predicate Retries(posts: seq<Post>, chosen: set<nat>, lefts: seq<set<nat>>, states: seq<System>)
    decreases |lefts|
  {
    && |states| == |lefts| + 1
    && if lefts == [] then chosen == {}
       else Pass(posts, chosen, lefts[0], states[0], states[1]) && Retries(posts, lefts[0], lefts[1..], states[1..])
  }

  /** Whatever fails on the way, retrying until nothing is left ends in `target`,
      the files in `torn` and the inbounds in `stray` apart. */
  ghost predicate RetriesReach(posts: seq<Post>, chosen: set<nat>, s: System, target: System, torn: set<Path>, stray: set<nat>) {
    forall lefts, states :: Retries(posts, chosen, lefts, states) && states[0] == s ==> SameExcept(states[|lefts|], target, torn, stray)
  }

  /** `now` differs from `target` at most by what the operations in `left` did, by
      the files in `torn` and by the inbounds in `stray`. */
  ghost predicate Confined(posts: seq<Post>, left: set<nat>, now: System, target: System, torn: set<Path>, stray: set<nat>) {
    && (forall p :: p !in torn && !Touched(Snaps(posts), left, p) ==> SameFile(now.files, target.files, p))
    && RemoveInbounds(now, stray + IdsOf(posts, left)) == RemoveInbounds(target, stray + IdsOf(posts, left)).(files := now.files)
  }

  /** A pass over everything confines what is wrong to the operations it leaves,
      whatever they have recorded. */
  lemma PassConfines(posts: seq<Post>, chosen: set<nat>, left: set<nat>, s: System, s': System)
    requires Pass(posts, chosen, left, s, s')
    ensures Confined(posts, left, s', UndoSome(posts, chosen, s), {}, {})
  {
    var snaps := Snaps(posts);
    forall p | !Touched(snaps, left, p)
      ensures SameFile(s'.files, RevertSome(snaps, chosen, s.files), p)
    {
      PassLeavesEarliest(snaps, chosen, s.files, p);
      PassLeavesEarliest(snaps, chosen - left, s.files, p);
      if Touched(snaps, chosen, p) {
        var k: nat :| k < |snaps| && k in chosen && p in snaps[k];
        var low := LowestExists(snaps, chosen, p, k);
        assert IsLowest(snaps, chosen - left, p, low);
      } else {
        assert !Touched(snaps, chosen - left, p);
      }
    }
    ConfinedTables(posts, chosen, left, s, s');
    assert {} + IdsOf(posts, left) == IdsOf(posts, left);
  }

  lemma ConfinedTables(posts: seq<Post>, chosen: set<nat>, left: set<nat>, s: System, s': System)
    requires Pass(posts, chosen, left, s, s')
    ensures var ids := IdsOf(posts, left);
            RemoveInbounds(s', ids) == RemoveInbounds(UndoSome(posts, chosen, s), ids).(files := s'.files)
  {
    var gone :| TablesAfter(posts, chosen, left, s, s', gone);
    var ids := IdsOf(posts, left);
    assert gone + ids == IdsOf(posts, chosen) + ids by {
      forall i | i in chosen && i < |posts| && posts[i].InboundPost? ensures posts[i].id in gone + ids {
        assert i in left || i in chosen - left;
      }
    }
    RemoveTwice(s, gone, ids);
    RemoveTwice(s, IdsOf(posts, chosen), ids);
  }

  /** A later pass keeps it so, when the operations agree. */
  lemma PassKeepsConfined(posts: seq<Post>, chosen: set<nat>, s: System, left: set<nat>, now: System, left': set<nat>, now': System,
                          torn: set<Path>)
    requires AgreeOnShared(posts, chosen, torn) && left <= chosen
    requires Confined(posts, left, now, UndoSome(posts, chosen, s), torn, {}) && Pass(posts, left, left', now, now')
    ensures Confined(posts, left', now', UndoSome(posts, chosen, s), torn, {})
  {
    forall p | p !in torn && !Touched(Snaps(posts), left', p)
      ensures SameFile(now'.files, UndoSome(posts, chosen, s).files, p)
    {
      KeptFile(posts, chosen, s.files, left, now.files, left', p, torn);
    }
    var gone :| TablesAfter(posts, left, left', now, now', gone);
    assert {} + IdsOf(posts, left') == IdsOf(posts, left') && {} + IdsOf(posts, left) == IdsOf(posts, left);
    KeptTables(posts, chosen, s, left, now, left', now', gone);
  }

  lemma KeptFile(posts: seq<Post>, chosen: set<nat>, fs: Files, left: set<nat>, now: Files, left': set<nat>, p: Path, torn: set<Path>)
    requires AgreeOnShared(posts, chosen, torn) && p !in torn && left <= chosen && !Touched(Snaps(posts), left', p)
    requires !Touched(Snaps(posts), left, p) ==> SameFile(now, RevertSome(Snaps(posts), chosen, fs), p)
    ensures SameFile(RevertSome(Snaps(posts), left - left', now), RevertSome(Snaps(posts), chosen, fs), p)
  {
    var snaps := Snaps(posts);
    PassLeavesEarliest(snaps, chosen, fs, p);
    PassLeavesEarliest(snaps, left - left', now, p);
    if Touched(snaps, left, p) {
      var k: nat :| k < |snaps| && k in left && p in snaps[k];
      assert k !in left';
      var low := LowestExists(snaps, left - left', p, k);
      var low' := LowestExists(snaps, chosen, p, low);
      assert SnapOf(posts[low])[p] == SnapOf(posts[low'])[p];
    } else {
      assert !Touched(snaps, left - left', p);
    }
  }

  lemma KeptTables(posts: seq<Post>, chosen: set<nat>, s: System, left: set<nat>, now: System, left': set<nat>, now': System, gone: set<nat>)
    requires left' <= left <= chosen && TablesAfter(posts, left, left', now, now', gone)
    requires var ids, target := IdsOf(posts, left), UndoSome(posts, chosen, s);
             RemoveInbounds(now, ids) == RemoveInbounds(target, ids).(files := now.files)
    ensures var ids, target := IdsOf(posts, left'), UndoSome(posts, chosen, s);
            RemoveInbounds(now', ids) == RemoveInbounds(target, ids).(files := now'.files)
  {
    var target := UndoSome(posts, chosen, s);
    assert left' + (left - left') == left && left + (chosen - left) == chosen && left' + (chosen - left') == chosen;
    IdsOfBoth(posts, left', left - left');
    IdsOfBoth(posts, left, chosen - left);
    assert gone + IdsOf(posts, left') == IdsOf(posts, left);
    RemoveTwice(now, gone, IdsOf(posts, left'));
    AlreadyRemoved(posts, chosen, s, IdsOf(posts, left));
    AlreadyRemoved(posts, chosen, s, IdsOf(posts, left'));
  }

  lemma AlreadyRemoved(posts: seq<Post>, chosen: set<nat>, s: System, ids: set<nat>)
    requires ids <= IdsOf(posts, chosen)
    ensures RemoveInbounds(UndoSome(posts, chosen, s), ids) == UndoSome(posts, chosen, s)
  {
    var target := UndoSome(posts, chosen, s);
    assert RemoveInbounds(target, ids).inbounds == target.inbounds && RemoveInbounds(target, ids).clients == target.clients;
  }

  lemma {:induction false} RetriesEnd(posts: seq<Post>, chosen: set<nat>, s: System, left: set<nat>, lefts: seq<set<nat>>, states: seq<System>,
                                      torn: set<Path>)
    requires AgreeOnShared(posts, chosen, torn) && left <= chosen && Retries(posts, left, lefts, states)
    requires Confined(posts, left, states[0], UndoSome(posts, chosen, s), torn, {})
    ensures SameExcept(states[|lefts|], UndoSome(posts, chosen, s), torn, {})
    decreases |lefts|
  {
    var target := UndoSome(posts, chosen, s);
    if lefts == [] {
      assert {} + IdsOf(posts, left) == {} && forall p :: !Touched(Snaps(posts), left, p);
      RemoveNone(target);
    } else {
      PassKeepsConfined(posts, chosen, s, left, states[0], lefts[0], states[1], torn);
      RetriesEnd(posts, chosen, s, lefts[0], lefts[1..], states[1..], torn);
    }
  }

  lemma Disagreement(posts: seq<Post>, chosen: set<nat>, torn: set<Path>) returns (p: Path, low: nat, k: nat)
    requires !AgreeOnShared(posts, chosen, torn)
    ensures p !in torn
    ensures IsLowest(Snaps(posts), chosen, p, low) && k in chosen && k < |posts|
    ensures p in SnapOf(posts[k]) && SnapOf(posts[low])[p] != SnapOf(posts[k])[p]
  {
    var i, j, q :| i in chosen && j in chosen && i < j < |posts| && q in SnapOf(posts[i]) && q in SnapOf(posts[j])
                   && q !in torn && SnapOf(posts[i])[q] != SnapOf(posts[j])[q];
    p := q;
    low := LowestExists(Snaps(posts), chosen, p, i);
    k := if SnapOf(posts[low])[p] == SnapOf(posts[j])[p] then i else j;
  }

  lemma LaterContentStays(snaps: seq<Files>, chosen: set<nat>, p: Path, low: nat, k: nat, fs: Files, fs': Files)
    requires IsLowest(snaps, chosen, p, low) && k < |snaps| && p in snaps[k] && snaps[low][p] != snaps[k][p]
    ensures !SameFile(RevertSome(snaps, {k}, fs'), RevertSome(snaps, chosen, fs), p)
  {
    PassLeavesEarliest(snaps, {k}, fs', p);
    PassLeavesEarliest(snaps, chosen, fs, p);
    assert IsLowest(snaps, {k}, p, k);
  }

  /** When two operations disagree about a path, letting one of them fail once
      makes the retry put its content back for good. */
  lemma RetryCanRegress(posts: seq<Post>, chosen: set<nat>, s: System, torn: set<Path>)
    returns (p: Path, lefts: seq<set<nat>>, states: seq<System>)
    requires !AgreeOnShared(posts, chosen, torn)
    ensures p !in torn && Retries(posts, chosen, lefts, states) && states[0] == s
    ensures !SameFile(states[|lefts|].files, UndoSome(posts, chosen, s).files, p)
  {
    var low, k;
    p, low, k := Disagreement(posts, chosen, torn);
    var s1 := UndoSome(posts, chosen - {k}, s);
    var s2 := UndoSome(posts, {k}, s1);
    UndisturbedPass(posts, chosen, {k}, s);
    UndisturbedPass(posts, {k}, {}, s1);
    assert {k} - {} == {k};
    TwoPasses(posts, chosen, {k}, s, s1, s2);
    LaterContentStays(Snaps(posts), chosen, p, low, k, s.files, s1.files);
    lefts, states := [{k}, {}], [s, s1, s2];
  }

  lemma UndisturbedPass(posts: seq<Post>, chosen: set<nat>, left: set<nat>, s: System)
    requires left <= chosen
    ensures Pass(posts, chosen, left, s, UndoSome(posts, chosen - left, s))
  {
    assert (chosen - left) + left == chosen;
    IdsOfBoth(posts, chosen - left, left);
    assert TablesAfter(posts, chosen, left, s, UndoSome(posts, chosen - left, s), IdsOf(posts, chosen - left));
  }

  lemma TwoPasses(posts: seq<Post>, chosen: set<nat>, left: set<nat>, s: System, s1: System, s2: System)
    requires Pass(posts, chosen, left, s, s1) && Pass(posts, left, {}, s1, s2)
    ensures Retries(posts, chosen, [left, {}], [s, s1, s2])
  {
    var none: set<nat> := {};
    assert [left, none][1..] == [none] && [s, s1, s2][1..] == [s1, s2];
    assert [none][1..] == [] && [s1, s2][1..] == [s2];
    assert Retries(posts, none, [], [s2]);
    assert Retries(posts, left, [none], [s1, s2]);
  }

  /** When an undisturbed rollback ends in `target`, the files in `torn` and the
      inbounds in `stray` apart, then so does retrying one, however often and
      whatever fails, if and only if no two operations recorded different contents
      for any other path. */
  lemma RetriesRestoreIff(posts: seq<Post>, chosen: set<nat>, s: System, target: System, torn: set<Path>, stray: set<nat>)
    requires SameExcept(UndoSome(posts, chosen, s), target, torn, stray)
    ensures RetriesReach(posts, chosen, s, target, torn, stray) <==> AgreeOnShared(posts, chosen, torn)
  {
    if AgreeOnShared(posts, chosen, torn) {
      forall lefts, states | Retries(posts, chosen, lefts, states) && states[0] == s
        ensures SameExcept(states[|lefts|], target, torn, stray)
      {
        NothingDone(posts, chosen, s, torn);
        RetriesEnd(posts, chosen, s, chosen, lefts, states, torn);
        SameTwice(states[|lefts|], UndoSome(posts, chosen, s), target, torn, stray);
      }
    } else {
      var p, lefts, states := RetryCanRegress(posts, chosen, s, torn);
      assert SameFile(UndoSome(posts, chosen, s).files, target.files, p);
      assert !SameFile(states[|lefts|].files, target.files, p);
    }
  }

  lemma NothingDone(posts: seq<Post>, chosen: set<nat>, s: System, torn: set<Path>)
    ensures Confined(posts, chosen, s, UndoSome(posts, chosen, s), torn, {})
  {
    NoPass(posts, chosen, s);
    PassConfines(posts, chosen, chosen, s, s);
  }
}
