/**
 Exporting the clients of an inbound in the 3x-ui format, reading them back, and
 syncing what was read into an inbound's client table.
 */
module ClientImport {
  import opened Wrappers
  import opened GoText
  import opened Csv

  /** What import carries of a client. */
  datatype Imported = Imported(email: string, uuid: string, enable: bool, up: int, down: int, total: int, expiry: int, remark: string)

  /** A row; `id` is its primary key. */
  datatype Client = Client(id: nat, data: Imported)

  datatype SettingsClient = SettingsClient(
    comment: string, email: string, enable: Option<bool>, expiry: Option<int>,
    id: string, password: string, total: Option<int>, totalGB: Option<int>, uuid: string)

  datatype Stat = Stat(enable: Option<bool>, email: string, uuid: string, up: int, down: int, expiry: int, total: int)

  predicate UsesPassword(protocol: string) { ToLower(TrimSpace(protocol)) in {"trojan", "hysteria2", "shadowsocks"} }

  // ---------- Export ----------

  function ExportClient(password: bool, c: Imported): SettingsClient {
    SettingsClient(c.remark, c.email, Some(c.enable), Some(c.expiry),
                   if password then "" else c.uuid, if password then c.uuid else "", None, Some(c.total), "")
  }

  function ExportStat(c: Imported): Stat { Stat(Some(c.enable), c.email, c.uuid, c.up, c.down, c.expiry, c.total) }

  function ExportClients(password: bool, cs: seq<Imported>): (out: seq<SettingsClient>)
    ensures |out| == |cs| && forall i :: 0 <= i < |cs| ==> out[i] == ExportClient(password, cs[i])
  {
    seq(|cs|, i requires 0 <= i < |cs| => ExportClient(password, cs[i]))
  }

  function ExportStats(cs: seq<Imported>): (out: seq<Stat>)
    ensures |out| == |cs| && forall i :: 0 <= i < |cs| ==> out[i] == ExportStat(cs[i])
  {
    seq(|cs|, i requires 0 <= i < |cs| => ExportStat(cs[i]))
  }

  // ---------- Reading ----------

  function FirstNonEmpty(a: string, b: string): string { if a != "" then a else b }

  /** Protocols that authenticate by password prefer it; ids come before uuids. */
  function Credential(password: bool, c: SettingsClient): string {
    var key := TrimSpace(c.password);
    var named := FirstNonEmpty(TrimSpace(c.id), FirstNonEmpty(TrimSpace(c.uuid), key));
    if password then FirstNonEmpty(key, named) else named
  }

  function Dashed(s: string): (t: string)
    ensures |t| == |s|
  {
    seq(|s|, i requires 0 <= i < |s| => if s[i] in {'@', ':', '/', '\\'} then '-' else s[i])
  }

  function DerivedEmail(credential: string): string {
    var c := TrimSpace(credential);
    if c == "" then "imported-client" else "imported-" + if |c| > 12 then Dashed(c)[..12] else Dashed(c)
  }

  /** The last statistics under a key win. */
  function StatByUuid(stats: seq<Stat>, uuid: string): Option<Stat> {
    if stats == [] then None
    else
      var n := |stats| - 1;
      var key := TrimSpace(stats[n].uuid);
      if key != "" && key == uuid then Some(stats[n]) else StatByUuid(stats[..n], uuid)
  }

  function StatByEmail(stats: seq<Stat>, email: string): Option<Stat> {
    if stats == [] then None
    else
      var n := |stats| - 1;
      var key := ToLower(TrimSpace(stats[n].email));
      if key != "" && key == email then Some(stats[n]) else StatByEmail(stats[..n], email)
  }

  function Merged(c: Imported, s: Stat): Imported {
    c.(up := s.up, down := s.down,
       total := if s.total > 0 || c.total == 0 then s.total else c.total,
       expiry := if s.expiry > 0 || c.expiry == 0 then s.expiry else c.expiry,
       enable := match s.enable case Some(e) => e case None => c.enable)
  }

  function OrElse<T>(o: Option<T>, d: T): T { match o case Some(v) => v case None => d }

  function ReadClient(c: SettingsClient, credential: string): Imported {
    var email := if TrimSpace(c.email) == "" then DerivedEmail(credential) else TrimSpace(c.email);
    Imported(email, credential, OrElse(c.enable, true), 0, 0,
             match c.total case Some(t) => t case None => OrElse(c.totalGB, 0), OrElse(c.expiry, 0), TrimSpace(c.comment))
  }

  function WithStats(c: Imported, stats: seq<Stat>): Imported {
    match StatByUuid(stats, c.uuid)
    case Some(s) => Merged(c, s)
    case None =>
      match StatByEmail(stats, ToLower(c.email))
      case Some(s) => Merged(c, s)
      case None => c
  }

  /** extractImportedInboundClients: clients without credential are skipped. */
  function Extract(password: bool, cs: seq<SettingsClient>, stats: seq<Stat>): seq<Imported> {
    if cs == [] then [] else ExtractOne(password, cs[0], stats) + Extract(password, cs[1..], stats)
  }

  function ExtractOne(password: bool, c: SettingsClient, stats: seq<Stat>): seq<Imported> {
    var credential := Credential(password, c);
    if credential == "" then [] else [WithStats(ReadClient(c, credential), stats)]
  }

  /** The statistics filed under their keys, as the loop over them files them. */
  ghost predicate Filed(byUuid: map<string, Stat>, byEmail: map<string, Stat>, stats: seq<Stat>) {
    && (forall k :: StatByUuid(stats, k) == if k in byUuid then Some(byUuid[k]) else None)
    && (forall k :: StatByEmail(stats, k) == if k in byEmail then Some(byEmail[k]) else None)
  }

  method FileStats(stats: seq<Stat>) returns (byUuid: map<string, Stat>, byEmail: map<string, Stat>)
    ensures Filed(byUuid, byEmail, stats)
  {
    byUuid, byEmail := map[], map[];
    for i := 0 to |stats|
      invariant Filed(byUuid, byEmail, stats[..i])
    {
      assert stats[..i + 1][..i] == stats[..i];
      var email, uuid := ToLower(TrimSpace(stats[i].email)), TrimSpace(stats[i].uuid);
      if email != "" {
        byEmail := byEmail[email := stats[i]];
      }
      if uuid != "" {
        byUuid := byUuid[uuid := stats[i]];
      }
    }
    assert stats[..|stats|] == stats;
  }

  method MergeStats(c: Imported, byUuid: map<string, Stat>, byEmail: map<string, Stat>, ghost stats: seq<Stat>) returns (entry: Imported)
    requires Filed(byUuid, byEmail, stats)
    ensures entry == WithStats(c, stats)
  {
    entry := c;
    var email := ToLower(c.email);
    if c.uuid in byUuid {
      entry := Merged(entry, byUuid[c.uuid]);
    } else if email in byEmail {
      entry := Merged(entry, byEmail[email]);
    }
  }

  method ExtractClient(password: bool, c: SettingsClient, byUuid: map<string, Stat>, byEmail: map<string, Stat>, ghost stats: seq<Stat>)
    returns (out: seq<Imported>)
    requires Filed(byUuid, byEmail, stats)
    ensures out == ExtractOne(password, c, stats)
  {
    var credential := Credential(password, c);
    if credential == "" {
      return [];
    }
    var entry := MergeStats(ReadClient(c, credential), byUuid, byEmail, stats);
    out := [entry];
  }

  ghost predicate Extracted(out: seq<Imported>, password: bool, cs: seq<SettingsClient>, i: nat, stats: seq<Stat>) {
    i <= |cs| && out + Extract(password, cs[i..], stats) == Extract(password, cs, stats)
  }

  lemma ExtractSplit(password: bool, cs: seq<SettingsClient>, stats: seq<Stat>, head: seq<Imported>, tail: seq<Imported>)
    requires cs != [] && ExtractOne(password, cs[0], stats) == head && Extract(password, cs[1..], stats) == tail
    ensures Extract(password, cs, stats) == head + tail
  {
  }

  lemma Regroup(a: seq<Imported>, b: seq<Imported>, c: seq<Imported>)
    ensures a + b + c == a + (b + c)
  {
  }

  lemma ExtractStep(out: seq<Imported>, one: seq<Imported>, password: bool, cs: seq<SettingsClient>, i: nat, stats: seq<Stat>)
    requires i < |cs| && Extracted(out, password, cs, i, stats) && one == ExtractOne(password, cs[i], stats)
    ensures Extracted(out + one, password, cs, i + 1, stats)
  {
    var tail := Extract(password, cs[i + 1..], stats);
    assert cs[i..][1..] == cs[i + 1..];
    ExtractSplit(password, cs[i..], stats, one, tail);
    Regroup(out, one, tail);
  }

  method ExtractImportedClients(password: bool, cs: seq<SettingsClient>, stats: seq<Stat>) returns (out: seq<Imported>)
    ensures out == Extract(password, cs, stats)
  {
    var byUuid, byEmail := FileStats(stats);
    out := [];
    assert cs[0..] == cs;
    for i := 0 to |cs|
      invariant Extracted(out, password, cs, i, stats)
    {
      var one := ExtractClient(password, cs[i], byUuid, byEmail, stats);
      ExtractStep(out, one, password, cs, i, stats);
      out := out + one;
    }
  }

  predicate Trimmed(s: string) { s != "" && TrimSpace(s) == s }

  /** Clients as the panel keeps them: trimmed, no two with a name in common. */
  predicate Clean(cs: seq<Imported>) {
    && (forall c <- cs :: Trimmed(c.uuid) && Trimmed(c.email) && TrimSpace(c.remark) == c.remark)
    && forall i, j :: 0 <= i < j < |cs| ==> cs[i].uuid != cs[j].uuid && cs[i].email != cs[j].email
  }

  /** The last statistics under a key are found. */
  lemma {:induction false} LastStat(stats: seq<Stat>, i: nat, uuid: string)
    requires i < |stats| && uuid != "" && TrimSpace(stats[i].uuid) == uuid
    requires forall j :: i < j < |stats| ==> TrimSpace(stats[j].uuid) != uuid
    ensures StatByUuid(stats, uuid) == Some(stats[i])
  {
    var n := |stats| - 1;
    if i < n {
      LastStat(stats[..n], i, uuid);
    }
  }

  lemma OwnStat(cs: seq<Imported>, i: nat)
    requires Clean(cs) && i < |cs|
    ensures StatByUuid(ExportStats(cs), cs[i].uuid) == Some(ExportStat(cs[i]))
  {
    var stats, uuid := ExportStats(cs), cs[i].uuid;
    assert cs[i] in cs;
    forall j | i < j < |stats| ensures TrimSpace(stats[j].uuid) != uuid {
      assert cs[j] in cs;
    }
    LastStat(stats, i, uuid);
  }

  lemma ReadExported(password: bool, c: Imported)
    requires Trimmed(c.uuid) && Trimmed(c.email) && TrimSpace(c.remark) == c.remark
    ensures Credential(password, ExportClient(password, c)) == c.uuid
    ensures ReadClient(ExportClient(password, c), c.uuid) == c.(up := 0, down := 0)
  {
    assert TrimSpace("") == "";
  }

  lemma MergeExported(c: Imported)
    ensures Merged(c.(up := 0, down := 0), ExportStat(c)) == c
  {
  }

  /** Each client of the payload is read as one of the given clients. */
  ghost predicate Reads(password: bool, out: seq<SettingsClient>, stats: seq<Stat>, cs: seq<Imported>) {
    |out| == |cs| && forall i :: 0 <= i < |cs| ==> ExtractOne(password, out[i], stats) == [cs[i]]
  }

  lemma ReadsRest(password: bool, out: seq<SettingsClient>, stats: seq<Stat>, cs: seq<Imported>)
    requires Reads(password, out, stats, cs) && out != []
    ensures Reads(password, out[1..], stats, cs[1..]) && ExtractOne(password, out[0], stats) == [cs[0]]
  {
    forall i | 0 <= i < |cs| - 1 ensures ExtractOne(password, out[1..][i], stats) == [cs[1..][i]] {
      assert out[1..][i] == out[i + 1] && cs[1..][i] == cs[i + 1];
    }
  }

  lemma {:induction false} ExtractReads(password: bool, out: seq<SettingsClient>, stats: seq<Stat>, cs: seq<Imported>)
    requires Reads(password, out, stats, cs)
    ensures Extract(password, out, stats) == cs
  {
    if out != [] {
      ReadsRest(password, out, stats, cs);
      ExtractReads(password, out[1..], stats, cs[1..]);
      ExtractSplit(password, out, stats, [cs[0]], cs[1..]);
      assert [cs[0]] + cs[1..] == cs;
    }
  }

  lemma OneExported(password: bool, cs: seq<Imported>, i: nat, exported: SettingsClient)
    requires Clean(cs) && i < |cs| && exported == ExportClient(password, cs[i])
    ensures ExtractOne(password, exported, ExportStats(cs)) == [cs[i]]
  {
    assert cs[i] in cs;
    ReadExported(password, cs[i]);
    OwnStat(cs, i);
    MergeExported(cs[i]);
  }

  /** What is exported is read back, counters, limits and flags included. */
  lemma ExportRoundTrip(protocol: string, cs: seq<Imported>)
    requires Clean(cs)
    ensures var password := UsesPassword(protocol);
            Extract(password, ExportClients(password, cs), ExportStats(cs)) == cs
  {
    var password := UsesPassword(protocol);
    var out, stats := ExportClients(password, cs), ExportStats(cs);
    forall i | 0 <= i < |cs| ensures ExtractOne(password, out[i], stats) == [cs[i]] {
      OneExported(password, cs, i, out[i]);
    }
    ExtractReads(password, out, stats, cs);
  }

  /** The name made up for a client without email is the start of its credential,
      with dashes for what an email or a path could trip over. */
  lemma DerivedEmailIsPlain(credential: string)
    ensures var e, c := DerivedEmail(credential), TrimSpace(credential);
            && "imported-" <= e && |e| == 9 + (if c == "" then 6 else if |c| < 12 then |c| else 12)
            && (forall i :: 9 <= i < |e| && c != "" ==> e[i] == c[i - 9] || (e[i] == '-' && c[i - 9] in {'@', ':', '/', '\\'}))
            && forall x <- e :: x !in {'@', ':', '/', '\\'}
  {
  }

  /** What becomes of a client of the settings: its credential, and its own
      settings except where its statistics say more.  They are found by credential
      or else by email, always give the counters, and give limit and end unless
      they have none and the client has one. */
  lemma ImportedFields(password: bool, c: SettingsClient, stats: seq<Stat>, o: Imported)
    requires ExtractOne(password, c, stats) == [o]
    ensures o.uuid == if password && TrimSpace(c.password) != "" then TrimSpace(c.password)
                      else if TrimSpace(c.id) != "" then TrimSpace(c.id)
                      else if TrimSpace(c.uuid) != "" then TrimSpace(c.uuid) else TrimSpace(c.password)
    ensures o.uuid != "" && o.remark == TrimSpace(c.comment)
    ensures o.email == if TrimSpace(c.email) != "" then TrimSpace(c.email) else DerivedEmail(o.uuid)
    ensures var own := if c.total.Some? then c.total.value else if c.totalGB.Some? then c.totalGB.value else 0;
            var end := if c.expiry.Some? then c.expiry.value else 0;
            var byUuid, byEmail := StatByUuid(stats, o.uuid), StatByEmail(stats, ToLower(o.email));
            match if byUuid.Some? then byUuid else byEmail
            case None => o.up == o.down == 0 && o.total == own && o.expiry == end && (o.enable <==> c.enable != Some(false))
            case Some(s) =>
              && o.up == s.up && o.down == s.down
              && o.total == (if s.total <= 0 && own != 0 then own else s.total)
              && o.expiry == (if s.expiry <= 0 && end != 0 then end else s.expiry)
              && (o.enable <==> if s.enable.Some? then s.enable.value else c.enable != Some(false))
  {
    hide TrimSpace, ToLower, DerivedEmail, StatByUuid, StatByEmail;
  }

  /** Only clients without any credential are skipped. */
  lemma SkippedIff(password: bool, c: SettingsClient, stats: seq<Stat>)
    ensures ExtractOne(password, c, stats) == [] <==> TrimSpace(c.password) == TrimSpace(c.id) == TrimSpace(c.uuid) == ""
  {
  }

  // ---------- The client table of an inbound ----------

  type Table = seq<Client>

  /** Ascending primary keys, and the unique index on the email. */
  predicate Indexed(t: Table) {
    && (forall i :: 0 <= i < |t| ==> t[i].id > 0)
    && forall i, j :: 0 <= i < j < |t| ==> t[i].id < t[j].id && t[i].data.email != t[j].data.email
  }

  function FindUuid(t: Table, uuid: string): (r: Option<nat>)
    ensures r.Some? ==> r.value < |t| && t[r.value].data.uuid == uuid && forall i :: 0 <= i < r.value ==> t[i].data.uuid != uuid
    ensures r.None? ==> forall i :: 0 <= i < |t| ==> t[i].data.uuid != uuid
  {
    if t == [] then None
    else if t[0].data.uuid == uuid then Some(0)
    else match FindUuid(t[1..], uuid) case None => None case Some(i) => Some(i + 1)
  }

  function FindEmail(t: Table, email: string): (r: Option<nat>)
    ensures r.Some? ==> r.value < |t| && t[r.value].data.email == email && forall i :: 0 <= i < r.value ==> t[i].data.email != email
    ensures r.None? ==> forall i :: 0 <= i < |t| ==> t[i].data.email != email
  {
    if t == [] then None
    else if t[0].data.email == email then Some(0)
    else match FindEmail(t[1..], email) case None => None case Some(i) => Some(i + 1)
  }

  /** The row an imported client belongs to: by credential, else by email. */
  function Find(t: Table, c: Imported): (r: Option<nat>)
    ensures r.Some? ==> r.value < |t|
  {
    if c.uuid != "" && FindUuid(t, c.uuid).Some? then FindUuid(t, c.uuid)
    else if c.email != "" then FindEmail(t, c.email)
    else None
  }

  /** That is the first row with the credential; only if no row has it, or the
      client has none, the first row with the email, if the client has one. */
  lemma FindIs(t: Table, c: Imported, i: nat)
    requires i < |t|
    ensures var known := c.uuid != "" && exists j :: 0 <= j < |t| && t[j].data.uuid == c.uuid;
            Find(t, c) == Some(i) <==>
            if known then t[i].data.uuid == c.uuid && forall j :: 0 <= j < i ==> t[j].data.uuid != c.uuid
            else c.email != "" && t[i].data.email == c.email && forall j :: 0 <= j < i ==> t[j].data.email != c.email
  {
  }

  // ---------- Unique emails ----------

  function Candidate(base: string, k: nat): string {
    if k == 0 then base else base + "-" + Itoa(k + 1)
  }

  lemma CandidatesDiffer(base: string, j: nat, k: nat)
    requires j < k
    ensures Candidate(base, j) != Candidate(base, k)
  {
    if j > 0 && Candidate(base, j) == Candidate(base, k) {
      var prefix := base + "-";
      assert (prefix + Itoa(j + 1))[|prefix|..] == Itoa(j + 1) && (prefix + Itoa(k + 1))[|prefix|..] == Itoa(k + 1);
      AtoiItoa(j + 1);
      AtoiItoa(k + 1);
    }
  }

  function Emails(t: Table): set<string> { set c <- t :: c.data.email }

  /** Nobody else has the email. */
  predicate Free(t: Table, email: string, id: nat) {
    match FindEmail(t, email) case None => true case Some(i) => t[i].id == id
  }

  /** The first free candidate; every taken one uses up an email of the table. */
  function UniqueFrom(t: Table, base: string, id: nat, k: nat, left: set<string>): (email: string)
    requires forall j: nat :: j >= k && Candidate(base, j) in Emails(t) ==> Candidate(base, j) in left
    ensures Free(t, email, id)
    decreases left
  {
    var c := Candidate(base, k);
    if Free(t, c, id) then c
    else
      Taken(t, base, id, k, left);
      UniqueFrom(t, base, id, k + 1, left - {c})
  }

  lemma Taken(t: Table, base: string, id: nat, k: nat, left: set<string>)
    requires forall j: nat :: j >= k && Candidate(base, j) in Emails(t) ==> Candidate(base, j) in left
    requires !Free(t, Candidate(base, k), id)
    ensures Candidate(base, k) in left
    ensures forall j: nat :: j >= k + 1 && Candidate(base, j) in Emails(t) ==> Candidate(base, j) in left - {Candidate(base, k)}
  {
    var i := FindEmail(t, Candidate(base, k)).value;
    assert t[i] in t;
    forall j: nat | j >= k + 1 && Candidate(base, j) in Emails(t) ensures Candidate(base, j) in left - {Candidate(base, k)} {
      CandidatesDiffer(base, k, j);
    }
  }

  function UniqueEmail(t: Table, preferred: string, id: nat): (email: string)
    ensures Free(t, email, id)
  {
    var base := if TrimSpace(preferred) == "" then "imported-client" else TrimSpace(preferred);
    UniqueFrom(t, base, id, 0, Emails(t))
  }

  lemma OwnEmailStays(t: Table, email: string, id: nat)
    requires Trimmed(email) && Free(t, email, id)
    ensures UniqueEmail(t, email, id) == email
  {
  }

  // ---------- Sync ----------

  function NextId(t: Table): nat { if t == [] then 1 else t[|t| - 1].id + 1 }

  /** One step of syncImportedInboundClients: the row is updated or created. */
  function SyncOne(t: Table, c: Imported): Table {
    match Find(t, c)
    case None => t + [Client(NextId(t), c.(email := UniqueEmail(t, c.email, 0)))]
    case Some(i) => t[i := Client(t[i].id, c.(email := UniqueEmail(t, c.email, t[i].id)))]
  }

  function SyncAll(t: Table, cs: seq<Imported>): Table
    decreases |cs|
  {
    if cs == [] then t else SyncAll(SyncOne(t, cs[0]), cs[1..])
  }

  /** No sync ever runs into the unique index, whatever the payload. */
  lemma {:induction false} SyncOneIndexed(t: Table, c: Imported)
    requires Indexed(t)
    ensures Indexed(SyncOne(t, c))
  {
    match Find(t, c) {
      case None =>
        var email := UniqueEmail(t, c.email, 0);
        assert FindEmail(t, email).None?;
      case Some(i) =>
        var email := UniqueEmail(t, c.email, t[i].id);
        assert forall j :: 0 <= j < |t| && t[j].data.email == email ==> FindEmail(t, email) == Some(j);
    }
  }

  lemma {:induction false} SyncKeepsIndex(t: Table, cs: seq<Imported>)
    requires Indexed(t)
    ensures Indexed(SyncAll(t, cs))
    decreases |cs|
  {
    if cs != [] {
      SyncOneIndexed(t, cs[0]);
      SyncKeepsIndex(SyncOne(t, cs[0]), cs[1..]);
    }
  }

  function DataOf(t: Table): (ds: seq<Imported>)
    ensures |ds| == |t| && forall i :: 0 <= i < |t| ==> ds[i] == t[i].data
  {
    seq(|t|, i requires 0 <= i < |t| => t[i].data)
  }

  /** Clients the table knows nothing of are appended as they are. */
  lemma {:induction false} SyncNew(t: Table, cs: seq<Imported>)
    requires Clean(DataOf(t) + cs)
    ensures DataOf(SyncAll(t, cs)) == DataOf(t) + cs
    decreases |cs|
  {
    if cs == [] {
      assert DataOf(t) + cs == DataOf(t);
    } else {
      var c, all := cs[0], DataOf(t) + cs;
      assert all[|t|] == c && c in all;
      forall i | 0 <= i < |t| ensures t[i].data.uuid != c.uuid && t[i].data.email != c.email {
        assert all[i] == t[i].data;
      }
      OwnEmailStays(t, c.email, 0);
      var more := SyncOne(t, c);
      assert more == t + [Client(NextId(t), c)];
      assert DataOf(more) + cs[1..] == all;
      SyncNew(more, cs[1..]);
    }
  }

  /** Importing an export into an empty inbound recreates every client, in order. */
  lemma ImportRecreates(protocol: string, cs: seq<Imported>)
    requires Clean(cs)
    ensures var password := UsesPassword(protocol);
            var t := SyncAll([], Extract(password, ExportClients(password, cs), ExportStats(cs)));
            DataOf(t) == cs && Indexed(t)
  {
    ExportRoundTrip(protocol, cs);
    assert DataOf([]) + cs == cs;
    SyncNew([], cs);
    SyncKeepsIndex([], cs);
  }

  /** A client already in the table as it is to be. */
  predicate Present(t: Table, c: Imported) { exists i :: 0 <= i < |t| && t[i].data == c }

  lemma OnlyRow(t: Table, i: nat, c: Imported)
    requires Indexed(t) && i < |t| && t[i].data == c && c.uuid != ""
    requires forall j :: 0 <= j < |t| && j != i ==> t[j].data.uuid != c.uuid
    ensures Find(t, c) == Some(i) && FindEmail(t, c.email) == Some(i)
  {
    assert FindUuid(t, c.uuid).Some? && FindEmail(t, c.email).Some?;
  }

  lemma SyncOnePresent(t: Table, c: Imported)
    requires Indexed(t) && Clean(DataOf(t)) && Present(t, c)
    ensures SyncOne(t, c) == t
  {
    var i :| 0 <= i < |t| && t[i].data == c;
    var ds := DataOf(t);
    assert ds[i] in ds && Trimmed(c.uuid) && Trimmed(c.email);
    forall j | 0 <= j < |t| && j != i ensures t[j].data.uuid != c.uuid {
      assert ds[if i < j then i else j].uuid != ds[if i < j then j else i].uuid;
    }
    OnlyRow(t, i, c);
    RowStays(t, i, c);
  }

  lemma RowStays(t: Table, i: nat, c: Imported)
    requires i < |t| && t[i].data == c && Trimmed(c.email) && Find(t, c) == Some(i) && FindEmail(t, c.email) == Some(i)
    ensures SyncOne(t, c) == t
  {
    OwnEmailStays(t, c.email, t[i].id);
  }

  lemma {:induction false} SyncPresent(t: Table, cs: seq<Imported>)
    requires Indexed(t) && Clean(DataOf(t)) && forall c <- cs :: Present(t, c)
    ensures SyncAll(t, cs) == t
    decreases |cs|
  {
    if cs != [] {
      assert cs[0] in cs;
      SyncOnePresent(t, cs[0]);
      SyncPresent(t, cs[1..]);
    }
  }

  /** Syncing the same payload again changes nothing. */
  lemma ImportTwice(protocol: string, cs: seq<Imported>)
    requires Clean(cs)
    ensures var password := UsesPassword(protocol);
            var payload := Extract(password, ExportClients(password, cs), ExportStats(cs));
            SyncAll(SyncAll([], payload), payload) == SyncAll([], payload)
  {
    ExportRoundTrip(protocol, cs);
    ImportRecreates(protocol, cs);
    var t := SyncAll([], cs);
    forall c | c in cs ensures Present(t, c) {
      var i :| 0 <= i < |cs| && cs[i] == c;
      assert DataOf(t)[i] == t[i].data;
    }
    SyncPresent(t, cs);
  }

  /** The transaction around the sync: a failed statement undoes it. */
  class ClientTable {
    var rows: Table

    constructor (rows: Table)
      ensures this.rows == rows
    {
      this.rows := rows;
    }

    method EnsureUniqueEmail(preferred: string, id: nat) returns (email: string)
      ensures email == UniqueEmail(rows, preferred, id)
    {
      var base := TrimSpace(preferred);
      if base == "" {
        base := "imported-client";
      }
      email := base;
      var suffix := 1;
      ghost var left := Emails(rows);
      while !Free(rows, email, id)
        invariant suffix >= 1 && email == Candidate(base, suffix - 1)
        invariant forall j: nat :: j >= suffix - 1 && Candidate(base, j) in Emails(rows) ==> Candidate(base, j) in left
        invariant UniqueFrom(rows, base, id, suffix - 1, left) == UniqueEmail(rows, preferred, id)
        decreases left
      {
        Taken(rows, base, id, suffix - 1, left);
        left := left - {email};
        email := base + "-" + Itoa(suffix + 1);
        suffix := suffix + 1;
      }
    }

    /** `calm` says that no statement fails. */
    method Sync(cs: seq<Imported>, calm: bool) returns (ok: bool)
      modifies this
      ensures calm ==> ok
      ensures rows == if ok then SyncAll(old(rows), cs) else old(rows)
    {
      var before := rows;
      for k := 0 to |cs|
        invariant SyncAll(rows, cs[k..]) == SyncAll(old(rows), cs)
      {
        assert cs[k..][1..] == cs[k + 1..];
        var done := Try(calm);
        if !done {
          rows := before;
          return false;
        }
        var at := Find(rows, cs[k]);
        var email := EnsureUniqueEmail(cs[k].email, if at.Some? then rows[at.value].id else 0);
        if at.None? {
          rows := rows + [Client(NextId(rows), cs[k].(email := email))];
        } else {
          rows := rows[at.value := Client(rows[at.value].id, cs[k].(email := email))];
        }
      }
      ok := true;
    }
  }
}
