/**
 Canonical routing rules: normal form, signature, and removal of duplicates
 without changing any routing decision.
 */
module RoutingRules {
  import opened Wrappers
  import opened GoText
  import opened Csv

  datatype Rule = Rule(tag: string, domain: string, ip: string, port: string, outbound: string)

  function LowerAll(ts: seq<string>): (r: seq<string>)
    ensures |r| == |ts| && forall i :: 0 <= i < |ts| ==> r[i] == ToLower(ts[i])
  {
    seq(|ts|, i requires 0 <= i < |ts| => ToLower(ts[i]))
  }

  /** The first token of each spelling, case ignored. */
  function Distinct(ts: seq<string>, seen: set<string>): seq<string> {
    if ts == [] then []
    else if ToLower(ts[0]) in seen then Distinct(ts[1..], seen)
    else [ts[0]] + Distinct(ts[1..], seen + {ToLower(ts[0])})
  }

  function Insert(t: string, ts: seq<string>): seq<string> {
    if ts == [] || Less(ToLower(t), ToLower(ts[0])) then [t] + ts else [ts[0]] + Insert(t, ts[1..])
  }

  /** Sorting by lower-cased spelling. */
  function Sort(ts: seq<string>): seq<string> {
    if ts == [] then [] else Insert(ts[0], Sort(ts[1..]))
  }

  function NormalTokens(raw: string): seq<string> { Sort(Distinct(SplitCsv(raw), {})) }

  function NormalizeCsv(raw: string): string { Join(NormalTokens(raw), ',') }

  function Normalize(r: Rule): Rule {
    Rule(TrimSpace(r.tag), NormalizeCsv(r.domain), NormalizeCsv(r.ip), NormalizeCsv(r.port), TrimSpace(r.outbound))
  }

  function Signature(r: Rule): string {
    var n := Normalize(r);
    ToLower(Join([n.domain, n.ip, n.port, n.outbound], '|'))
  }

  /** The names a field lists, case ignored. */
  function Names(ts: seq<string>): set<string> { set t <- ts :: ToLower(t) }

  function Keys(raw: string): set<string> { Names(SplitCsv(raw)) }

  // ---------- Order ----------

  lemma {:induction false} LessTotal(a: string, b: string)
    ensures !(Less(a, b) && Less(b, a)) && (a == b ==> !Less(a, b)) && (a != b ==> Less(a, b) || Less(b, a))
  {
    if a != "" && b != "" {
      LessTotal(a[1..], b[1..]);
      assert a == [a[0]] + a[1..] && b == [b[0]] + b[1..];
    }
  }

  lemma {:induction false} LessTransitive(a: string, b: string, c: string)
    requires Less(a, b) && Less(b, c)
    ensures Less(a, c)
  {
    if a != "" && a[0] == b[0] == c[0] {
      LessTransitive(a[1..], b[1..], c[1..]);
    }
  }

  predicate Ascending(ks: seq<string>) {
    forall i, j :: 0 <= i < j < |ks| ==> Less(ks[i], ks[j])
  }

  /** A strictly ascending list is determined by its elements. */
  lemma {:induction false} AscendingIsCanonical(a: seq<string>, b: seq<string>)
    requires Ascending(a) && Ascending(b) && forall k :: k in a <==> k in b
    ensures a == b
  {
    if a == [] || b == [] {
      if b != [] {
        HasElement(b);
      }
      if a != [] {
        HasElement(a);
      }
    } else {
      assert a[0] == b[0] by { SameLeast(a, b); }
      forall k ensures k in a[1..] <==> k in b[1..] {
        LessTotal(a[0], a[0]);
        assert k in a <==> k == a[0] || k in a[1..];
        assert k in b <==> k == b[0] || k in b[1..];
      }
      AscendingIsCanonical(a[1..], b[1..]);
      assert a == [a[0]] + a[1..] && b == [b[0]] + b[1..];
    }
  }

  lemma HasElement(ks: seq<string>)
    requires ks != []
    ensures exists k :: k in ks
  {
    assert ks[0] in ks;
  }

  lemma SameLeast(a: seq<string>, b: seq<string>)
    requires a != [] && b != [] && Ascending(a) && Ascending(b) && forall k :: k in a <==> k in b
    ensures a[0] == b[0]
  {
    assert a[0] in b && b[0] in a;
    var i, j :| 0 <= i < |b| && b[i] == a[0] && 0 <= j < |a| && a[j] == b[0];
    if a[0] != b[0] {
      LessTotal(a[0], b[0]);
    }
  }

  // ---------- Normal form ----------

  lemma {:induction false} InsertElements(t: string, ts: seq<string>)
    ensures forall x :: x in Insert(t, ts) <==> x == t || x in ts
  {
    if ts != [] && !Less(ToLower(t), ToLower(ts[0])) {
      InsertElements(t, ts[1..]);
    }
  }

  /** What is inserted or behind the head comes after the head. */
  lemma AfterHead(t: string, ts: seq<string>, x: string)
    requires ts != [] && Ascending(LowerAll(ts)) && Less(ToLower(ts[0]), ToLower(t)) && (x == t || x in ts[1..])
    ensures Less(ToLower(ts[0]), ToLower(x))
  {
    if x != t {
      var i :| 0 <= i < |ts[1..]| && ts[1..][i] == x;
      assert LowerAll(ts)[i + 1] == ToLower(x);
    }
  }

  lemma {:induction false} InsertSorted(t: string, ts: seq<string>)
    requires Ascending(LowerAll(ts)) && ToLower(t) !in LowerAll(ts)
    ensures Ascending(LowerAll(Insert(t, ts)))
  {
    var r := Insert(t, ts);
    if ts == [] {
    } else if Less(ToLower(t), ToLower(ts[0])) {
      forall j | 1 <= j < |ts| ensures Less(ToLower(t), LowerAll(ts)[j]) {
        LessTransitive(ToLower(t), LowerAll(ts)[0], LowerAll(ts)[j]);
      }
    } else {
      var rest := Insert(t, ts[1..]);
      assert LowerAll(ts)[1..] == LowerAll(ts[1..]) && LowerAll(ts)[0] in LowerAll(ts);
      LessTotal(ToLower(t), ToLower(ts[0]));
      InsertSorted(t, ts[1..]);
      InsertElements(t, ts[1..]);
      forall j | 1 <= j < |r| ensures Less(ToLower(r[0]), ToLower(r[j])) {
        assert r[j] == rest[j - 1] && rest[j - 1] in rest;
        AfterHead(t, ts, r[j]);
      }
      HeadThenAscending(r);
    }
  }

  lemma HeadThenAscending(r: seq<string>)
    requires r != [] && Ascending(LowerAll(r[1..])) && forall j :: 1 <= j < |r| ==> Less(ToLower(r[0]), ToLower(r[j]))
    ensures Ascending(LowerAll(r))
  {
    assert LowerAll(r)[1..] == LowerAll(r[1..]);
    forall i, j | 0 <= i < j < |r| ensures Less(LowerAll(r)[i], LowerAll(r)[j]) {
      if i > 0 {
        assert LowerAll(r)[i] == LowerAll(r[1..])[i - 1] && LowerAll(r)[j] == LowerAll(r[1..])[j - 1];
      }
    }
  }

  predicate NoRepeats(ks: seq<string>) { forall i, j :: 0 <= i < j < |ks| ==> ks[i] != ks[j] }

  lemma {:induction false} SortSorts(ts: seq<string>)
    requires NoRepeats(LowerAll(ts))
    ensures Ascending(LowerAll(Sort(ts))) && forall x :: x in Sort(ts) <==> x in ts
  {
    if ts != [] {
      assert LowerAll(ts)[1..] == LowerAll(ts[1..]);
      SortSorts(ts[1..]);
      var rest := Sort(ts[1..]);
      forall i | 0 <= i < |rest| ensures LowerAll(rest)[i] != ToLower(ts[0]) {
        assert rest[i] in ts[1..];
        var j :| 0 <= j < |ts[1..]| && ts[1..][j] == rest[i];
        assert LowerAll(ts)[j + 1] == ToLower(rest[i]);
      }
      InsertSorted(ts[0], rest);
      InsertElements(ts[0], rest);
    }
  }

  lemma {:induction false} DistinctElements(ts: seq<string>, seen: set<string>)
    ensures forall x <- Distinct(ts, seen) :: x in ts && ToLower(x) !in seen
  {
    if ts != [] {
      DistinctElements(ts[1..], if ToLower(ts[0]) in seen then seen else seen + {ToLower(ts[0])});
    }
  }

  lemma {:induction false} DistinctCovers(ts: seq<string>, seen: set<string>, x: string)
    requires x in ts
    ensures ToLower(x) in seen || ToLower(x) in LowerAll(Distinct(ts, seen))
  {
    var k := ToLower(ts[0]);
    var rest := Distinct(ts[1..], if k in seen then seen else seen + {k});
    if k !in seen {
      assert LowerAll([ts[0]] + rest) == [k] + LowerAll(rest);
    }
    if ToLower(x) != k {
      assert x in ts[1..];
      DistinctCovers(ts[1..], if k in seen then seen else seen + {k}, x);
    }
  }

  lemma {:induction false} DistinctHasNoRepeats(ts: seq<string>, seen: set<string>)
    ensures NoRepeats(LowerAll(Distinct(ts, seen)))
  {
    if ts != [] {
      var k := ToLower(ts[0]);
      if k in seen {
        DistinctHasNoRepeats(ts[1..], seen);
      } else {
        var rest := Distinct(ts[1..], seen + {k});
        DistinctHasNoRepeats(ts[1..], seen + {k});
        DistinctElements(ts[1..], seen + {k});
        assert LowerAll([ts[0]] + rest) == [k] + LowerAll(rest);
        forall j | 0 <= j < |rest| ensures LowerAll(rest)[j] != k {
          assert rest[j] in rest;
        }
      }
    }
  }

  lemma DistinctIs(ts: seq<string>, seen: set<string>)
    ensures var r := Distinct(ts, seen);
            && NoRepeats(LowerAll(r)) && (forall x <- r :: x in ts && ToLower(x) !in seen)
            && forall x <- ts :: ToLower(x) in seen || ToLower(x) in LowerAll(r)
  {
    DistinctHasNoRepeats(ts, seen);
    DistinctElements(ts, seen);
    forall x | x in ts ensures ToLower(x) in seen || ToLower(x) in LowerAll(Distinct(ts, seen)) {
      DistinctCovers(ts, seen, x);
    }
  }

  lemma NamesAre(ts: seq<string>)
    ensures forall k :: k in Names(ts) <==> k in LowerAll(ts)
  {
    forall k ensures k in Names(ts) <==> k in LowerAll(ts) {
      if k in Names(ts) {
        var t :| t in ts && ToLower(t) == k;
        var i :| 0 <= i < |ts| && ts[i] == t;
        assert LowerAll(ts)[i] == k;
      }
      if k in LowerAll(ts) {
        var i :| 0 <= i < |ts| && LowerAll(ts)[i] == k;
        assert ts[i] in ts;
      }
    }
  }

  lemma SameElements(ts: seq<string>, us: seq<string>)
    requires forall x :: x in ts <==> x in us
    ensures Names(ts) == Names(us)
  {
  }

  lemma DistinctNames(all: seq<string>)
    ensures Names(Distinct(all, {})) == Names(all)
  {
    var once := Distinct(all, {});
    DistinctIs(all, {});
    NamesAre(once);
    NamesAre(all);
    forall k ensures k in Names(once) <==> k in Names(all) {
      if k in Names(all) {
        var t :| t in all && ToLower(t) == k;
      }
    }
  }

  lemma NormalShape(raw: string)
    ensures var ts := NormalTokens(raw);
            && AllTokens(ts) && Ascending(LowerAll(ts)) && Names(ts) == Keys(raw) && (forall t <- ts :: t in SplitCsv(raw))
  {
    ShapeOf(SplitCsv(raw), Distinct(SplitCsv(raw), {}));
    SplitCsvTokens(raw);
    var ts := NormalTokens(raw);
    forall i | 0 <= i < |ts| ensures IsToken(ts[i]) {
      assert ts[i] in ts;
    }
  }

  lemma ShapeOf(all: seq<string>, once: seq<string>)
    requires once == Distinct(all, {})
    ensures var ts := Sort(once);
            Ascending(LowerAll(ts)) && Names(ts) == Names(all) && forall t <- ts :: t in all
  {
    DistinctIs(all, {});
    SortSorts(once);
    DistinctNames(all);
    SameElements(Sort(once), once);
  }

  lemma {:induction false} DistinctKeeps(ts: seq<string>, seen: set<string>)
    requires NoRepeats(LowerAll(ts)) && forall t <- ts :: ToLower(t) !in seen
    ensures Distinct(ts, seen) == ts
  {
    if ts != [] {
      assert ts[0] in ts && LowerAll(ts)[1..] == LowerAll(ts[1..]);
      forall t | t in ts[1..] ensures ToLower(t) !in seen + {ToLower(ts[0])} {
        var i :| 0 <= i < |ts[1..]| && ts[1..][i] == t;
        assert LowerAll(ts)[i + 1] != LowerAll(ts)[0];
      }
      DistinctKeeps(ts[1..], seen + {ToLower(ts[0])});
    }
  }

  lemma {:induction false} SortKeeps(ts: seq<string>)
    requires Ascending(LowerAll(ts))
    ensures Sort(ts) == ts
  {
    if ts != [] {
      assert LowerAll(ts)[1..] == LowerAll(ts[1..]);
      SortKeeps(ts[1..]);
      if |ts| > 1 {
        assert Less(LowerAll(ts)[0], LowerAll(ts)[1]);
      }
    }
  }

  lemma NormalTokensAgain(raw: string)
    ensures NormalTokens(NormalizeCsv(raw)) == NormalTokens(raw) && Keys(NormalizeCsv(raw)) == Keys(raw)
  {
    var ts := NormalTokens(raw);
    NormalShape(raw);
    SplitCsvJoin(ts);
    forall i, j | 0 <= i < j < |ts| ensures LowerAll(ts)[i] != LowerAll(ts)[j] {
      LessTotal(LowerAll(ts)[i], LowerAll(ts)[j]);
    }
    DistinctKeeps(ts, {});
    SortKeeps(ts);
  }

  /** Normalizing twice is normalizing once. */
  lemma NormalizeIdempotent(r: Rule)
    ensures NormalizeCsv(NormalizeCsv(r.domain)) == NormalizeCsv(r.domain)
    ensures Normalize(Normalize(r)) == Normalize(r) && Signature(Normalize(r)) == Signature(r)
  {
    NormalTokensAgain(r.domain);
    NormalTokensAgain(r.ip);
    NormalTokensAgain(r.port);
    TrimIdempotent(r.tag);
    TrimIdempotent(r.outbound);
  }

  lemma SameOrder(us: seq<string>, vs: seq<string>)
    requires Ascending(LowerAll(us)) && Ascending(LowerAll(vs)) && forall x :: x in us <==> x in vs
    ensures us == vs
  {
    NamesAre(us);
    NamesAre(vs);
    SameElements(us, vs);
    AscendingIsCanonical(LowerAll(us), LowerAll(vs));
    assert |us| == |LowerAll(us)| == |LowerAll(vs)| == |vs|;
    forall i | 0 <= i < |us| ensures us[i] == vs[i] {
      assert us[i] in vs;
      var j :| 0 <= j < |vs| && vs[j] == us[i];
      assert LowerAll(vs)[i] == LowerAll(vs)[j];
      LessTotal(LowerAll(vs)[i], LowerAll(vs)[i]);
    }
  }

  /** Any way of sorting distinct tokens gives the same list. */
  lemma SortIsUnique(ts: seq<string>, us: seq<string>)
    requires NoRepeats(LowerAll(ts)) && multiset(us) == multiset(ts) && Ascending(LowerAll(us))
    ensures us == Sort(ts)
  {
    SortSorts(ts);
    forall x ensures x in us <==> x in Sort(ts) {
      assert x in us <==> x in multiset(us);
      assert x in ts <==> x in multiset(ts);
    }
    SameOrder(us, Sort(ts));
  }

  // ---------- Signatures ----------

  lemma {:induction false} LowerJoin(ts: seq<string>, sep: char)
    requires !IsUpper(sep)
    ensures ToLower(Join(ts, sep)) == Join(LowerAll(ts), sep)
  {
    if |ts| > 1 {
      assert LowerAll(ts)[1..] == LowerAll(ts[1..]);
      LowerJoin(ts[1..], sep);
      LowerConcat(ts[0], sep, Join(ts[1..], sep));
    }
  }

  lemma LowerConcat(a: string, sep: char, b: string)
    requires !IsUpper(sep)
    ensures ToLower(a + [sep] + b) == ToLower(a) + [sep] + ToLower(b)
  {
  }

  lemma LowerHas(s: string, c: char)
    requires !IsUpper(c) && !IsLower(c)
    ensures c in ToLower(s) <==> c in s
  {
    if c in s {
      var i :| 0 <= i < |s| && s[i] == c;
      assert ToLower(s)[i] == c;
    }
  }

  lemma JoinNotEmpty(ts: seq<string>, sep: char)
    requires ts != [] && forall t <- ts :: t != ""
    ensures Join(ts, sep) != ""
  {
    assert ts[0] in ts;
  }

  lemma JoinInjective(a: seq<string>, b: seq<string>, sep: char)
    requires Join(a, sep) == Join(b, sep)
    requires forall t <- a :: t != "" && sep !in t
    requires forall t <- b :: t != "" && sep !in t
    ensures a == b
  {
    if a != [] && b != [] {
      SplitJoin(a, sep);
      SplitJoin(b, sep);
    } else if a != [] {
      JoinNotEmpty(a, sep);
    } else if b != [] {
      JoinNotEmpty(b, sep);
    }
  }

  lemma LowerTokens(ts: seq<string>)
    requires AllTokens(ts)
    ensures forall t <- LowerAll(ts) :: t != "" && ',' !in t
  {
    forall i | 0 <= i < |ts| ensures LowerAll(ts)[i] != "" && ',' !in LowerAll(ts)[i] {
      LowerHas(ts[i], ',');
    }
  }

  /** A field's part of the signature says exactly which names it lists. */
  lemma FieldSignature(a: string, b: string)
    ensures ToLower(NormalizeCsv(a)) == ToLower(NormalizeCsv(b)) <==> Keys(a) == Keys(b)
  {
    var s, t := NormalTokens(a), NormalTokens(b);
    NormalShape(a);
    NormalShape(b);
    LowerJoin(s, ',');
    LowerJoin(t, ',');
    NamesAre(s);
    NamesAre(t);
    if Keys(a) == Keys(b) {
      AscendingIsCanonical(LowerAll(s), LowerAll(t));
    }
    if ToLower(NormalizeCsv(a)) == ToLower(NormalizeCsv(b)) {
      LowerTokens(s);
      LowerTokens(t);
      JoinInjective(LowerAll(s), LowerAll(t), ',');
      assert Names(s) == Names(t);
    }
  }

  /** No field contains the separator of the signature. */
  predicate BarFree(r: Rule) { '|' !in r.domain && '|' !in r.ip && '|' !in r.port && '|' !in r.outbound }

  lemma {:induction false} JoinHas(ts: seq<string>, c: char)
    requires c != ',' && forall t <- ts :: c !in t
    ensures c !in Join(ts, ',')
  {
    if |ts| > 1 {
      JoinHas(ts[1..], c);
    }
  }

  lemma {:induction false} SplitHas(s: string, c: char)
    requires c !in s
    ensures forall t <- Split(s, ',') :: c !in t
    decreases |s|
  {
    var (first, rest, more) := Cut(s, ',');
    if more {
      assert forall x <- rest :: x in first + [','] + rest;
      SplitHas(rest, c);
    }
  }

  lemma {:induction false} TrimAllHas(parts: seq<string>, c: char)
    requires forall t <- parts :: c !in t
    ensures forall t <- TrimAll(parts) :: c !in t
  {
    if parts != [] {
      TrimIdempotent(parts[0]);
      TrimAllHas(parts[1..], c);
    }
  }

  lemma NormalizeHas(raw: string, c: char)
    requires c != ',' && c !in raw
    ensures c !in NormalizeCsv(raw)
  {
    SplitHas(raw, c);
    TrimAllHas(Split(raw, ','), c);
    NormalShape(raw);
    JoinHas(NormalTokens(raw), c);
  }

  function Parts(r: Rule): seq<string> {
    var n := Normalize(r);
    [ToLower(n.domain), ToLower(n.ip), ToLower(n.port), ToLower(n.outbound)]
  }

  lemma LowerFour(a: string, b: string, c: string, d: string)
    ensures ToLower(Join([a, b, c, d], '|')) == Join([ToLower(a), ToLower(b), ToLower(c), ToLower(d)], '|')
  {
    LowerJoin([a, b, c, d], '|');
    assert LowerAll([a, b, c, d]) == [ToLower(a), ToLower(b), ToLower(c), ToLower(d)];
  }

  lemma SignatureJoins(r: Rule)
    ensures Signature(r) == Join(Parts(r), '|')
  {
    var n := Normalize(r);
    LowerFour(n.domain, n.ip, n.port, n.outbound);
  }

  lemma PartsBarFree(r: Rule)
    requires BarFree(r)
    ensures forall i :: 0 <= i < 4 ==> '|' !in Parts(r)[i]
  {
    var n := Normalize(r);
    NormalizeHas(r.domain, '|');
    NormalizeHas(r.ip, '|');
    NormalizeHas(r.port, '|');
    TrimIdempotent(r.outbound);
    LowerHas(n.domain, '|');
    LowerHas(n.ip, '|');
    LowerHas(n.port, '|');
    LowerHas(n.outbound, '|');
  }

  /** Same names in every field and the same outbound, case ignored. */
  predicate Agree(a: Rule, b: Rule) {
    && Keys(a.domain) == Keys(b.domain) && Keys(a.ip) == Keys(b.ip) && Keys(a.port) == Keys(b.port)
    && ToLower(TrimSpace(a.outbound)) == ToLower(TrimSpace(b.outbound))
  }

  /** Rules that agree always share a signature. */
  lemma AgreeingSignatures(a: Rule, b: Rule)
    requires Agree(a, b)
    ensures Signature(a) == Signature(b)
  {
    SignatureJoins(a);
    SignatureJoins(b);
    FieldSignature(a.domain, b.domain);
    FieldSignature(a.ip, b.ip);
    FieldSignature(a.port, b.port);
  }

  function Bars(s: string): nat { if s == "" then 0 else (if s[0] == '|' then 1 else 0) + Bars(s[1..]) }

  /** The normal forms of the fields hold equally many bars, field by field. */
  predicate SameBars(a: Rule, b: Rule) {
    && Bars(ToLower(NormalizeCsv(a.domain))) == Bars(ToLower(NormalizeCsv(b.domain)))
    && Bars(ToLower(NormalizeCsv(a.ip))) == Bars(ToLower(NormalizeCsv(b.ip)))
    && Bars(ToLower(NormalizeCsv(a.port))) == Bars(ToLower(NormalizeCsv(b.port)))
  }

  /** Where the first field of a joined text ends, given how many bars it holds. */
  lemma {:induction false} FirstField(x: string, y: string, rest: string, other: string)
    requires x + ['|'] + rest == y + ['|'] + other && Bars(x) == Bars(y)
    ensures x == y && rest == other
  {
    var left, right := x + ['|'] + rest, y + ['|'] + other;
    if x != "" && y != "" {
      assert left[0] == x[0] && right[0] == y[0];
      assert left[1..] == x[1..] + ['|'] + rest && right[1..] == y[1..] + ['|'] + other;
      FirstField(x[1..], y[1..], rest, other);
      assert x == [x[0]] + x[1..] && y == [y[0]] + y[1..];
    } else {
      assert x == "" ==> left[0] == '|';
      assert y == "" ==> right[0] == '|';
      assert left[|x| + 1..] == rest && right[|y| + 1..] == other;
    }
  }

  lemma {:induction false} NoBars(s: string)
    requires '|' !in s
    ensures Bars(s) == 0
  {
    if s != "" {
      NoBars(s[1..]);
    }
  }

  lemma SplitFour(p: seq<string>, q: seq<string>)
    requires |p| == |q| == 4 && Join(p, '|') == Join(q, '|') && forall i :: 0 <= i < 3 ==> Bars(p[i]) == Bars(q[i])
    ensures p == q
  {
    JoinFour(p[0], p[1], p[2], p[3]);
    JoinFour(q[0], q[1], q[2], q[3]);
    assert p == [p[0], p[1], p[2], p[3]] && q == [q[0], q[1], q[2], q[3]];
    FourFields(p[0], p[1], p[2], p[3], q[0], q[1], q[2], q[3]);
  }

  lemma FourFields(a: string, b: string, c: string, d: string, a': string, b': string, c': string, d': string)
    requires a + ['|'] + (b + ['|'] + (c + ['|'] + d)) == a' + ['|'] + (b' + ['|'] + (c' + ['|'] + d'))
    requires Bars(a) == Bars(a') && Bars(b) == Bars(b') && Bars(c) == Bars(c')
    ensures a == a' && b == b' && c == c' && d == d'
  {
    FirstField(a, a', b + ['|'] + (c + ['|'] + d), b' + ['|'] + (c' + ['|'] + d'));
    ThreeFields(b, c, d, b', c', d');
  }

  lemma ThreeFields(b: string, c: string, d: string, b': string, c': string, d': string)
    requires b + ['|'] + (c + ['|'] + d) == b' + ['|'] + (c' + ['|'] + d')
    requires Bars(b) == Bars(b') && Bars(c) == Bars(c')
    ensures b == b' && c == c' && d == d'
  {
    FirstField(b, b', c + ['|'] + d, c' + ['|'] + d');
    FirstField(c, c', d, d');
  }

  /** Two rules agree if and only if they share a signature and their fields hold
      equally many bars: rules collide exactly when they share a signature whose
      bars belong to different fields. */
  lemma SignatureIff(a: Rule, b: Rule)
    ensures Signature(a) == Signature(b) && SameBars(a, b) <==> Agree(a, b)
  {
    if Agree(a, b) {
      AgreeingSignatures(a, b);
      FieldSignature(a.domain, b.domain);
      FieldSignature(a.ip, b.ip);
      FieldSignature(a.port, b.port);
    }
    if Signature(a) == Signature(b) && SameBars(a, b) {
      SignatureJoins(a);
      SignatureJoins(b);
      SplitFour(Parts(a), Parts(b));
      assert forall i :: 0 <= i < 4 ==> Parts(a)[i] == Parts(b)[i];
      FieldSignature(a.domain, b.domain);
      FieldSignature(a.ip, b.ip);
      FieldSignature(a.port, b.port);
    }
  }

  /** Without bars the signature alone decides. */
  lemma BarFreeSignatureIff(a: Rule, b: Rule)
    requires BarFree(a) && BarFree(b)
    ensures SameBars(a, b) && (Signature(a) == Signature(b) <==> Agree(a, b))
  {
    PartsBarFree(a);
    PartsBarFree(b);
    forall i | 0 <= i < 3 ensures Bars(Parts(a)[i]) == Bars(Parts(b)[i]) == 0 {
      NoBars(Parts(a)[i]);
      NoBars(Parts(b)[i]);
    }
    assert Bars(Parts(a)[0]) == Bars(Parts(b)[0]) && Bars(Parts(a)[1]) == Bars(Parts(b)[1]) && Bars(Parts(a)[2]) == Bars(Parts(b)[2]);
    SignatureIff(a, b);
  }

  lemma TokenField(t: string)
    requires IsToken(t)
    ensures NormalizeCsv(t) == t && Keys(t) == {ToLower(t)}
  {
    SplitCsvJoin([t]);
    assert SplitCsv(t) == [t];
    DistinctKeeps([t], {});
    SortKeeps([t]);
  }

  /** With the separator inside a token, as a regular expression may have it,
      rules that disagree share a signature: the second of them would go. */
  lemma BarsCollide(x: string, y: string, z: string, port: string, outbound: string)
    requires IsToken(x) && IsToken(z) && IsToken(x + "|" + y) && IsToken(y + "|" + z)
    ensures var a := Rule("", x + "|" + y, z, port, outbound);
            var b := Rule("", x, y + "|" + z, port, outbound);
            Signature(a) == Signature(b) && !Agree(a, b)
  {
    TokenField(x);
    TokenField(z);
    TokenField(x + "|" + y);
    TokenField(y + "|" + z);
    JoinMoves(x, y, z, NormalizeCsv(port), TrimSpace(outbound));
    assert |ToLower(x)| != |ToLower(x + "|" + y)|;
    assert ToLower(x) in {ToLower(x)} && ToLower(x) !in {ToLower(x + "|" + y)};
  }

  lemma JoinMoves(x: string, y: string, z: string, p: string, o: string)
    ensures Join([x + "|" + y, z, p, o], '|') == Join([x, y + "|" + z, p, o], '|')
  {
    var tail := p + ['|'] + o;
    JoinFour(x + "|" + y, z, p, o);
    JoinFour(x, y + "|" + z, p, o);
    assert (x + "|" + y) + ['|'] + (z + ['|'] + tail) == x + ['|'] + ((y + "|" + z) + ['|'] + tail);
  }

  lemma JoinFour(a: string, b: string, c: string, d: string)
    ensures Join([a, b, c, d], '|') == a + ['|'] + (b + ['|'] + (c + ['|'] + d))
  {
    assert [a, b, c, d][1..] == [b, c, d] && [b, c, d][1..] == [c, d] && [c, d][1..] == [d];
    assert Join([d], '|') == d;
    assert Join([c, d], '|') == c + ['|'] + d;
    assert Join([b, c, d], '|') == b + ['|'] + Join([c, d], '|');
    assert Join([a, b, c, d], '|') == a + ['|'] + Join([b, c, d], '|');
  }

  // ---------- Removing duplicates ----------

  type Tagged = seq<(string, Rule)>

  /** The first rule of each tag. */
  function Firsts(xs: Tagged, seen: set<string>): seq<Rule> {
    if xs == [] then []
    else if xs[0].0 in seen then Firsts(xs[1..], seen)
    else [xs[0].1] + Firsts(xs[1..], seen + {xs[0].0})
  }

  function Signed(rules: seq<Rule>): (xs: Tagged)
    ensures |xs| == |rules| && forall i :: 0 <= i < |rules| ==> xs[i] == (Signature(rules[i]), Normalize(rules[i]))
  {
    seq(|rules|, i requires 0 <= i < |rules| => (Signature(rules[i]), Normalize(rules[i])))
  }

  function Unique(rules: seq<Rule>): seq<Rule> { Firsts(Signed(rules), {}) }

  predicate HasTag(xs: Tagged, tag: string) { exists i :: 0 <= i < |xs| && xs[i].0 == tag }

  lemma {:induction false} FirstsSnoc(xs: Tagged, x: (string, Rule), seen: set<string>)
    ensures Firsts(xs + [x], seen) == Firsts(xs, seen) + if x.0 in seen || HasTag(xs, x.0) then [] else [x.1]
  {
    if xs == [] {
      assert xs + [x] == [x];
    } else {
      assert (xs + [x])[1..] == xs[1..] + [x];
      HasTagStep(xs, x.0);
      FirstsSnoc(xs[1..], x, if xs[0].0 in seen then seen else seen + {xs[0].0});
    }
  }

  lemma HasTagStep(xs: Tagged, tag: string)
    requires xs != []
    ensures HasTag(xs, tag) <==> xs[0].0 == tag || HasTag(xs[1..], tag)
  {
    if HasTag(xs[1..], tag) {
      var i :| 0 <= i < |xs[1..]| && xs[1..][i].0 == tag;
      assert xs[i + 1].0 == tag;
    }
    if HasTag(xs, tag) {
      var i :| 0 <= i < |xs| && xs[i].0 == tag;
      assert i > 0 ==> xs[1..][i - 1].0 == tag;
    }
  }

  predicate Repeats(rules: seq<Rule>, r: Rule) {
    exists i :: 0 <= i < |rules| && Signature(rules[i]) == Signature(r)
  }

  /** A rule is kept, normalized and in place, if and only if no earlier rule has
      its signature. */
  lemma UniqueKeepsFirst(rules: seq<Rule>, r: Rule)
    ensures Unique(rules + [r]) == Unique(rules) + if Repeats(rules, r) then [] else [Normalize(r)]
  {
    SignedSnoc(rules, r, (Signature(r), Normalize(r)));
    RepeatsIsTagged(rules, r, Signature(r));
    FirstsSnoc(Signed(rules), (Signature(r), Normalize(r)), {});
  }

  lemma SignedSnoc(rules: seq<Rule>, r: Rule, x: (string, Rule))
    requires x == (Signature(r), Normalize(r))
    ensures Signed(rules + [r]) == Signed(rules) + [x]
  {
  }

  lemma RepeatsIsTagged(rules: seq<Rule>, r: Rule, tag: string)
    requires tag == Signature(r)
    ensures HasTag(Signed(rules), tag) <==> Repeats(rules, r)
  {
    var xs := Signed(rules);
    if HasTag(xs, tag) {
      var i :| 0 <= i < |xs| && xs[i].0 == tag;
      assert Signature(rules[i]) == tag;
    }
    if Repeats(rules, r) {
      var i :| 0 <= i < |rules| && Signature(rules[i]) == Signature(r);
      assert xs[i].0 == tag;
    }
  }

  /** The rule that routes a connection: the first that it hits. */
  function FirstHit(rules: seq<Rule>, hits: Rule -> bool): Option<Rule> {
    if rules == [] then None else if hits(rules[0]) then Some(rules[0]) else FirstHit(rules[1..], hits)
  }

  /** The same names in every field. */
  predicate SameNames(a: Rule, b: Rule) {
    Keys(a.domain) == Keys(b.domain) && Keys(a.ip) == Keys(b.ip) && Keys(a.port) == Keys(b.port)
  }

  /** Whether a connection hits a rule depends on the names it lists alone. */
  ghost predicate OnNames(hits: Rule -> bool) {
    forall a: Rule, b: Rule :: SameNames(a, b) ==> hits(a) == hits(b)
  }

  function Rules(xs: Tagged): (rules: seq<Rule>)
    ensures |rules| == |xs| && forall i :: 0 <= i < |xs| ==> rules[i] == xs[i].1
  {
    seq(|xs|, i requires 0 <= i < |xs| => xs[i].1)
  }

  /** Rule `j` is hit and no earlier one is. */
  predicate HitFirst(rules: seq<Rule>, hits: Rule -> bool, j: nat) {
    j < |rules| && hits(rules[j]) && forall i :: 0 <= i < j ==> !hits(rules[i])
  }

  lemma {:induction false} FirstHitIs(rules: seq<Rule>, hits: Rule -> bool) returns (j: nat)
    ensures FirstHit(rules, hits) == if j < |rules| then Some(rules[j]) else None
    ensures j < |rules| ==> HitFirst(rules, hits, j)
    ensures j >= |rules| ==> forall i :: 0 <= i < |rules| ==> !hits(rules[i])
  {
    if rules == [] || hits(rules[0]) {
      j := 0;
    } else {
      var k := FirstHitIs(rules[1..], hits);
      j := k + 1;
      forall i | 0 <= i < |rules| && i < j ensures !hits(rules[i]) {
        assert i > 0 ==> rules[i] == rules[1..][i - 1];
      }
    }
  }

  /** The first rule of its tag. */
  predicate IsFirst(xs: Tagged, seen: set<string>, j: nat) {
    j < |xs| && xs[j].0 !in seen && forall i :: 0 <= i < j ==> xs[i].0 != xs[j].0
  }

  lemma {:induction false} FirstsMember(xs: Tagged, seen: set<string>, y: Rule) returns (j: nat)
    requires y in Firsts(xs, seen)
    ensures IsFirst(xs, seen, j) && xs[j].1 == y
  {
    if xs[0].0 !in seen && y == xs[0].1 {
      j := 0;
    } else {
      var k := FirstsMember(xs[1..], if xs[0].0 in seen then seen else seen + {xs[0].0}, y);
      j := k + 1;
      forall i | 0 <= i < j ensures xs[i].0 != xs[j].0 {
        assert i > 0 ==> xs[i] == xs[1..][i - 1];
      }
    }
  }

  /** A rule that is hit first and the first of its tag is still hit first. */
  lemma {:induction false} FirstsRoute(xs: Tagged, seen: set<string>, hits: Rule -> bool, j: nat)
    requires HitFirst(Rules(xs), hits, j) && IsFirst(xs, seen, j)
    ensures FirstHit(Firsts(xs, seen), hits) == Some(xs[j].1)
  {
    if j > 0 {
      var rest := xs[1..];
      assert !hits(Rules(xs)[0]);
      FirstsRoute(rest, if xs[0].0 in seen then seen else seen + {xs[0].0}, hits, j - 1);
      if xs[0].0 !in seen {
        var more := Firsts(rest, seen + {xs[0].0});
        assert ([xs[0].1] + more)[1..] == more;
      }
    }
  }

  lemma NormalizeNames(r: Rule)
    ensures SameNames(Normalize(r), r)
  {
    NormalTokensAgain(r.domain);
    NormalTokensAgain(r.ip);
    NormalTokensAgain(r.port);
  }

  lemma NormalizeHits(r: Rule, hits: Rule -> bool)
    requires OnNames(hits)
    ensures hits(Normalize(r)) == hits(r)
  {
    NormalizeNames(r);
  }

  function NormalizedOption(o: Option<Rule>): Option<Rule> {
    match o case None => None case Some(r) => Some(Normalize(r))
  }

  /** Removing duplicates leaves every connection with the rule that routed it,
      normalized, however connections hit names. */
  ghost predicate RoutesPreserved(rules: seq<Rule>) {
    forall hits: Rule -> bool :: OnNames(hits) ==> FirstHit(Unique(rules), hits) == NormalizedOption(FirstHit(rules, hits))
  }

  /** Whenever a rule shares the signature of an earlier one whose bars belong to
      other fields, some earlier rule lists its very names. */
  predicate Harmless(rules: seq<Rule>) {
    forall i, j :: 0 <= i < j < |rules| && Signature(rules[i]) == Signature(rules[j]) && !SameBars(rules[i], rules[j]) ==>
      exists m :: 0 <= m < j && SameNames(rules[m], rules[j])
  }

  lemma HitOfSigned(rules: seq<Rule>, hits: Rule -> bool)
    requires OnNames(hits)
    ensures forall i :: 0 <= i < |rules| ==> hits(Rules(Signed(rules))[i]) == hits(rules[i])
  {
    forall i | 0 <= i < |rules| ensures hits(Rules(Signed(rules))[i]) == hits(rules[i]) {
      NormalizeHits(rules[i], hits);
    }
  }

  lemma EarlierNames(rules: seq<Rule>, i: nat, j: nat)
    requires Harmless(rules) && i < j < |rules| && Signature(rules[i]) == Signature(rules[j])
    ensures exists m :: 0 <= m < j && SameNames(rules[m], rules[j])
  {
    if SameBars(rules[i], rules[j]) {
      SignatureIff(rules[i], rules[j]);
      assert SameNames(rules[i], rules[j]);
    }
  }

  /** In a harmless list the rule that is hit first is the first of its signature. */
  lemma HitIsKept(rules: seq<Rule>, hits: Rule -> bool, j: nat)
    requires Harmless(rules) && OnNames(hits) && HitFirst(rules, hits, j)
    ensures IsFirst(Signed(rules), {}, j)
  {
    forall i | 0 <= i < j ensures Signature(rules[i]) != Signature(rules[j]) {
      if Signature(rules[i]) == Signature(rules[j]) {
        EarlierNames(rules, i, j);
      }
    }
  }

  lemma FirstsNotHit(xs: Tagged, hits: Rule -> bool)
    requires forall i :: 0 <= i < |xs| ==> !hits(xs[i].1)
    ensures FirstHit(Firsts(xs, {}), hits) == None
  {
    var k := FirstHitIs(Firsts(xs, {}), hits);
    if k < |Firsts(xs, {})| {
      var i := FirstsMember(xs, {}, Firsts(xs, {})[k]);
    }
  }

  lemma UniqueRoutes(rules: seq<Rule>, hits: Rule -> bool)
    requires OnNames(hits) && Harmless(rules)
    ensures FirstHit(Unique(rules), hits) == NormalizedOption(FirstHit(rules, hits))
  {
    var xs := Signed(rules);
    var j := FirstHitIs(rules, hits);
    HitOfSigned(rules, hits);
    if j < |rules| {
      HitIsKept(rules, hits, j);
      FirstsRoute(xs, {}, hits, j);
    } else {
      forall i | 0 <= i < |xs| ensures !hits(xs[i].1) {
        assert xs[i].1 == Rules(xs)[i];
      }
      FirstsNotHit(xs, hits);
    }
  }

  /** A connection that hits exactly the rules with these names. */
  function HitsNames(n: Rule): Rule -> bool { r => SameNames(r, n) }

  /** A kept rule equal to the normal form of `rules[j]` came first. */
  lemma KeptBefore(rules: seq<Rule>, i: nat, j: nat) returns (q: nat)
    requires i < |rules| && j < |rules| && Signature(rules[i]) == Signature(rules[j]) && Normalize(rules[j]) in Unique(rules)
    ensures q <= i && SameNames(rules[q], rules[j])
  {
    var xs := Signed(rules);
    q := FirstsMember(xs, {}, Normalize(rules[j]));
    NormalizeIdempotent(rules[q]);
    NormalizeIdempotent(rules[j]);
    NormalizeNames(rules[q]);
    NormalizeNames(rules[j]);
    assert xs[q].0 == xs[i].0;
  }

  lemma HitMember(rules: seq<Rule>, hits: Rule -> bool)
    ensures FirstHit(rules, hits).Some? ==> FirstHit(rules, hits).value in rules
  {
    var j := FirstHitIs(rules, hits);
  }

  lemma HitsNamesOnNames(n: Rule)
    ensures OnNames(HitsNames(n))
  {
  }

  lemma HitAt(rules: seq<Rule>, hits: Rule -> bool, j: nat)
    requires HitFirst(rules, hits, j)
    ensures FirstHit(rules, hits) == Some(rules[j])
  {
    var first := FirstHitIs(rules, hits);
  }

  lemma HitsItsNames(rules: seq<Rule>, j: nat, n: Rule)
    requires j < |rules| && n == rules[j] && forall m :: 0 <= m < j ==> !SameNames(rules[m], n)
    ensures OnNames(HitsNames(n)) && FirstHit(rules, HitsNames(n)) == Some(n)
  {
    HitsNamesOnNames(n);
    assert HitFirst(rules, HitsNames(n), j);
    HitAt(rules, HitsNames(n), j);
  }

  lemma LostFromUnique(rules: seq<Rule>, i: nat, j: nat)
    requires i < j < |rules| && Signature(rules[i]) == Signature(rules[j])
    requires forall m :: 0 <= m < j ==> !SameNames(rules[m], rules[j])
    ensures Normalize(rules[j]) !in Unique(rules)
  {
    if Normalize(rules[j]) in Unique(rules) {
      var q := KeptBefore(rules, i, j);
    }
  }

  /** A rule lost to a collision, whose names no earlier rule lists, loses the
      connections that hit exactly its names. */
  lemma LostRule(rules: seq<Rule>, i: nat, j: nat, hits: Rule -> bool)
    requires i < j < |rules| && Signature(rules[i]) == Signature(rules[j]) && hits == HitsNames(rules[j])
    requires forall m :: 0 <= m < j ==> !SameNames(rules[m], rules[j])
    ensures OnNames(hits) && FirstHit(Unique(rules), hits) != NormalizedOption(FirstHit(rules, hits))
  {
    HitsItsNames(rules, j, rules[j]);
    LostFromUnique(rules, i, j);
    HitMember(Unique(rules), hits);
  }

  lemma HarmfulList(rules: seq<Rule>)
    requires !Harmless(rules)
    ensures !RoutesPreserved(rules)
  {
    var i, j :| 0 <= i < j < |rules| && Signature(rules[i]) == Signature(rules[j]) && !SameBars(rules[i], rules[j])
      && !exists m :: 0 <= m < j && SameNames(rules[m], rules[j]);
    var hits := HitsNames(rules[j]);
    LostRule(rules, i, j, hits);
  }

  /** Removing duplicates changes no routing decision if and only if the list is
      harmless; the condition speaks of the rules alone. */
  lemma UniqueRoutesIff(rules: seq<Rule>)
    ensures RoutesPreserved(rules) <==> Harmless(rules)
  {
    if Harmless(rules) {
      forall hits: Rule -> bool | OnNames(hits) ensures FirstHit(Unique(rules), hits) == NormalizedOption(FirstHit(rules, hits)) {
        UniqueRoutes(rules, hits);
      }
    } else {
      HarmfulList(rules);
    }
  }

  /** Lists without bars are harmless. */
  lemma BarFreeIsHarmless(rules: seq<Rule>)
    requires forall r <- rules :: BarFree(r)
    ensures Harmless(rules)
  {
    forall i, j | 0 <= i < j < |rules| ensures SameBars(rules[i], rules[j]) {
      assert rules[i] in rules && rules[j] in rules;
      BarFreeSignatureIff(rules[i], rules[j]);
    }
  }

  /** The loop of normalizeRuleCSV over the distinct tokens. */
  method NormalizeRuleCsv(raw: string) returns (out: string)
    ensures out == NormalizeCsv(raw)
  {
    var parts := SplitAndTrim(raw);
    if parts == [] {
      assert Sort([]) == [];
      return "";
    }
    var once := KeepDistinct(parts);
    out := Join(Sort(once), ',');
  }

  method KeepDistinct(parts: seq<string>) returns (once: seq<string>)
    ensures once == Distinct(parts, {})
  {
    var seen: set<string> := {};
    once := [];
    for i := 0 to |parts|
      invariant once + Distinct(parts[i..], seen) == Distinct(parts, {})
    {
      assert parts[i..][1..] == parts[i + 1..];
      var key := ToLower(parts[i]);
      if key !in seen {
        seen := seen + {key};
        once := once + [parts[i]];
      }
    }
  }

  /** `unique` holds the first rules of each tag before position `i`. */
  ghost predicate Kept(unique: seq<Rule>, seen: set<string>, xs: Tagged, i: nat) {
    i <= |xs| && unique + Firsts(xs[i..], seen) == Firsts(xs, {})
  }

  lemma KeptStep(unique: seq<Rule>, seen: set<string>, xs: Tagged, i: nat)
    requires i < |xs| && Kept(unique, seen, xs, i)
    ensures xs[i].0 in seen ==> Kept(unique, seen, xs, i + 1)
    ensures xs[i].0 !in seen ==> Kept(unique + [xs[i].1], seen + {xs[i].0}, xs, i + 1)
  {
    assert xs[i..][1..] == xs[i + 1..];
    var rest := Firsts(xs[i + 1..], seen + {xs[i].0});
    assert unique + [xs[i].1] + rest == unique + ([xs[i].1] + rest);
  }

  lemma KeptAll(unique: seq<Rule>, seen: set<string>, xs: Tagged)
    ensures Kept(unique, seen, xs, |xs|) ==> unique == Firsts(xs, {})
    ensures Kept([], {}, xs, 0)
  {
    assert xs[|xs|..] == [] && xs[0..] == xs && unique + [] == unique;
  }

  method UniqueRoutingRules(rules: seq<Rule>) returns (unique: seq<Rule>)
    ensures unique == Unique(rules)
  {
    var seen: set<string> := {};
    unique := [];
    ghost var xs := Signed(rules);
    KeptAll(unique, seen, xs);
    for i := 0 to |rules|
      invariant Kept(unique, seen, xs, i)
    {
      KeptStep(unique, seen, xs, i);
      NormalizeIdempotent(rules[i]);
      var normalized := Normalize(rules[i]);
      var signature := Signature(normalized);
      if signature !in seen {
        seen := seen + {signature};
        unique := unique + [normalized];
      }
    }
    KeptAll(unique, seen, xs);
  }
}
