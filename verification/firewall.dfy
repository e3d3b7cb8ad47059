/**
 The firewall service: every operation edits the INPUT chain by single commands,
 each of which may fail.  `*` decides the failures.
 */
module Firewall {
  import opened Wrappers
  import opened FirewallChain

  // ---------- Cloudflare ----------

  function Address(a: nat, b: nat, c: nat): nat { (a * 256 + b) * 65536 + c * 256 }

  const CLOUDFLARE_RANGES: seq<Cidr> := [
    Cidr(Address(173, 245, 48), 20), Cidr(Address(103, 21, 244), 22), Cidr(Address(103, 22, 200), 22),
    Cidr(Address(103, 31, 4), 22), Cidr(Address(141, 101, 64), 18), Cidr(Address(108, 162, 192), 18),
    Cidr(Address(190, 93, 240), 20), Cidr(Address(188, 114, 96), 20), Cidr(Address(197, 234, 240), 22),
    Cidr(Address(198, 41, 128), 17), Cidr(Address(162, 158, 0), 15), Cidr(Address(104, 16, 0), 13),
    Cidr(Address(104, 24, 0), 14), Cidr(Address(172, 64, 0), 13), Cidr(Address(131, 0, 72), 22)]

  predicate InRanges(ip: nat, ranges: seq<Cidr>) { exists i :: 0 <= i < |ranges| && InRange(ip, ranges[i]) }

  /** A range of addresses, from a multiple of its size on. */
  lemma RangeIs(ip: nat, c: Cidr, size: nat)
    requires c.bits <= 32 && size == Pow2(32 - c.bits) && c.base % size == 0
    ensures InRange(ip, c) <==> c.base <= ip < c.base + size
  {
    var q := c.base / size;
    assert c.base == q * size;
    if c.base <= ip < c.base + size {
      QuotientIs(ip, q, size);
    }
  }

  lemma QuotientIs(n: nat, q: nat, size: nat)
    requires size > 0 && q * size <= n < q * size + size
    ensures n / size == q
  {
    var r := n / size;
    Monotone(r + 1, q, size);
    Monotone(q + 1, r, size);
  }

  lemma Monotone(a: nat, b: nat, size: nat)
    ensures a <= b ==> a * size <= b * size
  {
  }

  lemma Sizes()
    ensures Pow2(10) == 1024 && Pow2(12) == 4096 && Pow2(14) == 16384 && Pow2(15) == 32768
    ensures Pow2(17) == 131072 && Pow2(18) == 262144 && Pow2(19) == 524288
  {
    assert Pow2(5) == 32;
    assert Pow2(10) == 1024;
    assert Pow2(15) == 32768;
  }

  /** A range that fixes the first two bytes of an address. */
  lemma NarrowRange(a: nat, b: nat, c: nat, d: nat, x: nat, y: nat, z: nat, bits: nat, width: nat)
    requires a < 256 && b < 256 && c < 256 && d < 256 && x < 256 && y < 256 && z + width <= 256
    requires 0 < width && bits <= 32 && Pow2(32 - bits) == width * 256 && Address(x, y, z) % (width * 256) == 0
    ensures InRange(((a * 256 + b) * 256 + c) * 256 + d, Cidr(Address(x, y, z), bits)) <==> a == x && b == y && z <= c < z + width
  {
    RangeIs(((a * 256 + b) * 256 + c) * 256 + d, Cidr(Address(x, y, z), bits), width * 256);
    TwoBytes(a * 256 + b, c * 256 + d, x * 256 + y, z * 256, width * 256);
    assert a * 256 + b == x * 256 + y <==> a == x && b == y;
  }

  lemma OneByte(high: nat, low: nat, base: nat, from: nat, size: nat)
    requires low < 16777216 && from + size <= 16777216
    ensures base * 16777216 + from <= high * 16777216 + low < base * 16777216 + from + size <==> high == base && from <= low < from + size
  {
  }

  lemma TwoBytes(high: nat, low: nat, base: nat, from: nat, size: nat)
    requires low < 65536 && from + size <= 65536
    ensures base * 65536 + from <= high * 65536 + low < base * 65536 + from + size <==> high == base && from <= low < from + size
  {
  }

  /** A range that fixes the first byte. */
  lemma WideRange(a: nat, b: nat, c: nat, d: nat, x: nat, y: nat, bits: nat, width: nat)
    requires a < 256 && b < 256 && c < 256 && d < 256 && x < 256 && y + width <= 256
    requires 0 < width && bits <= 32 && Pow2(32 - bits) == width * 65536 && Address(x, y, 0) % (width * 65536) == 0
    ensures InRange(((a * 256 + b) * 256 + c) * 256 + d, Cidr(Address(x, y, 0), bits)) <==> a == x && y <= b < y + width
  {
    RangeIs(((a * 256 + b) * 256 + c) * 256 + d, Cidr(Address(x, y, 0), bits), width * 65536);
    OneByte(a, b * 65536 + c * 256 + d, x, y * 65536, width * 65536);
  }

  /** The address a.b.c.d is let in exactly if it is in one of the published ranges. */
  lemma CloudflareMeaning(a: nat, b: nat, c: nat, d: nat)
    requires a < 256 && b < 256 && c < 256 && d < 256
    ensures InRanges(((a * 256 + b) * 256 + c) * 256 + d, CLOUDFLARE_RANGES) <==>
            || (a == 173 && b == 245 && 48 <= c < 64) || (a == 103 && b == 21 && 244 <= c < 248) || (a == 103 && b == 22 && 200 <= c < 204)
            || (a == 103 && b == 31 && 4 <= c < 8) || (a == 141 && b == 101 && 64 <= c < 128) || (a == 108 && b == 162 && 192 <= c < 256)
            || (a == 190 && b == 93 && 240 <= c < 256) || (a == 188 && b == 114 && 96 <= c < 112) || (a == 197 && b == 234 && 240 <= c < 244)
            || (a == 198 && b == 41 && 128 <= c < 256) || (a == 162 && 158 <= b < 160) || (a == 104 && 16 <= b < 24)
            || (a == 104 && 24 <= b < 28) || (a == 172 && 64 <= b < 72) || (a == 131 && b == 0 && 72 <= c < 76)
  {
    hide InRange, Pow2, InRanges;
    var ip := ((a * 256 + b) * 256 + c) * 256 + d;
    Sizes();
    NarrowRange(a, b, c, d, 173, 245, 48, 20, 16);
    NarrowRange(a, b, c, d, 103, 21, 244, 22, 4);
    NarrowRange(a, b, c, d, 103, 22, 200, 22, 4);
    NarrowRange(a, b, c, d, 103, 31, 4, 22, 4);
    NarrowRange(a, b, c, d, 141, 101, 64, 18, 64);
    NarrowRange(a, b, c, d, 108, 162, 192, 18, 64);
    NarrowRange(a, b, c, d, 190, 93, 240, 20, 16);
    NarrowRange(a, b, c, d, 188, 114, 96, 20, 16);
    NarrowRange(a, b, c, d, 197, 234, 240, 22, 4);
    NarrowRange(a, b, c, d, 198, 41, 128, 17, 128);
    WideRange(a, b, c, d, 162, 158, 15, 2);
    WideRange(a, b, c, d, 104, 16, 13, 8);
    WideRange(a, b, c, d, 104, 24, 14, 4);
    WideRange(a, b, c, d, 172, 64, 13, 8);
    NarrowRange(a, b, c, d, 131, 0, 72, 22, 4);
    InRangesIs(ip);
  }

  lemma InRangesIs(ip: nat)
    ensures InRanges(ip, CLOUDFLARE_RANGES) <==>
            || InRange(ip, CLOUDFLARE_RANGES[0]) || InRange(ip, CLOUDFLARE_RANGES[1]) || InRange(ip, CLOUDFLARE_RANGES[2])
            || InRange(ip, CLOUDFLARE_RANGES[3]) || InRange(ip, CLOUDFLARE_RANGES[4]) || InRange(ip, CLOUDFLARE_RANGES[5])
            || InRange(ip, CLOUDFLARE_RANGES[6]) || InRange(ip, CLOUDFLARE_RANGES[7]) || InRange(ip, CLOUDFLARE_RANGES[8])
            || InRange(ip, CLOUDFLARE_RANGES[9]) || InRange(ip, CLOUDFLARE_RANGES[10]) || InRange(ip, CLOUDFLARE_RANGES[11])
            || InRange(ip, CLOUDFLARE_RANGES[12]) || InRange(ip, CLOUDFLARE_RANGES[13]) || InRange(ip, CLOUDFLARE_RANGES[14])
  {
    hide InRange;
    if i :| 0 <= i < |CLOUDFLARE_RANGES| && InRange(ip, CLOUDFLARE_RANGES[i]) {
      assert i < 15;
    }
  }

  /** A port or a range of ports, the sources let in, and the comments of the rules
      that do so. */
  datatype Protection = Protection(ports: Ports, ranges: seq<Cidr>, allowComment: string, blockComment: string)

  function Cloudflare(ports: Ports): Protection { Protection(ports, CLOUDFLARE_RANGES, "Cloudflare", "CF-Block-Others") }

  /** The rules carry the labels by which they are found again. */
  lemma CloudflareLabels(ports: Ports)
    ensures RuleOf(BlockRequest(Cloudflare(ports))).comment == "CF-Block-Others"
    ensures forall range :: RuleOf(AllowRequest(Cloudflare(ports), range)).comment == "Cloudflare"
  {
    hide Safe, SafeComment;
    CommentIsSafe("CF-Block-Others");
    CommentIsSafe("Cloudflare");
  }

  function AllowRequest(c: Protection, range: Cidr): Request {
    Request("tcp", Some(c.ports), Accept, Some(range), c.allowComment)
  }

  function BlockRequest(c: Protection): Request {
    Request("tcp", Some(c.ports), Drop, None, c.blockComment)
  }

  function RequestAt(c: Protection, i: nat): Request
    requires i <= |c.ranges|
  {
    if i < |c.ranges| then AllowRequest(c, c.ranges[i]) else BlockRequest(c)
  }

  /** The rules of the first `n` steps of the loop and its final step. */
  function ProtectionRules(c: Protection, n: nat): (out: seq<Rule>)
    requires n <= |c.ranges| + 1
    ensures |out| == n
    ensures forall i :: 0 <= i < n ==> out[i] == RuleOf(RequestAt(c, i))
  {
    seq(n, i requires 0 <= i < n => RuleOf(RequestAt(c, i)))
  }

  function AllProtection(c: Protection): seq<Rule> { ProtectionRules(c, |c.ranges| + 1) }

  predicate ToPorts(p: Packet, ports: Ports) { p.proto == "tcp" && InPorts(p.port, ports) }

  lemma AllowDecides(c: Protection, range: Cidr, policy: Verdict, p: Packet)
    ensures RuleDecision(RuleOf(AllowRequest(c, range)), policy, p) ==
            if ToPorts(p, c.ports) && InRange(p.source, range) then Some(Accepted) else None
  {
  }

  lemma BlockDecides(c: Protection, policy: Verdict, p: Packet)
    ensures RuleDecision(RuleOf(BlockRequest(c)), policy, p) == if ToPorts(p, c.ports) then Some(Dropped) else None
  {
  }

  lemma SourceInFirst(ip: nat, ranges: seq<Cidr>, n: nat)
    requires n < |ranges|
    ensures InRanges(ip, ranges[..n + 1]) <==> InRanges(ip, ranges[..n]) || InRange(ip, ranges[n])
  {
    if InRanges(ip, ranges[..n]) {
      var i :| 0 <= i < n && InRange(ip, ranges[..n][i]);
      assert ranges[..n + 1][i] == ranges[..n][i];
    }
    if InRange(ip, ranges[n]) {
      assert ranges[..n + 1][n] == ranges[n];
    }
    if InRanges(ip, ranges[..n + 1]) {
      var i :| 0 <= i < n + 1 && InRange(ip, ranges[..n + 1][i]);
      assert i < n ==> ranges[..n + 1][i] == ranges[..n][i];
    }
  }

  lemma {:induction false} AllowRulesDecide(c: Protection, n: nat, policy: Verdict, p: Packet)
    requires n <= |c.ranges|
    ensures Decision(ProtectionRules(c, n), policy, p) ==
            if ToPorts(p, c.ports) && InRanges(p.source, c.ranges[..n]) then Some(Accepted) else None
  {
    if n > 0 {
      AllowRulesDecide(c, n - 1, policy, p);
      var last := RuleOf(AllowRequest(c, c.ranges[n - 1]));
      assert ProtectionRules(c, n) == ProtectionRules(c, n - 1) + [last];
      DecisionConcat(ProtectionRules(c, n - 1), [last], policy, p);
      DecisionOne(last, policy, p);
      AllowDecides(c, c.ranges[n - 1], policy, p);
      SourceInFirst(p.source, c.ranges, n - 1);
    }
  }

  lemma DecisionOne(r: Rule, policy: Verdict, p: Packet)
    ensures Decision([r], policy, p) == RuleDecision(r, policy, p)
  {
  }

  /** The verdict the protection means for a packet to the port. */
  function Wanted(c: Protection, p: Packet): Verdict { if InRanges(p.source, c.ranges) then Accepted else Dropped }

  lemma ProtectionDecides(c: Protection, policy: Verdict, p: Packet)
    ensures Decision(AllProtection(c), policy, p) == if ToPorts(p, c.ports) then Some(Wanted(c, p)) else None
  {
    var n, block := |c.ranges|, RuleOf(BlockRequest(c));
    assert AllProtection(c) == ProtectionRules(c, n) + [block];
    AllowRulesDecide(c, n, policy, p);
    assert c.ranges[..n] == c.ranges;
    DecisionConcat(ProtectionRules(c, n), [block], policy, p);
    DecisionOne(block, policy, p);
    BlockDecides(c, policy, p);
  }

  /** A chain protected by the loop: packets to the port that reach the new rules
      are accepted exactly from the listed ranges and dropped otherwise; all other
      verdicts stay. */
  lemma ProtectionMeaning(rules: seq<Rule>, c: Protection, policy: Verdict, p: Packet)
    ensures var k := InsertionPoint(rules);
            VerdictOf(Insert(rules, k, AllProtection(c)), policy, p) ==
            if ToPorts(p, c.ports) && Decision(rules[..k], policy, p).None? then Wanted(c, p) else VerdictOf(rules, policy, p)
  {
    InsertMeaning(rules, InsertionPoint(rules), AllProtection(c), policy, p);
    ProtectionDecides(c, policy, p);
  }

  /** A loop that stopped after `n` ranges: those are let in, nothing is blocked. */
  lemma PartialProtectionMeaning(rules: seq<Rule>, c: Protection, n: nat, policy: Verdict, p: Packet)
    requires n <= |c.ranges|
    ensures var k := InsertionPoint(rules);
            VerdictOf(Insert(rules, k, ProtectionRules(c, n)), policy, p) ==
            if ToPorts(p, c.ports) && InRanges(p.source, c.ranges[..n]) && Decision(rules[..k], policy, p).None? then Accepted
            else VerdictOf(rules, policy, p)
  {
    InsertMeaning(rules, InsertionPoint(rules), ProtectionRules(c, n), policy, p);
    AllowRulesDecide(c, n, policy, p);
  }

  /** An earlier rule settles packets to the port its own way. */
  ghost predicate Undermined(rules: seq<Rule>, c: Protection, policy: Verdict) {
    exists p: Packet :: ToPorts(p, c.ports) && Decision(rules[..InsertionPoint(rules)], policy, p) !in {None, Some(Wanted(c, p))}
  }

  ghost predicate Protects(rules: seq<Rule>, c: Protection, policy: Verdict) {
    forall p: Packet :: ToPorts(p, c.ports) ==> VerdictOf(rules, policy, p) == Wanted(c, p)
  }

  lemma DecidedEarly(rules: seq<Rule>, k: nat, policy: Verdict, p: Packet)
    requires k <= |rules| && Decision(rules[..k], policy, p).Some?
    ensures VerdictOf(rules, policy, p) == Decision(rules[..k], policy, p).value
  {
    DecisionConcat(rules[..k], rules[k..], policy, p);
    assert rules[..k] + rules[k..] == rules;
  }

  /** The port ends up protected if and only if no rule before the insertion
      point decides one of its packets differently. */
  lemma ProtectedIff(rules: seq<Rule>, c: Protection, policy: Verdict, after: seq<Rule>)
    requires after == Insert(rules, InsertionPoint(rules), AllProtection(c))
    ensures Protects(after, c, policy) <==> !Undermined(rules, c, policy)
  {
    var k := InsertionPoint(rules);
    forall p: Packet | ToPorts(p, c.ports)
      ensures VerdictOf(after, policy, p) == Wanted(c, p) <==> Decision(rules[..k], policy, p) in {None, Some(Wanted(c, p))}
    {
      ProtectionMeaning(rules, c, policy, p);
      if Decision(rules[..k], policy, p).Some? {
        DecidedEarly(rules, k, policy, p);
      }
    }
  }

  lemma ProtectionHasNoCatchAll(c: Protection, n: nat)
    requires n <= |c.ranges| + 1
    ensures forall i :: 0 <= i < n ==> !IsCatchAll(ProtectionRules(c, n)[i])
  {
    forall i | 0 <= i < n ensures !IsCatchAll(ProtectionRules(c, n)[i]) {
      assert ProtectionRules(c, n)[i].ports.Some?;
    }
  }

  lemma ProtectionIsValid(c: Protection, n: nat)
    requires n <= |c.ranges| && PortNumber(c.ports.low) && PortNumber(c.ports.high)
    ensures IsValid(RequestAt(c, n))
  {
  }

  lemma NoneProtects(rules: seq<Rule>, c: Protection)
    ensures Insert(rules, InsertionPoint(rules), ProtectionRules(c, 0)) == rules
  {
    assert ProtectionRules(c, 0) == [];
  }

  /** Each rule of the loop lands behind the previous one. */
  lemma ProtectionStep(rules: seq<Rule>, c: Protection, n: nat, r: Rule)
    requires n <= |c.ranges| && r == RuleOf(RequestAt(c, n))
    ensures var k := InsertionPoint(rules);
            var now := Insert(rules, k, ProtectionRules(c, n));
            Insert(now, InsertionPoint(now), [r]) == Insert(rules, k, ProtectionRules(c, n + 1))
  {
    ProtectionHasNoCatchAll(c, n);
    InsertOneMore(rules, ProtectionRules(c, n), r);
    assert ProtectionRules(c, n + 1) == ProtectionRules(c, n) + [r];
  }

  /** Repeating the loop on a protected chain changes no verdict. */
  lemma ReapplyingIsHarmless(rules: seq<Rule>, c: Protection, policy: Verdict, p: Packet, once: seq<Rule>)
    requires once == Insert(rules, InsertionPoint(rules), AllProtection(c))
    ensures VerdictOf(Insert(once, InsertionPoint(once), AllProtection(c)), policy, p) == VerdictOf(once, policy, p)
  {
    var k, added := InsertionPoint(rules), AllProtection(c);
    ProtectionHasNoCatchAll(c, |added|);
    InsertOneMore(rules, added, RuleOf(BlockRequest(c)));
    assert once[..k + |added|] == rules[..k] + added;
    DecisionConcat(rules[..k], added, policy, p);
    ProtectionDecides(c, policy, p);
    InsertMeaning(once, k + |added|, added, policy, p);
  }

  /** The rule EnsureOpen adds for a listener defeats later protection of that
      port, wherever it stands before the insertion point: whatever outside packet
      the rules before it let through to it stays accepted. */
  lemma OpenedPortIsNotProtected(rules: seq<Rule>, i: nat, c: Protection, tag: string, policy: Verdict, p: Packet, after: seq<Rule>)
    requires i < InsertionPoint(rules) && rules[i] == RuleOf(OpenRequest("tcp", p.port, tag))
    requires after == Insert(rules, InsertionPoint(rules), AllProtection(c))
    requires ToPorts(p, c.ports) && !InRanges(p.source, c.ranges) && Decision(rules[..i], policy, p).None?
    ensures VerdictOf(after, policy, p) == Accepted && !Protects(after, c, policy)
  {
    var k := InsertionPoint(rules);
    assert rules[..k][..i] == rules[..i];
    DecidedAt(rules[..k], i, policy, p);
    DecidedEarly(rules, k, policy, p);
    ProtectionMeaning(rules, c, policy, p);
  }

  /** The first rule that a packet reaches and that decides it. */
  lemma DecidedAt(rules: seq<Rule>, i: nat, policy: Verdict, p: Packet)
    requires i < |rules| && Decision(rules[..i], policy, p).None? && RuleDecision(rules[i], policy, p).Some?
    ensures Decision(rules, policy, p) == RuleDecision(rules[i], policy, p)
  {
    assert rules == rules[..i] + rules[i..] && rules[i..] == [rules[i]] + rules[i + 1..];
    DecisionConcat(rules[..i], rules[i..], policy, p);
    DecisionStep(rules[i], rules[i + 1..], policy, p);
  }

  // ---------- Opening ports ----------

  function OpenRequest(proto: string, port: nat, comment: string): Request {
    Request(proto, Some(Ports(port, port)), Accept, None, comment)
  }

  predicate IsAccept(r: Rule, proto: string, port: nat) {
    r.target == Accept && r.proto == proto && r.ports == Some(Ports(port, port))
  }

  predicate HasAccept(rules: seq<Rule>, proto: string, port: nat) {
    exists i :: 0 <= i < |rules| && IsAccept(rules[i], proto, port)
  }

  /** Traffic that no rule accepts is rejected. */
  predicate Blocks(rules: seq<Rule>, policy: Verdict) { HasCatchAll(rules) || policy == Dropped }

  datatype Listener = Listener(proto: string, port: nat, comment: string)

  function OpenRule(l: Listener): Rule { RuleOf(OpenRequest(l.proto, l.port, l.comment)) }

  predicate NeedsRule(rules: seq<Rule>, policy: Verdict, l: Listener) {
    Blocks(rules, policy) && !HasAccept(rules, l.proto, l.port)
  }

  /** EnsureOpen without command failures. */
  function Opened(rules: seq<Rule>, policy: Verdict, l: Listener): seq<Rule> {
    if NeedsRule(rules, policy, l) then Insert(rules, InsertionPoint(rules), [OpenRule(l)]) else rules
  }

  function OpenedAll(rules: seq<Rule>, policy: Verdict, ls: seq<Listener>): seq<Rule>
    decreases |ls|
  {
    if ls == [] then rules else OpenedAll(Opened(rules, policy, ls[0]), policy, ls[1..])
  }

  lemma {:induction false} OpenedAllConcat(rules: seq<Rule>, policy: Verdict, a: seq<Listener>, b: seq<Listener>)
    ensures OpenedAll(rules, policy, a + b) == OpenedAll(OpenedAll(rules, policy, a), policy, b)
    decreases |a|
  {
    if a == [] {
      assert a + b == b;
    } else {
      assert (a + b)[1..] == a[1..] + b;
      OpenedAllConcat(Opened(rules, policy, a[0]), policy, a[1..], b);
    }
  }

  function Keys(ls: seq<Listener>): Keep { set l <- ls :: (l.proto, l.port) }

  /** EnsurePanelPortsOpen without command failures. */
  function Reconciled(rules: seq<Rule>, policy: Verdict, ls: seq<Listener>): seq<Rule> {
    Unstale(OpenedAll(rules, policy, ls), Keys(ls))
  }

  /** What the panel opens for: a protocol, and a comment with its mark. */
  predicate IsPanelListener(l: Listener) { l.proto in {"tcp", "udp"} && MANAGED <= SafeComment(l.comment) }

  predicate AllPanel(ls: seq<Listener>) { forall i :: 0 <= i < |ls| ==> IsPanelListener(ls[i]) }

  lemma InsertedRules(rules: seq<Rule>, k: nat, r: Rule, now: seq<Rule>)
    requires k <= |rules| && now == Insert(rules, k, [r])
    ensures now[k] == r && forall x :: x in now <==> x in rules || x == r
  {
    assert rules == rules[..k] + rules[k..];
    assert forall x :: x in rules <==> x in rules[..k] || x in rules[k..];
  }

  lemma CatchAllIn(rules: seq<Rule>)
    ensures HasCatchAll(rules) <==> exists r <- rules :: IsCatchAll(r)
  {
  }

  lemma InsertKeepsCatchAll(rules: seq<Rule>, k: nat, r: Rule)
    requires k <= |rules| && !IsCatchAll(r)
    ensures HasCatchAll(Insert(rules, k, [r])) <==> HasCatchAll(rules)
  {
    InsertedRules(rules, k, r, Insert(rules, k, [r]));
    CatchAllIn(rules);
    CatchAllIn(Insert(rules, k, [r]));
  }

  lemma UnmanagedMiddle(a: seq<Rule>, r: Rule, b: seq<Rule>)
    requires IsManaged(r)
    ensures Unmanaged(a + [r] + b) == Unmanaged(a + b)
  {
    assert Unmanaged([r]) == [];
    UnmanagedConcat(a + [r], b);
    UnmanagedConcat(a, [r]);
    UnmanagedConcat(a, b);
  }

  lemma InsertKeepsUnmanaged(rules: seq<Rule>, k: nat, r: Rule)
    requires k <= |rules| && IsManaged(r)
    ensures Unmanaged(Insert(rules, k, [r])) == Unmanaged(rules)
  {
    UnmanagedMiddle(rules[..k], r, rules[k..]);
    assert rules[..k] + rules[k..] == rules;
  }

  lemma AcceptIn(rules: seq<Rule>, more: seq<Rule>, proto: string, port: nat)
    requires HasAccept(rules, proto, port) && forall x :: x in rules && IsAccept(x, proto, port) ==> x in more
    ensures HasAccept(more, proto, port)
  {
    var i :| 0 <= i < |rules| && IsAccept(rules[i], proto, port);
    assert rules[i] in more;
  }

  /** One step opens its port, closes none, and leaves the operator's rules. */
  lemma OpenedStep(rules: seq<Rule>, policy: Verdict, l: Listener)
    requires IsPanelListener(l)
    ensures var now := Opened(rules, policy, l);
            && HasCatchAll(now) == HasCatchAll(rules) && Unmanaged(now) == Unmanaged(rules)
            && (Blocks(now, policy) ==> HasAccept(now, l.proto, l.port))
            && forall x :: x in rules ==> x in now
  {
    if NeedsRule(rules, policy, l) {
      var r, k := OpenRule(l), InsertionPoint(rules);
      InsertKeepsCatchAll(rules, k, r);
      InsertKeepsUnmanaged(rules, k, r);
      InsertedRules(rules, k, r, Insert(rules, k, [r]));
      assert IsAccept(Insert(rules, k, [r])[k], l.proto, l.port);
    }
  }

  lemma {:induction false} OpenedAllSteps(rules: seq<Rule>, policy: Verdict, ls: seq<Listener>)
    requires AllPanel(ls)
    ensures var now := OpenedAll(rules, policy, ls);
            && HasCatchAll(now) == HasCatchAll(rules) && Unmanaged(now) == Unmanaged(rules)
            && (Blocks(now, policy) ==> forall l <- ls :: HasAccept(now, l.proto, l.port))
            && forall x :: x in rules ==> x in now
    decreases |ls|
  {
    if ls != [] {
      var first := Opened(rules, policy, ls[0]);
      var now := OpenedAll(first, policy, ls[1..]);
      OpenedStep(rules, policy, ls[0]);
      OpenedAllSteps(first, policy, ls[1..]);
      if Blocks(now, policy) {
        AcceptIn(first, now, ls[0].proto, ls[0].port);
        forall l | l in ls ensures HasAccept(now, l.proto, l.port) {
          assert l == ls[0] || l in ls[1..];
        }
      }
    }
  }

  /** The chain holds what the listeners need and no rule of the panel besides. */
  predicate Settled(rules: seq<Rule>, policy: Verdict, ls: seq<Listener>) {
    && (forall l <- ls :: !NeedsRule(rules, policy, l))
    && forall i :: 0 <= i < |rules| ==> !IsStale(rules[i], Keys(ls))
  }

  lemma UnstaleKeepsCatchAll(rules: seq<Rule>, keep: Keep)
    ensures HasCatchAll(Unstale(rules, keep)) <==> HasCatchAll(rules)
  {
    var now := Unstale(rules, keep);
    if HasCatchAll(rules) {
      var i :| 0 <= i < |rules| && IsCatchAll(rules[i]);
      assert rules[i] in now;
    }
    if HasCatchAll(now) {
      var i :| 0 <= i < |now| && IsCatchAll(now[i]);
      assert now[i] in rules;
    }
  }

  /** Reconciling settles the chain and keeps every rule of the operator, in
      order; the panel's rules that remain belong to a listener. */
  lemma ReconciledSettles(rules: seq<Rule>, policy: Verdict, ls: seq<Listener>)
    requires AllPanel(ls)
    ensures Settled(Reconciled(rules, policy, ls), policy, ls)
    ensures Unmanaged(Reconciled(rules, policy, ls)) == Unmanaged(rules)
  {
    var grown, keep := OpenedAll(rules, policy, ls), Keys(ls);
    var now := Unstale(grown, keep);
    OpenedAllSteps(rules, policy, ls);
    PruneKeepsUnmanaged(grown, keep);
    UnstaleKeepsCatchAll(grown, keep);
    if Blocks(now, policy) {
      forall l | l in ls ensures HasAccept(now, l.proto, l.port) {
        assert (l.proto, l.port) in keep;
        AcceptIn(grown, now, l.proto, l.port);
      }
    }
  }

  lemma {:induction false} NothingToOpen(rules: seq<Rule>, policy: Verdict, ls: seq<Listener>)
    requires forall l <- ls :: !NeedsRule(rules, policy, l)
    ensures OpenedAll(rules, policy, ls) == rules
  {
    if ls != [] {
      assert ls[0] in ls;
      NothingToOpen(rules, policy, ls[1..]);
    }
  }

  lemma SettledIsFixed(rules: seq<Rule>, policy: Verdict, ls: seq<Listener>)
    requires Settled(rules, policy, ls)
    ensures Reconciled(rules, policy, ls) == rules
  {
    NothingToOpen(rules, policy, ls);
    NothingStale(rules, Keys(ls));
  }

  /** A second run changes nothing. */
  lemma ReconciledTwice(rules: seq<Rule>, policy: Verdict, ls: seq<Listener>)
    requires AllPanel(ls)
    ensures Reconciled(Reconciled(rules, policy, ls), policy, ls) == Reconciled(rules, policy, ls)
  {
    ReconciledSettles(rules, policy, ls);
    SettledIsFixed(Reconciled(rules, policy, ls), policy, ls);
  }

  lemma {:induction false} PruneMeaning(rules: seq<Rule>, keep: Keep, policy: Verdict, p: Packet)
    requires forall x <- rules :: IsStale(x, keep) ==> !Matches(x, p)
    ensures Decision(Unstale(rules, keep), policy, p) == Decision(rules, policy, p)
  {
    if rules != [] {
      var head, rest := rules[0], Unstale(rules[1..], keep);
      assert head in rules;
      PruneMeaning(rules[1..], keep, policy, p);
      DecisionStep(head, rest, policy, p);
      if IsStale(head, keep) {
        assert Unstale(rules, keep) == rest;
      } else {
        assert Unstale(rules, keep) == [head] + rest;
      }
    }
  }

  lemma DecisionStep(r: Rule, rest: seq<Rule>, policy: Verdict, p: Packet)
    ensures Decision([r] + rest, policy, p) ==
            if RuleDecision(r, policy, p).Some? then RuleDecision(r, policy, p) else Decision(rest, policy, p)
  {
    DecisionConcat([r], rest, policy, p);
    DecisionOne(r, policy, p);
  }

  predicate Reaches(p: Packet, l: Listener) { p.proto == l.proto && p.port == l.port }

  lemma OpeningOneMeaning(rules: seq<Rule>, policy: Verdict, l: Listener, p: Packet)
    requires IsPanelListener(l) && !Reaches(p, l)
    ensures VerdictOf(Opened(rules, policy, l), policy, p) == VerdictOf(rules, policy, p)
    ensures forall x <- Opened(rules, policy, l) :: x in rules || !Matches(x, p)
  {
    var r, k := OpenRule(l), InsertionPoint(rules);
    assert !Matches(r, p);
    DecisionOne(r, policy, p);
    InsertMeaning(rules, k, [r], policy, p);
    InsertedRules(rules, k, r, Insert(rules, k, [r]));
  }

  lemma {:induction false} OpeningMeaning(rules: seq<Rule>, policy: Verdict, ls: seq<Listener>, p: Packet)
    requires AllPanel(ls) && forall l <- ls :: !Reaches(p, l)
    ensures VerdictOf(OpenedAll(rules, policy, ls), policy, p) == VerdictOf(rules, policy, p)
    ensures forall x <- OpenedAll(rules, policy, ls) :: x in rules || !Matches(x, p)
    decreases |ls|
  {
    if ls != [] {
      assert ls[0] in ls;
      OpeningOneMeaning(rules, policy, ls[0], p);
      assert forall l <- ls[1..] :: l in ls;
      OpeningMeaning(Opened(rules, policy, ls[0]), policy, ls[1..], p);
    }
  }

  /** Traffic to no listener that no stale rule matches is treated as before. */
  lemma OtherTrafficIsUntouched(rules: seq<Rule>, policy: Verdict, ls: seq<Listener>, p: Packet)
    requires AllPanel(ls) && forall l <- ls :: !Reaches(p, l)
    requires forall x <- rules :: IsStale(x, Keys(ls)) ==> !Matches(x, p)
    ensures VerdictOf(Reconciled(rules, policy, ls), policy, p) == VerdictOf(rules, policy, p)
  {
    OpeningMeaning(rules, policy, ls, p);
    var grown := OpenedAll(rules, policy, ls);
    PruneMeaning(grown, Keys(ls), policy, p);
  }

  /** Opening a port, for one packet: all other traffic keeps its verdict, and a
      packet to the listener ends up accepted if and only if the rules before the
      insertion point accept it, or leave it alone while a rule was needed or the
      chain lets through what no rule decides. */
  lemma OpenedMeaning(rules: seq<Rule>, policy: Verdict, l: Listener, p: Packet)
    requires l.proto in {"tcp", "udp"}
    ensures var early := Decision(rules[..InsertionPoint(rules)], policy, p);
            if Reaches(p, l) then
              VerdictOf(Opened(rules, policy, l), policy, p) == Accepted <==>
              early == Some(Accepted) || (early.None? && (NeedsRule(rules, policy, l) || (!HasCatchAll(rules) && policy == Accepted)))
            else VerdictOf(Opened(rules, policy, l), policy, p) == VerdictOf(rules, policy, p)
  {
    var k := InsertionPoint(rules);
    DecisionOne(OpenRule(l), policy, p);
    InsertMeaning(rules, k, [OpenRule(l)], policy, p);
    if Decision(rules[..k], policy, p).Some? {
      DecidedEarly(rules, k, policy, p);
    } else {
      UndecidedEarly(rules, policy, p);
    }
  }

  /** What reaches the insertion point meets the catch-all, or the policy. */
  lemma UndecidedEarly(rules: seq<Rule>, policy: Verdict, p: Packet)
    requires Decision(rules[..InsertionPoint(rules)], policy, p).None?
    ensures if HasCatchAll(rules) then VerdictOf(rules, policy, p) in {Dropped, Rejected} else VerdictOf(rules, policy, p) == policy
  {
    var k := InsertionPoint(rules);
    DecisionConcat(rules[..k], rules[k..], policy, p);
    assert rules[..k] + rules[k..] == rules;
    if k < |rules| {
      assert rules[k..][0] == rules[k] && RuleDecision(rules[k], policy, p).Some?;
    } else {
      assert rules[..k] == rules;
    }
  }

  /** Every packet to the listener gets through. */
  ghost predicate Serves(rules: seq<Rule>, policy: Verdict, l: Listener) {
    forall p: Packet :: Reaches(p, l) ==> VerdictOf(rules, policy, p) == Accepted
  }

  /** No rule turns away a packet to the listener that reaches it. */
  ghost predicate LetsThrough(rules: seq<Rule>, policy: Verdict, l: Listener) {
    forall i, p: Packet :: 0 <= i < |rules| && Reaches(p, l) && Decision(rules[..i], policy, p).None? ==>
      RuleDecision(rules[i], policy, p) in {None, Some(Accepted)}
  }

  /** Every packet to the listener is matched by a rule that accepts it. */
  ghost predicate Covered(rules: seq<Rule>, policy: Verdict, l: Listener) {
    forall p: Packet :: Reaches(p, l) ==> exists i :: 0 <= i < |rules| && RuleDecision(rules[i], policy, p) == Some(Accepted)
  }

  lemma {:induction false} FirstDecider(rules: seq<Rule>, policy: Verdict, p: Packet) returns (i: nat)
    requires Decision(rules, policy, p).Some?
    ensures i < |rules| && Decision(rules[..i], policy, p).None? && RuleDecision(rules[i], policy, p) == Decision(rules, policy, p)
  {
    if RuleDecision(rules[0], policy, p).Some? {
      i := 0;
    } else {
      var j := FirstDecider(rules[1..], policy, p);
      i := j + 1;
      assert rules[..i] == [rules[0]] + rules[1..][..j];
      DecisionStep(rules[0], rules[1..][..j], policy, p);
    }
  }

  lemma {:induction false} NobodyDecides(rules: seq<Rule>, policy: Verdict, p: Packet)
    requires Decision(rules, policy, p).None?
    ensures forall i :: 0 <= i < |rules| ==> RuleDecision(rules[i], policy, p).None?
  {
    if rules != [] {
      NobodyDecides(rules[1..], policy, p);
      forall i | 0 <= i < |rules| ensures RuleDecision(rules[i], policy, p).None? {
        assert i > 0 ==> rules[i] == rules[1..][i - 1];
      }
    }
  }

  lemma LetsThroughIff(rules: seq<Rule>, policy: Verdict, l: Listener)
    ensures LetsThrough(rules, policy, l) <==> forall p: Packet :: Reaches(p, l) ==> Decision(rules, policy, p) in {None, Some(Accepted)}
  {
    if LetsThrough(rules, policy, l) {
      forall p: Packet | Reaches(p, l) ensures Decision(rules, policy, p) in {None, Some(Accepted)} {
        if Decision(rules, policy, p).Some? {
          var i := FirstDecider(rules, policy, p);
        }
      }
    } else {
      var i, p: Packet :| 0 <= i < |rules| && Reaches(p, l) && Decision(rules[..i], policy, p).None?
        && RuleDecision(rules[i], policy, p) !in {None, Some(Accepted)};
      DecidedAt(rules, i, policy, p);
    }
  }

  lemma CoveredIff(rules: seq<Rule>, policy: Verdict, l: Listener)
    ensures LetsThrough(rules, policy, l) && Covered(rules, policy, l)
            <==> forall p: Packet :: Reaches(p, l) ==> Decision(rules, policy, p) == Some(Accepted)
  {
    LetsThroughIff(rules, policy, l);
    forall p: Packet | Reaches(p, l)
      ensures Decision(rules, policy, p).None? ==> !exists i :: 0 <= i < |rules| && RuleDecision(rules[i], policy, p) == Some(Accepted)
      ensures Decision(rules, policy, p) == Some(Accepted) ==>
                exists i :: 0 <= i < |rules| && RuleDecision(rules[i], policy, p) == Some(Accepted)
    {
      if Decision(rules, policy, p).None? {
        NobodyDecides(rules, policy, p);
      } else {
        var i := FirstDecider(rules, policy, p);
      }
    }
  }

  /** When EnsureOpen leaves a port open to everybody, for every chain.  No rule
      before the insertion point may turn a packet of the listener away; and
      unless a rule was added, or the chain is open anyway, accepting rules there
      must match them all: an accept rule elsewhere, or for some packets only,
      stops EnsureOpen from adding one without opening the port. */
  lemma OpenedServesIff(rules: seq<Rule>, policy: Verdict, l: Listener)
    requires l.proto in {"tcp", "udp"}
    ensures var before := rules[..InsertionPoint(rules)];
            Serves(Opened(rules, policy, l), policy, l) <==>
            && LetsThrough(before, policy, l)
            && (NeedsRule(rules, policy, l) || (!HasCatchAll(rules) && policy == Accepted) || Covered(before, policy, l))
  {
    var before := rules[..InsertionPoint(rules)];
    forall p: Packet | Reaches(p, l)
      ensures VerdictOf(Opened(rules, policy, l), policy, p) == Accepted <==>
              Decision(before, policy, p) == Some(Accepted)
              || (Decision(before, policy, p).None? && (NeedsRule(rules, policy, l) || (!HasCatchAll(rules) && policy == Accepted)))
    {
      OpenedMeaning(rules, policy, l, p);
    }
    LetsThroughIff(before, policy, l);
    CoveredIff(before, policy, l);
  }

  /** An accept rule for the listener without any further match. */
  predicate IsPlainAccept(r: Rule, l: Listener) {
    && r.target == Accept && r.source.None? && r.extra == []
    && r.proto in {"", l.proto} && (r.ports.None? || InPorts(l.port, r.ports.value))
  }

  /** A rule whose acceptance can only be an unconditional one. */
  predicate AcceptsPlainly(r: Rule) {
    (r.target == Accept ==> r.source.None? && r.extra == []) && !r.target.Return? && !r.target.Other?
  }

  /** Among such rules, covering the listener takes a plain accept rule for it. */
  lemma CoveredByPlainAccept(rules: seq<Rule>, policy: Verdict, l: Listener)
    ensures (exists i :: 0 <= i < |rules| && IsPlainAccept(rules[i], l)) ==> Covered(rules, policy, l)
    ensures (forall i :: 0 <= i < |rules| ==> AcceptsPlainly(rules[i])) ==>
              (Covered(rules, policy, l) <==> exists i :: 0 <= i < |rules| && IsPlainAccept(rules[i], l))
  {
    if i :| 0 <= i < |rules| && IsPlainAccept(rules[i], l) {
      forall p: Packet | Reaches(p, l) ensures RuleDecision(rules[i], policy, p) == Some(Accepted) {
      }
    }
    if Covered(rules, policy, l) && forall i :: 0 <= i < |rules| ==> AcceptsPlainly(rules[i]) {
      var p := Packet(l.proto, l.port, 0, {}, map[]);
      assert Reaches(p, l);
      var i :| 0 <= i < |rules| && RuleDecision(rules[i], policy, p) == Some(Accepted);
      assert IsPlainAccept(rules[i], l);
    }
  }

  /** An accept rule for one source, or one behind the catch-all, counts as open:
      nothing is added, and whoever it does not let in before the insertion point
      stays shut out. */
  lemma CountedAsOpen(rules: seq<Rule>, policy: Verdict, l: Listener, p: Packet)
    requires l.proto in {"tcp", "udp"} && Blocks(rules, policy) && HasAccept(rules, l.proto, l.port) && Reaches(p, l)
    requires Decision(rules[..InsertionPoint(rules)], policy, p).None?
    ensures Opened(rules, policy, l) == rules && VerdictOf(rules, policy, p) != Accepted
  {
    OpenedMeaning(rules, policy, l, p);
  }

  /** Both ways it happens. */
  lemma SourceBoundOrDeadAccept(l: Listener, range: Cidr, p: Packet)
    requires l.proto in {"tcp", "udp"} && Reaches(p, l) && !InRange(p.source, range)
    ensures var bound := [Rule(l.proto, Some(Ports(l.port, l.port)), Some(range), "", [], Accept)];
            Opened(bound, Dropped, l) == bound && VerdictOf(bound, Dropped, p) == Dropped
    ensures var dead := [Rule("", None, None, "", [], Reject), Rule(l.proto, Some(Ports(l.port, l.port)), None, "", [], Accept)];
            Opened(dead, Dropped, l) == dead && !Serves(dead, Dropped, l)
  {
    var bound := [Rule(l.proto, Some(Ports(l.port, l.port)), Some(range), "", [], Accept)];
    assert IsAccept(bound[0], l.proto, l.port);
    InsertionPointIs(bound, 1);
    assert bound[..1] == bound;
    DecisionOne(bound[0], Dropped, p);
    CountedAsOpen(bound, Dropped, l, p);
    var dead := [Rule("", None, None, "", [], Reject), Rule(l.proto, Some(Ports(l.port, l.port)), None, "", [], Accept)];
    assert IsAccept(dead[1], l.proto, l.port) && IsCatchAll(dead[0]);
    InsertionPointIs(dead, 0);
    assert dead[..0] == [];
    CountedAsOpen(dead, Dropped, l, p);
  }

  // ---------- Reading the chain ----------

  /** The 1-based position of the first catch-all, or 0. */
  method CatchAllPosition(spec: seq<Rule>) returns (pos: nat)
    ensures pos == if HasCatchAll(spec) then InsertionPoint(spec) + 1 else 0
  {
    pos := 0;
    for i := 0 to |spec|
      invariant pos == i && forall j :: 0 <= j < i ==> !IsCatchAll(spec[j])
    {
      pos := pos + 1;
      if IsCatchAll(spec[i]) {
        InsertionPointIs(spec, i);
        return;
      }
    }
    pos := 0;
  }

  method FindAccept(spec: seq<Rule>, proto: string, port: nat) returns (found: bool)
    ensures found <==> HasAccept(spec, proto, port)
  {
    for i := 0 to |spec|
      invariant forall j :: 0 <= j < i ==> !IsAccept(spec[j], proto, port)
    {
      if IsAccept(spec[i], proto, port) {
        return true;
      }
    }
    return false;
  }

  method StaleRules(spec: seq<Rule>, keep: Keep) returns (out: seq<Rule>)
    ensures out == Stale(spec, keep)
  {
    out := [];
    for i := 0 to |spec|
      invariant out + Stale(spec[i..], keep) == Stale(spec, keep)
    {
      if IsStale(spec[i], keep) {
        out := out + [spec[i]];
      }
    }
  }

  // ---------- Editing the chain ----------

  datatype Inbound = Inbound(protocol: string, port: nat, tag: string)

  function Protos(protocol: string): seq<string> {
    match protocol
    case "hysteria2" => ["udp"]
    case "tuic" => ["udp"]
    case "shadowsocks" => ["tcp", "udp"]
    case _ => ["tcp"]
  }

  function InboundListeners(inbound: Inbound): (ls: seq<Listener>)
    ensures forall l <- ls :: l.proto in {"tcp", "udp"} && l.port == inbound.port && l.comment == MANAGED + inbound.tag
  {
    var protos := Protos(inbound.protocol);
    seq(|protos|, i requires 0 <= i < |protos| => Listener(protos[i], inbound.port, MANAGED + inbound.tag))
  }

  function SubscriptionListeners(subscription: Option<nat>): seq<Listener> {
    match subscription case None => [] case Some(port) => [Listener("tcp", port, MANAGED + "subscription")]
  }

  lemma SubscriptionIsPanel(subscription: Option<nat>)
    ensures AllPanel(SubscriptionListeners(subscription))
  {
    MarkSurvives("subscription");
  }

  /** The enabled inbounds, then the subscription server if it is enabled. */
  function Listeners(inbounds: seq<Inbound>, subscription: Option<nat>): seq<Listener> {
    if inbounds == [] then SubscriptionListeners(subscription)
    else InboundListeners(inbounds[0]) + Listeners(inbounds[1..], subscription)
  }

  lemma {:induction false} ListenersArePanel(inbounds: seq<Inbound>, subscription: Option<nat>)
    ensures AllPanel(Listeners(inbounds, subscription))
  {
    if inbounds == [] {
      SubscriptionIsPanel(subscription);
    } else {
      ListenersArePanel(inbounds[1..], subscription);
      MarkSurvives(inbounds[0].tag);
      assert forall i :: 0 <= i < |InboundListeners(inbounds[0])| ==> InboundListeners(inbounds[0])[i] in InboundListeners(inbounds[0]);
    }
  }

  /** The port of an inbound of this protocol is to be open for `proto`. */
  predicate Speaks(protocol: string, proto: string) {
    || (proto == "tcp" && protocol !in {"hysteria2", "tuic"})
    || (proto == "udp" && protocol in {"hysteria2", "tuic", "shadowsocks"})
  }

  /** The listeners are exactly those of the inbounds, on TCP unless they speak QUIC,
      on UDP if they do or are shadowsocks, and that of the subscription server. */
  lemma {:induction false} ListenersExactly(inbounds: seq<Inbound>, subscription: Option<nat>, l: Listener)
    ensures l in Listeners(inbounds, subscription) <==>
            || (exists b <- inbounds :: Speaks(b.protocol, l.proto) && l.port == b.port && l.comment == "zenith-" + b.tag)
            || (subscription.Some? && l == Listener("tcp", subscription.value, "zenith-" + "subscription"))
  {
    if inbounds != [] {
      InboundSpeaks(inbounds[0], l);
      ListenersExactly(inbounds[1..], subscription, l);
      assert inbounds == [inbounds[0]] + inbounds[1..];
    }
  }

  lemma InboundSpeaks(b: Inbound, l: Listener)
    ensures l in InboundListeners(b) <==> Speaks(b.protocol, l.proto) && l.port == b.port && l.comment == "zenith-" + b.tag
  {
    var ls := InboundListeners(b);
    forall i | 0 <= i < |ls| ensures ls[i] in ls {
    }
    if Speaks(b.protocol, l.proto) && l.port == b.port && l.comment == "zenith-" + b.tag {
      assert l == ls[if l.proto == "udp" && b.protocol == "shadowsocks" then 1 else 0];
    }
  }

  /** A query whose error is dropped: it may yield some of the rows, or none. */
  method ReadInbounds(inbounds: seq<Inbound>, calm: bool) returns (seen: seq<Inbound>)
    ensures seen <= inbounds && (calm ==> seen == inbounds)
  {
    seen := inbounds;
    var ok := Try(calm);
    if !ok {
      var rows: int := *;
      if 0 <= rows < |inbounds| {
        seen := inbounds[..rows];
      }
    }
  }

  /** Two settings, each with a default for a failed read. */
  method ReadSubscription(subscription: Option<nat>, calm: bool) returns (heard: Option<nat>)
    ensures Heard(subscription, heard) && (calm ==> heard == subscription)
  {
    heard := subscription;
    var enabledRead := Try(calm);
    var portRead := Try(calm);
    if !enabledRead {
      heard := None;
    } else if heard.Some? && !portRead {
      heard := Some(DEFAULT_PORT);
    }
  }

  /** The chain and the commands on it.  In every call, `calm` says that no command
      and no query fails during it. */
  class Host {
    var policy: Verdict
    var rules: seq<Rule>

    constructor (policy: Verdict, rules: seq<Rule>)
      ensures this.policy == policy && this.rules == rules
    {
      this.policy := policy;
      this.rules := rules;
    }

    /** One `iptables -I` or `-A`. */
    method Run(k: nat, r: Rule, calm: bool) returns (ok: bool)
      requires k <= |rules|
      modifies this`rules
      ensures calm ==> ok
      ensures rules == if ok then Insert(old(rules), k, [r]) else old(rules)
    {
      ok := Try(calm);
      if ok {
        rules := rules[..k] + [r] + rules[k..];
      }
    }

    /** AddRule.  When the chain cannot be listed first, the rule is appended;
        `listed` says whether it could. */
    method AddRule(q: Request, calm: bool) returns (ok: bool, listed: bool)
      modifies this`rules
      ensures calm ==> listed && (ok <==> IsValid(q))
      ensures ok ==> IsValid(q)
      ensures rules == if !ok then old(rules)
                       else Insert(old(rules), if listed then InsertionPoint(old(rules)) else |old(rules)|, [RuleOf(q)])
    {
      listed := Try(calm);
      if !IsValid(q) {
        return false, listed;
      }
      var k := |rules|;
      if listed {
        var pos := CatchAllPosition(rules);
        if pos > 0 {
          k := pos - 1;
        } else {
          InsertionPointIs(rules, |rules|);
        }
      }
      ok := Run(k, RuleOf(q), calm);
    }

    /** EnsureOpen.  `clean` says that no command failed. */
    method EnsureOpen(l: Listener, calm: bool) returns (ok: bool, clean: bool)
      requires IsPanelListener(l)
      modifies this`rules
      ensures calm && PortNumber(l.port) ==> clean
      ensures clean ==> ok && rules == Opened(old(rules), policy, l)
      ensures !NeedsRule(old(rules), policy, l) || !ok ==> rules == old(rules)
      ensures Unmanaged(rules) == Unmanaged(old(rules))
    {
      var readable := Try(calm);
      if !readable {
        return false, false;
      }
      var pos := CatchAllPosition(rules);
      var accepted := FindAccept(rules, l.proto, l.port);
      if !(pos > 0 || policy == Dropped) || accepted {
        return true, true;
      }
      var listed;
      ok, listed := AddRule(OpenRequest(l.proto, l.port, l.comment), calm);
      clean := ok && listed;
      if ok {
        InsertKeepsUnmanaged(old(rules), if listed then InsertionPoint(old(rules)) else |old(rules)|, OpenRule(l));
      }
    }

    /** PruneManaged: one listing, then one deletion for each stale rule. */
    method PruneManaged(keep: Keep, calm: bool) returns (ok: bool, n: nat)
      modifies this`rules
      ensures calm ==> ok
      ensures ok ==> rules == Unstale(old(rules), keep) && n == |Stale(old(rules), keep)|
      ensures Unstale(rules, keep) == Unstale(old(rules), keep) && Unmanaged(rules) == Unmanaged(old(rules))
      ensures n == 0 ==> rules == old(rules)
      ensures n <= |Stale(old(rules), keep)| && Stale(rules, keep) == Stale(old(rules), keep)[n..]
    {
      n := 0;
      var readable := Try(calm);
      if !readable {
        return false, n;
      }
      var stale := StaleRules(rules, keep);
      while n < |stale|
        invariant n == 0 ==> rules == old(rules)
        invariant n <= |stale| && Stale(rules, keep) == stale[n..] && Unstale(rules, keep) == Unstale(old(rules), keep)
      {
        DeleteFirstStale(rules, keep);
        var deleted := Try(calm);
        if !deleted {
          PruneKeepsUnmanaged(rules, keep);
          PruneKeepsUnmanaged(old(rules), keep);
          return false, n;
        }
        rules := DeleteFirst(rules, stale[n]);
        n := n + 1;
      }
      PruneKeepsUnmanaged(rules, keep);
      PruneKeepsUnmanaged(old(rules), keep);
      NothingStale(rules, keep);
      ok := true;
    }

    /** ApplyCloudflareProtection after the old rules are gone.  A failed command
        stops the loop; `n` rules are then in place.  Ports out of range are refused. */
    method Protect(c: Protection, calm: bool) returns (ok: bool, listed: bool, n: nat)
      modifies this`rules
      ensures calm ==> listed && (ok <==> 1 <= c.ports.low <= 65535 && 1 <= c.ports.high <= 65535)
      ensures n <= |c.ranges| + 1 && (ok <==> n == |c.ranges| + 1)
      ensures !(PortNumber(c.ports.low) && PortNumber(c.ports.high)) ==> !ok && rules == old(rules)
      ensures listed ==> rules == Insert(old(rules), InsertionPoint(old(rules)), ProtectionRules(c, n))
    {
      hide Insert, InsertionPoint, ProtectionRules, RequestAt, RuleOf, IsValid;
      listed, n := true, 0;
      NoneProtects(rules, c);
      if !(PortNumber(c.ports.low) && PortNumber(c.ports.high)) {
        return false, listed, n;
      }
      while n < |c.ranges| + 1
        invariant n <= |c.ranges| + 1 && (calm ==> listed)
        invariant listed ==> rules == Insert(old(rules), InsertionPoint(old(rules)), ProtectionRules(c, n))
      {
        var q := RequestAt(c, n);
        ProtectionIsValid(c, n);
        var added, seen := AddRule(q, calm);
        if !added {
          return false, listed, n;
        }
        ProtectionStep(old(rules), c, n, RuleOf(q));
        listed := listed && seen;
        n := n + 1;
      }
      ok := true;
    }

    /** The listeners of one inbound, one after the other. */
    method OpenInbound(inbound: Inbound, calm: bool) returns (ok: bool, clean: bool)
      modifies this`rules
      ensures calm && PortNumber(inbound.port) ==> clean
      ensures clean ==> ok && rules == OpenedAll(old(rules), policy, InboundListeners(inbound))
      ensures (forall l <- InboundListeners(inbound) :: !NeedsRule(old(rules), policy, l)) ==> rules == old(rules)
      ensures Unmanaged(rules) == Unmanaged(old(rules))
    {
      var ls := InboundListeners(inbound);
      MarkSurvives(inbound.tag);
      clean := true;
      for i := 0 to |ls|
        invariant calm && PortNumber(inbound.port) ==> clean
        invariant clean ==> OpenedAll(rules, policy, ls[i..]) == OpenedAll(old(rules), policy, ls)
        invariant (forall l <- ls :: !NeedsRule(old(rules), policy, l)) ==> rules == old(rules)
        invariant Unmanaged(rules) == Unmanaged(old(rules))
      {
        assert ls[i] in ls && ls[i..][1..] == ls[i + 1..];
        var done, fine := EnsureOpen(ls[i], calm);
        if !done {
          return false, false;
        }
        clean := clean && fine;
      }
      ok := true;
    }

    method OpenInbounds(inbounds: seq<Inbound>, subscription: Option<nat>, calm: bool) returns (ok: bool, clean: bool)
      modifies this`rules
      ensures calm && (forall b <- inbounds :: PortNumber(b.port)) ==> clean
      ensures clean ==> ok
      ensures clean ==> OpenedAll(rules, policy, Listeners([], subscription)) == OpenedAll(old(rules), policy, Listeners(inbounds, subscription))
      ensures (forall l <- Listeners(inbounds, subscription) :: !NeedsRule(old(rules), policy, l)) ==> rules == old(rules)
      ensures Unmanaged(rules) == Unmanaged(old(rules))
    {
      ghost var all := Listeners(inbounds, subscription);
      clean := true;
      for i := 0 to |inbounds|
        invariant calm && (forall b <- inbounds :: PortNumber(b.port)) ==> clean
        invariant clean ==> OpenedAll(rules, policy, Listeners(inbounds[i..], subscription)) == OpenedAll(old(rules), policy, all)
        invariant forall l <- Listeners(inbounds[i..], subscription) :: l in all
        invariant (forall l <- all :: !NeedsRule(old(rules), policy, l)) ==> rules == old(rules)
        invariant Unmanaged(rules) == Unmanaged(old(rules))
      {
        ghost var first, rest := InboundListeners(inbounds[i]), Listeners(inbounds[i + 1..], subscription);
        FirstListeners(inbounds[i..], subscription, first, rest);
        OpenedAllConcat(rules, policy, first, rest);
        var done, fine := OpenInbound(inbounds[i], calm);
        if !done {
          return false, false;
        }
        clean := clean && fine;
      }
      ok := true;
      assert inbounds[|inbounds|..] == [];
    }

    method OpenSubscription(subscription: Option<nat>, calm: bool) returns (clean: bool)
      modifies this`rules
      ensures calm && (subscription.Some? ==> PortNumber(subscription.value)) ==> clean
      ensures clean ==> rules == OpenedAll(old(rules), policy, SubscriptionListeners(subscription))
      ensures (forall l <- SubscriptionListeners(subscription) :: !NeedsRule(old(rules), policy, l)) ==> rules == old(rules)
      ensures Unmanaged(rules) == Unmanaged(old(rules))
    {
      clean := true;
      var ls := SubscriptionListeners(subscription);
      if ls != [] {
        SubscriptionIsPanel(subscription);
        assert ls[0] in ls && ls[1..] == [];
        var _, fine := EnsureOpen(ls[0], calm);
        clean := fine;
      }
    }

    /** EnsurePanelPortsOpen.  The query of the inbounds may fail, unnoticed, and
        then yields some of them or none; so may the reads of the two subscription
        settings, with their defaults.  A failing command on an inbound ends the
        run, one on the subscription port does not. */
    method EnsurePanelPortsOpen(inbounds: seq<Inbound>, subscription: Option<nat>, calm: bool)
      returns (clean: bool, seen: seq<Inbound>, heard: Option<nat>)
      modifies this`rules
      ensures calm ==> seen == inbounds && heard == subscription
      ensures calm && (forall b <- inbounds :: 1 <= b.port <= 65535) && (subscription.Some? ==> 1 <= subscription.value <= 65535) ==> clean
      ensures seen <= inbounds && Heard(subscription, heard)
      ensures clean ==> rules == Reconciled(old(rules), policy, Listeners(seen, heard))
      ensures Settled(old(rules), policy, Listeners(seen, heard)) ==> rules == old(rules)
      ensures Unmanaged(rules) == Unmanaged(old(rules))
    {
      hide Unstale, Stale, Heard;
      seen := ReadInbounds(inbounds, calm);
      heard := ReadSubscription(subscription, calm);
      var keep: Keep := Keys(Listeners(seen, heard));
      var done;
      done, clean := OpenInbounds(seen, heard, calm);
      if !done {
        return false, seen, heard;
      }
      LastListeners(seen, heard);
      var fine := OpenSubscription(heard, calm);
      clean := clean && fine;
      NothingStale(old(rules), keep);
      var pruned, _ := PruneManaged(keep, calm);
      clean := clean && pruned;
    }
  }

  const DEFAULT_PORT := 2096

  /** What reading the subscription settings may yield. */
  predicate Heard(subscription: Option<nat>, heard: Option<nat>) {
    heard == subscription || heard.None? || (subscription.Some? && heard == Some(DEFAULT_PORT))
  }

  lemma {:induction false} ListenersOfSome(inbounds: seq<Inbound>, seen: seq<Inbound>, subscription: Option<nat>, heard: Option<nat>)
    requires seen <= inbounds
    ensures forall l <- Listeners(seen, heard) :: l in Listeners(inbounds, subscription) || l in SubscriptionListeners(heard)
  {
    if seen != [] {
      ListenersOfSome(inbounds[1..], seen[1..], subscription, heard);
      assert seen[0] == inbounds[0];
    }
  }

  /** A settled chain after a run that misread what the listeners are: it stays as
      it is if and only if every rule of the panel in it belongs to a listener that
      was read, and the port the subscription server was mistaken for needs no
      rule.  Otherwise even a run without a failed command changes it. */
  lemma MisreadIff(rules: seq<Rule>, policy: Verdict, inbounds: seq<Inbound>, subscription: Option<nat>, seen: seq<Inbound>, heard: Option<nat>)
    requires Settled(rules, policy, Listeners(inbounds, subscription)) && seen <= inbounds && Heard(subscription, heard)
    ensures Reconciled(rules, policy, Listeners(seen, heard)) == rules <==>
            && (forall i :: 0 <= i < |rules| && IsManaged(rules[i]) ==> Kept(rules[i], Keys(Listeners(seen, heard))))
            && (heard != subscription ==> forall l <- SubscriptionListeners(heard) :: !NeedsRule(rules, policy, l))
  {
    var ls := Listeners(seen, heard);
    ListenersOfSome(inbounds, seen, subscription, heard);
    LastListeners(seen, heard);
    LastListeners(inbounds, subscription);
    if Reconciled(rules, policy, ls) == rules {
      ListenersArePanel(seen, heard);
      ReconciledSettles(rules, policy, ls);
      forall i | 0 <= i < |rules| && IsManaged(rules[i]) ensures Kept(rules[i], Keys(ls)) {
        assert !IsStale(rules[i], Keys(ls));
      }
    } else if (forall i :: 0 <= i < |rules| && IsManaged(rules[i]) ==> Kept(rules[i], Keys(ls)))
              && (heard != subscription ==> forall l <- SubscriptionListeners(heard) :: !NeedsRule(rules, policy, l)) {
      SettledIsFixed(rules, policy, ls);
    }
  }

  /** In particular, when no inbound could be read: the chain survives if and only
      if none of its rules belongs to an inbound alone. */
  lemma FailedReadIff(rules: seq<Rule>, policy: Verdict, inbounds: seq<Inbound>, subscription: Option<nat>)
    requires Settled(rules, policy, Listeners(inbounds, subscription))
    ensures Reconciled(rules, policy, Listeners([], subscription)) == rules <==>
            forall i :: 0 <= i < |rules| && IsManaged(rules[i]) ==>
              subscription.Some? && rules[i].proto == "tcp" && rules[i].ports == Some(Ports(subscription.value, subscription.value))
  {
    MisreadIff(rules, policy, inbounds, subscription, [], subscription);
    forall r: Rule | IsManaged(r)
      ensures Kept(r, Keys(Listeners([], subscription))) <==>
              subscription.Some? && r.proto == "tcp" && r.ports == Some(Ports(subscription.value, subscription.value))
    {
      SubscriptionKeeps(r, subscription);
    }
  }

  lemma SubscriptionKeeps(r: Rule, subscription: Option<nat>)
    requires IsManaged(r)
    ensures Kept(r, Keys(Listeners([], subscription))) <==>
            subscription.Some? && r.proto == "tcp" && r.ports == Some(Ports(subscription.value, subscription.value))
  {
    var ls := SubscriptionListeners(subscription);
    assert Listeners([], subscription) == ls;
    if subscription.Some? {
      assert ls == [Listener("tcp", subscription.value, MANAGED + "subscription")];
      assert Keys(ls) == {("tcp", subscription.value)};
    } else {
      assert Keys(ls) == {};
    }
  }

  lemma FirstListeners(inbounds: seq<Inbound>, subscription: Option<nat>, first: seq<Listener>, rest: seq<Listener>)
    requires inbounds != [] && first == InboundListeners(inbounds[0]) && rest == Listeners(inbounds[1..], subscription)
    ensures Listeners(inbounds, subscription) == first + rest
    ensures (forall l <- first :: l in first + rest) && (forall l <- rest :: l in first + rest)
  {
  }

  lemma {:induction false} LastListeners(inbounds: seq<Inbound>, subscription: Option<nat>)
    ensures forall l <- Listeners([], subscription) :: l in Listeners(inbounds, subscription)
  {
    if inbounds != [] {
      LastListeners(inbounds[1..], subscription);
    }
  }
}
