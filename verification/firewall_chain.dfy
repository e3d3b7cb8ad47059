/**
 The INPUT chain as a list of parsed rules with first-match verdicts, and what
 inserting before the catch-all means for every packet.
 */
module FirewallChain {
  import opened Wrappers

  datatype Verdict = Accepted | Dropped | Rejected

  /** `Other` is a user chain or a target such as LOG. */
  datatype Target = Accept | Drop | Reject | Return | Other(name: string)

  datatype Ports = Ports(low: nat, high: nat)

  datatype Cidr = Cidr(base: nat, bits: nat)

  /** One `iptables -S` line.  Absent matches are "" or None; `extra` lists the
      matches the panel never reads, such as interfaces and states. */
  datatype Rule = Rule(proto: string, ports: Option<Ports>, source: Option<Cidr>, comment: string, extra: seq<string>, target: Target)

  /** `facts` are the extra matches that hold of the packet; `chains` the verdicts
      that other chains reach on it. */
  datatype Packet = Packet(proto: string, port: nat, source: nat, facts: set<string>, chains: map<string, Verdict>)

  function Pow2(n: nat): (r: nat)
    ensures r > 0
  {
    if n == 0 then 1 else 2 * Pow2(n - 1)
  }

  /** Agreement on the leading bits of a 32-bit address. */
  predicate InRange(ip: nat, c: Cidr) {
    c.bits <= 32 && ip / Pow2(32 - c.bits) == c.base / Pow2(32 - c.bits)
  }

  predicate InPorts(port: nat, ports: Ports) { ports.low <= port <= ports.high }

  predicate Matches(r: Rule, p: Packet) {
    && (r.proto == "" || r.proto == p.proto)
    && (r.ports.None? || InPorts(p.port, r.ports.value))
    && (r.source.None? || InRange(p.source, r.source.value))
    && forall i :: 0 <= i < |r.extra| ==> r.extra[i] in p.facts
  }

  /** What a matching rule does to the packet; None moves on. */
  function Act(t: Target, policy: Verdict, p: Packet): Option<Verdict> {
    match t
    case Accept => Some(Accepted)
    case Drop => Some(Dropped)
    case Reject => Some(Rejected)
    case Return => Some(policy)
    case Other(name) => if name in p.chains then Some(p.chains[name]) else None
  }

  function RuleDecision(r: Rule, policy: Verdict, p: Packet): Option<Verdict> {
    if Matches(r, p) then Act(r.target, policy, p) else None
  }

  /** The first rule that decides. */
  function Decision(rules: seq<Rule>, policy: Verdict, p: Packet): Option<Verdict> {
    if rules == [] then None
    else
      match RuleDecision(rules[0], policy, p)
      case Some(v) => Some(v)
      case None => Decision(rules[1..], policy, p)
  }

  function VerdictOf(rules: seq<Rule>, policy: Verdict, p: Packet): Verdict {
    match Decision(rules, policy, p)
    case Some(v) => v
    case None => policy
  }

  lemma {:induction false} DecisionConcat(a: seq<Rule>, b: seq<Rule>, policy: Verdict, p: Packet)
    ensures Decision(a + b, policy, p) == if Decision(a, policy, p).Some? then Decision(a, policy, p) else Decision(b, policy, p)
  {
    if a == [] {
      assert a + b == b;
    } else {
      assert (a + b)[1..] == a[1..] + b;
      DecisionConcat(a[1..], b, policy, p);
    }
  }

  // ---------- The insertion point ----------

  /** An unconditional DROP or REJECT, whatever it rejects with. */
  predicate IsCatchAll(r: Rule) {
    && r.proto == "" && r.ports.None? && r.source.None? && r.comment == "" && r.extra == []
    && (r.target == Drop || r.target == Reject)
  }

  /** Where a new rule goes: before the first catch-all, or at the end. */
  function InsertionPoint(rules: seq<Rule>): (k: nat)
    ensures k <= |rules|
    ensures forall i :: 0 <= i < k ==> !IsCatchAll(rules[i])
    ensures k < |rules| ==> IsCatchAll(rules[k])
  {
    if rules == [] || IsCatchAll(rules[0]) then 0 else 1 + InsertionPoint(rules[1..])
  }

  predicate HasCatchAll(rules: seq<Rule>) { exists i :: 0 <= i < |rules| && IsCatchAll(rules[i]) }

  lemma InsertionPointIs(rules: seq<Rule>, k: nat)
    requires k <= |rules| && (forall i :: 0 <= i < k ==> !IsCatchAll(rules[i])) && (k < |rules| ==> IsCatchAll(rules[k]))
    ensures InsertionPoint(rules) == k
  {
    var j := InsertionPoint(rules);
    var least := if j < k then j else k;
    if least < |rules| {
      assert IsCatchAll(rules[least]);
    }
  }

  function Insert(rules: seq<Rule>, k: nat, added: seq<Rule>): seq<Rule>
    requires k <= |rules|
  {
    rules[..k] + added + rules[k..]
  }

  /** Rules added one after the other line up in order before the catch-all. */
  lemma InsertOneMore(rules: seq<Rule>, added: seq<Rule>, r: Rule)
    requires forall i :: 0 <= i < |added| ==> !IsCatchAll(added[i])
    ensures var k := InsertionPoint(rules);
            var now := Insert(rules, k, added);
            InsertionPoint(now) == k + |added| && Insert(now, k + |added|, [r]) == Insert(rules, k, added + [r])
  {
    var k := InsertionPoint(rules);
    InsertionPointIs(Insert(rules, k, added), k + |added|);
  }

  /** Inserted rules decide exactly the packets that reach them and that they
      match; every other verdict stays. */
  lemma InsertMeaning(rules: seq<Rule>, k: nat, added: seq<Rule>, policy: Verdict, p: Packet)
    requires k <= |rules|
    ensures VerdictOf(Insert(rules, k, added), policy, p) ==
            if Decision(rules[..k], policy, p).None? && Decision(added, policy, p).Some? then Decision(added, policy, p).value
            else VerdictOf(rules, policy, p)
  {
    DecisionConcat(rules[..k] + added, rules[k..], policy, p);
    DecisionConcat(rules[..k], added, policy, p);
    DecisionConcat(rules[..k], rules[k..], policy, p);
    assert rules[..k] + rules[k..] == rules;
  }

  /** A catch-all ends the chain: what comes after it never decides. */
  lemma AppendedAfterCatchAllIsDead(rules: seq<Rule>, added: seq<Rule>, policy: Verdict, p: Packet)
    requires HasCatchAll(rules)
    ensures VerdictOf(rules + added, policy, p) == VerdictOf(rules, policy, p)
  {
    var k := InsertionPoint(rules);
    assert k < |rules| by {
      var i :| 0 <= i < |rules| && IsCatchAll(rules[i]);
    }
    DecisionConcat(rules, added, policy, p);
    DecisionConcat(rules[..k], rules[k..], policy, p);
    assert rules[..k] + rules[k..] == rules;
    assert RuleDecision(rules[k..][0], policy, p).Some?;
  }

  // ---------- Requests ----------

  /** The arguments of AddRule: "" and "all" ask for any protocol. */
  datatype Request = Request(proto: string, ports: Option<Ports>, action: Target, source: Option<Cidr>, comment: string)

  predicate PortNumber(n: nat) { 1 <= n <= 65535 }

  /** What validateRule and the IPv4 checks let through. */
  predicate IsValid(q: Request) {
    && q.proto in {"", "tcp", "udp", "icmp", "all"}
    && (q.ports.None? || (PortNumber(q.ports.value.low) && PortNumber(q.ports.value.high) && q.proto in {"tcp", "udp"}))
    && q.action in {Accept, Drop, Reject}
  }

  predicate IsSafe(c: char) {
    'a' <= c <= 'z' || 'A' <= c <= 'Z' || '0' <= c <= '9' || c in {' ', '-', '_', '.'}
  }

  function Safe(s: string): string {
    if s == "" then "" else (if IsSafe(s[0]) then [s[0]] else []) + Safe(s[1..])
  }

  function SafeComment(s: string): string {
    if |Safe(s)| > 64 then Safe(s)[..64] else Safe(s)
  }

  function RuleOf(q: Request): Rule {
    Rule(if q.proto == "all" then "" else q.proto, q.ports, q.source, SafeComment(q.comment), [], q.action)
  }

  /** A rule with a match the panel never reads applies only where that holds too. */
  lemma UnreadMatch(r: Rule, p: Packet, x: string)
    requires x in r.extra && x !in p.facts
    ensures !Matches(r, p)
  {
  }

  /** A comment is made of letters, digits, blanks, dashes, underscores and dots, at
      most 64 of them; a comment that already is stays as it is. */
  lemma CommentIsSafe(s: string)
    ensures |SafeComment(s)| <= 64 && forall c <- SafeComment(s) :: Plain(c)
    ensures |s| <= 64 && (forall c <- s :: Plain(c)) ==> SafeComment(s) == s
    ensures |s| > 64 && (forall c <- s :: Plain(c)) ==> SafeComment(s) == s[..64]
  {
    SafeIsPlain(s);
    if forall c <- s :: Plain(c) {
      forall i | 0 <= i < |s| ensures IsSafe(s[i]) {
        assert s[i] in s;
      }
      SafeKeeps(s);
    }
  }

  predicate Plain(c: char) {
    'a' <= c <= 'z' || 'A' <= c <= 'Z' || '0' <= c <= '9' || c == ' ' || c == '-' || c == '_' || c == '.'
  }

  lemma {:induction false} SafeIsPlain(s: string)
    ensures forall c <- Safe(s) :: Plain(c)
  {
    if s != "" {
      SafeIsPlain(s[1..]);
    }
  }

  /** Requests with another protocol or action are refused, and so are ports out of
      range, and ports for a protocol without ports. */
  lemma RefusedIff(q: Request)
    ensures !IsValid(q) <==>
            || (q.proto != "" && q.proto != "all" && q.proto != "tcp" && q.proto != "udp" && q.proto != "icmp")
            || (q.action != Accept && q.action != Drop && q.action != Reject)
            || (q.ports.Some? && (q.ports.value.low < 1 || q.ports.value.low > 65535 || q.ports.value.high < 1 || q.ports.value.high > 65535
                                  || (q.proto != "tcp" && q.proto != "udp")))
  {
  }

  /** The rule for a request matches exactly the packets asked for. */
  lemma RuleMeaning(q: Request, p: Packet)
    ensures Matches(RuleOf(q), p) <==>
            && (q.proto in {"", "all"} || p.proto == q.proto)
            && (q.ports.Some? ==> q.ports.value.low <= p.port <= q.ports.value.high)
            && (q.source.Some? ==> InRange(p.source, q.source.value))
    ensures RuleOf(q).target == q.action
  {
  }

  // ---------- Managed rules ----------

  const MANAGED := "zenith-"

  lemma {:induction false} SafeConcat(a: string, b: string)
    ensures Safe(a + b) == Safe(a) + Safe(b)
  {
    if a == "" {
      assert a + b == b;
    } else {
      var head, x, y := if IsSafe(a[0]) then [a[0]] else [], Safe(a[1..]), Safe(b);
      SafeConcat(a[1..], b);
      assert (a + b)[1..] == a[1..] + b && (a + b)[0] == a[0];
      assert head + (x + y) == head + x + y;
    }
  }

  lemma {:induction false} SafeKeeps(s: string)
    requires forall i :: 0 <= i < |s| ==> IsSafe(s[i])
    ensures Safe(s) == s
  {
    if s != "" {
      SafeKeeps(s[1..]);
      assert s == [s[0]] + s[1..];
    }
  }

  /** Cleaning and cutting a comment keeps the panel's mark. */
  lemma MarkSurvives(tag: string)
    ensures MANAGED <= SafeComment(MANAGED + tag)
  {
    SafeConcat(MANAGED, tag);
    SafeKeeps(MANAGED);
  }

  /** A rule the panel may prune; the target plays no part. */
  predicate IsManaged(r: Rule) { MANAGED <= r.comment && r.proto != "" && r.ports.Some? }

  type Keep = set<(string, nat)>

  predicate Kept(r: Rule, keep: Keep)
    requires IsManaged(r)
  {
    r.ports.value.low == r.ports.value.high && (r.proto, r.ports.value.low) in keep
  }

  predicate IsStale(r: Rule, keep: Keep) { IsManaged(r) && !Kept(r, keep) }

  function Stale(rules: seq<Rule>, keep: Keep): (out: seq<Rule>)
    ensures forall i :: 0 <= i < |out| ==> IsStale(out[i], keep)
  {
    if rules == [] then []
    else (if IsStale(rules[0], keep) then [rules[0]] else []) + Stale(rules[1..], keep)
  }

  function Unstale(rules: seq<Rule>, keep: Keep): (out: seq<Rule>)
    ensures forall i :: 0 <= i < |out| ==> out[i] in rules && !IsStale(out[i], keep)
    ensures forall r :: r in rules && !IsStale(r, keep) ==> r in out
  {
    if rules == [] then []
    else (if IsStale(rules[0], keep) then [] else [rules[0]]) + Unstale(rules[1..], keep)
  }

  function Unmanaged(rules: seq<Rule>): seq<Rule> {
    if rules == [] then []
    else (if IsManaged(rules[0]) then [] else [rules[0]]) + Unmanaged(rules[1..])
  }

  lemma {:induction false} UnmanagedConcat(a: seq<Rule>, b: seq<Rule>)
    ensures Unmanaged(a + b) == Unmanaged(a) + Unmanaged(b)
  {
    if a == [] {
      assert a + b == b;
    } else {
      assert (a + b)[1..] == a[1..] + b;
      UnmanagedConcat(a[1..], b);
    }
  }

  lemma {:induction false} PruneKeepsUnmanaged(rules: seq<Rule>, keep: Keep)
    ensures Unmanaged(Unstale(rules, keep)) == Unmanaged(rules)
  {
    if rules != [] {
      PruneKeepsUnmanaged(rules[1..], keep);
      var head := if IsStale(rules[0], keep) then [] else [rules[0]];
      UnmanagedConcat(head, Unstale(rules[1..], keep));
    }
  }

  lemma {:induction false} NothingStale(rules: seq<Rule>, keep: Keep)
    ensures Stale(rules, keep) == [] <==> forall i :: 0 <= i < |rules| ==> !IsStale(rules[i], keep)
    ensures Stale(rules, keep) == [] ==> Unstale(rules, keep) == rules
  {
    if rules != [] {
      NothingStale(rules[1..], keep);
      assert rules == [rules[0]] + rules[1..];
    }
  }

  /** `iptables -D` with a full specification removes the first equal rule. */
  function DeleteFirst(rules: seq<Rule>, r: Rule): seq<Rule>
    requires r in rules
  {
    if rules[0] == r then rules[1..] else [rules[0]] + DeleteFirst(rules[1..], r)
  }

  /** Deleting the first stale rule by its specification deletes that very rule,
      even among duplicates. */
  lemma {:induction false} DeleteFirstStale(rules: seq<Rule>, keep: Keep)
    requires Stale(rules, keep) != []
    ensures var r := Stale(rules, keep)[0];
            && r in rules
            && Stale(DeleteFirst(rules, r), keep) == Stale(rules, keep)[1..]
            && Unstale(DeleteFirst(rules, r), keep) == Unstale(rules, keep)
  {
    if !IsStale(rules[0], keep) {
      DeleteFirstStale(rules[1..], keep);
      var r := Stale(rules, keep)[0];
      var rest := DeleteFirst(rules[1..], r);
      assert ([rules[0]] + rest)[1..] == rest;
    }
  }
}
