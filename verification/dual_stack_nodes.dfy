/**
 The nodes of a dual-stack Clash subscription: which endpoints an inbound
 contributes, how they are named apart, and in what order the groups list them.
 */
module DualStackNodes {
  import opened Wrappers
  import opened GoText

  datatype Family = V4 | V6

  /** Addresses are normalized; `primary` is the resolved one. */
  datatype Inbound = Inbound(id: nat, tag: string, protocol: string, port: nat, primary: string, v4: string, v6: string)

  /** `inbound` is the position in the list of inbounds. */
  datatype Node = Node(inbound: nat, name: string, server: string, family: Family)

  datatype Endpoint = Endpoint(inbound: nat, server: string, family: Family)

  predicate Supported(protocol: string) {
    protocol in {"vless", "vmess", "trojan", "shadowsocks", "hysteria2", "tuic"}
  }

  /** The IPv6 and IPv4 endpoint of an inbound, empty when there is none.
      `literal` recognises IP addresses. */
  function Addresses(b: Inbound, literal: string -> Option<Family>): (string, string) {
    match literal(b.primary)
    case Some(V6) => (if b.v6 == "" then b.primary else b.v6, b.v4)
    case Some(V4) => (b.v6, if b.v4 == "" then b.primary else b.v4)
    case None => if b.v4 == "" && b.v6 == "" then (b.primary, b.primary) else (b.v6, b.v4)
  }

  function Endpoints(b: Inbound, at: nat, literal: string -> Option<Family>): seq<Endpoint> {
    if !Supported(b.protocol) then []
    else
      var (six, four) := Addresses(b, literal);
      (if six == "" then [] else [Endpoint(at, six, V6)]) + if four == "" then [] else [Endpoint(at, four, V4)]
  }

  /** The endpoints of the inbounds from position `at` on. */
  function AllEndpoints(bs: seq<Inbound>, at: nat, literal: string -> Option<Family>): seq<Endpoint>
    requires at <= |bs|
    decreases |bs| - at
  {
    if at == |bs| then [] else Endpoints(bs[at], at, literal) + AllEndpoints(bs, at + 1, literal)
  }

  /** Endpoints by inbound, IPv6 first: at most one of a family per inbound. */
  predicate InOrder(es: seq<Endpoint>) {
    forall i, j :: 0 <= i < j < |es| ==>
      es[i].inbound < es[j].inbound || (es[i].inbound == es[j].inbound && es[i].family == V6 && es[j].family == V4)
  }

  predicate Within(es: seq<Endpoint>, bs: seq<Inbound>, low: nat, high: nat)
    requires high <= |bs|
  {
    forall i :: 0 <= i < |es| ==> low <= es[i].inbound < high && es[i].server != "" && Supported(bs[es[i].inbound].protocol)
  }

  lemma EndpointsShape(bs: seq<Inbound>, at: nat, literal: string -> Option<Family>)
    requires at < |bs|
    ensures InOrder(Endpoints(bs[at], at, literal)) && Within(Endpoints(bs[at], at, literal), bs, at, at + 1)
  {
  }

  lemma InOrderConcat(a: seq<Endpoint>, b: seq<Endpoint>, bs: seq<Inbound>, low: nat, mid: nat)
    requires low <= mid <= |bs| && InOrder(a) && InOrder(b) && Within(a, bs, low, mid) && Within(b, bs, mid, |bs|)
    ensures InOrder(a + b) && Within(a + b, bs, low, |bs|)
  {
  }

  /** An inbound has at most one endpoint of a family, and it is never empty. */
  lemma {:induction false} OneEndpointPerFamily(bs: seq<Inbound>, at: nat, literal: string -> Option<Family>)
    requires at <= |bs|
    ensures InOrder(AllEndpoints(bs, at, literal)) && Within(AllEndpoints(bs, at, literal), bs, at, |bs|)
    decreases |bs| - at
  {
    if at < |bs| {
      OneEndpointPerFamily(bs, at + 1, literal);
      EndpointsShape(bs, at, literal);
      InOrderConcat(Endpoints(bs[at], at, literal), AllEndpoints(bs, at + 1, literal), bs, at, at + 1);
    }
  }

  /** A supported inbound is only left out when no address is known, and never
      gets an endpoint of a family that a literal primary address lacks, unless
      one is configured. */
  lemma EndpointsAreReal(b: Inbound, at: nat, literal: string -> Option<Family>)
    requires Supported(b.protocol)
    ensures Endpoints(b, at, literal) == [] <==> b.v4 == "" && b.v6 == "" && b.primary == ""
    ensures literal(b.primary) == Some(V4) && b.v6 == "" ==> forall e <- Endpoints(b, at, literal) :: e.family == V4
    ensures literal(b.primary) == Some(V6) && b.v4 == "" ==> forall e <- Endpoints(b, at, literal) :: e.family == V6
  {
  }

  /** The endpoint of a family is the address configured for it; without one it is
      the primary address, if that is a literal of this family, or if it is a name
      and no address at all is configured. */
  lemma EndpointsExactly(b: Inbound, at: nat, literal: string -> Option<Family>, e: Endpoint)
    ensures e in Endpoints(b, at, literal) <==>
            && b.protocol in {"vless", "vmess", "trojan", "shadowsocks", "hysteria2", "tuic"} && e.inbound == at && e.server != ""
            && var configured := if e.family == V6 then b.v6 else b.v4;
               if configured != "" then e.server == configured
               else e.server == b.primary && (literal(b.primary) == Some(e.family) || (literal(b.primary).None? && b.v4 == b.v6 == ""))
  {
    var es := Endpoints(b, at, literal);
    var (six, four) := Addresses(b, literal);
    if Supported(b.protocol) && six != "" {
      assert es[0] == Endpoint(at, six, V6);
    }
    if Supported(b.protocol) && four != "" {
      assert es[|es| - 1] == Endpoint(at, four, V4);
    }
  }

  // ---------- Names ----------

  function Base(b: Inbound): string { if b.tag == "" then b.protocol + "-" + Itoa(b.port) else b.tag }

  function Label(f: Family): string { if f == V6 then "IPv6" else "IPv4" }

  function Stem(b: Inbound, f: Family): string { Base(b) + " \U{00B7} " + Label(f) }

  /** A node is named after its tag or, without one, its protocol and port, and after
      its family. */
  lemma StemIs(b: Inbound, f: Family)
    ensures b.tag != "" ==> Stem(b, f) == b.tag + (if f == V6 then " \U{00B7} IPv6" else " \U{00B7} IPv4")
    ensures b.tag == "" ==> Stem(b, f) == b.protocol + "-" + Itoa(b.port) + (if f == V6 then " \U{00B7} IPv6" else " \U{00B7} IPv4")
  {
  }

  /** The names tried in turn: the stem, then with the id, then numbered from 2. */
  function Attempt(stem: string, id: nat, k: nat): string {
    if k == 0 then stem
    else if k == 1 then stem + " #" + Itoa(id)
    else stem + " #" + Itoa(id) + "-" + Itoa(k)
  }

  lemma ItoaInjective(m: nat, n: nat)
    requires Itoa(m) == Itoa(n)
    ensures m == n
  {
    AtoiItoa(m);
    AtoiItoa(n);
  }

  lemma AttemptsDiffer(stem: string, id: nat, j: nat, k: nat)
    requires j < k
    ensures Attempt(stem, id, j) != Attempt(stem, id, k)
  {
    if j >= 2 && Attempt(stem, id, j) == Attempt(stem, id, k) {
      var prefix := stem + " #" + Itoa(id) + "-";
      assert (prefix + Itoa(j))[|prefix|..] == Itoa(j) && (prefix + Itoa(k))[|prefix|..] == Itoa(k);
      ItoaInjective(j, k);
    }
  }

  /** The name taken is the first attempt that is free. */
  ghost predicate IsFirstFree(name: string, stem: string, id: nat, seen: set<string>) {
    name !in seen && exists k: nat :: name == Attempt(stem, id, k) && forall j: nat :: j < k ==> Attempt(stem, id, j) in seen
  }

  /** The search ends: every failed attempt is another of the names seen. */
  method FreeName(stem: string, id: nat, seen: set<string>) returns (name: string)
    ensures IsFirstFree(name, stem, id, seen)
  {
    name := stem;
    if name !in seen {
      assert name == Attempt(stem, id, 0);
      return;
    }
    name := stem + " #" + Itoa(id);
    var attempt := 2;
    ghost var tried := {stem};
    assert stem == Attempt(stem, id, 0);
    while name in seen
      invariant attempt >= 2 && name == Attempt(stem, id, attempt - 1)
      invariant tried <= seen && forall j: nat :: j < attempt - 1 ==> Attempt(stem, id, j) in tried
      invariant forall t <- tried :: exists j: nat :: j < attempt - 1 && t == Attempt(stem, id, j)
      decreases seen - tried
    {
      assert name !in tried by {
        if name in tried {
          var j: nat :| j < attempt - 1 && name == Attempt(stem, id, j);
          AttemptsDiffer(stem, id, j, attempt - 1);
        }
      }
      tried := tried + {name};
      name := stem + " #" + Itoa(id) + "-" + Itoa(attempt);
      attempt := attempt + 1;
    }
    assert name == Attempt(stem, id, attempt - 1);
  }

  // ---------- Nodes ----------

  function Plain(n: Node): Endpoint { Endpoint(n.inbound, n.server, n.family) }

  function PlainAll(ns: seq<Node>): (es: seq<Endpoint>)
    ensures |es| == |ns| && forall i :: 0 <= i < |ns| ==> es[i] == Plain(ns[i])
  {
    seq(|ns|, i requires 0 <= i < |ns| => Plain(ns[i]))
  }

  function NamesOf(ns: seq<Node>): (names: seq<string>)
    ensures |names| == |ns| && forall i :: 0 <= i < |ns| ==> names[i] == ns[i].name
  {
    seq(|ns|, i requires 0 <= i < |ns| => ns[i].name)
  }

  predicate Distinct(names: seq<string>) { forall i, j :: 0 <= i < j < |names| ==> names[i] != names[j] }

  /** Each node has the first free name, given the names before it. */
  ghost predicate WellNamed(ns: seq<Node>, bs: seq<Inbound>) {
    forall i :: 0 <= i < |ns| ==>
      && ns[i].inbound < |bs|
      && IsFirstFree(ns[i].name, Stem(bs[ns[i].inbound], ns[i].family), bs[ns[i].inbound].id, Taken(ns[..i]))
  }

  lemma WellNamedIsDistinct(ns: seq<Node>, bs: seq<Inbound>)
    requires WellNamed(ns, bs)
    ensures Distinct(NamesOf(ns))
  {
    forall i, j | 0 <= i < j < |ns| ensures ns[i].name != ns[j].name {
      assert ns[..j][i] in ns[..j];
      assert ns[i].name in Taken(ns[..j]);
    }
  }

  /** A node keeps its plain name unless an earlier node has it. */
  lemma StemIsKept(ns: seq<Node>, bs: seq<Inbound>, i: nat)
    requires WellNamed(ns, bs) && i < |ns|
    ensures var stem := Stem(bs[ns[i].inbound], ns[i].family);
            ns[i].name == stem <==> forall j :: 0 <= j < i ==> ns[j].name != stem
  {
    var stem := Stem(bs[ns[i].inbound], ns[i].family);
    var seen := Taken(ns[..i]);
    var k: nat :| ns[i].name == Attempt(stem, bs[ns[i].inbound].id, k)
      && forall j: nat :: j < k ==> Attempt(stem, bs[ns[i].inbound].id, j) in seen;
    if k > 0 {
      assert Attempt(stem, bs[ns[i].inbound].id, 0) in seen;
      AttemptsDiffer(stem, bs[ns[i].inbound].id, 0, k);
    }
    forall j | 0 <= j < i ensures ns[j].name in seen {
      assert ns[..i][j] in ns[..i];
    }
  }

  function Taken(ns: seq<Node>): set<string> { set n <- ns :: n.name }

  /** The nodes of one inbound join the others. */
  method AddInbound(nodes: seq<Node>, seen: set<string>, bs: seq<Inbound>, at: nat, literal: string -> Option<Family>)
    returns (more: seq<Node>, taken: set<string>)
    requires at < |bs| && WellNamed(nodes, bs) && seen == Taken(nodes)
    ensures PlainAll(more) == PlainAll(nodes) + Endpoints(bs[at], at, literal)
    ensures WellNamed(more, bs) && taken == Taken(more)
  {
    var es := Endpoints(bs[at], at, literal);
    more, taken := nodes, seen;
    for i := 0 to |es|
      invariant PlainAll(more) == PlainAll(nodes) + es[..i]
      invariant WellNamed(more, bs) && taken == Taken(more)
    {
      var name := FreeName(Stem(bs[at], es[i].family), bs[at].id, taken);
      var node := Node(at, name, es[i].server, es[i].family);
      Extend(more, node, bs);
      PlainStep(more, node, es, i);
      more := more + [node];
      taken := taken + {name};
    }
  }

  lemma PlainStep(ns: seq<Node>, n: Node, es: seq<Endpoint>, i: nat)
    requires i < |es| && n.inbound == es[i].inbound && n.server == es[i].server && n.family == es[i].family
    ensures PlainAll(ns + [n]) == PlainAll(ns) + [es[i]] && es[..i] + [es[i]] == es[..i + 1]
  {
  }

  /** The nodes are those of the inbounds before position `at`. */
  ghost predicate Covers(nodes: seq<Node>, bs: seq<Inbound>, at: nat, literal: string -> Option<Family>) {
    at <= |bs| && PlainAll(nodes) + AllEndpoints(bs, at, literal) == AllEndpoints(bs, 0, literal)
  }

  lemma CoversMore(before: seq<Node>, after: seq<Node>, bs: seq<Inbound>, at: nat, literal: string -> Option<Family>)
    requires at < |bs| && Covers(before, bs, at, literal) && PlainAll(after) == PlainAll(before) + Endpoints(bs[at], at, literal)
    ensures Covers(after, bs, at + 1, literal)
  {
    var done, here, rest := PlainAll(before), Endpoints(bs[at], at, literal), AllEndpoints(bs, at + 1, literal);
    assert done + here + rest == done + (here + rest);
  }

  lemma CoversAll(nodes: seq<Node>, bs: seq<Inbound>, literal: string -> Option<Family>)
    requires Covers(nodes, bs, |bs|, literal)
    ensures PlainAll(nodes) == AllEndpoints(bs, 0, literal)
  {
    assert PlainAll(nodes) + [] == PlainAll(nodes);
  }

  /** dualStackClashNodes. */
  method DualStackClashNodes(bs: seq<Inbound>, literal: string -> Option<Family>) returns (nodes: seq<Node>)
    ensures PlainAll(nodes) == AllEndpoints(bs, 0, literal)
    ensures WellNamed(nodes, bs)
  {
    nodes := [];
    var seen: set<string> := {};
    for at := 0 to |bs|
      invariant Covers(nodes, bs, at, literal)
      invariant WellNamed(nodes, bs) && seen == Taken(nodes)
    {
      ghost var before := nodes;
      nodes, seen := AddInbound(nodes, seen, bs, at, literal);
      CoversMore(before, nodes, bs, at, literal);
    }
    CoversAll(nodes, bs, literal);
  }

  lemma Extend(ns: seq<Node>, n: Node, bs: seq<Inbound>)
    requires WellNamed(ns, bs) && n.inbound < |bs|
    requires IsFirstFree(n.name, Stem(bs[n.inbound], n.family), bs[n.inbound].id, Taken(ns))
    ensures WellNamed(ns + [n], bs) && Taken(ns + [n]) == Taken(ns) + {n.name}
  {
    var more := ns + [n];
    forall i | 0 <= i < |more| ensures more[..i] == ns[..if i < |ns| then i else |ns|] {
    }
    assert ns[..|ns|] == ns;
  }

  // ---------- Groups ----------

  function OfFamily(ns: seq<Node>, f: Family): seq<Node> {
    if ns == [] then [] else (if ns[0].family == f then [ns[0]] else []) + OfFamily(ns[1..], f)
  }

  /** The order of both automatic groups. */
  function GroupOrder(ns: seq<Node>): seq<Node> { OfFamily(ns, V6) + OfFamily(ns, V4) }

  lemma HeadOfFamily(ns: seq<Node>, f: Family)
    requires ns != []
    ensures multiset(OfFamily(ns, f)) == (if ns[0].family == f then multiset{ns[0]} else multiset{}) + multiset(OfFamily(ns[1..], f))
  {
    var head := if ns[0].family == f then [ns[0]] else [];
    assert OfFamily(ns, f) == head + OfFamily(ns[1..], f);
  }

  lemma {:induction false} OfFamilyIs(ns: seq<Node>, f: Family)
    ensures forall n <- OfFamily(ns, f) :: n.family == f
    ensures multiset(ns) == multiset(OfFamily(ns, V6)) + multiset(OfFamily(ns, V4))
  {
    if ns != [] {
      var rest := ns[1..];
      OfFamilyIs(rest, f);
      assert multiset(ns) == multiset{ns[0]} + multiset(rest) by {
        assert ns == [ns[0]] + rest;
      }
      HeadOfFamily(ns, V6);
      HeadOfFamily(ns, V4);
    }
  }

  /** The groups list every node exactly once, all IPv6 before all IPv4. */
  lemma GroupsListAll(ns: seq<Node>)
    ensures multiset(GroupOrder(ns)) == multiset(ns)
    ensures forall i, j :: 0 <= i < j < |GroupOrder(ns)| && GroupOrder(ns)[j].family == V6 ==> GroupOrder(ns)[i].family == V6
  {
    OfFamilyIs(ns, V6);
    OfFamilyIs(ns, V4);
    var six, four := OfFamily(ns, V6), OfFamily(ns, V4);
    assert forall i :: 0 <= i < |six| ==> six[i] in six;
    assert forall i :: 0 <= i < |four| ==> four[i] in four;
  }

  /** writeDualStackGroups, the lists it writes. */
  method DualStackGroups(nodes: seq<Node>) returns (all: seq<string>)
    ensures all == NamesOf(GroupOrder(nodes))
  {
    var v6: seq<string>, v4: seq<string> := [], [];
    ghost var all6, all4 := NamesIn(nodes, V6), NamesIn(nodes, V4);
    assert nodes[0..] == nodes;
    for i := 0 to |nodes|
      invariant Collects(v6, nodes, i, V6, all6) && Collects(v4, nodes, i, V4, all4)
    {
      CollectStep(v6, nodes, i, V6, all6);
      CollectStep(v4, nodes, i, V4, all4);
      match nodes[i].family {
        case V6 =>
          v6 := v6 + [nodes[i].name];
          assert v4 + [] == v4;
        case V4 =>
          v4 := v4 + [nodes[i].name];
          assert v6 + [] == v6;
      }
    }
    CollectEnd(v6, nodes, V6, all6);
    CollectEnd(v4, nodes, V4, all4);
    all := v6 + v4;
    GroupNames(nodes);
  }

  function NamesIn(ns: seq<Node>, f: Family): seq<string> { NamesOf(OfFamily(ns, f)) }

  lemma GroupNames(ns: seq<Node>)
    ensures NamesOf(GroupOrder(ns)) == NamesIn(ns, V6) + NamesIn(ns, V4)
  {
  }

  predicate Collects(names: seq<string>, ns: seq<Node>, i: nat, f: Family, all: seq<string>) {
    i <= |ns| && names + NamesIn(ns[i..], f) == all
  }

  lemma CollectStep(names: seq<string>, ns: seq<Node>, i: nat, f: Family, all: seq<string>)
    requires i < |ns| && Collects(names, ns, i, f, all)
    ensures Collects(names + if ns[i].family == f then [ns[i].name] else [], ns, i + 1, f, all)
  {
    assert ns[i..][1..] == ns[i + 1..];
    var head := if ns[i].family == f then [ns[i].name] else [];
    assert NamesIn(ns[i..], f) == head + NamesIn(ns[i + 1..], f);
  }

  lemma CollectEnd(names: seq<string>, ns: seq<Node>, f: Family, all: seq<string>)
    requires Collects(names, ns, |ns|, f, all)
    ensures names == all
  {
  }
}
