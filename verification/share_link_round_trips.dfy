/**
 Parsing a printed share link recovers what it was printed from; where the code
 loses something, the exact condition under which it does not.
 */
module ShareLinkRoundTrips {
  import opened Wrappers
  import opened GoText
  import opened Base64
  import opened Percent
  import opened LinkUrl
  import opened Csv
  import opened JsonText
  import opened ShareLinks

  // ---------- What a stream asks for ----------

  /** The TLS block that stream settings ask for, in their own texts. */
  function TlsOf(si: StreamInfo): Option<Tls> {
    match si.security
    case "tls" =>
      Some(Tls(si.sni, si.allowInsecure, SplitCsv(si.alpn), None, if si.fingerprint == "" then None else Some(si.fingerprint)))
    case "reality" =>
      Some(Tls(si.sni, si.allowInsecure, SplitCsv(si.alpn), Some(Reality(si.realityKey, si.realityShortId)),
               Some(if si.fingerprint == "" then "chrome" else si.fingerprint)))
    case _ => None
  }

  /** The same as a vmess link carries it: REALITY loses the ALPN list and the
      insecure flag. */
  function VmessTls(si: StreamInfo): Option<Tls> {
    match si.security
    case "tls" =>
      Some(Tls(si.sni, si.allowInsecure, SplitCsv(si.alpn), None, if si.fingerprint == "" then None else Some(si.fingerprint)))
    case "reality" =>
      Some(Tls(si.sni, false, [], Some(Reality(si.realityKey, si.realityShortId)),
               Some(if si.fingerprint == "" then "chrome" else si.fingerprint)))
    case _ => None
  }

  function TransportOf(si: StreamInfo): Option<Transport> {
    match si.network
    case "ws" => Some(Ws(si.wsPath, si.wsHost))
    case "grpc" => Some(Grpc(si.grpcService))
    case "h2" => Some(Http(si.h2Path, si.h2Host))
    case "http" => Some(Http(si.h2Path, si.h2Host))
    case "httpupgrade" => Some(HttpUpgrade(si.upgradePath, si.upgradeHost))
    case _ => None
  }

  /** What a link carries: the "http" network loses path and host. */
  function CarriedTransport(si: StreamInfo): Option<Transport> {
    if si.network == "http" then Some(Http("", "")) else TransportOf(si)
  }

  // ---------- Parameters ----------

  /** What SecurityFields puts under each key. */
  function SecurityValue(si: StreamInfo, k: Key): string {
    match k
    case Sni => si.sni
    case Alpn => si.alpn
    case Fingerprint => si.fingerprint
    case AllowInsecure => if si.allowInsecure then "1" else ""
    case RealityKey => if si.security == "reality" then si.realityKey else ""
    case RealityShortId => if si.security == "reality" then si.realityShortId else ""
    case RealitySpider => if si.security == "reality" then si.realitySpider else ""
    case _ => ""
  }

  lemma TlsFieldsFind(p: Fields, si: StreamInfo, k: Key)
    ensures Find(TlsFields(p, si), k) == Over(if k in {Sni, Alpn, Fingerprint} then SecurityValue(si, k) else "", Find(p, k))
  {
  }

  lemma RealityFieldsFind(p: Fields, si: StreamInfo, k: Key)
    ensures Find(RealityFields(p, si), k) ==
            Over(if k in {RealityKey, RealityShortId, RealitySpider} then SecurityValue(si, k) else "", Find(p, k))
  {
  }

  lemma SecurityFieldsFind(p: Fields, si: StreamInfo, k: Key)
    ensures Find(SecurityFields(p, si), k) == Over(SecurityValue(si, k), Find(p, k))
  {
    var p1 := TlsFields(p, si);
    TlsFieldsFind(p, si, k);
    RealityFieldsFind(if si.allowInsecure then Put(p1, AllowInsecure, "1") else p1, si, k);
  }

  /** What AppendTransport puts under each key. */
  function TransportValue(si: StreamInfo, k: Key): string {
    match k
    case HeaderType => if si.network == "tcp" then "none" else ""
    case PathKey => if si.network == "ws" then si.wsPath else PathAndHost(si).0
    case HostKey => if si.network == "ws" then si.wsHost else PathAndHost(si).1
    case ServiceName => if si.network == "grpc" then si.grpcService else ""
    case GunMode => if si.network == "grpc" then "gun" else ""
    case _ => ""
  }

  function PathAndHost(si: StreamInfo): (string, string) {
    if si.network == "h2" then (si.h2Path, si.h2Host)
    else if si.network == "httpupgrade" then (si.upgradePath, si.upgradeHost)
    else ("", "")
  }

  lemma NetNames(network: string)
    ensures (network == "tcp" <==> NetOf(network) == TcpNet) && (network == "ws" <==> NetOf(network) == WsNet)
    ensures (network == "grpc" <==> NetOf(network) == GrpcNet) && (network == "h2" <==> NetOf(network) == H2Net)
    ensures (network == "http" <==> NetOf(network) == HttpNet) && (network == "httpupgrade" <==> NetOf(network) == UpgradeNet)
  {
  }

  lemma AppendTransportFind(p: Fields, si: StreamInfo, k: Key)
    ensures Find(AppendTransport(p, si), k) == Over(TransportValue(si, k), Find(p, k))
  {
    hide NetOf, Put, Find, PutNonEmpty;
    NetNames(si.network);
  }

  /** A list of fields that says, under every key, what the stream asks for. */
  ghost predicate Describes(fs: Fields, si: StreamInfo) {
    forall k: Key :: k !in {Encryption, Flow} ==>
      Find(fs, k) == Over(TransportValue(si, k), Over(SecurityValue(si, k),
                       match k case NetworkType => si.network case Security => si.security case _ => ""))
  }

  /** Fields whose base says the network and the security, and nothing else. */
  ghost predicate Base(p: Fields, si: StreamInfo) {
    forall k: Key :: k !in {Encryption, Flow} ==>
      Find(p, k) == match k case NetworkType => si.network case Security => si.security case _ => ""
  }

  lemma DescribesFrom(p: Fields, p1: Fields, p2: Fields, si: StreamInfo)
    requires Base(p, si)
    requires forall k: Key :: Find(p1, k) == Over(SecurityValue(si, k), Find(p, k))
    requires forall k: Key :: Find(p2, k) == Over(TransportValue(si, k), Find(p1, k))
    ensures Describes(p2, si) && Find(p2, Flow) == Find(p, Flow)
  {
  }

  lemma AppendsDescribe(p: Fields, si: StreamInfo)
    requires Base(p, si)
    ensures Describes(AppendTransport(SecurityFields(p, si), si), si)
    ensures Find(AppendTransport(SecurityFields(p, si), si), Flow) == Find(p, Flow)
  {
    var p1 := SecurityFields(p, si);
    var p2 := AppendTransport(p1, si);
    forall k: Key ensures Find(p1, k) == Over(SecurityValue(si, k), Find(p, k)) {
      SecurityFieldsFind(p, si, k);
    }
    forall k: Key ensures Find(p2, k) == Over(TransportValue(si, k), Find(p1, k)) {
      AppendTransportFind(p1, si, k);
    }
    DescribesFrom(p, p1, p2, si);
  }

  lemma VlessBaseIs(si: StreamInfo, flow: string)
    ensures Base(VlessBase(si, flow), si) && Find(VlessBase(si, flow), Flow) == flow
  {
    var p := Put(Put(Put([], Encryption, "none"), NetworkType, si.network), Security, si.security);
    assert Base(p, si) && Find(p, Flow) == "";
  }

  /** A vless link says what the stream asks for, its flow, and that nothing else
      encrypts. */
  lemma VlessDescribes(si: StreamInfo, flow: string)
    ensures Describes(VlessFields(si, flow), si) && Find(VlessFields(si, flow), Flow) == flow
    ensures Find(VlessFields(si, flow), Encryption) == "none"
  {
    SecurityFieldsFind(VlessBase(si, flow), si, Encryption);
    AppendTransportFind(SecurityFields(VlessBase(si, flow), si), si, Encryption);
    VlessBaseIs(si, flow);
    AppendsDescribe(VlessBase(si, flow), si);
  }

  lemma TrojanDescribes(si: StreamInfo)
    ensures Describes(TrojanFields(si), si)
  {
    assert Base(TrojanBase(si), si);
    AppendsDescribe(TrojanBase(si), si);
  }

  /** What the reader extracts from such fields. */
  function Asked(si: StreamInfo, flow: string): LinkFields {
    LinkFields(si.security, si.sni, si.alpn, si.fingerprint,
               SecurityValue(si, RealityKey), SecurityValue(si, RealityShortId), SecurityValue(si, AllowInsecure), "",
               si.network, TransportValue(si, PathKey), TransportValue(si, HostKey), TransportValue(si, ServiceName), flow)
  }

  lemma DescribedTls(fs: Fields, si: StreamInfo)
    requires Describes(fs, si)
    ensures Find(fs, Security) == si.security && Find(fs, Sni) == si.sni && Find(fs, Alpn) == si.alpn && Find(fs, Fingerprint) == si.fingerprint
    ensures Find(fs, RealityKey) == SecurityValue(si, RealityKey) && Find(fs, RealityShortId) == SecurityValue(si, RealityShortId)
    ensures Find(fs, AllowInsecure) == SecurityValue(si, AllowInsecure) && Find(fs, Insecure) == ""
  {
  }

  lemma DescribedTransport(fs: Fields, si: StreamInfo)
    requires Describes(fs, si)
    ensures Find(fs, NetworkType) == si.network && Find(fs, PathKey) == TransportValue(si, PathKey)
    ensures Find(fs, HostKey) == TransportValue(si, HostKey) && Find(fs, ServiceName) == TransportValue(si, ServiceName)
  {
  }

  lemma DescribedFields(fs: Fields, si: StreamInfo)
    requires Describes(fs, si)
    ensures ReadFields(fs) == Asked(si, Find(fs, Flow))
  {
    DescribedTls(fs, si);
    DescribedTransport(fs, si);
  }

  lemma TruthyFlag(b: bool)
    ensures Truthy(if b then "1" else "") == b
  {
  }

  lemma LayerNames(security: string)
    ensures (security == "tls" <==> LayerOf(security) == TlsLayer) && (security == "reality" <==> LayerOf(security) == RealityLayer)
  {
  }

  lemma AskedTls(si: StreamInfo, flow: string)
    ensures ReadTls(Asked(si, flow)) == TlsOf(si)
  {
    hide Truthy, SplitCsv, LayerOf;
    LayerNames(si.security);
    TruthyFlag(si.allowInsecure);
    TruthyFlag(false);
  }

  lemma AskedTransport(si: StreamInfo, flow: string)
    ensures ReadTransport(Asked(si, flow)) == CarriedTransport(si)
  {
  }

  lemma TlsFieldsAreBytes(p: Fields, si: StreamInfo)
    requires FieldsAreBytes(p) && si.AreBytes()
    ensures FieldsAreBytes(TlsFields(p, si))
  {
  }

  lemma RealityFieldsAreBytes(p: Fields, si: StreamInfo)
    requires FieldsAreBytes(p) && si.AreBytes()
    ensures FieldsAreBytes(RealityFields(p, si))
  {
  }

  lemma AppendTransportIsBytes(p: Fields, si: StreamInfo)
    requires FieldsAreBytes(p) && si.AreBytes()
    ensures FieldsAreBytes(AppendTransport(p, si))
  {
    assert IsBytes("none") && IsBytes("gun");
  }

  lemma SecurityFieldsAreBytes(p: Fields, si: StreamInfo)
    requires FieldsAreBytes(p) && si.AreBytes()
    ensures FieldsAreBytes(AppendTransport(SecurityFields(p, si), si))
  {
    var p1 := TlsFields(p, si);
    TlsFieldsAreBytes(p, si);
    RealityFieldsAreBytes(if si.allowInsecure then Put(p1, AllowInsecure, "1") else p1, si);
    AppendTransportIsBytes(SecurityFields(p, si), si);
  }

  // ---------- Links in general ----------

  lemma {:induction false} SchemeOfLink(scheme: string, rest: string)
    requires ':' !in scheme
    ensures SchemeOf(scheme + "://" + rest) == Some(scheme)
  {
    var link := scheme + "://" + rest;
    if scheme == "" {
      assert link == "://" + rest;
    } else {
      assert link[1..] == scheme[1..] + "://" + rest;
      SchemeOfLink(scheme[1..], rest);
      assert link[0] == scheme[0] != ':';
      assert scheme == [scheme[0]] + scheme[1..];
    }
  }

  /** Everything a printed link says apart from its user information. */
  lemma PrintedParts(scheme: string, server: string, port: nat, fs: Fields, remark: string, v6: string -> bool)
    requires IsSchemeText(scheme) && HostOk(TrimBrackets(server), v6) && FieldsAreBytes(fs) && IsBytes(remark)
    ensures var hp, q := HostPort(server, port), EncodeQuery(Texts(fs));
            && Printable(scheme, hp, q, Escape(PathSegment, remark))
            && ParseHost(hp, v6) == Some(hp) && SplitHostPort(hp) == (TrimBrackets(server), Itoa(port))
            && Atoi(Itoa(port)) == Some(port)
            && Known(ParseQuery(q)) == fs
  {
    HostPortRoundTrip(TrimBrackets(server), port, v6);
    HostPortAlphabet(TrimBrackets(server), port, v6);
    TextsAreBytes(fs);
    EncodedQueryAlphabet(Texts(fs));
    ParseEncodeQuery(Texts(fs));
    KnownTexts(fs);
    UnescapeEscape(PathSegment, Fragment, remark);
    AtoiItoa(port);
  }

  /** The user information of a printed link, read back. */
  lemma ParsePrinted(scheme: string, user: string, server: string, port: nat, fs: Fields, remark: string, v6: string -> bool)
    requires IsSchemeText(scheme) && HostOk(TrimBrackets(server), v6) && FieldsAreBytes(fs) && IsBytes(remark)
    requires FreeOfDelimiters(user)
    ensures var hp, q := HostPort(server, port), EncodeQuery(Texts(fs));
            Parse(Link(scheme, user, hp, q, Escape(PathSegment, remark)), v6) ==
            match ParseUser(user) case None => None case Some(u) => Some(Url(ToLower(scheme), u, hp, q))
  {
    PrintedParts(scheme, server, port, fs, remark, v6);
    ParseLink(scheme, user, HostPort(server, port), EncodeQuery(Texts(fs)), Escape(PathSegment, remark), v6);
  }

  /** The name of a printed link is its fragment. */
  lemma RemarkReads(kind: LinkKind, user: string, server: string, port: nat, fs: Fields, remark: string, v6: string -> bool)
    requires HostOk(TrimBrackets(server), v6) && FieldsAreBytes(fs) && IsBytes(remark) && FreeOfDelimiters(user)
    ensures var (_, fragment, found) := Cut(PrintedLink(SchemeText(kind), user, server, port, fs, remark), '#');
            found && Unescape(Fragment, fragment) == Some(remark)
  {
    hide Escape, Unescape, EncodeQuery, HostPort, Cut, SchemeText, Printable;
    SchemeTexts(kind);
    PrintedParts(SchemeText(kind), server, port, fs, remark, v6);
    FragmentOf(SchemeText(kind), user, HostPort(server, port), EncodeQuery(Texts(fs)), Escape(PathSegment, remark));
    UnescapeEscape(PathSegment, Fragment, remark);
  }

  // ---------- Escaped credentials ----------

  lemma EscapedIsUserinfo(s: string)
    requires IsBytes(s)
    ensures var t := Escape(PathSegment, s); FreeOfDelimiters(t) && forall c <- t :: IsUserinfoChar(c)
  {
    EscapedAlphabet(PathSegment, s);
  }

  lemma {:induction false} EscapeConcat(a: string, b: string)
    ensures Escape(PathSegment, a + b) == Escape(PathSegment, a) + Escape(PathSegment, b)
  {
    if a == "" {
      assert a + b == b;
    } else {
      assert (a + b)[1..] == a[1..] + b;
      EscapeConcat(a[1..], b);
    }
  }

  lemma {:induction false} CutOfEscaped(s: string)
    ensures var (name, rest, colon) := Cut(s, ':');
            Cut(Escape(PathSegment, s), ':') == (Escape(PathSegment, name), Escape(PathSegment, rest), colon)
  {
    if s != "" {
      var e, tail := EscapeChar(PathSegment, s[0]), Escape(PathSegment, s[1..]);
      if s[0] == ':' {
        assert e + tail == "" + [':'] + tail;
        CutAt("", ':', tail);
      } else {
        CutOfEscaped(s[1..]);
        assert ':' !in e;
        CutLong(e, tail, ':');
        var name := Cut(s[1..], ':').0;
        assert ([s[0]] + name)[1..] == name;
      }
    }
  }

  /** An escaped credential is cut at its first colon, which escaping keeps. */
  lemma ParseEscapedUser(s: string)
    requires IsBytes(s)
    ensures var (name, rest, colon) := Cut(s, ':');
            ParseUser(Escape(PathSegment, s)) == Some(if colon then NamePassword(name, rest) else Name(name))
  {
    var (name, rest, colon) := Cut(s, ':');
    CutBytes(s, ':');
    EscapedIsUserinfo(s);
    CutOfEscaped(s);
    UnescapeEscape(PathSegment, UserInfo, name);
    UnescapeEscape(PathSegment, UserInfo, rest);
    UserOfParts(Escape(PathSegment, s), Escape(PathSegment, name), Escape(PathSegment, rest), colon, name, rest);
  }

  // ---------- The link formats ----------

  /** What the outside of a link supplies. */
  predicate Addressed(server: string, remark: string, v6: string -> bool) {
    HostOk(TrimBrackets(server), v6) && IsBytes(remark)
  }

  predicate LowerScheme(scheme: string) {
    scheme != "" && forall c <- scheme :: IsLower(c) || IsDigit(c)
  }

  lemma SchemeOfPrinted(scheme: string, user: string, hp: string, q: string, fragment: string)
    requires LowerScheme(scheme)
    ensures SchemeOf(Link(scheme, user, hp, q, fragment)) == Some(scheme) && ToLower(scheme) == scheme
  {
    var tail := user + "@" + hp + QueryTail(q) + "#" + fragment;
    assert Link(scheme, user, hp, q, fragment) == scheme + "://" + tail;
    SchemeOfLink(scheme, tail);
    forall i | 0 <= i < |scheme| ensures ToLowerChar(scheme[i]) == scheme[i] {
      assert scheme[i] in scheme;
    }
  }

  // ---- vless ----

  lemma VlessBaseIsBytes(si: StreamInfo, flow: string)
    requires si.AreBytes() && IsBytes(flow)
    ensures FieldsAreBytes(VlessBase(si, flow))
  {
    assert IsBytes("none");
  }

  lemma VlessFieldsAreBytes(si: StreamInfo, flow: string)
    requires si.AreBytes() && IsBytes(flow)
    ensures FieldsAreBytes(VlessFields(si, flow))
  {
    VlessBaseIsBytes(si, flow);
    SecurityFieldsAreBytes(VlessBase(si, flow), si);
  }

  /** A url read from a printed link. */
  predicate FromPrinted(u: Url, server: string, port: nat, fs: Fields) {
    && SplitHostPort(u.host) == (TrimBrackets(server), Itoa(port)) && UrlPort(u) == Some(port)
    && QueryOf(u) == fs
  }

  /** Reading a printed link: its user information decides. */
  lemma ReadPrinted(scheme: string, user: string, server: string, port: nat, fs: Fields, remark: string, v6: string -> bool)
    requires LowerScheme(scheme) && IsSchemeText(scheme) && Addressed(server, remark, v6) && FieldsAreBytes(fs) && FreeOfDelimiters(user)
    ensures var link := PrintedLink(scheme, user, server, port, fs, remark);
            && SchemeOf(link) == Some(scheme) && ToLower(scheme) == scheme
            && match ParseUser(user)
               case None => Parse(link, v6).None?
               case Some(x) => Parse(link, v6).Some? && Parse(link, v6).value.user == x && FromPrinted(Parse(link, v6).value, server, port, fs)
  {
    PrintedParts(scheme, server, port, fs, remark, v6);
    ParsePrinted(scheme, user, server, port, fs, remark, v6);
    SchemeOfPrinted(scheme, user, HostPort(server, port), EncodeQuery(Texts(fs)), Escape(PathSegment, remark));
  }

  /** A url carrying described fields. */
  lemma FromDescribedUrl(u: Url, fs: Fields, si: StreamInfo, server: string, port: nat, vless: bool)
    requires FromPrinted(u, server, port, fs) && Describes(fs, si)
    ensures FromVlessOrTrojan(u, vless) ==
            Some(if vless then VlessOut(TrimBrackets(server), port, Username(u), Find(fs, Flow), TlsOf(si), CarriedTransport(si))
                 else TrojanOut(TrimBrackets(server), port, Username(u), TlsOf(si), CarriedTransport(si)))
  {
    DescribedFields(fs, si);
    AskedTls(si, Find(fs, Flow));
    AskedTransport(si, Find(fs, Flow));
  }

  lemma SchemeTexts(kind: LinkKind)
    ensures LowerScheme(SchemeText(kind)) && IsSchemeText(SchemeText(kind)) && KindOfScheme(SchemeText(kind)) == kind
  {
  }

  /** Reading a printed link of a given kind: its user information decides. */
  lemma ReadKind(kind: LinkKind, user: string, server: string, port: nat, fs: Fields, remark: string, v6: string -> bool, link: string)
    requires Addressed(server, remark, v6) && FieldsAreBytes(fs) && FreeOfDelimiters(user)
    requires link == PrintedLink(SchemeText(kind), user, server, port, fs, remark)
    ensures KindOf(link) == kind
    ensures match ParseUser(user)
            case None => Parse(link, v6).None?
            case Some(x) => Parse(link, v6).Some? && Parse(link, v6).value.user == x && FromPrinted(Parse(link, v6).value, server, port, fs)
  {
    SchemeTexts(kind);
    ReadPrinted(SchemeText(kind), user, server, port, fs, remark, v6);
  }

  /** The url of a printed link of a given kind, and who reads it. */
  lemma ReadLink(kind: LinkKind, user: string, x: User, server: string, port: nat, fs: Fields, remark: string, link: string,
                 v6: string -> bool, json: string -> Option<Object>) returns (u: Url)
    requires Addressed(server, remark, v6) && FieldsAreBytes(fs) && FreeOfDelimiters(user) && ParseUser(user) == Some(x)
    requires link == PrintedLink(SchemeText(kind), user, server, port, fs, remark) && kind != VmessKind
    ensures u.user == x && FromPrinted(u, server, port, fs) && FromLink(link, v6, json) == Reader(kind)(u)
  {
    ReadKind(kind, user, server, port, fs, remark, v6, link);
    u := Parse(link, v6).value;
  }

  function VlessMeant(uuid: string, server: string, port: nat, si: StreamInfo, flow: string): Outbound {
    VlessOut(TrimBrackets(server), port, uuid, flow, TlsOf(si), CarriedTransport(si))
  }

  lemma VlessMeaning(link: string, user: string, x: User, server: string, port: nat, si: StreamInfo, flow: string, fs: Fields, remark: string,
                       v6: string -> bool, json: string -> Option<Object>)
    requires Addressed(server, remark, v6) && FieldsAreBytes(fs) && FreeOfDelimiters(user) && ParseUser(user) == Some(x)
    requires Describes(fs, si) && Find(fs, Flow) == flow && x == Name(user)
    requires link == PrintedLink(SchemeText(VlessKind), user, server, port, fs, remark)
    ensures FromLink(link, v6, json) == Some(VlessMeant(user, server, port, si, flow))
  {
    var u := ReadLink(VlessKind, user, x, server, port, fs, remark, link, v6, json);
    FromDescribedUrl(u, fs, si, server, port, true);
  }

  /** Printing and parsing a vless link, when the raw credential survives. */
  lemma VlessRoundTrip(uuid: string, server: string, port: nat, si: StreamInfo, flow: string, remark: string,
                       v6: string -> bool, json: string -> Option<Object>)
    requires Addressed(server, remark, v6) && si.AreBytes() && IsBytes(flow) && PlainUser(uuid)
    ensures FromLink(VlessLink(uuid, server, port, si, flow, remark), v6, json) == Some(VlessMeant(uuid, server, port, si, flow))
  {
    PlainUserParses(uuid);
    VlessFieldsAreBytes(si, flow);
    VlessDescribes(si, flow);
    VlessMeaning(VlessLink(uuid, server, port, si, flow, remark), uuid, Name(uuid), server, port, si, flow, VlessFields(si, flow), remark, v6, json);
  }

  /** A vless link gives back its credential if and only if the credential is
      plain: it is printed without escaping. */
  lemma VlessCredentialIff(uuid: string, server: string, port: nat, si: StreamInfo, flow: string, remark: string,
                           v6: string -> bool)
    requires Addressed(server, remark, v6) && si.AreBytes() && IsBytes(flow)
    ensures var r := Parse(VlessLink(uuid, server, port, si, flow, remark), v6);
            r.Some? && Username(r.value) == uuid <==> PlainUser(uuid)
  {
    var fs := VlessFields(si, flow);
    VlessFieldsAreBytes(si, flow);
    SchemeTexts(VlessKind);
    PrintedParts("vless", server, port, fs, remark, v6);
    RawUserIff("vless", uuid, HostPort(server, port), EncodeQuery(Texts(fs)), Escape(PathSegment, remark), v6);
  }

  /** The user name of `u` is the credential up to its first colon. */
  predicate NamesCredential(u: Option<User>, uuid: string) {
    && u.Some? && !u.value.NoUser? && u.value.name == Cut(uuid, ':').0
    && (u.value.name == uuid <==> ':' !in uuid)
  }

  lemma EscapedCredential(uuid: string)
    requires IsBytes(uuid)
    ensures FreeOfDelimiters(Escape(PathSegment, uuid)) && NamesCredential(ParseUser(Escape(PathSegment, uuid)), uuid)
  {
    EscapedIsUserinfo(uuid);
    ParseEscapedUser(uuid);
  }

  // ---- trojan ----

  lemma TrojanFieldsAreBytes(si: StreamInfo)
    requires si.AreBytes()
    ensures FieldsAreBytes(TrojanFields(si))
  {
    SecurityFieldsAreBytes(TrojanBase(si), si);
  }

  function TrojanMeant(name: string, server: string, port: nat, si: StreamInfo): Outbound {
    TrojanOut(TrimBrackets(server), port, name, TlsOf(si), CarriedTransport(si))
  }

  lemma TrojanMeaning(link: string, user: string, x: User, server: string, port: nat, si: StreamInfo, fs: Fields, remark: string,
                       v6: string -> bool, json: string -> Option<Object>)
    requires Addressed(server, remark, v6) && FieldsAreBytes(fs) && FreeOfDelimiters(user) && ParseUser(user) == Some(x)
    requires Describes(fs, si) && !x.NoUser?
    requires link == PrintedLink(SchemeText(TrojanKind), user, server, port, fs, remark)
    ensures FromLink(link, v6, json) == Some(TrojanMeant(x.name, server, port, si))
  {
    var u := ReadLink(TrojanKind, user, x, server, port, fs, remark, link, v6, json);
    FromDescribedUrl(u, fs, si, server, port, false);
  }

  /** A trojan link is always accepted; its password comes back up to the first
      colon, so exactly when it has none. */
  lemma TrojanRoundTrip(uuid: string, server: string, port: nat, si: StreamInfo, remark: string,
                        v6: string -> bool, json: string -> Option<Object>)
    requires Addressed(server, remark, v6) && si.AreBytes() && IsBytes(uuid)
    ensures var o := FromLink(TrojanLink(uuid, server, port, si, remark), v6, json);
            && o == Some(TrojanOut(TrimBrackets(server), port, Cut(uuid, ':').0, TlsOf(si), CarriedTransport(si)))
            && (o.value.password == uuid <==> ':' !in uuid)
  {
    var user, fs := Escape(PathSegment, uuid), TrojanFields(si);
    EscapedCredential(uuid);
    TrojanFieldsAreBytes(si);
    TrojanDescribes(si);
    var x := ParseUser(user).value;
    TrojanMeaning(TrojanLink(uuid, server, port, si, remark), user, x, server, port, si, fs, remark, v6, json);
  }

  predicate LosesTransport(si: StreamInfo) {
    si.network == "http" && (si.h2Path != "" || si.h2Host != "")
  }

  /** The outbound uses the transport of the stream, unless the network is "http"
      and has a path or host. */
  predicate KeepsTransport(o: Outbound, si: StreamInfo) {
    (o.TrojanOut? || o.VlessOut?) && (o.transport == TransportOf(si) <==> !LosesTransport(si))
  }

  lemma CarriedIsKept(o: Outbound, si: StreamInfo)
    requires (o.TrojanOut? || o.VlessOut?) && o.transport == CarriedTransport(si)
    ensures KeepsTransport(o, si)
  {
  }

  /** The transport of the stream comes back from a trojan link exactly then,
      and likewise from a vless link. */
  lemma TrojanTransportIff(uuid: string, server: string, port: nat, si: StreamInfo, remark: string,
                           v6: string -> bool, json: string -> Option<Object>) returns (o: Outbound)
    requires Addressed(server, remark, v6) && si.AreBytes() && IsBytes(uuid)
    ensures FromLink(TrojanLink(uuid, server, port, si, remark), v6, json) == Some(o) && KeepsTransport(o, si)
  {
    TrojanRoundTrip(uuid, server, port, si, remark, v6, json);
    o := TrojanOut(TrimBrackets(server), port, Cut(uuid, ':').0, TlsOf(si), CarriedTransport(si));
    CarriedIsKept(o, si);
  }

  lemma VlessTransportIff(uuid: string, server: string, port: nat, si: StreamInfo, flow: string, remark: string,
                          v6: string -> bool, json: string -> Option<Object>) returns (o: Outbound)
    requires Addressed(server, remark, v6) && si.AreBytes() && IsBytes(flow) && PlainUser(uuid)
    ensures FromLink(VlessLink(uuid, server, port, si, flow, remark), v6, json) == Some(o) && KeepsTransport(o, si)
  {
    VlessRoundTrip(uuid, server, port, si, flow, remark, v6, json);
    o := VlessMeant(uuid, server, port, si, flow);
    CarriedIsKept(o, si);
  }

  // ---- hysteria2 ----

  predicate ExtrasAreBytes(ex: Hysteria2Extras) {
    IsBytes(ex.obfsType) && IsBytes(ex.obfsPassword) && IsBytes(ex.ports)
  }

  lemma Hysteria2FieldsAreBytes(si: StreamInfo, ex: Hysteria2Extras)
    requires si.AreBytes() && ExtrasAreBytes(ex)
    ensures FieldsAreBytes(Hysteria2Fields(si, ex))
  {
    assert FieldsAreBytes(Hysteria2Base([], si));
  }

  lemma Hysteria2OptionsFind(p: Fields, ex: Hysteria2Extras)
    requires Find(p, Obfs) == Find(p, ObfsPassword) == ""
    ensures var fs := Hysteria2Options(p, ex);
            && Find(fs, Sni) == Find(p, Sni) && Find(fs, Alpn) == Find(p, Alpn) && Find(fs, Insecure) == Find(p, Insecure)
            && Find(fs, Obfs) == ex.obfsType && Find(fs, Ports) == Over(ex.ports, Find(p, Ports))
            && Find(fs, ObfsPassword) == (if ex.obfsType != "" then ex.obfsPassword else "")
  {
  }

  lemma Hysteria2BaseFind(p: Fields, si: StreamInfo)
    requires forall k: Key :: Find(p, k) == ""
    ensures var fs := Hysteria2Base(p, si);
            && Find(fs, Sni) == si.sni && Find(fs, Alpn) == si.alpn
            && Find(fs, Insecure) == (if si.allowInsecure then "1" else "")
            && Find(fs, Obfs) == Find(fs, ObfsPassword) == Find(fs, Ports) == ""
  {
  }

  /** Parameters that say what a hysteria2 inbound asks for. */
  predicate Hysteria2Says(fs: Fields, si: StreamInfo, ex: Hysteria2Extras) {
    && Find(fs, Sni) == si.sni && Find(fs, Alpn) == si.alpn
    && Find(fs, Insecure) == (if si.allowInsecure then "1" else "")
    && Find(fs, Obfs) == ex.obfsType && Find(fs, Ports) == ex.ports
    && Find(fs, ObfsPassword) == (if ex.obfsType != "" then ex.obfsPassword else "")
  }

  lemma Hysteria2Find(si: StreamInfo, ex: Hysteria2Extras)
    ensures Hysteria2Says(Hysteria2Fields(si, ex), si, ex)
  {
    hide Hysteria2Base, Hysteria2Options, Put, PutNonEmpty;
    Hysteria2BaseFind([], si);
    Hysteria2OptionsFind(Hysteria2Base([], si), ex);
  }

  function Hysteria2Meant(name: string, server: string, port: nat, si: StreamInfo, ex: Hysteria2Extras): Outbound {
    Hysteria2Out(TrimBrackets(server), port, name,
                 Some(Tls(si.sni, si.allowInsecure, SplitCsv(si.alpn), None, None)),
                 if ex.obfsType == "" then None else Some((ex.obfsType, ex.obfsPassword)))
  }

  lemma Hysteria2FromUrl(u: Url, si: StreamInfo, ex: Hysteria2Extras, fs: Fields, server: string, port: nat)
    requires FromPrinted(u, server, port, fs) && Hysteria2Says(fs, si, ex)
    ensures FromHysteria2(u) == Some(Hysteria2Meant(Username(u), server, port, si, ex))
  {
    TruthyFlag(si.allowInsecure);
  }

  lemma Hysteria2Made(u: Url, x: User, server: string, port: nat, si: StreamInfo, ex: Hysteria2Extras, fs: Fields, made: Option<Outbound>)
    requires !x.NoUser? && Hysteria2Says(fs, si, ex) && u.user == x && FromPrinted(u, server, port, fs)
    requires made == FromHysteria2(u)
    ensures made == Some(Hysteria2Meant(x.name, server, port, si, ex))
  {
    Hysteria2FromUrl(u, si, ex, fs, server, port);
  }

  lemma Hysteria2Meaning(link: string, user: string, x: User, server: string, port: nat, si: StreamInfo, ex: Hysteria2Extras, fs: Fields, remark: string,
                       v6: string -> bool, json: string -> Option<Object>)
    requires Addressed(server, remark, v6) && FieldsAreBytes(fs) && FreeOfDelimiters(user) && ParseUser(user) == Some(x)
    requires Hysteria2Says(fs, si, ex) && !x.NoUser?
    requires link == PrintedLink(SchemeText(Hysteria2Kind), user, server, port, fs, remark)
    ensures FromLink(link, v6, json) == Some(Hysteria2Meant(x.name, server, port, si, ex))
  {
    hide FromLink, Addressed, PrintedLink, FieldsAreBytes, FreeOfDelimiters, ParseUser, FromPrinted, Parse, Escape, Hysteria2Says, FromHysteria2, Hysteria2Meant;
    var u := ReadLink(Hysteria2Kind, user, x, server, port, fs, remark, link, v6, json);
    Hysteria2Made(u, x, server, port, si, ex, fs, FromLink(link, v6, json));
  }

  /** A hysteria2 link gives back address, TLS settings and obfuscation always,
      and the password exactly when it has no colon. */
  lemma Hysteria2RoundTrip(uuid: string, server: string, port: nat, si: StreamInfo, ex: Hysteria2Extras, remark: string,
                           v6: string -> bool, json: string -> Option<Object>)
    requires Addressed(server, remark, v6) && si.AreBytes() && ExtrasAreBytes(ex) && IsBytes(uuid)
    ensures var o := FromLink(Hysteria2Link(uuid, server, port, si, ex, remark), v6, json);
            o == Some(Hysteria2Meant(Cut(uuid, ':').0, server, port, si, ex)) && (o.value.password == uuid <==> ':' !in uuid)
  {
    var user, fs := Escape(PathSegment, uuid), Hysteria2Fields(si, ex);
    EscapedCredential(uuid);
    Hysteria2FieldsAreBytes(si, ex);
    var x := ParseUser(user).value;
    Hysteria2Find(si, ex);
    Hysteria2Meaning(Hysteria2Link(uuid, server, port, si, ex, remark), user, x, server, port, si, ex, fs, remark, v6, json);
  }

  /** The obfuscation block buildSingboxInbound installs: only non-empty fields,
      and no block at all when both are empty. */
  function ServerObfs(ex: Hysteria2Extras): Option<(string, string)> {
    if ex.obfsType == "" && ex.obfsPassword == "" then None else Some((ex.obfsType, ex.obfsPassword))
  }

  // ---- tuic ----

  lemma TuicFieldsAreBytes(si: StreamInfo, ex: TuicExtras)
    requires si.AreBytes() && IsBytes(ex.congestion) && IsBytes(ex.udpRelay)
    ensures FieldsAreBytes(TuicFields(si, ex))
  {
    assert FieldsAreBytes(TuicBase([], si));
  }

  lemma TuicOptionsFind(p: Fields, ex: TuicExtras)
    requires Find(p, Congestion) == Find(p, UdpRelay) == Find(p, ZeroRtt) == ""
    ensures var fs := TuicOptions(p, ex);
            && Find(fs, Sni) == Find(p, Sni) && Find(fs, Alpn) == Find(p, Alpn)
            && Find(fs, TuicInsecure) == Find(p, TuicInsecure) && Find(fs, Insecure) == Find(p, Insecure)
            && Find(fs, Congestion) == ex.congestion && Find(fs, UdpRelay) == ex.udpRelay
            && Find(fs, ZeroRtt) == (if ex.zeroRtt then "1" else "")
  {
  }

  lemma NamesFind(p: Fields, si: StreamInfo)
    requires forall k: Key :: Find(p, k) == ""
    ensures var p1 := PutNonEmpty(PutNonEmpty(p, Sni, si.sni), Alpn, si.alpn);
            forall k: Key :: Find(p1, k) == match k case Sni => si.sni case Alpn => si.alpn case _ => ""
  {
  }

  lemma TuicBaseFind(p: Fields, si: StreamInfo)
    requires forall k: Key :: Find(p, k) == ""
    ensures var fs := TuicBase(p, si);
            && Find(fs, Sni) == si.sni && Find(fs, Alpn) == si.alpn
            && Find(fs, TuicInsecure) == (if si.allowInsecure then "1" else "") && Find(fs, Insecure) == ""
            && Find(fs, Congestion) == Find(fs, UdpRelay) == Find(fs, ZeroRtt) == ""
  {
    NamesFind(p, si);
  }

  /** Parameters that say what a tuic inbound asks for. */
  predicate TuicSays(fs: Fields, si: StreamInfo, ex: TuicExtras) {
    && Find(fs, Sni) == si.sni && Find(fs, Alpn) == si.alpn
    && Find(fs, TuicInsecure) == (if si.allowInsecure then "1" else "") && Find(fs, Insecure) == ""
    && Find(fs, Congestion) == ex.congestion && Find(fs, UdpRelay) == ex.udpRelay
    && Find(fs, ZeroRtt) == (if ex.zeroRtt then "1" else "")
  }

  lemma TuicFind(si: StreamInfo, ex: TuicExtras)
    ensures TuicSays(TuicFields(si, ex), si, ex)
  {
    TuicBaseFind([], si);
    TuicOptionsFind(TuicBase([], si), ex);
  }

  lemma EscapeTwice(uuid: string)
    ensures Escape(PathSegment, uuid + ":" + uuid) == Escape(PathSegment, uuid) + ":" + Escape(PathSegment, uuid)
  {
    EscapeConcat(uuid + ":", uuid);
    EscapeConcat(uuid, ":");
    assert Escape(PathSegment, ":") == ":";
  }

  lemma CutTwice(uuid: string)
    ensures var (name, rest, colon) := Cut(uuid + ":" + uuid, ':');
            colon && name == Cut(uuid, ':').0 && (':' !in uuid ==> name == uuid && rest == uuid)
  {
    var (name, rest, colon) := Cut(uuid, ':');
    if colon {
      CutFirstOfTwo(name, rest, uuid);
    } else {
      assert uuid + ":" + uuid == uuid + [':'] + uuid;
      CutAt(uuid, ':', uuid);
    }
  }

  lemma CutFirstOfTwo(name: string, rest: string, tail: string)
    requires ':' !in name
    ensures Cut((name + [':'] + rest) + ":" + tail, ':') == (name, rest + ":" + tail, true)
  {
    assert (name + [':'] + rest) + ":" + tail == name + [':'] + (rest + ":" + tail);
    CutAt(name, ':', rest + ":" + tail);
  }

  lemma ParseTuicUser(uuid: string)
    requires IsBytes(uuid)
    ensures var user := TwoNames(Escape(PathSegment, uuid)); var u := ParseUser(user);
            && FreeOfDelimiters(user) && NamesCredential(u, uuid) && u.value.NamePassword?
            && (':' !in uuid ==> u.value.password == uuid)
  {
    var twice := uuid + ":" + uuid;
    EscapeTwice(uuid);
    EscapedIsUserinfo(twice);
    ParseEscapedUser(twice);
    CutTwice(uuid);
  }

  function TuicMeant(u: User, server: string, port: nat, si: StreamInfo, ex: TuicExtras): Outbound
    requires u.NamePassword?
  {
    TuicOut(TrimBrackets(server), port, u.name, u.password,
            Some(Tls(si.sni, si.allowInsecure, SplitCsv(if si.alpn == "" then "h3" else si.alpn), None, None)),
            ex.congestion, ex.udpRelay, ex.zeroRtt)
  }

  lemma TuicFromUrl(u: Url, si: StreamInfo, ex: TuicExtras, fs: Fields, server: string, port: nat)
    requires FromPrinted(u, server, port, fs) && TuicSays(fs, si, ex) && u.user.NamePassword?
    ensures FromTuic(u) == Some(TuicMeant(u.user, server, port, si, ex))
  {
    TruthyFlag(si.allowInsecure);
    TruthyFlag(ex.zeroRtt);
    TruthyFlag(false);
  }

  lemma TuicMade(u: Url, x: User, server: string, port: nat, si: StreamInfo, ex: TuicExtras, fs: Fields, made: Option<Outbound>)
    requires x.NamePassword? && TuicSays(fs, si, ex) && u.user == x && FromPrinted(u, server, port, fs)
    requires made == FromTuic(u)
    ensures made == Some(TuicMeant(x, server, port, si, ex))
  {
    TuicFromUrl(u, si, ex, fs, server, port);
  }

  lemma TuicMeaning(link: string, user: string, x: User, server: string, port: nat, si: StreamInfo, ex: TuicExtras, fs: Fields, remark: string,
                       v6: string -> bool, json: string -> Option<Object>)
    requires Addressed(server, remark, v6) && FieldsAreBytes(fs) && FreeOfDelimiters(user) && ParseUser(user) == Some(x)
    requires TuicSays(fs, si, ex) && x.NamePassword?
    requires link == PrintedLink(SchemeText(TuicKind), user, server, port, fs, remark)
    ensures FromLink(link, v6, json) == Some(TuicMeant(x, server, port, si, ex))
  {
    hide FromLink, Addressed, PrintedLink, FieldsAreBytes, FreeOfDelimiters, ParseUser, FromPrinted, Parse, Escape, TuicSays, FromTuic, TuicMeant;
    var u := ReadLink(TuicKind, user, x, server, port, fs, remark, link, v6, json);
    TuicMade(u, x, server, port, si, ex, fs, FromLink(link, v6, json));
  }

  /** The uuid doubles as the password; both come back exactly when it has no
      colon, everything else always. */
  lemma TuicRoundTrip(uuid: string, server: string, port: nat, si: StreamInfo, ex: TuicExtras, remark: string,
                      v6: string -> bool, json: string -> Option<Object>) returns (u: User)
    requires Addressed(server, remark, v6) && si.AreBytes() && IsBytes(ex.congestion) && IsBytes(ex.udpRelay) && IsBytes(uuid)
    ensures u.NamePassword?
    ensures FromLink(TuicLink(uuid, server, port, si, ex, remark), v6, json) == Some(TuicMeant(u, server, port, si, ex))
    ensures u == NamePassword(uuid, uuid) <==> ':' !in uuid
  {
    var user := TwoNames(Escape(PathSegment, uuid));
    ParseTuicUser(uuid);
    u := ParseUser(user).value;
    TuicFieldsAreBytes(si, ex);
    TuicFind(si, ex);
    TuicMeaning(TuicLink(uuid, server, port, si, ex, remark), user, u, server, port, si, ex, TuicFields(si, ex), remark, v6, json);
  }

  // ---- shadowsocks ----

  lemma EncodedIsUnreserved(s: string)
    requires IsBytes(s)
    ensures forall c <- Encode(true, false, s) :: IsUnreserved(c)
  {
    EncodedAlphabet(true, false, s);
    assert forall c: char :: DecodeDigit(true, c).Some? ==> IsUnreserved(c);
  }

  /** Unreserved text needs no escaping in user information. */
  lemma UnreservedIsUser(t: string)
    requires forall c <- t :: IsUnreserved(c)
    ensures FreeOfDelimiters(t) && ParseUser(t) == Some(Name(t)) && Escape(UserInfo, t) == t && Unescape(PathSegment, t) == Some(t)
  {
    assert PlainUser(t) && '%' !in t;
    PlainUserParses(t);
    UnescapePlain(PathSegment, t);
    EscapeUnreserved(UserInfo, t);
  }

  lemma {:induction false} EscapeUnreserved(mode: Mode, t: string)
    requires forall c <- t :: IsUnreserved(c)
    ensures Escape(mode, t) == t
  {
    if t != "" {
      EscapeUnreserved(mode, t[1..]);
      assert t[0] in t && t == [t[0]] + t[1..];
    }
  }

  /** User information that carries a credential in base64url. */
  ghost predicate Carries(user: string, plain: string) {
    && FreeOfDelimiters(user) && ParseUser(user) == Some(Name(user))
    && Escape(UserInfo, user) == user && Unescape(PathSegment, user) == Some(user)
    && DecodeAny(user) == Some(plain)
  }

  lemma EncodedCarries(plain: string)
    requires IsBytes(plain)
    ensures Carries(Encode(true, false, plain), plain)
  {
    EncodedIsUnreserved(plain);
    UnreservedIsUser(Encode(true, false, plain));
    DecodeAnyInverts(true, false, plain);
  }

  lemma ShadowsocksFromUrl(u: Url, user: string, plain: string, server: string, port: nat)
    requires Carries(user, plain) && ':' in plain && FromPrinted(u, server, port, []) && u.user == Name(user)
    ensures FromShadowsocks(u) == Some(ShadowsocksOut(TrimBrackets(server), port, Cut(plain, ':').0, Cut(plain, ':').1))
  {
  }

  lemma ShadowsocksMeaning(link: string, user: string, plain: string, server: string, port: nat, remark: string,
                           v6: string -> bool, json: string -> Option<Object>)
    requires Addressed(server, remark, v6) && Carries(user, plain) && ':' in plain
    requires link == PrintedLink(SchemeText(SsKind), user, server, port, [], remark)
    ensures FromLink(link, v6, json) == Some(ShadowsocksOut(TrimBrackets(server), port, Cut(plain, ':').0, Cut(plain, ':').1))
  {
    var u := ReadLink(SsKind, user, Name(user), server, port, [], remark, link, v6, json);
    ShadowsocksFromUrl(u, user, plain, server, port);
  }

  /** A shadowsocks link may also carry method and password unencoded: it is read as
      they stand, up to colons in the method. */
  lemma PlainShadowsocksReads(u: Url, method_: string, password: string, port: nat)
    requires u.user == NamePassword(method_, password) && IsBytes(method_) && IsBytes(password)
    requires UrlPort(u) == Some(port) && Find(QueryOf(u), Plugin) == ""
    ensures FromShadowsocks(u) == Some(ShadowsocksOut(SplitHostPort(u.host).0, port, Cut(SsCredential(method_, password), ':').0,
                                                      Cut(SsCredential(method_, password), ':').1))
    ensures ':' !in method_ ==> FromShadowsocks(u) == Some(ShadowsocksOut(SplitHostPort(u.host).0, port, method_, password))
  {
    hide Escape, Unescape, Cut, DecodeAny, QueryOf, UrlPort, SplitHostPort, IsBytes;
    UserTextReads(u, method_, password);
    ColonIsNoBase64(SsCredential(method_, password));
    CutCredential(method_, password);
  }

  lemma UserTextReads(u: Url, method_: string, password: string)
    requires u.user == NamePassword(method_, password) && IsBytes(method_) && IsBytes(password)
    ensures Unescape(PathSegment, UserText(u)) == Some(SsCredential(method_, password))
  {
    hide Escape, Unescape, IsBytes;
    var tail := Escape(UserInfo, password);
    UnescapeEscape(UserInfo, PathSegment, password);
    ColonReads(tail, password);
    UnescapeThen(UserInfo, PathSegment, method_, ":" + tail, ":" + password);
    assert Escape(UserInfo, method_) + ":" + tail == Escape(UserInfo, method_) + (":" + tail);
    assert SsCredential(method_, password) == method_ + (":" + password);
  }

  lemma ColonReads(tail: string, password: string)
    requires Unescape(PathSegment, tail) == Some(password)
    ensures Unescape(PathSegment, ":" + tail) == Some(":" + password)
  {
    assert (":" + tail)[1..] == tail;
  }

  lemma CutCredential(method_: string, psk: string)
    ensures var (m, p, colon) := Cut(SsCredential(method_, psk), ':');
            colon && m == Cut(method_, ':').0 && ((m, p) == (method_, psk) <==> ':' !in method_)
  {
    var (name, rest, colon) := Cut(method_, ':');
    if colon {
      CutFirstOfTwo(name, rest, psk);
    } else {
      assert method_ + ":" + psk == method_ + [':'] + psk;
      CutAt(method_, ':', psk);
    }
  }

  lemma CredentialIsBytes(method_: string, password: string, uuid: string)
    requires IsBytes(method_) && IsBytes(password) && IsBytes(uuid)
    ensures IsBytes(SsCredential(method_, SsClientPassword(method_, password, uuid)))
  {
  }

  /** A shadowsocks link of an inbound with a password is always accepted; it
      gives back the method it was printed with and the client's password,
      whatever bytes they hold, exactly when the method has no colon. */
  lemma ShadowsocksRoundTrip(raw: string, password: string, uuid: string, server: string, port: nat, remark: string,
                             v6: string -> bool, json: string -> Option<Object>) returns (m: string, p: string)
    requires Addressed(server, remark, v6) && IsBytes(raw) && IsBytes(password) && IsBytes(uuid) && password != ""
    ensures FromLink(ShadowsocksLink(raw, password, uuid, server, port, remark), v6, json) ==
            Some(ShadowsocksOut(TrimBrackets(server), port, m, p))
    ensures m == Cut(LinkMethod(raw), ':').0
    ensures (m, p) == (LinkMethod(raw), SsClientPassword(LinkMethod(raw), password, uuid)) <==> ':' !in raw
  {
    var method_ := LinkMethod(raw);
    DefaultMethod(raw);
    var psk := SsClientPassword(method_, password, uuid);
    var plain := SsCredential(method_, psk);
    CredentialIsBytes(method_, password, uuid);
    CutCredential(method_, psk);
    m, p := Cut(plain, ':').0, Cut(plain, ':').1;
    EncodedCarries(plain);
    var user := Encode(true, false, plain);
    ShadowsocksMeaning(SsLink(plain, server, port, remark), user, plain, server, port, remark, v6, json);
  }

  lemma DefaultMethod(raw: string)
    requires IsBytes(raw)
    ensures IsBytes(LinkMethod(raw)) && (':' in LinkMethod(raw) <==> ':' in raw)
  {
  }

  /** The empty text, which stands for no link, is no link. */
  lemma NoLinkIsRejected(v6: string -> bool, json: string -> Option<Object>)
    ensures FromLink("", v6, json) == None
  {
    assert Cut("", '#') == ("", "", false) && Cut("", ':') == ("", "", false);
  }

  // ---- vmess ----

  predicate Bare(v: Object) {
    v.security == v.sni == v.alpn == v.fingerprint == v.realityKey == v.realityShortId == v.realitySpider == v.allowInsecure == ""
  }

  lemma SecuredTls(v: Object, si: StreamInfo)
    requires Bare(v)
    ensures ObjectTls(VmessSecured(v, si)) == VmessTls(si)
  {
    TruthyFlag(si.allowInsecure);
    TruthyFlag(false);
  }

  lemma SecuredKeeps(v: Object, si: StreamInfo)
    ensures var w := VmessSecured(v, si);
            (w.server, w.port, w.uuid, w.network, w.host, w.path) == (v.server, v.port, v.uuid, v.network, v.host, v.path)
  {
  }

  lemma CarriedMembers(v: Object, si: StreamInfo)
    requires v.network == si.network && v.host == v.path == ""
    ensures var w := VmessCarried(v, si);
            ObjectTransport(w) == CarriedTransport(si)
  {
  }

  lemma CarriedKeeps(v: Object, si: StreamInfo)
    ensures var w := VmessCarried(v, si);
            && (w.server, w.port, w.uuid) == (v.server, v.port, v.uuid)
            && (w.security, w.sni, w.alpn, w.fingerprint) == (v.security, v.sni, v.alpn, v.fingerprint)
            && (w.realityKey, w.realityShortId, w.allowInsecure) == (v.realityKey, v.realityShortId, v.allowInsecure)
  {
  }

  lemma VmessObjectIs(uuid: string, server: string, port: nat, si: StreamInfo, base: Object)
    requires base == Object(server, Itoa(port), uuid, si.network, "none", "", "", "", "", "", "", "", "", "", "")
    ensures var v := VmessObject(uuid, server, port, si);
            && ObjectTls(v) == VmessTls(si) && ObjectTransport(v) == CarriedTransport(si)
            && v.port == Itoa(port) && v.server == server && v.uuid == uuid
  {
    SecuredTls(base, si);
    SecuredKeeps(base, si);
    CarriedMembers(VmessSecured(base, si), si);
    CarriedKeeps(VmessSecured(base, si), si);
  }

  // The JSON text of the object.

  /** What the settings are after they have been JSON. */
  function CoercedStream(si: StreamInfo): StreamInfo {
    StreamInfo(Coerced(si.network), Coerced(si.security), Coerced(si.sni), Coerced(si.alpn), Coerced(si.wsPath), Coerced(si.wsHost),
               Coerced(si.grpcService), Coerced(si.h2Path), Coerced(si.h2Host), Coerced(si.upgradePath), Coerced(si.upgradeHost),
               Coerced(si.realityKey), Coerced(si.realityShortId), Coerced(si.realitySpider), Coerced(si.fingerprint), si.allowInsecure)
  }

  function CoercedObject(v: Object): Object {
    Object(Coerced(v.server), Coerced(v.port), Coerced(v.uuid), Coerced(v.network), Coerced(v.header), Coerced(v.host), Coerced(v.path),
           Coerced(v.security), Coerced(v.sni), Coerced(v.alpn), Coerced(v.fingerprint),
           Coerced(v.realityKey), Coerced(v.realityShortId), Coerced(v.realitySpider), Coerced(v.allowInsecure))
  }

  predicate IsAscii(s: string) { forall i :: 0 <= i < |s| ==> s[i] as int < 0x80 }

  lemma AsciiStays(s: string)
    requires IsAscii(s)
    ensures Coerced(s) == s
  {
    AsciiIsUtf8(s);
    CoercedIff(s);
  }

  /** A text that reads back as ASCII was that ASCII text. */
  lemma {:induction false} AsciiWas(s: string)
    requires IsAscii(Coerced(s))
    ensures Coerced(s) == s
    decreases |s|
  {
    if s != "" {
      var first, rest := FirstRune(s), Coerced(s[RuneStep(s)..]);
      assert Coerced(s)[0] == first[0];
      forall i | 0 <= i < |rest| ensures rest[i] as int < 0x80 {
        assert Coerced(s)[|first| + i] == rest[i];
      }
      AsciiWas(s[RuneStep(s)..]);
      assert s == s[..RuneStep(s)] + s[RuneStep(s)..];
    }
  }

  /** Being one of the known words is not changed by being JSON. */
  lemma WordStays(s: string, word: string)
    requires IsAscii(word)
    ensures Coerced(s) == word <==> s == word
  {
    if Coerced(s) == word {
      AsciiWas(s);
    }
    if s == word {
      AsciiStays(s);
    }
  }

  lemma KnownWordsStay(si: StreamInfo)
    ensures NetOf(Coerced(si.network)) == NetOf(si.network) && LayerOf(Coerced(si.security)) == LayerOf(si.security)
  {
    hide Coerced;
    WordStays(si.network, "tcp");
    WordStays(si.network, "ws");
    WordStays(si.network, "grpc");
    WordStays(si.network, "h2");
    WordStays(si.network, "http");
    WordStays(si.network, "httpupgrade");
    WordStays(si.security, "tls");
    WordStays(si.security, "reality");
  }

  predicate ConstantsStay() {
    && Coerced("") == "" && Coerced("none") == "none" && Coerced("1") == "1" && Coerced("tls") == "tls" && Coerced("reality") == "reality"
    && Coerced("gun") == "gun" && Coerced("h2") == "h2" && Coerced("httpupgrade") == "httpupgrade"
  }

  lemma ConstantsAreAscii()
    ensures ConstantsStay()
  {
    hide Coerced;
    AsciiStays("");
    AsciiStays("none");
    AsciiStays("1");
    AsciiStays("tls");
    AsciiStays("reality");
    AsciiStays("gun");
    AsciiStays("h2");
    AsciiStays("httpupgrade");
  }

  /** The object of the text is the object of the coerced settings. */
  lemma CoercedObjectIs(uuid: string, server: string, port: nat, si: StreamInfo)
    ensures CoercedObject(VmessObject(uuid, server, port, si)) == VmessObject(Coerced(uuid), Coerced(server), port, CoercedStream(si))
  {
    hide Coerced, Itoa, VmessSecured, VmessCarried;
    KnownWordsStay(si);
    ConstantsAreAscii();
    AsciiStays(Itoa(port));
    var base := Object(server, Itoa(port), uuid, si.network, "none", "", "", "", "", "", "", "", "", "", "");
    SecuredCoerced(base, si);
    CarriedCoerced(VmessSecured(base, si), si);
  }

  lemma SecuredCoerced(v: Object, si: StreamInfo)
    requires LayerOf(Coerced(si.security)) == LayerOf(si.security) && ConstantsStay()
    ensures CoercedObject(VmessSecured(v, si)) == VmessSecured(CoercedObject(v), CoercedStream(si))
  {
    hide Coerced;
  }

  lemma CarriedCoerced(v: Object, si: StreamInfo)
    requires NetOf(Coerced(si.network)) == NetOf(si.network) && ConstantsStay()
    ensures CoercedObject(VmessCarried(v, si)) == VmessCarried(CoercedObject(v), CoercedStream(si))
  {
    hide Coerced;
  }

  /** Every member with this name has this value, or there is none and the value
      is empty. */
  predicate Says(ms: seq<Member>, name: string, value: string) {
    && (forall m <- ms :: m.key == name ==> m.value == value)
    && ((exists m <- ms :: m.key == name) || value == "")
  }

  lemma {:induction false} LookupSays(ms: seq<Member>, name: string, value: string)
    requires Says(ms, name, value)
    ensures Lookup(ms, name) == value
  {
    if ms != [] {
      var n := |ms| - 1;
      if ms[n].key == name {
        assert ms[n] in ms;
      } else {
        if m :| m in ms && m.key == name {
          var i :| 0 <= i < |ms| && ms[i] == m;
          assert ms[..n][i] == m;
        }
        LookupSays(ms[..n], name, value);
      }
    }
  }

  lemma NamesDiffer(k: VmessKey)
    ensures VmessKeyOf(VmessName(k)) == Some(k) && IsAscii(VmessName(k))
  {
  }

  /** The written members say under every name what the object says. */
  lemma {:induction false} MembersSay(v: Object, tag: string, keys: seq<VmessKey>, k: VmessKey)
    ensures forall m <- VmessMembers(v, tag, keys) :: m.key == VmessName(k) ==> m.value == VmessValue(v, tag, k)
    ensures k in keys && !(IsOptional(k) && VmessValue(v, tag, k) == "") ==> exists m <- VmessMembers(v, tag, keys) :: m.key == VmessName(k)
  {
    if keys != [] {
      var ms, rest := VmessMembers(v, tag, keys), VmessMembers(v, tag, keys[1..]);
      NamesDiffer(k);
      NamesDiffer(keys[0]);
      MembersSay(v, tag, keys[1..], k);
      assert forall m <- rest :: m in ms;
      if k == keys[0] && ms != rest {
        assert ms[0] in ms;
      }
    }
  }

  /** Exactly five members are left out when they are empty. */
  lemma WrittenIff(v: Object, tag: string, k: VmessKey)
    ensures (exists m <- VmessMembers(v, tag, WRITTEN) :: m.key == VmessName(k)) <==>
            VmessValue(v, tag, k) != "" || k !in {Insecure_, Fp, Pbk, Sid, Spx}
  {
    hide VmessMembers, VmessName, VmessValue;
    AllWritten(k);
    MembersSay(v, tag, WRITTEN, k);
    if IsOptional(k) && VmessValue(v, tag, k) == "" {
      NoneEmpty(v, tag, WRITTEN, k);
    }
  }

  lemma {:induction false} NoneEmpty(v: Object, tag: string, keys: seq<VmessKey>, k: VmessKey)
    requires IsOptional(k) && VmessValue(v, tag, k) == ""
    ensures forall m <- VmessMembers(v, tag, keys) :: m.key != VmessName(k)
  {
    if keys != [] {
      NamesDiffer(k);
      NamesDiffer(keys[0]);
      NoneEmpty(v, tag, keys[1..], k);
    }
  }

  lemma TextSays(v: Object, tag: string, k: VmessKey)
    ensures Lookup(CoercedMembers(VmessMembers(v, tag, WRITTEN)), VmessName(k)) == Coerced(VmessValue(v, tag, k))
  {
    var ms := VmessMembers(v, tag, WRITTEN);
    var cs := CoercedMembers(ms);
    AllWritten(k);
    MembersSay(v, tag, WRITTEN, k);
    NamesDiffer(k);
    forall i | 0 <= i < |ms| ensures cs[i].key == VmessName(k) <==> ms[i].key == VmessName(k) {
      WordStays(ms[i].key, VmessName(k));
    }
    CoercedSays(ms, cs, VmessName(k), VmessValue(v, tag, k));
    LookupSays(cs, VmessName(k), Coerced(VmessValue(v, tag, k)));
  }

  lemma AllWritten(k: VmessKey)
    ensures k in WRITTEN
  {
  }

  /** The members that say what kind of link this is, and its name. */
  lemma VmessConstants(v: Object, tag: string)
    ensures ReadObject(VmessText(v, tag)).Some?
    ensures var ms := ReadObject(VmessText(v, tag)).value;
            && Lookup(ms, "v") == "2" && Lookup(ms, "aid") == "0" && Lookup(ms, "scy") == "auto" && Lookup(ms, "ps") == Coerced(tag)
  {
    hide ReadObject, Lookup, Coerced, CoercedMembers, VmessMembers, ObjectText;
    ObjectReads(VmessMembers(v, tag, WRITTEN));
    NameSays(v, tag, Version, "v", "2");
    NameSays(v, tag, Aid, "aid", "0");
    NameSays(v, tag, Scy, "scy", "auto");
    NameSays(v, tag, Ps, "ps", tag);
    AsciiStays("2");
    AsciiStays("0");
    AsciiStays("auto");
  }

  lemma CoercedSays(ms: seq<Member>, cs: seq<Member>, name: string, value: string)
    requires Says(ms, name, value) && cs == CoercedMembers(ms)
    requires forall i :: 0 <= i < |ms| ==> (cs[i].key == name <==> ms[i].key == name)
    ensures Says(cs, name, Coerced(value))
  {
    forall c | c in cs && c.key == name ensures c.value == Coerced(value) {
      var i :| 0 <= i < |cs| && cs[i] == c;
      assert ms[i] in ms;
    }
    if m :| m in ms && m.key == name {
      var i :| 0 <= i < |ms| && ms[i] == m;
      assert cs[i] in cs;
    }
  }

  lemma NameSays(v: Object, tag: string, k: VmessKey, name: string, value: string)
    requires name == VmessName(k) && value == VmessValue(v, tag, k)
    ensures Lookup(CoercedMembers(VmessMembers(v, tag, WRITTEN)), name) == Coerced(value)
  {
    TextSays(v, tag, k);
  }

  lemma AddressSays(v: Object, tag: string, cs: seq<Member>)
    requires cs == CoercedMembers(VmessMembers(v, tag, WRITTEN))
    ensures Lookup(cs, "add") == Coerced(v.server) && Lookup(cs, "port") == Coerced(v.port) && Lookup(cs, "id") == Coerced(v.uuid)
    ensures Lookup(cs, "net") == Coerced(v.network) && Lookup(cs, "type") == Coerced(v.header)
    ensures Lookup(cs, "host") == Coerced(v.host) && Lookup(cs, "path") == Coerced(v.path)
  {
    hide Lookup, Coerced, CoercedMembers, VmessMembers;
    NameSays(v, tag, Add, "add", v.server);
    NameSays(v, tag, PortKey, "port", v.port);
    NameSays(v, tag, Id, "id", v.uuid);
    NameSays(v, tag, NetKey, "net", v.network);
    NameSays(v, tag, TypeKey, "type", v.header);
    NameSays(v, tag, Host_, "host", v.host);
    NameSays(v, tag, Path_, "path", v.path);
  }

  lemma SecuritySays(v: Object, tag: string, cs: seq<Member>)
    requires cs == CoercedMembers(VmessMembers(v, tag, WRITTEN))
    ensures Lookup(cs, "tls") == Coerced(v.security) && Lookup(cs, "sni") == Coerced(v.sni) && Lookup(cs, "alpn") == Coerced(v.alpn)
    ensures Lookup(cs, "fp") == Coerced(v.fingerprint) && Lookup(cs, "pbk") == Coerced(v.realityKey)
    ensures Lookup(cs, "sid") == Coerced(v.realityShortId) && Lookup(cs, "spx") == Coerced(v.realitySpider)
    ensures Lookup(cs, "allowInsecure") == Coerced(v.allowInsecure)
  {
    hide Lookup, Coerced, CoercedMembers, VmessMembers;
    NameSays(v, tag, TlsKey, "tls", v.security);
    NameSays(v, tag, Sni_, "sni", v.sni);
    NameSays(v, tag, Alpn_, "alpn", v.alpn);
    NameSays(v, tag, Fp, "fp", v.fingerprint);
    NameSays(v, tag, Pbk, "pbk", v.realityKey);
    NameSays(v, tag, Sid, "sid", v.realityShortId);
    NameSays(v, tag, Spx, "spx", v.realitySpider);
    NameSays(v, tag, Insecure_, "allowInsecure", v.allowInsecure);
  }

  /** Writing the object as JSON and reading it. */
  lemma VmessTextReads(v: Object, tag: string)
    ensures ReadObject(VmessText(v, tag)).Some? && ObjectOf(ReadObject(VmessText(v, tag)).value) == CoercedObject(v)
  {
    hide ReadObject, Lookup, Coerced, CoercedMembers, VmessMembers, ObjectText;
    var ms := VmessMembers(v, tag, WRITTEN);
    ObjectReads(ms);
    AddressSays(v, tag, CoercedMembers(ms));
    SecuritySays(v, tag, CoercedMembers(ms));
  }

  lemma VmessLinkKind(text: string)
    requires IsBytes(text)
    ensures var link := "vmess://" + Encode(false, true, text);
            KindOf(link) == VmessKind && TrimPrefix(link, "vmess://") == Encode(false, true, text)
  {
    var rest := Encode(false, true, text);
    assert "vmess://" + rest == "vmess" + "://" + rest;
    SchemeOfLink("vmess", rest);
    assert ToLower("vmess") == "vmess";
  }

  function VmessMeant(uuid: string, server: string, port: nat, si: StreamInfo): Outbound {
    VmessOut(Coerced(server), port, Coerced(uuid), VmessTls(CoercedStream(si)), CarriedTransport(CoercedStream(si)))
  }

  /** A vmess link, JSON text included, gives back credential, address and
      settings as far as they are UTF-8: each of the two texts exactly then. */
  lemma VmessRoundTrip(uuid: string, server: string, port: nat, si: StreamInfo, tag: string,
                       v6: string -> bool, json: string -> Option<Object>)
    requires IsBytes(uuid) && IsBytes(server) && IsBytes(tag) && si.AreBytes() && ReadsStrings(json)
    ensures var o := FromLink(VmessLink(uuid, server, port, si, tag), v6, json);
            && o == Some(VmessMeant(uuid, server, port, si))
            && (o.value.uuid == uuid <==> IsUtf8(uuid)) && (o.value.server == server <==> IsUtf8(server))
  {
    var v := VmessObject(uuid, server, port, si);
    var text := VmessText(v, tag);
    VmessTextIsBytes(uuid, server, port, si, tag);
    VmessLinkKind(text);
    DecodeAnyInverts(false, true, text);
    VmessTextReads(v, tag);
    assert json(text) == Some(CoercedObject(v));
    CoercedObjectIs(uuid, server, port, si);
    VmessObjectRead(Coerced(uuid), Coerced(server), port, CoercedStream(si));
    CoercedIff(uuid);
    CoercedIff(server);
  }

  lemma VmessObjectRead(uuid: string, server: string, port: nat, si: StreamInfo)
    ensures FromVmessObject(VmessObject(uuid, server, port, si)) == Some(VmessOut(server, port, uuid, VmessTls(si), CarriedTransport(si)))
  {
    VmessObjectIs(uuid, server, port, si, Object(server, Itoa(port), uuid, si.network, "none", "", "", "", "", "", "", "", "", "", ""));
    AtoiItoa(port);
  }

  /** The outbound has the TLS block of the stream, unless REALITY asks for a list
      of protocols or to skip verification. */
  predicate KeepsTls(o: Outbound, si: StreamInfo) {
    o.VmessOut? && (o.tls == TlsOf(si) <==> !(si.security == "reality" && (SplitCsv(si.alpn) != [] || si.allowInsecure)))
  }

  lemma VmessTlsIs(o: Outbound, si: StreamInfo)
    requires o.VmessOut? && o.tls == VmessTls(si)
    ensures KeepsTls(o, si)
  {
    assert SplitCsv("") == [];
  }

  /** The TLS block comes back from a vmess link exactly then. */
  lemma VmessTlsIff(uuid: string, server: string, port: nat, si: StreamInfo, tag: string,
                    v6: string -> bool, json: string -> Option<Object>) returns (o: Outbound)
    requires IsBytes(uuid) && IsBytes(server) && IsBytes(tag) && si.AreBytes() && ReadsStrings(json)
    ensures FromLink(VmessLink(uuid, server, port, si, tag), v6, json) == Some(o) && KeepsTls(o, CoercedStream(si))
  {
    hide FromLink, VmessLink, KeepsTls, VmessTls;
    VmessRoundTrip(uuid, server, port, si, tag, v6, json);
    o := VmessMeant(uuid, server, port, si);
    VmessTlsIs(o, CoercedStream(si));
  }

  /** The list of protocols in the stream settings is the list the client of a
      trojan link uses, name for name. */
  lemma AlpnRoundTrip(uuid: string, server: string, port: nat, si: StreamInfo, remark: string, names: seq<string>,
                      v6: string -> bool, json: string -> Option<Object>) returns (o: Outbound)
    requires Addressed(server, remark, v6) && si.AreBytes() && IsBytes(uuid)
    requires si.security in {"tls", "reality"} && AllTokens(names) && si.alpn == Join(names, ',')
    ensures FromLink(TrojanLink(uuid, server, port, si, remark), v6, json) == Some(o)
    ensures o.TrojanOut? && o.tls.Some? && o.tls.value.alpn == names
  {
    TrojanRoundTrip(uuid, server, port, si, remark, v6, json);
    o := TrojanOut(TrimBrackets(server), port, Cut(uuid, ':').0, TlsOf(si), CarriedTransport(si));
    SplitCsvJoin(names);
  }
}
