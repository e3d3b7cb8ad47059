/**
 The share-link printer of the subscription service and the parser the
 end-to-end self-test reads it with.
 */
module ShareLinks {
  import opened Wrappers
  import opened GoText
  import opened Base64
  import opened Percent
  import opened LinkUrl
  import opened Csv
  import opened JsonText

  /** Transport and TLS settings as parseStream reads them. */
  datatype StreamInfo = StreamInfo(
    network: string, security: string, sni: string, alpn: string,
    wsPath: string, wsHost: string, grpcService: string,
    h2Path: string, h2Host: string, upgradePath: string, upgradeHost: string,
    realityKey: string, realityShortId: string, realitySpider: string,
    fingerprint: string, allowInsecure: bool)
  {
    predicate AreBytes() {
      && IsBytes(network) && IsBytes(security) && IsBytes(sni) && IsBytes(alpn)
      && IsBytes(wsPath) && IsBytes(wsHost) && IsBytes(grpcService)
      && IsBytes(h2Path) && IsBytes(h2Host) && IsBytes(upgradePath) && IsBytes(upgradeHost)
      && IsBytes(realityKey) && IsBytes(realityShortId) && IsBytes(realitySpider)
      && IsBytes(fingerprint)
    }
  }

  datatype Hysteria2Extras = Hysteria2Extras(obfsType: string, obfsPassword: string, ports: string)

  datatype TuicExtras = TuicExtras(congestion: string, udpRelay: string, zeroRtt: bool)

  datatype Reality = Reality(publicKey: string, shortId: string)

  datatype Tls = Tls(serverName: string, insecure: bool, alpn: seq<string>,
                     reality: Option<Reality>, utls: Option<string>)

  datatype Transport =
    | Ws(path: string, host: string)
    | Grpc(serviceName: string)
    | Http(path: string, host: string)
    | HttpUpgrade(path: string, host: string)

  datatype Outbound =
    | VlessOut(server: string, port: nat, uuid: string, flow: string, tls: Option<Tls>, transport: Option<Transport>)
    | TrojanOut(server: string, port: nat, password: string, tls: Option<Tls>, transport: Option<Transport>)
    | VmessOut(server: string, port: nat, uuid: string, tls: Option<Tls>, transport: Option<Transport>)
    | ShadowsocksOut(server: string, port: nat, method_: string, password: string)
    | Hysteria2Out(server: string, port: nat, password: string, tls: Option<Tls>, obfs: Option<(string, string)>)
    | TuicOut(server: string, port: nat, uuid: string, password: string, tls: Option<Tls>,
              congestion: string, udpRelay: string, zeroRtt: bool)

  /** The query parameters of all link formats. */
  datatype Key =
    | Encryption
    | NetworkType
    | Security
    | Flow
    | Sni
    | Alpn
    | Fingerprint
    | AllowInsecure
    | Insecure
    | RealityKey
    | RealityShortId
    | RealitySpider
    | HeaderType
    | PathKey
    | HostKey
    | ServiceName
    | GunMode
    | Obfs
    | ObfsPassword
    | Ports
    | TuicInsecure
    | Congestion
    | UdpRelay
    | ZeroRtt
    | Plugin

  function KeyText(k: Key): string {
    match k
    case Encryption => "encryption"
    case NetworkType => "type"
    case Security => "security"
    case Flow => "flow"
    case Sni => "sni"
    case Alpn => "alpn"
    case Fingerprint => "fp"
    case AllowInsecure => "allowInsecure"
    case Insecure => "insecure"
    case RealityKey => "pbk"
    case RealityShortId => "sid"
    case RealitySpider => "spx"
    case HeaderType => "headerType"
    case PathKey => "path"
    case HostKey => "host"
    case ServiceName => "serviceName"
    case GunMode => "mode"
    case Obfs => "obfs"
    case ObfsPassword => "obfs-password"
    case Ports => "mport"
    case TuicInsecure => "allow_insecure"
    case Congestion => "congestion_control"
    case UdpRelay => "udp_relay_mode"
    case ZeroRtt => "zero_rtt_handshake"
    case Plugin => "plugin"
  }

  function KeyOf(text: string): Option<Key> {
    match text
    case "encryption" => Some(Encryption)
    case "type" => Some(NetworkType)
    case "security" => Some(Security)
    case "flow" => Some(Flow)
    case "sni" => Some(Sni)
    case "alpn" => Some(Alpn)
    case "fp" => Some(Fingerprint)
    case "allowInsecure" => Some(AllowInsecure)
    case "insecure" => Some(Insecure)
    case "pbk" => Some(RealityKey)
    case "sid" => Some(RealityShortId)
    case "spx" => Some(RealitySpider)
    case "headerType" => Some(HeaderType)
    case "path" => Some(PathKey)
    case "host" => Some(HostKey)
    case "serviceName" => Some(ServiceName)
    case "mode" => Some(GunMode)
    case "obfs" => Some(Obfs)
    case "obfs-password" => Some(ObfsPassword)
    case "mport" => Some(Ports)
    case "allow_insecure" => Some(TuicInsecure)
    case "congestion_control" => Some(Congestion)
    case "udp_relay_mode" => Some(UdpRelay)
    case "zero_rtt_handshake" => Some(ZeroRtt)
    case "plugin" => Some(Plugin)
    case _ => None
  }

  lemma KeyOfKeyText(k: Key)
    ensures KeyOf(KeyText(k)) == Some(k)
  {
  }

  type Fields = seq<(Key, string)>

  function Find(fs: Fields, k: Key): string {
    if fs == [] then "" else if fs[0].0 == k then fs[0].1 else Find(fs[1..], k)
  }

  predicate FieldsAreBytes(fs: Fields) {
    forall i :: 0 <= i < |fs| ==> IsBytes(fs[i].1)
  }

  /** Sets a parameter; the list stays in the encoder's key order. */
  function Put(fs: Fields, k: Key, v: string): (r: Fields)
    ensures forall k' :: Find(r, k') == if k' == k then v else Find(fs, k')
    ensures FieldsAreBytes(fs) && IsBytes(v) ==> FieldsAreBytes(r)
  {
    if fs == [] then [(k, v)]
    else if fs[0].0 == k then [(k, v)] + fs[1..]
    else if Less(KeyText(k), KeyText(fs[0].0)) then [(k, v)] + fs
    else [fs[0]] + Put(fs[1..], k, v)
  }

  /** The later value wins unless it is empty. */
  function Over(v: string, old_: string): string { if v == "" then old_ else v }

  function PutNonEmpty(fs: Fields, k: Key, v: string): (r: Fields)
    ensures forall k' :: Find(r, k') == if k' == k then Over(v, Find(fs, k)) else Find(fs, k')
    ensures FieldsAreBytes(fs) && IsBytes(v) ==> FieldsAreBytes(r)
  {
    if v == "" then fs else Put(fs, k, v)
  }

  /** The parameters as the query encoder sees them. */
  function Texts(fs: Fields): (r: Params)
    ensures |r| == |fs| && forall i :: 0 <= i < |fs| ==> r[i] == (KeyText(fs[i].0), fs[i].1)
  {
    seq(|fs|, i requires 0 <= i < |fs| => (KeyText(fs[i].0), fs[i].1))
  }

  /** The known parameters of a parsed query; the others are never asked for. */
  function Known(ps: Params): Fields {
    if ps == [] then []
    else
      match KeyOf(ps[0].0)
      case None => Known(ps[1..])
      case Some(k) => [(k, ps[0].1)] + Known(ps[1..])
  }

  lemma {:induction false} KnownTexts(fs: Fields)
    ensures Known(Texts(fs)) == fs
  {
    if fs != [] {
      assert Texts(fs)[1..] == Texts(fs[1..]);
      KnownTexts(fs[1..]);
      KeyOfKeyText(fs[0].0);
      assert fs == [fs[0]] + fs[1..];
    }
  }

  predicate IsTlsKey(k: Key) {
    k in {Security, Flow, Sni, Alpn, Fingerprint, AllowInsecure, Insecure, RealityKey, RealityShortId, RealitySpider, TuicInsecure}
  }

  lemma TlsKeyIsBytes(k: Key)
    requires IsTlsKey(k)
    ensures IsBytes(KeyText(k))
  {
  }

  lemma OtherKeyIsBytes(k: Key)
    requires !IsTlsKey(k)
    ensures IsBytes(KeyText(k))
  {
  }

  lemma TextsAreBytes(fs: Fields)
    requires FieldsAreBytes(fs)
    ensures ParamsAreBytes(Texts(fs))
  {
    forall i | 0 <= i < |fs| ensures IsBytes(Texts(fs)[i].0) {
      if IsTlsKey(fs[i].0) {
        TlsKeyIsBytes(fs[i].0);
      } else {
        OtherKeyIsBytes(fs[i].0);
      }
    }
  }

  /** The transports and security layers the code distinguishes by name. */
  datatype Net = TcpNet | WsNet | GrpcNet | H2Net | HttpNet | UpgradeNet | OtherNet

  function NetOf(network: string): Net {
    match network
    case "tcp" => TcpNet
    case "ws" => WsNet
    case "grpc" => GrpcNet
    case "h2" => H2Net
    case "http" => HttpNet
    case "httpupgrade" => UpgradeNet
    case _ => OtherNet
  }

  datatype Layer = TlsLayer | RealityLayer | OtherLayer

  function LayerOf(security: string): Layer {
    match security
    case "tls" => TlsLayer
    case "reality" => RealityLayer
    case _ => OtherLayer
  }

  // ---------- Printing ----------

  function AppendTransport(p: Fields, si: StreamInfo): Fields {
    match NetOf(si.network)
    case TcpNet => Put(p, HeaderType, "none")
    case WsNet => PutNonEmpty(PutNonEmpty(p, PathKey, si.wsPath), HostKey, si.wsHost)
    case GrpcNet => Put(PutNonEmpty(p, ServiceName, si.grpcService), GunMode, "gun")
    case H2Net => PutNonEmpty(PutNonEmpty(p, PathKey, si.h2Path), HostKey, si.h2Host)
    case UpgradeNet => PutNonEmpty(PutNonEmpty(p, PathKey, si.upgradePath), HostKey, si.upgradeHost)
    case HttpNet => p
    case OtherNet => p
  }

  function TlsFields(p: Fields, si: StreamInfo): Fields {
    PutNonEmpty(PutNonEmpty(PutNonEmpty(p, Sni, si.sni), Alpn, si.alpn), Fingerprint, si.fingerprint)
  }

  function RealityFields(p: Fields, si: StreamInfo): Fields {
    if LayerOf(si.security) == RealityLayer
    then PutNonEmpty(PutNonEmpty(PutNonEmpty(p, RealityKey, si.realityKey), RealityShortId, si.realityShortId), RealitySpider, si.realitySpider)
    else p
  }

  /** The fields vless and trojan links share. */
  function SecurityFields(p: Fields, si: StreamInfo): Fields {
    var p1 := TlsFields(p, si);
    RealityFields(if si.allowInsecure then Put(p1, AllowInsecure, "1") else p1, si)
  }

  function VlessBase(si: StreamInfo, flow: string): Fields {
    PutNonEmpty(Put(Put(Put([], Encryption, "none"), NetworkType, si.network), Security, si.security), Flow, flow)
  }

  function VlessFields(si: StreamInfo, flow: string): Fields {
    AppendTransport(SecurityFields(VlessBase(si, flow), si), si)
  }

  function TrojanBase(si: StreamInfo): Fields {
    Put(Put([], NetworkType, si.network), Security, si.security)
  }

  function TrojanFields(si: StreamInfo): Fields {
    AppendTransport(SecurityFields(TrojanBase(si), si), si)
  }

  function Hysteria2Base(p: Fields, si: StreamInfo): Fields {
    var p1 := PutNonEmpty(p, Sni, si.sni);
    PutNonEmpty(if si.allowInsecure then Put(p1, Insecure, "1") else p1, Alpn, si.alpn)
  }

  function Hysteria2Options(p: Fields, ex: Hysteria2Extras): Fields {
    var p1 := if ex.obfsType != "" then PutNonEmpty(Put(p, Obfs, ex.obfsType), ObfsPassword, ex.obfsPassword) else p;
    PutNonEmpty(p1, Ports, ex.ports)
  }

  function Hysteria2Fields(si: StreamInfo, ex: Hysteria2Extras): Fields {
    Hysteria2Options(Hysteria2Base([], si), ex)
  }

  function TuicBase(p: Fields, si: StreamInfo): Fields {
    var p1 := PutNonEmpty(PutNonEmpty(p, Sni, si.sni), Alpn, si.alpn);
    if si.allowInsecure then Put(p1, TuicInsecure, "1") else p1
  }

  function TuicOptions(p: Fields, ex: TuicExtras): Fields {
    var p1 := PutNonEmpty(PutNonEmpty(p, Congestion, ex.congestion), UdpRelay, ex.udpRelay);
    if ex.zeroRtt then Put(p1, ZeroRtt, "1") else p1
  }

  function TuicFields(si: StreamInfo, ex: TuicExtras): Fields {
    TuicOptions(TuicBase([], si), ex)
  }

  // The query encoder sorts by key, and so do these lists.

  predicate Ascending(fs: Fields) { forall i :: 0 <= i < |fs| - 1 ==> Less(KeyText(fs[i].0), KeyText(fs[i + 1].0)) }

  lemma {:induction false} LessTotal(a: string, b: string)
    ensures a == b || Less(a, b) || Less(b, a)
  {
    if a != "" && b != "" {
      LessTotal(a[1..], b[1..]);
      assert a == [a[0]] + a[1..] && b == [b[0]] + b[1..];
    }
  }

  lemma {:induction false} PutAscends(fs: Fields, k: Key, v: string)
    requires Ascending(fs)
    ensures Ascending(Put(fs, k, v))
    ensures Put(fs, k, v) != [] && (Put(fs, k, v)[0].0 == k || (fs != [] && Put(fs, k, v)[0].0 == fs[0].0))
  {
    hide KeyText, Less;
    if fs != [] {
      var rest := Put(fs[1..], k, v);
      assert Ascending(fs[1..]);
      PutAscends(fs[1..], k, v);
      KeyOfKeyText(k);
      KeyOfKeyText(fs[0].0);
      LessTotal(KeyText(k), KeyText(fs[0].0));
    }
  }

  lemma PutNonEmptyAscends(fs: Fields, k: Key, v: string)
    requires Ascending(fs)
    ensures Ascending(PutNonEmpty(fs, k, v))
  {
    PutAscends(fs, k, v);
  }

  lemma EveryPutAscends()
    ensures forall fs, k, v :: Ascending(fs) ==> Ascending(Put(fs, k, v))
    ensures forall fs, k, v :: Ascending(fs) ==> Ascending(PutNonEmpty(fs, k, v))
  {
    forall fs, k, v | Ascending(fs) ensures Ascending(Put(fs, k, v)) {
      PutAscends(fs, k, v);
    }
    forall fs, k, v | Ascending(fs) ensures Ascending(PutNonEmpty(fs, k, v)) {
      PutNonEmptyAscends(fs, k, v);
    }
  }

  /** The parameters of every link are in the order of their names. */
  lemma LinksAscend(si: StreamInfo, flow: string, hy: Hysteria2Extras, tuic: TuicExtras)
    ensures Ascending(VlessFields(si, flow)) && Ascending(TrojanFields(si))
    ensures Ascending(Hysteria2Fields(si, hy)) && Ascending(TuicFields(si, tuic))
  {
    hide Put, PutNonEmpty;
    EveryPutAscends();
    assert Ascending([]);
    hide Ascending;
    SecurityAscends(VlessBase(si, flow), si);
    SecurityAscends(TrojanBase(si), si);
  }

  lemma SecurityAscends(p: Fields, si: StreamInfo)
    requires Ascending(p)
    ensures Ascending(AppendTransport(SecurityFields(p, si), si))
  {
    hide Put, PutNonEmpty, Ascending, NetOf, LayerOf;
    EveryPutAscends();
  }

  datatype LinkKind = VlessKind | TrojanKind | VmessKind | SsKind | Hysteria2Kind | TuicKind | OtherKind

  function SchemeText(kind: LinkKind): string {
    match kind
    case VlessKind => "vless"
    case TrojanKind => "trojan"
    case SsKind => "ss"
    case Hysteria2Kind => "hysteria2"
    case TuicKind => "tuic"
    case VmessKind => "vmess"
    case OtherKind => "other"
  }

  function PrintedLink(scheme: string, user: string, server: string, port: nat, fs: Fields, remark: string): string {
    Link(scheme, user, HostPort(server, port), EncodeQuery(Texts(fs)), Escape(PathSegment, remark))
  }

  /** The credential is printed as it is. */
  function VlessLink(uuid: string, server: string, port: nat, si: StreamInfo, flow: string, remark: string): string {
    PrintedLink(SchemeText(VlessKind), uuid, server, port, VlessFields(si, flow), remark)
  }

  function TrojanLink(uuid: string, server: string, port: nat, si: StreamInfo, remark: string): string {
    PrintedLink(SchemeText(TrojanKind), Escape(PathSegment, uuid), server, port, TrojanFields(si), remark)
  }

  function Hysteria2Link(uuid: string, server: string, port: nat, si: StreamInfo, ex: Hysteria2Extras, remark: string): string {
    PrintedLink(SchemeText(Hysteria2Kind), Escape(PathSegment, uuid), server, port, Hysteria2Fields(si, ex), remark)
  }

  function TuicLink(uuid: string, server: string, port: nat, si: StreamInfo, ex: TuicExtras, remark: string): string {
    PrintedLink(SchemeText(TuicKind), TwoNames(Escape(PathSegment, uuid)), server, port, TuicFields(si, ex), remark)
  }

  function TwoNames(text: string): string { text + ":" + text }

  /** Multi-user ciphers authenticate with both keys. */
  function SsClientPassword(method_: string, serverPsk: string, userPsk: string): string {
    if "2022-blake3" <= method_ && userPsk != "" then serverPsk + ":" + userPsk else serverPsk
  }

  function SsCredential(method_: string, psk: string): string { method_ + ":" + psk }

  /** The printer's default for settings without a method. */
  function LinkMethod(raw: string): string { if raw == "" then "aes-256-gcm" else raw }

  /** Without plugin; no link for an inbound without password. */
  function ShadowsocksLink(raw: string, password: string, uuid: string, server: string, port: nat, remark: string): string
    requires IsBytes(raw) && IsBytes(password) && IsBytes(uuid)
  {
    if password == "" then ""
    else
      var method_ := LinkMethod(raw);
      SsLink(SsCredential(method_, SsClientPassword(method_, password, uuid)), server, port, remark)
  }

  function SsLink(credential: string, server: string, port: nat, remark: string): string
    requires IsBytes(credential)
  {
    PrintedLink(SchemeText(SsKind), Encode(true, false, credential), server, port, [], remark)
  }

  /** The members of the JSON object of a vmess link that somebody reads; an
      absent member and an empty one read the same. */
  datatype Object = Object(
    server: string, port: string, uuid: string, network: string, header: string, host: string, path: string,
    security: string, sni: string, alpn: string, fingerprint: string,
    realityKey: string, realityShortId: string, realitySpider: string, allowInsecure: string)

  function VmessSecured(v: Object, si: StreamInfo): Object {
    match LayerOf(si.security)
    case TlsLayer =>
      v.(security := "tls", sni := si.sni, alpn := si.alpn, fingerprint := si.fingerprint,
         allowInsecure := if si.allowInsecure then "1" else "")
    case RealityLayer =>
      v.(security := "reality", sni := si.sni, fingerprint := si.fingerprint,
         realityKey := si.realityKey, realityShortId := si.realityShortId, realitySpider := si.realitySpider)
    case OtherLayer => v
  }

  function VmessCarried(v: Object, si: StreamInfo): Object {
    match NetOf(si.network)
    case WsNet => v.(path := si.wsPath, host := si.wsHost)
    case GrpcNet => v.(path := si.grpcService, header := "gun")
    case H2Net => v.(network := "h2", path := si.h2Path, host := si.h2Host)
    case UpgradeNet => v.(network := "httpupgrade", path := si.upgradePath, host := si.upgradeHost)
    case HttpNet => v
    case TcpNet => v
    case OtherNet => v
  }

  function VmessObject(uuid: string, server: string, port: nat, si: StreamInfo): Object {
    var base := Object(server, Itoa(port), uuid, si.network, "none", "", "", "", "", "", "", "", "", "", "");
    VmessCarried(VmessSecured(base, si), si)
  }

  /** The members of the JSON object, in the order in which they are written. */
  datatype VmessKey =
    | Add | Aid | Insecure_ | Alpn_ | Fp | Host_ | Id | NetKey | Path_ | Pbk
    | PortKey | Ps | Scy | Sid | Sni_ | Spx | TlsKey | TypeKey | Version

  const WRITTEN: seq<VmessKey> :=
    [Add, Aid, Insecure_, Alpn_, Fp, Host_, Id, NetKey, Path_, Pbk, PortKey, Ps, Scy, Sid, Sni_, Spx, TlsKey, TypeKey, Version]

  function VmessName(k: VmessKey): string {
    match k
    case Add => "add"
    case Aid => "aid"
    case Insecure_ => "allowInsecure"
    case Alpn_ => "alpn"
    case Fp => "fp"
    case Host_ => "host"
    case Id => "id"
    case NetKey => "net"
    case Path_ => "path"
    case Pbk => "pbk"
    case PortKey => "port"
    case Ps => "ps"
    case Scy => "scy"
    case Sid => "sid"
    case Sni_ => "sni"
    case Spx => "spx"
    case TlsKey => "tls"
    case TypeKey => "type"
    case Version => "v"
  }

  function VmessKeyOf(name: string): Option<VmessKey> {
    match name
    case "add" => Some(Add)
    case "aid" => Some(Aid)
    case "allowInsecure" => Some(Insecure_)
    case "alpn" => Some(Alpn_)
    case "fp" => Some(Fp)
    case "host" => Some(Host_)
    case "id" => Some(Id)
    case "net" => Some(NetKey)
    case "path" => Some(Path_)
    case "pbk" => Some(Pbk)
    case "port" => Some(PortKey)
    case "ps" => Some(Ps)
    case "scy" => Some(Scy)
    case "sid" => Some(Sid)
    case "sni" => Some(Sni_)
    case "spx" => Some(Spx)
    case "tls" => Some(TlsKey)
    case "type" => Some(TypeKey)
    case "v" => Some(Version)
    case _ => None
  }

  function VmessValue(v: Object, tag: string, k: VmessKey): string {
    match k
    case Add => v.server
    case Aid => "0"
    case Insecure_ => v.allowInsecure
    case Alpn_ => v.alpn
    case Fp => v.fingerprint
    case Host_ => v.host
    case Id => v.uuid
    case NetKey => v.network
    case Path_ => v.path
    case Pbk => v.realityKey
    case PortKey => v.port
    case Ps => tag
    case Scy => "auto"
    case Sid => v.realityShortId
    case Sni_ => v.sni
    case Spx => v.realitySpider
    case TlsKey => v.security
    case TypeKey => v.header
    case Version => "2"
  }

  /** These members are written only when they say something. */
  predicate IsOptional(k: VmessKey) { k in {Insecure_, Fp, Pbk, Sid, Spx} }

  function VmessMembers(v: Object, tag: string, keys: seq<VmessKey>): seq<Member> {
    if keys == [] then []
    else
      var rest := VmessMembers(v, tag, keys[1..]);
      if IsOptional(keys[0]) && VmessValue(v, tag, keys[0]) == "" then rest
      else [Member(VmessName(keys[0]), VmessValue(v, tag, keys[0]))] + rest
  }

  function VmessText(v: Object, tag: string): string { ObjectText(VmessMembers(v, tag, WRITTEN)) }

  function VmessLink(uuid: string, server: string, port: nat, si: StreamInfo, tag: string): string
    requires IsBytes(uuid) && IsBytes(server) && IsBytes(tag) && si.AreBytes()
  {
    VmessTextIsBytes(uuid, server, port, si, tag);
    "vmess://" + Encode(false, true, VmessText(VmessObject(uuid, server, port, si), tag))
  }

  lemma VmessTextIsBytes(uuid: string, server: string, port: nat, si: StreamInfo, tag: string)
    requires IsBytes(uuid) && IsBytes(server) && IsBytes(tag) && si.AreBytes()
    ensures IsBytes(VmessText(VmessObject(uuid, server, port, si), tag))
  {
    hide VmessObject, VmessMembers, ObjectText, VmessName, VmessValue;
    var v := VmessObject(uuid, server, port, si);
    ObjectHasBytes(uuid, server, port, si);
    forall k ensures IsBytes(VmessName(k)) && IsBytes(VmessValue(v, tag, k)) {
      KeyIsBytes(v, tag, k);
    }
    MembersBytes(v, tag, WRITTEN);
    ObjectIsBytes(VmessMembers(v, tag, WRITTEN));
  }

  predicate HasBytes(v: Object) {
    && IsBytes(v.server) && IsBytes(v.port) && IsBytes(v.uuid) && IsBytes(v.network) && IsBytes(v.header) && IsBytes(v.host) && IsBytes(v.path)
    && IsBytes(v.security) && IsBytes(v.sni) && IsBytes(v.alpn) && IsBytes(v.fingerprint)
    && IsBytes(v.realityKey) && IsBytes(v.realityShortId) && IsBytes(v.realitySpider) && IsBytes(v.allowInsecure)
  }

  lemma ObjectHasBytes(uuid: string, server: string, port: nat, si: StreamInfo)
    requires IsBytes(uuid) && IsBytes(server) && si.AreBytes()
    ensures HasBytes(VmessObject(uuid, server, port, si))
  {
    hide IsBytes, Itoa, VmessSecured, VmessCarried;
    var base := Object(server, Itoa(port), uuid, si.network, "none", "", "", "", "", "", "", "", "", "", "");
    BaseHasBytes(base);
    SecuredHasBytes(base, si);
    CarriedHasBytes(VmessSecured(base, si), si);
  }

  lemma BaseHasBytes(base: Object)
    requires IsBytes(base.server) && IsBytes(base.uuid) && IsBytes(base.network)
    requires exists port :: base == Object(base.server, Itoa(port), base.uuid, base.network, "none", "", "", "", "", "", "", "", "", "", "")
    ensures HasBytes(base)
  {
  }

  lemma SecuredHasBytes(v: Object, si: StreamInfo)
    requires HasBytes(v) && si.AreBytes()
    ensures HasBytes(VmessSecured(v, si))
  {
  }

  lemma CarriedHasBytes(v: Object, si: StreamInfo)
    requires HasBytes(v) && si.AreBytes()
    ensures HasBytes(VmessCarried(v, si))
  {
  }

  lemma KeyIsBytes(v: Object, tag: string, k: VmessKey)
    requires HasBytes(v) && IsBytes(tag)
    ensures IsBytes(VmessName(k)) && IsBytes(VmessValue(v, tag, k))
  {
  }

  lemma {:induction false} MembersBytes(v: Object, tag: string, keys: seq<VmessKey>)
    requires forall k :: IsBytes(VmessName(k)) && IsBytes(VmessValue(v, tag, k))
    ensures forall m <- VmessMembers(v, tag, keys) :: IsBytes(m.key) && IsBytes(m.value)
  {
    if keys != [] {
      MembersBytes(v, tag, keys[1..]);
    }
  }

  // ---------- Parsing ----------

  predicate Truthy(s: string) { s == "1" || (|s| == 4 && ToLower(s) == "true") }

  function TlsBlock(layer: Layer, sni: string, alpn: string, fp: string, pbk: string, sid: string, insecure: bool): Option<Tls> {
    match layer
    case OtherLayer => None
    case TlsLayer => Some(Tls(sni, insecure, SplitCsv(alpn), None, if fp == "" then None else Some(fp)))
    case RealityLayer =>
      Some(Tls(sni, insecure, SplitCsv(alpn), Some(Reality(pbk, sid)), Some(if fp == "" then "chrome" else fp)))
  }

  function TransportBlock(net: Net, path: string, host: string, serviceName: string): Option<Transport> {
    match net
    case WsNet => Some(Ws(path, host))
    case GrpcNet => Some(Grpc(serviceName))
    case H2Net => Some(Http(path, host))
    case HttpNet => Some(Http(path, host))
    case UpgradeNet => Some(HttpUpgrade(path, host))
    case TcpNet => None
    case OtherNet => None
  }

  function QueryOf(u: Url): Fields { Known(ParseQuery(u.query)) }

  function UrlPort(u: Url): Option<nat> { Atoi(SplitHostPort(u.host).1) }

  /** The query fields vless and trojan links are read from. */
  datatype LinkFields = LinkFields(
    security: string, sni: string, alpn: string, fp: string, pbk: string, sid: string,
    allowInsecure: string, insecure: string,
    network: string, path: string, host: string, serviceName: string, flow: string)

  function ReadFields(fs: Fields): LinkFields {
    LinkFields(
      Find(fs, Security), Find(fs, Sni), Find(fs, Alpn), Find(fs, Fingerprint), Find(fs, RealityKey), Find(fs, RealityShortId),
      Find(fs, AllowInsecure), Find(fs, Insecure),
      Find(fs, NetworkType), Find(fs, PathKey), Find(fs, HostKey), Find(fs, ServiceName), Find(fs, Flow))
  }

  function ReadTls(f: LinkFields): Option<Tls> {
    TlsBlock(LayerOf(f.security), f.sni, f.alpn, f.fp, f.pbk, f.sid, Truthy(f.allowInsecure) || Truthy(f.insecure))
  }

  function ReadTransport(f: LinkFields): Option<Transport> {
    TransportBlock(NetOf(f.network), f.path, f.host, f.serviceName)
  }

  function FromVlessOrTrojan(u: Url, vless: bool): Option<Outbound> {
    var f, server := ReadFields(QueryOf(u)), SplitHostPort(u.host).0;
    match UrlPort(u)
    case None => None
    case Some(port) =>
      if vless then Some(VlessOut(server, port, Username(u), f.flow, ReadTls(f), ReadTransport(f)))
      else Some(TrojanOut(server, port, Username(u), ReadTls(f), ReadTransport(f)))
  }

  /** Re-escaped user information, as the URL library prints it. */
  function UserText(u: Url): string {
    match u.user
    case NoUser => ""
    case Name(n) => Escape(UserInfo, n)
    case NamePassword(n, p) => Escape(UserInfo, n) + ":" + Escape(UserInfo, p)
  }

  function FromShadowsocks(u: Url): Option<Outbound> {
    if Find(QueryOf(u), Plugin) != "" then None
    else
      match UrlPort(u)
      case None => None
      case Some(port) =>
        var text := match Unescape(PathSegment, UserText(u)) case Some(t) => t case None => UserText(u);
        var plain := match DecodeAny(text) case Some(b) => (if ':' in b then b else text) case None => text;
        var (method_, password, found) := Cut(plain, ':');
        if found then Some(ShadowsocksOut(SplitHostPort(u.host).0, port, method_, password)) else None
  }

  function FromHysteria2(u: Url): Option<Outbound> {
    var q := QueryOf(u);
    match UrlPort(u)
    case None => None
    case Some(port) =>
      var tls := TlsBlock(TlsLayer, Find(q, Sni), Find(q, Alpn), "", "", "", Truthy(Find(q, Insecure)));
      var obfs := if Find(q, Obfs) != "" then Some((Find(q, Obfs), Find(q, ObfsPassword))) else None;
      Some(Hysteria2Out(SplitHostPort(u.host).0, port, Username(u), tls, obfs))
  }

  function FromTuic(u: Url): Option<Outbound> {
    var q := QueryOf(u);
    match UrlPort(u)
    case None => None
    case Some(port) =>
      var alpn := if Find(q, Alpn) == "" then "h3" else Find(q, Alpn);
      var insecure := Truthy(Find(q, TuicInsecure)) || Truthy(Find(q, Insecure));
      Some(TuicOut(SplitHostPort(u.host).0, port, Username(u), Password(u),
                   TlsBlock(TlsLayer, Find(q, Sni), alpn, "", "", "", insecure),
                   Find(q, Congestion), Find(q, UdpRelay), Truthy(Find(q, ZeroRtt))))
  }

  function ObjectTls(v: Object): Option<Tls> {
    TlsBlock(LayerOf(v.security), v.sni, v.alpn, v.fingerprint, v.realityKey, v.realityShortId, Truthy(v.allowInsecure))
  }

  function ObjectTransport(v: Object): Option<Transport> {
    TransportBlock(NetOf(v.network), v.path, v.host, v.path)
  }

  function FromVmessObject(v: Object): Option<Outbound> {
    match Atoi(v.port)
    case None => None
    case Some(port) => Some(VmessOut(v.server, port, v.uuid, ObjectTls(v), ObjectTransport(v)))
  }

  /** A member of a parsed object; the last one of a name counts. */
  function Lookup(ms: seq<Member>, name: string): string {
    if ms == [] then ""
    else
      var n := |ms| - 1;
      if ms[n].key == name then ms[n].value else Lookup(ms[..n], name)
  }

  function ObjectOf(ms: seq<Member>): Object {
    Object(Lookup(ms, "add"), Lookup(ms, "port"), Lookup(ms, "id"), Lookup(ms, "net"), Lookup(ms, "type"), Lookup(ms, "host"), Lookup(ms, "path"),
           Lookup(ms, "tls"), Lookup(ms, "sni"), Lookup(ms, "alpn"), Lookup(ms, "fp"),
           Lookup(ms, "pbk"), Lookup(ms, "sid"), Lookup(ms, "spx"), Lookup(ms, "allowInsecure"))
  }

  /** `json` reads objects of strings as they are; of other texts nothing is said. */
  ghost predicate ReadsStrings(json: string -> Option<Object>) {
    forall t :: ReadObject(t).Some? ==> json(t) == Some(ObjectOf(ReadObject(t).value))
  }

  /** The scheme before "://", if there is one. */
  function SchemeOf(link: string): Option<string> {
    if link == "" then None
    else if "://" <= link then Some("")
    else
      match SchemeOf(link[1..])
      case None => None
      case Some(s) => Some([link[0]] + s)
  }

  function TrimPrefix(s: string, prefix: string): string {
    if prefix <= s then s[|prefix|..] else s
  }

  function KindOfScheme(scheme: string): LinkKind {
    match scheme
    case "vless" => VlessKind
    case "trojan" => TrojanKind
    case "vmess" => VmessKind
    case "ss" => SsKind
    case "hysteria2" => Hysteria2Kind
    case "hy2" => Hysteria2Kind
    case "tuic" => TuicKind
    case _ => OtherKind
  }

  function KindOf(link: string): LinkKind {
    match SchemeOf(link)
    case None => OtherKind
    case Some(text) => KindOfScheme(ToLower(text))
  }

  /** The reader of each kind of link but vmess. */
  function Reader(kind: LinkKind): Url -> Option<Outbound> {
    match kind
    case VlessKind => u => FromVlessOrTrojan(u, true)
    case TrojanKind => u => FromVlessOrTrojan(u, false)
    case SsKind => u => FromShadowsocks(u)
    case Hysteria2Kind => u => FromHysteria2(u)
    case TuicKind => u => FromTuic(u)
    case VmessKind => u => None
    case OtherKind => u => None
  }

  function FromVmess(link: string, json: string -> Option<Object>): Option<Outbound> {
    match DecodeAny(TrimPrefix(link, "vmess://"))
    case None => None
    case Some(raw) =>
      match json(raw)
      case None => None
      case Some(v) => FromVmessObject(v)
  }

  /** The self-test reads a link as a client outbound.  `v6` recognises IPv6
      literals; `json` reads the members of a JSON object. */
  function FromLink(link: string, v6: string -> bool, json: string -> Option<Object>): Option<Outbound> {
    if KindOf(link) == VmessKind then FromVmess(link, json)
    else
      match Parse(link, v6)
      case None => None
      case Some(u) => Reader(KindOf(link))(u)
  }
}
