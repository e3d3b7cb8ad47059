/**
 What the generated sing-box and Xray server configurations install for the
 clients of an inbound, and whether they accept the client a printed share link
 describes.
 */
module ServerCredentials {
  import opened Wrappers
  import opened GoText
  import opened Percent
  import opened LinkUrl
  import opened JsonText
  import opened ShareLinks
  import opened ShareLinkRoundTrips

  /** A field that is not installed is empty. */
  datatype ServerUser = ServerUser(uuid: string, password: string, flow: string)

  datatype Server = Server(kind: LinkKind, users: seq<ServerUser>, method_: string, password: string, obfs: Option<(string, string)>)

  /** The settings of the inbound that decide who is let in; `method_` is empty
      when the settings name none. */
  datatype Settings = Settings(kind: LinkKind, flow: string, method_: string, password: string, extras: Hysteria2Extras)

  predicate MultiUserCipher(method_: string) { "2022-blake3" <= method_ }

  function UserFor(s: Settings, uuid: string): ServerUser {
    match s.kind
    case VlessKind => ServerUser(uuid, "", s.flow)
    case VmessKind => ServerUser(uuid, "", "")
    case TuicKind => ServerUser(uuid, uuid, "")
    case _ => ServerUser("", uuid, "")
  }

  /** The server as a function of the settings. */
  function Installed(s: Settings, uuids: seq<string>): Server {
    var users := seq(|uuids|, i requires 0 <= i < |uuids| => UserFor(s, uuids[i]));
    match s.kind
    case SsKind => Server(SsKind, if MultiUserCipher(s.method_) then users else [], s.method_, s.password, None)
    case Hysteria2Kind => Server(Hysteria2Kind, users, "", "", ServerObfs(s.extras))
    case _ => Server(s.kind, users, "", "", None)
  }

  /** buildSingboxInbound, the part that installs credentials. */
  method BuildInbound(s: Settings, uuids: seq<string>) returns (server: Server)
    ensures server == Installed(s, uuids)
  {
    var users := [];
    if s.kind != SsKind || MultiUserCipher(s.method_) {
      for i := 0 to |uuids|
        invariant |users| == i && forall j :: 0 <= j < i ==> users[j] == UserFor(s, uuids[j])
      {
        users := users + [UserFor(s, uuids[i])];
      }
    }
    server := Server(s.kind, users, "", "", None);
    if s.kind == SsKind {
      server := server.(method_ := s.method_, password := s.password);
    } else if s.kind == Hysteria2Kind {
      server := server.(obfs := ServerObfs(s.extras));
    }
  }

  /** The kinds of inbound that run on Xray. */
  predicate OnXray(kind: LinkKind) { kind in {VlessKind, VmessKind, TrojanKind, SsKind} }

  /** The Xray server.  `template` are the clients the settings themselves hold:
      they stay when there is no client row, and with a classic cipher always. */
  function XrayInstalled(s: Settings, uuids: seq<string>, template: seq<ServerUser>): Server
    requires OnXray(s.kind)
  {
    var users := seq(|uuids|, i requires 0 <= i < |uuids| => UserFor(s, uuids[i]));
    Server(s.kind, if uuids == [] || (s.kind == SsKind && !MultiUserCipher(s.method_)) then template else users,
           if s.kind == SsKind then s.method_ else "", if s.kind == SsKind then s.password else "", None)
  }

  /** buildXrayInbound, the part that installs credentials. */
  method BuildXrayInbound(s: Settings, uuids: seq<string>, template: seq<ServerUser>) returns (server: Server)
    requires OnXray(s.kind)
    ensures server == XrayInstalled(s, uuids, template)
  {
    server := Server(s.kind, template, "", "", None);
    if s.kind == SsKind {
      server := server.(method_ := s.method_, password := s.password);
    }
    if |uuids| > 0 && (s.kind != SsKind || MultiUserCipher(s.method_)) {
      var users := [];
      for i := 0 to |uuids|
        invariant |users| == i && forall j :: 0 <= j < i ==> users[j] == UserFor(s, uuids[j])
      {
        users := users + [UserFor(s, uuids[i])];
      }
      server := server.(users := users);
    }
  }

  /** Both generators install the same for the clients of an inbound, as long as
      the settings do not bring clients of their own to a classic cipher. */
  lemma EnginesInstallTheSame(s: Settings, uuids: seq<string>, template: seq<ServerUser>)
    requires OnXray(s.kind) && uuids != []
    ensures s.kind != SsKind || MultiUserCipher(s.method_) || template == [] ==> XrayInstalled(s, uuids, template) == Installed(s, uuids)
  {
  }

  /** The credential, and the obfuscation where there is one, match a user. */
  predicate Accepts(server: Server, o: Outbound) {
    match o
    case VlessOut(_, _, uuid, flow, _, _) => server.kind == VlessKind && ServerUser(uuid, "", flow) in server.users
    case VmessOut(_, _, uuid, _, _) => server.kind == VmessKind && ServerUser(uuid, "", "") in server.users
    case TrojanOut(_, _, password, _, _) => server.kind == TrojanKind && ServerUser("", password, "") in server.users
    case TuicOut(_, _, uuid, password, _, _, _, _) => server.kind == TuicKind && ServerUser(uuid, password, "") in server.users
    case Hysteria2Out(_, _, password, _, obfs) =>
      server.kind == Hysteria2Kind && ServerUser("", password, "") in server.users && obfs == server.obfs
    case ShadowsocksOut(_, _, method_, password) =>
      && server.kind == SsKind && method_ == server.method_
      && if server.users == [] then password == server.password
         else exists u <- server.users :: password == server.password + ":" + u.password
  }

  lemma InstalledUser(s: Settings, uuids: seq<string>, uuid: string)
    requires uuid in uuids && (s.kind == SsKind ==> MultiUserCipher(s.method_))
    ensures UserFor(s, uuid) in Installed(s, uuids).users
    ensures forall u <- Installed(s, uuids).users :: exists x <- uuids :: u == UserFor(s, x)
  {
    var i :| 0 <= i < |uuids| && uuids[i] == uuid;
    assert Installed(s, uuids).users[i] == UserFor(s, uuid);
    forall j | 0 <= j < |Installed(s, uuids).users|
      ensures exists x <- uuids :: Installed(s, uuids).users[j] == UserFor(s, x)
    {
      assert uuids[j] in uuids;
    }
  }

  /** A client with the credential of its protocol is let in. */
  lemma PlainClient(s: Settings, uuids: seq<string>, uuid: string, o: Outbound)
    requires uuid in uuids
    requires match o
             case VlessOut(_, _, u, flow, _, _) => s.kind == VlessKind && u == uuid && flow == s.flow
             case TuicOut(_, _, u, password, _, _, _, _) => s.kind == TuicKind && u == password == uuid
             case _ => false
    ensures Accepts(Installed(s, uuids), o)
  {
    InstalledUser(s, uuids, uuid);
  }

  /** The client of a vless link is let in when its raw credential survives. */
  lemma VlessAccepted(s: Settings, uuids: seq<string>, uuid: string, server: string, port: nat, si: StreamInfo, remark: string,
                      v6: string -> bool, json: string -> Option<Object>, template: seq<ServerUser>) returns (o: Outbound)
    requires s.kind == VlessKind && uuid in uuids
    requires Addressed(server, remark, v6) && si.AreBytes() && IsBytes(s.flow) && PlainUser(uuid)
    ensures FromLink(VlessLink(uuid, server, port, si, s.flow, remark), v6, json) == Some(o)
    ensures Accepts(Installed(s, uuids), o) && Accepts(XrayInstalled(s, uuids, template), o)
  {
    EnginesInstallTheSame(s, uuids, template);
    VlessRoundTrip(uuid, server, port, si, s.flow, remark, v6, json);
    o := VlessMeant(uuid, server, port, si, s.flow);
    PlainClient(s, uuids, uuid, o);
  }

  /** The client of a vmess link is let in if and only if its credential, as it is
      after having been JSON, is installed: always for UTF-8 credentials. */
  lemma VmessAccepted(s: Settings, uuids: seq<string>, uuid: string, server: string, port: nat, si: StreamInfo, tag: string,
                      v6: string -> bool, json: string -> Option<Object>, template: seq<ServerUser>) returns (o: Outbound)
    requires s.kind == VmessKind && uuid in uuids
    requires IsBytes(uuid) && IsBytes(server) && IsBytes(tag) && si.AreBytes() && ReadsStrings(json)
    ensures FromLink(VmessLink(uuid, server, port, si, tag), v6, json) == Some(o)
    ensures Accepts(Installed(s, uuids), o) <==> Coerced(uuid) in uuids
    ensures Accepts(XrayInstalled(s, uuids, template), o) <==> Coerced(uuid) in uuids
    ensures IsUtf8(uuid) ==> Coerced(uuid) in uuids
  {
    EnginesInstallTheSame(s, uuids, template);
    VmessRoundTrip(uuid, server, port, si, tag, v6, json);
    o := VmessMeant(uuid, server, port, si);
    CoercedIff(uuid);
    VmessClient(s, uuids, o);
  }

  lemma VmessClient(s: Settings, uuids: seq<string>, o: Outbound)
    requires s.kind == VmessKind && o.VmessOut?
    ensures Accepts(Installed(s, uuids), o) <==> o.uuid in uuids
  {
    if o.uuid in uuids {
      InstalledUser(s, uuids, o.uuid);
    }
  }

  /** The client of a trojan link is let in if and only if its credential, up to
      the first colon, is installed: always for credentials without colon. */
  lemma TrojanAcceptedIff(s: Settings, uuids: seq<string>, uuid: string, server: string, port: nat, si: StreamInfo, remark: string,
                          v6: string -> bool, json: string -> Option<Object>, template: seq<ServerUser>) returns (o: Outbound)
    requires s.kind == TrojanKind && uuid in uuids
    requires Addressed(server, remark, v6) && si.AreBytes() && IsBytes(uuid)
    ensures FromLink(TrojanLink(uuid, server, port, si, remark), v6, json) == Some(o)
    ensures Accepts(Installed(s, uuids), o) <==> Cut(uuid, ':').0 in uuids
    ensures Accepts(XrayInstalled(s, uuids, template), o) <==> Cut(uuid, ':').0 in uuids
    ensures ':' !in uuid ==> Cut(uuid, ':').0 in uuids
  {
    EnginesInstallTheSame(s, uuids, template);
    TrojanRoundTrip(uuid, server, port, si, remark, v6, json);
    o := TrojanOut(TrimBrackets(server), port, Cut(uuid, ':').0, TlsOf(si), CarriedTransport(si));
    TrojanClient(s, uuids, o);
  }

  lemma TrojanClient(s: Settings, uuids: seq<string>, o: Outbound)
    requires s.kind == TrojanKind && o.TrojanOut?
    ensures Accepts(Installed(s, uuids), o) <==> o.password in uuids
  {
    if o.password in uuids {
      InstalledUser(s, uuids, o.password);
    }
  }

  /** The client of a tuic link is let in. */
  lemma TuicAccepted(s: Settings, uuids: seq<string>, uuid: string, server: string, port: nat, si: StreamInfo, ex: TuicExtras, remark: string,
                     v6: string -> bool, json: string -> Option<Object>) returns (o: Outbound)
    requires s.kind == TuicKind && uuid in uuids
    requires Addressed(server, remark, v6) && si.AreBytes() && IsBytes(ex.congestion) && IsBytes(ex.udpRelay)
    requires IsBytes(uuid) && ':' !in uuid
    ensures FromLink(TuicLink(uuid, server, port, si, ex, remark), v6, json) == Some(o) && Accepts(Installed(s, uuids), o)
  {
    var u := TuicRoundTrip(uuid, server, port, si, ex, remark, v6, json);
    o := TuicMeant(u, server, port, si, ex);
    PlainClient(s, uuids, uuid, o);
  }

  /** A hysteria2 client is let in unless the settings hold an obfuscation
      password without a type: the server obfuscates, the link does not say so. */
  lemma Hysteria2AcceptedIff(s: Settings, uuids: seq<string>, uuid: string, server: string, port: nat, si: StreamInfo, remark: string,
                             v6: string -> bool, json: string -> Option<Object>) returns (o: Outbound)
    requires s.kind == Hysteria2Kind && uuid in uuids
    requires Addressed(server, remark, v6) && si.AreBytes() && ExtrasAreBytes(s.extras) && IsBytes(uuid) && ':' !in uuid
    ensures FromLink(Hysteria2Link(uuid, server, port, si, s.extras, remark), v6, json) == Some(o)
    ensures Accepts(Installed(s, uuids), o) <==> !(s.extras.obfsType == "" && s.extras.obfsPassword != "")
  {
    Hysteria2RoundTrip(uuid, server, port, si, s.extras, remark, v6, json);
    o := Hysteria2Meant(uuid, server, port, si, s.extras);
    Hysteria2Client(s, uuids, uuid, server, port, si, o);
  }

  lemma Hysteria2Client(s: Settings, uuids: seq<string>, uuid: string, server: string, port: nat, si: StreamInfo, o: Outbound)
    requires s.kind == Hysteria2Kind && uuid in uuids && ':' !in uuid && o == Hysteria2Meant(uuid, server, port, si, s.extras)
    ensures Accepts(Installed(s, uuids), o) <==> !(s.extras.obfsType == "" && s.extras.obfsPassword != "")
  {
    InstalledUser(s, uuids, uuid);
  }

  /** A shadowsocks inbound gives its client a link that the server accepts if
      and only if it has a password and names a method without colon, and a
      multi-user cipher does not meet a client without a key.  Settings without a
      method get a link for the printer's default and a server for none. */
  lemma ShadowsocksAcceptedIff(s: Settings, uuids: seq<string>, uuid: string, server: string, port: nat, remark: string,
                               v6: string -> bool, json: string -> Option<Object>)
    requires s.kind == SsKind && uuid in uuids
    requires Addressed(server, remark, v6) && IsBytes(s.method_) && IsBytes(s.password) && IsBytes(uuid)
    ensures XrayInstalled(s, uuids, []) == Installed(s, uuids)
    ensures var o := FromLink(ShadowsocksLink(s.method_, s.password, uuid, server, port, remark), v6, json);
            o.Some? && Accepts(Installed(s, uuids), o.value)
            <==> s.password != "" && s.method_ != "" && ':' !in s.method_ && !(MultiUserCipher(s.method_) && uuid == "")
  {
    EnginesInstallTheSame(s, uuids, []);
    if s.password == "" {
      NoLinkIsRejected(v6, json);
    } else {
      var m, p := ShadowsocksRoundTrip(s.method_, s.password, uuid, server, port, remark, v6, json);
      PrintedShadowsocks(s, uuids, uuid, ShadowsocksOut(TrimBrackets(server), port, m, p));
    }
  }

  lemma PrintedShadowsocks(s: Settings, uuids: seq<string>, uuid: string, o: Outbound)
    requires s.kind == SsKind && uuid in uuids && o.ShadowsocksOut? && o.method_ == Cut(LinkMethod(s.method_), ':').0
    requires (o.method_, o.password) == (LinkMethod(s.method_), SsClientPassword(LinkMethod(s.method_), s.password, uuid))
             <==> ':' !in s.method_
    ensures Accepts(Installed(s, uuids), o) <==> s.method_ != "" && ':' !in s.method_ && !(MultiUserCipher(s.method_) && uuid == "")
  {
    hide Accepts, Installed, SsClientPassword, MultiUserCipher;
    if s.method_ != "" && ':' !in s.method_ {
      ShadowsocksClient(s, uuids, uuid, o);
    } else {
      OtherMethod(s, o.method_);
      MethodsDiffer(s, uuids, o);
    }
  }

  lemma MethodsDiffer(s: Settings, uuids: seq<string>, o: Outbound)
    requires s.kind == SsKind && o.ShadowsocksOut? && o.method_ != s.method_
    ensures !Accepts(Installed(s, uuids), o)
  {
  }

  /** A link for another method than the server's. */
  lemma OtherMethod(s: Settings, m: string)
    requires s.method_ == "" || ':' in s.method_
    requires m == Cut(LinkMethod(s.method_), ':').0
    ensures m != s.method_
  {
    CutDiffers(LinkMethod(s.method_));
    if s.method_ == "" {
      DefaultMethod("");
    }
  }

  lemma CutDiffers(text: string)
    ensures Cut(text, ':').0 == text <==> ':' !in text
  {
  }

  lemma ShadowsocksClient(s: Settings, uuids: seq<string>, uuid: string, o: Outbound)
    requires s.kind == SsKind && uuid in uuids
    requires o.ShadowsocksOut? && (o.method_, o.password) == (s.method_, SsClientPassword(s.method_, s.password, uuid))
    ensures Accepts(Installed(s, uuids), o) <==> !(MultiUserCipher(s.method_) && uuid == "")
  {
    if MultiUserCipher(s.method_) {
      InstalledUser(s, uuids, uuid);
      MultiUserKey(s, uuids, uuid);
    }
  }

  lemma MultiUserKey(s: Settings, uuids: seq<string>, uuid: string)
    requires s.kind == SsKind && MultiUserCipher(s.method_) && uuid in uuids
    ensures (exists u <- Installed(s, uuids).users :: SsClientPassword(s.method_, s.password, uuid) == s.password + ":" + u.password)
            <==> uuid != ""
  {
    InstalledUser(s, uuids, uuid);
    if uuid == "" {
      forall u | u in Installed(s, uuids).users ensures SsClientPassword(s.method_, s.password, uuid) != s.password + ":" + u.password {
        assert |s.password + ":" + u.password| > |s.password|;
      }
    } else {
      assert SsClientPassword(s.method_, s.password, uuid) == s.password + ":" + UserFor(s, uuid).password;
    }
  }
}
