/**
 Which engine serves an inbound of which kind: the runtime coordinator decides by
 the protocol column, the generators and the share links by the kind of inbound.
 */
module EngineChoice {
  import opened Wrappers
  import opened GoText
  import opened ProxyEngine
  import opened RuntimeTransition
  import opened ShareLinks
  import opened ServerCredentials
  import Import = ClientImport

  /** The protocol column of an inbound of this kind. */
  function ProtocolName(kind: LinkKind): Option<string> {
    match kind
    case VlessKind => Some("vless")
    case VmessKind => Some("vmess")
    case TrojanKind => Some("trojan")
    case SsKind => Some("shadowsocks")
    case Hysteria2Kind => Some("hysteria2")
    case TuicKind => Some("tuic")
    case OtherKind => None
  }

  /** The protocol column is the scheme of the links, except that shadowsocks links
      have a shorter one. */
  lemma ProtocolIsScheme(kind: LinkKind)
    requires ProtocolName(kind).Some?
    ensures ProtocolName(kind).value == if kind == SsKind then "shadowsocks" else SchemeText(kind)
    ensures kind == SsKind || KindOfScheme(ProtocolName(kind).value) == kind
  {
  }

  /** The coordinator sends to Xray exactly the kinds that the Xray generator can
      build. */
  lemma SupportedIffOnXray(kind: LinkKind)
    requires ProtocolName(kind).Some?
    ensures IsXraySupported(ProtocolName(kind).value) <==> OnXray(kind)
  {
  }

  /** An import takes the password of a client for its credential exactly where the
      server knows its clients by a password alone. */
  lemma PasswordIffNoUuid(s: Settings, uuid: string)
    requires ProtocolName(s.kind).Some? && uuid != ""
    ensures Import.UsesPassword(ProtocolName(s.kind).value) <==> UserFor(s, uuid).uuid == ""
    ensures UserFor(s, uuid).uuid == "" ==> UserFor(s, uuid).password == uuid
  {
    hide TrimSpace, ToLower, IsLower, IsDigit;
    var name := ProtocolName(s.kind).value;
    NamesAreLower(s.kind);
    LowerStays(name);
  }

  predicate LowerName(name: string) { name != "" && forall i :: 0 <= i < |name| ==> IsLower(name[i]) || IsDigit(name[i]) }

  lemma NamesAreLower(kind: LinkKind)
    requires ProtocolName(kind).Some?
    ensures LowerName(ProtocolName(kind).value)
  {
  }

  lemma LowerStays(name: string)
    requires LowerName(name)
    ensures ToLower(TrimSpace(name)) == name
  {
    assert TrimSpace(name) == name;
  }

  /** An inbound of a kind, after an applied transition of engines that were not
      stale: with Xray alone it is served if Xray can; in auto mode by Xray if it
      can and by sing-box if not; with sing-box alone always by that one; never by
      both, and in each case if its generator got it. */
  lemma AppliedByKind(kind: LinkKind, mode: Mode, enabled: seq<Inbound>, force: bool, xrayGot: Database, xrayWas: EngineState, xray: EngineState,
                      singboxGot: Database, singboxWas: EngineState, singbox: EngineState, in_: Inbound)
    requires in_ in enabled && ProtocolName(kind) == Some(in_.protocol)
    requires Outcome(Xray, mode, enabled, xrayGot, force, xrayWas, xray)
    requires Outcome(Singbox, mode, enabled, singboxGot, force, singboxWas, singbox)
    requires !Stale(xrayWas, Xray, Wants(mode, enabled, Xray), mode == Auto, xrayGot, force)
    requires !Stale(singboxWas, Singbox, Wants(mode, enabled, Singbox), mode == Auto, singboxGot, force)
    ensures mode == XrayOnly ==> (Serves(xray, in_) <==> kind in {VlessKind, VmessKind, TrojanKind, SsKind} && in_ in xrayGot.enabled)
    ensures mode == XrayOnly ==> !Serves(singbox, in_)
    ensures mode == Auto ==> (Serves(xray, in_) <==> kind in {VlessKind, VmessKind, TrojanKind, SsKind} && in_ in xrayGot.enabled)
    ensures mode == Auto ==> (Serves(singbox, in_) <==> kind in {Hysteria2Kind, TuicKind} && in_ in singboxGot.enabled)
    ensures mode == SingboxOnly ==> (Serves(singbox, in_) <==> in_ in singboxGot.enabled) && !Serves(xray, in_)
  {
    SupportedIffOnXray(kind);
  }
}
