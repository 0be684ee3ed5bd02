/** internal/a2a/validate.go: which agent cards may be served. */
module Validation {

  import opened Text

  datatype Interface = Interface(url: string, protocolBinding: string, protocolVersion: string)

  datatype CardView = CardView(url: string, supportedInterfaces: seq<Interface>)

  datatype URL = URL(scheme: string, host: string, hostname: string, path: string)

  /** json.Unmarshal of a card, url.Parse, strings.ToLower and strings.EqualFold. */
  datatype Codec = Codec(
    parseCard: Bytes -> Option<CardView>,
    parseURL: string -> Option<URL>,
    toLower: string -> string,
    equalFold: (string, string) -> bool)

  datatype Reason = NotJSON | NoInterface | BadURL | BadScheme | OffPath | OffHost | BadBinding | BadVersion

  const A2A := "/a2a/"

  /** strings.TrimRight with one cutset character. */
  function TrimRight(s: string, c: char): (r: string)
    ensures r <= s
    ensures r == "" || r[|r| - 1] != c
    ensures forall i :: |r| <= i < |s| ==> s[i] == c
  {
    if s != "" && s[|s| - 1] == c then TrimRight(s[..|s| - 1], c) else s
  }

  function HostOnly(codec: Codec, h: string): string {
    if h == "" then "" else
    var u := codec.parseURL("//" + h);
    if u.Some? && u.value.hostname != "" then u.value.hostname else h
  }

  function InterfaceReason(codec: Codec, i: Interface, wantPath: string, wantHost: string): Option<Reason> {
    var u := codec.parseURL(i.url);
    if u.None? || u.value.host == "" then Some(BadURL)
    else if codec.toLower(u.value.scheme) != "http" && codec.toLower(u.value.scheme) != "https" then Some(BadScheme)
    else if TrimRight(u.value.path, '/') != wantPath then Some(OffPath)
    else if wantHost != "" && u.value.hostname != wantHost then Some(OffHost)
    else if i.protocolBinding != "" && !codec.equalFold(i.protocolBinding, "JSONRPC") then Some(BadBinding)
    else if i.protocolVersion != "" && i.protocolVersion != "1" && !("1." <= i.protocolVersion) then Some(BadVersion)
    else None
  }

  /** The interfaces a client would choose from: v1 ones, or the v0.3 top-level url. */
  function Interfaces(card: CardView): seq<Interface> {
    if card.supportedInterfaces == [] && card.url != "" then [Interface(card.url, "", "")] else card.supportedInterfaces
  }

  /** The card is valid JSON, advertises an interface, and advertises nothing that leads a client
      off the gateway path, off the gateway host, off JSON-RPC or off protocol v1. */
  predicate Conforms(codec: Codec, raw: Bytes, externalHost: string, wantPath: string) {
    match codec.parseCard(raw)
    case None => false
    case Some(CardView(url, ifaces)) =>
      && (ifaces == [] ==> url != "" && Fronted(codec, Interface(url, "", ""), wantPath, externalHost))
      && forall i :: i in ifaces ==> Fronted(codec, i, wantPath, externalHost)
  }

  /** The host name is the gateway's: any when it has none, and otherwise that of its host without a
      port, or the host itself when that does not parse to one. */
  predicate OnHost(codec: Codec, hostname: string, externalHost: string) {
    externalHost == "" ||
    match codec.parseURL("//" + externalHost)
    case Some(u) => hostname == if u.hostname == "" then externalHost else u.hostname
    case None => hostname == externalHost
  }

  predicate Fronted(codec: Codec, i: Interface, wantPath: string, externalHost: string) {
    var u := codec.parseURL(i.url);
    && u.Some? && u.value.host != ""
    && codec.toLower(u.value.scheme) in {"http", "https"}
    && TrimRight(u.value.path, '/') == wantPath
    && OnHost(codec, u.value.hostname, externalHost)
    && (i.protocolBinding == "" || codec.equalFold(i.protocolBinding, "JSONRPC"))
    && (i.protocolVersion in {"", "1"} || "1." <= i.protocolVersion)
  }

  lemma FrontedMeans(codec: Codec, i: Interface, wantPath: string, externalHost: string)
    ensures InterfaceReason(codec, i, wantPath, HostOnly(codec, externalHost)).None? <==> Fronted(codec, i, wantPath, externalHost)
  {
  }

  /** The verdict of validateCard: none exactly for the conforming cards. */
  function CardReason(codec: Codec, raw: Bytes, externalHost: string, wantPath: string): (r: Option<Reason>)
    ensures r.None? <==> Conforms(codec, raw, externalHost, wantPath)
  {
    var card := codec.parseCard(raw);
    if card.None? then Some(NotJSON)
    else if Interfaces(card.value) == [] then Some(NoInterface)
    else
      FirstReasonMeans(codec, Interfaces(card.value), wantPath, externalHost);
      FirstReason(codec, Interfaces(card.value), wantPath, HostOnly(codec, externalHost))
  }

  lemma {:induction false} FirstReasonMeans(codec: Codec, ifaces: seq<Interface>, wantPath: string, externalHost: string)
    ensures FirstReason(codec, ifaces, wantPath, HostOnly(codec, externalHost)).None?
       <==> forall i :: i in ifaces ==> Fronted(codec, i, wantPath, externalHost)
    decreases |ifaces|
  {
    if ifaces != [] {
      FrontedMeans(codec, ifaces[0], wantPath, externalHost);
      assert forall i :: i in ifaces <==> i == ifaces[0] || i in ifaces[1..];
      FirstReasonMeans(codec, ifaces[1..], wantPath, externalHost);
    }
  }

  function FirstReason(codec: Codec, ifaces: seq<Interface>, wantPath: string, wantHost: string): Option<Reason> {
    if ifaces == [] then None
    else
      var r := InterfaceReason(codec, ifaces[0], wantPath, wantHost);
      if r.Some? then r else FirstReason(codec, ifaces[1..], wantPath, wantHost)
  }

  method ValidateCard(codec: Codec, raw: Bytes, externalHost: string, namespace: string, prefix: string)
    returns (reason: Option<Reason>)
    ensures reason == CardReason(codec, raw, externalHost, A2A + namespace + "/" + prefix)
  {
    var card := codec.parseCard(raw);
    if card.None? {
      return Some(NotJSON);
    }
    var ifaces := card.value.supportedInterfaces;
    if |ifaces| == 0 && card.value.url != "" {
      ifaces := [Interface(card.value.url, "", "")];
    }
    if |ifaces| == 0 {
      return Some(NoInterface);
    }
    var wantPath := A2A + namespace + "/" + prefix;
    var wantHost := HostOnly(codec, externalHost);
    reason := ValidateInterfaces(codec, ifaces, wantPath, wantHost);
  }

  method ValidateInterfaces(codec: Codec, ifaces: seq<Interface>, wantPath: string, wantHost: string)
    returns (reason: Option<Reason>)
    ensures reason == FirstReason(codec, ifaces, wantPath, wantHost)
  {
    for k := 0 to |ifaces|
      invariant FirstReason(codec, ifaces, wantPath, wantHost) == FirstReason(codec, ifaces[k..], wantPath, wantHost)
    {
      var r := InterfaceReason(codec, ifaces[k], wantPath, wantHost);
      if r.Some? {
        return r;
      }
      assert ifaces[k..][1..] == ifaces[k + 1..];
    }
    return None;
  }
}
