/** The configuration of one forwarding rule, internal/proxy/spec.go: defaults, validation
    and the conflict of two listeners. */
module Specs {
  import opened Streams

  /** A parsed address; IPv4 addresses mapped into IPv6 are V4. */
  datatype IP = V4(bits: nat) | V6(bits: nat)
  {
    predicate IsUnspecified() { bits == 0 }
    predicate IsLoopback() { match this case V4(b) => b / 0x1000000 == 127 case V6(b) => b == 1 }
  }

  /** A host as written, together with what net.ParseIP makes of it. */
  datatype Host = Host(text: string, ip: Option<IP>)

  const ANY_HOST := Host("0.0.0.0", Some(V4(0)))

  datatype Endpoint = Endpoint(host: Host, port: int)
  {
    predicate IsZero() { host.text == "" || port == 0 }
  }

  /** `wellFormed` is what the checks of the HTTP method, path and headers and of the hex and
      regular expression texts make of the specification. */
  datatype HealthSpec = HealthSpec(
    enabled: bool, intervalSec: int, timeoutMS: int, failAfter: int, riseAfter: int,
    autoFail: bool, autoBack: bool, mode: string, request: string, requestMode: string,
    expected: string, expectMode: string, httpMethod: string, httpPath: string, httpStatus: int,
    wellFormed: bool)

  datatype DumpSpec = DumpSpec(enabled: bool, maxConns: int, maxBytesPer: int)

  /** One line of the allow list; blank lines are skipped. */
  datatype AclEntry = Blank | Network(net: nat) | Malformed

  datatype RuleSpec = RuleSpec(
    id: string, name: string, enabled: bool, listenHost: Host, listenPort: int,
    target: Endpoint, backup: Option<Endpoint>, health: HealthSpec, dump: DumpSpec,
    routingMode: string, protocol: string, udpIdleSec: int, allow: seq<AclEntry>,
    maxConns: int, idleTimeoutSec: int, dialTimeoutMS: int)
  {
    predicate HasBackup() { backup.Some? && !backup.value.IsZero() }
  }

  datatype SpecError =
    | BadProtocol | BadUdpIdle | BadRoutingMode | BackupModeWithoutBackup | NegativeLimit
    | BadHealthMode | BadRequestMode | BadExpectMode | BadHttpStatus | HealthTooLarge
    | HealthMalformed | HttpHealthOnUdp | UdpHealthNeedsPayload | DumpTooLarge
    | BadListenPort | NoTarget | BadTargetPort | BadListenHost | BlankTargetHost
    | TargetLoops | BackupLoops | BadBackupPort | BadAllowList

  // ----- defaults -------------------------------------------------------------

  function Positive(n: int, default: int): int { if n <= 0 then default else n }

  function NonEmpty(s: string, default: string): string { if s == "" then default else s }

  function HealthDefaults(h: HealthSpec): HealthSpec {
    h.(intervalSec := Positive(h.intervalSec, 3), timeoutMS := Positive(h.timeoutMS, 1000),
       failAfter := Positive(h.failAfter, 2), riseAfter := Positive(h.riseAfter, 2),
       mode := NonEmpty(h.mode, "tcp"), requestMode := NonEmpty(h.requestMode, "text"),
       expectMode := NonEmpty(h.expectMode, "text"), httpMethod := NonEmpty(h.httpMethod, "GET"),
       httpPath := NonEmpty(h.httpPath, "/"))
  }

  function ApplyDefaults(s: RuleSpec): RuleSpec {
    s.(routingMode := NonEmpty(s.routingMode, "auto"), protocol := NonEmpty(s.protocol, "tcp"),
       udpIdleSec := Positive(s.udpIdleSec, 30),
       listenHost := if s.listenHost.text == "" then ANY_HOST else s.listenHost,
       dialTimeoutMS := Positive(s.dialTimeoutMS, 3000),
       health := HealthDefaults(s.health),
       dump := s.dump.(maxConns := Positive(s.dump.maxConns, 50),
                       maxBytesPer := Positive(s.dump.maxBytesPer, 64 * 1024)))
  }

  lemma DefaultsAreIdempotent(s: RuleSpec)
    ensures ApplyDefaults(ApplyDefaults(s)) == ApplyDefaults(s)
    ensures ApplyDefaults(s).id == s.id && ApplyDefaults(s).enabled == s.enabled
  {
  }

  /** A default is used exactly where nothing, or nothing positive, is given. */
  lemma DefaultsFill(s: RuleSpec)
    ensures var t := ApplyDefaults(s);
            && t.protocol == (if s.protocol != "" then s.protocol else "tcp")
            && t.routingMode == (if s.routingMode != "" then s.routingMode else "auto")
            && t.listenHost == (if s.listenHost.text != "" then s.listenHost else Host("0.0.0.0", Some(V4(0))))
            && t.udpIdleSec == (if s.udpIdleSec > 0 then s.udpIdleSec else 30)
            && t.dialTimeoutMS == (if s.dialTimeoutMS > 0 then s.dialTimeoutMS else 3000)
            && t.dump.maxConns == (if s.dump.maxConns > 0 then s.dump.maxConns else 50)
            && t.dump.maxBytesPer == (if s.dump.maxBytesPer > 0 then s.dump.maxBytesPer else 65536)
            && t.health.intervalSec == (if s.health.intervalSec > 0 then s.health.intervalSec else 3)
            && t.health.timeoutMS == (if s.health.timeoutMS > 0 then s.health.timeoutMS else 1000)
            && t.health.failAfter == (if s.health.failAfter > 0 then s.health.failAfter else 2)
            && t.health.riseAfter == (if s.health.riseAfter > 0 then s.health.riseAfter else 2)
            && t.health.mode == (if s.health.mode != "" then s.health.mode else "tcp")
            && (t.id, t.name, t.enabled, t.listenPort) == (s.id, s.name, s.enabled, s.listenPort)
            && (t.target, t.backup, t.allow) == (s.target, s.backup, s.allow)
            && (t.maxConns, t.idleTimeoutSec, t.dump.enabled) == (s.maxConns, s.idleTimeoutSec, s.dump.enabled)
            && (t.health.enabled, t.health.autoFail, t.health.autoBack) == (s.health.enabled, s.health.autoFail, s.health.autoBack)
  {
  }

  // ----- validation -----------------------------------------------------------

  function ValidateHealth(h: HealthSpec): Option<SpecError> {
    if h.mode !in ["", "tcp", "payload", "http"] then Some(BadHealthMode)
    else if h.requestMode !in ["", "text", "hex"] then Some(BadRequestMode)
    else if h.expectMode !in ["", "text", "hex", "regex"] then Some(BadExpectMode)
    else if h.httpStatus < 0 || h.httpStatus > 599 then Some(BadHttpStatus)
    else if |h.request| > 64 * 1024 || |h.expected| > 4096 then Some(HealthTooLarge)
    else if !h.wellFormed then Some(HealthMalformed)
    else None
  }

  function WithoutFinalDot(s: string): string {
    if s != "" && s[|s| - 1] == '.' then s[..|s| - 1] else s
  }

  /** Literal self-loops, recognised without DNS; `locals` are the addresses of the interfaces. */
  predicate LoopsToSelf(s: RuleSpec, e: Endpoint, locals: set<IP>) {
    var listen := if s.listenHost.ip.Some? then s.listenHost.ip.value else V4(0);
    && e.port == s.listenPort
    && (if Lower(WithoutFinalDot(e.host.text)) == "localhost" then listen.IsUnspecified() || listen.IsLoopback()
        else
          && e.host.ip.Some?
          && (var target := e.host.ip.value;
              || listen == target
              || (listen.IsUnspecified() && (target.IsLoopback() || target.IsUnspecified() || target in locals))))
  }

  function ValidateEndpoints(s: RuleSpec, locals: set<IP>): Option<SpecError> {
    if s.listenPort < 1 || s.listenPort > 65535 then Some(BadListenPort)
    else if s.target.IsZero() then Some(NoTarget)
    else if s.target.port < 1 || s.target.port > 65535 then Some(BadTargetPort)
    else if s.listenHost.text != "" && s.listenHost.ip.None? then Some(BadListenHost)
    else if TrimSpace(s.target.host.text) == "" then Some(BlankTargetHost)
    else if LoopsToSelf(s, s.target, locals) then Some(TargetLoops)
    else if s.HasBackup() && LoopsToSelf(s, s.backup.value, locals) then Some(BackupLoops)
    else if s.HasBackup() && (s.backup.value.port < 1 || s.backup.value.port > 65535) then Some(BadBackupPort)
    else None
  }

  function Validate(s: RuleSpec, locals: set<IP>): Option<SpecError> {
    if s.protocol !in ["", "tcp", "udp"] then Some(BadProtocol)
    else if s.udpIdleSec < 0 || s.udpIdleSec > 3600 then Some(BadUdpIdle)
    else if s.routingMode !in ["", "auto", "primary", "backup"] then Some(BadRoutingMode)
    else if s.routingMode == "backup" && !s.HasBackup() then Some(BackupModeWithoutBackup)
    else if s.maxConns < 0 || s.idleTimeoutSec < 0 then Some(NegativeLimit)
    else if ValidateHealth(s.health).Some? then ValidateHealth(s.health)
    else if s.protocol == "udp" && s.health.mode == "http" then Some(HttpHealthOnUdp)
    else if s.protocol == "udp" && s.health.enabled
            && (s.health.mode != "payload" || s.health.request == "" || s.health.expected == "") then Some(UdpHealthNeedsPayload)
    else if s.dump.maxConns > 2000 || s.dump.maxBytesPer > 4 * 1024 * 1024
            || s.dump.maxConns * s.dump.maxBytesPer * 2 > 256 * 1024 * 1024 then Some(DumpTooLarge)
    else if ValidateEndpoints(s, locals).Some? then ValidateEndpoints(s, locals)
    else if Malformed in s.allow then Some(BadAllowList)
    else None
  }

  predicate IsPort(n: int) { 1 <= n <= 65535 }

  /** The health checks that are possible. */
  predicate HealthPossible(h: HealthSpec, protocol: string) {
    && h.mode in {"", "tcp", "payload", "http"} && h.requestMode in {"", "text", "hex"}
    && h.expectMode in {"", "text", "hex", "regex"}
    && 0 <= h.httpStatus < 600 && |h.request| <= 65536 && |h.expected| <= 4096 && h.wellFormed
    && (protocol == "udp" ==>
          h.mode != "http" && (h.enabled ==> h.mode == "payload" && h.request != "" && h.expected != ""))
  }

  /** The limits of the captures: 2000 connections, 4 MiB for a direction, 256 MiB in all. */
  predicate DumpPossible(d: DumpSpec) {
    d.maxConns <= 2000 && d.maxBytesPer <= 4194304 && 2 * (d.maxConns * d.maxBytesPer) <= 268435456
  }

  /** Exactly the specifications that may be stored. */
  lemma ValidMeans(s: RuleSpec, locals: set<IP>)
    ensures Validate(s, locals) == None <==>
      && s.protocol in {"", "tcp", "udp"} && s.routingMode in {"", "auto", "primary", "backup"}
      && 0 <= s.udpIdleSec <= 3600 && s.maxConns >= 0 && s.idleTimeoutSec >= 0
      && HealthPossible(s.health, s.protocol) && DumpPossible(s.dump)
      && IsPort(s.listenPort) && (s.listenHost.text != "" ==> s.listenHost.ip.Some?)
      && s.target.host.text != "" && TrimSpace(s.target.host.text) != "" && IsPort(s.target.port)
      && !LoopsToSelf(s, s.target, locals)
      && (s.backup.Some? && s.backup.value.host.text != "" && s.backup.value.port != 0 ==>
            IsPort(s.backup.value.port) && !LoopsToSelf(s, s.backup.value, locals))
      && (s.routingMode == "backup" ==> s.backup.Some? && s.backup.value.host.text != "" && s.backup.value.port != 0)
      && Malformed !in s.allow
  {
    HealthIsValid(s.health);
    EndpointsAreValid(s, locals);
    assert s.dump.maxConns * s.dump.maxBytesPer * 2 == 2 * (s.dump.maxConns * s.dump.maxBytesPer);
    hide ValidateHealth, ValidateEndpoints, LoopsToSelf, TrimSpace;
  }

  lemma EndpointsAreValid(s: RuleSpec, locals: set<IP>)
    ensures ValidateEndpoints(s, locals) == None <==>
      && IsPort(s.listenPort) && (s.listenHost.text != "" ==> s.listenHost.ip.Some?)
      && s.target.host.text != "" && TrimSpace(s.target.host.text) != "" && IsPort(s.target.port)
      && !LoopsToSelf(s, s.target, locals)
      && (s.backup.Some? && s.backup.value.host.text != "" && s.backup.value.port != 0 ==>
            IsPort(s.backup.value.port) && !LoopsToSelf(s, s.backup.value, locals))
  {
    hide LoopsToSelf, TrimSpace;
  }

  lemma HealthIsValid(h: HealthSpec)
    ensures ValidateHealth(h) == None <==>
      && h.mode in {"", "tcp", "payload", "http"} && h.requestMode in {"", "text", "hex"}
      && h.expectMode in {"", "text", "hex", "regex"}
      && 0 <= h.httpStatus < 600 && |h.request| <= 65536 && |h.expected| <= 4096 && h.wellFormed
  {
  }

  /** parseACL, for a list that passed validation. */
  function ParseAcl(list: seq<AclEntry>): seq<nat> {
    if list == [] then []
    else (if list[0].Network? then [list[0].net] else []) + ParseAcl(list[1..])
  }

  /** The allow list stands for exactly its networks. */
  lemma {:induction false} AclIsTheNetworks(list: seq<AclEntry>, net: nat)
    ensures net in ParseAcl(list) <==> Network(net) in list
  {
    if list == [] {
    } else {
      AclIsTheNetworks(list[1..], net);
    }
  }

  /** A specification as it is stored in a rule: defaults applied, and valid. */
  predicate Normal(s: RuleSpec, locals: set<IP>) {
    s.id != "" && ApplyDefaults(s) == s && Validate(s, locals) == None
  }

  /** Switching a rule on or off, or to an allowed routing mode, keeps it valid. */
  lemma NormalUnderSwitches(s: RuleSpec, locals: set<IP>, enabled: bool, mode: string)
    requires Normal(s, locals) && mode in ["auto", "primary", "backup"] && (mode == "backup" ==> s.HasBackup())
    ensures Normal(s.(enabled := enabled), locals) && Normal(s.(routingMode := mode), locals)
  {
    SameEndpointChecks(s, s.(enabled := enabled), locals);
    SameEndpointChecks(s, s.(routingMode := mode), locals);
  }

  lemma SameEndpointChecks(s: RuleSpec, t: RuleSpec, locals: set<IP>)
    requires t == s.(enabled := t.enabled, routingMode := t.routingMode)
    ensures ValidateEndpoints(s, locals) == ValidateEndpoints(t, locals)
  {
  }

  // ----- conflicting listeners --------------------------------------------------

  predicate Unspecified(h: Host) { h.ip.Some? && h.ip.value.IsUnspecified() }

  predicate HostsOverlap(a: Host, b: Host) {
    || a.text == b.text
    || Unspecified(a) || Unspecified(b)
    || (a.ip.Some? && a.ip == b.ip)
  }

  predicate Conflict(a: RuleSpec, b: RuleSpec) {
    a.listenPort == b.listenPort && a.protocol == b.protocol && HostsOverlap(a.listenHost, b.listenHost)
  }

  /** A listener on this host is given what arrives at the address x. */
  predicate Hears(h: Host, x: IP) { h.ip.Some? && (h.ip.value.bits == 0 || h.ip.value == x) }

  /** Two specifications conflict exactly when something would be for both listeners. */
  lemma ConflictMeansSameAddress(a: RuleSpec, b: RuleSpec)
    requires a.listenHost.ip.Some? && b.listenHost.ip.Some?
    requires a.listenHost.text == b.listenHost.text ==> a.listenHost == b.listenHost
    ensures Conflict(a, b) <==>
      && a.listenPort == b.listenPort && a.protocol == b.protocol
      && exists x: IP :: Hears(a.listenHost, x) && Hears(b.listenHost, x)
  {
    var x, y := a.listenHost.ip.value, b.listenHost.ip.value;
    assert Hears(a.listenHost, x) && Hears(b.listenHost, y);
  }

  /** Where a rule listens. */
  datatype Binding = Binding(host: string, port: int, protocol: string)

  function BindingOf(s: RuleSpec): Binding { Binding(s.listenHost.text, s.listenPort, s.protocol) }

  function Clean(s: RuleSpec, id: string): RuleSpec {
    ApplyDefaults(if s.id == "" then s.(id := id) else s)
  }
}
