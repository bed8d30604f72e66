/**
 * The SOCKS5 messages and the two ends that exchange them (internal/proxy/upstream.go, internal/proxy/server.go), after
 * sections 3 to 6 of RFC 1928 and section 2 of RFC 1929. Each end is a machine that reads a known number of bytes at a
 * time and may write some.
 */
module SocksCodec {
  import opened Text

  type byte = x: int | 0 <= x < 256

  const VERSION: byte := 5
  const NO_AUTH: byte := 0
  const USER_PASS: byte := 2
  const NOT_ACCEPTABLE: byte := 0xff
  const ATYP_V4: byte := 1
  const ATYP_NAME: byte := 3
  const ATYP_V6: byte := 4

  /** A host as Go sees it: an address in its 16-byte form (net.ParseIP), or any other text. */
  datatype Host = IP(bytes: seq<byte>) | Name(text: seq<byte>)

  /** The port is what strconv.Atoi made of the text, so it may be any integer. */
  datatype Target = Target(host: Host, port: int)

  const V4_PREFIX: seq<byte> := [0, 0, 0, 0, 0, 0, 0, 0, 0, 0, 0xff, 0xff]

  predicate IsV4(bytes: seq<byte>) {
    |bytes| == 16 && bytes[..12] == V4_PREFIX
  }

  predicate HostOk(h: Host) {
    h.IP? ==> |h.bytes| == 16
  }

  function AddrType(h: Host): byte {
    if h.Name? then ATYP_NAME else if IsV4(h.bytes) then ATYP_V4 else ATYP_V6
  }

  function AddrBytes(h: Host): seq<byte>
    requires HostOk(h)
  {
    if h.Name? then h.text else if IsV4(h.bytes) then h.bytes[12..] else h.bytes
  }

  /** byte(port>>8), byte(port): the two low bytes in two's complement. */
  function PortBytes(port: int): seq<byte> {
    [port / 256 % 256, port % 256]
  }

  function PortOf(bytes: seq<byte>): int
    requires |bytes| == 2
  {
    (bytes[0] as int) * 256 + bytes[1]
  }

  /** The server reads the port modulo 65536, so it reads the port that was asked for exactly when it is one. */
  lemma PortReadBack(port: int)
    ensures PortOf(PortBytes(port)) == port % 65536
    ensures PortOf(PortBytes(port)) == port <==> 0 <= port < 65536
  {
    var q := port / 65536;
    var r := port % 65536;
    assert port == q * 65536 + r;
    assert port / 256 == q * 256 + r / 256;
    assert port / 256 % 256 == r / 256;
    assert port % 256 == r % 256;
  }

  // ---------------------------------------------------------------- client

  datatype ClientConfig = ClientConfig(user: seq<byte>, pass: seq<byte>, target: Option<Target>) {
    predicate HasAccount() {
      user != [] || pass != []
    }

    predicate AccountFits() {
      |user| <= 255 && |pass| <= 255
    }

    predicate TargetFits() {
      target.Some? && HostOk(target.value.host) && |AddrBytes(target.value.host)| <= 255
    }

    predicate Ok() {
      target.Some? ==> HostOk(target.value.host)
    }
  }

  datatype ClientPhase =
    | Fresh
    | WantMethod
    | WantStatus
    | WantReply
    | WantBound
    | WantLength
    | WantSkip(n: nat)
    | WantTail
    | Connected
    | Failed

  function Methods(c: ClientConfig): seq<byte> {
    if c.HasAccount() then [NO_AUTH, USER_PASS] else [NO_AUTH]
  }

  function Greeting(c: ClientConfig): seq<byte> {
    [VERSION] + ([|Methods(c)|] + Methods(c))
  }

  function AuthMessage(c: ClientConfig): seq<byte>
    requires c.AccountFits()
  {
    [1, |c.user|] + (c.user + ([|c.pass|] + c.pass))
  }

  function LengthByte(h: Host): seq<byte>
    requires HostOk(h) && |AddrBytes(h)| <= 255
  {
    if h.Name? then [|h.text|] else []
  }

  function RequestMessage(t: Target): seq<byte>
    requires HostOk(t.host) && |AddrBytes(t.host)| <= 255
  {
    [VERSION, 1, 0, AddrType(t.host)] + (LengthByte(t.host) + (AddrBytes(t.host) + PortBytes(t.port)))
  }

  function ClientNeed(p: ClientPhase): nat {
    match p
    case WantMethod => 2
    case WantStatus => 2
    case WantReply => 2
    case WantBound => 2
    case WantLength => 1
    case WantSkip(n) => n
    case WantTail => 2
    case _ => 0
  }

  predicate ClientReading(p: ClientPhase) {
    !p.Fresh? && !p.Connected? && !p.Failed?
  }

  /** The request goes out once the method is settled; a target that does not parse or fit ends the dial. */
  function SendRequest(c: ClientConfig): (ClientPhase, seq<byte>)
    requires c.Ok()
  {
    if c.TargetFits() then (WantReply, RequestMessage(c.target.value)) else (Failed, [])
  }

  function ClientNext(p: ClientPhase, bytes: seq<byte>, c: ClientConfig): (ClientPhase, seq<byte>)
    requires ClientReading(p) && |bytes| == ClientNeed(p) && c.Ok()
  {
    match p
    case WantMethod =>
      if bytes[0] != VERSION then (Failed, [])
      else if bytes[1] == USER_PASS then (if c.AccountFits() then (WantStatus, AuthMessage(c)) else (Failed, []))
      else if bytes[1] != NO_AUTH then (Failed, [])
      else SendRequest(c)
    case WantStatus => if bytes[1] != 0 then (Failed, []) else SendRequest(c)
    case WantReply => if bytes[0] != VERSION || bytes[1] != 0 then (Failed, []) else (WantBound, [])
    case WantBound =>
      if bytes[1] == ATYP_V4 then (WantSkip(4), [])
      else if bytes[1] == ATYP_V6 then (WantSkip(16), [])
      else if bytes[1] == ATYP_NAME then (WantLength, [])
      else (Failed, [])
    case WantLength => (if bytes[0] > 0 then WantSkip(bytes[0]) else WantTail, [])
    case WantSkip(_) => (WantTail, [])
    case WantTail => (Connected, [])
  }

  function ClientRank(p: ClientPhase): nat {
    match p
    case Fresh => 8
    case WantMethod => 7
    case WantStatus => 6
    case WantReply => 5
    case WantBound => 4
    case WantLength => 3
    case WantSkip(_) => 2
    case WantTail => 1
    case _ => 0
  }

  lemma ClientMoves(p: ClientPhase, bytes: seq<byte>, c: ClientConfig)
    requires ClientReading(p) && |bytes| == ClientNeed(p) && c.Ok()
    ensures ClientRank(ClientNext(p, bytes, c).0) < ClientRank(p)
    ensures |ClientNext(p, bytes, c).1| <= 600
  {
  }

  // ---------------------------------------------------------------- server

  /** Whether clients must log in, which logins are accepted, and which targets the scheduler manages to dial. */
  datatype ServerConfig = ServerConfig(authEnabled: bool, accepts: (seq<byte>, seq<byte>) -> bool,
                                       dials: Target -> bool)

  datatype ServerPhase =
    | WantVersion
    | WantCount
    | WantMethods(n: nat)
    | WantAuthHead
    | WantUser(n: nat)
    | WantPassLength(user: seq<byte>)
    | WantPass(user: seq<byte>, n: nat)
    | WantRequest
    | WantNameLength
    | WantHost(atyp: byte, n: nat)
    | WantPort(host: Host)
    | Dialing(target: Target)
    | Tunnel(target: Target)
    | OtherProtocol
    | Closed

  function Reply(code: byte): seq<byte> {
    [VERSION, code, 0, 1, 0, 0, 0, 0, 0, 0]
  }

  function ServerMethod(s: ServerConfig): byte {
    if s.authEnabled then USER_PASS else NO_AUTH
  }

  function ServerNeed(p: ServerPhase): nat {
    match p
    case WantMethods(n) => n
    case WantAuthHead => 2
    case WantUser(n) => n
    case WantPass(_, n) => n
    case WantRequest => 4
    case WantHost(_, n) => n
    case WantPort(_) => 2
    case WantVersion => 1
    case WantCount => 1
    case WantPassLength(_) => 1
    case WantNameLength => 1
    case _ => 0
  }

  predicate ServerReading(p: ServerPhase) {
    !p.Dialing? && !p.Tunnel? && !p.OtherProtocol? && !p.Closed?
  }

  function HostRead(atyp: byte, bytes: seq<byte>): Host {
    if atyp == ATYP_V4 then IP(V4_PREFIX + bytes) else if atyp == ATYP_V6 then IP(bytes) else Name(bytes)
  }

  function ServerNext(p: ServerPhase, bytes: seq<byte>, s: ServerConfig): (ServerPhase, seq<byte>)
    requires ServerReading(p) && |bytes| == ServerNeed(p)
  {
    match p
    case WantVersion => (if bytes[0] == VERSION then WantCount else OtherProtocol, [])
    case WantCount => (WantMethods(bytes[0]), [])
    case WantMethods(_) =>
      if ServerMethod(s) !in bytes then (Closed, [VERSION, NOT_ACCEPTABLE])
      else (if s.authEnabled then WantAuthHead else WantRequest, [VERSION, ServerMethod(s)])
    case WantAuthHead => (if bytes[0] != 1 then Closed else WantUser(bytes[1]), [])
    case WantUser(_) => (WantPassLength(bytes), [])
    case WantPassLength(user) => (WantPass(user, bytes[0]), [])
    case WantPass(user, _) => if s.accepts(user, bytes) then (WantRequest, [1, 0]) else (Closed, [1, 1])
    case WantRequest =>
      if bytes[0] != VERSION || bytes[1] != 1 then (Closed, Reply(7))
      else if bytes[3] == ATYP_V4 then (WantHost(ATYP_V4, 4), [])
      else if bytes[3] == ATYP_V6 then (WantHost(ATYP_V6, 16), [])
      else if bytes[3] == ATYP_NAME then (WantNameLength, [])
      else (Closed, Reply(4))
    case WantNameLength => (WantHost(ATYP_NAME, bytes[0]), [])
    case WantHost(atyp, _) => (WantPort(HostRead(atyp, bytes)), [])
    case WantPort(host) => (Dialing(Target(host, PortOf(bytes))), [])
  }

  /** The input ends before the bytes are there: the server gives up, with a reply if it was reading an address. */
  function ServerEof(p: ServerPhase): (ServerPhase, seq<byte>) {
    (Closed, if p.WantNameLength? || p.WantHost? then Reply(4) else [])
  }

  function ServerDial(t: Target, s: ServerConfig): (ServerPhase, seq<byte>) {
    if s.dials(t) then (Tunnel(t), Reply(0)) else (Closed, Reply(1))
  }

  function ServerRank(p: ServerPhase): nat {
    match p
    case WantVersion => 12
    case WantCount => 11
    case WantMethods(_) => 10
    case WantAuthHead => 9
    case WantUser(_) => 8
    case WantPassLength(_) => 7
    case WantPass(_, _) => 6
    case WantRequest => 5
    case WantNameLength => 4
    case WantHost(_, _) => 3
    case WantPort(_) => 2
    case Dialing(_) => 1
    case _ => 0
  }

  lemma ServerMoves(p: ServerPhase, bytes: seq<byte>, s: ServerConfig)
    requires ServerReading(p) && |bytes| == ServerNeed(p)
    ensures ServerRank(ServerNext(p, bytes, s).0) < ServerRank(p)
  {
  }

  /** The address the server reads is the host the client was given, whatever its form on the wire. */
  lemma HostReadBack(h: Host)
    requires HostOk(h)
    ensures HostRead(AddrType(h), AddrBytes(h)) == h
  {
    if h.IP? && IsV4(h.bytes) {
      assert h.bytes == h.bytes[..12] + h.bytes[12..];
    }
  }
}
