/**
 * The two ends run against each other: any interleaving, any splitting of the byte streams. Timeouts and lost
 * connections are not part of this model.
 */
module SocksHandshake {
  import opened Text
  import opened SocksCodec

  /** Bytes in flight each way, and `buf`, what the server's buffered reader holds unread. A side that fails closes. */
  datatype System = System(client: ClientPhase, server: ServerPhase, c2s: seq<byte>, buf: seq<byte>, s2c: seq<byte>) {
    function Pending(): seq<byte> {
      buf + c2s
    }
  }

  const START := System(Fresh, WantVersion, [], [], [])

  datatype Event = ClientStart | ClientRead | ClientEof | Fill(k: nat) | ServerRead | ServerEnd | ServerDialed

  predicate Enabled(x: System, e: Event) {
    match e
    case ClientStart => x.client == Fresh
    case ClientRead => ClientReading(x.client) && |x.s2c| >= ClientNeed(x.client)
    case ClientEof => ClientReading(x.client) && |x.s2c| < ClientNeed(x.client) && x.server == Closed
    case Fill(k) => ServerReading(x.server) && |x.buf| < ServerNeed(x.server) && 0 < k <= |x.c2s|
    case ServerRead => ServerReading(x.server) && |x.buf| >= ServerNeed(x.server)
    case ServerEnd => ServerReading(x.server) && |x.buf| < ServerNeed(x.server) && x.c2s == [] && x.client == Failed
    case ServerDialed => x.server.Dialing?
  }

  function Next(x: System, e: Event, c: ClientConfig, s: ServerConfig): System
    requires Enabled(x, e) && c.Ok()
  {
    match e
    case ClientStart => x.(client := WantMethod, c2s := x.c2s + Greeting(c))
    case ClientRead =>
      var n := ClientNeed(x.client);
      var (p, sent) := ClientNext(x.client, x.s2c[..n], c);
      x.(client := p, c2s := x.c2s + sent, s2c := x.s2c[n..])
    case ClientEof => x.(client := Failed)
    case Fill(k) => x.(buf := x.buf + x.c2s[..k], c2s := x.c2s[k..])
    case ServerRead =>
      var n := ServerNeed(x.server);
      var (p, sent) := ServerNext(x.server, x.buf[..n], s);
      x.(server := p, buf := x.buf[n..], s2c := x.s2c + sent)
    case ServerEnd =>
      var (p, sent) := ServerEof(x.server);
      x.(server := p, s2c := x.s2c + sent)
    case ServerDialed =>
      var (p, sent) := ServerDial(x.server.target, s);
      x.(server := p, s2c := x.s2c + sent)
  }

  /** What is in flight may reach the server in pieces of any size, as long as it waits for more. */
  lemma AnySplit(x: System, k: nat, c: ClientConfig, s: ServerConfig)
    requires c.Ok() && ServerReading(x.server) && |x.buf| < ServerNeed(x.server) && 0 < k <= |x.c2s|
    ensures Enabled(x, Fill(k))
    ensures var y := Next(x, Fill(k), c, s);
            && y.Pending() == x.Pending() && |y.buf| == |x.buf| + k
            && y.server == x.server && y.client == x.client && y.s2c == x.s2c
  {
    assert x.c2s == x.c2s[..k] + x.c2s[k..];
  }

  predicate CanRun(x: System, events: seq<Event>, c: ClientConfig, s: ServerConfig)
    requires c.Ok()
    decreases |events|
  {
    events == [] || (Enabled(x, events[0]) && CanRun(Next(x, events[0], c, s), events[1..], c, s))
  }

  function After(x: System, events: seq<Event>, c: ClientConfig, s: ServerConfig): System
    requires c.Ok() && CanRun(x, events, c, s)
    decreases |events|
  {
    if events == [] then x else After(Next(x, events[0], c, s), events[1..], c, s)
  }

  // ---------------------------------------------------- what should happen

  /** The server takes one of the methods the client offers. */
  predicate MethodAgreed(c: ClientConfig, s: ServerConfig) {
    s.authEnabled ==> c.HasAccount()
  }

  predicate LoggedIn(c: ClientConfig, s: ServerConfig) {
    MethodAgreed(c, s) && (s.authEnabled ==> c.AccountFits() && s.accepts(c.user, c.pass))
  }

  /** The target as two bytes of port carry it. */
  function Carried(t: Target): Target {
    Target(t.host, t.port % 65536)
  }

  predicate Succeeds(c: ClientConfig, s: ServerConfig) {
    LoggedIn(c, s) && c.TargetFits() && s.dials(Carried(c.target.value))
  }

  // -------------------------------------------------------------- invariant

  /** The server is inside the message `it`, with `rest` of it still to come. */
  predicate InGreeting(p: ServerPhase, rest: seq<byte>, c: ClientConfig) {
    match p
    case WantVersion => rest == [VERSION] + ([|Methods(c)|] + Methods(c))
    case WantCount => rest == [|Methods(c)|] + Methods(c)
    case WantMethods(n) => n == |Methods(c)| && rest == Methods(c)
    case _ => false
  }

  predicate InAuth(p: ServerPhase, rest: seq<byte>, c: ClientConfig)
    requires c.AccountFits()
  {
    match p
    case WantAuthHead => rest == [1, |c.user|] + (c.user + ([|c.pass|] + c.pass))
    case WantUser(n) => n == |c.user| && rest == c.user + ([|c.pass|] + c.pass)
    case WantPassLength(user) => user == c.user && rest == [|c.pass|] + c.pass
    case WantPass(user, n) => user == c.user && n == |c.pass| && rest == c.pass
    case _ => false
  }

  predicate InRequest(p: ServerPhase, rest: seq<byte>, c: ClientConfig)
    requires c.TargetFits()
  {
    var h := c.target.value.host;
    var port := PortBytes(c.target.value.port);
    match p
    case WantRequest => rest == [VERSION, 1, 0, AddrType(h)] + (LengthByte(h) + (AddrBytes(h) + port))
    case WantNameLength => h.Name? && rest == [|h.text|] + (AddrBytes(h) + port)
    case WantHost(atyp, n) => atyp == AddrType(h) && n == |AddrBytes(h)| && rest == AddrBytes(h) + port
    case WantPort(host) => host == h && rest == port
    case _ => false
  }

  /** What the client has yet to read of a success reply. */
  function ReplyLeft(p: ClientPhase): seq<byte> {
    match p
    case WantReply => Reply(0)
    case WantBound => Reply(0)[2..]
    case WantSkip(_) => Reply(0)[4..]
    case WantTail => Reply(0)[8..]
    case _ => []
  }

  predicate Greeted(x: System, c: ClientConfig, s: ServerConfig) {
    || (InGreeting(x.server, x.Pending(), c) && x.s2c == [])
    || (x.Pending() == [] && MethodAgreed(c, s) && x.s2c == [VERSION, ServerMethod(s)]
        && x.server == if s.authEnabled then WantAuthHead else WantRequest)
    || (x.Pending() == [] && !MethodAgreed(c, s) && x.s2c == [VERSION, NOT_ACCEPTABLE] && x.server == Closed)
  }

  predicate LoggingIn(x: System, c: ClientConfig, s: ServerConfig) {
    && s.authEnabled && c.HasAccount() && c.AccountFits()
    && (|| (InAuth(x.server, x.Pending(), c) && x.s2c == [])
        || (x.Pending() == [] && s.accepts(c.user, c.pass) && x.s2c == [1, 0] && x.server == WantRequest)
        || (x.Pending() == [] && !s.accepts(c.user, c.pass) && x.s2c == [1, 1] && x.server == Closed))
  }

  predicate Requested(x: System, c: ClientConfig, s: ServerConfig) {
    && LoggedIn(c, s) && c.TargetFits()
    && var t := Carried(c.target.value);
       || (x.client == WantReply && InRequest(x.server, x.Pending(), c) && x.s2c == [])
       || (x.client == WantReply && x.Pending() == [] && x.server == Dialing(t) && x.s2c == [])
       || (x.client == WantReply && x.Pending() == [] && !s.dials(t) && x.server == Closed && x.s2c == Reply(1))
       || (x.Pending() == [] && s.dials(t) && x.server == Tunnel(t) && x.s2c == ReplyLeft(x.client)
           && (x.client.WantSkip? ==> x.client.n == 4))
  }

  /** The client gave up: the server has closed, or waits for a message that will not come. */
  predicate GaveUp(x: System, c: ClientConfig, s: ServerConfig) {
    && !Succeeds(c, s)
    && (x.server == Closed || (x.Pending() == [] && (x.server == WantAuthHead || x.server == WantRequest)))
  }

  predicate Inv(x: System, c: ClientConfig, s: ServerConfig) {
    match x.client
    case Fresh => x.server == WantVersion && x.Pending() == [] && x.s2c == []
    case WantMethod => Greeted(x, c, s)
    case WantStatus => LoggingIn(x, c, s)
    case WantLength => false
    case Failed => GaveUp(x, c, s)
    case _ => Requested(x, c, s)
  }

  lemma Front<T>(a: seq<T>, b: seq<T>, s: seq<T>)
    requires s == a + b
    ensures |s| >= |a| && s[..|a|] == a && s[|a|..] == b
  {
  }

  lemma TakePending(x: System, n: nat)
    requires n <= |x.buf|
    ensures x.buf[..n] == x.Pending()[..n] && x.buf[n..] + x.c2s == x.Pending()[n..]
  {
  }

  // ---------------------------------------------------------- server steps

  lemma GreetingRead(p: ServerPhase, rest: seq<byte>, c: ClientConfig, s: ServerConfig)
    requires InGreeting(p, rest, c)
    ensures ServerReading(p) && ServerNeed(p) <= |rest|
    ensures var n := ServerNeed(p); var (q, sent) := ServerNext(p, rest[..n], s);
            if p.WantMethods? then
              && rest[n..] == []
              && (if MethodAgreed(c, s) then
                    sent == [VERSION, ServerMethod(s)] && q == (if s.authEnabled then WantAuthHead else WantRequest)
                  else sent == [VERSION, NOT_ACCEPTABLE] && q == Closed)
            else InGreeting(q, rest[n..], c) && sent == []
  {
    match p
    case WantVersion => Front([VERSION], [|Methods(c)|] + Methods(c), rest);
    case WantCount => Front([|Methods(c)| as byte], Methods(c), rest);
    case WantMethods(n) => Front(Methods(c), [], rest);
  }

  lemma AuthRead(p: ServerPhase, rest: seq<byte>, c: ClientConfig, s: ServerConfig)
    requires c.AccountFits() && InAuth(p, rest, c)
    ensures ServerReading(p) && ServerNeed(p) <= |rest|
    ensures var n := ServerNeed(p); var (q, sent) := ServerNext(p, rest[..n], s);
            if p.WantPass? then
              && rest[n..] == []
              && (if s.accepts(c.user, c.pass) then sent == [1, 0] && q == WantRequest
                   else sent == [1, 1] && q == Closed)
            else InAuth(q, rest[n..], c) && sent == []
  {
    match p
    case WantAuthHead => Front([1, |c.user| as byte], c.user + ([|c.pass|] + c.pass), rest);
    case WantUser(n) => Front(c.user, [|c.pass|] + c.pass, rest);
    case WantPassLength(user) => Front([|c.pass| as byte], c.pass, rest);
    case WantPass(user, n) => Front(c.pass, [], rest);
  }

  lemma RequestRead(p: ServerPhase, rest: seq<byte>, c: ClientConfig, s: ServerConfig)
    requires c.TargetFits() && InRequest(p, rest, c)
    ensures ServerReading(p) && ServerNeed(p) <= |rest|
    ensures var n := ServerNeed(p); var (q, sent) := ServerNext(p, rest[..n], s);
            && sent == []
            && if p.WantPort? then rest[n..] == [] && q == Dialing(Carried(c.target.value))
                 else InRequest(q, rest[n..], c)
  {
    var h := c.target.value.host;
    var port := PortBytes(c.target.value.port);
    match p
    case WantRequest =>
      Front([VERSION, 1, 0, AddrType(h)], LengthByte(h) + (AddrBytes(h) + port), rest);
      assert !h.Name? ==> LengthByte(h) + (AddrBytes(h) + port) == AddrBytes(h) + port;
    case WantNameLength => Front([|h.text| as byte], AddrBytes(h) + port, rest);
    case WantHost(atyp, n) =>
      Front(AddrBytes(h), port, rest);
      HostReadBack(h);
    case WantPort(host) =>
      Front(port, [], rest);
      PortReadBack(c.target.value.port);
  }

  lemma FillKeeps(x: System, k: nat, c: ClientConfig, s: ServerConfig)
    requires c.Ok() && Inv(x, c, s) && Enabled(x, Fill(k))
    ensures Inv(Next(x, Fill(k), c, s), c, s)
  {
    hide InGreeting, InAuth, InRequest;
    var y := Next(x, Fill(k), c, s);
    assert y.Pending() == x.Pending() by {
      assert x.c2s == x.c2s[..k] + x.c2s[k..];
    }
  }

  lemma ServerReadKeeps(x: System, c: ClientConfig, s: ServerConfig)
    requires c.Ok() && Inv(x, c, s) && Enabled(x, ServerRead)
    ensures Inv(Next(x, ServerRead, c, s), c, s)
  {
    hide InGreeting, InAuth, InRequest, ServerNext;
    var n := ServerNeed(x.server);
    TakePending(x, n);
    match x.client
    case WantMethod =>
      GreetingRead(x.server, x.Pending(), c, s);
    case WantStatus =>
      AuthRead(x.server, x.Pending(), c, s);
    case WantReply =>
      RequestRead(x.server, x.Pending(), c, s);
    case _ =>
  }

  lemma ServerDialedKeeps(x: System, c: ClientConfig, s: ServerConfig)
    requires c.Ok() && Inv(x, c, s) && Enabled(x, ServerDialed)
    ensures Inv(Next(x, ServerDialed, c, s), c, s)
  {
  }

  lemma SendRequestKeeps(x: System, c: ClientConfig, s: ServerConfig)
    requires c.Ok() && LoggedIn(c, s) && x.Pending() == [] && x.server == WantRequest && x.s2c == []
    ensures var (p, sent) := SendRequest(c); Inv(x.(client := p, c2s := x.c2s + sent), c, s)
  {
    hide LoggedIn;
    var (p, sent) := SendRequest(c);
    assert x.buf == [] && x.c2s == [];
    assert x.(client := p, c2s := x.c2s + sent).Pending() == sent;
  }

  lemma MethodReadKeeps(x: System, c: ClientConfig, s: ServerConfig)
    requires c.Ok() && Greeted(x, c, s) && x.client == WantMethod && Enabled(x, ClientRead)
    ensures Inv(Next(x, ClientRead, c, s), c, s)
  {
    hide SendRequest, InGreeting;
    assert x.s2c[2..] == [] && x.s2c[..2] == x.s2c;
    var y := Next(x, ClientRead, c, s);
    if x.s2c[1] == NO_AUTH {
      SendRequestKeeps(x.(s2c := []), c, s);
    } else if x.s2c[1] == USER_PASS && c.AccountFits() {
      assert x.buf == [] && x.c2s == [];
      assert y.Pending() == AuthMessage(c);
      assert InAuth(y.server, y.Pending(), c);
    }
  }

  lemma StatusReadKeeps(x: System, c: ClientConfig, s: ServerConfig)
    requires c.Ok() && LoggingIn(x, c, s) && x.client == WantStatus && Enabled(x, ClientRead)
    ensures Inv(Next(x, ClientRead, c, s), c, s)
  {
    hide SendRequest, InAuth;
    assert x.s2c[2..] == [] && x.s2c[..2] == x.s2c;
    if x.s2c[1] == 0 {
      SendRequestKeeps(x.(s2c := []), c, s);
    }
  }

  lemma ReplyReadKeeps(x: System, c: ClientConfig, s: ServerConfig)
    requires c.Ok() && Requested(x, c, s) && ClientReading(x.client) && Enabled(x, ClientRead)
    requires x.client != WantMethod && x.client != WantStatus && x.client != WantLength
    ensures Inv(Next(x, ClientRead, c, s), c, s)
  {
    hide InRequest, LoggedIn;
    var y := Next(x, ClientRead, c, s);
    assert y.Pending() == x.Pending();
    assert Reply(0)[2..][2..] == Reply(0)[4..] && Reply(0)[4..][4..] == Reply(0)[8..] && Reply(0)[8..][2..] == [];
  }

  /** Every step keeps the invariant. */
  lemma StepKeepsInv(x: System, e: Event, c: ClientConfig, s: ServerConfig)
    requires c.Ok() && Inv(x, c, s) && Enabled(x, e)
    ensures Inv(Next(x, e, c, s), c, s)
  {
    match e
    case ClientStart =>
      assert Next(x, e, c, s).Pending() == Greeting(c);
    case ClientRead =>
      hide Next, Greeted, LoggingIn, Requested;
      if x.client == WantMethod {
        MethodReadKeeps(x, c, s);
      } else if x.client == WantStatus {
        StatusReadKeeps(x, c, s);
      } else {
        ReplyReadKeeps(x, c, s);
      }
    case ClientEof => ClientNeverCutOff(x, c, s);
    case Fill(k) => FillKeeps(x, k, c, s);
    case ServerRead => ServerReadKeeps(x, c, s);
    case ServerEnd =>
    case ServerDialed => ServerDialedKeeps(x, c, s);
  }

  /** A client that still reads is never met by a closed connection: the server answers before it closes. */
  lemma ClientNeverCutOff(x: System, c: ClientConfig, s: ServerConfig)
    requires c.Ok() && Inv(x, c, s)
    ensures !Enabled(x, ClientEof)
  {
  }

  // --------------------------------------------------------------- results

  predicate Settled(x: System) {
    (x.client == Connected && x.server.Tunnel?) || (x.client == Failed && x.server == Closed)
  }

  function SomeEvent(x: System): Event {
    if x.client == Fresh then ClientStart
    else if ClientReading(x.client) && |x.s2c| >= ClientNeed(x.client) then ClientRead
    else if x.server.Dialing? then ServerDialed
    else if |x.buf| >= ServerNeed(x.server) then ServerRead
    else if x.c2s != [] then Fill(|x.c2s|)
    else ServerEnd
  }

  lemma GreetingGoesOn(x: System, c: ClientConfig, s: ServerConfig)
    requires Greeted(x, c, s) && x.client == WantMethod
    ensures Enabled(x, SomeEvent(x))
  {
    hide InGreeting;
    if InGreeting(x.server, x.Pending(), c) {
      GreetingRead(x.server, x.Pending(), c, s);
    }
  }

  lemma LoginGoesOn(x: System, c: ClientConfig, s: ServerConfig)
    requires LoggingIn(x, c, s) && x.client == WantStatus
    ensures Enabled(x, SomeEvent(x))
  {
    hide InAuth;
    if InAuth(x.server, x.Pending(), c) {
      AuthRead(x.server, x.Pending(), c, s);
    }
  }

  lemma RequestGoesOn(x: System, c: ClientConfig, s: ServerConfig)
    requires Requested(x, c, s) && ClientReading(x.client) && x.client != WantLength
    requires x.client != WantMethod && x.client != WantStatus
    ensures Enabled(x, SomeEvent(x))
  {
    hide InRequest, LoggedIn;
    if InRequest(x.server, x.Pending(), c) {
      RequestRead(x.server, x.Pending(), c, s);
    }
  }

  /** No deadlock: as long as the two are not settled, one of them can go on. */
  lemma NoDeadlock(x: System, c: ClientConfig, s: ServerConfig)
    requires c.Ok() && Inv(x, c, s) && !Settled(x)
    ensures Enabled(x, SomeEvent(x))
  {
    hide Greeted, LoggingIn;
    match x.client
    case Fresh =>
    case WantMethod => GreetingGoesOn(x, c, s);
    case WantStatus => LoginGoesOn(x, c, s);
    case Failed => assert x.Pending() == [] ==> x.buf == [] && x.c2s == [];
    case Connected =>
    case _ => RequestGoesOn(x, c, s);
  }

  /** How many steps the exchange still takes, at most. */
  function Remaining(x: System): nat {
    1000 * (ClientRank(x.client) + ServerRank(x.server)) + |x.c2s|
  }

  lemma StepShrinks(x: System, e: Event, c: ClientConfig, s: ServerConfig)
    requires c.Ok() && Enabled(x, e)
    ensures Remaining(Next(x, e, c, s)) < Remaining(x)
  {
    hide ClientNext, ServerNext;
    match e
    case ClientRead => ClientMoves(x.client, x.s2c[..ClientNeed(x.client)], c);
    case ServerRead => ServerMoves(x.server, x.buf[..ServerNeed(x.server)], s);
    case _ =>
  }

  lemma {:induction false} RunKeepsInv(x: System, events: seq<Event>, c: ClientConfig, s: ServerConfig)
    requires c.Ok() && Inv(x, c, s) && CanRun(x, events, c, s)
    ensures Inv(After(x, events, c, s), c, s)
    ensures |events| + Remaining(After(x, events, c, s)) <= Remaining(x)
    decreases |events|
  {
    hide Inv, Next, Enabled, Remaining;
    if events != [] {
      StepKeepsInv(x, events[0], c, s);
      StepShrinks(x, events[0], c, s);
      RunKeepsInv(Next(x, events[0], c, s), events[1..], c, s);
    }
  }

  /**
   * Any run of the two ends. It cannot go on for ever and cannot get stuck before they are settled. When the client
   * reports success the exchange was to succeed, the server is in the tunnel to the same host and the port modulo
   * 65536, the client has read the reply to its last byte, and the server holds no byte unread; when it reports
   * failure the exchange was to fail.
   */
  lemma EndsAgree(events: seq<Event>, c: ClientConfig, s: ServerConfig)
    requires c.Ok() && CanRun(START, events, c, s)
    ensures |events| <= 20000
    ensures var x := After(START, events, c, s);
            && (!Settled(x) ==> Enabled(x, SomeEvent(x)))
            && (x.client == Connected ==>
                  && Succeeds(c, s) && x.server == Tunnel(Carried(c.target.value))
                  && x.s2c == [] && x.buf == [] && x.c2s == [])
            && (x.client == Failed ==> !Succeeds(c, s))
            && (x.server.Tunnel? ==>
                 Succeeds(c, s) && x.server.target == Carried(c.target.value) && x.buf == [] && x.c2s == [])
            && (Settled(x) ==> (x.client == Connected <==> Succeeds(c, s)))
  {
    RunKeepsInv(START, events, c, s);
    var x := After(START, events, c, s);
    hide After, CanRun, Succeeds, Inv, Enabled, SomeEvent, Carried;
    if !Settled(x) {
      NoDeadlock(x, c, s);
    }
    if x.server.Tunnel? {
      TunnelIsClean(x, c, s);
    }
    if x.client == Connected {
      ConnectedIsClean(x, c, s);
    }
    if x.client == Failed {
      FailedIsRight(x, c, s);
    }
  }

  lemma TunnelIsClean(x: System, c: ClientConfig, s: ServerConfig)
    requires c.Ok() && Inv(x, c, s) && x.server.Tunnel?
    ensures Succeeds(c, s) && x.server.target == Carried(c.target.value) && x.buf == [] && x.c2s == []
  {
  }

  lemma ConnectedIsClean(x: System, c: ClientConfig, s: ServerConfig)
    requires c.Ok() && Inv(x, c, s) && x.client == Connected
    ensures Succeeds(c, s) && x.server == Tunnel(Carried(c.target.value)) && x.s2c == []
  {
  }

  lemma FailedIsRight(x: System, c: ClientConfig, s: ServerConfig)
    requires c.Ok() && Inv(x, c, s) && x.client == Failed
    ensures !Succeeds(c, s)
  {
  }

  /** Both ends hold the very same target exactly when the port asked for is a port. */
  lemma SameTarget(t: Target)
    ensures Carried(t) == t <==> 0 <= t.port < 65536
  {
  }

  /** A target of port 65616 is carried as port 80, and the exchange succeeds all the same. */
  lemma PortWrapsAround(host: Host, user: seq<byte>, pass: seq<byte>)
    requires HostOk(host) && |AddrBytes(host)| <= 255
    ensures var c := ClientConfig(user, pass, Some(Target(host, 65616)));
            && Carried(c.target.value) == Target(host, 80) != c.target.value
            && Succeeds(c, ServerConfig(false, (u, p) => false, t => true))
  {
  }
}
