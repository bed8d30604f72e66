/**
 * The two ends as the program writes them: straight-line code over a reader and a writer, each proved against the
 * machine of SocksCodec run on the whole input.
 */
module SocksEnds {
  import opened Text
  import opened SocksCodec

  /** A connection as one side sees it: what the peer sends before it closes, how much of it is read, what was
      written. */
  class Conn {
    const stream: seq<byte>
    var pos: nat
    var sent: seq<byte>

    constructor (stream: seq<byte>)
      ensures this.stream == stream && pos == 0 && sent == []
    {
      this.stream := stream;
      pos, sent := 0, [];
    }

    /** What is still to be read. */
    function Rest(): seq<byte>
      reads this`pos
    {
      if pos <= |stream| then stream[pos..] else []
    }

    /** io.ReadFull: n bytes, or everything there is and an error. */
    method ReadFull(n: nat) returns (r: Option<seq<byte>>)
      modifies this`pos
      ensures r.Some? <==> n <= |old(Rest())|
      ensures r.Some? ==> r.value == old(Rest())[..n] && Rest() == old(Rest())[n..]
      ensures r.None? ==> Rest() == []
    {
      if pos + n <= |stream| {
        r := Some(stream[pos..pos + n]);
        pos := pos + n;
      } else if n == 0 {
        r := Some([]);
      } else {
        r := None;
        pos := |stream|;
      }
    }

    method Write(bytes: seq<byte>)
      modifies this`sent
      ensures sent == old(sent) + bytes
    {
      sent := sent + bytes;
    }
  }

  /** Where a side ended, what it wrote, and what it left unread. */
  datatype Outcome<Phase> = Outcome(phase: Phase, sent: seq<byte>, rest: seq<byte>)

  function After<Phase>(sent: seq<byte>, o: Outcome<Phase>): Outcome<Phase> {
    o.(sent := sent + o.sent)
  }

  function RunServer(p: ServerPhase, input: seq<byte>, s: ServerConfig): Outcome<ServerPhase>
    decreases ServerRank(p)
  {
    if p.Dialing? then
      Outcome(ServerDial(p.target, s).0, ServerDial(p.target, s).1, input)
    else if !ServerReading(p) then Outcome(p, [], input)
    else if |input| < ServerNeed(p) then Outcome(ServerEof(p).0, ServerEof(p).1, [])
    else
      var n := ServerNeed(p);
      ServerMoves(p, input[..n], s);
      After(ServerNext(p, input[..n], s).1, RunServer(ServerNext(p, input[..n], s).0, input[n..], s))
  }

  function RunClient(p: ClientPhase, input: seq<byte>, c: ClientConfig): Outcome<ClientPhase>
    requires c.Ok()
    decreases ClientRank(p)
  {
    if p.Fresh? then After(Greeting(c), RunClient(WantMethod, input, c))
    else if !ClientReading(p) then Outcome(p, [], input)
    else if |input| < ClientNeed(p) then Outcome(Failed, [], [])
    else
      var n := ClientNeed(p);
      ClientMoves(p, input[..n], c);
      After(ClientNext(p, input[..n], c).1, RunClient(ClientNext(p, input[..n], c).0, input[n..], c))
  }

  // ---------------------------------------------------------------- server

  /** A server run that has written `wrote` and goes on from phase p with this input still unread. */
  ghost predicate At(run: Outcome<ServerPhase>, wrote: seq<byte>, p: ServerPhase, input: seq<byte>, s: ServerConfig) {
    run == After(wrote, RunServer(p, input, s))
  }

  lemma Begin(p: ServerPhase, input: seq<byte>, s: ServerConfig)
    ensures At(RunServer(p, input, s), [], p, input, s)
  {
    hide RunServer;
    assert forall o: Outcome<ServerPhase> :: After([], o) == o;
  }

  lemma Advance(run: Outcome<ServerPhase>, wrote: seq<byte>, p: ServerPhase, input: seq<byte>, s: ServerConfig)
    requires At(run, wrote, p, input, s) && ServerReading(p) && ServerNeed(p) <= |input|
    ensures var (q, sent) := ServerNext(p, input[..ServerNeed(p)], s);
            At(run, wrote + sent, q, input[ServerNeed(p)..], s)
  {
    hide ServerNext, ServerNeed;
    var (q, sent) := ServerNext(p, input[..ServerNeed(p)], s);
    var o := RunServer(q, input[ServerNeed(p)..], s);
    assert wrote + (sent + o.sent) == (wrote + sent) + o.sent;
  }

  /** A read after which the server writes nothing. */
  lemma Quietly(run: Outcome<ServerPhase>, wrote: seq<byte>, p: ServerPhase, input: seq<byte>, s: ServerConfig)
    requires At(run, wrote, p, input, s) && ServerReading(p) && ServerNeed(p) <= |input|
    requires ServerNext(p, input[..ServerNeed(p)], s).1 == []
    ensures At(run, wrote, ServerNext(p, input[..ServerNeed(p)], s).0, input[ServerNeed(p)..], s)
  {
    hide At, ServerNext, ServerNeed;
    Advance(run, wrote, p, input, s);
    assert wrote + [] == wrote;
  }

  lemma Stop(run: Outcome<ServerPhase>, wrote: seq<byte>, p: ServerPhase, input: seq<byte>, s: ServerConfig)
    requires At(run, wrote, p, input, s) && ServerReading(p) && |input| < ServerNeed(p)
    ensures run == Outcome(Closed, wrote + ServerEof(p).1, [])
  {
  }

  lemma Ended(run: Outcome<ServerPhase>, wrote: seq<byte>, input: seq<byte>, s: ServerConfig)
    requires At(run, wrote, Closed, input, s)
    ensures run == Outcome(Closed, wrote, input)
  {
  }

  lemma Dialed(run: Outcome<ServerPhase>, wrote: seq<byte>, t: Target, input: seq<byte>, s: ServerConfig)
    requires At(run, wrote, Dialing(t), input, s)
    ensures run == Outcome(ServerDial(t, s).0, wrote + ServerDial(t, s).1, input)
  {
  }

  // ------------------------------------------------ what the reads parse

  /** A part of the input understood, or not, and what is left after it. */
  datatype Parsed<T> = Got(value: T, rest: seq<byte>) | Bad(rest: seq<byte>)

  datatype Login = Login(user: seq<byte>, pass: seq<byte>)

  function ParseLogin(input: seq<byte>): Parsed<Login> {
    if |input| < 2 then Bad([])
    else if input[0] != 1 then Bad(input[2..])
    else
      var n: nat := input[1];
      if |input| < 3 + n then Bad([])
      else
        var m: nat := input[2 + n];
        if |input| < 3 + n + m then Bad([])
        else Got(Login(input[2..2 + n], input[3 + n..3 + n + m]), input[3 + n + m..])
  }

  predicate KnownType(atyp: byte) {
    atyp == ATYP_V4 || atyp == ATYP_V6 || atyp == ATYP_NAME
  }

  function ParseAddr(atyp: byte, input: seq<byte>): Parsed<Host> {
    if atyp == ATYP_NAME then
      if |input| < 1 || |input| < 1 + input[0] as nat then Bad([])
      else Got(HostRead(atyp, input[1..1 + input[0] as nat]), input[1 + input[0] as nat..])
    else if KnownType(atyp) then
      var n := if atyp == ATYP_V4 then 4 else 16;
      if |input| < n then Bad([]) else Got(HostRead(atyp, input[..n]), input[n..])
    else Bad(input)
  }

  /** The server gets back the login the client sent, and leaves what follows it. */
  lemma LoginReadBack(c: ClientConfig, rest: seq<byte>)
    requires c.AccountFits()
    ensures ParseLogin(AuthMessage(c) + rest) == Got(Login(c.user, c.pass), rest)
  {
    var n := |c.user|;
    var m := |c.pass|;
    var msg := AuthMessage(c) + rest;
    assert msg[2..] == c.user + ([m] + c.pass + rest);
    assert msg[2..2 + n] == c.user && msg[2 + n] == m;
    assert msg[3 + n..] == c.pass + rest;
    assert msg[3 + n..3 + n + m] == c.pass && msg[3 + n + m..] == rest;
  }

  /** And every login it accepts as well formed is the encoding of what it got. */
  lemma LoginIsEncoded(input: seq<byte>)
    requires ParseLogin(input).Got?
    ensures var r := ParseLogin(input); var c := ClientConfig(r.value.user, r.value.pass, None);
            c.AccountFits() && input == AuthMessage(c) + r.rest
  {
    var n: nat := input[1];
    var m: nat := input[2 + n];
    var r := ParseLogin(input);
    var pass := input[3 + n..3 + n + m];
    assert input == input[..2] + (input[2..2 + n] + (input[2 + n..3 + n] + pass)) + input[3 + n + m..];
    assert input[..2] == [1, n] && input[2 + n..3 + n] == [m];
  }

  /** The server gets back the host the client sent. */
  lemma AddrReadBack(h: Host, rest: seq<byte>)
    requires HostOk(h) && |AddrBytes(h)| <= 255
    ensures ParseAddr(AddrType(h), LengthByte(h) + AddrBytes(h) + rest) == Got(h, rest)
  {
    var input := LengthByte(h) + AddrBytes(h) + rest;
    var k := |LengthByte(h)|;
    var n := |AddrBytes(h)|;
    assert input[k..k + n] == AddrBytes(h) && input[k + n..] == rest;
    HostReadBack(h);
  }

  lemma LoginAt(run: Outcome<ServerPhase>, wrote: seq<byte>, input: seq<byte>, s: ServerConfig)
    requires At(run, wrote, WantAuthHead, input, s)
    ensures match ParseLogin(input)
            case Bad(rest) => run == Outcome(Closed, wrote, rest)
            case Got(l, rest) =>
              if s.accepts(l.user, l.pass) then At(run, wrote + [1, 0], WantRequest, rest, s)
              else run == Outcome(Closed, wrote + [1, 1], rest)
  {
    hide At;
    assert wrote + [] == wrote;
    if |input| < 2 {
      Stop(run, wrote, WantAuthHead, input, s);
      return;
    }
    Advance(run, wrote, WantAuthHead, input, s);
    if input[0] != 1 {
      Ended(run, wrote, input[2..], s);
      return;
    }
    UserAt(run, wrote, input[1], input[2..], s);
    var n: nat := input[1];
    assert |input| > 2 + n ==> input[2..][n] == input[2 + n];
    if |input| > 2 + n {
      assert input[2..][..n] == input[2..2 + n];
      var m: nat := input[2 + n];
      if |input| >= 3 + n + m {
        assert input[2..][n + 1..n + 1 + m] == input[3 + n..3 + n + m];
        assert input[2..][n + 1 + m..] == input[3 + n + m..];
      }
    }
  }

  /** The rest of a login, from the user name on. */
  lemma UserAt(run: Outcome<ServerPhase>, wrote: seq<byte>, n: nat, input: seq<byte>, s: ServerConfig)
    requires At(run, wrote, WantUser(n), input, s)
    ensures |input| <= n ==> run == Outcome(Closed, wrote, [])
    ensures |input| > n && |input| < n + 1 + input[n] as nat ==> run == Outcome(Closed, wrote, [])
    ensures |input| > n && |input| >= n + 1 + input[n] as nat ==>
              var m := input[n] as nat;
              if s.accepts(input[..n], input[n + 1..n + 1 + m])
                then At(run, wrote + [1, 0], WantRequest, input[n + 1 + m..], s)
              else run == Outcome(Closed, wrote + [1, 1], input[n + 1 + m..])
  {
    hide At;
    assert wrote + [] == wrote;
    if |input| < n {
      Stop(run, wrote, WantUser(n), input, s);
      return;
    }
    Advance(run, wrote, WantUser(n), input, s);
    var user := input[..n];
    var rest := input[n..];
    if |input| == n {
      Stop(run, wrote, WantPassLength(user), rest, s);
      return;
    }
    Advance(run, wrote, WantPassLength(user), rest, s);
    var m := input[n] as nat;
    assert rest[1..] == input[n + 1..];
    if |input| < n + 1 + m {
      Stop(run, wrote, WantPass(user, m), input[n + 1..], s);
      return;
    }
    Advance(run, wrote, WantPass(user, m), input[n + 1..], s);
    assert input[n + 1..][..m] == input[n + 1..n + 1 + m] && input[n + 1..][m..] == input[n + 1 + m..];
    if !s.accepts(user, input[n + 1..n + 1 + m]) {
      Ended(run, wrote + [1, 1], input[n + 1 + m..], s);
    }
  }

  /** What reading an address of a known type starts with. */
  function AddrPhase(atyp: byte): ServerPhase {
    if atyp == ATYP_V4 then WantHost(ATYP_V4, 4)
    else if atyp == ATYP_V6 then WantHost(ATYP_V6, 16)
    else WantNameLength
  }

  lemma AddrAt(run: Outcome<ServerPhase>, wrote: seq<byte>, atyp: byte, input: seq<byte>, s: ServerConfig)
    requires KnownType(atyp) && At(run, wrote, AddrPhase(atyp), input, s)
    ensures match ParseAddr(atyp, input)
            case Bad(rest) => run == Outcome(Closed, wrote + Reply(4), rest)
            case Got(h, rest) => At(run, wrote, WantPort(h), rest, s)
  {
    hide At, HostRead;
    assert wrote + [] == wrote;
    var p := AddrPhase(atyp);
    if |input| < ServerNeed(p) {
      Stop(run, wrote, p, input, s);
      return;
    }
    Advance(run, wrote, p, input, s);
    if atyp == ATYP_NAME {
      var n := input[0] as nat;
      if |input| < 1 + n {
        Stop(run, wrote, WantHost(ATYP_NAME, n), input[1..], s);
        return;
      }
      Advance(run, wrote, WantHost(ATYP_NAME, n), input[1..], s);
      assert input[1..][..n] == input[1..1 + n] && input[1..][n..] == input[1 + n..];
    }
  }

  // --------------------------------------------------------- server methods

  method ReadSocksAuth(br: Conn) returns (r: Option<Login>)
    modifies br`pos
    ensures ParseLogin(old(br.Rest())) == if r.Some? then Got(r.value, br.Rest()) else Bad(br.Rest())
  {
    hide Conn.Rest;
    ghost var input := br.Rest();
    var head := br.ReadFull(2);
    if head.None? || head.value[0] != 1 {
      return None;
    }
    var u := br.ReadFull(head.value[1]);
    if u.None? {
      return None;
    }
    var plen := br.ReadFull(1);
    if plen.None? {
      return None;
    }
    var p := br.ReadFull(plen.value[0]);
    if p.None? {
      return None;
    }
    r := Some(Login(u.value, p.value));
    ghost var n, m := |u.value|, |p.value|;
    assert input[2..][..n] == input[2..2 + n] && input[2..][n..] == input[2 + n..];
    assert input[2 + n..][1..] == input[3 + n..];
    assert input[3 + n..][..m] == input[3 + n..3 + n + m] && input[3 + n..][m..] == input[3 + n + m..];
  }

  method ReadSocksAddr(br: Conn, atyp: byte) returns (r: Option<Host>)
    modifies br`pos
    ensures ParseAddr(atyp, old(br.Rest())) == if r.Some? then Got(r.value, br.Rest()) else Bad(br.Rest())
  {
    hide Conn.Rest, HostRead;
    ghost var input := br.Rest();
    var b: Option<seq<byte>>;
    if atyp == ATYP_V4 {
      b := br.ReadFull(4);
    } else if atyp == ATYP_V6 {
      b := br.ReadFull(16);
    } else if atyp == ATYP_NAME {
      var l := br.ReadFull(1);
      if l.None? {
        return None;
      }
      b := br.ReadFull(l.value[0]);
      ghost var n := l.value[0] as nat;
      assert n < |input| ==> input[1..][..n] == input[1..1 + n] && input[1..][n..] == input[1 + n..];
    } else {
      return None;
    }
    if b.None? {
      return None;
    }
    r := Some(HostRead(atyp, b.value));
  }

  method ContainsByte(bs: seq<byte>, b: byte) returns (r: bool)
    ensures r <==> b in bs
  {
    for i := 0 to |bs|
      invariant b !in bs[..i]
    {
      if bs[i] == b {
        return true;
      }
    }
    r := false;
  }

  lemma HeadAt(run: Outcome<ServerPhase>, input: seq<byte>, s: ServerConfig)
    requires At(run, [], WantVersion, input, s)
    ensures |input| == 0 || (|input| == 1 && input[0] == VERSION) ==> run == Outcome(Closed, [], [])
    ensures |input| >= 2 && input[0] == VERSION ==> At(run, [], WantMethods(input[1]), input[2..], s)
  {
    hide At;
    if input == [] {
      Stop(run, [], WantVersion, input, s);
    } else if input[0] == VERSION {
      Quietly(run, [], WantVersion, input, s);
      if |input| == 1 {
        Stop(run, [], WantCount, input[1..], s);
      } else {
        Quietly(run, [], WantCount, input[1..], s);
        assert input[1..][1..] == input[2..];
      }
    }
  }

  lemma MethodsAt(run: Outcome<ServerPhase>, n: nat, input: seq<byte>, s: ServerConfig)
    requires At(run, [], WantMethods(n), input, s)
    ensures |input| < n ==> run == Outcome(Closed, [], [])
    ensures |input| >= n && ServerMethod(s) !in input[..n] ==>
              run == Outcome(Closed, [VERSION, NOT_ACCEPTABLE], input[n..])
    ensures |input| >= n && ServerMethod(s) in input[..n] ==>
              At(run, [VERSION, ServerMethod(s)], if s.authEnabled then WantAuthHead else WantRequest, input[n..], s)
  {
    hide At;
    if |input| < n {
      Stop(run, [], WantMethods(n), input, s);
    } else {
      Advance(run, [], WantMethods(n), input, s);
      assert [] + [VERSION, NOT_ACCEPTABLE] == [VERSION, NOT_ACCEPTABLE];
      assert [] + [VERSION, ServerMethod(s)] == [VERSION, ServerMethod(s)];
      if ServerMethod(s) !in input[..n] {
        Ended(run, [VERSION, NOT_ACCEPTABLE], input[n..], s);
      }
    }
  }

  /** The second half of handleSOCKS: the request, the dial and the reply. */
  method ServeRequest(br: Conn, s: ServerConfig) returns (end: ServerPhase)
    modifies br
    ensures var run := RunServer(WantRequest, old(br.Rest()), s);
            end == run.phase && br.sent == old(br.sent) + run.sent && br.Rest() == run.rest
  {
    hide At, Conn.Rest, RunServer, ParseAddr;
    assert && [] + Reply(7) == Reply(7) && [] + Reply(4) == Reply(4) && [] + Reply(1) == Reply(1)
           && [] + Reply(0) == Reply(0);
    ghost var input := br.Rest();
    ghost var run := RunServer(WantRequest, input, s);
    Begin(WantRequest, input, s);
    RequestAt(run, input, s);
    var req := br.ReadFull(4);
    if req.None? {
      return Closed;
    }
    if req.value[0] != VERSION || req.value[1] != 1 {
      br.Write(Reply(7));
      return Closed;
    }
    var host := ReadSocksAddr(br, req.value[3]);
    if host.None? {
      br.Write(Reply(4));
      return Closed;
    }
    input := br.Rest();
    var portb := br.ReadFull(2);
    if portb.None? {
      Stop(run, [], WantPort(host.value), input, s);
      return Closed;
    }
    Quietly(run, [], WantPort(host.value), input, s);
    var target := Target(host.value, PortOf(portb.value));
    Dialed(run, [], target, br.Rest(), s);
    if !s.dials(target) {
      br.Write(Reply(1));
      return Closed;
    }
    br.Write(Reply(0));
    end := Tunnel(target);
  }

  lemma RequestAt(run: Outcome<ServerPhase>, input: seq<byte>, s: ServerConfig)
    requires At(run, [], WantRequest, input, s)
    ensures |input| < 4 ==> run == Outcome(Closed, [], [])
    ensures |input| >= 4 && (input[0] != VERSION || input[1] != 1) ==> run == Outcome(Closed, Reply(7), input[4..])
    ensures |input| >= 4 && input[0] == VERSION && input[1] == 1 ==>
              match ParseAddr(input[3], input[4..])
              case Bad(rest) => run == Outcome(Closed, Reply(4), rest)
              case Got(h, rest) => At(run, [], WantPort(h), rest, s)
  {
    hide At;
    assert [] + Reply(7) == Reply(7) && [] + Reply(4) == Reply(4);
    if |input| < 4 {
      Stop(run, [], WantRequest, input, s);
      return;
    }
    Advance(run, [], WantRequest, input, s);
    if input[0] != VERSION || input[1] != 1 {
      Ended(run, Reply(7), input[4..], s);
    } else if KnownType(input[3]) {
      Quietly(run, [], WantRequest, input, s);
      AddrAt(run, [], input[3], input[4..], s);
    } else {
      Ended(run, Reply(4), input[4..], s);
    }
  }

  lemma Resume(run: Outcome<ServerPhase>, wrote: seq<byte>, input: seq<byte>, s: ServerConfig)
    requires At(run, wrote, WantRequest, input, s)
    ensures run == After(wrote, RunServer(WantRequest, input, s))
  {
  }

  /** The server's side of the handshake; a first byte that is not 5 ends it without a word. */
  method HandleSocks(br: Conn, s: ServerConfig) returns (end: ServerPhase)
    modifies br
    ensures var input := old(br.Rest());
            if input != [] && input[0] != VERSION
              then end == Closed && br.sent == old(br.sent) && br.Rest() == input[1..]
            else
              var run := RunServer(WantVersion, input, s);
              end == run.phase && br.sent == old(br.sent) + run.sent && br.Rest() == run.rest
  {
    hide At, Conn.Rest, RunServer, ParseLogin;
    ghost var sent0 := br.sent;
    ghost var input := br.Rest();
    ghost var run := RunServer(WantVersion, input, s);
    Begin(WantVersion, input, s);
    HeadAt(run, input, s);
    var ver := br.ReadFull(1);
    if ver.None? || ver.value[0] != VERSION {
      return Closed;
    }
    var nm := br.ReadFull(1);
    if nm.None? {
      return Closed;
    }
    assert input[1..][1..] == input[2..];
    MethodsAt(run, nm.value[0], br.Rest(), s);
    var methods := br.ReadFull(nm.value[0]);
    if methods.None? {
      return Closed;
    }
    var m := NO_AUTH;
    if s.authEnabled {
      m := USER_PASS;
    }
    var offered := ContainsByte(methods.value, m);
    if !offered {
      br.Write([VERSION, NOT_ACCEPTABLE]);
      return Closed;
    }
    br.Write([VERSION, m]);
    ghost var wrote := [VERSION, m];
    if s.authEnabled {
      LoginAt(run, wrote, br.Rest(), s);
      var l := ReadSocksAuth(br);
      if l.None? {
        return Closed;
      }
      if !s.accepts(l.value.user, l.value.pass) {
        br.Write([1, 1]);
        return Closed;
      }
      br.Write([1, 0]);
      wrote := wrote + [1, 0];
    }
    assert br.sent == sent0 + wrote;
    ghost var rest := br.Rest();
    end := ServeRequest(br, s);
    assert run == After(wrote, RunServer(WantRequest, rest, s)) by {
      Resume(run, wrote, rest, s);
    }
    assert (sent0 + wrote) + RunServer(WantRequest, rest, s).sent ==
             sent0 + (wrote + RunServer(WantRequest, rest, s).sent);
  }

  /** A connection's first byte decides its protocol; HTTP is not part of this model. */
  method HandleConn(br: Conn, s: ServerConfig) returns (end: ServerPhase)
    modifies br
    ensures var run := RunServer(WantVersion, old(br.Rest()), s);
            && end == run.phase && br.sent == old(br.sent) + run.sent
            && (end != OtherProtocol ==> br.Rest() == run.rest)
            && (end == OtherProtocol <==> old(br.Rest()) != [] && old(br.Rest())[0] != VERSION)
  {
    assert br.sent + [] == br.sent;
    if br.pos >= |br.stream| {
      return Closed;
    }
    if br.stream[br.pos] != VERSION {
      return OtherProtocol;
    }
    hide RunServer;
    NeverOther(WantCount, br.Rest()[1..], s);
    Begin(WantVersion, br.Rest(), s);
    Quietly(RunServer(WantVersion, br.Rest(), s), [], WantVersion, br.Rest(), s);
    end := HandleSocks(br, s);
  }

  lemma {:induction false} NeverOther(p: ServerPhase, input: seq<byte>, s: ServerConfig)
    requires p != OtherProtocol && p != WantVersion
    ensures RunServer(p, input, s).phase != OtherProtocol
    decreases ServerRank(p)
  {
    if ServerReading(p) && ServerNeed(p) <= |input| {
      var n := ServerNeed(p);
      ServerMoves(p, input[..n], s);
      NeverOther(ServerNext(p, input[..n], s).0, input[n..], s);
    }
  }

  // ---------------------------------------------------------------- client

  lemma ClientStops(p: ClientPhase, input: seq<byte>, c: ClientConfig)
    requires c.Ok() && ClientReading(p) && |input| < ClientNeed(p)
    ensures RunClient(p, input, c) == Outcome(Failed, [], [])
  {
  }

  lemma ClientReads(p: ClientPhase, input: seq<byte>, c: ClientConfig)
    requires c.Ok() && ClientReading(p) && ClientNeed(p) <= |input|
    ensures var (q, sent) := ClientNext(p, input[..ClientNeed(p)], c);
            RunClient(p, input, c) == After(sent, RunClient(q, input[ClientNeed(p)..], c))
  {
  }

  lemma ClientReadsQuietly(p: ClientPhase, input: seq<byte>, c: ClientConfig)
    requires c.Ok() && ClientReading(p) && ClientNeed(p) <= |input|
    requires ClientNext(p, input[..ClientNeed(p)], c).1 == []
    ensures RunClient(p, input, c) == RunClient(ClientNext(p, input[..ClientNeed(p)], c).0, input[ClientNeed(p)..], c)
  {
    hide RunClient, ClientNext, ClientNeed;
    ClientReads(p, input, c);
    assert forall o: Outcome<ClientPhase> :: After([], o) == o;
  }

  lemma ClientEnds(p: ClientPhase, input: seq<byte>, c: ClientConfig)
    requires c.Ok() && (p == Connected || p == Failed)
    ensures RunClient(p, input, c) == Outcome(p, [], input)
  {
  }

  /** Skips the bound address and port of a reply, whose type has just been read. */
  method SkipBound(conn: Conn, atyp: byte, ghost c: ClientConfig) returns (ok: bool)
    requires c.Ok()
    modifies conn`pos
    ensures RunClient(ClientNext(WantBound, [0, atyp], c).0, old(conn.Rest()), c)
            == Outcome(if ok then Connected else Failed, [], conn.Rest())
  {
    hide Conn.Rest, RunClient;
    var skip := 0;
    ghost var input := conn.Rest();
    if atyp == ATYP_V4 {
      skip := 4;
    } else if atyp == ATYP_V6 {
      skip := 16;
    } else if atyp == ATYP_NAME {
      var one := conn.ReadFull(1);
      if one.None? {
        ClientStops(WantLength, input, c);
        return false;
      }
      ClientReadsQuietly(WantLength, input, c);
      skip := one.value[0];
    } else {
      ClientEnds(Failed, conn.Rest(), c);
      return false;
    }
    if skip > 0 {
      input := conn.Rest();
      var skipped := conn.ReadFull(skip);
      if skipped.None? {
        ClientStops(WantSkip(skip), input, c);
        return false;
      }
      ClientReadsQuietly(WantSkip(skip), input, c);
    }
    input := conn.Rest();
    var tail := conn.ReadFull(2);
    if tail.None? {
      ClientStops(WantTail, input, c);
      return false;
    }
    ClientReadsQuietly(WantTail, input, c);
    ClientEnds(Connected, conn.Rest(), c);
    ok := true;
  }

  /** The last part of the dial, after the request is sent: the reply. */
  method ReadReply(conn: Conn, ghost c: ClientConfig) returns (ok: bool)
    requires c.Ok()
    modifies conn`pos
    ensures RunClient(WantReply, old(conn.Rest()), c) == Outcome(if ok then Connected else Failed, [], conn.Rest())
  {
    hide Conn.Rest, RunClient;
    ghost var input := conn.Rest();
    var head := conn.ReadFull(2);
    if head.None? {
      ClientStops(WantReply, input, c);
      return false;
    }
    ClientReadsQuietly(WantReply, input, c);
    if head.value[0] != VERSION || head.value[1] != 0 {
      ClientEnds(Failed, conn.Rest(), c);
      return false;
    }
    input := conn.Rest();
    var bound := conn.ReadFull(2);
    if bound.None? {
      ClientStops(WantBound, input, c);
      return false;
    }
    ClientReadsQuietly(WantBound, input, c);
    ok := SkipBound(conn, bound.value[1], c);
  }

  lemma Greets(input: seq<byte>, c: ClientConfig)
    requires c.Ok()
    ensures RunClient(Fresh, input, c) == After(Greeting(c), RunClient(WantMethod, input, c))
  {
  }

  lemma MethodAnswered(input: seq<byte>, c: ClientConfig)
    requires c.Ok() && |input| >= 2
    ensures RunClient(WantMethod, input, c) ==
            if input[0] != VERSION || (input[1] != NO_AUTH && input[1] != USER_PASS)
              then Outcome(Failed, [], input[2..])
            else if input[1] == NO_AUTH then After(SendRequest(c).1, RunClient(SendRequest(c).0, input[2..], c))
            else if c.AccountFits() then After(AuthMessage(c), RunClient(WantStatus, input[2..], c))
            else Outcome(Failed, [], input[2..])
  {
    hide RunClient, SendRequest;
    ClientReads(WantMethod, input, c);
    ClientEnds(Failed, input[2..], c);
  }

  lemma StatusAnswered(input: seq<byte>, c: ClientConfig)
    requires c.Ok() && |input| >= 2
    ensures RunClient(WantStatus, input, c) ==
            if input[1] != 0 then Outcome(Failed, [], input[2..])
            else After(SendRequest(c).1, RunClient(SendRequest(c).0, input[2..], c))
  {
    hide RunClient, SendRequest;
    ClientReads(WantStatus, input, c);
    ClientEnds(Failed, input[2..], c);
  }

  /** Sends the request and reads its reply; a target that does not parse, or whose host is too long, ends the dial. */
  method AskFor(conn: Conn, c: ClientConfig) returns (ok: bool)
    requires c.Ok()
    modifies conn
    ensures var run := After(SendRequest(c).1, RunClient(SendRequest(c).0, old(conn.Rest()), c));
            && run.phase == (if ok then Connected else Failed)
            && conn.sent == old(conn.sent) + run.sent && conn.Rest() == run.rest
  {
    hide Conn.Rest, RunClient;
    if c.target.None? {
      ClientEnds(Failed, conn.Rest(), c);
      return false;
    }
    var t := c.target.value;
    var req := [VERSION, 1, 0];
    if t.host.IP? {
      if IsV4(t.host.bytes) {
        req := req + [ATYP_V4] + t.host.bytes[12..];
      } else {
        req := req + [ATYP_V6] + t.host.bytes;
      }
    } else {
      if |t.host.text| > 255 {
        ClientEnds(Failed, conn.Rest(), c);
        return false;
      }
      req := req + [ATYP_NAME, |t.host.text|] + t.host.text;
    }
    req := req + [t.port / 256 % 256, t.port % 256];
    assert req == RequestMessage(t);
    conn.Write(req);
    ok := ReadReply(conn, c);
  }

  /** A client run that has written `wrote` and goes on from phase p with this input still unread. */
  ghost predicate ClientAt(run: Outcome<ClientPhase>, wrote: seq<byte>, p: ClientPhase, input: seq<byte>,
                           c: ClientConfig)
    requires c.Ok()
  {
    run == After(wrote, RunClient(p, input, c))
  }

  /** Or goes on by sending its request. */
  ghost predicate Asking(run: Outcome<ClientPhase>, wrote: seq<byte>, input: seq<byte>, c: ClientConfig)
    requires c.Ok()
  {
    run == After(wrote, After(SendRequest(c).1, RunClient(SendRequest(c).0, input, c)))
  }

  lemma GreetedAt(input: seq<byte>, c: ClientConfig)
    requires c.Ok()
    ensures ClientAt(RunClient(Fresh, input, c), Greeting(c), WantMethod, input, c)
  {
    Greets(input, c);
  }

  lemma CutOffAt(run: Outcome<ClientPhase>, wrote: seq<byte>, p: ClientPhase, input: seq<byte>, c: ClientConfig)
    requires c.Ok() && ClientAt(run, wrote, p, input, c) && ClientReading(p) && |input| < ClientNeed(p)
    ensures run == Outcome(Failed, wrote, [])
  {
    hide RunClient;
    ClientStops(p, input, c);
    assert wrote + [] == wrote;
  }

  lemma MethodAt(run: Outcome<ClientPhase>, wrote: seq<byte>, input: seq<byte>, c: ClientConfig)
    requires c.Ok() && ClientAt(run, wrote, WantMethod, input, c) && |input| >= 2
    ensures if input[0] != VERSION || (input[1] != NO_AUTH && input[1] != USER_PASS)
            then run == Outcome(Failed, wrote, input[2..])
            else if input[1] == NO_AUTH then Asking(run, wrote, input[2..], c)
            else if c.AccountFits() then ClientAt(run, wrote + AuthMessage(c), WantStatus, input[2..], c)
            else run == Outcome(Failed, wrote, input[2..])
  {
    hide RunClient, SendRequest, AuthMessage;
    MethodAnswered(input, c);
    assert wrote + [] == wrote;
    var o := RunClient(WantStatus, input[2..], c);
    assert c.AccountFits() ==> wrote + (AuthMessage(c) + o.sent) == (wrote + AuthMessage(c)) + o.sent;
  }

  lemma StatusAt(run: Outcome<ClientPhase>, wrote: seq<byte>, input: seq<byte>, c: ClientConfig)
    requires c.Ok() && ClientAt(run, wrote, WantStatus, input, c) && |input| >= 2
    ensures if input[1] != 0 then run == Outcome(Failed, wrote, input[2..]) else Asking(run, wrote, input[2..], c)
  {
    hide RunClient, SendRequest;
    StatusAnswered(input, c);
    assert wrote + [] == wrote;
  }

  lemma AskedAt(run: Outcome<ClientPhase>, wrote: seq<byte>, input: seq<byte>, c: ClientConfig, sent0: seq<byte>)
    requires c.Ok() && Asking(run, wrote, input, c)
    ensures var asked := After(SendRequest(c).1, RunClient(SendRequest(c).0, input, c));
            && run.phase == asked.phase && run.rest == asked.rest
            && sent0 + run.sent == (sent0 + wrote) + asked.sent
  {
    hide RunClient, SendRequest;
  }

  /** The client's side of the handshake, once connected. */
  method DialSocks5(conn: Conn, c: ClientConfig) returns (ok: bool)
    requires c.Ok()
    modifies conn
    ensures var run := RunClient(Fresh, old(conn.Rest()), c);
            && run.phase == (if ok then Connected else Failed)
            && conn.sent == old(conn.sent) + run.sent && conn.Rest() == run.rest
  {
    hide Conn.Rest, RunClient, SendRequest, ClientAt, Asking, HostOk;
    ghost var sent0 := conn.sent;
    ghost var input := conn.Rest();
    ghost var run := RunClient(Fresh, input, c);
    ghost var wrote := Greeting(c);
    GreetedAt(input, c);
    var methods := [NO_AUTH];
    if c.user != [] || c.pass != [] {
      methods := methods + [USER_PASS];
    }
    conn.Write([VERSION] + ([|methods|] + methods));
    assert conn.sent == sent0 + wrote;
    hide Greeting;
    var buf := conn.ReadFull(2);
    if buf.None? {
      CutOffAt(run, wrote, WantMethod, input, c);
      return false;
    }
    MethodAt(run, wrote, input, c);
    if buf.value[0] != VERSION {
      return false;
    }
    if buf.value[1] == USER_PASS {
      if |c.user| > 255 || |c.pass| > 255 {
        return false;
      }
      conn.Write([1, |c.user|] + (c.user + ([|c.pass|] + c.pass)));
      assert (sent0 + wrote) + AuthMessage(c) == sent0 + (wrote + AuthMessage(c));
      wrote := wrote + AuthMessage(c);
      assert conn.sent == sent0 + wrote;
      hide AuthMessage;
      input := conn.Rest();
      buf := conn.ReadFull(2);
      if buf.None? {
        CutOffAt(run, wrote, WantStatus, input, c);
        return false;
      }
      StatusAt(run, wrote, input, c);
      if buf.value[1] != 0 {
        return false;
      }
    } else if buf.value[1] != NO_AUTH {
      return false;
    }
    AskedAt(run, wrote, conn.Rest(), c, sent0);
    ok := AskFor(conn, c);
  }

  // ------------------------------------------------------------- the reply

  /** How many bytes of bound address a success reply announces after its first four. */
  function BoundLength(input: seq<byte>): Option<nat> {
    if |input| < 4 || input[0] != 5 || input[1] != 0 then None
    else if input[3] == 1 then Some(4)
    else if input[3] == 4 then Some(16)
    else if input[3] == 3 && |input| >= 5 then Some(1 + input[4] as nat)
    else None
  }

  lemma SkipsExactly(n: nat, input: seq<byte>, c: ClientConfig)
    requires c.Ok()
    ensures RunClient(WantSkip(n), input, c) ==
            if |input| >= n + 2 then Outcome(Connected, [], input[n + 2..]) else Outcome(Failed, [], [])
    ensures RunClient(WantTail, input, c) == if |input| >= 2 then Outcome(Connected, [], input[2..])
              else Outcome(Failed, [], [])
  {
    if |input| >= 2 {
      ClientReadsQuietly(WantTail, input, c);
    }
    if |input| >= n {
      ClientReadsQuietly(WantSkip(n), input, c);
      var rest := input[n..];
      if |rest| >= 2 {
        ClientReadsQuietly(WantTail, rest, c);
        assert rest[2..] == input[n + 2..];
      }
    }
  }

  /** The client succeeds exactly on a whole success reply, and reads that reply to its last byte and no further. */
  lemma ReplyReadExactly(input: seq<byte>, c: ClientConfig)
    requires c.Ok()
    ensures var run := RunClient(WantReply, input, c); var n := BoundLength(input);
            && run.sent == []
            && (run.phase == Connected <==> n.Some? && |input| >= 4 + n.value + 2)
            && (run.phase == Connected ==> run.rest == input[4 + n.value + 2..])
  {
    hide RunClient;
    if |input| < 2 {
      ClientStops(WantReply, input, c);
      return;
    }
    ClientReadsQuietly(WantReply, input, c);
    if input[0] != VERSION || input[1] != 0 {
      ClientEnds(Failed, input[2..], c);
      return;
    }
    if |input| < 4 {
      ClientStops(WantBound, input[2..], c);
      return;
    }
    ClientReadsQuietly(WantBound, input[2..], c);
    var rest := input[4..];
    assert input[2..][2..] == rest && input[2..][1] == input[3];
    if input[3] == ATYP_V4 || input[3] == ATYP_V6 {
      SkipsExactly(if input[3] == ATYP_V4 then 4 else 16, rest, c);
    } else if input[3] != ATYP_NAME {
      ClientEnds(Failed, rest, c);
    } else if rest == [] {
      ClientStops(WantLength, rest, c);
    } else {
      ClientReadsQuietly(WantLength, rest, c);
      SkipsExactly(rest[0], rest[1..], c);
      assert rest[0] == input[4] && rest[1..] == input[5..];
    }
  }

  /** The server's success reply is ten bytes, and whatever the tunnel sends right behind it is left for the tunnel. */
  lemma TenBytesRead(tunnelled: seq<byte>, c: ClientConfig)
    requires c.Ok()
    ensures |Reply(0)| == 10
    ensures RunClient(WantReply, Reply(0) + tunnelled, c) == Outcome(Connected, [], tunnelled)
  {
    hide RunClient;
    var input := Reply(0) + tunnelled;
    assert input[0] == VERSION && input[1] == 0 && input[3] == ATYP_V4;
    ReplyReadExactly(input, c);
    assert input[10..] == tunnelled;
  }

  // ---------------------------------------------------------- on the wire

  /** The reply of section 6 of RFC 1928 with this code and an empty address. */
  function ReplyBytes(code: byte): seq<byte> {
    [5, code, 0, 1, 0, 0, 0, 0, 0, 0]
  }

  /** The request of section 4: the host as four bytes, sixteen bytes or a counted name, and two bytes of port. */
  lemma RequestBytes(t: Target)
    requires HostOk(t.host) && |AddrBytes(t.host)| <= 255
    ensures var port := [t.port / 256 % 256, t.port % 256];
            RequestMessage(t) ==
              if t.host.Name? then [5, 1, 0, 3, |t.host.text|] + t.host.text + port
              else if t.host.bytes[..12] == [0, 0, 0, 0, 0, 0, 0, 0, 0, 0, 255, 255]
              then [5, 1, 0, 1] + t.host.bytes[12..] + port
              else [5, 1, 0, 4] + t.host.bytes + port
  {
  }

  /** What the client says first: section 3 of RFC 1928, offering a login only if it has an account. */
  function Hello(c: ClientConfig): seq<byte> {
    if c.user == [] && c.pass == [] then [5, 1, 0] else [5, 2, 0, 2]
  }

  lemma GreetingBytes(c: ClientConfig)
    ensures Greeting(c) == Hello(c)
  {
  }

  /** Answered that no login is needed, the client asks for its target and is connected by the success reply. */
  lemma ClientTalks(c: ClientConfig, tunnelled: seq<byte>)
    requires c.Ok() && c.TargetFits()
    ensures RunClient(Fresh, [5, 0] + (ReplyBytes(0) + tunnelled), c) ==
            Outcome(Connected, Hello(c) + RequestMessage(c.target.value), tunnelled)
  {
    hide RunClient, RequestMessage, Greeting, Hello;
    var rest := ReplyBytes(0) + tunnelled;
    var input := [5, 0] + rest;
    assert input[2..] == rest;
    Greets(input, c);
    GreetingBytes(c);
    MethodAnswered(input, c);
    TenBytesRead(tunnelled, c);
    assert RequestMessage(c.target.value) + [] == RequestMessage(c.target.value);
  }

  /** Asked to log in, it sends user and password as section 2 of RFC 1929 has it, and goes on once accepted. */
  lemma ClientLogsIn(c: ClientConfig, tunnelled: seq<byte>)
    requires c.Ok() && c.TargetFits() && |c.user| <= 255 && |c.pass| <= 255
    ensures RunClient(Fresh, [5, 2] + ([1, 0] + (ReplyBytes(0) + tunnelled)), c) ==
            Outcome(Connected,
                    Hello(c) + (([1, |c.user|] + c.user + [|c.pass|] + c.pass) + RequestMessage(c.target.value)),
                    tunnelled)
  {
    hide RunClient, RequestMessage, Greeting, Hello;
    var rest := ReplyBytes(0) + tunnelled;
    var status := [1, 0] + rest;
    var input := [5, 2] + status;
    assert input[2..] == status && status[2..] == rest;
    Greets(input, c);
    GreetingBytes(c);
    MethodAnswered(input, c);
    StatusAnswered(status, c);
    TenBytesRead(tunnelled, c);
    assert RequestMessage(c.target.value) + [] == RequestMessage(c.target.value);
    assert AuthMessage(c) == [1, |c.user|] + c.user + [|c.pass|] + c.pass;
  }

  /** It gives up on another version or method, and with an account too long for a login; then it sends nothing more. */
  lemma ClientGivesUp(c: ClientConfig, version: byte, chosen: byte, rest: seq<byte>)
    requires c.Ok()
    requires version != 5 || (chosen != 0 && chosen != 2) || (chosen == 2 && (|c.user| > 255 || |c.pass| > 255))
    ensures RunClient(Fresh, [version, chosen] + rest, c) == Outcome(Failed, Hello(c), rest)
  {
    hide RunClient, Greeting, Hello;
    var input := [version, chosen] + rest;
    assert input[2..] == rest;
    Greets(input, c);
    GreetingBytes(c);
    MethodAnswered(input, c);
    assert Hello(c) + [] == Hello(c);
  }

  /** And on a refused login. */
  lemma ClientRefused(c: ClientConfig, status: byte, rest: seq<byte>)
    requires c.Ok() && |c.user| <= 255 && |c.pass| <= 255 && status != 0
    ensures RunClient(Fresh, [5, 2] + ([1, status] + rest), c) ==
            Outcome(Failed, Hello(c) + ([1, |c.user|] + c.user + [|c.pass|] + c.pass), rest)
  {
    hide RunClient, Greeting, Hello;
    var answer := [1, status] + rest;
    var input := [5, 2] + answer;
    assert input[2..] == answer && answer[2..] == rest;
    Greets(input, c);
    GreetingBytes(c);
    MethodAnswered(input, c);
    StatusAnswered(answer, c);
    assert AuthMessage(c) == [1, |c.user|] + c.user + [|c.pass|] + c.pass;
    assert AuthMessage(c) + [] == AuthMessage(c);
  }

  /** The server takes the one method its configuration asks for, or refuses all. */
  lemma ServerGreets(methods: seq<byte>, rest: seq<byte>, s: ServerConfig)
    requires |methods| <= 255
    ensures var run := RunServer(WantVersion, [5, |methods|] + (methods + rest), s);
            var wanted := if s.authEnabled then 2 else 0;
            if wanted in methods
            then run == After([5, wanted], RunServer(if s.authEnabled then WantAuthHead else WantRequest, rest, s))
            else run == Outcome(Closed, [5, 255], rest)
  {
    hide RunServer;
    var input := [5, |methods|] + (methods + rest);
    var run := RunServer(WantVersion, input, s);
    Begin(WantVersion, input, s);
    HeadAt(run, input, s);
    assert input[2..] == methods + rest;
    MethodsAt(run, |methods|, methods + rest, s);
    assert (methods + rest)[..|methods|] == methods && (methods + rest)[|methods|..] == rest;
  }

  /** It answers a login with success or failure, and goes on only after a success. */
  lemma ServerChecksLogin(user: seq<byte>, pass: seq<byte>, rest: seq<byte>, s: ServerConfig)
    requires |user| <= 255 && |pass| <= 255
    ensures RunServer(WantAuthHead, [1, |user|] + user + [|pass|] + pass + rest, s) ==
            if s.accepts(user, pass) then After([1, 0], RunServer(WantRequest, rest, s))
            else Outcome(Closed, [1, 1], rest)
  {
    hide RunServer, ParseLogin;
    var c := ClientConfig(user, pass, None);
    var input := [1, |user|] + user + [|pass|] + pass + rest;
    assert input == AuthMessage(c) + rest;
    LoginReadBack(c, rest);
    var run := RunServer(WantAuthHead, input, s);
    Begin(WantAuthHead, input, s);
    LoginAt(run, [], input, s);
    assert [] + [1, 0] == [1, 0] && [] + [1, 1] == [1, 1];
  }

  /** It dials the host in each of the three forms at the port of the two bytes behind it, and replies with success or a
      general failure. */
  lemma ServerServes(host: Host, high: byte, low: byte, rest: seq<byte>, s: ServerConfig)
    requires HostOk(host) && |AddrBytes(host)| <= 255
    ensures var t := Target(host, 256 * (high as int) + low);
            var request := if host.Name? then [5, 1, 0, 3, |host.text|] + host.text
                           else if host.bytes[..12] == [0, 0, 0, 0, 0, 0, 0, 0, 0, 0, 255, 255]
                           then [5, 1, 0, 1] + host.bytes[12..] else [5, 1, 0, 4] + host.bytes;
            RunServer(WantRequest, request + ([high, low] + rest), s) ==
              if s.dials(t) then Outcome(Tunnel(t), ReplyBytes(0), rest) else Outcome(Closed, ReplyBytes(1), rest)
  {
    hide RunServer, ParseAddr;
    var addr := LengthByte(host) + AddrBytes(host) + ([high, low] + rest);
    var input := [5, 1, 0, AddrType(host)] + addr;
    assert input[4..] == addr;
    AddrReadBack(host, [high, low] + rest);
    var run := RunServer(WantRequest, input, s);
    Begin(WantRequest, input, s);
    RequestAt(run, input, s);
    PortServed(run, host, high, low, rest, s);
    RequestForm(host, high, low, rest);
  }

  lemma RequestForm(host: Host, high: byte, low: byte, rest: seq<byte>)
    requires HostOk(host) && |AddrBytes(host)| <= 255
    ensures var request := if host.Name? then [5, 1, 0, 3, |host.text|] + host.text
                           else if host.bytes[..12] == [0, 0, 0, 0, 0, 0, 0, 0, 0, 0, 255, 255]
                           then [5, 1, 0, 1] + host.bytes[12..] else [5, 1, 0, 4] + host.bytes;
            [5, 1, 0, AddrType(host)] + (LengthByte(host) + AddrBytes(host) + ([high, low] + rest)) ==
              request + ([high, low] + rest)
  {
  }

  lemma PortServed(run: Outcome<ServerPhase>, host: Host, high: byte, low: byte, rest: seq<byte>, s: ServerConfig)
    requires At(run, [], WantPort(host), [high, low] + rest, s)
    ensures var t := Target(host, 256 * (high as int) + low);
            run == if s.dials(t) then Outcome(Tunnel(t), ReplyBytes(0), rest) else Outcome(Closed, ReplyBytes(1), rest)
  {
    hide RunServer;
    var input := [high, low] + rest;
    assert input[..2] == [high, low] && input[2..] == rest;
    var t := Target(host, 256 * (high as int) + low);
    assert PortOf(input[..2]) == t.port;
    Quietly(run, [], WantPort(host), input, s);
    Dialed(run, [], t, rest, s);
    assert [] + Reply(0) == ReplyBytes(0) && [] + Reply(1) == ReplyBytes(1);
  }

  /** Any other version or command is refused with code 7, any other address type with code 4. */
  lemma ServerRefuses(version: byte, command: byte, reserved: byte, atyp: byte, rest: seq<byte>, s: ServerConfig)
    ensures var run := RunServer(WantRequest, [version, command, reserved, atyp] + rest, s);
            && (version != 5 || command != 1 ==> run == Outcome(Closed, ReplyBytes(7), rest))
            && (version == 5 && command == 1 && atyp != 1 && atyp != 3 && atyp != 4 ==>
                  run == Outcome(Closed, ReplyBytes(4), rest))
  {
    hide RunServer;
    var input := [version, command, reserved, atyp] + rest;
    assert input[4..] == rest;
    Begin(WantRequest, input, s);
    RequestAt(RunServer(WantRequest, input, s), input, s);
  }

  /** A request that breaks off: only inside the address is there an answer, with code 4. */
  lemma ServerCutOff(atyp: byte, bytes: seq<byte>, s: ServerConfig)
    requires |bytes| < (if atyp == 1 then 4 else if atyp == 4 then 16 else 1)
    ensures atyp == 1 || atyp == 3 || atyp == 4 ==>
              RunServer(WantRequest, [5, 1, 0, atyp] + bytes, s) == Outcome(Closed, ReplyBytes(4), [])
    ensures |bytes| < 4 ==> RunServer(WantRequest, bytes, s) == Outcome(Closed, [], [])
    ensures |bytes| < 2 ==> forall host :: RunServer(WantPort(host), bytes, s) == Outcome(Closed, [], [])
  {
    hide RunServer;
    var input := [5, 1, 0, atyp] + bytes;
    assert input[4..] == bytes;
    Begin(WantRequest, input, s);
    RequestAt(RunServer(WantRequest, input, s), input, s);
    Begin(WantRequest, bytes, s);
    RequestAt(RunServer(WantRequest, bytes, s), bytes, s);
    if |bytes| < 2 {
      forall host ensures RunServer(WantPort(host), bytes, s) == Outcome(Closed, [], []) {
        Begin(WantPort(host), bytes, s);
        Stop(RunServer(WantPort(host), bytes, s), [], WantPort(host), bytes, s);
      }
    }
  }

  lemma NameCutOff(length: byte, bytes: seq<byte>, s: ServerConfig)
    requires |bytes| < length as nat
    ensures RunServer(WantRequest, [5, 1, 0, 3, length] + bytes, s) == Outcome(Closed, ReplyBytes(4), [])
  {
    hide RunServer;
    var input := [5, 1, 0, 3, length] + bytes;
    assert input[4..] == [length] + bytes;
    Begin(WantRequest, input, s);
    RequestAt(RunServer(WantRequest, input, s), input, s);
  }
}
