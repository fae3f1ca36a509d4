/** How two proxies set up a device (daemon/conn.c:74-274, daemon/proxy.c:73-166). The
    proxy at the client's side connects, the one at the server's side answers, and either
    may fail, or be stopped, at any point. */
module Session {
  import opened Bytes
  import opened Protocol

  /** NETDEV_PROTOCOL_VERSION as each side was compiled. It counts changes of the protocol
      and stands at 2. */
  type Version = v: int | 0 < v < 0x1_0000 witness 2

  /** A character of a C string. */
  type Character = b: byte | b != 0 witness 1

  /** `repaired`: whatever the handshake finds wrong ends the session. As it is written
      conn_server keeps the 0 of a successful connect, and conn_client returns a version
      number that its caller does not take for a failure. */
  datatype Config = Config(client: Version, server: Version, name: seq<Character>, repaired: bool)

  datatype Message = Message(msgtype: int, payload: seq<byte>)

  datatype ClientAt = SendVersion | RecvVersion | SendReg | RecvReg | RegisterDummy | ClientLoop | ClientOver

  datatype ServerAt =
    | AwaitVersion
    | SendReply(msgtype: int, reply: int32)
    | AwaitReg
    | RegisterServer(size: nat)
    | SendRegReply(size: nat)
    | ServerLoop
    | ServerOver

  datatype Event = RemoteRegistered | RemoteReplied | DummyRegistered | RemoteGone | DummyGone

  /** All that was sent each way, how much of it was read, and what happened to the two
      kernels, in order. */
  datatype State = State(
    client: ClientAt,
    server: ServerAt,
    toServer: seq<Message>,
    serverRead: nat,
    toClient: seq<Message>,
    clientRead: nat,
    log: seq<Event>)

  const CONNECTED := State(SendVersion, AwaitVersion, [], 0, [], 0, [])

  /** What a registration with the kernel comes to: refused, done and confirmed, or done
      with the confirmation not understood. */
  datatype Registration = Refused | Confirmed | Unconfirmed

  /** `ok` is false when the socket reports an error. `junk` is what lies in memory after
      a buffer that is read past its end. */
  datatype Step =
    | Client(ok: bool, junk: seq<byte>)
    | Server(ok: bool, junk: seq<byte>)
    | ClientRegisters(outcome: Registration)
    | ServerRegisters(outcome: Registration)
    | ClientStops(unregisters: bool)
    | ServerStops(unregisters: bool)

  /** The `int` at the start of a buffer, which may be shorter. */
  function FirstInt(payload: seq<byte>, junk: seq<byte>): int32
    requires |junk| >= 4
  {
    ReadInt((payload + junk)[..4])
  }

  function VersionMessage(c: Config): Message {
    Message(MSGT_CONTROL_VERSION, IntBytes(c.client))
  }

  function Terminated(name: seq<Character>): seq<byte> {
    var characters: seq<byte> := name;
    characters + [0]
  }

  function RegMessage(c: Config): Message {
    Message(MSGT_CONTROL_REG_SERVER, Terminated(c.name))
  }

  /** The reply of conn_recv_dev_reg keeps the size of the request, but its buffer has
      four bytes. */
  function RegReply(size: nat, junk: seq<byte>): Message
    requires |junk| >= size
  {
    Message(MSGT_CONTROL_REG_SERVER, (IntBytes(NETDEV_PROTOCOL_SUCCESS) + junk)[..size])
  }

  predicate Waits(s: State) {
    match s.client
    case RecvVersion => s.clientRead == |s.toClient|
    case RecvReg => s.clientRead == |s.toClient|
    case _ => false
  }

  predicate ServerWaits(s: State) {
    (s.server.AwaitVersion? || s.server.AwaitReg?) && s.serverRead == |s.toServer|
  }

  predicate Enabled(s: State, e: Step) {
    match e
    case Client(ok, junk) => !s.client.RegisterDummy? && !s.client.ClientOver? && (ok ==> !Waits(s)) && |junk| >= 4
    case Server(ok, junk) =>
      && !s.server.RegisterServer? && !s.server.ServerOver? && (ok ==> !ServerWaits(s))
      && (s.server.SendRegReply? ==> |junk| >= s.server.size)
    case ClientRegisters(_) => s.client.RegisterDummy?
    case ServerRegisters(_) => s.server.RegisterServer?
    case ClientStops(_) => true
    case ServerStops(_) => true
  }

  /** conn_server, conn_send_dev_reg and the end of proxy_client. */
  function ClientStep(c: Config, s: State, ok: bool, junk: seq<byte>): State
    requires Enabled(s, Client(ok, junk)) && s.clientRead <= |s.toClient|
  {
    match s.client
    case SendVersion =>
      if ok then s.(toServer := s.toServer + [VersionMessage(c)], client := RecvVersion)
      else s.(client := if c.repaired then ClientOver else SendReg)
    case RecvVersion =>
      if !ok then s.(client := ClientOver) // as it is written the proxy crashes
      else
        var m := s.toClient[s.clientRead];
        var right := |m.payload| == 4 && FirstInt(m.payload, junk) == NETDEV_PROTOCOL_SUCCESS;
        s.(clientRead := s.clientRead + 1, client := if c.repaired && !right then ClientOver else SendReg)
    case SendReg =>
      if ok then s.(toServer := s.toServer + [RegMessage(c)], client := RecvReg)
      else s.(client := ClientOver)
    case RecvReg =>
      if !ok then s.(client := ClientOver)
      else
        var m := s.toClient[s.clientRead];
        s.(clientRead := s.clientRead + 1,
           client := if FirstInt(m.payload, junk) == NETDEV_PROTOCOL_SUCCESS then RegisterDummy else ClientOver)
    case ClientLoop => s.(client := ClientOver, log := s.log + [DummyGone])
  }

  /** conn_client, conn_recv_dev_reg and the end of proxy_server. */
  function ServerStep(c: Config, s: State, ok: bool, junk: seq<byte>): State
    requires Enabled(s, Server(ok, junk)) && s.serverRead <= |s.toServer|
  {
    match s.server
    case AwaitVersion =>
      if !ok then s.(server := ServerOver) // as it is written the proxy crashes
      else
        var m := s.toServer[s.serverRead];
        var read := s.(serverRead := s.serverRead + 1);
        if |m.payload| != 4 || (c.repaired && m.msgtype != MSGT_CONTROL_VERSION) then read.(server := ServerOver)
        else
          var reply := if ReadInt(m.payload) == c.server then NETDEV_PROTOCOL_SUCCESS else c.server;
          read.(server := SendReply(m.msgtype, reply))
    case SendReply(msgtype, reply) =>
      if !ok then s.(server := ServerOver)
      else
        s.(toClient := s.toClient + [Message(msgtype, IntBytes(reply))],
           server := if c.repaired && reply != NETDEV_PROTOCOL_SUCCESS then ServerOver else AwaitReg)
    case AwaitReg =>
      if !ok then s.(server := ServerOver) // as it is written the proxy crashes
      else
        var m := s.toServer[s.serverRead];
        s.(serverRead := s.serverRead + 1,
           server := if m.msgtype == MSGT_CONTROL_REG_SERVER then RegisterServer(|m.payload|) else ServerOver)
    case SendRegReply(size) =>
      if !ok then s.(server := ServerOver)
      else s.(toClient := s.toClient + [RegReply(size, junk)], server := ServerLoop, log := s.log + [RemoteReplied])
    case ServerLoop => s.(server := ServerOver, log := s.log + [RemoteGone])
  }

  function Apply(c: Config, s: State, e: Step): State
    requires Enabled(s, e) && s.clientRead <= |s.toClient| && s.serverRead <= |s.toServer|
  {
    match e
    case Client(ok, junk) => ClientStep(c, s, ok, junk)
    case Server(ok, junk) => ServerStep(c, s, ok, junk)
    case ClientRegisters(outcome) =>
      s.(client := if outcome.Confirmed? then ClientLoop else ClientOver,
         log := if outcome.Refused? then s.log else s.log + [DummyRegistered])
    case ServerRegisters(outcome) =>
      s.(server := if outcome.Confirmed? then SendRegReply(s.server.size) else ServerOver,
         log := if outcome.Refused? then s.log else s.log + [RemoteRegistered])
    case ClientStops(unregisters) =>
      s.(client := ClientOver, log := if unregisters then s.log + [DummyGone] else s.log)
    case ServerStops(unregisters) =>
      s.(server := ServerOver, log := if unregisters then s.log + [RemoteGone] else s.log)
  }

  ghost predicate Run(c: Config, s: State, es: seq<Step>, last: State)
    decreases |es|
  {
    if es == [] then last == s
    else
      && Enabled(s, es[0]) && s.clientRead <= |s.toClient| && s.serverRead <= |s.toServer|
      && Run(c, Apply(c, s, es[0]), es[1..], last)
  }

  ghost predicate Reachable(c: Config, s: State) {
    exists es :: Run(c, CONNECTED, es, s)
  }

  // ----- The invariant -----

  ghost predicate Before(log: seq<Event>, e: Event, f: Event, n: nat) {
    exists i, j :: 0 <= i < j < n <= |log| && log[i] == e && log[j] == f
  }

  /** Each dummy was registered after the remote device, and after the reply to that. */
  ghost predicate InOrder(log: seq<Event>) {
    forall k :: 0 <= k < |log| && log[k] == DummyRegistered ==> Before(log, RemoteRegistered, RemoteReplied, k)
  }

  /** What the client has sent and read, by where it is. */
  ghost predicate ClientSide(c: Config, s: State) {
    var version, reg := VersionMessage(c), RegMessage(c);
    && s.clientRead <= |s.toClient|
    && (s.toServer == [] || s.toServer[0] == version || s.toServer[0] == reg)
    && match s.client {
         case SendVersion => s.toServer == [] && s.clientRead == 0
         case RecvVersion => s.toServer == [version] && s.clientRead == 0
         case SendReg => (s.toServer == [] && s.clientRead == 0) || (s.toServer == [version] && s.clientRead == 1)
         case RecvReg =>
           (s.toServer == [reg] && s.clientRead == 0) || (s.toServer == [version, reg] && s.clientRead == 1)
         case RegisterDummy => |s.toClient| == 2
         case ClientLoop => |s.toClient| == 2
         case ClientOver => true
       }
  }

  /** The answer to the first message is its verdict on the version; a second one is sent
      only when the device is registered. */
  ghost predicate ServerSide(c: Config, s: State) {
    && s.serverRead <= |s.toServer|
    && |s.toClient| <= 2
    && (s.toClient != [] ==> Judged(c, s, s.toClient[0]))
    && (|s.toClient| == 2 ==> Before(s.log, RemoteRegistered, RemoteReplied, |s.log|))
    && match s.server {
         case AwaitVersion => s.toClient == [] && s.serverRead == 0
         case SendReply(_, reply) =>
           && s.toClient == [] && s.toServer != []
           && reply == Verdict(c, s.toServer[0]) && |s.toServer[0].payload| == 4
         case AwaitReg => |s.toClient| == 1
         case RegisterServer(_) => |s.toClient| == 1
         case SendRegReply(_) => |s.toClient| == 1 && RemoteRegistered in s.log
         case ServerLoop => true
         case ServerOver => true
       }
  }

  function Verdict(c: Config, first: Message): int {
    if |first.payload| == 4 && ReadInt(first.payload) == c.server then NETDEV_PROTOCOL_SUCCESS else c.server
  }

  ghost predicate Judged(c: Config, s: State, answer: Message) {
    && s.toServer != []
    && |answer.payload| == 4
    && ReadInt(answer.payload) == Verdict(c, s.toServer[0])
  }

  predicate PastHandshake(at: ClientAt) {
    at.SendReg? || at.RecvReg? || at.RegisterDummy?
  }

  /** With the error returns repaired, a client past the handshake has the same version. */
  ghost predicate Agreed(c: Config, s: State) {
    c.repaired && (PastHandshake(s.client) || DummyRegistered in s.log) ==> c.client == c.server
  }

  ghost predicate Inv(c: Config, s: State) {
    ClientSide(c, s) && ServerSide(c, s) && InOrder(s.log) && Agreed(c, s)
  }

  lemma ValueOfFour(bs: seq<byte>)
    requires |bs| == 4
    ensures Value(bs) == (bs[0] as int) + 0x100 * (bs[1] as int)
                         + 0x1_0000 * (bs[2] as int) + 0x100_0000 * (bs[3] as int)
  {
    var b1, b2, b3 := bs[1..], bs[2..], bs[3..];
    assert b3[1..] == [] && b2[1..] == b3 && b1[1..] == b2;
    assert Value(b3) == b3[0] + 0x100 * Value(b3[1..]);
    assert Value(b2) == b2[0] + 0x100 * Value(b2[1..]);
    assert Value(b1) == b1[0] + 0x100 * Value(b1[1..]);
    assert Value(bs) == bs[0] + 0x100 * Value(bs[1..]);
  }

  /** A device name is never taken for the version: none of its characters is zero. */
  lemma NameIsNoVersion(c: Config)
    ensures Verdict(c, RegMessage(c)) == c.server
  {
    var bs := Terminated(c.name);
    if |bs| == 4 {
      ValueOfFour(bs);
      assert bs[0] == c.name[0] && bs[1] == c.name[1] && bs[2] == c.name[2];
    }
  }

  lemma VersionIsRead(c: Config)
    ensures Verdict(c, VersionMessage(c)) == if c.client == c.server then NETDEV_PROTOCOL_SUCCESS else c.server
  {
    IntRoundTrip(c.client);
  }

  lemma LogGrows(log: seq<Event>, more: seq<Event>)
    requires InOrder(log)
    requires DummyRegistered in more ==> Before(log, RemoteRegistered, RemoteReplied, |log|)
    ensures InOrder(log + more)
    ensures Before(log, RemoteRegistered, RemoteReplied, |log|) ==>
              Before(log + more, RemoteRegistered, RemoteReplied, |log + more|)
    ensures forall e :: e in log + more <==> e in log || e in more
  {
    var all := log + more;
    forall k | 0 <= k < |all| && all[k] == DummyRegistered
      ensures Before(all, RemoteRegistered, RemoteReplied, k)
    {
      var n := if k < |log| then k else |log|;
      assert k >= |log| ==> all[k] == more[k - |log|];
      var i, j :| 0 <= i < j < n && log[i] == RemoteRegistered && log[j] == RemoteReplied;
      assert all[i] == RemoteRegistered && all[j] == RemoteReplied;
    }
    if Before(log, RemoteRegistered, RemoteReplied, |log|) {
      var i, j :| 0 <= i < j < |log| && log[i] == RemoteRegistered && log[j] == RemoteReplied;
      assert all[i] == RemoteRegistered && all[j] == RemoteReplied;
    }
  }

  lemma ClientKeeps(c: Config, s: State, ok: bool, junk: seq<byte>)
    requires Inv(c, s) && Enabled(s, Client(ok, junk))
    ensures Inv(c, ClientStep(c, s, ok, junk))
  {
    LogGrows(s.log, [DummyGone]);
    NameIsNoVersion(c);
    VersionIsRead(c);
    if ok && (s.client.RecvVersion? || s.client.RecvReg?) {
      var m := s.toClient[s.clientRead];
      if |m.payload| == 4 {
        assert (m.payload + junk)[..4] == m.payload;
      }
    }
  }

  lemma ServerKeeps(c: Config, s: State, ok: bool, junk: seq<byte>)
    requires Inv(c, s) && Enabled(s, Server(ok, junk))
    ensures Inv(c, ServerStep(c, s, ok, junk))
  {
    match s.server
    case SendReply(_, reply) => IntRoundTrip(reply);
    case SendRegReply(_) => ReplyLogged(s.log);
    case ServerLoop => LogGrows(s.log, [RemoteGone]);
    case _ =>
  }

  lemma ReplyLogged(log: seq<Event>)
    requires InOrder(log) && RemoteRegistered in log
    ensures InOrder(log + [RemoteReplied])
    ensures Before(log + [RemoteReplied], RemoteRegistered, RemoteReplied, |log| + 1)
    ensures forall e :: e in log + [RemoteReplied] <==> e in log || e == RemoteReplied
  {
    LogGrows(log, [RemoteReplied]);
    var i :| 0 <= i < |log| && log[i] == RemoteRegistered;
    assert (log + [RemoteReplied])[i] == RemoteRegistered && (log + [RemoteReplied])[|log|] == RemoteReplied;
  }

  lemma StepKeeps(c: Config, s: State, e: Step)
    requires Inv(c, s) && Enabled(s, e)
    ensures Inv(c, Apply(c, s, e))
  {
    match e
    case Client(ok, junk) => ClientKeeps(c, s, ok, junk);
    case Server(ok, junk) => ServerKeeps(c, s, ok, junk);
    case ClientRegisters(_) => LogGrows(s.log, [DummyRegistered]);
    case ServerRegisters(_) => LogGrows(s.log, [RemoteRegistered]);
    case ClientStops(_) => LogGrows(s.log, [DummyGone]);
    case ServerStops(_) => LogGrows(s.log, [RemoteGone]);
  }

  lemma {:induction false} RunKeeps(c: Config, s: State, es: seq<Step>, last: State)
    requires Inv(c, s) && Run(c, s, es, last)
    ensures Inv(c, last)
    decreases |es|
  {
    if es != [] {
      StepKeeps(c, s, es[0]);
      RunKeeps(c, Apply(c, s, es[0]), es[1..], last);
    }
  }

  // ----- The results -----

  /** In every run, whatever fails and whatever the versions are, the client's kernel gets
      a dummy only after the server's kernel registered the device and success was sent. */
  lemma RemoteComesFirst(c: Config, s: State, k: nat)
    requires Reachable(c, s) && k < |s.log| && s.log[k] == DummyRegistered
    ensures exists i, j :: 0 <= i < j < k && s.log[i] == RemoteRegistered && s.log[j] == RemoteReplied
  {
    var es :| Run(c, CONNECTED, es, s);
    RunKeeps(c, CONNECTED, es, s);
  }

  /** Some run gets to a dummy exactly when the versions agree or, as the code is written,
      their disagreement has no consequence. */
  lemma DummyPossibleIff(c: Config)
    ensures (exists s :: Reachable(c, s) && DummyRegistered in s.log) <==> (c.client == c.server || !c.repaired)
  {
    if s :| Reachable(c, s) && DummyRegistered in s.log {
      var es :| Run(c, CONNECTED, es, s);
      RunKeeps(c, CONNECTED, es, s);
    }
    if c.client == c.server || !c.repaired {
      var s := ReachDummy(c);
    }
  }

  lemma {:induction false} RunExtends(c: Config, s: State, es: seq<Step>, last: State, e: Step)
    requires Run(c, s, es, last) && Enabled(last, e)
    requires last.clientRead <= |last.toClient| && last.serverRead <= |last.toServer|
    ensures Run(c, s, es + [e], Apply(c, last, e))
    decreases |es|
  {
    if es == [] {
      assert (es + [e])[1..] == [];
    } else {
      RunExtends(c, Apply(c, s, es[0]), es[1..], last, e);
      assert (es + [e])[1..] == es[1..] + [e];
    }
  }

  lemma OneMore(c: Config, s: State, e: Step) returns (after: State)
    requires Reachable(c, s) && Enabled(s, e)
    requires s.clientRead <= |s.toClient| && s.serverRead <= |s.toServer|
    ensures after == Apply(c, s, e) && Reachable(c, after)
  {
    after := Apply(c, s, e);
    var es :| Run(c, CONNECTED, es, s);
    RunExtends(c, CONNECTED, es, s, e);
  }

  /** The handshake without a failure. */
  lemma ReachSendReg(c: Config, junk: seq<byte>) returns (s: State)
    requires |junk| >= 4 && (c.client == c.server || !c.repaired)
    ensures Reachable(c, s) && s.client == SendReg && s.server == AwaitReg
    ensures s.toServer == [VersionMessage(c)] && s.serverRead == 1 && |s.toClient| == 1 == s.clientRead && s.log == []
  {
    VersionIsRead(c);
    assert Run(c, CONNECTED, [], CONNECTED);
    s := OneMore(c, CONNECTED, Client(true, junk));
    s := OneMore(c, s, Server(true, junk));
    s := OneMore(c, s, Server(true, junk));
    var reply := s.toClient[0].payload;
    assert (reply + junk)[..4] == reply;
    IntRoundTrip(NETDEV_PROTOCOL_SUCCESS);
    s := OneMore(c, s, Client(true, junk));
  }

  /** And the registration after it. */
  lemma ReachDummy(c: Config) returns (s: State)
    requires c.client == c.server || !c.repaired
    ensures Reachable(c, s) && DummyRegistered in s.log
  {
    var junk := Zeros(|c.name| + 4);
    s := ReachSendReg(c, junk);
    s := OneMore(c, s, Client(true, junk));
    s := OneMore(c, s, Server(true, junk));
    s := OneMore(c, s, ServerRegisters(Confirmed));
    s := OneMore(c, s, Server(true, junk));
    var reply := s.toClient[1].payload;
    SuccessIsZeros(|c.name| + 1, junk);
    s := OneMore(c, s, Client(true, junk));
    s := OneMore(c, s, ClientRegisters(Confirmed));
  }

  lemma SuccessIsZeros(size: nat, junk: seq<byte>)
    requires 0 < size <= |junk| - 3 && junk == Zeros(|junk|)
    ensures FirstInt(RegReply(size, junk).payload, junk) == NETDEV_PROTOCOL_SUCCESS
  {
    IntRoundTrip(NETDEV_PROTOCOL_SUCCESS);
    var zero := IntBytes(NETDEV_PROTOCOL_SUCCESS);
    assert zero == Zeros(4) by {
      assert LittleEndian(0, 1) == [0] + LittleEndian(0, 0);
      assert LittleEndian(0, 2) == [0] + LittleEndian(0, 1);
      assert LittleEndian(0, 3) == [0] + LittleEndian(0, 2);
    }
    assert (RegReply(size, junk).payload + junk)[..4] == zero;
  }

  /** The reply to a registration is read as it was meant, whatever lies in memory, exactly
      when the name of the device has three characters or more. */
  lemma ReplyIsReadIff(size: nat)
    requires size > 0
    ensures (forall junk, rest: seq<byte> :: |junk| >= size && |rest| >= 4 ==>
               FirstInt(RegReply(size, junk).payload, rest) == NETDEV_PROTOCOL_SUCCESS)
            <==> size >= 4
  {
    var zero := IntBytes(NETDEV_PROTOCOL_SUCCESS);
    IntRoundTrip(NETDEV_PROTOCOL_SUCCESS);
    if size >= 4 {
      forall junk, rest: seq<byte> | |junk| >= size && |rest| >= 4
        ensures FirstInt(RegReply(size, junk).payload, rest) == NETDEV_PROTOCOL_SUCCESS
      {
        assert (RegReply(size, junk).payload + rest)[..4] == zero;
      }
    } else {
      var ones: seq<byte> := seq(4, _ => 1);
      var read := (RegReply(size, ones).payload + ones)[..4];
      assert read[3] == 1;
      ValueOfFour(read);
      assert FirstInt(RegReply(size, ones).payload, ones) != NETDEV_PROTOCOL_SUCCESS;
    }
  }
}
