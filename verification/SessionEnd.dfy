/** How long the devices of a session last, and what the client makes of the reply to its
    registration (daemon/conn.c:217-274, daemon/proxy.c:103-113, 153-165). */
module SessionEnd {
  import opened Bytes
  import opened Protocol
  import opened Session

  // ----- Which devices there are

  /** The last of the two events was the first one. */
  predicate Holds(log: seq<Event>, on: Event, off: Event) {
    log != [] &&
    (log[|log| - 1] == on || (log[|log| - 1] != off && Holds(log[..|log| - 1], on, off)))
  }

  lemma HoldsAfter(log: seq<Event>, e: Event, on: Event, off: Event)
    ensures Holds(log + [e], on, off) <==> e == on || (e != off && Holds(log, on, off))
  {
    assert (log + [e])[..|log|] == log;
  }

  predicate DummyHeld(s: State) {
    Holds(s.log, DummyRegistered, DummyGone)
  }

  predicate RemoteHeld(s: State) {
    Holds(s.log, RemoteRegistered, RemoteGone)
  }

  /** The proxy is not killed, its kernel's confirmation is understood and, at the server, the
      reply to the registration can be sent. */
  predicate Tidy(s: State, e: Step) {
    match e
    case ClientRegisters(outcome) => !outcome.Unconfirmed?
    case ServerRegisters(outcome) => !outcome.Unconfirmed?
    case ClientStops(unregisters) => unregisters
    case ServerStops(unregisters) => unregisters
    case Server(ok, _) => s.server.SendRegReply? ==> ok
    case Client(_, _) => true
  }

  ghost predicate TidyRun(c: Config, s: State, es: seq<Step>, last: State)
    requires Run(c, s, es, last)
    decreases |es|
  {
    es == [] || (Tidy(s, es[0]) && TidyRun(c, Apply(c, s, es[0]), es[1..], last))
  }

  predicate HeldWhileServed(s: State) {
    && (DummyHeld(s) <==> s.client.ClientLoop?)
    && (RemoteHeld(s) <==> s.server.SendRegReply? || s.server.ServerLoop?)
  }

  lemma TidyStep(c: Config, s: State, e: Step)
    requires HeldWhileServed(s) && Enabled(s, e) && Tidy(s, e)
    requires s.clientRead <= |s.toClient| && s.serverRead <= |s.toServer|
    ensures HeldWhileServed(Apply(c, s, e))
  {
    match e
    case Client(ok, junk) => TidyClient(c, s, ok, junk);
    case Server(ok, junk) => TidyServer(c, s, ok, junk);
    case ClientRegisters(_) => OneMoreEvent(s.log, DummyRegistered);
    case ServerRegisters(_) => OneMoreEvent(s.log, RemoteRegistered);
    case ClientStops(_) => OneMoreEvent(s.log, DummyGone);
    case ServerStops(_) => OneMoreEvent(s.log, RemoteGone);
  }

  lemma TidyClient(c: Config, s: State, ok: bool, junk: seq<byte>)
    requires HeldWhileServed(s) && Enabled(s, Client(ok, junk)) && s.clientRead <= |s.toClient|
    ensures HeldWhileServed(ClientStep(c, s, ok, junk))
  {
    ClientEffect(c, s, ok, junk);
    HeldAfterClient(s, ClientStep(c, s, ok, junk));
  }

  /** The only thing the client itself tells its kernel in a step is that it has ended. */
  lemma ClientEffect(c: Config, s: State, ok: bool, junk: seq<byte>)
    requires Enabled(s, Client(ok, junk)) && s.clientRead <= |s.toClient|
    ensures var t := ClientStep(c, s, ok, junk);
            && t.server == s.server && !t.client.ClientLoop?
            && t.log == if s.client.ClientLoop? then s.log + [DummyGone] else s.log
  {
    match s.client
    case SendVersion =>
    case RecvVersion =>
    case SendReg =>
    case RecvReg =>
    case ClientLoop =>
  }

  lemma HeldAfterClient(s: State, t: State)
    requires HeldWhileServed(s) && t.server == s.server && !t.client.ClientLoop?
    requires t.log == if s.client.ClientLoop? then s.log + [DummyGone] else s.log
    ensures HeldWhileServed(t)
  {
    OneMoreEvent(s.log, DummyGone);
  }

  lemma TidyServer(c: Config, s: State, ok: bool, junk: seq<byte>)
    requires HeldWhileServed(s) && Enabled(s, Server(ok, junk)) && s.serverRead <= |s.toServer|
    requires s.server.SendRegReply? ==> ok
    ensures HeldWhileServed(ServerStep(c, s, ok, junk))
  {
    ServerEffect(c, s, ok, junk);
    HeldAfterServer(s, ServerStep(c, s, ok, junk));
  }

  /** A server that replies goes on to serve, and one that has served has ended. */
  lemma ServerEffect(c: Config, s: State, ok: bool, junk: seq<byte>)
    requires Enabled(s, Server(ok, junk)) && s.serverRead <= |s.toServer|
    requires s.server.SendRegReply? ==> ok
    ensures var t := ServerStep(c, s, ok, junk);
            && t.client == s.client && !t.server.SendRegReply?
            && (t.server.ServerLoop? <==> s.server.SendRegReply?)
            && t.log == if s.server.SendRegReply? then s.log + [RemoteReplied]
                        else if s.server.ServerLoop? then s.log + [RemoteGone] else s.log
  {
    match s.server
    case AwaitVersion =>
    case SendReply(_, _) =>
    case AwaitReg =>
    case SendRegReply(_) =>
    case ServerLoop =>
  }

  lemma HeldAfterServer(s: State, t: State)
    requires HeldWhileServed(s) && t.client == s.client && !t.server.SendRegReply?
    requires t.server.ServerLoop? <==> s.server.SendRegReply?
    requires t.log == if s.server.SendRegReply? then s.log + [RemoteReplied]
                      else if s.server.ServerLoop? then s.log + [RemoteGone] else s.log
    ensures HeldWhileServed(t)
  {
    OneMoreEvent(s.log, RemoteReplied);
    OneMoreEvent(s.log, RemoteGone);
  }

  lemma OneMoreEvent(log: seq<Event>, e: Event)
    ensures Holds(log + [e], DummyRegistered, DummyGone)
            <==> e == DummyRegistered || (e != DummyGone && Holds(log, DummyRegistered, DummyGone))
    ensures Holds(log + [e], RemoteRegistered, RemoteGone)
            <==> e == RemoteRegistered || (e != RemoteGone && Holds(log, RemoteRegistered, RemoteGone))
  {
    HoldsAfter(log, e, DummyRegistered, DummyGone);
    HoldsAfter(log, e, RemoteRegistered, RemoteGone);
  }

  lemma {:induction false} TidyKeeps(c: Config, s: State, es: seq<Step>, last: State)
    requires HeldWhileServed(s) && Run(c, s, es, last) && TidyRun(c, s, es, last)
    ensures HeldWhileServed(last)
    decreases |es|
  {
    if es != [] {
      TidyStep(c, s, es[0]);
      TidyKeeps(c, Apply(c, s, es[0]), es[1..], last);
    }
  }

  /** In every run in which nothing is killed or misunderstood: the client's kernel holds the
      dummy exactly while its proxy serves it, and the server's kernel the remote device
      from its registration until the proxy ends. */
  lemma DevicesGoWithProxies(c: Config, es: seq<Step>, s: State)
    requires Run(c, CONNECTED, es, s) && TidyRun(c, CONNECTED, es, s)
    ensures DummyHeld(s) <==> s.client.ClientLoop?
    ensures RemoteHeld(s) <==> s.server.SendRegReply? || s.server.ServerLoop?
  {
    TidyKeeps(c, CONNECTED, es, s);
  }

  /** As it is written, one failed send is enough for the remote device to stay for good: the
      proxy that registered it ends without taking it back. */
  lemma RemoteCanStay(c: Config, junk: seq<byte>)
    requires |junk| >= |c.name| + 4 && (c.client == c.server || !c.repaired)
    ensures exists s :: Reachable(c, s) && s.server.ServerOver? && RemoteHeld(s) && RemoteGone !in s.log
  {
    var s := ReachSendReg(c, junk);
    s := OneMore(c, s, Client(true, junk));
    s := OneMore(c, s, Server(true, junk));
    s := OneMore(c, s, ServerRegisters(Confirmed));
    assert s.log == [RemoteRegistered];
    s := OneMore(c, s, Server(false, junk));
  }

  /** A kernel has a device from its registration, whether or not the proxy learns of it, until
      the proxy unregisters; a proxy that is killed leaves its device. */
  lemma RegisteredIsHeld(c: Config, s: State, outcome: Registration, unregisters: bool)
    requires s.clientRead <= |s.toClient| && s.serverRead <= |s.toServer|
    ensures s.client.RegisterDummy? ==>
              var t := Apply(c, s, ClientRegisters(outcome));
              && (DummyHeld(t) <==> DummyHeld(s) || !outcome.Refused?)
              && (t.client.ClientLoop? <==> outcome.Confirmed?) && (!outcome.Confirmed? ==> t.client.ClientOver?)
    ensures s.server.RegisterServer? ==>
              var t := Apply(c, s, ServerRegisters(outcome));
              && (RemoteHeld(t) <==> RemoteHeld(s) || !outcome.Refused?)
              && (t.server.SendRegReply? <==> outcome.Confirmed?) && (!outcome.Confirmed? ==> t.server.ServerOver?)
    ensures var t := Apply(c, s, ClientStops(unregisters));
            t.client.ClientOver? && (DummyHeld(t) <==> DummyHeld(s) && !unregisters)
    ensures var t := Apply(c, s, ServerStops(unregisters));
            t.server.ServerOver? && (RemoteHeld(t) <==> RemoteHeld(s) && !unregisters)
  {
    OneMoreEvent(s.log, DummyRegistered);
    OneMoreEvent(s.log, RemoteRegistered);
    OneMoreEvent(s.log, DummyGone);
    OneMoreEvent(s.log, RemoteGone);
  }

  // ----- The reply to a registration

  /** Every message of the client is its version or its registration; and what the server
      registers, and replies to, is the registration. */
  ghost predicate Asked(c: Config, s: State) {
    && (forall m :: m in s.toServer ==> m == VersionMessage(c) || m == RegMessage(c))
    && (s.server.RegisterServer? || s.server.SendRegReply? ==> s.server.size == |c.name| + 1)
    && (s.server.AwaitReg? || s.server.RegisterServer? || s.server.SendRegReply? ==> |s.toClient| == 1)
    && (s.server.AwaitVersion? || s.server.SendReply? ==> s.toClient == [])
    && |s.toClient| <= 2 && s.serverRead <= |s.toServer| && s.clientRead <= |s.toClient|
    && (s.server.ServerLoop? ==> |s.toClient| == 2)
    && (|s.toClient| == 2 ==> IsRegReply(s.toClient[1], |c.name| + 1))
    && (s.client.ClientLoop? ==> DummyRegistered in s.log)
  }

  ghost predicate IsRegReply(m: Message, size: nat) {
    exists junk: seq<byte> :: |junk| >= size && m == RegReply(size, junk)
  }

  lemma AskedStep(c: Config, s: State, e: Step)
    requires Asked(c, s) && Enabled(s, e)
    ensures Asked(c, Apply(c, s, e))
  {
    match e
    case Server(ok, junk) => AskedServer(c, s, ok, junk);
    case _ =>
  }

  lemma AskedServer(c: Config, s: State, ok: bool, junk: seq<byte>)
    requires Asked(c, s) && Enabled(s, Server(ok, junk))
    ensures Asked(c, ServerStep(c, s, ok, junk))
  {
    if ok && s.server.AwaitReg? {
      assert s.toServer[s.serverRead] in s.toServer;
      assert |RegMessage(c).payload| == |c.name| + 1;
    }
    if ok && s.server.SendRegReply? {
      assert IsRegReply(RegReply(s.server.size, junk), |c.name| + 1);
    }
  }

  lemma {:induction false} AskedKeeps(c: Config, s: State, es: seq<Step>, last: State)
    requires Asked(c, s) && Run(c, s, es, last)
    ensures Asked(c, last)
    decreases |es|
  {
    if es != [] {
      AskedStep(c, s, es[0]);
      AskedKeeps(c, Apply(c, s, es[0]), es[1..], last);
    }
  }

  /** In every run: a proxy that serves has its device, and for the server's the client was
      sent the reply to its registration, of the size of that. */
  lemma LoopsAreSetUp(c: Config, s: State)
    requires Reachable(c, s)
    ensures s.client.ClientLoop? ==> DummyRegistered in s.log
    ensures s.server.ServerLoop? ==> |s.toClient| == 2 && IsRegReply(s.toClient[1], |c.name| + 1)
  {
    var es :| Run(c, CONNECTED, es, s);
    AskedKeeps(c, CONNECTED, es, s);
  }

  /** In every run: a client that has its version answered and reads the reply to its
      registration goes on to register the dummy, whatever lies in memory, if the name has
      three characters or more. */
  lemma LongNamesAreConfirmed(c: Config, s: State, junk: seq<byte>)
    requires Reachable(c, s) && |c.name| >= 3 && |junk| >= 4
    requires s.client.RecvReg? && s.clientRead == 1 && |s.toClient| == 2
    ensures Enabled(s, Client(true, junk)) && ClientStep(c, s, true, junk).client.RegisterDummy?
  {
    LoopsAreSetUpReply(c, s);
    var size := |c.name| + 1;
    var j: seq<byte> :| |j| >= size && s.toClient[1] == RegReply(size, j);
    ReplyIsRead(size, j, junk);
  }

  lemma ReplyIsRead(size: nat, junk: seq<byte>, rest: seq<byte>)
    requires size >= 4 && |junk| >= size && |rest| >= 4
    ensures FirstInt(RegReply(size, junk).payload, rest) == NETDEV_PROTOCOL_SUCCESS
  {
    ReplyIsReadIff(size);
  }

  lemma LoopsAreSetUpReply(c: Config, s: State)
    requires Reachable(c, s) && |s.toClient| == 2
    ensures IsRegReply(s.toClient[1], |c.name| + 1)
  {
    var es :| Run(c, CONNECTED, es, s);
    AskedKeeps(c, CONNECTED, es, s);
  }
}
