/** What every run of the two machines keeps, and what the confirmation step of the
    proxies takes. */
module RelayRuns {
  import opened Bytes
  import opened Relay

  // ----- The invariant

  predicate Is(phase: seq<Phase>, i: int, p: Phase) {
    0 <= i < |phase| && phase[i] == p
  }

  /** The thread for its message on this side was woken at some time. */
  predicate WokenBy(side: Side, p: Phase) {
    match side
    case Client => p.Completed? || p == On(Client, Running)
    case Server =>
      || p.Completed? || p == On(Client, Running) || p == On(Client, Inject) || p == Eaten(Server)
      || (p.On? && p.side.Server? && !p.place.Inject?)
  }

  /** A thread of this side has set out to send its message. */
  predicate OfferedBy(side: Side, p: Phase) {
    side.Client? || (WokenBy(Server, p) && p != On(Server, Running))
  }

  /** Every operation is where its phase says and nowhere else on this machine and on the
      connection from it. */
  ghost predicate Located(n: Node, side: Side, out: seq<nat>, phase: seq<Phase>) {
    && (forall i :: i in n.sending <==> Is(phase, i, On(side, Sending)))
    && (forall i: nat :: Fo(i) in n.nl <==> Is(phase, i, On(side, Netlink)))
    && (forall i: nat :: n.proxy == Holding(i) <==> Is(phase, i, On(side, Hand)))
    && (forall i :: i in out <==> Is(phase, i, On(side, Wire)))
    && (forall i: nat :: Arriving(n.recv, i) <==> Is(phase, i, On(side, Inject)))
    && (forall i :: i in n.running <==> Is(phase, i, On(side, Running)))
  }

  predicate Arriving(r: Recv, i: nat) {
    r == Creating(i) || (r.Locked? && r.id == i)
  }

  ghost predicate History(n: Node, side: Side, phase: seq<Phase>) {
    && (forall i :: i in n.woken <==> 0 <= i < |phase| && WokenBy(side, phase[i]))
    && (forall i :: i in n.after <==> 0 <= i < |phase| && OfferedBy(side, phase[i]))
    && (side.Server? ==> forall i :: i in n.after ==> n.after[i] == {i})
  }

  ghost predicate OnceEach(nl: seq<NlMsg>, out: seq<nat>) {
    && (forall p, q :: 0 <= p < q < |nl| && nl[p] == nl[q] ==> nl[p].Ack?)
    && (forall p, q :: 0 <= p < q < |out| ==> out[p] != out[q])
  }

  ghost predicate SideInv(n: Node, side: Side, out: seq<nat>, phase: seq<Phase>) {
    NodeInv(n) && Located(n, side, out, phase) && History(n, side, phase) && OnceEach(n.nl, out)
  }

  ghost predicate Inv(s: Pair) {
    SideInv(s.client, Client, s.up, s.phase) && SideInv(s.server, Server, s.down, s.phase)
  }

  lemma InitInv()
    ensures Inv(Init())
  {
  }

  lemma IsNote(phase: seq<Phase>, t: seq<Phase>, id: nat, q: Phase)
    requires id < |phase| && t == phase[id := q]
    ensures forall i, p :: Is(t, i, p) <==> (i == id && p == q) || (i != id && Is(phase, i, p))
  {
  }

  lemma IsNew(phase: seq<Phase>, q: Phase)
    ensures forall i, p :: Is(phase + [q], i, p) <==> (i == |phase| && p == q) || Is(phase, i, p)
  {
  }

  /** A step of an operation does not concern a machine on which it neither is nor comes
      to be, and where it does not count as woken or sent anew. */
  lemma Unconcerned(n: Node, side: Side, out: seq<nat>, phase: seq<Phase>, id: nat, p: Phase)
    requires SideInv(n, side, out, phase) && id < |phase|
    requires !(phase[id].On? && phase[id].side == side) && !(p.On? && p.side == side)
    requires WokenBy(side, phase[id]) == WokenBy(side, p) && OfferedBy(side, phase[id]) == OfferedBy(side, p)
    ensures SideInv(n, side, out, phase[id := p])
  {
    LocatedStays(n, side, out, phase, id, p);
    HistoryStays(n, n, side, phase, id, p);
  }

  lemma LocatedStays(n: Node, side: Side, out: seq<nat>, phase: seq<Phase>, id: nat, p: Phase)
    requires Located(n, side, out, phase) && id < |phase|
    requires !(phase[id].On? && phase[id].side == side) && !(p.On? && p.side == side)
    ensures Located(n, side, out, phase[id := p])
  {
    IsNote(phase, phase[id := p], id, p);
    assert forall place :: !Is(phase, id, On(side, place));
  }

  lemma HistoryStays(n: Node, m: Node, side: Side, phase: seq<Phase>, id: nat, p: Phase)
    requires History(n, side, phase) && m.woken == n.woken && m.after == n.after && id < |phase|
    requires WokenBy(side, phase[id]) == WokenBy(side, p) && OfferedBy(side, phase[id]) == OfferedBy(side, p)
    ensures History(m, side, phase[id := p])
  {
  }

  /** A new operation begins as a thread of the client, and nowhere else. */
  lemma BeginClient(s: Pair)
    requires SideInv(s.client, Client, s.up, s.phase)
    ensures SideInv(Offer(s.client, |s.phase|, Done(s)), Client, s.up, s.phase + [On(Client, Sending)])
  {
    IsNew(s.phase, On(Client, Sending));
    OfferKeeps(s.client, |s.phase|, Done(s));
  }

  lemma BeginServer(s: Pair)
    requires SideInv(s.server, Server, s.down, s.phase)
    ensures SideInv(s.server, Server, s.down, s.phase + [On(Client, Sending)])
  {
    IsNew(s.phase, On(Client, Sending));
  }

  lemma KernelLocated(n: Node, side: Side, out: seq<nat>, phase: seq<Phase>, a: NodeAction)
    requires SideInv(n, side, out, phase) && NodeEnabled(n, a)
    ensures Located(NodeApply(n, a), side, out, AfterStep(n, side, phase, a))
    ensures OnceEach(NodeApply(n, a).nl, out)
  {
    match a
    case Wake =>
      assert Arriving(n.recv, n.recv.id);
      IsNote(phase, AfterStep(n, side, phase, a), n.recv.id, On(side, Running));
    case Put =>
      assert n.lock.id in n.sending;
      IsNote(phase, AfterStep(n, side, phase, a), n.lock.id, On(side, Netlink));
    case Confirm => PopLocated(n, side, out, phase, Confirm);
    case TakeOut => PopLocated(n, side, out, phase, TakeOut);
    case _ =>
  }

  /** The phases after a step of one machine. */
  function AfterStep(n: Node, side: Side, phase: seq<Phase>, a: NodeAction): seq<Phase>
    requires NodeEnabled(n, a)
  {
    match Moved(n, side, a)
    case Some((id, p)) => Note(phase, id, p)
    case None => phase
  }

  lemma PopLocated(n: Node, side: Side, out: seq<nat>, phase: seq<Phase>, a: NodeAction)
    requires SideInv(n, side, out, phase) && NodeEnabled(n, a) && (a.Confirm? || a.TakeOut?)
    ensures Located(NodeApply(n, a), side, out, AfterStep(n, side, phase, a))
    ensures OnceEach(NodeApply(n, a).nl, out)
  {
    var m := n.nl[0];
    assert n.nl == [m] + n.nl[1..];
    assert forall i: nat :: Fo(i) in n.nl[1..] <==> Fo(i) in n.nl && m != Fo(i);
    if m.Fo? {
      assert Is(phase, m.id, On(side, Netlink));
      IsNote(phase, AfterStep(n, side, phase, a), m.id, if a.Confirm? then Eaten(side) else On(side, Hand));
    }
  }

  lemma KernelHistory(n: Node, side: Side, out: seq<nat>, phase: seq<Phase>, a: NodeAction)
    requires Located(n, side, out, phase) && History(n, side, phase) && NodeEnabled(n, a)
    requires a.Put? ==> n.lock.id in n.sending
    ensures History(NodeApply(n, a), side, AfterStep(n, side, phase, a))
  {
    match a
    case Wake => assert Arriving(n.recv, n.recv.id);
    case Put =>
    case Confirm => assert n.nl[0] in n.nl;
    case TakeOut => assert n.nl[0] in n.nl;
    case _ =>
  }

  lemma KernelSide(n: Node, side: Side, out: seq<nat>, phase: seq<Phase>, a: NodeAction)
    requires SideInv(n, side, out, phase) && NodeEnabled(n, a)
    ensures SideInv(NodeApply(n, a), side, out, AfterStep(n, side, phase, a))
  {
    NodeKeeps(n, a);
    KernelLocated(n, side, out, phase, a);
    KernelHistory(n, side, out, phase, a);
  }

  lemma KernelOther(n: Node, side: Side, out: seq<nat>, phase: seq<Phase>, a: NodeAction, m: Node, out': seq<nat>)
    requires SideInv(n, side, out, phase) && NodeEnabled(n, a) && SideInv(m, Peer(side), out', phase)
    ensures SideInv(m, Peer(side), out', AfterStep(n, side, phase, a))
  {
    match Moved(n, side, a)
    case Some((id, p)) =>
      MovedFrom(n, side, out, phase, a);
      OtherPhases(side, phase, id, a, p);
      Unconcerned(m, Peer(side), out', phase, id, p);
    case None =>
  }

  /** To the other machine a message counts as woken and sent as before. */
  lemma OtherPhases(side: Side, phase: seq<Phase>, id: nat, a: NodeAction, p: Phase)
    requires id < |phase| && (a.Wake? || a.Put? || a.Confirm? || a.TakeOut?)
    requires phase[id] == On(side, if a.Wake? then Inject else if a.Put? then Sending else Netlink)
    requires p == if a.Wake? then On(side, Running) else if a.Put? then On(side, Netlink)
                  else if a.Confirm? then Eaten(side) else On(side, Hand)
    ensures WokenBy(Peer(side), phase[id]) == WokenBy(Peer(side), p)
    ensures OfferedBy(Peer(side), phase[id]) == OfferedBy(Peer(side), p)
  {
  }

  lemma KernelKeeps(s: Pair, side: Side, step: NodeAction)
    requires Inv(s) && Enabled(s, Kernel(side, step))
    ensures Inv(Apply(s, Kernel(side, step)))
  {
    KernelSide(NodeOf(s, side), side, Out(s, side), s.phase, step);
    KernelOther(NodeOf(s, side), side, Out(s, side), s.phase, step, NodeOf(s, Peer(side)), Out(s, Peer(side)));
    KernelResult(s, side, step);
  }

  lemma KernelResult(s: Pair, side: Side, step: NodeAction)
    requires Enabled(s, Kernel(side, step))
    ensures Apply(s, Kernel(side, step))
         == WithNode(s, side, NodeApply(NodeOf(s, side), step))
              .(phase := AfterStep(NodeOf(s, side), side, s.phase, step))
  {
  }

  /** Where the operation is that a step of one machine moves. */
  lemma MovedFrom(n: Node, side: Side, out: seq<nat>, phase: seq<Phase>, a: NodeAction)
    requires SideInv(n, side, out, phase) && NodeEnabled(n, a) && Moved(n, side, a).Some?
    ensures var id := Moved(n, side, a).value.0;
            && id < |phase|
            && phase[id] == On(side, if a.Wake? then Inject else if a.Put? then Sending else Netlink)
  {
    match a
    case Wake => assert Arriving(n.recv, n.recv.id);
    case Put => assert n.lock.id in n.sending;
    case Confirm => assert n.nl[0] in n.nl;
    case TakeOut => assert n.nl[0] in n.nl;
    case _ =>
  }

  /** The proxy hands a message on to the connection. */
  lemma ForwardKeeps(s: Pair, side: Side)
    requires Inv(s) && Enabled(s, Forward(side))
    ensures Inv(Apply(s, Forward(side)))
  {
    var n := NodeOf(s, side);
    var id := n.proxy.id;
    assert Is(s.phase, id, On(side, Hand));
    ForwardSide(n, side, Out(s, side), s.phase);
    Unconcerned(NodeOf(s, Peer(side)), Peer(side), Out(s, Peer(side)), s.phase, id, On(side, Wire));
  }

  lemma ForwardSide(n: Node, side: Side, out: seq<nat>, phase: seq<Phase>)
    requires SideInv(n, side, out, phase) && n.proxy.Holding? && Is(phase, n.proxy.id, On(side, Hand))
    ensures SideInv(n.(proxy := Ready), side, out + [n.proxy.id], phase[n.proxy.id := On(side, Wire)])
  {
    var m := n.(proxy := Ready);
    HistoryStays(n, m, side, phase, n.proxy.id, On(side, Wire));
    ForwardLocated(n, side, out, phase);
  }

  lemma ForwardLocated(n: Node, side: Side, out: seq<nat>, phase: seq<Phase>)
    requires Located(n, side, out, phase) && OnceEach(n.nl, out)
    requires n.proxy.Holding? && Is(phase, n.proxy.id, On(side, Hand))
    ensures Located(n.(proxy := Ready), side, out + [n.proxy.id], phase[n.proxy.id := On(side, Wire)])
    ensures OnceEach(n.nl, out + [n.proxy.id])
  {
    IsNote(phase, phase[n.proxy.id := On(side, Wire)], n.proxy.id, On(side, Wire));
    assert !Is(phase, n.proxy.id, On(side, Wire));
  }

  /** The proxy takes a message off the connection and hands it to its kernel. */
  lemma ArriveKeeps(s: Pair, side: Side)
    requires Inv(s) && Enabled(s, Arrive(side))
    ensures Inv(Apply(s, Arrive(side)))
  {
    var q := Out(s, Peer(side));
    assert q[0] in q;
    assert Is(s.phase, q[0], On(Peer(side), Wire));
    ArriveSide(NodeOf(s, side), side, Out(s, side), s.phase, q[0]);
    LeaveWire(NodeOf(s, Peer(side)), Peer(side), q, s.phase);
  }

  lemma ArriveSide(n: Node, side: Side, out: seq<nat>, phase: seq<Phase>, id: nat)
    requires SideInv(n, side, out, phase) && n.proxy.Ready? && Is(phase, id, On(Peer(side), Wire))
    ensures SideInv(n.(proxy := Injecting(id), recv := Creating(id)), side, out, phase[id := On(side, Inject)])
  {
    var m := n.(proxy := Injecting(id), recv := Creating(id));
    HistoryStays(n, m, side, phase, id, On(side, Inject));
    assert n.recv.Idle?;
    ArriveLocated(n, side, out, phase, id);
  }

  lemma ArriveLocated(n: Node, side: Side, out: seq<nat>, phase: seq<Phase>, id: nat)
    requires Located(n, side, out, phase) && n.proxy.Ready? && n.recv.Idle? && Is(phase, id, On(Peer(side), Wire))
    ensures Located(n.(proxy := Injecting(id), recv := Creating(id)), side, out, phase[id := On(side, Inject)])
  {
    IsNote(phase, phase[id := On(side, Inject)], id, On(side, Inject));
  }

  lemma LeaveWire(n: Node, side: Side, out: seq<nat>, phase: seq<Phase>)
    requires SideInv(n, side, out, phase) && out != [] && Is(phase, out[0], On(side, Wire))
    ensures SideInv(n, side, out[1..], phase[out[0] := On(Peer(side), Inject)])
  {
    IsNote(phase, phase[out[0] := On(Peer(side), Inject)], out[0], On(Peer(side), Inject));
    assert out == [out[0]] + out[1..];
  }

  lemma FinishKeeps(s: Pair, side: Side, id: nat)
    requires Inv(s) && Enabled(s, Finish(side, id))
    ensures Inv(Apply(s, Finish(side, id)))
  {
    assert Is(s.phase, id, On(side, Running));
    if side.Server? {
      FinishServer(s.server, s.down, s.phase, id);
      Unconcerned(s.client, Client, s.up, s.phase, id, On(Server, Sending));
    } else {
      FinishClient(s.client, s.up, s.phase, id);
      Unconcerned(s.server, Server, s.down, s.phase, id, Completed);
    }
  }

  lemma FinishServer(n: Node, out: seq<nat>, phase: seq<Phase>, id: nat)
    requires SideInv(n, Server, out, phase) && Is(phase, id, On(Server, Running))
    ensures SideInv(Offer(n.(running := n.running - {id}), id, {id}), Server, out, phase[id := On(Server, Sending)])
  {
    var m := n.(running := n.running - {id});
    OfferKeeps(m, id, {id});
    FinishHistory(n, phase, id);
    FinishLocated(n, out, phase, id);
  }

  lemma FinishHistory(n: Node, phase: seq<Phase>, id: nat)
    requires History(n, Server, phase) && Is(phase, id, On(Server, Running))
    ensures History(Offer(n.(running := n.running - {id}), id, {id}), Server, phase[id := On(Server, Sending)])
  {
  }

  lemma FinishLocated(n: Node, out: seq<nat>, phase: seq<Phase>, id: nat)
    requires Located(n, Server, out, phase) && Is(phase, id, On(Server, Running))
    ensures Located(Offer(n.(running := n.running - {id}), id, {id}), Server, out, phase[id := On(Server, Sending)])
  {
    IsNote(phase, phase[id := On(Server, Sending)], id, On(Server, Sending));
  }

  lemma FinishClient(n: Node, out: seq<nat>, phase: seq<Phase>, id: nat)
    requires SideInv(n, Client, out, phase) && Is(phase, id, On(Client, Running))
    ensures SideInv(n.(running := n.running - {id}), Client, out, phase[id := Completed])
  {
    IsNote(phase, phase[id := Completed], id, Completed);
  }

  lemma StepKeeps(s: Pair, a: Action)
    requires Inv(s) && Enabled(s, a)
    ensures Inv(Apply(s, a))
  {
    match a
    case Begin =>
      BeginClient(s);
      BeginServer(s);
    case Kernel(side, step) => KernelKeeps(s, side, step);
    case Forward(side) => ForwardKeeps(s, side);
    case Arrive(side) => ArriveKeeps(s, side);
    case Finish(side, id) => FinishKeeps(s, side, id);
  }

  lemma {:induction false} RunKeeps(s: Pair, actions: seq<Action>)
    requires Inv(s) && IsRun(s, actions)
    ensures Inv(Run(s, actions))
    decreases |actions|
  {
    if actions == [] {
    } else {
      StepKeeps(s, actions[0]);
      RunKeeps(Apply(s, actions[0]), actions[1..]);
    }
  }

  // ----- Acknowledgements come first

  /** In every run, with any number of operations at once: the server's reply to a request
      enters its proxy's queue after the acknowledgement of the request; and a request of
      the client enters its proxy's queue after the acknowledgements of all replies that
      were completed before the call began. */
  lemma AckComesFirst(actions: seq<Action>, side: Side, p: nat)
    requires IsRun(Init(), actions) && p < |NodeOf(Run(Init(), actions), side).log|
    requires NodeOf(Run(Init(), actions), side).log[p].Fo?
    ensures var n := NodeOf(Run(Init(), actions), side);
            var id := n.log[p].id;
            && (side.Server? ==> AckedBefore(n.log, p, id))
            && id in n.after
            && forall c :: c in n.after[id] ==> AckedBefore(n.log, p, c)
  {
    InitInv();
    RunKeeps(Init(), actions);
    var s := Run(Init(), actions);
    var n := NodeOf(s, side);
    if side.Server? {
      assert n.log[p].id in n.after && n.after[n.log[p].id] == {n.log[p].id};
    }
  }

  /** What a confirmation step takes, in every run. */
  lemma ConfirmationIff(actions: seq<Action>, side: Side)
    requires IsRun(Init(), actions) && NodeOf(Run(Init(), actions), side).proxy.Confirming?
    ensures var n := NodeOf(Run(Init(), actions), side);
            && n.nl != []
            && (n.nl[0] == Ack(n.proxy.id) <==> n.proxy.backlog == 0)
  {
    InitInv();
    RunKeeps(Init(), actions);
    ConfirmedIff(NodeOf(Run(Init(), actions), side));
  }

  // ----- One operation at a time

  /** Calls are made one after another. */
  ghost predicate IsSoloRun(s: Pair, actions: seq<Action>)
    decreases |actions|
  {
    actions == [] ||
    (Enabled(s, actions[0])
     && (actions[0].Begin? ==> forall i :: 0 <= i < |s.phase| ==> s.phase[i].Completed?)
     && IsSoloRun(Apply(s, actions[0]), actions[1..]))
  }

  /** No message waits in the queue when netlink_recv takes the lock, and the only
      acknowledgement there is the one the proxy waits for. */
  ghost predicate Quiet(n: Node) {
    && !n.proxy.Broken?
    && (n.recv.Locked? || n.recv.Woken? || n.recv.Acked? ==> n.recv.backlog == 0)
    && (n.proxy.Confirming? ==> n.proxy.backlog == 0)
    && (forall p :: 0 <= p < |n.nl| && n.nl[p].Ack? ==> p == 0 && (n.recv.Acked? || n.proxy.Confirming?))
  }

  ghost predicate Solo(s: Pair) {
    && Quiet(s.client) && Quiet(s.server)
    && (forall i :: 0 <= i < |s.phase| ==> !s.phase[i].Eaten?)
    && (forall i :: 0 <= i < |s.phase| - 1 ==> s.phase[i].Completed?)
  }

  lemma SoloNode(s: Pair, side: Side, step: NodeAction)
    requires Inv(s) && Solo(s) && Enabled(s, Kernel(side, step))
    ensures Quiet(NodeApply(NodeOf(s, side), step))
    ensures step.Confirm? ==> NodeOf(s, side).nl[0].Ack?
  {
    var n := NodeOf(s, side);
    if step.TakeLock? {
      EmptyWhenLocked(s, side);
    } else if step.Confirm? {
      ConfirmedIff(n);
    }
  }

  lemma SoloKernel(s: Pair, side: Side, step: NodeAction)
    requires Inv(s) && Solo(s) && Enabled(s, Kernel(side, step))
    ensures Solo(Apply(s, Kernel(side, step)))
  {
    SoloNode(s, side, step);
    KernelResult(s, side, step);
    SoloPhases(s, side, step);
  }

  /** The operation that moves is the last one, and is not completed by it. */
  lemma SoloPhases(s: Pair, side: Side, step: NodeAction)
    requires SideInv(NodeOf(s, side), side, Out(s, side), s.phase) && Enabled(s, Kernel(side, step))
    requires forall i :: 0 <= i < |s.phase| - 1 ==> s.phase[i].Completed?
    requires forall i :: 0 <= i < |s.phase| ==> !s.phase[i].Eaten?
    requires step.Confirm? ==> NodeOf(s, side).nl[0].Ack?
    ensures var phase := AfterStep(NodeOf(s, side), side, s.phase, step);
            && (forall i :: 0 <= i < |phase| - 1 ==> phase[i].Completed?)
            && (forall i :: 0 <= i < |phase| ==> !phase[i].Eaten?)
  {
    var n := NodeOf(s, side);
    if Moved(n, side, step).Some? {
      MovedFrom(n, side, Out(s, side), s.phase, step);
    }
  }

  lemma SoloForward(s: Pair, side: Side)
    requires Inv(s) && Solo(s) && Enabled(s, Forward(side))
    ensures Solo(Apply(s, Forward(side)))
  {
    assert Is(s.phase, NodeOf(s, side).proxy.id, On(side, Hand));
  }

  lemma SoloArrive(s: Pair, side: Side)
    requires Inv(s) && Solo(s) && Enabled(s, Arrive(side))
    ensures Solo(Apply(s, Arrive(side)))
  {
    assert Out(s, Peer(side))[0] in Out(s, Peer(side));
    assert Is(s.phase, Out(s, Peer(side))[0], On(Peer(side), Wire));
  }

  lemma SoloStep(s: Pair, a: Action)
    requires Inv(s) && Solo(s) && Enabled(s, a)
    requires a.Begin? ==> forall i :: 0 <= i < |s.phase| ==> s.phase[i].Completed?
    ensures Solo(Apply(s, a))
  {
    match a
    case Kernel(side, step) => SoloKernel(s, side, step);
    case Forward(side) => SoloForward(s, side);
    case Arrive(side) => SoloArrive(s, side);
    case Finish(side, id) => SoloFinish(s, side, id);
    case Begin => assert Apply(s, Begin).server == s.server;
  }

  lemma SoloFinish(s: Pair, side: Side, id: nat)
    requires Inv(s) && Solo(s) && Enabled(s, Finish(side, id))
    ensures Solo(Apply(s, Finish(side, id)))
  {
    assert Is(s.phase, id, On(side, Running));
  }

  /** The only operation there is is the one the receiver has: the queue is empty. */
  lemma EmptyWhenLocked(s: Pair, side: Side)
    requires Inv(s) && Solo(s) && NodeEnabled(NodeOf(s, side), TakeLock)
    ensures NodeOf(s, side).nl == []
  {
    var n := NodeOf(s, side);
    assert Arriving(n.recv, n.recv.id);
    assert Is(s.phase, n.recv.id, On(side, Inject));
    forall m
      ensures m !in n.nl
    {
      match m
      case Ack(x) =>
      case Fo(y) => assert !Is(s.phase, y, On(side, Netlink));
    }
    SomeMember(n.nl);
  }

  lemma SomeMember<T>(q: seq<T>)
    ensures q != [] ==> exists m :: m in q
  {
    if q != [] {
      assert q[0] in q;
    }
  }

  lemma {:induction false} SoloKeeps(s: Pair, actions: seq<Action>)
    requires Inv(s) && Solo(s) && IsSoloRun(s, actions)
    ensures IsRun(s, actions)
    ensures Inv(Run(s, actions)) && Solo(Run(s, actions))
    decreases |actions|
  {
    if actions == [] {
    } else {
      StepKeeps(s, actions[0]);
      SoloStep(s, actions[0]);
      SoloKeeps(Apply(s, actions[0]), actions[1..]);
    }
  }

  /** With one operation at a time, over all runs: the message a proxy takes for the
      confirmation is the acknowledgement of what it sent, so that no operation is ever
      taken for one, and no proxy leaves its loop. */
  lemma SoloNeverEaten(actions: seq<Action>, side: Side)
    requires IsSoloRun(Init(), actions)
    ensures IsRun(Init(), actions)
    ensures var s := Run(Init(), actions);
            var n := NodeOf(s, side);
            && (n.proxy.Confirming? ==> n.nl != [] && n.nl[0] == Ack(n.proxy.id))
            && !n.proxy.Broken?
            && forall i :: 0 <= i < |s.phase| ==> !s.phase[i].Eaten?
  {
    InitInv();
    SoloKeeps(Init(), actions);
    var n := NodeOf(Run(Init(), actions), side);
    if n.proxy.Confirming? {
      ConfirmedIff(n);
    }
  }

  /** A reply that has reached the client's proxy is handed to the kernel and confirmed. */
  ghost function HandOver(s: Pair): Option<Pair> {
    if !Enabled(s, Arrive(Client)) then None else
    var s1 := Apply(s, Arrive(Client));
    if !Enabled(s1, Kernel(Client, TakeLock)) then None else
    var s2 := Apply(s1, Kernel(Client, TakeLock));
    if !Enabled(s2, Kernel(Client, Wake)) then None else
    var s3 := Apply(s2, Kernel(Client, Wake));
    if !Enabled(s3, Kernel(Client, SendAck)) then None else
    var s4 := Apply(s3, Kernel(Client, SendAck));
    if !Enabled(s4, Kernel(Client, Unlock)) then None else
    var s5 := Apply(s4, Kernel(Client, Unlock));
    if !Enabled(s5, Kernel(Client, Confirm)) then None else Some(Apply(s5, Kernel(Client, Confirm)))
  }

  /** With two operations it happens: whenever a reply reaches the client's proxy while
      another request waits in its queue, that request is taken for the confirmation. It
      is lost, and if it was the only one the proxy then leaves its loop. */
  lemma SecondOperationIsEaten(s: Pair, y: nat)
    requires Inv(s) && s.client.proxy.Ready? && s.client.lock.Free? && s.down != []
    requires s.client.nl == [Fo(y)]
    ensures HandOver(s).Some?
    ensures var t := HandOver(s).value;
            && Is(t.phase, y, Eaten(Client))
            && Enabled(t, Kernel(Client, TakeOut)) && Apply(t, Kernel(Client, TakeOut)).client.proxy.Broken?
  {
    var x := s.down[0];
    assert x in s.down && Is(s.phase, x, On(Server, Wire));
    assert Fo(y) in s.client.nl && Is(s.phase, y, On(Client, Netlink));
    EatenFrom(s, x, y);
  }

  lemma EatenFrom(s: Pair, x: nat, y: nat)
    requires s.client.proxy.Ready? && s.client.recv.Idle? && s.client.lock.Free? && s.client.nl == [Fo(y)]
    requires s.down != [] && s.down[0] == x && x != y && x < |s.phase| && y < |s.phase|
    ensures HandOver(s).Some?
    ensures var t := HandOver(s).value;
            && Is(t.phase, y, Eaten(Client))
            && Enabled(t, Kernel(Client, TakeOut)) && Apply(t, Kernel(Client, TakeOut)).client.proxy.Broken?
  {
    var c := s.client.(proxy := Injecting(x), recv := Creating(x));
    var s1 := Apply(s, Arrive(Client));
    assert s1.client == c && s1.phase[y] == s.phase[y];
    var s2 := Apply(s1, Kernel(Client, TakeLock));
    assert s2.client == c.(recv := Locked(x, 1), lock := ByReceiver);
    var s3 := Apply(s2, Kernel(Client, Wake));
    assert s3.client.recv == Woken(x, 1) && s3.client.nl == [Fo(y)] && s3.client.proxy == Injecting(x);
    var s4 := Apply(s3, Kernel(Client, SendAck));
    assert s4.client.recv == Acked(x, 1) && s4.client.nl == [Fo(y), Ack(x)] && s4.client.proxy == Injecting(x);
    var s5 := Apply(s4, Kernel(Client, Unlock));
    assert s5.client.proxy == Confirming(x, 1) && s5.client.nl == [Fo(y), Ack(x)] && y < |s5.phase|;
    var s6 := Apply(s5, Kernel(Client, Confirm));
    assert s6.client.proxy == Ready && s6.client.nl == [Ack(x)] && s6.phase[y] == Eaten(Client);
  }

  lemma {:induction false} RunAppend(s: Pair, actions: seq<Action>, a: Action)
    requires IsRun(s, actions) && Enabled(Run(s, actions), a)
    ensures IsRun(s, actions + [a]) && Run(s, actions + [a]) == Apply(Run(s, actions), a)
    decreases |actions|
  {
    if actions == [] {
      assert (actions + [a])[1..] == [];
    } else {
      RunAppend(Apply(s, actions[0]), actions[1..], a);
      assert (actions + [a])[1..] == actions[1..] + [a];
    }
  }

  lemma {:induction false} SoloAppend(s: Pair, actions: seq<Action>, a: Action)
    requires IsSoloRun(s, actions) && IsRun(s, actions) && Enabled(Run(s, actions), a) && !a.Begin?
    ensures IsSoloRun(s, actions + [a])
    decreases |actions|
  {
    if actions == [] {
      assert (actions + [a])[1..] == [];
    } else {
      assert (actions + [a])[1..] == actions[1..] + [a];
      SoloAppend(Apply(s, actions[0]), actions[1..], a);
    }
  }

  /** One more step of a run from the start. */
  lemma Then(actions: seq<Action>, s: Pair, a: Action) returns (actions': seq<Action>, t: Pair)
    requires IsRun(Init(), actions) && Run(Init(), actions) == s && Enabled(s, a)
    ensures IsRun(Init(), actions') && Run(Init(), actions') == t == Apply(s, a)
    ensures actions' == actions + [a]
    ensures IsSoloRun(Init(), actions) && !a.Begin? ==> IsSoloRun(Init(), actions')
  {
    actions', t := actions + [a], Apply(s, a);
    RunAppend(Init(), actions, a);
    if IsSoloRun(Init(), actions) && !a.Begin? {
      SoloAppend(Init(), actions, a);
    }
  }

  /** The send of one message by a thread that is alone at the lock. */
  lemma ThenSend(actions: seq<Action>, s: Pair, side: Side, id: nat) returns (actions': seq<Action>, t: Pair)
    requires IsRun(Init(), actions) && Run(Init(), actions) == s
    requires id in NodeOf(s, side).sending && NodeOf(s, side).lock.Free? && id < |s.phase|
    ensures IsRun(Init(), actions') && Run(Init(), actions') == t
    ensures IsSoloRun(Init(), actions) ==> IsSoloRun(Init(), actions')
    ensures var n := NodeOf(s, side);
            t == WithNode(s, side, Enqueue(n, Fo(id)).(sending := n.sending - {id}))
                   .(phase := s.phase[id := On(side, Netlink)])
  {
    actions', t := Then(actions, s, Kernel(side, Acquire(id)));
    actions', t := Then(actions', t, Kernel(side, Put));
    actions', t := Then(actions', t, Kernel(side, Leave));
  }

  lemma ThenForward(actions: seq<Action>, s: Pair, side: Side, id: nat) returns (actions': seq<Action>, t: Pair)
    requires IsRun(Init(), actions) && Run(Init(), actions) == s
    requires NodeOf(s, side).proxy.Ready? && NodeOf(s, side).nl == [Fo(id)] && id < |s.phase|
    ensures IsRun(Init(), actions') && Run(Init(), actions') == t
    ensures IsSoloRun(Init(), actions) ==> IsSoloRun(Init(), actions')
    ensures t == WithOut(WithNode(s, side, NodeOf(s, side).(nl := [])), side, Out(s, side) + [id])
                   .(phase := s.phase[id := On(side, Wire)])
  {
    actions', t := Then(actions, s, Kernel(side, TakeOut));
    actions', t := Then(actions', t, Forward(side));
    assert NodeOf(t, side) == NodeOf(s, side).(nl := []);
    assert s.phase[id := On(side, Hand)][id := On(side, Wire)] == s.phase[id := On(side, Wire)];
  }

  /** The server's proxy takes a request, has it confirmed, and its thread executes it. */
  lemma ThenServe(actions: seq<Action>, s: Pair, id: nat) returns (actions': seq<Action>, t: Pair)
    requires IsRun(Init(), actions) && Run(Init(), actions) == s
    requires s.up == [id] && id < |s.phase| && s.server == EmptyNode()
    ensures IsRun(Init(), actions') && Run(Init(), actions') == t
    ensures IsSoloRun(Init(), actions) ==> IsSoloRun(Init(), actions')
    ensures t.client == s.client && t.up == [] && t.down == s.down && |t.phase| == |s.phase|
    ensures t.server.proxy.Ready? && t.server.lock.Free? && t.server.nl == [] && id in t.server.sending
  {
    actions', t := ThenWake(actions, s, id);
    actions', t := Then(actions', t, Kernel(Server, SendAck));
    assert t.server.nl == [Ack(id)];
    actions', t := Then(actions', t, Kernel(Server, Unlock));
    actions', t := Then(actions', t, Kernel(Server, Confirm));
    actions', t := Then(actions', t, Finish(Server, id));
  }

  lemma ThenWake(actions: seq<Action>, s: Pair, id: nat) returns (actions': seq<Action>, t: Pair)
    requires IsRun(Init(), actions) && Run(Init(), actions) == s
    requires s.up == [id] && id < |s.phase| && s.server == EmptyNode()
    ensures IsRun(Init(), actions') && Run(Init(), actions') == t
    ensures IsSoloRun(Init(), actions) ==> IsSoloRun(Init(), actions')
    ensures t.client == s.client && t.up == [] && t.down == s.down && |t.phase| == |s.phase|
    ensures t.server == EmptyNode().(proxy := Injecting(id), recv := Woken(id, 0), lock := ByReceiver,
                                     running := {id}, woken := {id})
  {
    actions', t := Then(actions, s, Arrive(Server));
    actions', t := Then(actions', t, Kernel(Server, TakeLock));
    actions', t := Then(actions', t, Kernel(Server, Wake));
  }

  /** A first call whose reply has reached the client's proxy. */
  lemma ReplyComesBack() returns (actions: seq<Action>, s: Pair)
    ensures IsRun(Init(), actions) && Run(Init(), actions) == s && IsSoloRun(Init(), actions)
    ensures s.client.proxy.Ready? && s.client.lock.Free? && s.client.recv.Idle? && s.client.nl == []
    ensures s.down == [0] && |s.phase| == 1
  {
    actions, s := Then([], Init(), Begin);
    assert actions[1..] == [] && IsSoloRun(Init(), actions);
    actions, s := ThenSend(actions, s, Client, 0);
    actions, s := ThenForward(actions, s, Client, 0);
    actions, s := ThenServe(actions, s, 0);
    actions, s := ThenSend(actions, s, Server, 0);
    actions, s := ThenForward(actions, s, Server, 0);
  }

  /** Such a run exists: two calls, the second of which has its request queued when the
      reply to the first comes back. */
  lemma TwoCallsCanMeet() returns (actions: seq<Action>, s: Pair)
    ensures IsRun(Init(), actions) && Run(Init(), actions) == s
    ensures s.client.proxy.Ready? && s.client.lock.Free? && s.down != [] && s.client.nl == [Fo(1)]
  {
    actions, s := ReplyComesBack();
    actions, s := Then(actions, s, Begin);
    actions, s := ThenSend(actions, s, Client, 1);
  }

  /** A reply that meets no other operation is confirmed, and its call completed. */
  lemma ThenComplete(actions: seq<Action>, s: Pair) returns (actions': seq<Action>, t: Pair)
    requires IsRun(Init(), actions) && Run(Init(), actions) == s && IsSoloRun(Init(), actions)
    requires s.client.proxy.Ready? && s.client.lock.Free? && s.client.recv.Idle? && s.client.nl == []
    requires s.down == [0] && |s.phase| == 1
    ensures IsRun(Init(), actions') && Run(Init(), actions') == t && IsSoloRun(Init(), actions')
    ensures t.phase == [Completed] && t.client.proxy.Ready? && t.client.lock.Free? && t.client.nl == []
  {
    actions', t := Then(actions, s, Arrive(Client));
    actions', t := Then(actions', t, Kernel(Client, TakeLock));
    actions', t := Then(actions', t, Kernel(Client, Wake));
    actions', t := Then(actions', t, Kernel(Client, SendAck));
    assert t.client.nl == [Ack(0)];
    actions', t := Then(actions', t, Kernel(Client, Unlock));
    actions', t := Then(actions', t, Kernel(Client, Confirm));
    actions', t := Then(actions', t, Finish(Client, 0));
  }

  /** With one operation at a time a call can go all the way: it is executed, answered,
      confirmed on both sides and completed. */
  lemma ACallCanComplete() returns (actions: seq<Action>, s: Pair)
    ensures IsSoloRun(Init(), actions) && IsRun(Init(), actions) && Run(Init(), actions) == s
    ensures s.phase == [Completed] && s.client.proxy.Ready? && s.client.lock.Free? && s.client.nl == []
  {
    actions, s := ReplyComesBack();
    actions, s := ThenComplete(actions, s);
  }

  /** There is a run in which a request is lost and a proxy leaves its loop. */
  lemma AnOperationCanBeEaten()
    ensures exists actions :: IsRun(Init(), actions) && HandOver(Run(Init(), actions)).Some?
                              && Is(HandOver(Run(Init(), actions)).value.phase, 1, Eaten(Client))
  {
    var actions, s := TwoCallsCanMeet();
    InitInv();
    RunKeeps(Init(), actions);
    SecondOperationIsEaten(s, 1);
  }
}
