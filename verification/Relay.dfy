/** The way of file operations through two kernels and two proxies, with the delivery
    acknowledgements of netlink (section 2.3.2.2 of RFC 3549) and the spin lock that
    orders them (kernel/netlink.c:71-113, 162-165, 215-219; daemon/netlink.c:121-156;
    daemon/proxy.c:226-308). Every operation has a number; its request and its reply are
    identified by it. */
module Relay {
  import opened Bytes

  datatype NlMsg = Ack(id: nat) | Fo(id: nat)

  /** Who holds nllock: nobody, netlink_recv, or a thread sending its message, which it
      has or has not put in the queue yet. */
  datatype Lock = Free | ByReceiver | BySender(id: nat, sent: bool)

  /** netlink_recv on a message from the proxy: the thread for it exists, the lock is
      taken, the thread is woken, the acknowledgement is sent. `backlog` is the length of
      the proxy's queue when the lock is taken. */
  datatype Recv =
    | Idle
    | Creating(id: nat)
    | Locked(id: nat, backlog: nat)
    | Woken(id: nat, backlog: nat)
    | Acked(id: nat, backlog: nat)

  /** The proxy: in its loop, with a message from the kernel in hand, inside sendmsg to
      the kernel, waiting for the confirmation of that, or out of its loop. */
  datatype Proxy =
    | Ready
    | Holding(id: nat)
    | Injecting(id: nat)
    | Confirming(id: nat, backlog: nat)
    | Broken

  /** One machine. `sending`: threads at or in netlink_send with their message not queued
      yet. `running`: threads woken for a message and not done with it. `nl` is the
      proxy's netlink queue. History: `woken`, the messages whose thread was woken; `log`,
      everything that was ever put in `nl`; `after`, for each message sent, the messages
      from the proxy that it is a consequence of. */
  datatype Node = Node(
    lock: Lock,
    recv: Recv,
    proxy: Proxy,
    sending: set<nat>,
    running: set<nat>,
    nl: seq<NlMsg>,
    woken: set<nat>,
    log: seq<NlMsg>,
    after: map<nat, set<nat>>)

  datatype NodeAction =
    | TakeLock
    | Wake
    | SendAck
    | Unlock
    | Confirm
    | Acquire(id: nat)
    | Put
    | Leave
    | TakeOut

  predicate NodeEnabled(n: Node, a: NodeAction) {
    match a
    case TakeLock => n.recv.Creating? && n.lock.Free?
    case Wake => n.recv.Locked?
    case SendAck => n.recv.Woken?
    case Unlock => n.recv.Acked? && n.proxy.Injecting?
    case Confirm => n.proxy.Confirming? && n.nl != []
    case Acquire(id) => id in n.sending && n.lock.Free?
    case Put => n.lock.BySender? && !n.lock.sent
    case Leave => n.lock.BySender? && n.lock.sent
    case TakeOut => n.proxy.Ready? && n.nl != []
  }

  function Enqueue(n: Node, m: NlMsg): Node {
    n.(nl := n.nl + [m], log := n.log + [m])
  }

  function NodeApply(n: Node, a: NodeAction): Node
    requires NodeEnabled(n, a)
  {
    match a
    case TakeLock => n.(recv := Locked(n.recv.id, |n.nl|), lock := ByReceiver)
    case Wake =>
      n.(recv := Woken(n.recv.id, n.recv.backlog), running := n.running + {n.recv.id}, woken := n.woken + {n.recv.id})
    case SendAck => Enqueue(n, Ack(n.recv.id)).(recv := Acked(n.recv.id, n.recv.backlog))
    case Unlock => n.(recv := Idle, lock := Free, proxy := Confirming(n.recv.id, n.recv.backlog))
    case Confirm =>
      // the next message is taken for the confirmation, whatever it is
      n.(nl := n.nl[1..], proxy := Ready)
    case Acquire(id) => n.(lock := BySender(id, false))
    case Put => Enqueue(n, Fo(n.lock.id)).(lock := BySender(n.lock.id, true), sending := n.sending - {n.lock.id})
    case Leave => n.(lock := Free)
    case TakeOut =>
      // anything but a file operation ends the loop
      n.(nl := n.nl[1..], proxy := if n.nl[0].Fo? then Holding(n.nl[0].id) else Broken)
  }

  /** A thread reaches netlink_send with message `id`, as a consequence of `causes`. */
  function Offer(n: Node, id: nat, causes: set<nat>): Node {
    n.(sending := n.sending + {id}, after := n.after[id := causes])
  }

  // ----- What one machine keeps

  /** Between the lock and the acknowledgement the queue is as it was; then the
      acknowledgement is at its place until the proxy has taken what was before it. */
  ghost predicate Window(n: Node) {
    match n.recv
    case Idle => (match n.proxy
                  case Confirming(id, backlog) => backlog < |n.nl| && n.nl[backlog] == Ack(id)
                  case Injecting(_) => false
                  case _ => true)
    case Creating(id) => n.proxy == Injecting(id)
    case Locked(id, backlog) => n.proxy == Injecting(id) && |n.nl| == backlog
    case Woken(id, backlog) => n.proxy == Injecting(id) && |n.nl| == backlog
    case Acked(id, backlog) => n.proxy == Injecting(id) && |n.nl| == backlog + 1 && n.nl[backlog] == Ack(id)
  }

  ghost predicate AckedBefore(log: seq<NlMsg>, p: nat, id: nat)
    requires p <= |log|
  {
    Ack(id) in log[..p]
  }

  /** The lock is the receiver's from taking it to releasing it; and while it is anybody
      else's, every message whose thread was woken is acknowledged. */
  ghost predicate Ordered(n: Node) {
    && (n.lock.ByReceiver? <==> n.recv.Locked? || n.recv.Woken? || n.recv.Acked?)
    && (n.lock.BySender? && !n.lock.sent ==> n.lock.id in n.sending)
    && (forall id :: id in n.woken ==> Ack(id) in n.log || (n.recv.Woken? && n.recv.id == id))
    && (forall id :: id in n.sending ==> id in n.after)
    && (forall id :: id in n.after ==> n.after[id] <= n.woken)
    && (forall p :: 0 <= p < |n.log| && n.log[p].Fo? ==>
          n.log[p].id in n.after && forall c :: c in n.after[n.log[p].id] ==> AckedBefore(n.log, p, c))
  }

  /** A message is acknowledged at most once, after its thread was woken. */
  ghost predicate Once(n: Node) {
    && (forall m :: m in n.nl ==> m in n.log)
    && (forall id :: Ack(id) in n.log ==> id in n.woken)
    && (n.recv.Creating? || n.recv.Locked? ==> n.recv.id !in n.woken)
    && (n.recv.Woken? ==> n.recv.id in n.woken && Ack(n.recv.id) !in n.log)
    && (n.recv.Acked? ==> n.recv.backlog <= |n.nl| && Ack(n.recv.id) !in n.nl[..n.recv.backlog])
    && (n.proxy.Confirming? ==> n.proxy.backlog <= |n.nl| && Ack(n.proxy.id) !in n.nl[..n.proxy.backlog])
  }

  ghost predicate NodeInv(n: Node) {
    Window(n) && Ordered(n) && Once(n)
  }

  lemma Prefix(log: seq<NlMsg>, m: NlMsg)
    ensures forall p, c :: 0 <= p <= |log| && AckedBefore(log, p, c) ==> AckedBefore(log + [m], p, c)
    ensures forall c :: Ack(c) in log ==> AckedBefore(log + [m], |log|, c)
  {
    assert forall p :: 0 <= p <= |log| ==> (log + [m])[..p] == log[..p];
    assert log[..|log|] == log;
  }

  lemma NodeKeeps(n: Node, a: NodeAction)
    requires NodeInv(n) && NodeEnabled(n, a)
    ensures NodeInv(NodeApply(n, a))
  {
    match a
    case SendAck => AckKeeps(n);
    case Put => PutKeeps(n);
    case _ =>
  }

  lemma AckKeeps(n: Node)
    requires NodeInv(n) && NodeEnabled(n, SendAck)
    ensures NodeInv(NodeApply(n, SendAck))
  {
    Prefix(n.log, Ack(n.recv.id));
    assert (n.nl + [Ack(n.recv.id)])[..|n.nl|] == n.nl;
  }

  /** A thread that holds the lock sees every woken message acknowledged: what it sends
      comes after all of them. */
  lemma PutKeeps(n: Node)
    requires NodeInv(n) && NodeEnabled(n, Put)
    ensures NodeInv(NodeApply(n, Put))
  {
    var t := NodeApply(n, Put);
    Prefix(n.log, Fo(n.lock.id));
    forall p | 0 <= p < |t.log| && t.log[p].Fo?
      ensures t.log[p].id in t.after && forall c :: c in t.after[t.log[p].id] ==> AckedBefore(t.log, p, c)
    {
      if p < |n.log| {
        assert t.log[p] == n.log[p];
      } else {
        assert t.after[n.lock.id] <= n.woken;
      }
    }
  }

  lemma OfferKeeps(n: Node, id: nat, causes: set<nat>)
    requires NodeInv(n) && id !in n.after && causes <= n.woken
    ensures NodeInv(Offer(n, id, causes))
  {
  }

  /** The message the proxy takes for the confirmation of what it sent is the one that
      acknowledges it exactly when its queue was empty when netlink_recv took the lock;
      otherwise it is the oldest message in the queue. */
  lemma ConfirmedIff(n: Node)
    requires NodeInv(n) && n.proxy.Confirming?
    ensures NodeEnabled(n, Confirm)
    ensures n.nl[0] == Ack(n.proxy.id) <==> n.proxy.backlog == 0
  {
    if n.proxy.backlog > 0 {
      assert n.nl[0] in n.nl[..n.proxy.backlog];
    }
  }

  // ----- Two machines and the connection between their proxies

  datatype Side = Client | Server

  datatype Place = Sending | Netlink | Hand | Wire | Inject | Running

  /** Where an operation is, its request on the way from the client and its reply on the
      way back; `Eaten` if a proxy took it for a confirmation. History. */
  datatype Phase = On(side: Side, place: Place) | Completed | Eaten(side: Side)

  /** `up` and `down` are the two directions of the connection. */
  datatype Pair = Pair(client: Node, server: Node, up: seq<nat>, down: seq<nat>, phase: seq<Phase>)

  datatype Action =
    | Begin
    | Kernel(side: Side, step: NodeAction)
    | Forward(side: Side)
    | Arrive(side: Side)
    | Finish(side: Side, id: nat)

  function NodeOf(s: Pair, side: Side): Node {
    if side.Client? then s.client else s.server
  }

  function WithNode(s: Pair, side: Side, n: Node): Pair {
    if side.Client? then s.(client := n) else s.(server := n)
  }

  /** The connection as this side writes to it. */
  function Out(s: Pair, side: Side): seq<nat> {
    if side.Client? then s.up else s.down
  }

  function WithOut(s: Pair, side: Side, q: seq<nat>): Pair {
    if side.Client? then s.(up := q) else s.(down := q)
  }

  function Peer(side: Side): Side {
    if side.Client? then Server else Client
  }

  function EmptyNode(): Node {
    Node(Free, Idle, Ready, {}, {}, [], {}, [], map[])
  }

  function Init(): Pair {
    Pair(EmptyNode(), EmptyNode(), [], [], [])
  }

  predicate Enabled(s: Pair, a: Action) {
    match a
    case Begin => true
    case Kernel(side, step) => NodeEnabled(NodeOf(s, side), step)
    case Forward(side) => NodeOf(s, side).proxy.Holding?
    case Arrive(side) => NodeOf(s, side).proxy.Ready? && Out(s, Peer(side)) != []
    case Finish(side, id) => id in NodeOf(s, side).running
  }

  /** The phase of the operation that a step of one machine moves, if it moves one. */
  function Moved(n: Node, side: Side, step: NodeAction): Option<(nat, Phase)>
    requires NodeEnabled(n, step)
  {
    match step
    case Wake => Some((n.recv.id, On(side, Running)))
    case Put => Some((n.lock.id, On(side, Netlink)))
    case Confirm => if n.nl[0].Fo? then Some((n.nl[0].id, Eaten(side))) else None
    case TakeOut => if n.nl[0].Fo? then Some((n.nl[0].id, On(side, Hand))) else None
    case _ => None
  }

  function Note(phase: seq<Phase>, id: nat, p: Phase): seq<Phase> {
    if id < |phase| then phase[id := p] else phase
  }

  function Apply(s: Pair, a: Action): Pair
    requires Enabled(s, a)
  {
    match a
    case Begin =>
      // a caller enters fo_send: a consequence of everything completed so far
      s.(client := Offer(s.client, |s.phase|, Done(s)), phase := s.phase + [On(Client, Sending)])
    case Kernel(side, step) =>
      var n := NodeOf(s, side);
      var t := WithNode(s, side, NodeApply(n, step));
      (match Moved(n, side, step)
       case Some((id, p)) => t.(phase := Note(s.phase, id, p))
       case None => t)
    case Forward(side) =>
      var n := NodeOf(s, side);
      WithOut(WithNode(s, side, n.(proxy := Ready)), side, Out(s, side) + [n.proxy.id])
        .(phase := Note(s.phase, n.proxy.id, On(side, Wire)))
    case Arrive(side) =>
      // conn_recv, then sendmsg to the kernel, where netlink_recv creates the thread
      var n := NodeOf(s, side);
      var q := Out(s, Peer(side));
      WithOut(WithNode(s, side, n.(proxy := Injecting(q[0]), recv := Creating(q[0]))), Peer(side), q[1..])
        .(phase := Note(s.phase, q[0], On(side, Inject)))
    case Finish(side, id) =>
      var n := NodeOf(s, side);
      var m := n.(running := n.running - {id});
      if side.Server? then
        // fo_execute is done and sends the reply, a consequence of the request
        WithNode(s, side, Offer(m, id, {id})).(phase := Note(s.phase, id, On(Server, Sending)))
      else
        // fo_complete wakes the caller
        WithNode(s, side, m).(phase := Note(s.phase, id, Completed))
  }

  /** The operations that are completed. */
  function Done(s: Pair): set<nat> {
    set i | 0 <= i < |s.phase| && s.phase[i].Completed?
  }

  ghost predicate IsRun(s: Pair, actions: seq<Action>)
    decreases |actions|
  {
    actions == [] || (Enabled(s, actions[0]) && IsRun(Apply(s, actions[0]), actions[1..]))
  }

  function Run(s: Pair, actions: seq<Action>): Pair
    requires IsRun(s, actions)
    decreases |actions|
  {
    if actions == [] then s else Run(Apply(s, actions[0]), actions[1..])
  }
}
