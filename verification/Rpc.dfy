/** File operations as remote calls (kernel/fo_comm.c:18-246): any number of callers on a
    dummy device, one kernel thread for every message that arrives, and the messages in
    between. Every atomic step of the two kernels and of the transport is an action. */
module Rpc {
  import opened Bytes
  import PQ = PendingQueue

  type Payload = seq<byte>

  /** Opening and releasing a file, and every other operation by its message type. */
  datatype Kind = Open | Release | Other(msgtype: int)

  /** What the remote execution sends back: the request echoed with its return value of
      -1, or the operation's own structures with a return value of 0. */
  datatype Reply = Failed | Done(body: Payload)

  datatype Content = Request(body: Payload) | Answer(reply: Reply)

  /** A message: access id, sequence number and kind are what the code looks at. `owner`
      is history only, the call the message was sent for. */
  datatype Msg = Msg(owner: nat, acc: int, key: uint32, kind: Kind, content: Content)

  /** How far a call of fo_send is. The caller itself only sees whether it is completed;
      the phases before that, and what was answered, are history. */
  datatype Phase =
    | Queued                          // in the queue, sequence number not assigned
    | Numbered
    | Sent
    | Answered(reply: Reply)          // executed, reply on its way
    | Lost(answer: Option<Reply>)     // its message was dropped: the caller stays blocked
    | Completed(reply: Reply)
    | Returned(reply: Reply)
    | Refused                         // its number was zero: -EBUSY, and still queued

  /** A call. `seqNo` is the field of the request, which holds whatever was in the memory
      before until it is assigned. `ticket` is the increment of the device's counter that
      the number comes from, which may be that of an earlier request in the same memory;
      0 if there is none. `kept` tells whether the queue had room for the request. */
  datatype Req = Req(acc: int, kind: Kind, body: Payload, seqNo: int, ticket: nat, kept: bool, phase: Phase)

  datatype Exec = Exec(owner: nat, acc: int, kind: Kind, body: Payload, reply: Reply)

  // The stations of a message: netlink queue, proxy and connection on the way out, the
  // threads of the server, the same way back, and the threads of the client.
  const STAGES: nat := 10
  const CLIENT_NETLINK: nat := 0
  const SERVER_THREADS: nat := 4
  const SERVER_NETLINK: nat := 5
  const CLIENT_THREADS: nat := 9

  /** `queue` has the open files of the dummy device with their pending requests, oldest
      first; `usable` those whose open has returned success and whose release has not
      begun; `served` the open files of the server. `issued` counts the increments of the
      sequence counter; `log` the executions, in order. */
  datatype State = State(
    reqs: seq<Req>,
    queue: map<int, seq<nat>>,
    usable: set<int>,
    issued: nat,
    net: seq<seq<Msg>>,
    served: set<int>,
    log: seq<Exec>)

  /** `rotating`: the queue search keeps its stopper (as written it does not).
      `cleansOpen`: a failed open frees both sides (as written neither is freed). */
  datatype Config = Config(rotating: bool, cleansOpen: bool)

  /** Where the memory of a new request comes from: new pages with any content, or the
      request of a call that has returned (kmem_cache_alloc clears neither). */
  datatype Memory = Fresh(content: int) | Recycled(from: nat)

  datatype Action =
    | Begin(acc: int, kind: Kind, body: Payload, memory: Memory)
    | Number(i: nat)
    | Refuse(i: nat)
    | Send(i: nat)
    | Move(stage: nat)
    | Drop(stage: nat, p: nat)
    | Execute(p: nat, reply: Reply)
    | Complete(p: nat)
    | Return(i: nat)

  /** The value of the 32-bit counter after `ticket` increments from zero, as int. */
  function Wrap(ticket: nat): int32 {
    ToI32(ticket % TWO_TO_THE_32)
  }

  /** A value that a sequence number can have: the counter is never used at zero. */
  predicate IsNumber(x: int) {
    x != 0 && -TWO_TO_THE_31 <= x < TWO_TO_THE_31
  }

  /** The request waits for a reply, or for what leads to one. */
  predicate Pending(r: Req) {
    r.phase.Queued? || r.phase.Numbered? || r.phase.Sent? || r.phase.Answered? || r.phase.Lost?
  }

  /** The call has not returned. */
  predicate Active(r: Req) {
    !r.phase.Returned? && !r.phase.Refused?
  }

  /** The request holds a sequence number and can still be found by it. */
  predicate InUse(r: Req) {
    Pending(r) && !r.phase.Queued?
  }

  /** The answer a call was given, if it was executed. */
  function AnswerOf(r: Req): Option<Reply> {
    match r.phase
    case Answered(reply) => Some(reply)
    case Completed(reply) => Some(reply)
    case Returned(reply) => Some(reply)
    case Lost(answer) => answer
    case _ => None
  }

  function RequestMsg(i: nat, r: Req): Msg {
    Msg(i, r.acc, ToU32(r.seqNo), r.kind, Request(r.body))
  }

  function ReplyMsg(i: nat, r: Req, reply: Reply): Msg {
    Msg(i, r.acc, ToU32(r.seqNo), r.kind, Answer(reply))
  }

  function Without<T>(q: seq<T>, p: nat): seq<T>
    requires p < |q|
  {
    q[..p] + q[p + 1..]
  }

  /** The queue of an open file, as the search sees it. */
  function Entries(reqs: seq<Req>, q: seq<nat>): (es: seq<PQ.Entry<nat>>)
    requires forall p :: 0 <= p < |q| ==> q[p] < |reqs|
    ensures |es| == |q|
  {
    seq(|q|, p requires 0 <= p < |q| => PQ.Entry(q[p], reqs[q[p]].seqNo))
  }

  function Items(es: seq<PQ.Entry<nat>>): (q: seq<nat>)
    ensures |q| == |es|
  {
    seq(|es|, p requires 0 <= p < |es| => es[p].item)
  }

  function Find(c: Config, es: seq<PQ.Entry<nat>>, k: int): PQ.Search<nat> {
    if c.rotating then PQ.RotatingFind(es, k) else PQ.LiteralFind(es, k)
  }

  // ----- The actions

  ghost predicate Shape(s: State) {
    && |s.net| == STAGES
    && (forall k, p :: 0 <= k < STAGES && 0 <= p < |s.net[k]| ==>
          s.net[k][p].owner < |s.reqs| && (s.net[k][p].content.Request? <==> k <= SERVER_THREADS))
    && (forall a, p :: a in s.queue && 0 <= p < |s.queue[a]| ==> s.queue[a][p] < |s.reqs|)
    && s.usable <= s.queue.Keys
  }

  function Init(issued: nat): State {
    State([], map[], {}, issued, seq(STAGES, _ => []), {}, [])
  }

  /** What is assumed of the callers: an access id has at most one open file, is used only
      between open and release, and is released only when every other call on it has
      returned. Besides, the counter is not so fast that it comes round while an old
      request is still pending. Memory is used again after its call has returned. */
  ghost predicate Enabled(s: State, a: Action)
    requires Shape(s)
  {
    match a
    case Begin(acc, kind, _, memory) =>
      && (memory.Recycled? ==> memory.from < |s.reqs| && s.reqs[memory.from].phase.Returned?)
      && (match kind
          case Open => acc !in s.queue
          case Other(_) => acc in s.usable
          case Release =>
            acc in s.usable && forall i :: 0 <= i < |s.reqs| && s.reqs[i].acc == acc ==> !Active(s.reqs[i]))
    case Number(i) => i < |s.reqs| && s.reqs[i].phase.Queued? && Wrap(s.issued + 1) != 0 && InWindow(s)
    case Refuse(i) => i < |s.reqs| && s.reqs[i].phase.Queued? && Wrap(s.issued + 1) == 0 && InWindow(s)
    case Send(i) => i < |s.reqs| && s.reqs[i].phase.Numbered?
    case Drop(k, p) => k < STAGES && p < |s.net[k]|
    case Move(k) => k < CLIENT_THREADS && k != SERVER_THREADS && s.net[k] != []
    case Execute(p, _) => p < |s.net[SERVER_THREADS]|
    case Complete(p) => p < |s.net[CLIENT_THREADS]|
    case Return(i) => i < |s.reqs| && s.reqs[i].phase.Completed?
  }

  /** The counter can be incremented once more without coming round. */
  ghost predicate InWindow(s: State) {
    forall j :: 0 <= j < |s.reqs| && InUse(s.reqs[j]) ==> s.issued + 1 - s.reqs[j].ticket < TWO_TO_THE_32
  }

  /** What the field of a new request holds, and the increment it comes from. */
  function Placeholder(s: State, memory: Memory): (int, nat)
    requires memory.Recycled? ==> memory.from < |s.reqs|
  {
    match memory
    case Fresh(content) => (content, 0)
    case Recycled(j) => (s.reqs[j].seqNo, s.reqs[j].ticket)
  }

  /** fo_send up to the queue: fo_acc_start for an open, then fo_acc_foreq_add, which
      drops the request if the queue is full. */
  ghost function ApplyBegin(s: State, acc: int, kind: Kind, body: Payload, memory: Memory): State
    requires Shape(s) && Enabled(s, Begin(acc, kind, body, memory))
  {
    var queue := if kind.Open? then s.queue[acc := []] else s.queue;
    var kept := |queue[acc]| < PQ.SLOTS;
    var (seqNo, ticket) := Placeholder(s, memory);
    s.(reqs := s.reqs + [Req(acc, kind, body, seqNo, ticket, kept, Queued)],
       queue := if kept then queue[acc := queue[acc] + [|s.reqs|]] else queue,
       usable := if kind.Release? then s.usable - {acc} else s.usable)
  }

  ghost function ApplyExecute(c: Config, s: State, p: nat, reply: Reply): State
    requires Shape(s) && p < |s.net[SERVER_THREADS]|
  {
    var m := s.net[SERVER_THREADS][p];
    var rest := s.net[SERVER_THREADS := Without(s.net[SERVER_THREADS], p)];
    var r := s.reqs[m.owner];
    if m.acc !in s.served && !m.kind.Open? then
      // no opened file: the thread gives up
      s.(net := rest, reqs := s.reqs[m.owner := r.(phase := Lost(None))])
    else
      s.(net := rest[SERVER_NETLINK := rest[SERVER_NETLINK] + [m.(content := Answer(reply))]],
         reqs := s.reqs[m.owner := r.(phase := Answered(reply))],
         log := s.log + [Exec(m.owner, m.acc, m.kind, m.content.body, reply)],
         served := if m.kind.Release? || (m.kind.Open? && reply.Failed? && c.cleansOpen) then s.served - {m.acc}
                   else s.served + {m.acc})
  }

  ghost function ApplyComplete(c: Config, s: State, p: nat): State
    requires Shape(s) && p < |s.net[CLIENT_THREADS]|
  {
    var m := s.net[CLIENT_THREADS][p];
    var reply := m.content.reply;
    var net := s.net[CLIENT_THREADS := Without(s.net[CLIENT_THREADS], p)];
    var lost := s.reqs[m.owner := s.reqs[m.owner].(phase := Lost(Some(reply)))];
    if m.acc !in s.queue then s.(net := net, reqs := lost)
    else
      var es := Entries(s.reqs, s.queue[m.acc]);
      var r := Find(c, es, ToI32(m.key));
      var queue := s.queue[m.acc := Items(r.rest)];
      if r.hit.None? || r.hit.value.item >= |s.reqs| then s.(net := net, queue := queue, reqs := lost)
      else
        // the request that is found is completed, whose ever it is
        var j := r.hit.value.item;
        s.(net := net, queue := queue,
           reqs := (if j == m.owner then s.reqs else lost)[j := s.reqs[j].(phase := Completed(reply))])
  }

  ghost function ApplyReturn(c: Config, s: State, i: nat): State
    requires Shape(s) && i < |s.reqs| && s.reqs[i].phase.Completed?
  {
    var r := s.reqs[i];
    var reply := r.phase.reply;
    var frees := r.kind.Release? || (r.kind.Open? && reply.Failed? && c.cleansOpen);
    s.(reqs := s.reqs[i := r.(phase := Returned(reply))],
       queue := if frees then s.queue - {r.acc} else s.queue,
       usable := if frees then s.usable - {r.acc}
                 else if r.kind.Open? && reply.Done? && r.acc in s.queue then s.usable + {r.acc} else s.usable)
  }

  /** fo_send when the number is zero: the request is freed, but stays in the queue. */
  ghost function ApplyRefuse(c: Config, s: State, i: nat): State
    requires Shape(s) && i < |s.reqs|
  {
    var r := s.reqs[i];
    var frees := r.kind.Release? || (r.kind.Open? && c.cleansOpen);
    s.(issued := s.issued + 1,
       reqs := s.reqs[i := r.(seqNo := 0, ticket := 0, phase := Refused)],
       queue := if frees then s.queue - {r.acc} else s.queue,
       usable := if frees then s.usable - {r.acc} else s.usable)
  }

  /** The message is gone: a proxy took it for a confirmation, or a send failed. */
  ghost function ApplyDrop(s: State, k: nat, p: nat): State
    requires Shape(s) && k < STAGES && p < |s.net[k]|
  {
    var i := s.net[k][p].owner;
    s.(net := s.net[k := Without(s.net[k], p)],
       reqs := s.reqs[i := s.reqs[i].(phase := Lost(AnswerOf(s.reqs[i])))])
  }

  ghost function Apply(c: Config, s: State, a: Action): State
    requires Shape(s) && Enabled(s, a)
  {
    match a
    case Begin(acc, kind, body, memory) => ApplyBegin(s, acc, kind, body, memory)
    case Number(i) =>
      s.(issued := s.issued + 1,
         reqs := s.reqs[i := s.reqs[i].(seqNo := Wrap(s.issued + 1), ticket := s.issued + 1, phase := Numbered)])
    case Send(i) =>
      s.(reqs := s.reqs[i := s.reqs[i].(phase := Sent)],
         net := s.net[CLIENT_NETLINK := s.net[CLIENT_NETLINK] + [RequestMsg(i, s.reqs[i])]])
    case Move(k) =>
      s.(net := s.net[k := s.net[k][1..]][k + 1 := s.net[k + 1] + [s.net[k][0]]])
    case Refuse(i) => ApplyRefuse(c, s, i)
    case Drop(k, p) => ApplyDrop(s, k, p)
    case Execute(p, reply) => ApplyExecute(c, s, p, reply)
    case Complete(p) => ApplyComplete(c, s, p)
    case Return(i) => ApplyReturn(c, s, i)
  }

  /** The state after a sequence of actions, if each is possible when its turn comes. */
  ghost function Run(c: Config, s: State, actions: seq<Action>): Option<State>
    decreases |actions|
  {
    if actions == [] then Some(s)
    else if Shape(s) && Enabled(s, actions[0]) then Run(c, Apply(c, s, actions[0]), actions[1..])
    else None
  }
}
