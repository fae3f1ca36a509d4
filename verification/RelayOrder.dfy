/** The order in which the two machines pass operations on: a call that begins after another
    is completed sends its request after the acknowledgement of that reply, and nothing
    overtakes between a kernel and the other proxy (kernel/netlink.c:94-107, 162-165;
    daemon/proxy.c:226-308). */
module RelayOrder {
  import opened Bytes
  import opened Relay
  import opened RelayRuns

  // ----- What a later call comes after

  /** `c` is completed, and all operations from number `n` on count as its consequences. */
  ghost predicate Follows(s: Pair, n: nat, c: nat) {
    && c < |s.phase| && n <= |s.phase| && s.phase[c].Completed?
    && forall id :: n <= id < |s.phase| ==> id in s.client.after && c in s.client.after[id]
  }

  /** Every operation is where its phase says, and a thread about to put its message in the
      queue is a sender. */
  ghost predicate Placed(s: Pair, side: Side) {
    var n := NodeOf(s, side);
    && Located(n, side, Out(s, side), s.phase)
    && (n.lock.BySender? && !n.lock.sent ==> n.lock.id in n.sending)
  }

  lemma CompletedStays(s: Pair, a: Action, c: nat)
    requires Placed(s, Client) && Placed(s, Server) && Enabled(s, a) && c < |s.phase| && s.phase[c].Completed?
    ensures c < |Apply(s, a).phase| && Apply(s, a).phase[c].Completed?
  {
    match a
    case Begin =>
    case Kernel(side, step) => KernelCompleted(s, side, step, c);
    case Forward(side) => ForwardCompleted(s, side, c);
    case Arrive(side) => ArriveCompleted(s, side, c);
    case Finish(side, id) => FinishCompleted(s, side, id, c);
  }

  lemma ForwardCompleted(s: Pair, side: Side, c: nat)
    requires Located(NodeOf(s, side), side, Out(s, side), s.phase) && Enabled(s, Forward(side))
    requires c < |s.phase| && s.phase[c].Completed?
    ensures c < |Apply(s, Forward(side)).phase| && Apply(s, Forward(side)).phase[c].Completed?
  {
    assert Is(s.phase, NodeOf(s, side).proxy.id, On(side, Hand));
  }

  lemma FinishCompleted(s: Pair, side: Side, id: nat, c: nat)
    requires Located(NodeOf(s, side), side, Out(s, side), s.phase) && Enabled(s, Finish(side, id))
    requires c < |s.phase| && s.phase[c].Completed?
    ensures c < |Apply(s, Finish(side, id)).phase| && Apply(s, Finish(side, id)).phase[c].Completed?
  {
    assert Is(s.phase, id, On(side, Running));
  }

  lemma KernelCompleted(s: Pair, side: Side, step: NodeAction, c: nat)
    requires Placed(s, side) && Enabled(s, Kernel(side, step))
    requires c < |s.phase| && s.phase[c].Completed?
    ensures c < |Apply(s, Kernel(side, step)).phase| && Apply(s, Kernel(side, step)).phase[c].Completed?
  {
    KernelResult(s, side, step);
    MovedIsOn(NodeOf(s, side), side, Out(s, side), s.phase, step);
  }

  lemma MovedIsOn(n: Node, side: Side, out: seq<nat>, phase: seq<Phase>, step: NodeAction)
    requires Located(n, side, out, phase) && NodeEnabled(n, step) && (step.Put? ==> n.lock.id in n.sending)
    ensures Moved(n, side, step).Some? ==>
              var id := Moved(n, side, step).value.0;
              id < |phase| && phase[id].On?
  {
    match step
    case Wake => assert Arriving(n.recv, n.recv.id);
    case Confirm => assert n.nl[0] in n.nl;
    case TakeOut => assert n.nl[0] in n.nl;
    case _ =>
  }

  lemma ArriveCompleted(s: Pair, side: Side, c: nat)
    requires Located(NodeOf(s, Peer(side)), Peer(side), Out(s, Peer(side)), s.phase) && Enabled(s, Arrive(side))
    requires c < |s.phase| && s.phase[c].Completed?
    ensures c < |Apply(s, Arrive(side)).phase| && Apply(s, Arrive(side)).phase[c].Completed?
  {
    assert Out(s, Peer(side))[0] in Out(s, Peer(side));
    assert Is(s.phase, Out(s, Peer(side))[0], On(Peer(side), Wire));
  }

  /** Only the beginning of a call says what it is a consequence of at the client. */
  lemma AfterStays(s: Pair, a: Action)
    requires Enabled(s, a)
    ensures var t := Apply(s, a);
            && |t.phase| == |s.phase| + (if a.Begin? then 1 else 0)
            && (a.Begin? ==> t.client.after == s.client.after[|s.phase| := Done(s)])
            && (!a.Begin? ==> t.client.after == s.client.after)
  {
  }

  lemma FollowsStep(s: Pair, a: Action, n: nat, c: nat)
    requires Placed(s, Client) && Placed(s, Server) && Enabled(s, a) && Follows(s, n, c)
    ensures Follows(Apply(s, a), n, c)
  {
    CompletedStays(s, a, c);
    AfterStays(s, a);
    assert c in Done(s);
  }

  lemma {:induction false} FollowsRun(s: Pair, actions: seq<Action>, n: nat, c: nat)
    requires Inv(s) && IsRun(s, actions) && Follows(s, n, c)
    ensures Inv(Run(s, actions)) && Follows(Run(s, actions), n, c)
    decreases |actions|
  {
    if actions != [] {
      StepKeeps(s, actions[0]);
      FollowsStep(s, actions[0], n, c);
      FollowsRun(Apply(s, actions[0]), actions[1..], n, c);
    }
  }

  lemma {:induction false} RunSplit(s: Pair, before: seq<Action>, after: seq<Action>)
    requires IsRun(s, before + after)
    ensures IsRun(s, before) && IsRun(Run(s, before), after)
    ensures Run(s, before + after) == Run(Run(s, before), after)
    decreases |before|
  {
    if before == [] {
      assert before + after == after;
    } else {
      assert (before + after)[1..] == before[1..] + after;
      RunSplit(Apply(s, before[0]), before[1..], after);
    }
  }

  /** In every run: if a call is completed, and another begins after that, then the request
      of the second enters the queue of the client's proxy after the acknowledgement of the
      reply of the first. */
  lemma LaterCallComesAfterAck(before: seq<Action>, after: seq<Action>, c: nat, id: nat, p: nat)
    requires IsRun(Init(), before + after) && IsRun(Init(), before)
    requires c < |Run(Init(), before).phase| <= id && Run(Init(), before).phase[c].Completed?
    requires p < |Run(Init(), before + after).client.log| && Run(Init(), before + after).client.log[p] == Fo(id)
    ensures AckedBefore(Run(Init(), before + after).client.log, p, c)
  {
    RunSplit(Init(), before, after);
    InitInv();
    RunKeeps(Init(), before);
    var s := Run(Init(), before);
    FollowsRun(s, after, |s.phase|, c);
    AckedIn(Run(s, after), |s.phase|, c, id, p);
  }

  lemma AckedIn(t: Pair, n: nat, c: nat, id: nat, p: nat)
    requires SideInv(t.client, Client, t.up, t.phase) && Follows(t, n, c) && n <= id
    requires p < |t.client.log| && t.client.log[p] == Fo(id)
    ensures AckedBefore(t.client.log, p, c)
  {
    assert t.client.log[p].Fo? && id in t.client.after;
  }

  /** There is a run with two such calls. */
  lemma ALaterCallCanBeSent()
    ensures exists before, after, p: nat ::
              && IsRun(Init(), before + after) && IsRun(Init(), before) && Run(Init(), before).phase == [Completed]
              && p < |Run(Init(), before + after).client.log| && Run(Init(), before + after).client.log[p] == Fo(1)
  {
    var before, s := ACallCanComplete();
    var actions, t := SecondSent(before, s);
    var p := |t.client.log| - 1;
    assert t.client.log[p] == Fo(1);
    assert actions == before + actions[|before|..];
  }

  lemma SecondSent(before: seq<Action>, s: Pair) returns (actions: seq<Action>, t: Pair)
    requires IsRun(Init(), before) && Run(Init(), before) == s
    requires s.phase == [Completed] && s.client.lock.Free?
    ensures IsRun(Init(), actions) && Run(Init(), actions) == t && before <= actions
    ensures t.client.log != [] && t.client.log[|t.client.log| - 1] == Fo(1)
  {
    actions, t := Then(before, s, Begin);
    actions, t := Then(actions, t, Kernel(Client, Acquire(1)));
    actions, t := Then(actions, t, Kernel(Client, Put));
  }

  // ----- Nothing overtakes

  function FoIds(nl: seq<NlMsg>): seq<nat> {
    if nl == [] then [] else (if nl[0].Fo? then [nl[0].id] else []) + FoIds(nl[1..])
  }

  /** The operations that a machine has for the other side and has not sent yet. */
  function Waiting(n: Node): seq<nat> {
    (if n.proxy.Holding? then [n.proxy.id] else []) + FoIds(n.nl)
  }

  /** The operations between the kernel of one side and the proxy of the other, first the one
      that arrives first. */
  function Line(s: Pair, side: Side): seq<nat> {
    Out(s, side) + Waiting(NodeOf(s, side))
  }

  lemma {:induction false} FoIdsAppend(nl: seq<NlMsg>, m: NlMsg)
    ensures FoIds(nl + [m]) == FoIds(nl) + if m.Fo? then [m.id] else []
  {
    if nl == [] {
      assert nl + [m] == [m] && [m][1..] == [] && FoIds([]) == [];
    } else {
      var first := if nl[0].Fo? then [nl[0].id] else [];
      var last := if m.Fo? then [m.id] else [];
      assert (nl + [m])[1..] == nl[1..] + [m];
      FoIdsAppend(nl[1..], m);
      assert first + (FoIds(nl[1..]) + last) == first + FoIds(nl[1..]) + last;
    }
  }

  lemma NodeWaiting(n: Node, step: NodeAction)
    requires NodeEnabled(n, step)
    ensures var m := NodeApply(n, step);
            match step
            case Put => Waiting(m) == Waiting(n) + [n.lock.id]
            case Confirm => if n.nl[0].Fo? then Waiting(n) == [n.nl[0].id] + Waiting(m) else Waiting(m) == Waiting(n)
            case _ => Waiting(m) == Waiting(n)
  {
    match step
    case Put =>
      FoIdsAppend(n.nl, Fo(n.lock.id));
      assert Waiting(NodeApply(n, step)) == Waiting(n) + [n.lock.id];
    case SendAck => FoIdsAppend(n.nl, Ack(n.recv.id));
    case _ =>
  }

  /** What a step does to the operations on their way from one side: a message that is put in
      the queue comes last; one that arrives was first; and nothing else changes the line,
      but that a message is gone when it is taken for a confirmation. */
  lemma LineKeeps(s: Pair, side: Side, a: Action)
    requires Enabled(s, a)
    ensures var t := Apply(s, a);
            var n := NodeOf(s, side);
            match a
            case Kernel(d, step) =>
              if d != side then Line(t, side) == Line(s, side)
              else if step.Put? then Line(t, side) == Line(s, side) + [n.lock.id]
              else if step.Confirm? && n.nl[0].Fo? then
                Line(s, side) == Out(s, side) + [n.nl[0].id] + Waiting(NodeOf(t, side)) && Out(t, side) == Out(s, side)
              else Line(t, side) == Line(s, side)
            case Arrive(d) => if d == side then Line(t, side) == Line(s, side) else Line(t, side) == Line(s, side)[1..]
            case _ => Line(t, side) == Line(s, side)
  {
    match a
    case Kernel(d, step) =>
      KernelResult(s, d, step);
      KernelLine(s, side, d, step);
    case Forward(d) => ForwardLine(s, side, d);
    case _ =>
  }

  lemma KernelLine(s: Pair, side: Side, d: Side, step: NodeAction)
    requires NodeEnabled(NodeOf(s, d), step)
    ensures var n := NodeOf(s, side);
            var line := Out(s, side) + Waiting(if d == side then NodeApply(n, step) else n);
            if d != side then line == Line(s, side)
            else if step.Put? then line == Line(s, side) + [n.lock.id]
            else if step.Confirm? && n.nl[0].Fo? then
              Line(s, side) == Out(s, side) + [n.nl[0].id] + Waiting(NodeApply(n, step))
            else line == Line(s, side)
  {
    NodeWaiting(NodeOf(s, d), step);
  }

  lemma ForwardLine(s: Pair, side: Side, d: Side)
    requires Enabled(s, Forward(d))
    ensures Line(Apply(s, Forward(d)), side) == Line(s, side)
  {
    var n := NodeOf(s, side);
    if d == side {
      assert Out(s, side) + [n.proxy.id] + FoIds(n.nl) == Out(s, side) + ([n.proxy.id] + FoIds(n.nl));
      assert Waiting(n.(proxy := Ready)) == FoIds(n.nl);
    }
  }
}
