/** Concurrent remote calls are direct calls, one after another: the remote calls of `Rpc`
    with a device behind them. The order is that of the executions, and agrees with the
    order in which calls return and begin (kernel/fo_comm.c:18-246). */
module Concurrent {
  import opened Bytes
  import opened Codec
  import opened Protocol
  import Server = Execution
  import Calls
  import opened Rpc
  import RpcSafety
  import opened Ledger
  import opened RpcResults

  function TypeOf(k: Kind): int {
    match k
    case Open => MSGT_FO_OPEN
    case Release => MSGT_FO_RELEASE
    case Other(msgtype) => msgtype
  }

  /** What the server does with a request for one of its open files. `S` is the state of
      all of them, each with its operations. A request it cannot read is answered as a
      failure. */
  ghost function Serve<S(!new)>(ops: int -> Server.FileOps<S>, world: S, acc: int, kind: Kind, body: Payload)
    : (S, Reply)
  {
    if Server.WellBehaved(ops(acc)) && Server.Executable(TypeOf(kind), body) then
      var (after, reply) := Server.Execute(ops(acc), world, TypeOf(kind), body);
      var failed := Server.Handle(ops(acc), world, Server.HandlerFor(TypeOf(kind)), Decode(body)).reply.None?;
      (after, if failed then Failed else Done(reply))
    else (world, Failed)
  }

  /** The state of the server after a sequence of executions, one after another. */
  ghost function World<S(!new)>(ops: int -> Server.FileOps<S>, start: S, log: seq<Exec>): S {
    if log == [] then start
    else
      var last := log[|log| - 1];
      Serve(ops, World(ops, start, log[..|log| - 1]), last.acc, last.kind, last.body).0
  }

  /** A run whose executions answer what the server does at that time. */
  ghost predicate Attached<S(!new)>(ops: int -> Server.FileOps<S>, start: S, c: Config, s: State, actions: seq<Action>)
    decreases |actions|
  {
    actions == [] ||
    (Shape(s) && Enabled(s, actions[0]) && Answers(ops, start, s, actions[0])
     && Attached(ops, start, c, Apply(c, s, actions[0]), actions[1..]))
  }

  ghost predicate Answers<S(!new)>(ops: int -> Server.FileOps<S>, start: S, s: State, a: Action)
    requires Shape(s) && Enabled(s, a)
  {
    a.Execute? ==>
      var m := s.net[SERVER_THREADS][a.p];
      a.reply == Serve(ops, World(ops, start, s.log), m.acc, m.kind, m.content.body).1
  }

  // ----- The log is a sequential history

  ghost predicate Sequential<S(!new)>(ops: int -> Server.FileOps<S>, start: S, log: seq<Exec>) {
    forall k :: 0 <= k < |log| ==>
      log[k].reply == Serve(ops, World(ops, start, log[..k]), log[k].acc, log[k].kind, log[k].body).1
  }

  lemma SequentialAppend<S(!new)>(ops: int -> Server.FileOps<S>, start: S, log: seq<Exec>, e: Exec)
    requires Sequential(ops, start, log)
    requires e.reply == Serve(ops, World(ops, start, log), e.acc, e.kind, e.body).1
    ensures Sequential(ops, start, log + [e])
  {
    assert (log + [e])[..|log|] == log;
    assert forall k :: 0 <= k < |log| ==> (log + [e])[..k] == log[..k];
  }

  /** A step adds at most one execution to the log. */
  lemma LogGrows(c: Config, s: State, a: Action)
    requires Shape(s) && Enabled(s, a)
    ensures var t := Apply(c, s, a);
            && |s.reqs| <= |t.reqs|
            && (t.log == s.log
                || (a.Execute? && var m := s.net[SERVER_THREADS][a.p];
                    t.log == s.log + [Exec(m.owner, m.acc, m.kind, m.content.body, a.reply)]))
  {
  }

  lemma {:induction false} RunIsSequential<S(!new)>(ops: int -> Server.FileOps<S>, start: S,
                                                    c: Config, s: State, actions: seq<Action>)
    requires Sequential(ops, start, s.log) && Attached(ops, start, c, s, actions)
    ensures Run(c, s, actions).Some?
    ensures Sequential(ops, start, Run(c, s, actions).value.log)
    decreases |actions|
  {
    if actions != [] {
      var a := actions[0];
      LogGrows(c, s, a);
      if Apply(c, s, a).log != s.log {
        var m := s.net[SERVER_THREADS][a.p];
        SequentialAppend(ops, start, s.log, Exec(m.owner, m.acc, m.kind, m.content.body, a.reply));
      }
      RunIsSequential(ops, start, c, Apply(c, s, a), actions[1..]);
    }
  }

  /** Whatever such a run has sent to the server, the server can answer. */
  lemma ServerCanAnswer<S(!new)>(ops: int -> Server.FileOps<S>, start: S, c: Config, s: State,
                                 actions: seq<Action>, p: nat)
    requires Attached(ops, start, c, s, actions) && Run(c, s, actions).Some?
    requires Shape(Run(c, s, actions).value) && p < |Run(c, s, actions).value.net[SERVER_THREADS]|
    ensures exists reply :: Attached(ops, start, c, s, actions + [Execute(p, reply)])
  {
    var t := Run(c, s, actions).value;
    var m := t.net[SERVER_THREADS][p];
    var reply := Serve(ops, World(ops, start, t.log), m.acc, m.kind, m.content.body).1;
    AttachedAppend(ops, start, c, s, actions, Execute(p, reply));
  }

  lemma {:induction false} AttachedAppend<S(!new)>(ops: int -> Server.FileOps<S>, start: S, c: Config, s: State,
                                                   actions: seq<Action>, a: Action)
    requires Attached(ops, start, c, s, actions) && Run(c, s, actions).Some?
    requires var t := Run(c, s, actions).value;
             Shape(t) && Enabled(t, a) && Answers(ops, start, t, a)
    ensures Attached(ops, start, c, s, actions + [a])
    decreases |actions|
  {
    if actions == [] {
      assert (actions + [a])[1..] == [];
    } else {
      assert (actions + [a])[1..] == actions[1..] + [a];
      AttachedAppend(ops, start, c, Apply(c, s, actions[0]), actions[1..], a);
    }
  }

  // ----- The place of a call in the history

  lemma {:induction false} RunsAt(log: seq<Exec>, i: nat)
    ensures forall e :: e in Runs(log, i) ==> exists k :: 0 <= k < |log| && log[k] == e && e.owner == i
    ensures forall k :: 0 <= k < |log| && log[k].owner == i ==> log[k] in Runs(log, i)
    decreases |log|
  {
    if log != [] {
      var front := log[..|log| - 1];
      RunsAt(front, i);
      forall e | e in Runs(log, i)
        ensures exists k :: 0 <= k < |log| && log[k] == e && e.owner == i
      {
        if e in Runs(front, i) {
          var k :| 0 <= k < |front| && front[k] == e && e.owner == i;
          assert log[k] == e;
        } else {
          assert log[|log| - 1] == e;
        }
      }
      forall k | 0 <= k < |log| && log[k].owner == i
        ensures log[k] in Runs(log, i)
      {
        if k < |front| {
          assert front[k] == log[k];
        }
      }
    }
  }

  /** Two executions of one call would both be among its executions. */
  lemma {:induction false} AtMostOnce(log: seq<Exec>, i: nat, k: nat, k': nat)
    requires k < k' < |log| && log[k].owner == i == log[k'].owner
    ensures |Runs(log, i)| >= 2
    decreases |log|
  {
    var front := log[..|log| - 1];
    assert front[k] == log[k];
    if k' < |front| {
      AtMostOnce(front, i, k, k');
    } else {
      RunsAt(front, i);
      assert front[k] in Runs(front, i);
    }
  }

  lemma OnePlace(log: seq<Exec>, i: nat, k: nat, k': nat)
    requires |Runs(log, i)| <= 1
    requires k < |log| && k' < |log| && log[k].owner == i == log[k'].owner
    ensures k == k'
  {
    if k < k' {
      AtMostOnce(log, i, k, k');
    } else if k' < k {
      AtMostOnce(log, i, k', k);
    }
  }

  /** A call with one execution has one place in the history. */
  lemma PlaceOf(log: seq<Exec>, i: nat, e: Exec) returns (k: nat)
    requires Runs(log, i) == [e]
    ensures k < |log| && log[k] == e && e.owner == i
    ensures forall k' :: 0 <= k' < |log| && log[k'].owner == i ==> k' == k
  {
    RunsAt(log, i);
    assert e in Runs(log, i);
    k :| 0 <= k < |log| && log[k] == e && e.owner == i;
    forall k' | 0 <= k' < |log| && log[k'].owner == i
      ensures k' == k
    {
      OnePlace(log, i, k, k');
    }
  }

  predicate IsCompleted(r: Req) {
    r.phase.Completed? || r.phase.Returned?
  }

  lemma PlaceIn(s: State, i: nat) returns (k: nat)
    requires RpcSafety.Logged(s) && i < |s.reqs| && IsCompleted(s.reqs[i])
    ensures var r := s.reqs[i];
            k < |s.log| && s.log[k] == Exec(i, r.acc, r.kind, r.body, r.phase.reply)
    ensures forall k' :: 0 <= k' < |s.log| && s.log[k'].owner == i ==> k' == k
  {
    OneRun(s, i);
    k := PlaceOf(s.log, i, Runs(s.log, i)[0]);
  }

  // ----- What a caller decodes

  /** The payload of the reply; a failure echoes the request. */
  function Answered(body: Payload, reply: Reply): Payload {
    if reply.Failed? then body else reply.body
  }

  /** What fo_complete leaves of a reply in the request and its buffers. */
  ghost predicate Delivers<S>(payload: Payload, args: Payload, data: Option<Payload>, r: Calls.Remote<S>) {
    && Decodable(payload)
    && Fits(payload, Some(|args|), if data.None? then None else Some(|data.value|))
    && r.rvalue == Rvalue(payload)
    && r.args == Splice(args, 0, ArgsPart(payload))
    && r.data == if data.None? then None else Some(Splice(data.value, 0, DataPart(payload)))
  }

  // ----- The results

  /** The arguments with which a call was made. */
  datatype Call = Call(accessId: int32, args: Payload, data: Option<Payload>, dataSize: nat)

  ghost predicate MadeWith(r: Req, call: Call) {
    && r.acc == call.accessId
    && Calls.Callable(TypeOf(r.kind), call.args, call.data, call.dataSize)
    && r.body == Calls.Request(TypeOf(r.kind), call.accessId, call.args, call.data, call.dataSize)
  }

  /** The call `r`, made directly at a server in the state `world`. */
  ghost function Directly<S(!new)>(ops: int -> Server.FileOps<S>, world: S, r: Req, call: Call): Calls.Remote<S>
    requires MadeWith(r, call) && Server.WellBehaved(ops(call.accessId))
  {
    Calls.RemoteCall(ops(call.accessId), world, TypeOf(r.kind), call.accessId, call.args, call.data, call.dataSize)
  }

  /** Serving the request of a call, and decoding the answer, is the remote call. */
  lemma ServedIsDirect<S(!new)>(ops: int -> Server.FileOps<S>, world: S, r: Req, call: Call)
    requires MadeWith(r, call) && Server.WellBehaved(ops(call.accessId))
    ensures var served := Serve(ops, world, r.acc, r.kind, r.body);
            var direct := Directly(ops, world, r, call);
            served.0 == direct.state && Delivers(Answered(r.body, served.1), call.args, call.data, direct)
  {
    Calls.ReplyFits(ops(call.accessId), world, TypeOf(r.kind), call.accessId, call.args, call.data, call.dataSize);
  }

  /** An open reaches the device: it is as its own open leaves it, unless that fails. */
  lemma OpenReachesDevice<S(!new)>(ops: int -> Server.FileOps<S>, world: S, acc: int32, args: Payload)
    requires Server.WellBehaved(ops(acc)) && |args| == Server.OPEN_SIZE
    ensures Calls.Callable(MSGT_FO_OPEN, args, None, 0)
    ensures var after := Serve(ops, world, acc, Open, Calls.Request(MSGT_FO_OPEN, acc, args, None, 0));
            match ops(acc).open(world)
            case None => after == (world, Failed)
            case Some(t) => after.0 == t && after.1.Done?
  {
    Calls.ExactRoundTrip(Calls.RequestImage(acc, args, None, 0));
  }

  /** And so does a release. */
  lemma ReleaseReachesDevice<S(!new)>(ops: int -> Server.FileOps<S>, world: S, acc: int32, args: Payload)
    requires Server.WellBehaved(ops(acc)) && |args| == Server.STATUS_SIZE
    ensures Calls.Callable(MSGT_FO_RELEASE, args, None, 0)
    ensures var after := Serve(ops, world, acc, Release, Calls.Request(MSGT_FO_RELEASE, acc, args, None, 0));
            after.0 == ops(acc).release(world).0 && after.1.Done?
  {
    Calls.ExactRoundTrip(Calls.RequestImage(acc, args, None, 0));
  }

  /** Any other operation is performed under its own message type. */
  lemma OthersReachDevice<S(!new)>(ops: int -> Server.FileOps<S>, world: S, msgtype: int, call: Call)
    requires Server.WellBehaved(ops(call.accessId)) && Calls.Callable(msgtype, call.args, call.data, call.dataSize)
    ensures var body := Calls.Request(msgtype, call.accessId, call.args, call.data, call.dataSize);
            Serve(ops, world, call.accessId, Other(msgtype), body).0
            == Calls.RemoteCall(ops(call.accessId), world, msgtype, call.accessId,
                                call.args, call.data, call.dataSize).state
  {
    Calls.ReplyFits(ops(call.accessId), world, msgtype, call.accessId, call.args, call.data, call.dataSize);
  }

  /** The call is at place `k` of the history and nowhere else; what it decodes, and the
      device after it, are those of the remote call made there alone. */
  ghost predicate DirectAt<S(!new)>(ops: int -> Server.FileOps<S>, start: S, s: State, i: nat, call: Call, k: nat)
    requires i < |s.reqs| && IsCompleted(s.reqs[i])
    requires MadeWith(s.reqs[i], call) && Server.WellBehaved(ops(call.accessId))
  {
    && k < |s.log| && s.log[k].owner == i
    && (forall k' :: 0 <= k' < |s.log| && s.log[k'].owner == i ==> k' == k)
    && var direct := Directly(ops, World(ops, start, s.log[..k]), s.reqs[i], call);
    && Delivers(Answered(s.reqs[i].body, s.reqs[i].phase.reply), call.args, call.data, direct)
    && World(ops, start, s.log[..k + 1]) == direct.state
  }

  lemma CallIsDirect<S(!new)>(ops: int -> Server.FileOps<S>, start: S, s: State, i: nat, call: Call) returns (k: nat)
    requires RpcSafety.Logged(s) && Sequential(ops, start, s.log)
    requires i < |s.reqs| && IsCompleted(s.reqs[i])
    requires MadeWith(s.reqs[i], call) && Server.WellBehaved(ops(call.accessId))
    ensures DirectAt(ops, start, s, i, call, k)
  {
    var r := s.reqs[i];
    k := PlaceIn(s, i);
    ServedIsDirect(ops, World(ops, start, s.log[..k]), r, call);
    assert s.log[..k + 1][..k] == s.log[..k];
  }

  /** With any number of callers at once, in every run: each completed call has one place in
      the order of the executions, and what it decodes, and the device after it, are those
      of the call made there directly, alone and after the ones before it. */
  lemma CallsAreDirectCalls<S(!new)>(ops: int -> Server.FileOps<S>, start: S, c: Config, issued: nat,
                                     actions: seq<Action>, s: State, i: nat, call: Call) returns (k: nat)
    requires CleanRun(c, Init(issued), actions) && Attached(ops, start, c, Init(issued), actions)
    requires Run(c, Init(issued), actions) == Some(s) && i < |s.reqs| && IsCompleted(s.reqs[i])
    requires MadeWith(s.reqs[i], call) && Server.WellBehaved(ops(call.accessId))
    ensures DirectAt(ops, start, s, i, call, k)
  {
    RunLogged(c, issued, actions);
    RunIsSequential(ops, start, c, Init(issued), actions);
    k := CallIsDirect(ops, start, s, i, call);
  }

  lemma {:induction false} RunSplit(c: Config, s: State, before: seq<Action>, after: seq<Action>)
    requires CleanRun(c, s, before + after) && Run(c, s, before + after).Some?
    ensures CleanRun(c, s, before) && Run(c, s, before).Some?
    ensures Run(c, s, before + after) == Run(c, Run(c, s, before).value, after)
    decreases |before|
  {
    if before == [] {
      assert before + after == after;
    } else {
      assert (before + after)[1..] == before[1..] + after;
      RunSplit(c, Apply(c, s, before[0]), before[1..], after);
    }
  }

  lemma {:induction false} RunGrows(c: Config, s: State, actions: seq<Action>)
    requires Run(c, s, actions).Some?
    ensures s.log <= Run(c, s, actions).value.log
    ensures |s.reqs| <= |Run(c, s, actions).value.reqs|
    decreases |actions|
  {
    if actions != [] {
      LogGrows(c, s, actions[0]);
      RunGrows(c, Apply(c, s, actions[0]), actions[1..]);
    }
  }

  lemma OwnersExist(s: State, k: nat)
    requires RpcSafety.Logged(s) && k < |s.log|
    ensures s.log[k].owner < |s.reqs|
  {
    assert s.log[k] in multiset(s.log);
    var i := SumSource(s.reqs, s.log[k], RpcSafety.Executed);
  }

  lemma RunLogged(c: Config, issued: nat, actions: seq<Action>)
    requires CleanRun(c, Init(issued), actions)
    ensures Run(c, Init(issued), actions).Some? && RpcSafety.Logged(Run(c, Init(issued), actions).value)
  {
    InitInv(issued);
    RunKeeps(c, Init(issued), actions);
  }

  lemma HistoryGrows(c: Config, issued: nat, before: seq<Action>, after: seq<Action>, s: State, t: State)
    requires CleanRun(c, Init(issued), before + after)
    requires Run(c, Init(issued), before) == Some(s) && Run(c, Init(issued), before + after) == Some(t)
    ensures RpcSafety.Logged(s) && RpcSafety.Logged(t) && s.log <= t.log && |s.reqs| <= |t.reqs|
  {
    RunSplit(c, Init(issued), before, after);
    RunLogged(c, issued, before);
    RunLogged(c, issued, before + after);
    RunGrows(c, s, after);
  }

  /** The order agrees with real time: a call that was completed before another began is
      before it in the history, in every run. */
  lemma OrderIsRealTime(c: Config, issued: nat, before: seq<Action>, after: seq<Action>, s: State, t: State,
                        i: nat, k: nat, k': nat)
    requires CleanRun(c, Init(issued), before + after)
    requires Run(c, Init(issued), before) == Some(s) && Run(c, Init(issued), before + after) == Some(t)
    requires i < |s.reqs| && IsCompleted(s.reqs[i])
    requires k < |t.log| && t.log[k].owner == i
    requires k' < |t.log| && t.log[k'].owner >= |s.reqs|
    ensures k < k'
  {
    HistoryGrows(c, issued, before, after, s, t);
    OneRun(s, i);
    AtMostOneRun(t, i);
    PlacesInOrder(s, t.log, i, k, k');
  }

  /** What was executed before is before what is executed of later calls. */
  lemma PlacesInOrder(s: State, log: seq<Exec>, i: nat, k: nat, k': nat)
    requires RpcSafety.Logged(s) && s.log <= log && |Runs(s.log, i)| == 1 && |Runs(log, i)| <= 1
    requires k < |log| && log[k].owner == i && k' < |log| && log[k'].owner >= |s.reqs|
    ensures k < k'
  {
    var x := PlaceOf(s.log, i, Runs(s.log, i)[0]);
    assert log[x] == s.log[x];
    OnePlace(log, i, x, k);
    if k' < |s.log| {
      assert log[k'] == s.log[k'];
      OwnersExist(s, k');
    }
  }
}
