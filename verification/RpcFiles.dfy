/** Open files on both sides of the remote calls, from open to release, and the runs in
    which no caller is left blocked. */
module RpcFiles {
  import opened Bytes
  import opened Rpc
  import opened RpcSafety
  import PQ = PendingQueue
  import Results = RpcResults

  /** Where the server has an open file while the client has one. */
  ghost predicate Served(c: Config, s: State) {
    && s.usable <= s.served <= s.queue.Keys
    && (forall i :: 0 <= i < |s.reqs| && Active(s.reqs[i]) ==> FileOf(c, s, s.reqs[i]))
  }

  /** What an active call says about its open file: one in use for an ordinary call; for
      an open none until it has been executed with success; for a release one until then.
      An open that failed leaves one as the code is written. */
  ghost predicate FileOf(c: Config, s: State, r: Req) {
    && r.phase != Lost(None)
    && match r.kind
       case Other(_) => r.acc in s.usable
       case Open => (r.acc in s.served <==> AnswerOf(r).Some? && (AnswerOf(r).value.Done? || !c.cleansOpen))
       case Release => (r.acc in s.served <==> AnswerOf(r).None?)
  }

  /** Nothing is lost on the way, and no call is refused for its number. */
  predicate Steady(a: Action) {
    !a.Drop? && !a.Refuse?
  }

  ghost predicate SteadyRun(c: Config, s: State, actions: seq<Action>)
    decreases |actions|
  {
    actions == [] ||
    (Shape(s) && Enabled(s, actions[0]) && Clean(s, actions[0]) && Steady(actions[0])
     && SteadyRun(c, Apply(c, s, actions[0]), actions[1..]))
  }

  lemma ServedStep(c: Config, s: State, a: Action)
    requires Inv(s) && Served(c, s) && Enabled(s, a) && Steady(a)
    ensures Served(c, Apply(c, s, a))
  {
    match a
    case Begin(acc, kind, _, _) => BeginServed(c, s, a);
    case Number(i) => QuietStep(c, s, Apply(c, s, a), i);
    case Send(i) => QuietStep(c, s, Apply(c, s, a), i);
    case Move(_) =>
    case Execute(p, reply) => ExecuteServed(c, s, p, reply);
    case Complete(p) => CompleteServed(c, s, p);
    case Return(i) => ReturnServed(c, s, i);
  }

  lemma CompleteServed(c: Config, s: State, p: nat)
    requires Inv(s) && Served(c, s) && p < |s.net[CLIENT_THREADS]|
    ensures Served(c, ApplyComplete(c, s, p))
  {
    NothingMisdelivered(c, s, p);
    CompleteOutcome(c, s, p);
    OwnerOf(s, CLIENT_THREADS, p);
    QuietStep(c, s, ApplyComplete(c, s, p), s.net[CLIENT_THREADS][p].owner);
  }

  lemma BeginServed(c: Config, s: State, a: Action)
    requires Inv(s) && Served(c, s) && Enabled(s, a) && a.Begin?
    ensures Served(c, Apply(c, s, a))
  {
    var t := Apply(c, s, a);
    forall i | 0 <= i < |t.reqs| && Active(t.reqs[i])
      ensures FileOf(c, t, t.reqs[i])
    {
      if i < |s.reqs| {
        assert t.reqs[i] == s.reqs[i];
      }
    }
  }

  /** A step of one call that changes neither its answer nor any file. */
  lemma QuietStep(c: Config, s: State, t: State, i: nat)
    requires Served(c, s) && i < |s.reqs| == |t.reqs|
    requires t.reqs == s.reqs[i := t.reqs[i]] && t.queue.Keys == s.queue.Keys
    requires t.usable == s.usable && t.served == s.served
    requires Active(s.reqs[i]) && t.reqs[i].acc == s.reqs[i].acc && t.reqs[i].kind == s.reqs[i].kind
    requires AnswerOf(t.reqs[i]) == AnswerOf(s.reqs[i]) && t.reqs[i].phase != Lost(None)
    ensures Served(c, t)
  {
    assert forall j :: 0 <= j < |s.reqs| && j != i ==> t.reqs[j] == s.reqs[j];
  }

  /** Every request is executed on a server that has its open file, but for the open that
      makes it: the thread never gives up. */
  lemma ExecuteFindsFile(c: Config, s: State, p: nat)
    requires Inv(s) && Served(c, s) && p < |s.net[SERVER_THREADS]|
    ensures var m := s.net[SERVER_THREADS][p];
            m.kind.Open? || m.acc in s.served
  {
    OwnerOf(s, SERVER_THREADS, p);
  }

  lemma ExecuteServed(c: Config, s: State, p: nat, reply: Reply)
    requires Inv(s) && Served(c, s) && p < |s.net[SERVER_THREADS]|
    ensures Served(c, ApplyExecute(c, s, p, reply))
  {
    var m := s.net[SERVER_THREADS][p];
    var t := ApplyExecute(c, s, p, reply);
    OwnerOf(s, SERVER_THREADS, p);
    ExecuteFindsFile(c, s, p);
    if !m.kind.Other? {
      assert Alone(s, m.owner);
    }
    forall j | 0 <= j < |t.reqs| && Active(t.reqs[j])
      ensures FileOf(c, t, t.reqs[j])
    {
      if j != m.owner {
        assert t.reqs[j] == s.reqs[j];
        if !s.reqs[j].kind.Other? {
          assert Alone(s, j);
        }
      }
    }
  }

  lemma ReturnServed(c: Config, s: State, i: nat)
    requires Inv(s) && Served(c, s) && Enabled(s, Return(i))
    ensures Served(c, ApplyReturn(c, s, i))
  {
    var t := ApplyReturn(c, s, i);
    if !s.reqs[i].kind.Other? {
      assert Alone(s, i);
    }
    ReturnFrees(c, s, i);
    forall j | 0 <= j < |t.reqs| && Active(t.reqs[j])
      ensures FileOf(c, t, t.reqs[j])
    {
      assert t.reqs[j] == s.reqs[j] && FileOf(c, s, s.reqs[j]);
    }
  }

  lemma {:induction false} RunServed(c: Config, s: State, actions: seq<Action>)
    requires Inv(s) && Served(c, s) && SteadyRun(c, s, actions)
    ensures Run(c, s, actions).Some? && Inv(Run(c, s, actions).value) && Served(c, Run(c, s, actions).value)
    decreases |actions|
  {
    if actions != [] {
      StepKeeps(c, s, actions[0]);
      ServedStep(c, s, actions[0]);
      RunServed(c, Apply(c, s, actions[0]), actions[1..]);
    }
  }

  /** In every run that loses nothing: a request that is waiting for execution, other than an
      open, has its open file on the server; and an id that the client has no open file for has none on
      the server. */
  lemma FilesAgree(c: Config, issued: nat, actions: seq<Action>)
    requires SteadyRun(c, Init(issued), actions) && Run(c, Init(issued), actions).Some?
    ensures var s := Run(c, Init(issued), actions).value;
            && (forall i :: 0 <= i < |s.reqs| && s.reqs[i].phase.Sent? && !s.reqs[i].kind.Open? ==>
                              s.reqs[i].acc in s.served)
            && (forall i :: 0 <= i < |s.reqs| ==> s.reqs[i].phase != Lost(None))
            && s.usable <= s.served <= s.queue.Keys
  {
    Results.InitInv(issued);
    RunServed(c, Init(issued), actions);
    SentIsServed(c, Run(c, Init(issued), actions).value);
  }

  lemma SentIsServed(c: Config, s: State)
    requires Served(c, s)
    ensures forall i :: 0 <= i < |s.reqs| && s.reqs[i].phase.Sent? && !s.reqs[i].kind.Open? ==>
                          s.reqs[i].acc in s.served
    ensures forall i :: 0 <= i < |s.reqs| ==> s.reqs[i].phase != Lost(None)
    ensures s.usable <= s.served <= s.queue.Keys
  {
  }

  /** When an open or a release returns: both sides have the open file after an open that
      succeeded, and neither has it after a release, nor after an open that failed if it
      is cleaned up; as written, such an open leaves both. */
  lemma ReturnFrees(c: Config, s: State, i: nat)
    requires Inv(s) && Served(c, s) && Enabled(s, Return(i))
    ensures !s.reqs[i].kind.Other? ==>
            var r := s.reqs[i];
            var t := ApplyReturn(c, s, i);
            var freed := r.kind.Release? || (r.phase.reply.Failed? && c.cleansOpen);
            && (r.acc in t.queue <==> !freed) && (r.acc in t.served <==> !freed)
            && (r.acc in t.usable <==> r.kind.Open? && r.phase.reply.Done?)
  {
  }

  // ----- Runs in which no reply is lost

  /** A call begins only when there is room for it: in the queue, for the search that
      keeps its stopper; as the only one on its open file, for the search as written. */
  ghost predicate Careful(c: Config, s: State, a: Action)
    requires Shape(s)
  {
    a.Begin? && !a.kind.Open? && a.acc in s.queue ==>
      if c.rotating then |s.queue[a.acc]| < PQ.SLOTS else s.queue[a.acc] == []
  }

  ghost predicate CarefulRun(c: Config, s: State, actions: seq<Action>)
    decreases |actions|
  {
    actions == [] ||
    (Shape(s) && Enabled(s, actions[0]) && Clean(s, actions[0]) && Steady(actions[0]) && Careful(c, s, actions[0])
     && CarefulRun(c, Apply(c, s, actions[0]), actions[1..]))
  }

  ghost predicate NothingLost(c: Config, s: State) {
    && (forall i :: 0 <= i < |s.reqs| ==> !s.reqs[i].phase.Lost? && s.reqs[i].kept)
    && (!c.rotating ==> forall a :: a in s.queue ==> |s.queue[a]| <= 1)
  }

  lemma CarefulStep(c: Config, s: State, a: Action)
    requires Inv(s) && Served(c, s) && NothingLost(c, s) && Enabled(s, a) && Steady(a) && Careful(c, s, a)
    ensures NothingLost(c, Apply(c, s, a))
  {
    match a
    case Begin(_, _, _, _) => CarefulBegin(c, s, a);
    case Execute(p, reply) => CarefulExecute(c, s, p, reply);
    case Complete(p) => CarefulComplete(c, s, p);
    case Return(i) => CarefulReturn(c, s, i);
    case _ => CarefulOther(c, s, a);
  }

  lemma CarefulOther(c: Config, s: State, a: Action)
    requires NothingLost(c, s) && Shape(s) && Enabled(s, a) && (a.Number? || a.Send? || a.Move?)
    ensures NothingLost(c, Apply(c, s, a))
  {
  }

  lemma CarefulReturn(c: Config, s: State, i: nat)
    requires NothingLost(c, s) && Shape(s) && Enabled(s, Return(i))
    ensures NothingLost(c, ApplyReturn(c, s, i))
  {
  }

  lemma CarefulBegin(c: Config, s: State, a: Action)
    requires Queues(s) && NothingLost(c, s) && Enabled(s, a) && a.Begin? && Careful(c, s, a)
    ensures NothingLost(c, Apply(c, s, a))
  {
    var t := Apply(c, s, a);
    assert forall i :: 0 <= i < |s.reqs| ==> t.reqs[i] == s.reqs[i];
    assert forall b :: b in t.queue && b != a.acc ==> b in s.queue && t.queue[b] == s.queue[b];
  }

  lemma CarefulExecute(c: Config, s: State, p: nat, reply: Reply)
    requires Inv(s) && Served(c, s) && NothingLost(c, s) && p < |s.net[SERVER_THREADS]|
    ensures NothingLost(c, ApplyExecute(c, s, p, reply))
  {
    ExecuteFindsFile(c, s, p);
    var t := ApplyExecute(c, s, p, reply);
    assert t.queue == s.queue;
  }

  lemma CarefulComplete(c: Config, s: State, p: nat)
    requires Inv(s) && NothingLost(c, s) && p < |s.net[CLIENT_THREADS]|
    ensures NothingLost(c, ApplyComplete(c, s, p))
  {
    var m := s.net[CLIENT_THREADS][p];
    OwnerOf(s, CLIENT_THREADS, p);
    Results.LostIff(c, s, p);
    Results.MisdeliversIff(c, s, p);
    NothingMisdelivered(c, s, p);
    CompleteOutcome(c, s, p);
  }

  lemma {:induction false} CarefulKeeps(c: Config, s: State, actions: seq<Action>)
    requires Inv(s) && Served(c, s) && NothingLost(c, s) && CarefulRun(c, s, actions)
    ensures Run(c, s, actions).Some?
    ensures Inv(Run(c, s, actions).value) && NothingLost(c, Run(c, s, actions).value)
    decreases |actions|
  {
    if actions == [] {
    } else {
      StepKeeps(c, s, actions[0]);
      ServedStep(c, s, actions[0]);
      CarefulStep(c, s, actions[0]);
      CarefulKeeps(c, Apply(c, s, actions[0]), actions[1..]);
    }
  }

  /** The step that takes the message at a place further. */
  function Onward(k: nat, p: nat): Action {
    if k == SERVER_THREADS then Execute(p, Failed) else if k == CLIENT_THREADS then Complete(p) else Move(k)
  }

  /** In such a run every caller that is blocked has a message on its way, which some
      thread, proxy or connection can move on. */
  lemma NobodyStaysBlocked(c: Config, issued: nat, actions: seq<Action>, i: nat)
    requires CarefulRun(c, Init(issued), actions) && Run(c, Init(issued), actions).Some?
    requires i < |Run(c, Init(issued), actions).value.reqs|
    ensures var s := Run(c, Init(issued), actions).value;
            var r := s.reqs[i];
            && !r.phase.Lost?
            && Shape(s)
            && (r.phase.Sent? || r.phase.Answered? ==>
                  exists k, p :: Results.At(s, k, p, i) && Enabled(s, Onward(k, p)))
  {
    Results.InitInv(issued);
    CarefulKeeps(c, Init(issued), actions);
    CarefulIsClean(c, Init(issued), actions);
    Results.OneMessageInOnePlace(c, issued, actions, i);
    var s := Run(c, Init(issued), actions).value;
    if s.reqs[i].phase.Sent? || s.reqs[i].phase.Answered? {
      var k, p :| Results.At(s, k, p, i);
      CanMoveOn(s, k, p, i);
    }
  }

  lemma CanMoveOn(s: State, k: nat, p: nat, i: nat)
    requires Shape(s) && Results.At(s, k, p, i)
    ensures Enabled(s, Onward(k, p))
  {
  }

  lemma {:induction false} CarefulIsClean(c: Config, s: State, actions: seq<Action>)
    requires CarefulRun(c, s, actions)
    ensures Results.CleanRun(c, s, actions)
    decreases |actions|
  {
    if actions == [] {
    } else {
      CarefulIsClean(c, Apply(c, s, actions[0]), actions[1..]);
    }
  }
}
