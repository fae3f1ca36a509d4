/** What the invariant of the remote calls means: for the caller, for the messages, and
    for the open files on both sides. */
module RpcResults {
  import opened Bytes
  import opened Ledger
  import opened Rpc
  import opened RpcSafety
  import PQ = PendingQueue

  // ----- Every run

  /** A run in which no number is confused with what a new request holds from before. */
  ghost predicate CleanRun(c: Config, s: State, actions: seq<Action>)
    decreases |actions|
  {
    actions == [] ||
    (Shape(s) && Enabled(s, actions[0]) && Clean(s, actions[0]) && CleanRun(c, Apply(c, s, actions[0]), actions[1..]))
  }

  /** A run in which no reply completes a call that it does not answer. */
  ghost predicate HonestRun(c: Config, s: State, actions: seq<Action>)
    decreases |actions|
  {
    actions == [] ||
    (Shape(s) && Enabled(s, actions[0]) && (actions[0].Complete? ==> !Misdelivers(c, s, actions[0].p))
     && HonestRun(c, Apply(c, s, actions[0]), actions[1..]))
  }

  lemma InitInv(issued: nat)
    ensures Inv(Init(issued))
  {
    var net := Init(issued).net;
    if m: Msg :| m in Messages(net) {
      var k := SumSource(net, m, InStage);
      assert false;
    }
  }

  lemma {:induction false} RunKeeps(c: Config, s: State, actions: seq<Action>)
    requires Inv(s) && CleanRun(c, s, actions)
    ensures HonestRun(c, s, actions)
    ensures Run(c, s, actions).Some? && Inv(Run(c, s, actions).value)
    decreases |actions|
  {
    if actions != [] {
      if actions[0].Complete? {
        NothingMisdelivered(c, s, actions[0].p);
      }
      StepKeeps(c, s, actions[0]);
      RunKeeps(c, Apply(c, s, actions[0]), actions[1..]);
    }
  }

  /** With no assumption on memory: all but the separation of numbers is kept for as long as
      no reply has reached a wrong call. */
  lemma {:induction false} KeptUntilMisdelivered(c: Config, s: State, actions: seq<Action>)
    requires Base(s) && HonestRun(c, s, actions)
    ensures Run(c, s, actions).Some? && Base(Run(c, s, actions).value)
    decreases |actions|
  {
    if actions != [] {
      BaseKeeps(c, s, actions[0]);
      KeptUntilMisdelivered(c, Apply(c, s, actions[0]), actions[1..]);
    }
  }

  // ----- A caller gets its own result

  /** The executions of a call, in order. */
  ghost function Runs(log: seq<Exec>, i: nat): seq<Exec> {
    if log == [] then []
    else Runs(log[..|log| - 1], i) + (if log[|log| - 1].owner == i then [log[|log| - 1]] else [])
  }

  lemma {:induction false} RunsCount(log: seq<Exec>, i: nat, e: Exec)
    ensures multiset(Runs(log, i))[e] == if e.owner == i then multiset(log)[e] else 0
  {
    if log == [] {
    } else {
      var n := |log| - 1;
      RunsCount(log[..n], i, e);
      assert log == log[..n] + [log[n]];
    }
  }

  /** What the log has of a call is what its phase says. */
  lemma RunsOf(s: State, i: nat)
    requires Logged(s) && i < |s.reqs|
    ensures Runs(s.log, i) == match AnswerOf(s.reqs[i])
                              case Some(reply) => [Exec(i, s.reqs[i].acc, s.reqs[i].kind, s.reqs[i].body, reply)]
                              case None => []
  {
    forall e
      ensures multiset(Runs(s.log, i))[e] == Executed(i, s.reqs[i])[e]
    {
      RunsCount(s.log, i, e);
      if e.owner == i {
        SumOf(s.reqs, i, e, Executed);
      }
    }
    assert multiset(Runs(s.log, i)) == Executed(i, s.reqs[i]);
    if AnswerOf(s.reqs[i]).Some? {
      Singleton(Runs(s.log, i), Exec(i, s.reqs[i].acc, s.reqs[i].kind, s.reqs[i].body, AnswerOf(s.reqs[i]).value));
    } else {
      assert |Runs(s.log, i)| == |multiset(Runs(s.log, i))| == 0;
    }
  }

  lemma AtMostOneRun(s: State, i: nat)
    requires Logged(s) && i < |s.reqs|
    ensures |Runs(s.log, i)| <= 1
  {
    RunsOf(s, i);
  }

  lemma OneRun(s: State, i: nat)
    requires Logged(s) && i < |s.reqs| && (s.reqs[i].phase.Completed? || s.reqs[i].phase.Returned?)
    ensures var r := s.reqs[i];
            Runs(s.log, i) == [Exec(i, r.acc, r.kind, r.body, r.phase.reply)]
  {
    RunsOf(s, i);
  }

  /** A call that is completed was executed once, with its own request, and has the answer. */
  ghost predicate HasOwnResult(s: State, i: nat)
    requires i < |s.reqs|
  {
    var r := s.reqs[i];
    r.phase.Completed? || r.phase.Returned? ==> Runs(s.log, i) == [Exec(i, r.acc, r.kind, r.body, r.phase.reply)]
  }

  /** In every run, with any number of callers and any loss of messages: no request is executed twice, and a call
      that is completed was executed exactly once, with its own request, and has exactly
      what that execution answered. */
  lemma CallersGetTheirOwnResult(c: Config, issued: nat, actions: seq<Action>, i: nat)
    requires CleanRun(c, Init(issued), actions) && Run(c, Init(issued), actions).Some?
    requires i < |Run(c, Init(issued), actions).value.reqs|
    ensures var s := Run(c, Init(issued), actions).value;
            var r := s.reqs[i];
            && |Runs(s.log, i)| <= 1
            && HasOwnResult(s, i)
            && (r.phase.Queued? || r.phase.Numbered? || r.phase.Sent? || r.phase.Refused? ==> Runs(s.log, i) == [])
  {
    InitInv(issued);
    RunKeeps(c, Init(issued), actions);
    RunsOf(Run(c, Init(issued), actions).value, i);
  }

  ghost predicate AllOwnResults(s: State) {
    forall i :: 0 <= i < |s.reqs| ==> HasOwnResult(s, i)
  }

  /** The same at every point of a run. */
  ghost predicate AlwaysOwnResults(c: Config, s: State, actions: seq<Action>)
    decreases |actions|
  {
    && AllOwnResults(s)
    && (actions != [] ==>
          Shape(s) && Enabled(s, actions[0]) && AlwaysOwnResults(c, Apply(c, s, actions[0]), actions[1..]))
  }

  lemma BaseOwnResults(s: State)
    requires Logged(s)
    ensures AllOwnResults(s)
  {
    forall i | 0 <= i < |s.reqs|
      ensures HasOwnResult(s, i)
    {
      RunsOf(s, i);
    }
  }

  /** A call that gets a reply it was not meant for has not been executed. */
  lemma WrongResult(c: Config, s: State, p: nat)
    requires Base(s) && p < |s.net[CLIENT_THREADS]| && Misdelivers(c, s, p)
    ensures !AllOwnResults(ApplyComplete(c, s, p))
  {
    var j := WrongCall(c, s, p);
    RunsOf(s, j);
    WrongCallCompleted(c, s, p, j);
    assert !HasOwnResult(ApplyComplete(c, s, p), j);
  }

  lemma WrongCall(c: Config, s: State, p: nat) returns (j: nat)
    requires Queues(s) && Conserved(s) && Tickets(s) && p < |s.net[CLIENT_THREADS]| && Misdelivers(c, s, p)
    ensures j < |s.reqs| && s.reqs[j].phase.Queued?
    ensures var m := s.net[CLIENT_THREADS][p];
            Find(c, Entries(s.reqs, s.queue[m.acc]), ToI32(m.key)).hit.value.item == j
  {
    var m := s.net[CLIENT_THREADS][p];
    OwnerOf(s, CLIENT_THREADS, p);
    j := WrongItem(c, s, s.queue[m.acc], m.owner);
  }

  /** A request in the queue that is found instead of another has no number yet. */
  lemma WrongItem(c: Config, s: State, q: seq<nat>, i: nat) returns (j: nat)
    requires Tickets(s) && i < |s.reqs| && InUse(s.reqs[i]) && Distinct(q)
    requires forall p :: 0 <= p < |q| ==> q[p] < |s.reqs|
    requires forall x :: x in q ==> x < |s.reqs| && Occupies(s.reqs[x])
    requires var hit := Find(c, Entries(s.reqs, q), s.reqs[i].seqNo).hit; hit.Some? && hit.value.item != i
    ensures j < |s.reqs| && s.reqs[j].phase.Queued?
    ensures Find(c, Entries(s.reqs, q), s.reqs[i].seqNo).hit.value.item == j
  {
    FindItems(c, s.reqs, q, s.reqs[i].seqNo);
    j := Find(c, Entries(s.reqs, q), s.reqs[i].seqNo).hit.value.item;
    SameNumberSameCall(s, i, j);
  }

  lemma WrongCallCompleted(c: Config, s: State, p: nat, j: nat)
    requires Shape(s) && p < |s.net[CLIENT_THREADS]| && j < |s.reqs| && Misdelivers(c, s, p)
    requires var m := s.net[CLIENT_THREADS][p];
             Find(c, Entries(s.reqs, s.queue[m.acc]), ToI32(m.key)).hit.value.item == j
    ensures var t := ApplyComplete(c, s, p);
            t.log == s.log && j < |t.reqs| && t.reqs[j].phase.Completed?
  {
  }

  /** In any run, with no assumption on memory: all callers always have their own results
      exactly when no search finds a request that its reply does not answer. */
  lemma {:induction false} OwnResultsIff(c: Config, s: State, actions: seq<Action>)
    requires Base(s) && Run(c, s, actions).Some?
    ensures AlwaysOwnResults(c, s, actions) <==> HonestRun(c, s, actions)
    decreases |actions|
  {
    BaseOwnResults(s);
    if actions != [] {
      var a := actions[0];
      if a.Complete? && Misdelivers(c, s, a.p) {
        WrongResult(c, s, a.p);
      } else {
        BaseKeeps(c, s, a);
        OwnResultsIff(c, Apply(c, s, a), actions[1..]);
      }
    }
  }

  // ----- A call that waits has its message in one place

  ghost predicate At(s: State, k: nat, p: nat, i: nat) {
    k < |s.net| && p < |s.net[k]| && s.net[k][p].owner == i
  }

  lemma TwiceInSeq<T>(q: seq<T>, p: nat, p': nat)
    requires p < p' < |q| && q[p] == q[p']
    ensures multiset(q)[q[p]] >= 2
  {
    assert q == q[..p'] + q[p'..];
    assert q[..p'][p] == q[p] && q[p'..][0] == q[p];
    assert q[p] in multiset(q[..p']) && q[p] in multiset(q[p'..]);
  }

  /** The message at two places would be counted twice. */
  lemma CountedTwice(net: seq<seq<Msg>>, k: nat, p: nat, k': nat, p': nat)
    requires k < |net| && p < |net[k]| && k' < |net| && p' < |net[k']|
    requires net[k][p] == net[k'][p'] && (k != k' || p != p')
    ensures Messages(net)[net[k][p]] >= 2
  {
    var m := net[k][p];
    if k < k' {
      SumTwo(net, k, k', m, InStage);
    } else if k' < k {
      SumTwo(net, k', k, m, InStage);
    } else {
      TwiceInSeq(net[k], if p < p' then p else p', if p < p' then p' else p);
      SumContains(net, k, InStage);
    }
  }

  lemma OnlyPlace(s: State, k: nat, p: nat, k': nat, p': nat, i: nat)
    requires Shape(s) && Conserved(s) && At(s, k, p, i) && At(s, k', p', i)
    ensures k == k' && p == p'
  {
    OwnerOf(s, k, p);
    OwnerOf(s, k', p');
    SumOf(s.reqs, i, s.net[k][p], Expect);
    if k != k' || p != p' {
      CountedTwice(s.net, k, p, k', p');
    }
  }

  lemma StationOf(s: State, i: nat) returns (k: nat, p: nat)
    requires Conserved(s) && i < |s.reqs| && (s.reqs[i].phase.Sent? || s.reqs[i].phase.Answered?)
    ensures At(s, k, p, i)
  {
    var r := s.reqs[i];
    var m := if r.phase.Sent? then RequestMsg(i, r) else ReplyMsg(i, r, r.phase.reply);
    SumContains(s.reqs, i, Expect);
    assert m in Expect(i, r);
    k := SumSource(s.net, m, InStage);
    p :| 0 <= p < |s.net[k]| && s.net[k][p] == m;
  }

  lemma OwnerWaits(s: State, k: nat, p: nat, i: nat)
    requires Shape(s) && Conserved(s) && At(s, k, p, i)
    ensures i < |s.reqs| && (s.reqs[i].phase.Sent? || s.reqs[i].phase.Answered?)
  {
    OwnerOf(s, k, p);
  }

  /** Conservation: a call that was sent and neither completed nor lost has its message,
      request or reply, at exactly one station, and no other call has one anywhere. */
  lemma OneMessageInOnePlace(c: Config, issued: nat, actions: seq<Action>, i: nat)
    requires CleanRun(c, Init(issued), actions) && Run(c, Init(issued), actions).Some?
    requires i < |Run(c, Init(issued), actions).value.reqs|
    ensures var s := Run(c, Init(issued), actions).value;
            && (s.reqs[i].phase.Sent? || s.reqs[i].phase.Answered? <==> exists k, p :: At(s, k, p, i))
            && (forall k, p, k', p' :: At(s, k, p, i) && At(s, k', p', i) ==> k == k' && p == p')
  {
    InitInv(issued);
    RunKeeps(c, Init(issued), actions);
    var s := Run(c, Init(issued), actions).value;
    var r := s.reqs[i];
    if r.phase.Sent? || r.phase.Answered? {
      var k, p := StationOf(s, i);
      assert At(s, k, p, i);
    }
    forall k, p | At(s, k, p, i)
      ensures r.phase.Sent? || r.phase.Answered?
    {
      OwnerWaits(s, k, p, i);
    }
    forall k, p, k', p' | At(s, k, p, i) && At(s, k', p', i)
      ensures k == k' && p == p'
    {
      OnlyPlace(s, k, p, k', p', i);
    }
  }

  // ----- When a reply is lost, and when it reaches the wrong caller

  /** The request that a search for the number of a reply comes to first. */
  lemma FoundIs(c: Config, s: State, p: nat)
    requires Queues(s) && Conserved(s) && Tickets(s) && p < |s.net[CLIENT_THREADS]|
    ensures var m := s.net[CLIENT_THREADS][p];
            && m.acc in s.queue && m.owner < |s.reqs|
            && var q := s.queue[m.acc];
               var es := Entries(s.reqs, q);
               var y := if c.rotating then PQ.Position(es, ToI32(m.key)) else 0;
            && (forall x :: 0 <= x < |q| && q[x] == m.owner ==> es[x].key == ToI32(m.key))
            && (forall x :: 0 <= x < |q| && es[x].key == ToI32(m.key) && q[x] != m.owner ==> s.reqs[q[x]].phase.Queued?)
            && (Find(c, es, ToI32(m.key)).hit.Some? <==> y < |q| && es[y].key == ToI32(m.key))
            && (y < |q| && es[y].key == ToI32(m.key) ==> Find(c, es, ToI32(m.key)).hit.value.item == q[y])
            && (s.reqs[m.owner].kept <==> m.owner in q)
  {
    var m := s.net[CLIENT_THREADS][p];
    OwnerOf(s, CLIENT_THREADS, p);
    var q := s.queue[m.acc];
    forall x | 0 <= x < |q| && Entries(s.reqs, q)[x].key == ToI32(m.key)
      ensures q[x] != m.owner ==> s.reqs[q[x]].phase.Queued?
    {
      assert q[x] in q;
      SameNumberSameCall(s, m.owner, q[x]);
    }
  }

  /** Somewhere before the request that a reply answers, or at the head if the search looks
      nowhere else, is one without a number whose memory happens to hold the same. */
  ghost predicate Decoy(c: Config, s: State, p: nat)
    requires Shape(s) && p < |s.net[CLIENT_THREADS]| && s.net[CLIENT_THREADS][p].acc in s.queue
  {
    var m := s.net[CLIENT_THREADS][p];
    var q := s.queue[m.acc];
    exists y :: 0 <= y < |q| && s.reqs[q[y]].phase.Queued? && s.reqs[q[y]].seqNo == ToI32(m.key)
                && (c.rotating || y == 0) && forall x :: 0 <= x < y ==> q[x] != m.owner
  }

  lemma MisdeliversIff(c: Config, s: State, p: nat)
    requires Queues(s) && Conserved(s) && Tickets(s) && p < |s.net[CLIENT_THREADS]|
    ensures s.net[CLIENT_THREADS][p].acc in s.queue
    ensures Misdelivers(c, s, p) <==> Decoy(c, s, p)
  {
    FoundIs(c, s, p);
    OwnerOf(s, CLIENT_THREADS, p);
    var m := s.net[CLIENT_THREADS][p];
    var q := s.queue[m.acc];
    var es := Entries(s.reqs, q);
    var k := ToI32(m.key);
    if Misdelivers(c, s, p) {
      var y := if c.rotating then PQ.Position(es, k) else 0;
      assert q[y] in q && s.reqs[q[y]].phase.Queued? && s.reqs[q[y]].seqNo == k;
    }
    if Decoy(c, s, p) {
      var y :| 0 <= y < |q| && s.reqs[q[y]].phase.Queued? && s.reqs[q[y]].seqNo == k
               && (c.rotating || y == 0) && forall x :: 0 <= x < y ==> q[x] != m.owner;
      assert es[y].key == k && q[y] != m.owner;
    }
  }

  /** A reply completes a call that is not its own exactly when there is a decoy for it, in
      every state that a run reaches before the first time it happens. */
  lemma MisdeliveredIff(c: Config, s: State, p: nat)
    requires Queues(s) && Conserved(s) && Tickets(s) && p < |s.net[CLIENT_THREADS]|
    ensures var m := s.net[CLIENT_THREADS][p];
            && m.acc in s.queue
            && var t := ApplyComplete(c, s, p);
               ((exists j :: 0 <= j < |s.reqs| && j != m.owner && t.reqs[j] != s.reqs[j]) <==> Decoy(c, s, p))
  {
    var m := s.net[CLIENT_THREADS][p];
    OwnerOf(s, CLIENT_THREADS, p);
    MisdeliversIff(c, s, p);
    FoundIs(c, s, p);
    var t := ApplyComplete(c, s, p);
    if Misdelivers(c, s, p) {
      var j := Find(c, Entries(s.reqs, s.queue[m.acc]), ToI32(m.key)).hit.value.item;
      FindItems(c, s.reqs, s.queue[m.acc], ToI32(m.key));
      assert t.reqs[j] != s.reqs[j];
    }
  }

  /** A reply is dropped, and its caller left blocked, exactly when its request is not at the
      head of its queue, for the search as written; for the search that keeps its stopper,
      when the request found the queue full. Besides, when the reply goes to another. */
  lemma LostIff(c: Config, s: State, p: nat)
    requires Queues(s) && Conserved(s) && Tickets(s) && p < |s.net[CLIENT_THREADS]|
    ensures var m := s.net[CLIENT_THREADS][p];
            && m.acc in s.queue
            && (ApplyComplete(c, s, p).reqs[m.owner].phase.Lost? <==>
                  || Decoy(c, s, p)
                  || (if c.rotating then !s.reqs[m.owner].kept
                      else s.queue[m.acc] == [] || s.queue[m.acc][0] != m.owner))
  {
    var m := s.net[CLIENT_THREADS][p];
    OwnerOf(s, CLIENT_THREADS, p);
    FoundIs(c, s, p);
    MisdeliversIff(c, s, p);
    FindItems(c, s.reqs, s.queue[m.acc], ToI32(m.key));
  }
}
