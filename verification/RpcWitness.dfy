/** Runs in which a reply is lost, and in which one reaches the wrong call
    (kernel/fo_comm.c:56-66, kernel/fo_access.c:100-137). */
module RpcWitness {
  import opened Bytes
  import opened Rpc
  import opened RpcSafety
  import opened RpcResults
  import opened RpcMemory
  import opened RpcFiles
  import PQ = PendingQueue

  const FILE: int := 0
  const CALL: Kind := Other(102)
  const REPLY: Reply := Done([])

  /** Some run leads to the state, and a timely one if that is asked for. */
  ghost predicate Reaches(c: Config, timely: bool, s: State) {
    exists actions :: IsRunTo(c, timely, actions, s)
  }

  ghost predicate IsRunTo(c: Config, timely: bool, actions: seq<Action>, s: State) {
    && HonestRun(c, Init(0), actions) && Run(c, Init(0), actions) == Some(s)
    && (timely ==> TimelyRun(c, Init(0), actions))
  }

  lemma {:induction false} TimelyAppend(c: Config, s: State, actions: seq<Action>, a: Action)
    requires TimelyRun(c, s, actions) && Run(c, s, actions).Some?
    requires var t := Run(c, s, actions).value;
             Shape(t) && Enabled(t, a) && Timely(t, a)
    ensures TimelyRun(c, s, actions + [a])
    decreases |actions|
  {
    if actions == [] {
      assert (actions + [a])[1..] == [];
    } else {
      assert (actions + [a])[1..] == actions[1..] + [a];
      TimelyAppend(c, Apply(c, s, actions[0]), actions[1..], a);
    }
  }

  lemma {:induction false} RunAppend(c: Config, s: State, actions: seq<Action>, a: Action)
    requires HonestRun(c, s, actions) && Run(c, s, actions).Some?
    requires var t := Run(c, s, actions).value;
             Shape(t) && Enabled(t, a) && (a.Complete? ==> !Misdelivers(c, t, a.p))
    ensures HonestRun(c, s, actions + [a])
    ensures Run(c, s, actions + [a]) == Some(Apply(c, Run(c, s, actions).value, a))
    decreases |actions|
  {
    if actions == [] {
      assert (actions + [a])[1..] == [];
    } else {
      assert (actions + [a])[1..] == actions[1..] + [a];
      RunAppend(c, Apply(c, s, actions[0]), actions[1..], a);
    }
  }

  lemma ReachesBase(c: Config, timely: bool, s: State)
    requires Reaches(c, timely, s)
    ensures Base(s)
  {
    var actions :| IsRunTo(c, timely, actions, s);
    InitInv(0);
    KeptUntilMisdelivered(c, Init(0), actions);
  }

  /** One more step of a run from the start. */
  lemma Then(c: Config, timely: bool, s: State, a: Action) returns (t: State)
    requires Reaches(c, timely, s) && Shape(s) && Enabled(s, a) && (a.Complete? ==> !Misdelivers(c, s, a.p))
    requires timely ==> Timely(s, a)
    ensures t == Apply(c, s, a) && Reaches(c, timely, t) && Shape(t)
  {
    t := Apply(c, s, a);
    var actions :| IsRunTo(c, timely, actions, s);
    RunAppend(c, Init(0), actions, a);
    if timely {
      TimelyAppend(c, Init(0), actions, a);
    }
    assert IsRunTo(c, timely, actions + [a], t);
    ReachesBase(c, timely, t);
  }

  // ----- A message on its way alone

  function Only(k: nat, q: seq<Msg>): (net: seq<seq<Msg>>)
    ensures |net| == STAGES
  {
    seq(STAGES, x => if x == k then q else [])
  }

  /** What sending, moving on, executing and completing make of it. */
  lemma OnlyOne(k: nat, m: Msg, m': Msg)
    requires k < CLIENT_THREADS
    ensures Only(0, [])[0 := Only(0, [])[0] + [m]] == Only(0, [m])
    ensures var net := Only(k, [m]);
            net[k] == [m] && net[k := net[k][1..]][k + 1 := net[k + 1] + [m]] == Only(k + 1, [m])
    ensures var net := Only(SERVER_THREADS, [m]);
            var rest := net[SERVER_THREADS := Without(net[SERVER_THREADS], 0)];
            rest[SERVER_NETLINK := rest[SERVER_NETLINK] + [m']] == Only(SERVER_NETLINK, [m'])
    ensures var net := Only(CLIENT_THREADS, [m]);
            net[CLIENT_THREADS := Without(net[CLIENT_THREADS], 0)] == Only(0, [])
  {
    assert [] + [m] == [m] && [] + [m'] == [m'] && [m][1..] == [] && Without([m], 0) == [];
  }

  lemma {:induction false} Travel(c: Config, timely: bool, s: State, k: nat, m: Msg, to: nat) returns (t: State)
    requires Reaches(c, timely, s) && Shape(s) && s.net == Only(k, [m])
    requires k <= to <= CLIENT_THREADS && (to <= SERVER_THREADS || SERVER_THREADS < k)
    ensures Reaches(c, timely, t) && Shape(t) && t == s.(net := Only(to, [m]))
    decreases CLIENT_THREADS - k
  {
    if k == to {
      t := s;
    } else {
      t := MoveOn(c, timely, s, k, m);
      t := Travel(c, timely, t, k + 1, m, to);
    }
  }

  lemma MoveOn(c: Config, timely: bool, s: State, k: nat, m: Msg) returns (t: State)
    requires Reaches(c, timely, s) && Shape(s) && s.net == Only(k, [m]) && k < CLIENT_THREADS && k != SERVER_THREADS
    ensures Reaches(c, timely, t) && Shape(t) && t == s.(net := Only(k + 1, [m]))
  {
    OnlyOne(k, m, m);
    t := Then(c, timely, s, Move(k));
  }

  /** A call with a number is sent, executed and answered, while all the others wait. */
  lemma Serve(c: Config, timely: bool, s: State, i: nat) returns (t: State)
    requires Reaches(c, timely, s) && Shape(s) && s.net == Only(0, []) && i < |s.reqs| && s.reqs[i].phase.Numbered?
    requires !s.reqs[i].kind.Release? && (s.reqs[i].acc in s.served || s.reqs[i].kind.Open?)
    ensures Reaches(c, timely, t) && Shape(t)
    ensures t.reqs == s.reqs[i := s.reqs[i].(phase := Answered(REPLY))]
    ensures t.net == Only(CLIENT_THREADS, [ReplyMsg(i, s.reqs[i], REPLY)])
    ensures t.queue == s.queue && t.usable == s.usable && t.issued == s.issued && t.served == s.served + {s.reqs[i].acc}
  {
    var r := s.reqs[i];
    var m := RequestMsg(i, r);
    OnlyOne(0, m, m);
    t := Then(c, timely, s, Send(i));
    t := Travel(c, timely, t, CLIENT_NETLINK, m, SERVER_THREADS);
    t := Execute1(c, timely, t, m);
    assert t.reqs == s.reqs[i := r.(phase := Answered(REPLY))];
    t := Travel(c, timely, t, SERVER_NETLINK, ReplyMsg(i, r, REPLY), CLIENT_THREADS);
  }

  lemma Execute1(c: Config, timely: bool, s: State, m: Msg) returns (t: State)
    requires Reaches(c, timely, s) && Shape(s) && s.net == Only(SERVER_THREADS, [m]) && m.owner < |s.reqs|
    requires !m.kind.Release? && (m.acc in s.served || m.kind.Open?)
    ensures Reaches(c, timely, t) && Shape(t)
    ensures t.reqs == s.reqs[m.owner := s.reqs[m.owner].(phase := Answered(REPLY))]
    ensures t.net == Only(SERVER_NETLINK, [m.(content := Answer(REPLY))])
    ensures t.queue == s.queue && t.usable == s.usable && t.issued == s.issued && t.served == s.served + {m.acc}
  {
    OnlyOne(SERVER_THREADS, m, m.(content := Answer(REPLY)));
    t := Then(c, timely, s, Execute(0, REPLY));
  }

  // ----- One open file, and calls on it

  /** The file is open on both sides, nothing is on its way, and the next number is 2. */
  ghost predicate IsOpen(s: State) {
    s.net == Only(0, []) && FILE in s.queue && FILE in s.usable && FILE in s.served && s.issued == 1
  }

  /** The only call there is, which opens the file. */
  function Opening(phase: Phase): seq<Req> {
    [Req(FILE, Open, [], 1, 1, true, phase)]
  }

  lemma OpenBegun(c: Config, timely: bool) returns (s: State)
    ensures Reaches(c, timely, s) && Shape(s) && s.reqs == Opening(Phase.Numbered)
    ensures s == Init(0).(reqs := s.reqs, queue := map[FILE := [0]], issued := 1)
  {
    s := Init(0);
    assert IsRunTo(c, timely, [], s);
    s := Then(c, timely, s, Begin(FILE, Open, [], Fresh(0)));
    assert s.queue.Keys == {FILE} && s.queue[FILE] == [0];
    assert s.queue == map[FILE := [0]];
    s := Then(c, timely, s, Number(0));
  }

  lemma Opened(c: Config, timely: bool) returns (s: State)
    ensures Reaches(c, timely, s) && Shape(s) && IsOpen(s) && s.queue[FILE] == []
    ensures s.reqs == Opening(Returned(REPLY))
    ensures forall j :: 0 <= j < |s.reqs| ==> !InUse(s.reqs[j])
  {
    s := OpenBegun(c, timely);
    assert s.net == Only(0, []);
    s := Serve(c, timely, s, 0);
    assert s.reqs == Opening(Answered(REPLY));
    s := OpenCompleted(c, timely, s);
    s := Then(c, timely, s, Return(0));
  }

  lemma FindOnly(c: Config, reqs: seq<Req>)
    requires reqs == Opening(Answered(REPLY))
    ensures Find(c, Entries(reqs, [0]), 1) == PQ.Search(Some(PQ.Entry(0, 1)), [])
    ensures Items([]) == []
  {
    var es := Entries(reqs, [0]);
    assert es == [PQ.Entry(0, 1)] && PQ.Position(es, 1) == 0;
  }

  lemma OpenCompletes(c: Config, s: State)
    requires Shape(s) && s.queue == map[FILE := [0]] && s.reqs == Opening(Answered(REPLY))
    requires s.net == Only(CLIENT_THREADS, [ReplyMsg(0, s.reqs[0], REPLY)])
    ensures Enabled(s, Complete(0)) && !Misdelivers(c, s, 0)
    ensures ApplyComplete(c, s, 0)
            == s.(net := Only(0, []), queue := map[FILE := []], reqs := Opening(Completed(REPLY)))
  {
    var m := ReplyMsg(0, s.reqs[0], REPLY);
    OnlyOne(0, m, m);
    FindOnly(c, s.reqs);
    assert ToI32(m.key) == 1 && s.net[CLIENT_THREADS][0] == m;
  }

  lemma OpenCompleted(c: Config, timely: bool, s: State) returns (t: State)
    requires Reaches(c, timely, s) && Shape(s) && s.queue == map[FILE := [0]] && s.reqs == Opening(Answered(REPLY))
    requires s.net == Only(CLIENT_THREADS, [ReplyMsg(0, s.reqs[0], REPLY)])
    ensures Reaches(c, timely, t) && Shape(t)
    ensures t == s.(net := Only(0, []), queue := map[FILE := []], reqs := Opening(Completed(REPLY)))
  {
    OpenCompletes(c, s);
    t := Then(c, timely, s, Complete(0));
  }

  /** One more call, with what the memory of its request holds. */
  lemma Called(c: Config, s: State, content: int) returns (t: State)
    requires Reaches(c, false, s) && Shape(s) && IsOpen(s)
    ensures Reaches(c, false, t) && Shape(t) && IsOpen(t)
    ensures var kept := |s.queue[FILE]| < PQ.SLOTS;
            && t.reqs == s.reqs + [Req(FILE, CALL, [], content, 0, kept, Queued)]
            && t.queue[FILE] == if kept then s.queue[FILE] + [|s.reqs|] else s.queue[FILE]
  {
    t := Then(c, false, s, Begin(FILE, CALL, [], Fresh(content)));
  }

  /** The last call is numbered and answered before any other. */
  lemma LastAnswered(c: Config, s: State) returns (t: State)
    requires Reaches(c, false, s) && Shape(s) && IsOpen(s) && s.reqs != []
    requires var r := s.reqs[|s.reqs| - 1]; r.phase.Queued? && r.acc == FILE && !r.kind.Release?
    requires forall j :: 0 <= j < |s.reqs| ==> !InUse(s.reqs[j])
    ensures Reaches(c, false, t) && Shape(t) && t.queue == s.queue
    ensures var i := |s.reqs| - 1;
            && t.reqs == s.reqs[i := s.reqs[i].(seqNo := 2, ticket := 2, phase := Answered(REPLY))]
            && t.net == Only(CLIENT_THREADS, [ReplyMsg(i, t.reqs[i], REPLY)])
  {
    var i := |s.reqs| - 1;
    t := Then(c, false, s, Number(i));
    t := Serve(c, false, t, i);
  }

  // ----- The two runs

  /** As many calls as the queue has room for. */
  lemma {:induction false} Filled(c: Config, n: nat) returns (s: State)
    requires n <= PQ.SLOTS
    ensures Reaches(c, false, s) && Shape(s) && IsOpen(s) && |s.queue[FILE]| == n
    ensures forall j :: 0 <= j < |s.reqs| ==> !InUse(s.reqs[j])
    ensures n > 0 ==> s.queue[FILE][0] < |s.reqs|
  {
    if n == 0 {
      s := Opened(c, false);
    } else {
      s := Filled(c, n - 1);
      s := Called(c, s, 0);
    }
  }

  /** A reply can be lost, as written and with the stopper kept. */
  lemma AReplyCanBeLost(c: Config)
    ensures exists s :: Reaches(c, false, s) && LosesReply(c, s)
  {
    var s := Filled(c, if c.rotating then PQ.SLOTS else 1);
    s := Called(c, s, 0);
    s := LastAnswered(c, s);
    ReachesBase(c, false, s);
    LostIff(c, s, 0);
    assert LosesReply(c, s);
  }

  ghost predicate LosesReply(c: Config, s: State) {
    && Shape(s) && s.net[CLIENT_THREADS] != []
    && ApplyComplete(c, s, 0).reqs[s.net[CLIENT_THREADS][0].owner].phase.Lost?
  }

  /** A reply can reach the wrong call: a first request waits for its number in memory that
      happens to hold the one that the second request gets. */
  lemma AReplyCanBeMisdelivered(c: Config)
    ensures exists s :: Reaches(c, false, s) && GivesWrongResult(c, s)
  {
    var s := Opened(c, false);
    var first := |s.reqs|;
    s := Called(c, s, 2);
    s := Called(c, s, 0);
    s := LastAnswered(c, s);
    assert s.queue[FILE][0] == first && s.reqs[first].phase.Queued? && s.reqs[first].seqNo == 2;
    HeadIsDecoy(c, s);
    DecoyGivesWrongResult(c, s);
    assert GivesWrongResult(c, s);
  }

  lemma DecoyGivesWrongResult(c: Config, s: State)
    requires Reaches(c, false, s) && Shape(s) && s.net[CLIENT_THREADS] != [] && Misdelivers(c, s, 0)
    ensures GivesWrongResult(c, s)
  {
    ReachesBase(c, false, s);
    BaseOwnResults(s);
    WrongResult(c, s, 0);
  }

  lemma HeadIsDecoy(c: Config, s: State)
    requires Reaches(c, false, s) && Shape(s) && FILE in s.queue && s.queue[FILE] != []
    requires s.net[CLIENT_THREADS] != [] && s.net[CLIENT_THREADS][0].acc == FILE && s.net[CLIENT_THREADS][0].key == 2
    requires s.reqs[s.queue[FILE][0]].phase.Queued? && s.reqs[s.queue[FILE][0]].seqNo == 2
    ensures Misdelivers(c, s, 0)
  {
    ReachesBase(c, false, s);
    MisdeliversIff(c, s, 0);
    assert ToI32(2) == 2;
    var y := 0;
    assert Decoy(c, s, 0);
  }

  ghost predicate GivesWrongResult(c: Config, s: State) {
    && Shape(s) && s.net[CLIENT_THREADS] != []
    && AllOwnResults(s) && !AllOwnResults(ApplyComplete(c, s, 0))
  }

  /** A timely run in which a request without a number holds one, that of the call which had
      its memory before. */
  lemma ARecycledRequestHoldsANumber(c: Config)
    ensures exists s, i :: Reaches(c, true, s) && HoldsOldNumber(s, i)
  {
    var s := Opened(c, true);
    var i := |s.reqs|;
    s := Then(c, true, s, Begin(FILE, CALL, [], Recycled(0)));
    assert HoldsOldNumber(s, i);
  }

  ghost predicate HoldsOldNumber(s: State, i: nat) {
    i < |s.reqs| && s.reqs[i].phase.Queued? && IsNumber(s.reqs[i].seqNo)
  }

  ghost predicate OneCallWaits(s: State) {
    |s.reqs| == 1 && s.reqs[0].phase.Sent?
  }

  /** A run that is careful, steady and timely, in which a caller waits for its reply. */
  lemma ACarefulCallerCanWait(c: Config)
    ensures var actions := [Begin(FILE, Open, [], Fresh(0)), Number(0), Send(0)];
            && CarefulRun(c, Init(0), actions) && SteadyRun(c, Init(0), actions) && TimelyRun(c, Init(0), actions)
            && Run(c, Init(0), actions).Some? && OneCallWaits(Run(c, Init(0), actions).value)
  {
    var a0, a1, a2 := Begin(FILE, Open, [], Fresh(0)), Number(0), Send(0);
    assert [a0, a1, a2][1..] == [a1, a2] && [a1, a2][1..] == [a2] && [a2][1..] == [];
    var s1 := Apply(c, Init(0), a0);
    assert s1.reqs == [Req(FILE, Open, [], 0, 0, true, Queued)];
    ThenNumberAndSend(c, s1);
  }

  lemma ThenNumberAndSend(c: Config, s: State)
    requires Shape(s) && s.issued == 0 && s.reqs == [Req(FILE, Open, [], 0, 0, true, Queued)]
    ensures var actions := [Number(0), Send(0)];
            && CarefulRun(c, s, actions) && SteadyRun(c, s, actions) && TimelyRun(c, s, actions)
            && Run(c, s, actions).Some? && OneCallWaits(Run(c, s, actions).value)
  {
    assert [Number(0), Send(0)][1..] == [Send(0)];
    var t := Apply(c, s, Number(0));
    assert Shape(t) && t.reqs == [Req(FILE, Open, [], 1, 1, true, Phase.Numbered)];
    ThenSend(c, t);
  }

  lemma ThenSend(c: Config, s: State)
    requires Shape(s) && s.reqs == [Req(FILE, Open, [], 1, 1, true, Phase.Numbered)]
    ensures var actions := [Send(0)];
            && CarefulRun(c, s, actions) && SteadyRun(c, s, actions) && TimelyRun(c, s, actions)
            && Run(c, s, actions).Some? && OneCallWaits(Run(c, s, actions).value)
  {
    assert [Send(0)][1..] == [];
    assert Run(c, Apply(c, s, Send(0)), []) == Some(Apply(c, s, Send(0)));
  }
}
