/** What every run of the remote calls keeps, and what follows for a caller. */
module RpcSafety {
  import opened Bytes
  import opened Ledger
  import opened Rpc
  import PQ = PendingQueue

  // ----- The invariant

  /** The message a call accounts for. */
  ghost function Expect(i: nat, r: Req): multiset<Msg> {
    if r.phase.Sent? then multiset{RequestMsg(i, r)}
    else if r.phase.Answered? then multiset{ReplyMsg(i, r, r.phase.reply)}
    else multiset{}
  }

  ghost function InStage(k: nat, q: seq<Msg>): multiset<Msg> {
    multiset(q)
  }

  /** Every message that is anywhere. */
  ghost function Messages(net: seq<seq<Msg>>): multiset<Msg> {
    Sum(net, InStage)
  }

  /** The execution a call accounts for. */
  ghost function Executed(i: nat, r: Req): multiset<Exec> {
    if AnswerOf(r).Some? then multiset{Exec(i, r.acc, r.kind, r.body, AnswerOf(r).value)} else multiset{}
  }

  /** Conservation: the messages that exist are those of the calls that wait for one. */
  ghost predicate Conserved(s: State) {
    Messages(s.net) == Sum(s.reqs, Expect)
  }

  ghost predicate Logged(s: State) {
    multiset(s.log) == Sum(s.reqs, Executed)
  }

  ghost predicate Distinct(q: seq<nat>) {
    forall p, p' :: 0 <= p < p' < |q| ==> q[p] != q[p']
  }

  /** The pending requests of an open file are the ones in its queue, each once, but for
      those that found it full. */
  ghost predicate Queues(s: State) {
    && Shape(s)
    && (forall a :: a in s.queue ==> Distinct(s.queue[a]))
    && (forall a, i :: a in s.queue && i in s.queue[a] ==>
          i < |s.reqs| && s.reqs[i].acc == a && Occupies(s.reqs[i]) && s.reqs[i].kept)
    && (forall i :: 0 <= i < |s.reqs| && Active(s.reqs[i]) ==> s.reqs[i].acc in s.queue)
    && (forall i :: 0 <= i < |s.reqs| && Pending(s.reqs[i]) && s.reqs[i].kept ==> i in s.queue[s.reqs[i].acc])
  }

  /** The request is in its queue if it is anywhere. */
  predicate Occupies(r: Req) {
    Pending(r) || r.phase.Refused?
  }

  /** An open or a release is the only call on its open file while it lasts, and the file
      is not usable then. */
  ghost predicate Files(s: State) {
    forall i :: 0 <= i < |s.reqs| && Active(s.reqs[i]) && !s.reqs[i].kind.Other? ==>
                  s.reqs[i].acc !in s.usable && Alone(s, i)
  }

  ghost predicate Alone(s: State, i: nat)
    requires i < |s.reqs|
  {
    forall j :: 0 <= j < |s.reqs| && j != i && s.reqs[j].acc == s.reqs[i].acc ==> !Active(s.reqs[j])
  }

  /** The request has had a number. */
  predicate HadNumber(r: Req) {
    !r.phase.Queued? && !r.phase.Refused?
  }

  /** Sequence numbers are those of different increments, and while they are in use the
      counter does not come round. A refused request holds zero, which is no number. */
  ghost predicate Tickets(s: State) {
    && (forall i :: 0 <= i < |s.reqs| && HadNumber(s.reqs[i]) ==>
          && 0 < s.reqs[i].ticket <= s.issued
          && s.reqs[i].seqNo == Wrap(s.reqs[i].ticket) != 0)
    && (forall i :: 0 <= i < |s.reqs| && InUse(s.reqs[i]) ==> s.issued < s.reqs[i].ticket + TWO_TO_THE_32)
    && (forall i, j :: 0 <= i < j < |s.reqs| && HadNumber(s.reqs[i]) && HadNumber(s.reqs[j]) ==>
          s.reqs[i].ticket != s.reqs[j].ticket)
    && (forall i :: 0 <= i < |s.reqs| && s.reqs[i].phase.Refused? ==> s.reqs[i].seqNo == 0)
  }

  /** No request without a number holds one that is in use on its open file. */
  ghost predicate Placeholders(s: State) {
    forall i, j :: 0 <= i < |s.reqs| && 0 <= j < |s.reqs| ==> !Confused(s.reqs[i], s.reqs[j])
  }

  predicate Confused(r: Req, r': Req) {
    r.phase.Queued? && InUse(r') && r.acc == r'.acc && r.seqNo == r'.seqNo
  }

  /** What holds in every run until a reply reaches the wrong call. */
  ghost predicate Base(s: State) {
    Queues(s) && Files(s) && Conserved(s) && Logged(s) && Tickets(s)
  }

  ghost predicate Inv(s: State) {
    Base(s) && Placeholders(s)
  }

  /** A new request does not hold a number that is in use on its open file; nor is a number
      assigned that another request holds from before. */
  ghost predicate Clean(s: State, a: Action)
    requires Shape(s) && Enabled(s, a)
  {
    match a
    case Begin(acc, _, _, memory) =>
      forall i :: 0 <= i < |s.reqs| && InUse(s.reqs[i]) && s.reqs[i].acc == acc ==>
                    s.reqs[i].seqNo != Placeholder(s, memory).0
    case Number(i) =>
      forall j :: 0 <= j < |s.reqs| && j != i && s.reqs[j].phase.Queued? && s.reqs[j].acc == s.reqs[i].acc ==>
                    s.reqs[j].seqNo != Wrap(s.issued + 1)
    case _ => true
  }

  /** The search for a reply finds a request that is not the one it answers. */
  ghost predicate Misdelivers(c: Config, s: State, p: nat)
    requires Shape(s) && p < |s.net[CLIENT_THREADS]|
  {
    var m := s.net[CLIENT_THREADS][p];
    && m.acc in s.queue
    && var hit := Find(c, Entries(s.reqs, s.queue[m.acc]), ToI32(m.key)).hit;
    && hit.Some? && hit.value.item != m.owner
  }

  // ----- Sequence numbers

  /** Two tickets less than 2^32 apart have different numbers. */
  lemma WrapInjective(a: nat, b: nat)
    requires a <= b < a + TWO_TO_THE_32
    ensures Wrap(a) == Wrap(b) ==> a == b
  {
    var x, y := a % TWO_TO_THE_32, b % TWO_TO_THE_32;
    assert a == TWO_TO_THE_32 * (a / TWO_TO_THE_32) + x;
    assert b == TWO_TO_THE_32 * (b / TWO_TO_THE_32) + y;
  }

  /** The number loses nothing on its way through the 32-bit header field and back. */
  lemma KeyRoundTrip(x: int32)
    ensures ToI32(ToU32(x)) == x
  {
  }

  lemma SameNumberSameCall(s: State, i: nat, j: nat)
    requires Tickets(s) && i < |s.reqs| && j < |s.reqs|
    requires InUse(s.reqs[i]) && Occupies(s.reqs[j])
    requires s.reqs[i].seqNo == s.reqs[j].seqNo
    ensures i == j || s.reqs[j].phase.Queued?
  {
    if InUse(s.reqs[j]) {
      var a, b := s.reqs[i].ticket, s.reqs[j].ticket;
      if a <= b {
        WrapInjective(a, b);
      } else {
        WrapInjective(b, a);
      }
    }
  }

  // ----- Messages and the calls they belong to

  lemma MessageInSum(net: seq<seq<Msg>>, k: nat, p: nat)
    requires k < |net| && p < |net[k]|
    ensures net[k][p] in Messages(net)
  {
    SumContains(net, k, InStage);
  }

  /** A message that is anywhere is the one its call waits for. */
  lemma OwnerOf(s: State, k: nat, p: nat)
    requires Shape(s) && Conserved(s) && k < STAGES && p < |s.net[k]|
    ensures var m := s.net[k][p];
            var r := s.reqs[m.owner];
            && (m.content.Request? ==> r.phase.Sent? && m == RequestMsg(m.owner, r))
            && (m.content.Answer? ==> r.phase.Answered? && m == ReplyMsg(m.owner, r, m.content.reply)
                                      && r.phase.reply == m.content.reply)
  {
    MessageInSum(s.net, k, p);
    var i := SumSource(s.reqs, s.net[k][p], Expect);
  }

  // ----- The queue search, in terms of the calls

  lemma TakeOut(q: seq<nat>, i: nat)
    requires Distinct(q) && i < |q|
    ensures var rest := q[i + 1..] + q[..i];
            Distinct(rest) && forall x :: x in rest <==> x in q && x != q[i]
  {
    PQ.SplitAt(q, i);
    forall x
      ensures x in q[i + 1..] + q[..i] <==> x in q && x != q[i]
    {
      assert x in q[i + 1..] + q[..i] <==> x in q[i + 1..] || x in q[..i];
    }
  }

  lemma TurnOnce(q: seq<nat>)
    requires Distinct(q) && q != []
    ensures var rest := q[1..] + q[..1];
            Distinct(rest) && forall x :: x in rest <==> x in q
  {
    PQ.SplitAt(q, 0);
  }

  lemma FindItems(c: Config, reqs: seq<Req>, q: seq<nat>, k: int)
    requires forall p :: 0 <= p < |q| ==> q[p] < |reqs|
    requires Distinct(q)
    ensures var r := Find(c, Entries(reqs, q), k);
            var rest := Items(r.rest);
            && Distinct(rest)
            && (r.hit.None? ==> (forall i :: i in rest <==> i in q))
            && (r.hit.Some? ==>
                  && r.hit.value.item in q && reqs[r.hit.value.item].seqNo == k
                  && (forall i :: i in rest <==> i in q && i != r.hit.value.item))
  {
    var es := Entries(reqs, q);
    var rest := Items(Find(c, es, k).rest);
    var i := if c.rotating then PQ.Position(es, k) else 0;
    if i < |q| && es[i].key == k {
      assert rest == q[i + 1..] + q[..i];
      TakeOut(q, i);
    } else if q != [] {
      assert rest == q[1..] + q[..1];
      TurnOnce(q);
    }
  }

  // ----- Every action keeps the invariant

  /** A message that is put in one place is in addition to all the others. */
  lemma NetPush(net: seq<seq<Msg>>, k: nat, m: Msg)
    requires k < |net|
    ensures Messages(net[k := net[k] + [m]]) == Messages(net) + multiset{m}
  {
    SumUpdate(net, k, net[k] + [m], InStage);
    var a, b := Messages(net[k := net[k] + [m]]), Messages(net) + multiset{m};
    assert multiset(net[k] + [m]) == multiset(net[k]) + multiset{m};
    assert a + multiset(net[k]) == b + multiset(net[k]);
    Cancel(a, b, multiset(net[k]));
  }

  lemma NetPop(net: seq<seq<Msg>>, k: nat, p: nat)
    requires k < |net| && p < |net[k]|
    ensures Messages(net[k := Without(net[k], p)]) + multiset{net[k][p]} == Messages(net)
  {
    var rest := Without(net[k], p);
    SumUpdate(net, k, rest, InStage);
    RemoveAt(net[k], p);
    var a, b := Messages(net[k := rest]) + multiset{net[k][p]}, Messages(net);
    assert a + multiset(rest) == b + multiset(rest);
    Cancel(a, b, multiset(rest));
  }

  /** What beginning a call does: its request is new, and last in the queue if it is kept. */
  lemma BeginView(c: Config, s: State, a: Action) returns (r: Req, q: seq<nat>)
    requires Queues(s) && Enabled(s, a) && a.Begin?
    ensures r.acc == a.acc && r.phase.Queued? && (r.seqNo, r.ticket) == Placeholder(s, a.memory)
    ensures var t := Apply(c, s, a);
            && t == s.(reqs := s.reqs + [r], queue := s.queue[a.acc := q], usable := t.usable)
            && t.usable <= s.usable
    ensures Distinct(q)
    ensures forall i :: i in q <==> (r.kept && i == |s.reqs|) || (a.acc in s.queue && i in s.queue[a.acc])
  {
    var base := if a.kind.Open? then [] else s.queue[a.acc];
    r := Apply(c, s, a).reqs[|s.reqs|];
    q := if r.kept then base + [|s.reqs|] else base;
    assert s.queue[a.acc := base][a.acc := q] == s.queue[a.acc := q];
    assert !a.kind.Open? ==> s.queue[a.acc := base] == s.queue;
  }

  lemma QueueGrows(s: State, t: State, acc: int, r: Req, q: seq<nat>)
    requires Queues(s) && r.acc == acc && r.phase.Queued?
    requires t == s.(reqs := s.reqs + [r], queue := s.queue[acc := q], usable := t.usable) && t.usable <= s.usable
    requires Distinct(q) && forall i :: i in q <==> (r.kept && i == |s.reqs|) || (acc in s.queue && i in s.queue[acc])
    ensures Queues(t)
  {
    assert forall i :: 0 <= i < |s.reqs| ==> t.reqs[i] == s.reqs[i];
    forall a, p | a in t.queue && 0 <= p < |t.queue[a]|
      ensures t.queue[a][p] < |t.reqs|
    {
      assert t.queue[a][p] in t.queue[a];
    }
  }

  lemma BeginQueues(c: Config, s: State, a: Action)
    requires Queues(s) && Enabled(s, a) && a.Begin?
    ensures Queues(Apply(c, s, a))
  {
    var r, q := BeginView(c, s, a);
    QueueGrows(s, Apply(c, s, a), a.acc, r, q);
  }

  lemma BeginFiles(c: Config, s: State, a: Action)
    requires Queues(s) && Files(s) && Enabled(s, a) && a.Begin?
    ensures Files(Apply(c, s, a))
  {
    var t := Apply(c, s, a);
    var n := |s.reqs|;
    assert forall i :: 0 <= i < n ==> t.reqs[i] == s.reqs[i];
    forall i | 0 <= i < |t.reqs| && Active(t.reqs[i]) && !t.reqs[i].kind.Other?
      ensures t.reqs[i].acc !in t.usable && Alone(t, i)
    {
      if i < n {
        assert Alone(s, i);
      }
    }
  }

  lemma BeginTickets(s: State, t: State, r: Req)
    requires Tickets(s) && t.reqs == s.reqs + [r] && t.issued == s.issued
    requires r.phase.Queued?
    ensures Tickets(t)
  {
    assert forall i :: 0 <= i < |s.reqs| ==> t.reqs[i] == s.reqs[i];
  }

  lemma BeginKeeps(c: Config, s: State, a: Action)
    requires Base(s) && Enabled(s, a) && a.Begin?
    ensures Base(Apply(c, s, a))
  {
    BeginQueues(c, s, a);
    BeginFiles(c, s, a);
    var r, q := BeginView(c, s, a);
    BeginLedgers(s, r);
    BeginTickets(s, Apply(c, s, a), r);
  }

  /** A new call accounts for nothing yet. */
  lemma BeginLedgers(s: State, r: Req)
    requires r.phase.Queued?
    ensures Sum(s.reqs + [r], Expect) == Sum(s.reqs, Expect)
    ensures Sum(s.reqs + [r], Executed) == Sum(s.reqs, Executed)
  {
    SumAppend(s.reqs, r, Expect);
    SumAppend(s.reqs, r, Executed);
  }

  lemma FilesStay(s: State, t: State)
    requires Files(s) && |t.reqs| == |s.reqs|
    requires forall j :: 0 <= j < |s.reqs| ==>
               && t.reqs[j].acc == s.reqs[j].acc && t.reqs[j].kind == s.reqs[j].kind
               && (Active(t.reqs[j]) ==> Active(s.reqs[j]))
    requires forall j | 0 <= j < |t.reqs| && Active(t.reqs[j]) && !t.reqs[j].kind.Other? ::
               t.reqs[j].acc in t.usable ==> t.reqs[j].acc in s.usable
    ensures Files(t)
  {
    forall j | 0 <= j < |t.reqs| && Active(t.reqs[j]) && !t.reqs[j].kind.Other?
      ensures t.reqs[j].acc !in t.usable && Alone(t, j)
    {
      assert Alone(s, j);
    }
  }

  /** A call that stays active, and pending if it was, disturbs no queue and no file. */
  lemma PhaseChange(s: State, t: State, i: nat)
    requires Queues(s) && Files(s) && Shape(t) && i < |s.reqs| == |t.reqs|
    requires t.reqs == s.reqs[i := t.reqs[i]] && t.queue == s.queue && t.usable == s.usable
    requires Active(s.reqs[i]) && Active(t.reqs[i]) && (Pending(s.reqs[i]) <==> Pending(t.reqs[i]))
    requires t.reqs[i].acc == s.reqs[i].acc && t.reqs[i].kind == s.reqs[i].kind && t.reqs[i].kept == s.reqs[i].kept
    ensures Queues(t) && Files(t)
  {
    FilesStay(s, t);
  }

  lemma NumberKeeps(c: Config, s: State, a: Action)
    requires Base(s) && Enabled(s, a) && a.Number?
    ensures Base(Apply(c, s, a))
  {
    var t := Apply(c, s, a);
    PhaseChange(s, t, a.i);
    LedgersStay(s, t, a.i);
    NumberTickets(c, s, a);
  }

  lemma NumberTickets(c: Config, s: State, a: Action)
    requires Shape(s) && Tickets(s) && Enabled(s, a) && a.Number?
    ensures Tickets(Apply(c, s, a))
  {
    var t := Apply(c, s, a);
    assert forall j :: 0 <= j < |s.reqs| && j != a.i ==> t.reqs[j] == s.reqs[j];
  }

  /** Numbers stay what they are when a call with a number moves on. */
  lemma TicketsStay(s: State, t: State, i: nat)
    requires Tickets(s) && i < |s.reqs| == |t.reqs| && t.issued == s.issued
    requires t.reqs == s.reqs[i := t.reqs[i]]
    requires HadNumber(s.reqs[i]) && HadNumber(t.reqs[i]) && (Pending(t.reqs[i]) ==> Pending(s.reqs[i]))
    requires t.reqs[i].ticket == s.reqs[i].ticket && t.reqs[i].seqNo == s.reqs[i].seqNo
    ensures Tickets(t)
  {
    assert forall j :: 0 <= j < |s.reqs| && j != i ==> t.reqs[j] == s.reqs[j];
  }

  lemma SendKeeps(c: Config, s: State, a: Action)
    requires Base(s) && Enabled(s, a) && a.Send?
    ensures Base(Apply(c, s, a))
  {
    var t := Apply(c, s, a);
    PhaseChange(s, t, a.i);
    TicketsStay(s, t, a.i);
    SendLedgers(c, s, a);
  }

  lemma SendLedgers(c: Config, s: State, a: Action)
    requires Shape(s) && Conserved(s) && Logged(s) && Enabled(s, a) && a.Send?
    ensures Conserved(Apply(c, s, a)) && Logged(Apply(c, s, a))
  {
    var t := Apply(c, s, a);
    var m := RequestMsg(a.i, s.reqs[a.i]);
    assert m == RequestMsg(a.i, t.reqs[a.i]);
    SumGains(s.reqs, a.i, t.reqs[a.i], Expect, m);
    SumSame(s.reqs, a.i, t.reqs[a.i], Executed);
    NetPush(s.net, CLIENT_NETLINK, m);
  }

  lemma MoveConserves(net: seq<seq<Msg>>, k: nat)
    requires k + 1 < |net| && net[k] != []
    ensures Messages(net[k := net[k][1..]][k + 1 := net[k + 1] + [net[k][0]]]) == Messages(net)
  {
    NetPop(net, k, 0);
    assert Without(net[k], 0) == net[k][1..];
    NetPush(net[k := net[k][1..]], k + 1, net[k][0]);
  }

  /** A step that only moves messages keeps all but where they are. */
  lemma OnlyMessages(s: State, t: State)
    requires Queues(s) && Files(s) && Logged(s) && Tickets(s) && Shape(t) && t == s.(net := t.net)
    ensures Queues(t) && Files(t) && Logged(t) && Tickets(t)
  {
    FilesStay(s, t);
  }

  lemma MoveKeeps(c: Config, s: State, a: Action)
    requires Base(s) && Enabled(s, a) && a.Move?
    ensures Base(Apply(c, s, a))
  {
    MoveConserved(c, s, a);
    MoveShape(c, s, a);
    OnlyMessages(s, Apply(c, s, a));
  }

  lemma MoveConserved(c: Config, s: State, a: Action)
    requires Shape(s) && Conserved(s) && Enabled(s, a) && a.Move?
    ensures var t := Apply(c, s, a);
            t == s.(net := t.net) && Conserved(t)
  {
    MoveConserves(s.net, a.stage);
  }

  lemma MoveShape(c: Config, s: State, a: Action)
    requires Shape(s) && Enabled(s, a) && a.Move?
    ensures Shape(Apply(c, s, a))
  {
  }

  /** A call that returns leaves its queue if it is still in one, unless it is refused. */
  lemma ReturnQueues(c: Config, s: State, t: State, i: nat)
    requires Queues(s) && Files(s) && i < |s.reqs| == |t.reqs| && Active(s.reqs[i]) && !Active(t.reqs[i])
    requires s.reqs[i].phase.Completed? || t.reqs[i].phase.Refused?
    requires t.net == s.net && t.reqs == s.reqs[i := t.reqs[i]]
    requires t.reqs[i].acc == s.reqs[i].acc && t.reqs[i].kind == s.reqs[i].kind && t.reqs[i].kept == s.reqs[i].kept
    requires t.queue == s.queue || (t.queue == s.queue - {s.reqs[i].acc} && !s.reqs[i].kind.Other?)
    requires t.usable <= t.queue.Keys && t.usable <= s.usable + (if s.reqs[i].kind.Other? then {} else {s.reqs[i].acc})
    ensures Queues(t) && Files(t)
  {
    if !s.reqs[i].kind.Other? {
      assert Alone(s, i);
    }
    assert forall j :: 0 <= j < |s.reqs| && j != i ==> t.reqs[j] == s.reqs[j];
    ReturnUsable(s, t, i);
    FilesStay(s, t);
  }

  /** Only a file that an open or a release had to itself becomes usable. */
  lemma ReturnUsable(s: State, t: State, i: nat)
    requires Files(s) && i < |s.reqs| == |t.reqs| && Active(s.reqs[i]) && !Active(t.reqs[i])
    requires t.reqs == s.reqs[i := t.reqs[i]]
    requires t.usable <= s.usable + (if s.reqs[i].kind.Other? then {} else {s.reqs[i].acc})
    ensures forall j | 0 <= j < |t.reqs| && Active(t.reqs[j]) && !t.reqs[j].kind.Other? ::
              t.reqs[j].acc in t.usable ==> t.reqs[j].acc in s.usable
  {
    forall j | 0 <= j < |t.reqs| && Active(t.reqs[j]) && !t.reqs[j].kind.Other?
      ensures t.reqs[j].acc in t.usable ==> t.reqs[j].acc in s.usable
    {
      assert t.reqs[j] == s.reqs[j] && Alone(s, j);
    }
  }

  lemma ReturnKeeps(c: Config, s: State, a: Action)
    requires Base(s) && Enabled(s, a) && a.Return?
    ensures Base(Apply(c, s, a))
  {
    ReturnFiles(c, s, a);
    ReturnLedgers(c, s, a);
  }

  lemma ReturnFiles(c: Config, s: State, a: Action)
    requires Queues(s) && Files(s) && Enabled(s, a) && a.Return?
    ensures Queues(Apply(c, s, a)) && Files(Apply(c, s, a))
  {
    ReturnQueues(c, s, Apply(c, s, a), a.i);
  }

  lemma ReturnLedgers(c: Config, s: State, a: Action)
    requires Shape(s) && Conserved(s) && Logged(s) && Tickets(s) && Enabled(s, a) && a.Return?
    ensures var t := Apply(c, s, a); Conserved(t) && Logged(t) && Tickets(t)
  {
    var t := Apply(c, s, a);
    TicketsStay(s, t, a.i);
    LedgersStay(s, t, a.i);
  }

  lemma WithoutIndex<T>(q: seq<T>, p: nat)
    requires p < |q|
    ensures forall x :: 0 <= x < |q| - 1 ==> Without(q, p)[x] == q[if x < p then x else x + 1]
  {
  }

  lemma ExecuteShape(c: Config, s: State, p: nat, reply: Reply)
    requires Shape(s) && p < |s.net[SERVER_THREADS]|
    ensures Shape(ApplyExecute(c, s, p, reply))
  {
    WithoutIndex(s.net[SERVER_THREADS], p);
  }

  /** The thread gives up: the request message is gone, and its call lost. */
  lemma GiveUpLedgers(c: Config, s: State, p: nat, reply: Reply)
    requires Shape(s) && Conserved(s) && Logged(s) && p < |s.net[SERVER_THREADS]|
    requires var m := s.net[SERVER_THREADS][p];
             && s.reqs[m.owner].phase.Sent? && m == RequestMsg(m.owner, s.reqs[m.owner])
             && m.acc !in s.served && !m.kind.Open?
    ensures Conserved(ApplyExecute(c, s, p, reply)) && Logged(ApplyExecute(c, s, p, reply))
  {
    var t := ApplyExecute(c, s, p, reply);
    var m := s.net[SERVER_THREADS][p];
    NetPop(s.net, SERVER_THREADS, p);
    SumLoses(s.reqs, m.owner, t.reqs[m.owner], Expect, m);
    Cancel(Messages(t.net), Sum(t.reqs, Expect), multiset{m});
    SumSame(s.reqs, m.owner, t.reqs[m.owner], Executed);
  }

  lemma ExecuteLogged(c: Config, s: State, p: nat, reply: Reply)
    requires Shape(s) && Logged(s) && p < |s.net[SERVER_THREADS]|
    requires var m := s.net[SERVER_THREADS][p];
             && s.reqs[m.owner].phase.Sent? && m == RequestMsg(m.owner, s.reqs[m.owner])
             && (m.acc in s.served || m.kind.Open?)
    ensures Logged(ApplyExecute(c, s, p, reply))
  {
    var t := ApplyExecute(c, s, p, reply);
    var m := s.net[SERVER_THREADS][p];
    SumGains(s.reqs, m.owner, t.reqs[m.owner], Executed, Exec(m.owner, m.acc, m.kind, m.content.body, reply));
  }

  lemma ExecuteKeeps(c: Config, s: State, a: Action)
    requires Base(s) && Enabled(s, a) && a.Execute?
    ensures Base(Apply(c, s, a))
  {
    var t := Apply(c, s, a);
    var m := s.net[SERVER_THREADS][a.p];
    OwnerOf(s, SERVER_THREADS, a.p);
    ExecuteShape(c, s, a.p, a.reply);
    PhaseChange(s, t, m.owner);
    TicketsStay(s, t, m.owner);
    if m.acc !in s.served && !m.kind.Open? {
      GiveUpLedgers(c, s, a.p, a.reply);
    } else {
      ExecuteConserves(c, s, a.p, a.reply);
      ExecuteLogged(c, s, a.p, a.reply);
    }
  }

  /** An execution turns the request message into the reply message. */
  lemma ExecuteConserves(c: Config, s: State, p: nat, reply: Reply)
    requires Shape(s) && Conserved(s) && p < |s.net[SERVER_THREADS]|
    requires var m := s.net[SERVER_THREADS][p];
             && s.reqs[m.owner].phase.Sent? && m == RequestMsg(m.owner, s.reqs[m.owner])
             && (m.acc in s.served || m.kind.Open?)
    ensures Conserved(ApplyExecute(c, s, p, reply))
  {
    var t := ApplyExecute(c, s, p, reply);
    var m := s.net[SERVER_THREADS][p];
    var m' := m.(content := Answer(reply));
    var rest := s.net[SERVER_THREADS := Without(s.net[SERVER_THREADS], p)];
    NetPop(s.net, SERVER_THREADS, p);
    NetPush(rest, SERVER_NETLINK, m');
    SumSwaps(s.reqs, m.owner, t.reqs[m.owner], Expect, m, m');
    assert Messages(t.net) + multiset{m} == Messages(rest) + multiset{m} + multiset{m'};
    Cancel(Messages(t.net), Sum(t.reqs, Expect), multiset{m});
  }

  /** What completing a message does to its call: it is completed if the search finds it,
      and lost if not; no other call is touched. */
  lemma CompleteOutcome(c: Config, s: State, p: nat)
    requires Base(s) && p < |s.net[CLIENT_THREADS]| && !Misdelivers(c, s, p)
    ensures var m := s.net[CLIENT_THREADS][p];
            && m.acc in s.queue
            && var r := Find(c, Entries(s.reqs, s.queue[m.acc]), ToI32(m.key));
            && (r.hit.Some? ==> r.hit.value.item == m.owner)
            && ApplyComplete(c, s, p) == s.(
                 net := s.net[CLIENT_THREADS := Without(s.net[CLIENT_THREADS], p)],
                 queue := s.queue[m.acc := Items(r.rest)],
                 reqs := s.reqs[m.owner := s.reqs[m.owner].(phase :=
                   if r.hit.Some? then Completed(m.content.reply) else Lost(Some(m.content.reply)))])
  {
    var m := s.net[CLIENT_THREADS][p];
    OwnerOf(s, CLIENT_THREADS, p);
    FindItems(c, s.reqs, s.queue[m.acc], ToI32(m.key));
    var r := Find(c, Entries(s.reqs, s.queue[m.acc]), ToI32(m.key));
  }

  lemma CompleteQueues(c: Config, s: State, a: Action)
    requires Base(s) && Enabled(s, a) && a.Complete? && !Misdelivers(c, s, a.p)
    ensures Queues(Apply(c, s, a)) && Files(Apply(c, s, a))
  {
    var t := Apply(c, s, a);
    var i := s.net[CLIENT_THREADS][a.p].owner;
    CompleteView(c, s, a.p);
    CompleteShape(s, t, a.p);
    QueueShrinks(s, t, i);
    CompleteFiles(s, t, i);
  }

  lemma CompleteFiles(s: State, t: State, i: nat)
    requires Files(s) && i < |s.reqs| == |t.reqs| && t.reqs == s.reqs[i := t.reqs[i]] && t.usable == s.usable
    requires t.reqs[i] == s.reqs[i].(phase := t.reqs[i].phase) && Active(s.reqs[i])
    ensures Files(t)
  {
    FilesStay(s, t);
  }

  /** The outcome of completing a message, as far as queues are concerned. */
  lemma CompleteView(c: Config, s: State, p: nat)
    requires Base(s) && p < |s.net[CLIENT_THREADS]| && !Misdelivers(c, s, p)
    ensures var i := s.net[CLIENT_THREADS][p].owner;
            var t := ApplyComplete(c, s, p);
            && i < |s.reqs| == |t.reqs| && Pending(s.reqs[i]) && Active(s.reqs[i])
            && t.reqs == s.reqs[i := t.reqs[i]]
            && t.reqs[i] == s.reqs[i].(phase := t.reqs[i].phase) && Active(t.reqs[i])
            && t.net == s.net[CLIENT_THREADS := Without(s.net[CLIENT_THREADS], p)] && t.usable == s.usable
            && var acc := s.reqs[i].acc;
            && acc in s.queue && acc in t.queue && t.queue == s.queue[acc := t.queue[acc]] && Distinct(t.queue[acc])
            && forall j :: j in t.queue[acc] <==> j in s.queue[acc] && (j != i || Pending(t.reqs[i]))
  {
    var m := s.net[CLIENT_THREADS][p];
    CompleteOutcome(c, s, p);
    OwnerOf(s, CLIENT_THREADS, p);
    FindItems(c, s.reqs, s.queue[m.acc], ToI32(m.key));
  }

  /** The call that is completed leaves its queue; one that is lost stays there. */
  lemma QueueShrinks(s: State, t: State, i: nat)
    requires Queues(s) && Shape(t) && i < |s.reqs| == |t.reqs| && Pending(s.reqs[i]) && s.reqs[i].acc in s.queue
    requires t.reqs == s.reqs[i := t.reqs[i]] && t.reqs[i] == s.reqs[i].(phase := t.reqs[i].phase) && Active(t.reqs[i])
    requires var acc := s.reqs[i].acc;
             && acc in t.queue && t.queue == s.queue[acc := t.queue[acc]] && Distinct(t.queue[acc])
             && forall j :: j in t.queue[acc] <==> j in s.queue[acc] && (j != i || Pending(t.reqs[i]))
    ensures Queues(t)
  {
    assert forall j :: 0 <= j < |s.reqs| && j != i ==> t.reqs[j] == s.reqs[j];
  }

  lemma CompleteShape(s: State, t: State, p: nat)
    requires Shape(s) && p < |s.net[CLIENT_THREADS]| && |t.reqs| == |s.reqs|
    requires t.net == s.net[CLIENT_THREADS := Without(s.net[CLIENT_THREADS], p)]
    requires forall a :: a in t.queue ==> a in s.queue && forall i :: i in t.queue[a] ==> i in s.queue[a]
    requires t.usable == s.usable && s.queue.Keys <= t.queue.Keys
    ensures Shape(t)
  {
    WithoutIndex(s.net[CLIENT_THREADS], p);
    forall a, x | a in t.queue && 0 <= x < |t.queue[a]|
      ensures t.queue[a][x] < |t.reqs|
    {
      assert t.queue[a][x] in s.queue[a];
    }
  }

  /** The reply is used up: its call waits for no message any more. */
  lemma CompleteConserves(s: State, t: State, p: nat)
    requires Shape(s) && Conserved(s) && p < |s.net[CLIENT_THREADS]| && Consumes(s, t, p)
    ensures Conserved(t)
  {
    var m := s.net[CLIENT_THREADS][p];
    NetPop(s.net, CLIENT_THREADS, p);
    SumLoses(s.reqs, m.owner, t.reqs[m.owner], Expect, m);
    Cancel(Messages(t.net), Sum(t.reqs, Expect), multiset{m});
  }

  lemma CompleteLogged(s: State, t: State, p: nat)
    requires Shape(s) && Logged(s) && p < |s.net[CLIENT_THREADS]| && Consumes(s, t, p)
    ensures Logged(t)
  {
    var i := s.net[CLIENT_THREADS][p].owner;
    SumSame(s.reqs, i, t.reqs[i], Executed);
  }

  ghost predicate Consumes(s: State, t: State, p: nat)
    requires Shape(s) && p < |s.net[CLIENT_THREADS]|
  {
    var m := s.net[CLIENT_THREADS][p];
    && m.owner < |s.reqs| == |t.reqs|
    && var r, r' := s.reqs[m.owner], t.reqs[m.owner];
    && r.phase.Answered? && m == ReplyMsg(m.owner, r, r.phase.reply)
    && r' == r.(phase := r'.phase) && (r'.phase == Completed(r.phase.reply) || r'.phase == Lost(Some(r.phase.reply)))
    && t.reqs == s.reqs[m.owner := r']
    && t.net == s.net[CLIENT_THREADS := Without(s.net[CLIENT_THREADS], p)]
    && t.issued == s.issued && t.log == s.log
  }

  lemma CompleteKeeps(c: Config, s: State, a: Action)
    requires Base(s) && Enabled(s, a) && a.Complete? && !Misdelivers(c, s, a.p)
    ensures Base(Apply(c, s, a))
  {
    CompleteQueues(c, s, a);
    CompleteOutcome(c, s, a.p);
    OwnerOf(s, CLIENT_THREADS, a.p);
    CompleteConserves(s, Apply(c, s, a), a.p);
    CompleteLogged(s, Apply(c, s, a), a.p);
    TicketsStay(s, Apply(c, s, a), s.net[CLIENT_THREADS][a.p].owner);
  }

  lemma RefuseKeeps(c: Config, s: State, a: Action)
    requires Base(s) && Enabled(s, a) && a.Refuse?
    ensures Base(Apply(c, s, a))
  {
    RefuseFiles(c, s, a);
    RefuseLedgers(c, s, a);
  }

  lemma RefuseFiles(c: Config, s: State, a: Action)
    requires Queues(s) && Files(s) && Enabled(s, a) && a.Refuse?
    ensures Queues(Apply(c, s, a)) && Files(Apply(c, s, a))
  {
    ReturnQueues(c, s, Apply(c, s, a), a.i);
  }

  lemma RefuseLedgers(c: Config, s: State, a: Action)
    requires Shape(s) && Conserved(s) && Logged(s) && Tickets(s) && Enabled(s, a) && a.Refuse?
    ensures var t := Apply(c, s, a); Conserved(t) && Logged(t) && Tickets(t)
  {
    var t := Apply(c, s, a);
    RefuseTickets(s, t, a.i);
    LedgersStay(s, t, a.i);
  }

  /** A step of one call that has no message and is not executed in it changes no ledger. */
  lemma LedgersStay(s: State, t: State, i: nat)
    requires Conserved(s) && Logged(s) && i < |s.reqs| == |t.reqs| && t.net == s.net && t.log == s.log
    requires t.reqs == s.reqs[i := t.reqs[i]]
    requires Expect(i, s.reqs[i]) == Expect(i, t.reqs[i]) && Executed(i, s.reqs[i]) == Executed(i, t.reqs[i])
    ensures Conserved(t) && Logged(t)
  {
    SumSame(s.reqs, i, t.reqs[i], Expect);
    SumSame(s.reqs, i, t.reqs[i], Executed);
  }

  lemma RefuseTickets(s: State, t: State, i: nat)
    requires Tickets(s) && InWindow(s) && i < |s.reqs| == |t.reqs| && t.issued == s.issued + 1
    requires t.reqs == s.reqs[i := t.reqs[i]] && t.reqs[i].phase.Refused? && t.reqs[i].seqNo == 0
    ensures Tickets(t)
  {
    assert forall j :: 0 <= j < |s.reqs| && j != i ==> t.reqs[j] == s.reqs[j];
  }

  /** A message that is dropped leaves its call waiting. */
  lemma DropKeeps(c: Config, s: State, a: Action)
    requires Base(s) && Enabled(s, a) && a.Drop?
    ensures Base(Apply(c, s, a))
  {
    var t := Apply(c, s, a);
    var m := s.net[a.stage][a.p];
    OwnerOf(s, a.stage, a.p);
    WithoutIndex(s.net[a.stage], a.p);
    PhaseChange(s, t, m.owner);
    TicketsStay(s, t, m.owner);
    DropLedgers(s, t, a.stage, a.p);
  }

  lemma DropLedgers(s: State, t: State, k: nat, p: nat)
    requires Shape(s) && Conserved(s) && Logged(s) && k < STAGES && p < |s.net[k]| && t == ApplyDrop(s, k, p)
    ensures Conserved(t) && Logged(t)
  {
    var i := s.net[k][p].owner;
    OwnerOf(s, k, p);
    SumSame(s.reqs, i, t.reqs[i], Executed);
    DropConserves(s, t, k, p);
  }

  lemma DropConserves(s: State, t: State, k: nat, p: nat)
    requires Shape(s) && Conserved(s) && k < STAGES && p < |s.net[k]|
    requires var m := s.net[k][p];
             && |t.reqs| == |s.reqs| && t.reqs == s.reqs[m.owner := t.reqs[m.owner]]
             && t.net == s.net[k := Without(s.net[k], p)]
             && Expect(m.owner, s.reqs[m.owner]) == multiset{m} && Expect(m.owner, t.reqs[m.owner]) == multiset{}
    ensures Conserved(t)
  {
    var m := s.net[k][p];
    NetPop(s.net, k, p);
    SumLoses(s.reqs, m.owner, t.reqs[m.owner], Expect, m);
    Cancel(Messages(t.net), Sum(t.reqs, Expect), multiset{m});
  }

  /** Every step keeps the invariant but one that completes a call with the reply of another. */
  lemma BaseKeeps(c: Config, s: State, a: Action)
    requires Base(s) && Enabled(s, a) && (a.Complete? ==> !Misdelivers(c, s, a.p))
    ensures Base(Apply(c, s, a))
  {
    match a
    case Begin(_, _, _, _) => BeginKeeps(c, s, a);
    case Number(_) => NumberKeeps(c, s, a);
    case Refuse(_) => RefuseKeeps(c, s, a);
    case Send(_) => SendKeeps(c, s, a);
    case Move(_) => MoveKeeps(c, s, a);
    case Drop(_, _) => DropKeeps(c, s, a);
    case Execute(_, _) => ExecuteKeeps(c, s, a);
    case Complete(_) => CompleteKeeps(c, s, a);
    case Return(_) => ReturnKeeps(c, s, a);
  }

  // ----- Numbers and the memory of requests that have none yet

  lemma NothingMisdelivered(c: Config, s: State, p: nat)
    requires Inv(s) && p < |s.net[CLIENT_THREADS]|
    ensures !Misdelivers(c, s, p)
  {
    var m := s.net[CLIENT_THREADS][p];
    OwnerOf(s, CLIENT_THREADS, p);
    var q := s.queue[m.acc];
    FindItems(c, s.reqs, q, ToI32(m.key));
    var hit := Find(c, Entries(s.reqs, q), ToI32(m.key)).hit;
    if hit.Some? {
      SameNumberSameCall(s, m.owner, hit.value.item);
      assert !Confused(s.reqs[hit.value.item], s.reqs[m.owner]);
    }
  }

  /** A step by which no request is new in the queue or in use keeps the numbers apart. */
  lemma StillApart(s: State, t: State)
    requires Placeholders(s) && |t.reqs| == |s.reqs|
    requires forall i :: 0 <= i < |s.reqs| ==> t.reqs[i].acc == s.reqs[i].acc && Later(s.reqs[i], t.reqs[i])
    ensures Placeholders(t)
  {
    forall i, j | 0 <= i < |t.reqs| && 0 <= j < |t.reqs|
      ensures !Confused(t.reqs[i], t.reqs[j])
    {
      assert !Confused(s.reqs[i], s.reqs[j]);
    }
  }

  predicate Later(r: Req, r': Req) {
    r' == r || (!r'.phase.Queued? && (InUse(r') ==> InUse(r) && r'.seqNo == r.seqNo))
  }

  lemma BeginApart(c: Config, s: State, a: Action)
    requires Queues(s) && Placeholders(s) && Enabled(s, a) && a.Begin? && Clean(s, a)
    ensures Placeholders(Apply(c, s, a))
  {
    var r, q := BeginView(c, s, a);
    var t := Apply(c, s, a);
    forall i, j | 0 <= i < |t.reqs| && 0 <= j < |t.reqs|
      ensures !Confused(t.reqs[i], t.reqs[j])
    {
      if i < |s.reqs| && j < |s.reqs| {
        assert !Confused(s.reqs[i], s.reqs[j]);
      }
    }
  }

  lemma NumberApart(c: Config, s: State, a: Action)
    requires Shape(s) && Placeholders(s) && Enabled(s, a) && a.Number? && Clean(s, a)
    ensures Placeholders(Apply(c, s, a))
  {
    var t := Apply(c, s, a);
    forall i, j | 0 <= i < |t.reqs| && 0 <= j < |t.reqs|
      ensures !Confused(t.reqs[i], t.reqs[j])
    {
      assert !Confused(s.reqs[i], s.reqs[j]);
    }
  }

  lemma StaysApart(c: Config, s: State, a: Action)
    requires Inv(s) && Enabled(s, a) && Clean(s, a)
    ensures Placeholders(Apply(c, s, a))
  {
    match a
    case Begin(_, _, _, _) => BeginApart(c, s, a);
    case Number(_) => NumberApart(c, s, a);
    case Complete(p) => CompleteApart(c, s, p);
    case Execute(p, _) => OwnerApart(c, s, a, SERVER_THREADS, p);
    case Drop(k, p) => OwnerApart(c, s, a, k, p);
    case Move(_) => StillApart(s, Apply(c, s, a));
    case Refuse(i) => OneApart(s, Apply(c, s, a), i);
    case Send(i) => OneApart(s, Apply(c, s, a), i);
    case Return(i) => OneApart(s, Apply(c, s, a), i);
  }

  lemma OneApart(s: State, t: State, i: nat)
    requires Placeholders(s) && i < |s.reqs| == |t.reqs| && t.reqs == s.reqs[i := t.reqs[i]]
    requires t.reqs[i].acc == s.reqs[i].acc && Later(s.reqs[i], t.reqs[i])
    ensures Placeholders(t)
  {
    StillApart(s, t);
  }

  lemma CompleteApart(c: Config, s: State, p: nat)
    requires Inv(s) && p < |s.net[CLIENT_THREADS]|
    ensures Placeholders(ApplyComplete(c, s, p))
  {
    NothingMisdelivered(c, s, p);
    CompleteOutcome(c, s, p);
    OwnerOf(s, CLIENT_THREADS, p);
    OneApart(s, ApplyComplete(c, s, p), s.net[CLIENT_THREADS][p].owner);
  }

  lemma OwnerApart(c: Config, s: State, a: Action, k: nat, p: nat)
    requires Inv(s) && Enabled(s, a) && k < STAGES && p < |s.net[k]|
    requires a == Drop(k, p) || (a.Execute? && a.p == p && k == SERVER_THREADS)
    ensures Placeholders(Apply(c, s, a))
  {
    OwnerOf(s, k, p);
    OneApart(s, Apply(c, s, a), s.net[k][p].owner);
  }

  lemma StepKeeps(c: Config, s: State, a: Action)
    requires Inv(s) && Enabled(s, a) && Clean(s, a)
    ensures Inv(Apply(c, s, a))
  {
    if a.Complete? {
      NothingMisdelivered(c, s, a.p);
    }
    BaseKeeps(c, s, a);
    StaysApart(c, s, a);
  }
}
