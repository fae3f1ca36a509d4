/** Why the numbers of requests are not confused with what their memory held before: a new
    request gets the memory of one whose call has returned (kernel/fo_comm.c:40, 92). */
module RpcMemory {
  import opened Bytes
  import opened Rpc
  import opened RpcSafety
  import Results = RpcResults

  /** New pages do not hold a sequence number; and the counter does not come round while a
      number from before is in the memory of a request that waits for its own. */
  ghost predicate Timely(s: State, a: Action)
    requires Shape(s) && Enabled(s, a)
  {
    match a
    case Begin(_, _, _, memory) =>
      (match memory
       case Fresh(content) => !IsNumber(content)
       case Recycled(j) => s.issued < s.reqs[j].ticket + TWO_TO_THE_32)
    case Number(_) => StaleInWindow(s)
    case Refuse(_) => StaleInWindow(s)
    case _ => true
  }

  ghost predicate StaleInWindow(s: State) {
    forall j :: 0 <= j < |s.reqs| && s.reqs[j].phase.Queued? && s.reqs[j].ticket > 0 ==>
                  s.issued + 1 < s.reqs[j].ticket + TWO_TO_THE_32
  }

  ghost predicate TimelyRun(c: Config, s: State, actions: seq<Action>)
    decreases |actions|
  {
    actions == [] ||
    (Shape(s) && Enabled(s, actions[0]) && Timely(s, actions[0])
     && TimelyRun(c, Apply(c, s, actions[0]), actions[1..]))
  }

  /** A request without a number holds none, or that of an increment which is not the one
      of any request in use. */
  ghost predicate Stale(s: State) {
    && (forall i :: 0 <= i < |s.reqs| && s.reqs[i].phase.Queued? ==> Old(s.reqs[i], s.issued))
    && (forall i, j :: 0 <= i < |s.reqs| && 0 <= j < |s.reqs| && s.reqs[i].phase.Queued? && InUse(s.reqs[j]) ==>
          s.reqs[i].ticket != s.reqs[j].ticket)
  }

  predicate Old(r: Req, issued: nat) {
    if r.ticket == 0 then !IsNumber(r.seqNo)
    else r.ticket <= issued < r.ticket + TWO_TO_THE_32 && r.seqNo == Wrap(r.ticket)
  }

  /** Nothing is written to the field of a request before its number: it holds what was in
      its memory, which for recycled memory is the number of the call that had it. */
  lemma RecycledHoldsOldNumber(c: Config, s: State, acc: int, kind: Kind, body: Payload, memory: Memory)
    requires Shape(s) && Enabled(s, Begin(acc, kind, body, memory))
    ensures var t := Apply(c, s, Begin(acc, kind, body, memory));
            && |t.reqs| == |s.reqs| + 1
            && t.reqs[|s.reqs|].seqNo == match memory
                                         case Fresh(content) => content
                                         case Recycled(j) => s.reqs[j].seqNo
    ensures memory.Recycled? && Tickets(s) ==>
              IsNumber(Apply(c, s, Begin(acc, kind, body, memory)).reqs[|s.reqs|].seqNo)
  {
    if memory.Recycled? {
      assert HadNumber(s.reqs[memory.from]);
    }
  }

  lemma SameWrapIff(a: nat, b: nat)
    ensures Wrap(a) == Wrap(b) <==> a % TWO_TO_THE_32 == b % TWO_TO_THE_32
  {
  }

  /** A call that gets the memory of another is clean exactly when no request in use on its
      file has a number from a whole number of rounds of the counter before or after that
      of the other. */
  lemma RecycledIsCleanIff(s: State, acc: int, kind: Kind, body: Payload, j: nat)
    requires Shape(s) && Tickets(s) && Enabled(s, Begin(acc, kind, body, Recycled(j)))
    ensures Clean(s, Begin(acc, kind, body, Recycled(j))) <==>
              forall i | 0 <= i < |s.reqs| && InUse(s.reqs[i]) && s.reqs[i].acc == acc ::
                s.reqs[i].ticket % TWO_TO_THE_32 != s.reqs[j].ticket % TWO_TO_THE_32
  {
    assert HadNumber(s.reqs[j]) && s.reqs[j].seqNo == Wrap(s.reqs[j].ticket);
    forall i | 0 <= i < |s.reqs| && InUse(s.reqs[i])
      ensures s.reqs[i].seqNo == s.reqs[j].seqNo
              <==> s.reqs[i].ticket % TWO_TO_THE_32 == s.reqs[j].ticket % TWO_TO_THE_32
    {
      assert s.reqs[i].seqNo == Wrap(s.reqs[i].ticket);
      SameWrapIff(s.reqs[i].ticket, s.reqs[j].ticket);
    }
  }

  /** In such a state the step is clean. */
  lemma TimelyIsClean(s: State, a: Action)
    requires Shape(s) && Tickets(s) && Stale(s) && Enabled(s, a) && Timely(s, a)
    ensures Clean(s, a)
  {
    match a
    case Begin(acc, _, _, memory) =>
      forall i | 0 <= i < |s.reqs| && InUse(s.reqs[i]) && s.reqs[i].acc == acc
        ensures s.reqs[i].seqNo != Placeholder(s, memory).0
      {
        if memory.Recycled? {
          WindowInjective(s.issued, s.reqs[i].ticket, s.reqs[memory.from].ticket);
        }
      }
    case Number(i) =>
      forall j | 0 <= j < |s.reqs| && j != i && s.reqs[j].phase.Queued?
        ensures s.reqs[j].seqNo != Wrap(s.issued + 1)
      {
        WindowInjective(s.issued + 1, s.issued + 1, s.reqs[j].ticket);
      }
    case _ =>
  }

  /** Two different increments in one window have different numbers. */
  lemma WindowInjective(issued: nat, a: nat, b: nat)
    requires a <= issued < a + TWO_TO_THE_32
    ensures b <= issued < b + TWO_TO_THE_32 && Wrap(a) == Wrap(b) ==> a == b
  {
    if b <= issued < b + TWO_TO_THE_32 {
      if a <= b {
        WrapInjective(a, b);
      } else {
        WrapInjective(b, a);
      }
    }
  }

  lemma PlaceholderIsStale(s: State, a: Action)
    requires Shape(s) && Tickets(s) && Enabled(s, a) && a.Begin? && Timely(s, a)
    ensures var (seqNo, ticket) := Placeholder(s, a.memory);
            && (if ticket == 0 then !IsNumber(seqNo)
                else ticket <= s.issued < ticket + TWO_TO_THE_32 && seqNo == Wrap(ticket))
            && forall j :: 0 <= j < |s.reqs| && InUse(s.reqs[j]) ==> ticket != s.reqs[j].ticket
  {
    if a.memory.Recycled? {
      assert HadNumber(s.reqs[a.memory.from]);
    }
  }

  lemma BeginStale(c: Config, s: State, a: Action)
    requires Queues(s) && Tickets(s) && Stale(s) && Enabled(s, a) && a.Begin? && Timely(s, a)
    ensures Stale(Apply(c, s, a))
  {
    PlaceholderIsStale(s, a);
    var r, q := BeginView(c, s, a);
    AppendStale(s, Apply(c, s, a), r);
  }

  lemma AppendStale(s: State, t: State, r: Req)
    requires Stale(s) && t.reqs == s.reqs + [r] && t.issued == s.issued
    requires r.phase.Queued? && Old(r, s.issued)
    requires forall j :: 0 <= j < |s.reqs| && InUse(s.reqs[j]) ==> r.ticket != s.reqs[j].ticket
    ensures Stale(t)
  {
    assert forall i :: 0 <= i < |s.reqs| ==> t.reqs[i] == s.reqs[i];
  }

  lemma IncrementStale(s: State, t: State, i: nat)
    requires Tickets(s) && Stale(s) && StaleInWindow(s) && i < |s.reqs| == |t.reqs| && t.issued == s.issued + 1
    requires t.reqs == s.reqs[i := t.reqs[i]] && !t.reqs[i].phase.Queued?
    requires InUse(t.reqs[i]) ==> t.reqs[i].ticket == s.issued + 1
    ensures Stale(t)
  {
    assert forall j :: 0 <= j < |s.reqs| && j != i ==> t.reqs[j] == s.reqs[j];
  }

  lemma OtherStale(s: State, t: State, i: nat)
    requires Stale(s) && i < |s.reqs| == |t.reqs| && t.issued == s.issued
    requires t.reqs == s.reqs[i := t.reqs[i]] && !t.reqs[i].phase.Queued?
    requires InUse(t.reqs[i]) ==> InUse(s.reqs[i]) && t.reqs[i].ticket == s.reqs[i].ticket
    ensures Stale(t)
  {
    assert forall j :: 0 <= j < |s.reqs| && j != i ==> t.reqs[j] == s.reqs[j];
  }

  lemma StepStale(c: Config, s: State, a: Action)
    requires Inv(s) && Stale(s) && Enabled(s, a) && Timely(s, a)
    ensures Stale(Apply(c, s, a))
  {
    match a
    case Begin(_, _, _, _) => BeginStale(c, s, a);
    case Number(i) => NumberStale(c, s, a);
    case Refuse(i) => NumberStale(c, s, a);
    case Send(i) => OwnStale(c, s, a);
    case Return(i) => OwnStale(c, s, a);
    case Execute(p, _) => OwnerStale(c, s, a, SERVER_THREADS, p);
    case Drop(k, p) => OwnerStale(c, s, a, k, p);
    case Complete(p) => CompleteStale(c, s, p);
    case Move(_) => assert Apply(c, s, a).reqs == s.reqs;
  }

  lemma NumberStale(c: Config, s: State, a: Action)
    requires Shape(s) && Tickets(s) && Stale(s) && Enabled(s, a) && Timely(s, a) && (a.Number? || a.Refuse?)
    ensures Stale(Apply(c, s, a))
  {
    IncrementStale(s, Apply(c, s, a), a.i);
  }

  lemma OwnStale(c: Config, s: State, a: Action)
    requires Shape(s) && Stale(s) && Enabled(s, a) && (a.Send? || a.Return?)
    ensures Stale(Apply(c, s, a))
  {
    OtherStale(s, Apply(c, s, a), a.i);
  }

  lemma OwnerStale(c: Config, s: State, a: Action, k: nat, p: nat)
    requires Inv(s) && Stale(s) && Enabled(s, a) && k < STAGES && p < |s.net[k]|
    requires a == Drop(k, p) || (a.Execute? && a.p == p && k == SERVER_THREADS)
    ensures Stale(Apply(c, s, a))
  {
    OwnerOf(s, k, p);
    OtherStale(s, Apply(c, s, a), s.net[k][p].owner);
  }

  lemma CompleteStale(c: Config, s: State, p: nat)
    requires Inv(s) && Stale(s) && p < |s.net[CLIENT_THREADS]|
    ensures Stale(ApplyComplete(c, s, p))
  {
    NothingMisdelivered(c, s, p);
    CompleteOutcome(c, s, p);
    OwnerOf(s, CLIENT_THREADS, p);
    OtherStale(s, ApplyComplete(c, s, p), s.net[CLIENT_THREADS][p].owner);
  }

  /** In every run in which the memory of requests is used again, and the counter does not
      come round in the meantime, no number is confused. */
  lemma {:induction false} TimelyRunIsClean(c: Config, s: State, actions: seq<Action>)
    requires Inv(s) && Stale(s) && TimelyRun(c, s, actions)
    ensures Results.CleanRun(c, s, actions)
    decreases |actions|
  {
    if actions != [] {
      TimelyIsClean(s, actions[0]);
      StepKeeps(c, s, actions[0]);
      StepStale(c, s, actions[0]);
      TimelyRunIsClean(c, Apply(c, s, actions[0]), actions[1..]);
    }
  }

  /** So the results hold in all of them: each caller has its own answer. */
  lemma RecycledMemoryIsHarmless(c: Config, issued: nat, actions: seq<Action>, i: nat)
    requires TimelyRun(c, Init(issued), actions) && Run(c, Init(issued), actions).Some?
    requires i < |Run(c, Init(issued), actions).value.reqs|
    ensures Results.CleanRun(c, Init(issued), actions)
    ensures Results.HasOwnResult(Run(c, Init(issued), actions).value, i)
  {
    Results.InitInv(issued);
    TimelyRunIsClean(c, Init(issued), actions);
    Results.CallersGetTheirOwnResult(c, issued, actions, i);
  }
}
