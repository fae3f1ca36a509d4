/** What steps and runs of the remote calls leave as it was: who called what, how often the
    counter was incremented, the order of messages, and what a refused call leaves. */
module RpcHistory {
  import opened Bytes
  import opened Rpc

  // ----- The calls are those that were begun

  /** The Begin actions of a run, in order. */
  function Begun(actions: seq<Action>): seq<Action> {
    if actions == [] then []
    else (if actions[0].Begin? then [actions[0]] else []) + Begun(actions[1..])
  }

  predicate MadeBy(r: Req, a: Action) {
    a.Begin? && r.acc == a.acc && r.kind == a.kind && r.body == a.body
  }

  predicate SameCall(r: Req, r': Req) {
    r'.acc == r.acc && r'.kind == r.kind && r'.body == r.body && r'.kept == r.kept
  }

  /** A step makes one new call if it begins one, and changes no other call's identity, nor
      anything of one that still has no number. */
  lemma StepKeepsCalls(c: Config, s: State, a: Action)
    requires Shape(s) && Enabled(s, a)
    ensures var t := Apply(c, s, a);
            && |t.reqs| == |s.reqs| + (if a.Begin? then 1 else 0)
            && (forall i :: 0 <= i < |s.reqs| ==> SameCall(s.reqs[i], t.reqs[i]))
            && (forall i :: 0 <= i < |s.reqs| && t.reqs[i].phase.Queued? ==> t.reqs[i] == s.reqs[i])
            && (a.Begin? ==> MadeBy(t.reqs[|s.reqs|], a) && t.reqs[|s.reqs|].phase.Queued?)
  {
  }

  /** The calls of a run are those that it began: same open file, same operation, same
      request, in the same order. */
  lemma {:induction false} CallsAreBegun(c: Config, s: State, actions: seq<Action>)
    requires Run(c, s, actions).Some?
    ensures var t := Run(c, s, actions).value;
            && |t.reqs| == |s.reqs| + |Begun(actions)|
            && (forall i :: 0 <= i < |s.reqs| ==> SameCall(s.reqs[i], t.reqs[i]))
            && (forall i :: |s.reqs| <= i < |t.reqs| ==> MadeBy(t.reqs[i], Begun(actions)[i - |s.reqs|]))
    decreases |actions|
  {
    if actions != [] {
      StepKeepsCalls(c, s, actions[0]);
      CallsAreBegun(c, Apply(c, s, actions[0]), actions[1..]);
    }
  }

  // ----- The counter

  function Increments(actions: seq<Action>): nat {
    if actions == [] then 0
    else (if actions[0].Number? || actions[0].Refuse? then 1 else 0) + Increments(actions[1..])
  }

  /** The counter goes up by one for every call that is numbered or refused. */
  lemma {:induction false} CounterIsIncrements(c: Config, s: State, actions: seq<Action>)
    requires Run(c, s, actions).Some?
    ensures Run(c, s, actions).value.issued == s.issued + Increments(actions)
    decreases |actions|
  {
    if actions != [] {
      CounterIsIncrements(c, Apply(c, s, actions[0]), actions[1..]);
    }
  }

  // ----- The order of messages

  /** Queues and connections keep the order: what moves on was first at its station, and is
      last at the next one. */
  lemma MoveKeepsOrder(c: Config, s: State, k: nat)
    requires Shape(s) && Enabled(s, Move(k))
    ensures var t := Apply(c, s, Move(k));
            && t.net[k + 1] + t.net[k] == s.net[k + 1] + s.net[k]
            && |t.net[k]| == |s.net[k]| - 1
            && forall x :: 0 <= x < STAGES && x != k && x != k + 1 ==> t.net[x] == s.net[x]
  {
    assert s.net[k] == [s.net[k][0]] + s.net[k][1..];
  }

  // ----- A call that is refused

  /** A refused call has returned, but its request stays where it was in the queue, unless
      the call itself frees the open file: a release does, and an open if that is repaired. */
  lemma RefusedStaysQueued(c: Config, s: State, i: nat)
    requires Shape(s) && Enabled(s, Refuse(i))
    ensures var r := s.reqs[i];
            var t := Apply(c, s, Refuse(i));
            var frees := r.kind.Release? || (r.kind.Open? && c.cleansOpen);
            && !Active(t.reqs[i]) && t.reqs[i].seqNo == 0 && !Pending(t.reqs[i])
            && (r.acc in t.queue <==> r.acc in s.queue && !frees)
            && (forall a :: a in s.queue && (a != r.acc || !frees) ==> a in t.queue && t.queue[a] == s.queue[a])
            && t.served == s.served && t.net == s.net && t.log == s.log
  {
  }

  /** A counter of 2^32 - 1 is enough for a call to be refused. */
  lemma ACallCanBeRefused(c: Config)
    ensures var actions := [Begin(0, Open, [], Fresh(0)), Refuse(0)];
            && Run(c, Init(TWO_TO_THE_32 - 1), actions).Some?
            && Run(c, Init(TWO_TO_THE_32 - 1), actions).value.reqs[0].phase.Refused?
  {
    var s := Init(TWO_TO_THE_32 - 1);
    var b := Begin(0, Open, [], Fresh(0));
    assert [b, Refuse(0)][1..] == [Refuse(0)] && [Refuse(0)][1..] == [];
    var t := Apply(c, s, b);
    assert Shape(t) && Enabled(t, Refuse(0));
    assert Run(c, t, [Refuse(0)]) == Some(Apply(c, t, Refuse(0)));
  }
}
