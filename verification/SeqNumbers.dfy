/** Taking a sequence number in two steps (kernel/netdevmgm.c:293-300, kernel/fo_comm.c:66):
    a thread increments the counter of the device and reads it again, and other threads
    may do either in between. */
module SeqNumbers {
  import opened Bytes
  import opened Rpc

  datatype Event = Increment | Read

  /** atomic_inc on an `int`. */
  function Successor(x: int32): int32 {
    if x == TWO_TO_THE_31 - 1 then -TWO_TO_THE_31 else x + 1
  }

  /** The counter after a trace of events, from zero. */
  function Counter(es: seq<Event>): int32 {
    if es == [] then 0
    else
      var before := Counter(es[..|es| - 1]);
      if es[|es| - 1] == Increment then Successor(before) else before
  }

  function Increments(es: seq<Event>): nat {
    if es == [] then 0 else Increments(es[..|es| - 1]) + if es[|es| - 1] == Increment then 1 else 0
  }

  lemma Remainder(v: nat, q: nat, r: nat)
    requires v == TWO_TO_THE_32 * q + r && r < TWO_TO_THE_32
    ensures v % TWO_TO_THE_32 == r
  {
  }

  lemma WrapOfNext(n: nat)
    ensures Wrap(n + 1) == Successor(Wrap(n))
  {
    var q, r := n / TWO_TO_THE_32, n % TWO_TO_THE_32;
    if r + 1 < TWO_TO_THE_32 {
      Remainder(n + 1, q, r + 1);
    } else {
      Remainder(n + 1, q + 1, 0);
    }
  }

  lemma {:induction false} CounterIsIncrements(es: seq<Event>)
    ensures Counter(es) == Wrap(Increments(es))
  {
    if es != [] {
      CounterIsIncrements(es[..|es| - 1]);
      WrapOfNext(Increments(es[..|es| - 1]));
    }
  }

  lemma {:induction false} IncrementsSplit(es: seq<Event>, i: nat)
    requires i <= |es|
    ensures Increments(es) == Increments(es[..i]) + Increments(es[i..])
    decreases |es|
  {
    if i < |es| {
      var front := es[..|es| - 1];
      IncrementsSplit(front, i);
      assert front[..i] == es[..i] && front[i..] == es[i..][..|es[i..]| - 1];
    } else {
      assert es[..i] == es && es[i..] == [];
    }
  }

  lemma SameWrapIff(a: nat, n: nat)
    ensures Wrap(a) == Wrap(a + n) <==> n % TWO_TO_THE_32 == 0
  {
    var x, y := a % TWO_TO_THE_32, n % TWO_TO_THE_32;
    var p, q := a / TWO_TO_THE_32, n / TWO_TO_THE_32;
    assert a + n == TWO_TO_THE_32 * (p + q) + (x + y);
    if x + y < TWO_TO_THE_32 {
      Remainder(a + n, p + q, x + y);
    } else {
      Remainder(a + n, p + q + 1, x + y - TWO_TO_THE_32);
    }
  }

  /** Two reads get the same number exactly when the increments between them are a multiple
      of 2^32, none at all included. */
  lemma SameNumberIff(es: seq<Event>, i: nat, j: nat)
    requires i <= j <= |es|
    ensures Counter(es[..i]) == Counter(es[..j]) <==> Increments(es[i..j]) % TWO_TO_THE_32 == 0
  {
    CounterIsIncrements(es[..i]);
    CounterIsIncrements(es[..j]);
    IncrementsSplit(es[..j], i);
    assert es[..j][..i] == es[..i] && es[..j][i..] == es[i..j];
    SameWrapIff(Increments(es[..i]), Increments(es[i..j]));
  }

  /** A number is zero, and refused by fo_send, exactly when the increments before it are
      a multiple of 2^32. */
  lemma ZeroIff(es: seq<Event>)
    ensures Counter(es) == 0 <==> Increments(es) % TWO_TO_THE_32 == 0
  {
    CounterIsIncrements(es);
  }

  predicate Distinct(es: seq<Event>) {
    forall i, j :: 0 <= i < j < |es| && es[i] == es[j] == Read ==> Counter(es[..i]) != Counter(es[..j])
  }

  /** Every thread after the first that reads finds an increment since the last read. */
  predicate Separated(es: seq<Event>) {
    forall i, j :: 0 <= i < j < |es| && es[i] == es[j] == Read ==> Increment in es[i..j]
  }

  lemma {:induction false} SomeIncrement(es: seq<Event>)
    ensures Increments(es) <= |es|
    ensures Increments(es) > 0 <==> Increment in es
  {
    if es != [] {
      SomeIncrement(es[..|es| - 1]);
      assert es == es[..|es| - 1] + [es[|es| - 1]];
    }
  }

  lemma ReadsDifferIff(es: seq<Event>, i: nat, j: nat)
    requires i <= j <= |es| && Increments(es) < TWO_TO_THE_32
    ensures Counter(es[..i]) != Counter(es[..j]) <==> Increment in es[i..j]
  {
    SameNumberIff(es, i, j);
    SomeIncrement(es[i..j]);
    IncrementsSplit(es, j);
    IncrementsSplit(es[..j], i);
    assert es[..j][i..] == es[i..j];
  }

  /** While the counter is incremented fewer than 2^32 times, all the numbers read are
      different exactly when there is an increment between any read and the next. */
  lemma DistinctIff(es: seq<Event>)
    requires Increments(es) < TWO_TO_THE_32
    ensures Distinct(es) <==> Separated(es)
  {
    forall i, j | 0 <= i < j < |es| && es[i] == es[j] == Read
      ensures Counter(es[..i]) != Counter(es[..j]) <==> Increment in es[i..j]
    {
      ReadsDifferIff(es, i, j);
    }
  }

  /** Calls that increment and read in one step. */
  function Calls(n: nat): (es: seq<Event>)
    ensures |es| == 2 * n
  {
    if n == 0 then [] else Calls(n - 1) + [Increment, Read]
  }

  lemma {:induction false} CallsAt(n: nat)
    ensures Increments(Calls(n)) == n
    ensures forall i :: 0 <= i < 2 * n ==> Calls(n)[i] == if i % 2 == 0 then Increment else Read
  {
    if n > 0 {
      CallsAt(n - 1);
      var es := Calls(n);
      assert es[..2 * n - 1] == Calls(n - 1) + [Increment];
      assert es[..2 * n - 1][..2 * n - 2] == Calls(n - 1);
    }
  }

  /** With increment and read as one step the numbers of n calls are all
      different as long as the counter has not come round. */
  lemma AtomicCallsAreDistinct(n: nat)
    requires n < TWO_TO_THE_32
    ensures Distinct(Calls(n))
  {
    var es := Calls(n);
    CallsAt(n);
    forall i, j | 0 <= i < j < |es| && es[i] == es[j] == Read
      ensures Increment in es[i..j]
    {
      assert es[i..j][1] == es[i + 1];
    }
    DistinctIff(es);
  }

  /** As it is written: two threads that both increment before either reads get the same
      number. */
  lemma TwoCallersMeet()
    ensures !Distinct([Increment, Increment, Read, Read])
  {
    var es := [Increment, Increment, Read, Read];
    assert es[2] == es[3] == Read;
    assert es[..3] == es[..2] + [Read] && es[..3][..2] == es[..2];
  }
}
