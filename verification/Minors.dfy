/** The minor numbers of the dummy devices (kernel/netdevmgm.c:237-279, 453-464): an array
    with the pid of each holder, and a mark for the highest one. */
module Minors {
  import opened Bytes
  import opened Protocol

  const FREE: int := -1

  /** `used` has NETDEV_MAX_DEVICES cells and then the word of memory after the array,
      which the allocator can reach. */
  datatype Table = Table(used: seq<int>, mark: int)

  predicate Wellformed(t: Table) {
    |t.used| == NETDEV_MAX_DEVICES + 1 && 0 <= t.mark <= NETDEV_MAX_DEVICES
  }

  /** The first free cell from `i` up to `limit`; one beyond if there is none. */
  function FirstFree(used: seq<int>, i: nat, limit: nat): (r: nat)
    requires i <= limit + 1 && limit < |used|
    ensures i <= r <= limit + 1
    ensures forall j :: i <= j < r ==> used[j] != FREE
    ensures r <= limit ==> used[r] == FREE
    decreases limit + 1 - i
  {
    if i > limit || used[i] == FREE then i else FirstFree(used, i + 1, limit)
  }

  /** ndmgm_get_minor. As it is written (`clipped` false) the scan goes to one above the
      mark, wherever that is; meant is not beyond the array. */
  function Get(clipped: bool, t: Table, pid: int): (r: (Table, int))
    requires Wellformed(t)
    ensures Wellformed(r.0)
  {
    var limit := if clipped then Min(t.mark + 1, NETDEV_MAX_DEVICES - 1) else t.mark + 1;
    if t.mark == NETDEV_MAX_DEVICES then (t, -1)
    else
      var m: int := FirstFree(t.used, 0, limit);
      if m <= limit then (Table(t.used[m := pid], Max(t.mark, m)), m) else (t, -1)
  }

  /** The lowest used cell from 1 up to `i`, or `mark`: where a loop down to 1 leaves the
      mark that does not stop at the first used cell. */
  function Lowest(used: seq<int>, i: nat, mark: int): int
    requires i < |used|
  {
    if i == 0 then mark else Lowest(used, i - 1, if used[i] != FREE then i else mark)
  }

  /** The highest used cell from `i` down to 1, or `mark`. */
  function Highest(used: seq<int>, i: nat, mark: int): int
    requires i < |used|
  {
    if i == 0 then mark else if used[i] != FREE then i else Highest(used, i - 1, mark)
  }

  lemma {:induction false} LowestIs(used: seq<int>, i: nat, mark: int)
    requires i < |used|
    ensures var r := Lowest(used, i, mark);
            if forall j :: 1 <= j <= i ==> used[j] == FREE then r == mark
            else 1 <= r <= i && used[r] != FREE && forall j :: 1 <= j < r ==> used[j] == FREE
  {
    if i > 0 {
      LowestIs(used, i - 1, if used[i] != FREE then i else mark);
    }
  }

  lemma {:induction false} HighestIs(used: seq<int>, i: nat, mark: int)
    requires i < |used|
    ensures var r := Highest(used, i, mark);
            if forall j :: 1 <= j <= i ==> used[j] == FREE then r == mark
            else 1 <= r <= i && used[r] != FREE && forall j :: r < j <= i ==> used[j] == FREE
  {
    if i > 0 && used[i] == FREE {
      HighestIs(used, i - 1, mark);
    }
  }

  /** ndmgm_put_minor. As it is written (`stops` false) the loop that lowers the mark goes
      on after it has found the highest minor in use. */
  function Put(stops: bool, t: Table, minor: nat): (r: Table)
    requires Wellformed(t) && minor <= NETDEV_MAX_DEVICES
    ensures Wellformed(r)
  {
    var used := t.used[minor := FREE];
    LowestIs(used, minor, t.mark);
    HighestIs(used, minor, t.mark);
    Table(used, if minor != t.mark then t.mark
                else if stops then Highest(used, minor, t.mark) else Lowest(used, minor, t.mark))
  }

  /** Everything above the mark is free, and the mark is a minor. */
  ghost predicate MarkHolds(t: Table) {
    && Wellformed(t) && t.mark < NETDEV_MAX_DEVICES
    && forall i :: t.mark < i < NETDEV_MAX_DEVICES ==> t.used[i] == FREE
  }

  ghost predicate AllHeld(t: Table)
    requires Wellformed(t)
  {
    forall i :: 0 <= i < NETDEV_MAX_DEVICES ==> t.used[i] != FREE
  }

  // ----- One call

  /** A minor that is given was free, and nothing else changes; in particular no minor is
      given while somebody holds it. */
  lemma GetGivesFree(clipped: bool, t: Table, pid: int)
    requires Wellformed(t)
    ensures var (t', m) := Get(clipped, t, pid);
            if m == -1 then t' == t
            else 0 <= m <= NETDEV_MAX_DEVICES && t.used[m] == FREE && t'.used == t.used[m := pid]
  {
  }

  /** With the mark in order, the allocator as written gives a minor of the array exactly
      when one is free, and looks beyond the array exactly when none is. */
  lemma LiteralGetIff(t: Table, pid: int)
    requires MarkHolds(t)
    ensures 0 <= Get(false, t, pid).1 < NETDEV_MAX_DEVICES <==> !AllHeld(t)
    ensures Get(false, t, pid) == Get(true, t, pid) <==> !AllHeld(t) || t.used[NETDEV_MAX_DEVICES] != FREE
    ensures AllHeld(t) && t.used[NETDEV_MAX_DEVICES] == FREE ==> Get(false, t, pid).1 == NETDEV_MAX_DEVICES
  {
    if !AllHeld(t) {
      var i :| 0 <= i < NETDEV_MAX_DEVICES && t.used[i] == FREE;
      if t.mark + 1 < NETDEV_MAX_DEVICES {
        assert t.used[t.mark + 1] == FREE;
      }
      var a, b := FirstFree(t.used, 0, t.mark + 1), FirstFree(t.used, 0, Min(t.mark + 1, NETDEV_MAX_DEVICES - 1));
      assert a == b;
    } else {
      assert t.mark == NETDEV_MAX_DEVICES - 1 by {
        assert t.used[NETDEV_MAX_DEVICES - 1] != FREE;
      }
      var a := FirstFree(t.used, 0, NETDEV_MAX_DEVICES);
      assert a >= NETDEV_MAX_DEVICES;
      assert Get(true, t, pid) == (t, -1);
    }
  }

  /** Giving back the highest minor keeps the mark in order, as written, exactly when at
      most one minor other than 0 stays in use below it. */
  lemma LiteralPutKeepsMarkIff(t: Table, minor: nat)
    requires MarkHolds(t) && minor < NETDEV_MAX_DEVICES
    ensures MarkHolds(Put(false, t, minor)) <==>
              minor != t.mark ||
              forall i, j | 1 <= i < minor && 1 <= j < minor :: t.used[i] != FREE && t.used[j] != FREE ==> i == j
  {
    var used := t.used[minor := FREE];
    var r := Lowest(used, minor, t.mark);
    LowestIs(used, minor, t.mark);
    if minor == t.mark {
      assert forall i :: 0 <= i < minor ==> used[i] == t.used[i];
      if MarkHolds(Put(false, t, minor)) {
        assert forall i :: r < i < NETDEV_MAX_DEVICES ==> used[i] == FREE;
      } else {
        var k :| r < k < NETDEV_MAX_DEVICES && used[k] != FREE;
        assert k < minor && r != t.mark;
      }
    }
  }

  lemma StoppingPutKeepsMark(t: Table, minor: nat)
    requires MarkHolds(t) && minor < NETDEV_MAX_DEVICES
    ensures MarkHolds(Put(true, t, minor))
  {
    HighestIs(t.used[minor := FREE], minor, t.mark);
  }

  lemma ClippedGet(t: Table, pid: int)
    requires MarkHolds(t)
    ensures MarkHolds(Get(true, t, pid).0)
    ensures Get(true, t, pid).1 == -1 <==> AllHeld(t)
    ensures Get(true, t, pid).1 < NETDEV_MAX_DEVICES
  {
    if !AllHeld(t) {
      var i :| 0 <= i < NETDEV_MAX_DEVICES && t.used[i] == FREE;
      if t.mark + 1 < NETDEV_MAX_DEVICES {
        assert t.used[t.mark + 1] == FREE;
      }
    }
  }

  // ----- Any sequence of calls

  datatype Op = GetOp(pid: int) | PutOp(minor: nat)

  /** Pids are not -1, and only a minor that is held is given back. */
  ghost predicate Proper(t: Table, op: Op)
    requires Wellformed(t)
  {
    match op
    case GetOp(pid) => pid != FREE
    case PutOp(minor) => minor < NETDEV_MAX_DEVICES && t.used[minor] != FREE
  }

  function Step(repaired: bool, t: Table, op: Op): (r: Table)
    requires Wellformed(t) && (op.PutOp? ==> op.minor <= NETDEV_MAX_DEVICES)
    ensures Wellformed(r)
  {
    match op
    case GetOp(pid) => Get(repaired, t, pid).0
    case PutOp(minor) => Put(repaired, t, minor)
  }

  ghost predicate ProperRun(repaired: bool, t: Table, ops: seq<Op>)
    requires Wellformed(t)
    decreases |ops|
  {
    ops == [] || (Proper(t, ops[0]) && ProperRun(repaired, Step(repaired, t, ops[0]), ops[1..]))
  }

  function Run(repaired: bool, t: Table, ops: seq<Op>): (r: Table)
    requires Wellformed(t) && ProperRun(repaired, t, ops)
    ensures Wellformed(r)
    decreases |ops|
  {
    if ops == [] then t else Run(repaired, Step(repaired, t, ops[0]), ops[1..])
  }

  /** ndmgm_prepare. */
  function Prepared(beyond: int): Table {
    Table(seq(NETDEV_MAX_DEVICES, _ => FREE) + [beyond], 0)
  }

  lemma {:induction false} RunKeepsMark(t: Table, ops: seq<Op>)
    requires MarkHolds(t) && ProperRun(true, t, ops)
    ensures MarkHolds(Run(true, t, ops))
    decreases |ops|
  {
    if ops == [] {
    } else {
      match ops[0] {
        case GetOp(pid) => ClippedGet(t, pid);
        case PutOp(minor) => StoppingPutKeepsMark(t, minor);
      }
      RunKeepsMark(Step(true, t, ops[0]), ops[1..]);
    }
  }

  /** With both repairs, after any sequence of calls: everything above the mark is free,
      and the next call is refused only when all 32 minors are held. */
  lemma RefusedOnlyWhenFull(beyond: int, ops: seq<Op>, pid: int)
    requires ProperRun(true, Prepared(beyond), ops)
    ensures var t := Run(true, Prepared(beyond), ops);
            && MarkHolds(t)
            && (Get(true, t, pid).1 == -1 <==> AllHeld(t))
  {
    RunKeepsMark(Prepared(beyond), ops);
    ClippedGet(Run(true, Prepared(beyond), ops), pid);
  }

  /** The minors that were given and not given back, going by what the calls returned. */
  function Held(repaired: bool, t: Table, held: set<int>, ops: seq<Op>): set<int>
    requires Wellformed(t) && ProperRun(repaired, t, ops)
    decreases |ops|
  {
    if ops == [] then held
    else
      var now := match ops[0]
                 case GetOp(pid) => held + {Get(repaired, t, pid).1}
                 case PutOp(minor) => held - {minor};
      Held(repaired, Step(repaired, t, ops[0]), now, ops[1..])
  }

  ghost predicate UsedIs(t: Table, held: set<int>) {
    Wellformed(t) && forall j :: 0 <= j < NETDEV_MAX_DEVICES ==> (t.used[j] != FREE <==> j in held)
  }

  lemma {:induction false} RunKeepsUsed(repaired: bool, t: Table, held: set<int>, ops: seq<Op>)
    requires UsedIs(t, held) && ProperRun(repaired, t, ops)
    ensures UsedIs(Run(repaired, t, ops), Held(repaired, t, held, ops))
    decreases |ops|
  {
    if ops != [] {
      var now := match ops[0]
                 case GetOp(pid) => held + {Get(repaired, t, pid).1}
                 case PutOp(minor) => held - {minor};
      if ops[0].GetOp? {
        GetGivesFree(repaired, t, ops[0].pid);
      }
      RunKeepsUsed(repaired, Step(repaired, t, ops[0]), now, ops[1..]);
    }
  }

  /** Over any sequence of calls, with the repairs or without: the minors in use are those
      that somebody holds, and the next one given has no holder. */
  lemma NoMinorTwice(repaired: bool, beyond: int, ops: seq<Op>, pid: int)
    requires ProperRun(repaired, Prepared(beyond), ops)
    ensures var t := Run(repaired, Prepared(beyond), ops);
            var held := Held(repaired, Prepared(beyond), {}, ops);
            var minor := Get(repaired, t, pid).1;
            && UsedIs(t, held)
            && (0 <= minor < NETDEV_MAX_DEVICES ==> minor !in held)
  {
    RunKeepsUsed(repaired, Prepared(beyond), {}, ops);
    GetGivesFree(repaired, Run(repaired, Prepared(beyond), ops), pid);
  }

  /** As written, four devices and the removal of the last one are enough: the next call
      is refused with 29 minors free. */
  lemma LiteralRefusesEarly(beyond: int, pid: int)
    requires pid != FREE
    ensures var ops := [GetOp(pid), GetOp(pid), GetOp(pid), GetOp(pid), PutOp(3)];
            && ProperRun(false, Prepared(beyond), ops)
            && var t := Run(false, Prepared(beyond), ops);
            Get(false, t, pid).1 == -1 && forall i :: 3 <= i < NETDEV_MAX_DEVICES ==> t.used[i] == FREE
  {
    var t0 := Prepared(beyond);
    var t1 := Table(t0.used[0 := pid], 0);
    var t2 := Table(t1.used[1 := pid], 1);
    var t3 := Table(t2.used[2 := pid], 2);
    var t4 := Table(t3.used[3 := pid], 3);
    assert Get(false, t0, pid) == (t1, 0);
    assert Get(false, t1, pid) == (t2, 1);
    assert Get(false, t2, pid) == (t3, 2);
    assert Get(false, t3, pid) == (t4, 3);
    var t5 := Put(false, t4, 3);
    assert t5 == Table(t3.used, 1) by {
      assert t4.used[3 := FREE] == t3.used;
      LowestIs(t3.used, 3, 3);
    }
    assert Get(false, t5, pid).1 == -1;
    var p := PutOp(3);
    assert [p][1..] == [];
    assert Step(false, t4, p) == t5;
    assert ProperRun(false, t5, [p][1..]) && Run(false, t5, [p][1..]) == t5;
    assert ProperRun(false, t4, [p]) && Run(false, t4, [p]) == t5;
    var g := GetOp(pid);
    assert [g, p][1..] == [p] && [g, g, p][1..] == [g, p] && [g, g, g, p][1..] == [g, g, p]
        && [g, g, g, g, p][1..] == [g, g, g, p];
    assert ProperRun(false, t3, [g, p]) && Run(false, t3, [g, p]) == t5;
    assert ProperRun(false, t2, [g, g, p]) && Run(false, t2, [g, g, p]) == t5;
    assert ProperRun(false, t1, [g, g, g, p]) && Run(false, t1, [g, g, g, p]) == t5;
    assert ProperRun(false, t0, [g, g, g, g, p]) && Run(false, t0, [g, g, g, g, p]) == t5;
  }

  // ----- The functions on the array

  class MinorTable {
    var minorsUsed: array<int>
    var maxMinor: int

    /** ndmgm_prepare; `beyond` is what lies after the array. */
    constructor (beyond: int)
      ensures Valid() && View() == Prepared(beyond) && fresh(minorsUsed)
    {
      minorsUsed := new int[NETDEV_MAX_DEVICES + 1](i => if i < NETDEV_MAX_DEVICES then FREE else beyond);
      maxMinor := 0;
    }

    ghost predicate Valid()
      reads this, minorsUsed
    {
      Wellformed(View())
    }

    ghost function View(): Table
      reads this, minorsUsed
    {
      Table(minorsUsed[..], maxMinor)
    }

    /** ndmgm_get_minor; `available` is what down_write_trylock returns. */
    method GetMinor(available: bool, clipped: bool, pid: int) returns (minor: int)
      requires Valid()
      modifies this`maxMinor, minorsUsed
      ensures Valid()
      ensures (View(), minor) == if available then Get(clipped, old(View()), pid) else (old(View()), -1)
    {
      minor := -1;
      if available {
        if maxMinor == NETDEV_MAX_DEVICES {
          return -1;
        }
        var limit := if clipped then Min(maxMinor + 1, NETDEV_MAX_DEVICES - 1) else maxMinor + 1;
        var i := 0;
        while i <= limit
          invariant 0 <= i <= limit + 1 && minor == -1
          invariant forall j :: 0 <= j < i ==> minorsUsed[j] != FREE
          invariant View() == old(View())
        {
          if minorsUsed[i] == FREE {
            minorsUsed[i] := pid;
            minor := i;
            break;
          }
          i := i + 1;
        }
        if minor >= 0 {
          maxMinor := Max(maxMinor, minor);
        }
      }
    }

    /** ndmgm_put_minor. */
    method PutMinor(available: bool, stops: bool, minor: nat)
      requires Valid() && minor <= NETDEV_MAX_DEVICES
      modifies this`maxMinor, minorsUsed
      ensures Valid()
      ensures View() == if available then Put(stops, old(View()), minor) else old(View())
    {
      if available {
        minorsUsed[minor] := FREE;
        if minor == maxMinor {
          var i := minor;
          ghost var used := minorsUsed[..];
          while i > 0
            invariant 0 <= i <= minor
            invariant minorsUsed[..] == used
            invariant if stops then Highest(used, i, maxMinor) == Highest(used, minor, minor) && maxMinor == minor
                      else Lowest(used, i, maxMinor) == Lowest(used, minor, minor)
          {
            if minorsUsed[i] != FREE {
              maxMinor := i;
              if stops {
                break;
              }
            }
            i := i - 1;
          }
        }
        LowestIs(minorsUsed[..], minor, old(maxMinor));
        HighestIs(minorsUsed[..], minor, old(maxMinor));
        assert minorsUsed[..] == old(minorsUsed[..])[minor := FREE];
      }
    }

    /** ndmgm_find_pid. */
    method FindPid(available: bool, minor: nat) returns (pid: int)
      requires Valid() && minor <= NETDEV_MAX_DEVICES
      ensures pid == if available then View().used[minor] else FREE
    {
      pid := FREE;
      if available {
        pid := minorsUsed[minor];
      }
    }
  }
}
