/** Destroying a dummy device with files open on it (kernel/netdevmgm.c:342-400,
    kernel/fo_access.c:54-88, kernel/fo_comm.c:33-38). */
module Teardown {
  import opened Codec
  import opened Protocol
  import opened PendingQueue

  /** How a teardown ends: with an error code, or not at all because the thread waits for
      a lock that it holds itself. */
  datatype Outcome = Ended(err: int) | Blocked

  /** The requests in one queue, and in several. */
  ghost function Members(q: seq<FoReq>): set<FoReq> {
    set r | r in q
  }

  ghost function Waiting(qs: seq<seq<FoReq>>): set<FoReq> {
    set i, r | 0 <= i < |qs| && r in qs[i] :: r
  }

  ghost predicate Disjoint(qs: seq<seq<FoReq>>) {
    forall i, j, r :: 0 <= i < j < |qs| && r in qs[i] ==> r !in qs[j]
  }

  lemma OneMore(qs: seq<seq<FoReq>>, k: nat, req: FoReq)
    requires k < |qs| && Disjoint(qs) && req !in Waiting(qs)
    ensures Disjoint(qs[k := qs[k] + [req]])
    ensures Waiting(qs[k := qs[k] + [req]]) == Waiting(qs) + {req}
  {
    var more := qs[k := qs[k] + [req]];
    assert forall i, r: FoReq :: 0 <= i < |qs| ==> (r in more[i] <==> r in qs[i] || (i == k && r == req));
    assert req in more[k] && req in Waiting(more);
    assert forall r :: r in Waiting(qs) ==> r in Waiting(more);
  }

  lemma InWaiting(qs: seq<seq<FoReq>>, k: nat, req: FoReq)
    requires k < |qs| && req !in Waiting(qs)
    ensures req !in qs[k]
  {
  }

  lemma FirstAndRest(qs: seq<seq<FoReq>>, n: nat)
    requires n < |qs| && Disjoint(qs)
    ensures Waiting(qs[n..]) == Members(qs[n]) + Waiting(qs[n + 1..])
    ensures Members(qs[n]) !! Waiting(qs[n + 1..])
  {
    var these, those := qs[n..], qs[n + 1..];
    assert forall i :: 0 <= i < |those| ==> those[i] == these[i + 1] && those[i] == qs[n + 1 + i];
  }

  class DummyDevice {
    var active: bool
    var users: int
    var accs: seq<FoAccess>

    constructor ()
      ensures Valid() && active && accs == [] && users == 1
    {
      active, users, accs := true, 1, [];
    }

    /** Open files are distinct, each has a proper queue, and no request is in two. */
    ghost predicate Valid()
      reads this, accs
    {
      && (forall i, j :: 0 <= i < j < |accs| ==> accs[i] != accs[j])
      && (forall i :: 0 <= i < |accs| ==> accs[i].Valid())
      && Disjoint(Queues(accs))
    }

    /** Every request that somebody waits for. */
    ghost function Pending(): set<FoReq>
      reads this, accs
    {
      Waiting(Queues(accs))
    }

    /** The part of fo_send before the message: a device that is not active refuses. */
    method Enter(acc: FoAccess, req: FoReq) returns (r: int)
      requires Valid() && acc in accs && req !in Pending()
      modifies this`users, acc`queue
      ensures Valid()
      ensures !active ==> r == -EBUSY && users == old(users) && Pending() == old(Pending())
      ensures active ==> r == 0 && users == old(users) + 1
      ensures active && |old(acc.queue)| < SLOTS ==> Pending() == old(Pending()) + {req}
      ensures active && |old(acc.queue)| >= SLOTS ==> Pending() == old(Pending())
    {
      if !active {
        return -EBUSY;
      }
      users := users + 1;
      Add(acc, req);
      return 0;
    }

    method Add(acc: FoAccess, req: FoReq)
      requires Valid() && acc in accs && req !in Pending()
      modifies acc`queue
      ensures Valid()
      ensures Pending() == if |old(acc.queue)| < SLOTS then old(Pending()) + {req} else old(Pending())
    {
      ghost var qs: seq<seq<FoReq>> := Queues(accs);
      ghost var k :| 0 <= k < |accs| && accs[k] == acc;
      InWaiting(qs, k, req);
      var _ := acc.ForeqAdd(true, req);
      if |qs[k]| < SLOTS {
        OneMore(qs, k, req);
        assert Queues(accs) == qs[k := qs[k] + [req]];
      } else {
        assert Queues(accs) == qs;
      }
    }

    /** ndmgm_destroy_allacc, with the file table locked once: every open file has its
        queue drained and is taken out. */
    method DestroyAllAcc()
      requires Valid()
      modifies this`users, this`accs, accs, Pending()
      ensures Valid() && accs == [] && users == old(users) - |old(accs)|
      ensures forall a :: a in old(accs) ==> a.queue == []
      ensures forall r :: r in old(Pending()) ==> r.rvalue == -ENODATA && r.done == old(r.done) + 1
    {
      ghost var all: seq<FoAccess>, qs: seq<seq<FoReq>> := accs, Queues(accs);
      ghost var pending: set<FoReq>, finished: set<FoReq> := Pending(), {};
      ghost var n := 0;
      assert qs[n..] == qs;
      while accs != []
        invariant n <= |all| && accs == all[n..] && users == old(users) - n
        invariant forall i :: 0 <= i < |all| ==> all[i].queue == if i < n then [] else qs[i]
        invariant finished + Waiting(qs[n..]) == pending && finished !! Waiting(qs[n..])
        invariant forall r :: r in finished ==> r.rvalue == -ENODATA && r.done == old(r.done) + 1
        invariant forall r :: r in Waiting(qs[n..]) ==> r.done == old(r.done)
        decreases |all| - n
      {
        var acc := accs[0];
        FirstAndRest(qs, n);
        finished := finished + Members(qs[n]);
        acc.FreeQueue();
        // fo_acc_destroy
        accs := accs[1..];
        users := users - 1;
        n := n + 1;
      }
    }

    static ghost function Queues(files: seq<FoAccess>): (qs: seq<seq<FoReq>>)
      reads files
      ensures |qs| == |files| && forall i :: 0 <= i < |files| ==> qs[i] == files[i].queue
    {
      seq(|files|, i requires 0 <= i < |files| reads files => files[i].queue)
    }

    /** ndmgm_destroy_dummy, called when the table of devices has dropped its reference.
        `limit` is the number of references that are tolerated: 1 as it is written. */
    method DestroyDummy(limit: int) returns (err: int)
      requires Valid()
      modifies this, accs, Pending()
      ensures Valid() && !active && accs == [] && users == old(users) - |old(accs)|
      ensures forall r :: r in old(Pending()) ==> r.rvalue == -ENODATA && r.done == old(r.done) + 1
      ensures err == if old(users) - |old(accs)| > limit then 1 else 0
    {
      active := false;
      DestroyAllAcc();
      if users > limit {
        return 1;
      }
      return 0;
    }

    /** The same as it is written: the lock of the file table is held when fo_acc_destroy
        takes it again. With a file open, the requests of the first one are completed,
        and then nothing more happens. */
    method DestroyDummyLiteral() returns (o: Outcome)
      requires Valid()
      modifies this`active, accs, Pending()
      ensures !active && accs == old(accs) && users == old(users)
      ensures o.Blocked? <==> accs != []
      ensures accs == [] ==> o == Ended(if users > 1 then 1 else 0)
      ensures accs != [] ==> accs[0].queue == [] && forall r :: r in old(accs[0].queue) ==> r.done == old(r.done) + 1
      ensures forall i, r: FoReq :: 0 < i < |accs| && r in old(accs[i].queue) ==> unchanged(r) && r in accs[i].queue
    {
      ghost var pending := Pending();
      assert accs != [] ==> forall r :: r in accs[0].queue ==> accs[0] in accs && r in pending;
      active := false;
      if accs != [] {
        accs[0].FreeQueue();
        return Blocked;
      }
      return Ended(if users > 1 then 1 else 0);
    }
  }
}
