/** The queue of pending requests of one open file (kernel/fo_access.c:68-137): a kfifo
    of pointers, searched by taking elements from the front and putting them back at
    the end. */
module PendingQueue {
  import opened Bytes
  import opened Codec
  import opened Protocol

  /** NETDEV_FO_QUEUE_SIZE bytes hold this many 8-byte pointers. */
  const SLOTS: nat := 64 / 8

  /** A queued request with the sequence number it carries. */
  datatype Entry<+T> = Entry(item: T, key: int)

  datatype Search<+T> = Search(hit: Option<Entry<T>>, rest: seq<Entry<T>>)

  predicate UniqueKeys<T>(q: seq<Entry<T>>) {
    forall i, j :: 0 <= i < j < |q| ==> q[i].key != q[j].key
  }

  ghost predicate HasKey<T>(q: seq<Entry<T>>, k: int) {
    exists i :: 0 <= i < |q| && q[i].key == k
  }

  /** The first position with the key, or the length. */
  function Position<T>(q: seq<Entry<T>>, k: int): (i: nat)
    ensures i <= |q|
    ensures forall j :: 0 <= j < i ==> q[j].key != k
    ensures i < |q| ==> q[i].key == k
  {
    if q == [] || q[0].key == k then 0 else 1 + Position(q[1..], k)
  }

  /** What the search does as it is written: the stopper is the element just taken, so
      it ends after the first element whatever that is. */
  function LiteralFind<T>(q: seq<Entry<T>>, k: int): Search<T> {
    if q == [] then Search(None, [])
    else if q[0].key == k then Search(Some(q[0]), q[1..])
    else Search(None, q[1..] + q[..1])
  }

  /** What the search does when the stopper is the first element of an earlier round. */
  function RotatingFind<T>(q: seq<Entry<T>>, k: int): Search<T> {
    var i := Position(q, k);
    if i < |q| then Search(Some(q[i]), q[i + 1..] + q[..i])
    else if q == [] then Search(None, [])
    else Search(None, q[1..] + q[..1])
  }

  /** The two searches agree, in result and in queue, exactly when the wanted request is
      at the head or not there at all. */
  lemma LiteralIsRotatingIff<T>(q: seq<Entry<T>>, k: int)
    ensures LiteralFind(q, k) == RotatingFind(q, k) <==> q == [] || q[0].key == k || !HasKey(q, k)
  {
    var i := Position(q, k);
    if q != [] && q[0].key == k {
      assert i == 0;
      assert q[1..] + q[..0] == q[1..];
    }
  }

  /** What stays in the queue when the entry with the key is taken out. */
  function Others<T>(q: seq<Entry<T>>, k: int): seq<Entry<T>> {
    var i := Position(q, k);
    if i < |q| then q[..i] + q[i + 1..] else q
  }

  ghost predicate IsRotation<T>(a: seq<T>, b: seq<T>) {
    exists i: nat :: i <= |b| && a == b[i..] + b[..i]
  }

  lemma RotationOf<T>(b: seq<T>, i: nat)
    requires i <= |b|
    ensures IsRotation(b[i..] + b[..i], b)
  {
  }

  lemma RestIsRotation<T>(q: seq<Entry<T>>, k: int)
    ensures IsRotation(RotatingFind(q, k).rest, Others(q, k))
  {
    var i := Position(q, k);
    var others := Others(q, k);
    if i < |q| {
      assert others[i..] == q[i + 1..] && others[..i] == q[..i];
      RotationOf(others, i);
    } else if q == [] {
      assert others[0..] + others[..0] == [];
    } else {
      RotationOf(others, 1);
    }
  }

  lemma SplitAt<T>(q: seq<T>, i: nat)
    requires i < |q|
    ensures q == q[..i] + [q[i]] + q[i + 1..]
    ensures forall e :: e in q <==> e in q[..i] || e == q[i] || e in q[i + 1..]
  {
    var s := q[..i] + [q[i]] + q[i + 1..];
    assert q == s;
    assert forall e :: e in s <==> e in q[..i] || e == q[i] || e in q[i + 1..];
  }

  /** With unique keys, what stays in the queue has other keys. */
  lemma RestIsOthers<T>(q: seq<Entry<T>>, k: int, e: Entry<T>)
    requires UniqueKeys(q)
    ensures e in RotatingFind(q, k).rest <==> e in q && e.key != k
  {
    var i := Position(q, k);
    if i < |q| {
      SplitAt(q, i);
      assert e in q[..i] || e in q[i + 1..] ==> e.key != k;
      assert e in q[i + 1..] + q[..i] <==> e in q[i + 1..] || e in q[..i];
    } else if q != [] {
      SplitAt(q, 0);
      assert e in q[1..] + q[..1] <==> e in q[1..] || e == q[0];
      assert e in q ==> e.key != k;
    }
  }

  /** The rotating search is removal by key: with unique keys it returns the entry with
      the key, takes out that entry and no other, and only rotates what stays. */
  lemma RotatingFindRemovesByKey<T(!new)>(q: seq<Entry<T>>, k: int)
    requires UniqueKeys(q)
    ensures var r := RotatingFind(q, k);
            && (r.hit.Some? <==> HasKey(q, k))
            && (r.hit.Some? ==> r.hit.value in q && r.hit.value.key == k)
            && (forall e :: e in r.rest <==> e in q && e.key != k)
            && |r.rest| == |q| - (if r.hit.Some? then 1 else 0)
            && IsRotation(r.rest, Others(q, k))
  {
    RestIsRotation(q, k);
    forall e
      ensures e in RotatingFind(q, k).rest <==> e in q && e.key != k
    {
      RestIsOthers(q, k, e);
    }
  }

  /** Moving the head to the end turns one rotation into the next. */
  lemma NextRotation<T>(q: seq<T>, n: nat)
    requires n <= |q| && q != []
    ensures var r := q[n..] + q[..n];
            if n < |q| then r[0] == q[n] && r[1..] == q[n + 1..] + q[..n]
            else r[0] == q[0] && r[1..] == q[1..]
    ensures n < |q| ==> q[n + 1..] + q[..n] + [q[n]] == q[n + 1..] + q[..n + 1]
    ensures q[1..] + [q[0]] == q[1..] + q[..1]
  {
  }

  /** One open file as the pending-request code sees it. */
  class FoAccess {
    const accessId: int32
    var queue: seq<FoReq>

    constructor (accessId: int32)
      ensures this.accessId == accessId && queue == [] && Valid()
    {
      this.accessId := accessId;
      queue := [];
    }

    ghost predicate Valid()
      reads this
    {
      && |queue| <= SLOTS
      && Distinct(queue)
    }

    static ghost predicate Distinct(q: seq<FoReq>) {
      forall i, j :: 0 <= i < j < |q| ==> q[i] != q[j]
    }

    ghost function Entries(): (es: seq<Entry<FoReq>>)
      reads this, queue
      ensures |es| == |queue|
    {
      EntriesOf(queue)
    }

    static ghost function EntriesOf(q: seq<FoReq>): (es: seq<Entry<FoReq>>)
      reads q
      ensures |es| == |q|
      ensures forall i :: 0 <= i < |q| ==> es[i] == Entry(q[i], q[i].seqNo)
    {
      seq(|q|, i requires 0 <= i < |q| reads q => Entry(q[i], q[i].seqNo))
    }

    /** kfifo_in copies a pointer only if there is room for it. */
    method KfifoIn(req: FoReq)
      modifies this`queue
      ensures queue == if |old(queue)| < SLOTS then old(queue) + [req] else old(queue)
    {
      if |queue| < SLOTS {
        queue := queue + [req];
      }
    }

    method KfifoOut() returns (req: FoReq)
      requires queue != []
      modifies this`queue
      ensures req == old(queue)[0] && queue == old(queue)[1..]
    {
      req := queue[0];
      queue := queue[1..];
    }

    /** fo_acc_foreq_add. `available` is what down_write_trylock returns. A full queue
        drops the request and still reports success. */
    method ForeqAdd(available: bool, req: FoReq) returns (r: int)
      requires Valid() && req !in queue
      modifies this`queue
      ensures Valid()
      ensures r == if available then 0 else 1
      ensures req in queue <==> available && |old(queue)| < SLOTS
      ensures queue == if req in queue then old(queue) + [req] else old(queue)
    {
      if available {
        KfifoIn(req);
        return 0;
      }
      return 1;
    }

    /** fo_acc_foreq_find as it is written. */
    method ForeqFind(available: bool, k: int) returns (tmp: FoReq?)
      requires Valid()
      modifies this`queue
      ensures Valid()
      ensures !available ==> tmp == null && queue == old(queue)
      ensures available ==> Outcome(tmp, queue) == LiteralFind(old(Entries()), k)
    {
      var req: FoReq? := null;
      tmp := null;
      if available {
        var searching := true;
        while searching && queue != []
          invariant searching ==> req == null && tmp == null && queue == old(queue)
          invariant !searching ==> Outcome(tmp, queue) == LiteralFind(old(Entries()), k) && Valid()
          decreases searching
        {
          tmp := KfifoOut();
          if req == null {
            req := tmp;
          }
          if tmp.seqNo == k {
            searching := false;
          } else {
            KfifoIn(tmp);
            if req == tmp {
              tmp := null;
              searching := false;
            }
          }
        }
      }
    }

    /** The outcome of a search, in the terms of its specification. */
    static ghost function Outcome(tmp: FoReq?, q: seq<FoReq>): Search<FoReq>
      reads tmp, q
    {
      Search(if tmp == null then None else Some(Entry(tmp as FoReq, tmp.seqNo)), EntriesOf(q))
    }

    static lemma EntriesAfter(q: seq<FoReq>, i: nat, j: nat)
      requires i <= j <= |q| && Distinct(q)
      ensures EntriesOf(q[j..] + q[..i]) == EntriesOf(q)[j..] + EntriesOf(q)[..i]
      ensures Distinct(q[j..] + q[..i])
    {
    }

    /** Where the rotating loop stands when it ends is what the search specifies. */
    lemma SearchHit(q: seq<FoReq>, k: int, i: nat)
      requires Distinct(q) && |q| <= SLOTS && i < |q| && q[i].seqNo == k
      requires forall j :: 0 <= j < i ==> q[j].seqNo != k
      requires queue == q[i + 1..] + q[..i]
      ensures Valid() && Outcome(q[i], queue) == RotatingFind(EntriesOf(q), k)
    {
      EntriesAfter(q, i, i + 1);
      assert Position(EntriesOf(q), k) == i;
    }

    lemma SearchMiss(q: seq<FoReq>, k: int)
      requires Distinct(q) && |q| <= SLOTS
      requires forall j :: 0 <= j < |q| ==> q[j].seqNo != k
      requires queue == if q == [] then [] else q[1..] + q[..1]
      ensures Valid() && Outcome(null, queue) == RotatingFind(EntriesOf(q), k)
    {
      if q != [] {
        EntriesAfter(q, 1, 1);
      }
      assert Position(EntriesOf(q), k) == |q|;
    }

    /** The loop of the search with a stopper from an earlier round: it turns the queue
        until the wanted request or the stopper comes out. */
    method Turn(k: int) returns (tmp: FoReq?, ghost pops: nat)
      requires Valid()
      modifies this`queue
      ensures pops <= |old(queue)| + 1
      ensures forall i :: 0 <= i < |old(queue)| && (tmp == null || i < pops - 1) ==> old(queue)[i].seqNo != k
      ensures tmp == null ==>
                queue == if old(queue) == [] then [] else old(queue)[1..] + old(queue)[..1]
      ensures tmp != null ==>
                && 0 < pops <= |old(queue)| && tmp == old(queue)[pops - 1] && tmp.seqNo == k
                && queue == old(queue)[pops..] + old(queue)[..pops - 1]
    {
      var first: FoReq? := null;
      tmp := null;
      pops := 0;
      ghost var q := queue;
      while queue != []
        invariant pops <= |q|
        invariant queue == q[pops..] + q[..pops]
        invariant forall i :: 0 <= i < pops ==> q[i].seqNo != k
        invariant if pops == 0 then first == null && tmp == null else first == q[0]
        decreases |q| - pops
      {
        tmp := KfifoOut();
        NextRotation(q, pops);
        assert first == tmp <==> pops == |q|;
        pops := pops + 1;
        if first == tmp {
          KfifoIn(tmp);
          tmp := null;
          break;
        }
        if first == null {
          first := tmp;
        }
        if tmp.seqNo == k {
          break;
        }
        KfifoIn(tmp);
      }
    }

    /** The search with a stopper from an earlier round. Putting an element back never
        overflows, and the loop takes at most one element more than there are. */
    method ForeqFindRotating(available: bool, k: int) returns (tmp: FoReq?, ghost pops: nat)
      requires Valid()
      modifies this`queue
      ensures Valid()
      ensures !available ==> tmp == null && queue == old(queue)
      ensures available ==> Outcome(tmp, queue) == RotatingFind(old(Entries()), k)
      ensures pops <= |old(queue)| + 1
    {
      tmp := null;
      pops := 0;
      if available {
        ghost var q := queue;
        tmp, pops := Turn(k);
        if tmp == null {
          SearchMiss(q, k);
        } else {
          SearchHit(q, k, pops - 1);
        }
      }
    }

    /** fo_acc_free_queue: every pending request is completed once with -ENODATA. */
    method FreeQueue()
      requires Valid()
      modifies this`queue, queue
      ensures queue == [] && Valid()
      ensures forall r :: r in old(queue) ==>
                r.rvalue == -ENODATA && r.done == old(r.done) + 1 && SameRequest(r)
    {
      ghost var q := queue;
      ghost var n := 0;
      while queue != []
        invariant n <= |q| && queue == q[n..]
        invariant forall i :: 0 <= i < n ==>
                    q[i].rvalue == -ENODATA && q[i].done == old(q[i].done) + 1 && SameRequest(q[i])
        invariant forall i :: n <= i < |q| ==> unchanged(q[i])
        decreases |queue|
      {
        var req := KfifoOut();
        n := n + 1;
        req.rvalue := -ENODATA;
        req.done := req.done + 1;
      }
    }

    /** Completing a request leaves its identity and its buffers alone. */
    twostate predicate SameRequest(r: FoReq)
      reads r
    {
      && r.seqNo == old(r.seqNo) && r.msgtype == old(r.msgtype) && r.accessId == old(r.accessId)
      && r.args == old(r.args) && r.data == old(r.data)
      && r.size == old(r.size) && r.dataSize == old(r.dataSize)
    }
  }
}
