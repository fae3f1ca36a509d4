/** The table of devices by pid and the minors that lead to it
    (kernel/netdevmgm.c:68-235, 302-321; kernel/fo_send.c:162). */
module Registry {
  import opened Bytes
  import opened Protocol
  import Minors

  /** 2 to the power of NETDEV_HTABLE_DEV_SIZE. */
  const BUCKETS: nat := 32

  /** hash_32 of the kernel on five bits. */
  function Bucket(pid: int): (b: nat)
    ensures b < BUCKETS
  {
    ((ToU32(pid) * 0x9e37_0001) % TWO_TO_THE_32) / 0x800_0000
  }

  /** struct netdev_data, as far as the table is concerned; a server device has no minor. */
  class Device {
    const nlpid: int
    const dummy: bool
    const minor: nat

    constructor (nlpid: int, dummy: bool, minor: nat)
      ensures this.nlpid == nlpid && this.dummy == dummy && this.minor == minor
    {
      this.nlpid, this.dummy, this.minor := nlpid, dummy, minor;
    }
  }

  type Table = t: seq<seq<Device>> | |t| == BUCKETS witness seq(BUCKETS, _ => [])

  ghost predicate Has(t: Table, older d: Device) {
    exists b :: 0 <= b < BUCKETS && d in t[b]
  }

  /** The first device of the bucket with the pid. */
  function FirstWith(bucket: seq<Device>, pid: int): (d: Device?)
    ensures d == null ==> forall e :: e in bucket ==> e.nlpid != pid
    ensures d != null ==> d in bucket && d.nlpid == pid
  {
    if bucket == [] then null
    else if bucket[0].nlpid == pid then bucket[0]
    else FirstWith(bucket[1..], pid)
  }

  function Lookup(t: Table, pid: int): Device? {
    if pid == -1 then null else FirstWith(t[Bucket(pid)], pid)
  }

  /** Every device is in the bucket of its pid, once. */
  ghost predicate Hashed(t: Table) {
    && (forall b, d :: 0 <= b < BUCKETS && d in t[b] ==> Bucket(d.nlpid) == b && d.nlpid > 0)
    && (forall b, i, j :: 0 <= b < BUCKETS && 0 <= i < j < |t[b]| ==> t[b][i] != t[b][j])
  }

  /** Every dummy device owns a minor of its own, whose cell has its pid. */
  ghost predicate Indexed(t: Table, used: seq<int>) {
    && |used| == NETDEV_MAX_DEVICES + 1
    && (forall d :: Has(t, d) && d.dummy ==> d.minor < |used| && used[d.minor] == d.nlpid)
    && (forall d, e :: Has(t, d) && Has(t, e) && d.dummy && e.dummy && d.minor == e.minor ==> d == e)
  }

  ghost predicate UniquePids(t: Table) {
    forall d, e :: Has(t, d) && Has(t, e) && d.nlpid == e.nlpid ==> d == e
  }

  /** Looking in one bucket is looking in the whole table. */
  lemma LookupIsSearch(t: Table, pid: int)
    requires Hashed(t) && pid != -1
    ensures Lookup(t, pid) == null <==> !exists d :: Has(t, d) && d.nlpid == pid
    ensures Lookup(t, pid) != null ==> Has(t, Lookup(t, pid)) && Lookup(t, pid).nlpid == pid
  {
    if Lookup(t, pid) != null {
      assert Lookup(t, pid) in t[Bucket(pid)];
      assert Has(t, Lookup(t, pid));
    }
  }

  /** The minor of a dummy device leads back to it, by way of the pid in the array, exactly
      when it is the newest device of its process. */
  lemma IndexAgreement(t: Table, used: seq<int>, d: Device)
    requires Hashed(t) && Indexed(t, used) && Has(t, d) && d.dummy
    ensures Lookup(t, used[d.minor]) == d <==> Newest(t, d)
    ensures UniquePids(t) ==> Lookup(t, used[d.minor]) == d
  {
    LookupIsSearch(t, d.nlpid);
    FirstIsNewest(t[Bucket(d.nlpid)], d);
  }

  /** No device that was added later has the same pid. */
  ghost predicate Newest(t: Table, d: Device) {
    forall i, j :: 0 <= i < j < |t[Bucket(d.nlpid)]| && t[Bucket(d.nlpid)][j] == d ==>
                     t[Bucket(d.nlpid)][i].nlpid != d.nlpid
  }

  lemma {:induction false} FirstIsNewest(bucket: seq<Device>, d: Device)
    requires d in bucket && forall i, j :: 0 <= i < j < |bucket| ==> bucket[i] != bucket[j]
    ensures FirstWith(bucket, d.nlpid) == d <==>
              forall i, j :: 0 <= i < j < |bucket| && bucket[j] == d ==> bucket[i].nlpid != d.nlpid
  {
    if bucket[0] == d {
    } else if bucket[0].nlpid == d.nlpid {
      var j :| 0 <= j < |bucket| && bucket[j] == d;
      assert 0 < j;
    } else {
      FirstIsNewest(bucket[1..], d);
      assert forall i :: 0 <= i < |bucket| - 1 ==> bucket[1..][i] == bucket[i + 1];
    }
  }

  // ----- The table as it changes

  function Added(t: Table, d: Device): Table {
    t[Bucket(d.nlpid) := [d] + t[Bucket(d.nlpid)]]
  }

  function Remove(bucket: seq<Device>, d: Device): (r: seq<Device>)
    ensures forall i :: 0 <= i < |r| ==> r[i] in bucket
  {
    if bucket == [] then [] else if bucket[0] == d then bucket[1..] else [bucket[0]] + Remove(bucket[1..], d)
  }

  function Removed(t: Table, d: Device): Table {
    t[Bucket(d.nlpid) := Remove(t[Bucket(d.nlpid)], d)]
  }

  lemma {:induction false} RemoveIs(bucket: seq<Device>, d: Device)
    requires forall i, j :: 0 <= i < j < |bucket| ==> bucket[i] != bucket[j]
    ensures forall e :: e in Remove(bucket, d) <==> e in bucket && e != d
    ensures forall i, j :: 0 <= i < j < |Remove(bucket, d)| ==> Remove(bucket, d)[i] != Remove(bucket, d)[j]
  {
    if bucket == [] {
    } else {
      var rest := bucket[1..];
      assert bucket == [bucket[0]] + rest;
      assert forall i :: 0 <= i < |rest| ==> rest[i] == bucket[i + 1];
      RemoveIs(rest, d);
      assert bucket[0] !in Remove(rest, d);
    }
  }

  lemma AddedIs(t: Table, d: Device)
    requires Hashed(t) && d.nlpid > 0 && !Has(t, d)
    ensures Hashed(Added(t, d))
    ensures forall e :: Has(Added(t, d), e) <==> Has(t, e) || e == d
    ensures Lookup(Added(t, d), d.nlpid) == d
    ensures forall pid :: pid != d.nlpid ==> Lookup(Added(t, d), pid) == Lookup(t, pid)
  {
    var b := Bucket(d.nlpid);
    var u := Added(t, d);
    assert d !in t[b];
    assert u[b][0] == d && u[b][1..] == t[b];
    forall e
      ensures Has(u, e) <==> Has(t, e) || e == d
    {
      if Has(t, e) {
        var c :| 0 <= c < BUCKETS && e in t[c];
        assert e in u[c];
      }
      if e == d {
        assert e in u[b];
      }
    }
  }

  lemma RemovedIs(t: Table, d: Device)
    requires Hashed(t) && Has(t, d)
    ensures Hashed(Removed(t, d))
    ensures forall e :: Has(Removed(t, d), e) <==> Has(t, e) && e != d
  {
    var b := Bucket(d.nlpid);
    var u := Removed(t, d);
    RemoveIs(t[b], d);
    forall c, e | 0 <= c < BUCKETS && e in u[c]
      ensures e in t[c]
    {
      if c == b {
        var i :| 0 <= i < |u[b]| && u[b][i] == e;
      }
    }
    forall e
      ensures Has(u, e) <==> Has(t, e) && e != d
    {
      if Has(t, e) && e != d {
        var c :| 0 <= c < BUCKETS && e in t[c];
        assert e in u[c];
      }
      if Has(u, e) {
        var c :| 0 <= c < BUCKETS && e in u[c];
        assert e in t[c];
      }
    }
  }

  // ----- The functions of the device manager

  class Manager {
    const minors: Minors.MinorTable
    var table: Table

    constructor (minors: Minors.MinorTable)
      requires minors.Valid()
      ensures this.minors == minors && Valid()
      ensures forall d :: !Has(table, d)
    {
      this.minors := minors;
      table := seq(BUCKETS, _ => []);
    }

    ghost predicate Valid()
      reads this, minors, minors.minorsUsed
    {
      minors.Valid() && Hashed(table) && Indexed(table, minors.minorsUsed[..])
    }

    /** ndmgm_find; `available` is what down_read_trylock returns. */
    method Find(available: bool, nlpid: int) returns (d: Device?)
      requires Valid()
      ensures d == if available then Lookup(table, nlpid) else null
    {
      if nlpid == -1 {
        return null;
      }
      if available {
        var bucket := table[Bucket(nlpid)];
        var i := 0;
        while i < |bucket|
          invariant 0 <= i <= |bucket|
          invariant FirstWith(bucket, nlpid) == FirstWith(bucket[i..], nlpid)
        {
          if bucket[i].nlpid == nlpid {
            return bucket[i];
          }
          i := i + 1;
        }
      }
      d := null;
    }

    /** ndmgm_create_dummy. `works` tells whether everything after the minor succeeds. The
        minor of a device that fails to be created is not given back. */
    method CreateDummy(available: bool, works: bool, nlpid: int) returns (err: int, ghost created: Device?)
      requires Valid() && nlpid > 0
      modifies this`table, minors`maxMinor, minors.minorsUsed
      ensures Valid()
      ensures var (t, m) := if available then Minors.Get(false, old(minors.View()), nlpid)
                            else (old(minors.View()), -1);
              && minors.View() == t
              && (err == 0 <==> m != -1 && works)
              && (err == 0 ==> created != null && fresh(created) && created.nlpid == nlpid && created.dummy
                               && created.minor == m && table == Added(old(table), created))
              && (err != 0 ==> table == old(table))
    {
      Minors.GetGivesFree(false, minors.View(), nlpid);
      var minor := minors.GetMinor(available, false, nlpid);
      if minor == -1 {
        return 1, null;
      }
      if !works {
        return 1, null;
      }
      var d := new Device(nlpid, true, minor);
      assert !Has(table, d);
      AddedIs(table, d);
      table := Added(table, d);
      return 0, d;
    }

    /** ndmgm_create_server: no minor. */
    method CreateServer(works: bool, nlpid: int) returns (err: int, ghost created: Device?)
      requires Valid() && nlpid > 0
      modifies this`table
      ensures Valid()
      ensures err == if works then 0 else 1
      ensures works ==> created != null && fresh(created) && created.nlpid == nlpid && !created.dummy
                        && table == Added(old(table), created)
      ensures !works ==> table == old(table)
    {
      if !works {
        return 1, null;
      }
      var d := new Device(nlpid, false, 0);
      assert !Has(table, d);
      AddedIs(table, d);
      table := Added(table, d);
      return 0, d;
    }

    /** ndmgm_find_destroy. `freed` is what destroying the device itself reports: if it
        fails the device is out of the table, but its minor stays taken. */
    method FindDestroy(nlpid: int, freed: bool) returns (err: int)
      requires Valid()
      modifies this`table, minors`maxMinor, minors.minorsUsed
      ensures Valid()
      ensures var d := Lookup(old(table), nlpid);
              if d == null then err == 1 && table == old(table) && minors.View() == old(minors.View())
              else
                && table == Removed(old(table), d)
                && (err == 0 <==> freed)
                && minors.View() == if freed && d.dummy && d.minor <= NETDEV_MAX_DEVICES
                                    then Minors.Put(false, old(minors.View()), d.minor) else old(minors.View())
    {
      var d := Find(true, nlpid);
      if d == null {
        return 1;
      }
      LookupIsSearch(table, nlpid);
      RemovedIs(table, d);
      table := Removed(table, d);
      if !freed {
        return 1;
      }
      if d.dummy {
        minors.PutMinor(true, false, d.minor);
      }
      return 0;
    }

    /** The way from an inode to its device: the pid of the minor, then the table. */
    method FindByMinor(minor: nat) returns (d: Device?)
      requires Valid() && minor <= NETDEV_MAX_DEVICES
      ensures d == Lookup(table, minors.minorsUsed[minor])
      ensures forall e :: Has(table, e) && e.dummy && e.minor == minor && UniquePids(table) ==> d == e
    {
      var pid := minors.FindPid(true, minor);
      d := Find(true, pid);
      forall e | Has(table, e) && e.dummy && e.minor == minor && UniquePids(table)
        ensures d == e
      {
        IndexAgreement(table, minors.minorsUsed[..], e);
      }
    }
  }

  /** Pids stay unique under one registration for each. */
  lemma UniqueStays(t: Table, d: Device)
    requires Hashed(t) && UniquePids(t) && d.nlpid > 0 && !Has(t, d)
    ensures UniquePids(Added(t, d)) <==> Lookup(t, d.nlpid) == null
  {
    AddedIs(t, d);
    LookupIsSearch(t, d.nlpid);
  }
}
