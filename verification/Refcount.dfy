/** Who holds a device, and when it is freed (kernel/netdevmgm.c:192-213, 302-426,
    kernel/fo_access.c:35-66, kernel/fo_comm.c:33-95, 114-149). Each thread that looks a
    device up, or takes or drops a reference, is a step, and runs interleave them freely. */
module Refcount {
  import opened Bytes

  /** `limit` is how many references the last test before the free tolerates; `releases`
      says whether fo_recv drops its reference when it leaves early; `atomic` whether a
      thread that finds a device has its reference at once. As the code is written they are
      1, false and false. */
  datatype Config = Config(dummy: bool, limit: nat, releases: bool, atomic: bool)

  const LITERAL_LIMIT: nat := 1

  /** A thread inside fo_send works for an open file, possibly to release it. */
  datatype Sender = Sender(file: nat, release: bool)

  /** What a thread looks the device up for: to receive a message, to open a file, or to send
      an operation of an open file, whose test for an active device comes before it counts. */
  datatype Purpose = ToReceive | ToOpen(file: nat) | ToSend(sender: Sender)

  /** `users` is the counter. `looking` has the threads that found the device and do not have
      their reference yet. `leaked` and `doubled` only record what went wrong: threads
      that left without dropping their reference, and files destroyed twice. */
  datatype Device = Device(
    users: int,
    inTable: bool,
    active: bool,
    files: set<nat>,
    looking: map<nat, Purpose>,
    sends: map<nat, Sender>,
    recvs: set<nat>,
    leaked: nat,
    doubled: nat,
    freed: bool)

  const REGISTERED := Device(1, true, true, {}, map[], map[], {}, 0, 0, false)

  datatype Step =
    | Look(thread: nat, purpose: Purpose)
    | Take(thread: nat)
    | Leave(thread: nat)
    | Start(thread: nat, file: nat)
    | Quit(thread: nat)
    | Drop(thread: nat, file: nat)
    | Done(thread: nat)
    | Unregister

  /** The operation of an open file that a thread sends, or is about to. */
  function SenderOf(d: Device, t: nat): Option<Sender> {
    if t in d.sends then Some(d.sends[t])
    else if t in d.looking && d.looking[t].ToSend? then Some(d.looking[t].sender)
    else None
  }

  predicate Releases(d: Device, t: nat) {
    SenderOf(d, t).Some? && SenderOf(d, t).value.release
  }

  ghost predicate Releasing(d: Device, file: nat) {
    exists t :: SenderOf(d, t) == Some(Sender(file, true))
  }

  /** ndmgm_find, or in fo_send the test of the device that its open file points to. */
  ghost predicate Found(d: Device, p: Purpose) {
    match p
    case ToReceive => d.inTable
    case ToOpen(_) => d.inTable
    case ToSend(sender) => d.active && sender.file in d.files && !Releasing(d, sender.file)
  }

  /** A file that is new is not there already. */
  ghost predicate IsNew(d: Device, p: Purpose) {
    p.ToOpen? ==> p.file !in d.files && !Releasing(d, p.file)
  }

  /** What the surroundings guarantee: identifiers of threads and files are fresh, a file
      is found in the table of open files, and nothing begins on a file once the kernel
      releases it. */
  ghost predicate Enabled(c: Config, d: Device, e: Step) {
    match e
    case Look(t, p) => t !in d.looking && t !in d.sends && t !in d.recvs && Found(d, p) && (c.atomic ==> IsNew(d, p))
    case Take(t) => t in d.looking && IsNew(d, d.looking[t])
    case Leave(t) => t in d.sends
    case Start(t, f) => t in d.recvs && f !in d.files && !Releasing(d, f)
    case Quit(t) => t in d.recvs
    case Drop(t, f) => t in d.recvs && f in d.files && !Releasing(d, f)
    case Done(t) => t in d.recvs
    case Unregister => d.inTable
  }

  /** ndmgm_get, for the purpose of the thread. */
  function WithReference(d: Device, t: nat, p: Purpose): Device {
    match p
    case ToReceive => d.(users := d.users + 1, recvs := d.recvs + {t})
    case ToOpen(f) => d.(users := d.users + 1, files := d.files + {f})
    case ToSend(sender) => d.(users := d.users + 1, sends := d.sends[t := sender])
  }

  /** fo_acc_destroy: the counter goes down whether or not the file was still there. */
  function DestroyFile(d: Device, f: nat): Device {
    d.(users := d.users - 1, files := d.files - {f}, doubled := d.doubled + if f in d.files then 0 else 1)
  }

  /** ndmgm_find_destroy: the reference of the table goes first; a dummy then loses its
      open files; and the counter decides. */
  function Destroy(c: Config, d: Device): Device {
    var unlisted := d.(users := d.users - 1, inTable := false, active := false);
    var drained := if c.dummy then unlisted.(users := unlisted.users - |d.files|, files := {}) else unlisted;
    drained.(freed := drained.users <= c.limit)
  }

  function Apply(c: Config, d: Device, e: Step): Device
    requires Enabled(c, d, e)
  {
    match e
    case Look(t, p) => if c.atomic then WithReference(d, t, p) else d.(looking := d.looking[t := p])
    case Take(t) => WithReference(d.(looking := d.looking - {t}), t, d.looking[t])
    case Leave(t) =>
      var left := d.(users := d.users - 1, sends := d.sends - {t});
      if d.sends[t].release then DestroyFile(left, d.sends[t].file) else left
    case Start(_, f) => d.(users := d.users + 1, files := d.files + {f})
    case Quit(t) =>
      if c.releases then d.(users := d.users - 1, recvs := d.recvs - {t})
      else d.(recvs := d.recvs - {t}, leaked := d.leaked + 1)
    case Drop(_, f) => DestroyFile(d, f)
    case Done(t) => d.(users := d.users - 1, recvs := d.recvs - {t})
    case Unregister => Destroy(c, d)
  }

  /** Runs. */
  ghost predicate Run(c: Config, d: Device, es: seq<Step>, last: Device)
    decreases |es|
  {
    if es == [] then last == d else Enabled(c, d, es[0]) && Run(c, Apply(c, d, es[0]), es[1..], last)
  }

  ghost predicate Reachable(c: Config, d: Device) {
    exists es :: Run(c, REGISTERED, es, d)
  }

  /** How many hold the device: the table, its open files, and threads at work on it. */
  function Held(d: Device): nat {
    (if d.inTable then 1 else 0) + |d.files| + |d.sends| + |d.recvs|
  }

  /** The counter is the number of holders, up to the two mistakes. */
  ghost predicate Balanced(c: Config, d: Device) {
    Counted(c, d) && Apart(d)
  }

  ghost predicate Counted(c: Config, d: Device) {
    && d.users == Held(d) + d.leaked - d.doubled
    && (c.releases ==> d.leaked == 0)
  }

  /** A thread does one thing at a time. */
  ghost predicate Apart(d: Device) {
    && (forall t :: t in d.looking ==> t !in d.sends && t !in d.recvs)
    && (forall t :: t in d.sends ==> t !in d.recvs)
  }

  /** Before the device leaves the table it works, and each file that is being released is
      still there and released by one thread. */
  ghost predicate Orderly(c: Config, d: Device) {
    && (d.inTable <==> d.active) && (d.inTable ==> d.doubled == 0 && !d.freed)
    && (d.inTable ==> forall t :: Releases(d, t) ==> SenderOf(d, t).value.file in d.files)
    && (forall t, u :: Releases(d, t) && SenderOf(d, t) == SenderOf(d, u) ==> t == u)
    && (c.atomic ==> d.looking == map[])
  }

  lemma SetSizes<T>(s: set<T>, x: T)
    ensures |s + {x}| == |s| + (if x in s then 0 else 1)
    ensures |s - {x}| == |s| - (if x in s then 1 else 0)
  {
    if x in s {
      assert s + {x} == s && s == (s - {x}) + {x};
    } else {
      assert s - {x} == s;
    }
  }

  lemma MapSizes<K, V>(m: map<K, V>, k: K, v: V)
    ensures |m[k := v]| == |m| + (if k in m then 0 else 1)
    ensures |m - {k}| == |m| - (if k in m then 1 else 0)
  {
    SetSizes(m.Keys, k);
    assert m[k := v].Keys == m.Keys + {k} && (m - {k}).Keys == m.Keys - {k};
    assert |m[k := v]| == |m[k := v].Keys| && |m - {k}| == |(m - {k}).Keys| && |m| == |m.Keys|;
  }

  lemma DestroyFileKeeps(c: Config, d: Device, f: nat)
    requires Counted(c, d)
    ensures Counted(c, DestroyFile(d, f))
  {
    SetSizes(d.files, f);
  }

  lemma LeaveKeeps(c: Config, d: Device, t: nat)
    requires Counted(c, d) && t in d.sends
    ensures Counted(c, Apply(c, d, Leave(t)))
  {
    var left := d.(users := d.users - 1, sends := d.sends - {t});
    MapSizes(d.sends, t, d.sends[t]);
    DestroyFileKeeps(c, left, d.sends[t].file);
  }

  lemma ReferenceKeeps(c: Config, d: Device, t: nat, p: Purpose)
    requires Counted(c, d) && t !in d.sends && t !in d.recvs && IsNew(d, p)
    ensures Counted(c, WithReference(d, t, p))
  {
    match p
    case ToReceive => SetSizes(d.recvs, t);
    case ToOpen(f) => SetSizes(d.files, f);
    case ToSend(sender) => MapSizes(d.sends, t, sender);
  }

  lemma TakeKeeps(c: Config, d: Device, t: nat)
    requires Counted(c, d) && Apart(d) && Enabled(c, d, Take(t))
    ensures Counted(c, Apply(c, d, Take(t)))
  {
    var found := d.(looking := d.looking - {t});
    assert IsNew(found, d.looking[t]) by {
      assert forall u :: SenderOf(found, u).Some? ==> SenderOf(found, u) == SenderOf(d, u);
    }
    ReferenceKeeps(c, found, t, d.looking[t]);
  }

  lemma CountedKeeps(c: Config, d: Device, e: Step)
    requires Counted(c, d) && Apart(d) && Enabled(c, d, e)
    ensures Counted(c, Apply(c, d, e))
  {
    match e
    case Look(t, p) =>
      if c.atomic {
        ReferenceKeeps(c, d, t, p);
      }
    case Take(t) => TakeKeeps(c, d, t);
    case Leave(t) => LeaveKeeps(c, d, t);
    case Start(_, f) => SetSizes(d.files, f);
    case Quit(t) => SetSizes(d.recvs, t);
    case Drop(_, f) => DestroyFileKeeps(c, d, f);
    case Done(t) => SetSizes(d.recvs, t);
    case Unregister =>
  }

  lemma ApartKeeps(c: Config, d: Device, e: Step)
    requires Apart(d) && Enabled(c, d, e)
    ensures Apart(Apply(c, d, e))
  {
    match e
    case Look(_, _) =>
    case Take(_) =>
    case _ =>
  }

  lemma BalancedKeeps(c: Config, d: Device, e: Step)
    requires Balanced(c, d) && Enabled(c, d, e)
    ensures Balanced(c, Apply(c, d, e))
  {
    CountedKeeps(c, d, e);
    ApartKeeps(c, d, e);
  }

  lemma SendersWithReference(d: Device, t: nat, p: Purpose, u: nat)
    requires t !in d.sends && t !in d.looking
    ensures SenderOf(WithReference(d, t, p), u) == if u == t && p.ToSend? then Some(p.sender) else SenderOf(d, u)
  {
  }

  /** Only looking up and leaving change who sends what. */
  lemma SendersAfter(c: Config, d: Device, e: Step, t: nat)
    requires Apart(d) && Enabled(c, d, e)
    ensures SenderOf(Apply(c, d, e), t)
            == if e == Leave(t) then None
               else if e.Look? && e.thread == t && e.purpose.ToSend? then Some(e.purpose.sender)
               else SenderOf(d, t)
  {
    if e.Look? {
      SendersWithReference(d, e.thread, e.purpose, t);
    } else if e.Take? {
      SendersWithReference(d.(looking := d.looking - {e.thread}), e.thread, d.looking[e.thread], t);
    } else if !e.Leave? {
      assert Apply(c, d, e).sends == d.sends && Apply(c, d, e).looking == d.looking;
    }
  }

  lemma OrderlyKeeps(c: Config, d: Device, e: Step)
    requires Apart(d) && Orderly(c, d) && Enabled(c, d, e)
    ensures Orderly(c, Apply(c, d, e))
  {
    var after := Apply(c, d, e);
    if e.Leave? {
      assert SenderOf(d, e.thread) == Some(d.sends[e.thread]);
    }
    forall t | Releases(after, t) && after.inTable
      ensures SenderOf(after, t).value.file in after.files
    {
      SendersAfter(c, d, e, t);
      var f := SenderOf(after, t).value.file;
      assert SenderOf(d, t) == Some(Sender(f, true)) ==> Releasing(d, f);
    }
    forall t, u | Releases(after, t) && SenderOf(after, t) == SenderOf(after, u)
      ensures t == u
    {
      SendersAfter(c, d, e, t);
      SendersAfter(c, d, e, u);
    }
  }

  lemma {:induction false} RunKeeps(c: Config, d: Device, es: seq<Step>, last: Device)
    requires Balanced(c, d) && Orderly(c, d) && Run(c, d, es, last)
    ensures Balanced(c, last) && Orderly(c, last)
    decreases |es|
  {
    if es != [] {
      BalancedKeeps(c, d, es[0]);
      OrderlyKeeps(c, d, es[0]);
      RunKeeps(c, Apply(c, d, es[0]), es[1..], last);
    }
  }

  /** In every run the counter is off by exactly the early exits of fo_recv, less the files
      that were destroyed twice; and no file is destroyed twice while the device is listed. */
  lemma CounterIsHolders(c: Config, d: Device)
    requires Reachable(c, d)
    ensures d.users == Held(d) + d.leaked - d.doubled
    ensures d.inTable ==> d.doubled == 0
    ensures c.releases ==> d.leaked == 0
  {
    var es :| Run(c, REGISTERED, es, d);
    RunKeeps(c, REGISTERED, es, d);
  }

  // ----- Open files

  /** The step makes the file an open file of the device. */
  predicate Opens(c: Config, d: Device, e: Step, file: nat) {
    match e
    case Look(_, p) => c.atomic && p == ToOpen(file)
    case Take(t) => t in d.looking && d.looking[t] == ToOpen(file)
    case Start(_, f) => f == file
    case _ => false
  }

  /** The step ends that: the release of the file leaves fo_send, fo_recv destroys the file,
      or a dummy loses all its files. */
  predicate Closes(c: Config, d: Device, e: Step, file: nat) {
    match e
    case Leave(t) => t in d.sends && d.sends[t] == Sender(file, true)
    case Drop(_, f) => f == file
    case Unregister => c.dummy
    case _ => false
  }

  lemma FileStep(c: Config, d: Device, e: Step, file: nat)
    requires Enabled(c, d, e)
    ensures file in Apply(c, d, e).files <==>
              Opens(c, d, e, file) || (file in d.files && !Closes(c, d, e, file))
  {
  }

  /** The last step of the run that concerns the file opens it, or there is none and `open`. */
  ghost predicate LastOpens(c: Config, d: Device, es: seq<Step>, last: Device, file: nat, open: bool)
    requires Run(c, d, es, last)
    decreases |es|
  {
    if es == [] then open
    else LastOpens(c, Apply(c, d, es[0]), es[1..], last, file,
                   Opens(c, d, es[0], file) || (open && !Closes(c, d, es[0], file)))
  }

  lemma {:induction false} FilesAre(c: Config, d: Device, es: seq<Step>, last: Device, file: nat)
    requires Run(c, d, es, last)
    ensures file in last.files <==> LastOpens(c, d, es, last, file, file in d.files)
    decreases |es|
  {
    if es != [] {
      FileStep(c, d, es[0], file);
      FilesAre(c, Apply(c, d, es[0]), es[1..], last, file);
    }
  }

  /** In every run: a file is open exactly if the last step that concerns it opened it. */
  lemma OpenFilesAre(c: Config, es: seq<Step>, d: Device, file: nat)
    requires Run(c, REGISTERED, es, d)
    ensures file in d.files <==> LastOpens(c, REGISTERED, es, d, file, false)
  {
    FilesAre(c, REGISTERED, es, d, file);
  }

  /** When fo_send leaves it drops its own reference, and with a release that of its file,
      which is gone then. While the device is listed the file was still there. */
  lemma LeaveDrops(c: Config, d: Device, t: nat)
    requires Reachable(c, d) && t in d.sends
    ensures var after := Apply(c, d, Leave(t));
            var Sender(file, release) := d.sends[t];
            && t !in after.sends
            && after.users == d.users - (if release then 2 else 1)
            && (release ==> file !in after.files)
            && (!release ==> after.files == d.files)
            && (release && d.inTable ==> file in d.files && Held(after) == Held(d) - 2)
  {
    var es :| Run(c, REGISTERED, es, d);
    RunKeeps(c, REGISTERED, es, d);
    assert SenderOf(d, t) == Some(d.sends[t]);
    assert d.sends[t].release ==> Releases(d, t);
    MapSizes(d.sends, t, d.sends[t]);
    SetSizes(d.files, d.sends[t].file);
  }

  /** In every run, a device that is not listed any more lets nobody in. */
  lemma UnlistedRefuses(c: Config, d: Device, p: Purpose)
    requires Reachable(c, d) && !d.inTable
    ensures !Found(d, p)
  {
    var es :| Run(c, REGISTERED, es, d);
    RunKeeps(c, REGISTERED, es, d);
  }

  /** What still holds a device when it has been taken out of the table. */
  function Remaining(c: Config, d: Device): nat {
    (if c.dummy then 0 else |d.files|) + |d.sends| + |d.recvs|
  }

  /** Unregistering frees the device exactly when no more than `limit` references remain,
      counting those that early exits left behind. */
  lemma FreedIff(c: Config, d: Device)
    requires Reachable(c, d) && d.inTable
    ensures var after := Apply(c, d, Unregister);
            && (after.freed <==> Remaining(c, d) + d.leaked <= c.limit)
            && Held(after) == Remaining(c, d)
  {
    CounterIsHolders(c, d);
  }

  /** Nobody holds a freed device. */
  predicate Sound(d: Device) {
    d.freed ==> Held(d) == 0
  }

  lemma SoundKeeps(c: Config, d: Device, e: Step)
    requires c.limit == 0 && c.atomic && Balanced(c, d) && Orderly(c, d) && Sound(d) && Enabled(c, d, e)
    ensures Sound(Apply(c, d, e))
  {
  }

  lemma {:induction false} RunSound(c: Config, d: Device, es: seq<Step>, last: Device)
    requires c.limit == 0 && c.atomic && Balanced(c, d) && Orderly(c, d) && Sound(d) && Run(c, d, es, last)
    ensures Sound(last)
    decreases |es|
  {
    if es != [] {
      SoundKeeps(c, d, es[0]);
      BalancedKeeps(c, d, es[0]);
      OrderlyKeeps(c, d, es[0]);
      RunSound(c, Apply(c, d, es[0]), es[1..], last);
    }
  }

  lemma OneStep(c: Config, d: Device, e: Step, es: seq<Step>, last: Device) returns (es': seq<Step>)
    requires Enabled(c, d, e) && Run(c, Apply(c, d, e), es, last)
    ensures Run(c, d, es', last)
  {
    es' := [e] + es;
    assert es'[1..] == es;
  }

  /** A thread receives a message and has its reference, in one step or in two. */
  lemma Received(c: Config, d: Device, t: nat, es: seq<Step>, last: Device) returns (es': seq<Step>)
    requires d.inTable && t !in d.looking && t !in d.sends && t !in d.recvs
    requires Run(c, WithReference(d, t, ToReceive), es, last)
    ensures Run(c, d, es', last)
  {
    if c.atomic {
      es' := OneStep(c, d, Look(t, ToReceive), es, last);
    } else {
      var looking := d.(looking := d.looking[t := ToReceive]);
      assert looking.(looking := looking.looking - {t}) == d;
      es' := OneStep(c, looking, Take(t), es, last);
      es' := OneStep(c, d, Look(t, ToReceive), es', last);
    }
  }

  /** A thread has received a message, and the device is unregistered under it. */
  lemma FreedUnderAThread(c: Config) returns (d: Device)
    requires c.limit > 0
    ensures Reachable(c, d) && d.freed && Held(d) > 0
  {
    var found := WithReference(REGISTERED, 0, ToReceive);
    d := Apply(c, found, Unregister);
    assert Run(c, d, [], d);
    var es := OneStep(c, found, Unregister, [], d);
    es := Received(c, REGISTERED, 0, es, d);
  }

  /** A thread has found the device; it is unregistered, and freed, because no reference is
      left; and then the thread takes its own and goes on. */
  lemma FreedUnderALookup(c: Config) returns (d: Device)
    requires !c.atomic
    ensures Reachable(c, d) && d.freed && Held(d) > 0
  {
    var found := Apply(c, REGISTERED, Look(0, ToReceive));
    var gone := Apply(c, found, Unregister);
    d := Apply(c, gone, Take(0));
    assert Run(c, d, [], d);
    var es := OneStep(c, gone, Take(0), [], d);
    es := OneStep(c, found, Unregister, es, d);
    es := OneStep(c, REGISTERED, Look(0, ToReceive), es, d);
  }

  /** A freed device is held by nobody, in all runs, exactly when the last test tolerates
      no reference at all, and a thread that finds the device has its reference at once. */
  lemma FreedIsUnheldIff(c: Config)
    ensures (forall d :: Reachable(c, d) ==> Sound(d)) <==> c.limit == 0 && c.atomic
  {
    if c.limit == 0 && c.atomic {
      forall d | Reachable(c, d)
        ensures Sound(d)
      {
        var es :| Run(c, REGISTERED, es, d);
        RunSound(c, REGISTERED, es, d);
      }
    } else {
      var d;
      if c.limit > 0 {
        d := FreedUnderAThread(c);
      } else {
        d := FreedUnderALookup(c);
      }
      assert Reachable(c, d) && !Sound(d);
    }
  }

  /** Once more references are leaked than the last test tolerates, the device is never
      freed, whatever happens afterwards. */
  lemma {:induction false} LeakedIsNeverFreed(c: Config, d: Device, es: seq<Step>, last: Device)
    requires Balanced(c, d) && Orderly(c, d) && d.leaked > c.limit && !d.freed && Run(c, d, es, last)
    ensures !last.freed
    decreases |es|
  {
    if es != [] {
      BalancedKeeps(c, d, es[0]);
      OrderlyKeeps(c, d, es[0]);
      LeakedIsNeverFreed(c, Apply(c, d, es[0]), es[1..], last);
    }
  }

  /** When a device that nobody works on is unregistered it is freed, in all runs, exactly
      when early exits drop their reference. */
  lemma IdleIsFreedIff(c: Config)
    ensures (forall d :: Reachable(c, d) && d.inTable && Remaining(c, d) == 0 ==> Apply(c, d, Unregister).freed)
            <==> c.releases
  {
    if c.releases {
      forall d | Reachable(c, d) && d.inTable && Remaining(c, d) == 0
        ensures Apply(c, d, Unregister).freed
      {
        CounterIsHolders(c, d);
        FreedIff(c, d);
      }
    } else {
      var d := Leaks(c, c.limit + 1);
      FreedIff(c, d);
    }
  }

  /** Any number of references can be leaked, one early exit after the other. */
  function AfterLeaks(n: nat): Device {
    REGISTERED.(users := 1 + n, leaked := n)
  }

  lemma {:induction false} LeakRun(c: Config, n: nat, m: nat) returns (es: seq<Step>)
    requires !c.releases
    ensures Run(c, AfterLeaks(m), es, AfterLeaks(m + n))
    decreases n
  {
    if n == 0 {
      es := [];
    } else {
      es := LeakRun(c, n - 1, m + 1);
      var found := WithReference(AfterLeaks(m), 0, ToReceive);
      assert Apply(c, found, Quit(0)) == AfterLeaks(m + 1);
      es := OneStep(c, found, Quit(0), es, AfterLeaks(m + n));
      es := Received(c, AfterLeaks(m), 0, es, AfterLeaks(m + n));
    }
  }

  lemma Leaks(c: Config, n: nat) returns (d: Device)
    requires !c.releases
    ensures Reachable(c, d) && d.inTable && Remaining(c, d) == 0 && d.leaked == n
  {
    var es := LeakRun(c, n, 0);
    d := AfterLeaks(n);
    assert AfterLeaks(0) == REGISTERED;
    assert Run(c, REGISTERED, es, d);
  }

  /** The two facts for the code as it is written; the first with any tolerance, because of
      the lookup. */
  lemma AsWritten(dummy: bool, limit: nat)
    ensures exists d :: Reachable(Config(dummy, limit, false, false), d) && !Sound(d)
    ensures var c := Config(dummy, LITERAL_LIMIT, false, false);
            exists d :: Reachable(c, d) && d.inTable && Remaining(c, d) == 0 && !Apply(c, d, Unregister).freed
  {
    FreedIsUnheldIff(Config(dummy, limit, false, false));
    IdleIsFreedIff(Config(dummy, LITERAL_LIMIT, false, false));
  }
}
