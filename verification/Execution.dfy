/** Execution of a request on the device of the server (kernel/fo_recv.c,
    kernel/fo_comm.c:177-246). The device is abstract: any state and any operations. */
module Execution {
  import opened Bytes
  import opened Codec
  import opened Protocol

  datatype ReadOut<S> = ReadOut(state: S, ret: int64, bytes: seq<byte>, offset: int64)

  /** The operations of an open device file. `read` gives the bytes it stored, which are
      as many as it reports; the optional operations can be NULL in the source. */
  datatype FileOps<!S> = FileOps(
    llseek: Option<(S, int64, int32) -> (S, int64)>,
    read: (S, uint64, int64) -> ReadOut<S>,
    write: (S, seq<byte>, int64) -> (S, int64, int64),
    unlockedIoctl: (S, uint32, uint64) -> (S, int64),
    compatIoctl: (S, uint32, uint64) -> (S, int64),
    open: S -> Option<S>,
    flush: Option<S -> (S, int32)>,
    release: S -> (S, int32))

  ghost predicate WellBehaved<S(!new)>(ops: FileOps<S>) {
    forall s: S, n: uint64, offset: int64 ::
      var r := ops.read(s, n, offset);
      |r.bytes| <= n && (r.ret >= 0 ==> |r.bytes| == r.ret)
  }

  // ----- The argument structures of include/fo_struct.h, padding and pointers included

  /** struct s_fo_llseek: offset, whence, 4 bytes of padding, rvalue. */
  const LLSEEK_SIZE: nat := 24
  /** struct s_fo_read and s_fo_write: data pointer, size, offset, rvalue. */
  const RW_SIZE: nat := 32
  /** struct s_fo_unlocked_ioctl and s_fo_compat_ioctl: cmd, padding, arg, rvalue. */
  const IOCTL_SIZE: nat := 24
  /** struct s_fo_open: inode pointer, rvalue, padding. */
  const OPEN_SIZE: nat := 16
  /** struct s_fo_flush and s_fo_release: rvalue. */
  const STATUS_SIZE: nat := 4

  /** Eight bytes of a structure as size_t, as a signed 64-bit number, four as int. */
  function SizeAt(args: seq<byte>, at: nat): uint64
    requires at + 8 <= |args|
  {
    ReadSize(args[at..at + 8])
  }

  function LongAt(args: seq<byte>, at: nat): int64
    requires at + 8 <= |args|
  {
    ReadLong(args[at..at + 8])
  }

  function IntAt(args: seq<byte>, at: nat): int32
    requires at + 4 <= |args|
  {
    ReadInt(args[at..at + 4])
  }

  // ----- What each handler does, on values

  datatype Handler =
    | Missing
    | Failing
    | Llseek
    | Read
    | Write
    | UnlockedIoctl
    | CompatIoctl
    | Open
    | Flush
    | Release

  /** netdev_recv_fops, indexed by message type minus the first one. */
  const RECV_FOPS: seq<Handler> := [
    Llseek, Read, Write, Missing, Missing, Missing, Failing, UnlockedIoctl, CompatIoctl,
    Missing, Open, Flush, Release, Failing, Missing, Failing, Missing, Missing, Missing,
    Failing, Failing, Missing, Missing, Failing, Failing, Failing]

  function HandlerFor(msgtype: int): Handler
    requires IsFileOperation(msgtype)
  {
    RECV_FOPS[msgtype - (MSGT_FO_START + 1)]
  }

  /** What a handler expects of the decoded request: the source reads the structure of
      its operation, and as much data as that structure says, without checking. */
  predicate Expected(h: Handler, i: Image) {
    match h
    case Missing | Failing => true
    case Llseek => i.args.Some? && |i.args.value| >= LLSEEK_SIZE
    case Read => i.args.Some? && |i.args.value| >= RW_SIZE
    case Write => i.args.Some? && |i.args.value| >= RW_SIZE && SizeAt(i.args.value, 8) <= |BytesOf(i.data)|
    case UnlockedIoctl | CompatIoctl => i.args.Some? && |i.args.value| >= IOCTL_SIZE
    case Open => i.args.Some? && |i.args.value| >= OPEN_SIZE
    case Flush | Release => i.args.Some? && |i.args.value| >= STATUS_SIZE
  }

  /** The device after an operation, and the reply image, or None when the handler
      returns -1. */
  datatype Handled<S> = Handled(state: S, reply: Option<Image>)

  function WithArgs(i: Image, args: seq<byte>): Image {
    i.(args := Some(args))
  }

  function Padded(bytes: seq<byte>, n: nat): (r: seq<byte>)
    requires |bytes| <= n
    ensures |r| == n
  {
    bytes + Zeros(n - |bytes|)
  }

  ghost function Handle<S(!new)>(ops: FileOps<S>, s: S, h: Handler, i: Image): (r: Handled<S>)
    requires WellBehaved(ops) && WellFormed(i) && Expected(h, i)
    ensures r.reply.Some? ==>
              && WellFormed(r.reply.value) && i.args.Some?
              && r.reply.value.args.Some? && r.reply.value.size == i.size
              && r.reply.value.dataSize == if h.Read? then SizeAt(i.args.value, 8)
                                           else if h.Write? then 0 else i.dataSize
  {
    match h
    case Missing | Failing => Handled(s, None)
    case Llseek =>
      if ops.llseek.None? then Handled(s, None)
      else
        var args := i.args.value;
        var (t, ret) := ops.llseek.value(s, LongAt(args, 0), IntAt(args, 8));
        Handled(t, Some(WithArgs(i, Splice(args, 16, LongBytes(ret)))))
    case Read =>
      var args := i.args.value;
      var out := ops.read(s, SizeAt(args, 8), LongAt(args, 16));
      var args' := Splice(args, 16, LongBytes(out.offset) + LongBytes(out.ret));
      Handled(out.state,
              Some(WithArgs(i, args').(data := Some(Padded(out.bytes, SizeAt(args, 8))),
                                       dataSize := SizeAt(args, 8))))
    case Write =>
      var args := i.args.value;
      var (t, ret, offset) := ops.write(s, BytesOf(i.data)[..SizeAt(args, 8)], LongAt(args, 16));
      Handled(t, Some(WithArgs(i, Splice(args, 16, LongBytes(offset) + LongBytes(ret))).(data := None, dataSize := 0)))
    case UnlockedIoctl =>
      // the operation is performed, and reported as failed
      var args := i.args.value;
      Handled(ops.unlockedIoctl(s, ToU32(IntAt(args, 0)), SizeAt(args, 8)).0, None)
    case CompatIoctl =>
      var args := i.args.value;
      var (t, ret) := ops.compatIoctl(s, ToU32(IntAt(args, 0)), SizeAt(args, 8));
      Handled(t, Some(WithArgs(i, Splice(args, 16, LongBytes(ret)))))
    case Open =>
      var o := ops.open(s);
      if o.None? then Handled(s, None)
      else Handled(o.value, Some(WithArgs(i, Splice(i.args.value, 8, IntBytes(0)))))
    case Flush =>
      if ops.flush.None? then Handled(s, None)
      else
        var (t, ret) := ops.flush.value(s);
        Handled(t, Some(WithArgs(i, Splice(i.args.value, 0, IntBytes(ret)))))
    case Release =>
      var (t, ret) := ops.release(s);
      Handled(t, Some(WithArgs(i, Splice(i.args.value, 0, IntBytes(ret)))))
  }

  /** A message the server can execute without reading past its structures. */
  predicate Executable(msgtype: int, payload: seq<byte>) {
    && IsFileOperation(msgtype)
    && Decodable(payload)
    && Expected(HandlerFor(msgtype), Decode(payload))
  }

  /** The device and the reply payload after fo_execute. A handler that is missing or
      fails echoes the request as it came. */
  ghost function Execute<S(!new)>(ops: FileOps<S>, s: S, msgtype: int, payload: seq<byte>): (S, seq<byte>)
    requires WellBehaved(ops) && Executable(msgtype, payload)
  {
    var r := Handle(ops, s, HandlerFor(msgtype), Decode(payload));
    (r.state, if r.reply.None? then payload else Encode(r.reply.value.(rvalue := 0)))
  }

  // ----- The same on the heap, as the source does it

  /** The open file of one access on the server. */
  class OpenFile<S(!new)> {
    const ops: FileOps<S>
    var state: S

    constructor (ops: FileOps<S>, state: S)
      ensures this.ops == ops && this.state == state
    {
      this.ops, this.state := ops, state;
    }

    ghost predicate Ready(req: FoReq, h: Handler)
      reads this, req, req.args, req.data
    {
      && WellBehaved(ops) && req.Valid() && Expected(h, req.View())
      && (req.args != null ==> req.args.Length == req.size)
      && (req.data != null ==> req.data.Length == req.dataSize)
    }

    /** What a handler leaves behind: `ret` is 0 with the reply in the request, or -1. */
    twostate predicate Done(req: FoReq, h: Handler, ret: int)
      requires old(Ready(req, h))
      reads this, req, req.args, req.data
    {
      var r := Handle(ops, old(state), h, old(req.View()));
      && state == r.state
      && (ret == 0 <==> r.reply.Some?) && (ret == -1 <==> r.reply.None?)
      && (ret == 0 ==> req.Valid() && req.View() == r.reply.value)
    }

    method RecvLlseek(req: FoReq) returns (ret: int)
      requires Ready(req, Llseek)
      modifies this, req.args
      ensures Done(req, Llseek, ret)
    {
      if ops.llseek.None? {
        return -1;
      }
      var args := req.args[..];
      var (t, r) := ops.llseek.value(state, LongAt(args, 0), IntAt(args, 8));
      state := t;
      CopyInto(req.args, 16, LongBytes(r));
      assert req.args[..req.size] == req.args[..] && args == old(req.View()).args.value;
      return 0;
    }

    method RecvRead(req: FoReq) returns (ret: int)
      requires Ready(req, Read)
      modifies this, req, req.args
      ensures Done(req, Read, ret)
      ensures req.args == old(req.args)
      ensures req.data != null && fresh(req.data)
    {
      var args := req.args[..];
      assert args == req.View().args.value;
      var size := SizeAt(args, 8);
      var out := ops.read(state, size, LongAt(args, 16));
      state := out.state;
      req.data := new byte[size](_ => 0);
      req.dataSize := size;
      CopyInto(req.data, 0, out.bytes);
      CopyInto(req.args, 16, LongBytes(out.offset) + LongBytes(out.ret));
      assert req.args[..req.size] == req.args[..];
      assert req.data[..size] == req.data[..] == Padded(out.bytes, size);
      return 0;
    }

    method RecvWrite(req: FoReq) returns (ret: int)
      requires Ready(req, Write)
      modifies this, req, req.args
      ensures Done(req, Write, ret)
      ensures req.args == old(req.args) && req.data == null
    {
      var args := req.args[..];
      var bytes: seq<byte> := if req.data == null then [] else req.data[..];
      assert args == req.View().args.value && bytes == BytesOf(req.View().data);
      var (t, r, offset) := ops.write(state, bytes[..SizeAt(args, 8)], LongAt(args, 16));
      state := t;
      CopyInto(req.args, 16, LongBytes(offset) + LongBytes(r));
      req.data := null;
      req.dataSize := 0;
      assert req.args[..req.size] == req.args[..];
      return 0;
    }

    method RecvUnlockedIoctl(req: FoReq) returns (ret: int)
      requires Ready(req, UnlockedIoctl)
      modifies this, req.args
      ensures Done(req, UnlockedIoctl, ret)
    {
      var args := req.args[..];
      assert args == req.View().args.value;
      var (t, r) := ops.unlockedIoctl(state, ToU32(IntAt(args, 0)), SizeAt(args, 8));
      state := t;
      CopyInto(req.args, 16, LongBytes(r));
      return -1;
    }

    method RecvCompatIoctl(req: FoReq) returns (ret: int)
      requires Ready(req, CompatIoctl)
      modifies this, req.args
      ensures Done(req, CompatIoctl, ret)
    {
      var args := req.args[..];
      assert args == req.View().args.value;
      var (t, r) := ops.compatIoctl(state, ToU32(IntAt(args, 0)), SizeAt(args, 8));
      state := t;
      CopyInto(req.args, 16, LongBytes(r));
      assert req.args[..req.size] == req.args[..];
      return 0;
    }

    method RecvOpen(req: FoReq) returns (ret: int)
      requires Ready(req, Open)
      modifies this, req.args
      ensures Done(req, Open, ret)
    {
      var o := ops.open(state);
      if o.None? {
        return -1;
      }
      state := o.value;
      CopyInto(req.args, 8, IntBytes(0));
      assert req.args[..req.size] == req.args[..] && old(req.args[..req.size]) == old(req.args[..]);
      return 0;
    }

    method RecvFlush(req: FoReq) returns (ret: int)
      requires Ready(req, Flush)
      modifies this, req.args
      ensures Done(req, Flush, ret)
    {
      if ops.flush.None? {
        return -1;
      }
      var (t, r) := ops.flush.value(state);
      state := t;
      CopyInto(req.args, 0, IntBytes(r));
      assert req.args[..req.size] == req.args[..] && old(req.args[..req.size]) == old(req.args[..]);
      return 0;
    }

    method RecvRelease(req: FoReq) returns (ret: int)
      requires Ready(req, Release)
      modifies this, req.args
      ensures Done(req, Release, ret)
    {
      var (t, r) := ops.release(state);
      state := t;
      CopyInto(req.args, 0, IntBytes(r));
      assert req.args[..req.size] == req.args[..] && old(req.args[..req.size]) == old(req.args[..]);
      return 0;
    }

    /** The call through netdev_recv_fops. */
    method Dispatch(h: Handler, req: FoReq) returns (ret: int)
      requires Ready(req, h)
      modifies this, req, req.args
      ensures Done(req, h, ret)
      ensures req.args == old(req.args)
    {
      match h
      case Missing => ret := -1;
      case Failing => ret := -1;
      case Llseek => ret := RecvLlseek(req);
      case Read => ret := RecvRead(req);
      case Write => ret := RecvWrite(req);
      case UnlockedIoctl => ret := RecvUnlockedIoctl(req);
      case CompatIoctl => ret := RecvCompatIoctl(req);
      case Open => ret := RecvOpen(req);
      case Flush => ret := RecvFlush(req);
      case Release => ret := RecvRelease(req);
    }

    /** fo_execute: decode, run the operation, and answer in the message itself or, when
        the reply has another length, in a new one. A failed operation sends the request
        back untouched. */
    method FoExecute(nlh: Nlmsg) returns (rvalue: int, reply: Nlmsg)
      requires WellBehaved(ops) && Executable(nlh.msgtype, nlh.payload)
      modifies this
      ensures (state, reply.payload) == Execute(ops, old(state), nlh.msgtype, nlh.payload)
      ensures reply.pid == nlh.pid && reply.seqNo == nlh.seqNo && reply.msgtype == nlh.msgtype
      ensures nlh.ack ==> reply.ack
      ensures var failed := Handle(ops, old(state), HandlerFor(nlh.msgtype), Decode(nlh.payload)).reply.None?;
              rvalue == (if failed then -ENODATA else 0) && (failed ==> reply == nlh)
    {
      var req := FoDeserialize(nlh.payload);
      var h := HandlerFor(nlh.msgtype);
      var ret := Dispatch(h, req);
      if ret == -1 {
        return -ENODATA, nlh;
      }
      req.rvalue := 0;
      var buff := FoSerialize(req);
      if buff.Length == |nlh.payload| {
        reply := nlh.(payload := buff[..]);
      } else {
        reply := PackSkb(nlh, buff[..]);
      }
      return 0, reply;
    }
  }

  /** netlink_pack_skb: a new message that answers `nlh`. */
  function PackSkb(nlh: Nlmsg, buff: seq<byte>): Nlmsg {
    Nlmsg(nlh.pid, nlh.seqNo, nlh.msgtype, false, true, buff)
  }
}
