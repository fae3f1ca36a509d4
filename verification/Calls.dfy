/** The caller's side of each operation (kernel/fo_send.c) over a transport that carries
    one request and its reply, and what a process gets to see: the remote device as if
    it were called directly. */
module Calls {
  import opened Bytes
  import opened Codec
  import opened Protocol
  import opened Execution

  /** The remote device and the caller's buffers when fo_send returns. */
  datatype Remote<S> = Remote(state: S, rvalue: int32, args: seq<byte>, data: Option<seq<byte>>)

  /** The request fo_send builds: the return value is preset to failure. */
  function RequestImage(accessId: int32, args: seq<byte>, data: Option<seq<byte>>, dataSize: nat): Image
    requires 0 < |args| < TWO_TO_THE_64 && dataSize < TWO_TO_THE_64
    requires if data.None? then dataSize == 0 else dataSize <= |data.value|
  {
    Image(accessId, -1, |args|, dataSize, Some(args),
          if data.None? then None else Some(data.value[..dataSize]))
  }

  /** A request with an argument structure arrives as it was sent; an empty data buffer
      arrives as NULL. */
  lemma ExactRoundTrip(i: Image)
    requires WellFormed(i) && i.args.Some? && i.size > 0
    ensures Decodable(Encode(i))
    ensures Decode(Encode(i)) == i.(data := if i.dataSize == 0 then None else i.data)
    ensures ArgsPart(Encode(i)) == i.args.value && DataPart(Encode(i)) == BytesOf(i.data)
  {
    EncodedIsDecodable(i);
    assert ArgsPart(Encode(i)) == i.args.value;
    assert DataPart(Encode(i)) == BytesOf(i.data);
  }

  /** The request as the server decodes it: an empty data buffer arrives as NULL. */
  function Arrived(accessId: int32, args: seq<byte>, data: Option<seq<byte>>, dataSize: nat): Image
    requires 0 < |args| < TWO_TO_THE_64 && dataSize < TWO_TO_THE_64
    requires if data.None? then dataSize == 0 else dataSize <= |data.value|
  {
    Image(accessId, -1, |args|, dataSize, Some(args),
          if dataSize == 0 then None else Some(data.value[..dataSize]))
  }

  /** A call the source makes: buffers that exist, structures that are long enough for
      the operation, and for read a buffer of the size that is asked for. */
  predicate Callable(msgtype: int, args: seq<byte>, data: Option<seq<byte>>, dataSize: nat) {
    && IsFileOperation(msgtype)
    && 0 < |args| < TWO_TO_THE_64 && dataSize < TWO_TO_THE_64
    && (if data.None? then dataSize == 0 else dataSize <= |data.value|)
    && Expected(HandlerFor(msgtype), Arrived(0, args, data, dataSize))
    && (HandlerFor(msgtype).Read? ==> data.Some? && SizeAt(args, 8) <= |data.value|)
  }

  /** The request of an operation, on the wire. */
  function Request(msgtype: int, accessId: int32, args: seq<byte>, data: Option<seq<byte>>, dataSize: nat)
    : (r: seq<byte>)
    requires Callable(msgtype, args, data, dataSize)
    ensures Executable(msgtype, r)
  {
    var i := RequestImage(accessId, args, data, dataSize);
    ExactRoundTrip(i);
    Encode(i)
  }

  /** What the handler makes of that request. */
  ghost function Answer<S(!new)>(ops: FileOps<S>, s: S, msgtype: int, accessId: int32,
                                 args: seq<byte>, data: Option<seq<byte>>, dataSize: nat): Handled<S>
    requires WellBehaved(ops) && Callable(msgtype, args, data, dataSize)
  {
    Handle(ops, s, HandlerFor(msgtype), Arrived(accessId, args, data, dataSize))
  }

  /** The reply of every operation fits the buffers of its request. */
  lemma ReplyFits<S(!new)>(ops: FileOps<S>, s: S, msgtype: int, accessId: int32,
                           args: seq<byte>, data: Option<seq<byte>>, dataSize: nat)
    requires WellBehaved(ops) && Callable(msgtype, args, data, dataSize)
    ensures var reply := Execute(ops, s, msgtype, Request(msgtype, accessId, args, data, dataSize)).1;
            Decodable(reply) && Fits(reply, Some(|args|), if data.None? then None else Some(|data.value|))
  {
    ExactRoundTrip(RequestImage(accessId, args, data, dataSize));
    var h := Answer(ops, s, msgtype, accessId, args, data, dataSize);
    if h.reply.Some? {
      ExactRoundTrip(h.reply.value.(rvalue := 0));
    }
  }

  /** fo_send, send to return, with the reply decoded over the caller's buffers. */
  ghost function RemoteCall<S(!new)>(ops: FileOps<S>, s: S, msgtype: int, accessId: int32,
                                     args: seq<byte>, data: Option<seq<byte>>, dataSize: nat): Remote<S>
    requires WellBehaved(ops) && Callable(msgtype, args, data, dataSize)
  {
    ReplyFits(ops, s, msgtype, accessId, args, data, dataSize);
    var (t, reply) := Execute(ops, s, msgtype, Request(msgtype, accessId, args, data, dataSize));
    Remote(t, Rvalue(reply), Splice(args, 0, ArgsPart(reply)),
           if data.None? then None else Some(Splice(data.value, 0, DataPart(reply))))
  }

  /** Reply faithfulness: an operation that is missing or fails gives the caller -1, and
      leaves the argument structure and the data as they were sent, whatever the handler
      wrote into its own copy. */
  lemma FailureEchoes<S(!new)>(ops: FileOps<S>, s: S, msgtype: int, accessId: int32,
                               args: seq<byte>, data: Option<seq<byte>>, dataSize: nat)
    requires WellBehaved(ops) && Callable(msgtype, args, data, dataSize)
    requires Answer(ops, s, msgtype, accessId, args, data, dataSize).reply.None?
    ensures var h := Answer(ops, s, msgtype, accessId, args, data, dataSize);
            RemoteCall(ops, s, msgtype, accessId, args, data, dataSize) == Remote(h.state, -1, args, data)
  {
    var i := RequestImage(accessId, args, data, dataSize);
    ExactRoundTrip(i);
    assert Splice(args, 0, args) == args;
    if data.Some? {
      assert Splice(data.value, 0, data.value[..dataSize]) == data.value;
    }
  }

  /** An operation that succeeds gives 0, the handler's argument structure, and its data
      over the start of the caller's buffer. */
  lemma SuccessDelivers<S(!new)>(ops: FileOps<S>, s: S, msgtype: int, accessId: int32,
                                 args: seq<byte>, data: Option<seq<byte>>, dataSize: nat)
    requires WellBehaved(ops) && Callable(msgtype, args, data, dataSize)
    requires Answer(ops, s, msgtype, accessId, args, data, dataSize).reply.Some?
    ensures var h := Answer(ops, s, msgtype, accessId, args, data, dataSize);
            var r := RemoteCall(ops, s, msgtype, accessId, args, data, dataSize);
            && r.state == h.state && r.rvalue == 0
            && r.args == h.reply.value.args.value
            && (data.Some? ==>
                  && |BytesOf(h.reply.value.data)| <= |data.value|
                  && r.data == Some(Splice(data.value, 0, BytesOf(h.reply.value.data))))
  {
    var i := RequestImage(accessId, args, data, dataSize);
    ExactRoundTrip(i);
    var h := Answer(ops, s, msgtype, accessId, args, data, dataSize);
    ExactRoundTrip(h.reply.value.(rvalue := 0));
    var a := h.reply.value.args.value;
    SpliceWhole(args, a);
  }

  // ----- The argument structures as the caller fills them; every rvalue starts as -EIO

  function LlseekArgs(offset: int64, whence: int32, pad: seq<byte>): (a: seq<byte>)
    requires |pad| == 4
    ensures |a| == LLSEEK_SIZE
    ensures LongAt(a, 0) == offset && IntAt(a, 8) == whence && LongAt(a, 16) == -EIO
  {
    LongRoundTrip(offset);
    IntRoundTrip(whence);
    LongRoundTrip(-EIO);
    var a := LongBytes(offset) + IntBytes(whence) + pad + LongBytes(-EIO);
    assert a[0..8] == LongBytes(offset) && a[8..12] == IntBytes(whence) && a[16..24] == LongBytes(-EIO);
    a
  }

  function RwArgs(pointer: seq<byte>, size: uint64, offset: int64): (a: seq<byte>)
    requires |pointer| == 8
    ensures |a| == RW_SIZE
    ensures SizeAt(a, 8) == size && LongAt(a, 16) == offset && LongAt(a, 24) == -EIO
  {
    SizeRoundTrip(size);
    LongRoundTrip(offset);
    LongRoundTrip(-EIO);
    var a := pointer + SizeBytes(size) + LongBytes(offset) + LongBytes(-EIO);
    assert a[8..16] == SizeBytes(size) && a[16..24] == LongBytes(offset) && a[24..32] == LongBytes(-EIO);
    a
  }

  function IoctlArgs(cmd: uint32, pad: seq<byte>, arg: uint64): (a: seq<byte>)
    requires |pad| == 4
    ensures |a| == IOCTL_SIZE
    ensures ToU32(IntAt(a, 0)) == cmd && SizeAt(a, 8) == arg && LongAt(a, 16) == -EIO
  {
    IntRoundTrip(ToI32(cmd));
    SizeRoundTrip(arg);
    LongRoundTrip(-EIO);
    var a := IntBytes(ToI32(cmd)) + pad + SizeBytes(arg) + LongBytes(-EIO);
    assert a[0..4] == IntBytes(ToI32(cmd)) && a[8..16] == SizeBytes(arg) && a[16..24] == LongBytes(-EIO);
    a
  }

  function OpenArgs(inode: seq<byte>, pad: seq<byte>): (a: seq<byte>)
    requires |inode| == 8 && |pad| == 4
    ensures |a| == OPEN_SIZE
    ensures IntAt(a, 8) == -EIO
  {
    IntRoundTrip(-EIO);
    var a := inode + IntBytes(-EIO) + pad;
    assert a[8..12] == IntBytes(-EIO);
    a
  }

  function StatusArgs(): (a: seq<byte>)
    ensures |a| == STATUS_SIZE
    ensures IntAt(a, 0) == -EIO
  {
    IntRoundTrip(-EIO);
    assert IntBytes(-EIO)[0..4] == IntBytes(-EIO);
    IntBytes(-EIO)
  }

  lemma SpliceWhole(dst: seq<byte>, src: seq<byte>)
    requires |src| == |dst|
    ensures Splice(dst, 0, src) == src
  {
  }

  lemma WrittenLong(args: seq<byte>, at: nat, v: int64)
    requires at + 8 <= |args|
    ensures LongAt(Splice(args, at, LongBytes(v)), at) == v
  {
    LongRoundTrip(v);
    assert Splice(args, at, LongBytes(v))[at..at + 8] == LongBytes(v);
  }

  lemma WrittenInt(args: seq<byte>, at: nat, v: int32)
    requires at + 4 <= |args|
    ensures IntAt(Splice(args, at, IntBytes(v)), at) == v
  {
    IntRoundTrip(v);
    assert Splice(args, at, IntBytes(v))[at..at + 4] == IntBytes(v);
  }

  lemma WrittenLongs(args: seq<byte>, at: nat, v: int64, w: int64)
    requires at + 16 <= |args|
    ensures LongAt(Splice(args, at, LongBytes(v) + LongBytes(w)), at) == v
    ensures LongAt(Splice(args, at, LongBytes(v) + LongBytes(w)), at + 8) == w
  {
    LongRoundTrip(v);
    LongRoundTrip(w);
    var r := Splice(args, at, LongBytes(v) + LongBytes(w));
    assert r[at..at + 8] == LongBytes(v) && r[at + 8..at + 16] == LongBytes(w);
  }

  // ----- Each operation, called remotely

  /** llseek through the proxies is llseek on the device, or -1 if it has none. */
  lemma LlseekTransparent<S(!new)>(ops: FileOps<S>, s: S, accessId: int32, offset: int64, whence: int32, pad: seq<byte>)
    requires WellBehaved(ops) && |pad| == 4
    ensures Callable(MSGT_FO_LLSEEK, LlseekArgs(offset, whence, pad), None, 0)
    ensures var r := RemoteCall(ops, s, MSGT_FO_LLSEEK, accessId, LlseekArgs(offset, whence, pad), None, 0);
            if ops.llseek.None? then r.rvalue == -1 && r.state == s
            else r.rvalue == 0 && (r.state, LongAt(r.args, 16)) == ops.llseek.value(s, offset, whence)
  {
    var args := LlseekArgs(offset, whence, pad);
    if ops.llseek.None? {
      FailureEchoes(ops, s, MSGT_FO_LLSEEK, accessId, args, None, 0);
    } else {
      SuccessDelivers(ops, s, MSGT_FO_LLSEEK, accessId, args, None, 0);
      WrittenLong(args, 16, ops.llseek.value(s, offset, whence).1);
    }
  }

  lemma CompatIoctlTransparent<S(!new)>(ops: FileOps<S>, s: S, accessId: int32,
                                        cmd: uint32, arg: uint64, pad: seq<byte>)
    requires WellBehaved(ops) && |pad| == 4
    ensures Callable(MSGT_FO_COMPAT_IOCTL, IoctlArgs(cmd, pad, arg), None, 0)
    ensures var r := RemoteCall(ops, s, MSGT_FO_COMPAT_IOCTL, accessId, IoctlArgs(cmd, pad, arg), None, 0);
            r.rvalue == 0 && (r.state, LongAt(r.args, 16)) == ops.compatIoctl(s, cmd, arg)
  {
    var args := IoctlArgs(cmd, pad, arg);
    SuccessDelivers(ops, s, MSGT_FO_COMPAT_IOCTL, accessId, args, None, 0);
    WrittenLong(args, 16, ops.compatIoctl(s, cmd, arg).1);
  }

  /** unlocked_ioctl is performed on the device, but its handler always reports failure:
      the caller gets -1 and its structure back. */
  lemma UnlockedIoctlPerformedButFails<S(!new)>(ops: FileOps<S>, s: S, accessId: int32,
                                                cmd: uint32, arg: uint64, pad: seq<byte>)
    requires WellBehaved(ops) && |pad| == 4
    ensures Callable(MSGT_FO_UNLOCKED_IOCTL, IoctlArgs(cmd, pad, arg), None, 0)
    ensures var args := IoctlArgs(cmd, pad, arg);
            RemoteCall(ops, s, MSGT_FO_UNLOCKED_IOCTL, accessId, args, None, 0)
            == Remote(ops.unlockedIoctl(s, cmd, arg).0, -1, args, None)
  {
    var args := IoctlArgs(cmd, pad, arg);
    FailureEchoes(ops, s, MSGT_FO_UNLOCKED_IOCTL, accessId, args, None, 0);
  }

  /** read, for any argument structure that asks for as much as the buffer holds: device
      state, result, new offset, and the bytes in the kernel buffer. */
  lemma ReadTransparent<S(!new)>(ops: FileOps<S>, s: S, accessId: int32, args: seq<byte>, buffer: seq<byte>)
    requires WellBehaved(ops) && |args| == RW_SIZE && SizeAt(args, 8) == |buffer|
    ensures Callable(MSGT_FO_READ, args, Some(buffer), 0)
    ensures var r := RemoteCall(ops, s, MSGT_FO_READ, accessId, args, Some(buffer), 0);
            var d := ops.read(s, |buffer|, LongAt(args, 16));
            && r.rvalue == 0 && r.state == d.state && |r.args| == RW_SIZE
            && LongAt(r.args, 16) == d.offset && LongAt(r.args, 24) == d.ret
            && |d.bytes| <= |buffer| && r.data == Some(Padded(d.bytes, |buffer|))
  {
    var d := ops.read(s, |buffer|, LongAt(args, 16));
    var h := Answer(ops, s, MSGT_FO_READ, accessId, args, Some(buffer), 0);
    var args' := Splice(args, 16, LongBytes(d.offset) + LongBytes(d.ret));
    assert h.reply.Some? && h.state == d.state && h.reply.value.args == Some(args');
    assert h.reply.value.data == Some(Padded(d.bytes, |buffer|));
    SuccessDelivers(ops, s, MSGT_FO_READ, accessId, args, Some(buffer), 0);
    WrittenLongs(args, 16, d.offset, d.ret);
    SpliceWhole(buffer, Padded(d.bytes, |buffer|));
  }

  /** write: device state and result; the device's new offset comes back too. */
  lemma WriteTransparent<S(!new)>(ops: FileOps<S>, s: S, accessId: int32, args: seq<byte>, bytes: seq<byte>)
    requires WellBehaved(ops) && |args| == RW_SIZE && SizeAt(args, 8) == |bytes|
    ensures Callable(MSGT_FO_WRITE, args, Some(bytes), |bytes|)
    ensures var r := RemoteCall(ops, s, MSGT_FO_WRITE, accessId, args, Some(bytes), |bytes|);
            && r.rvalue == 0 && |r.args| == RW_SIZE
            && (r.state, LongAt(r.args, 24), LongAt(r.args, 16)) == ops.write(s, bytes, LongAt(args, 16))
  {
    assert bytes[..|bytes|] == bytes;
    SuccessDelivers(ops, s, MSGT_FO_WRITE, accessId, args, Some(bytes), |bytes|);
    var (t, ret, offset') := ops.write(s, bytes, LongAt(args, 16));
    WrittenLongs(args, 16, offset', ret);
  }

  /** open: the device is opened, or the caller gets -1 and the device stays as it was. */
  lemma OpenTransparent<S(!new)>(ops: FileOps<S>, s: S, accessId: int32, args: seq<byte>)
    requires WellBehaved(ops) && |args| == OPEN_SIZE
    ensures Callable(MSGT_FO_OPEN, args, None, 0)
    ensures var r := RemoteCall(ops, s, MSGT_FO_OPEN, accessId, args, None, 0);
            match ops.open(s)
            case None => r == Remote(s, -1, args, None)
            case Some(t) => r.rvalue == 0 && r.state == t && |r.args| == OPEN_SIZE && IntAt(r.args, 8) == 0
  {
    if ops.open(s).None? {
      FailureEchoes(ops, s, MSGT_FO_OPEN, accessId, args, None, 0);
    } else {
      SuccessDelivers(ops, s, MSGT_FO_OPEN, accessId, args, None, 0);
      WrittenInt(args, 8, 0);
    }
  }

  /** flush: state and result of the device, or -1 if it has none. */
  lemma FlushTransparent<S(!new)>(ops: FileOps<S>, s: S, accessId: int32, args: seq<byte>)
    requires WellBehaved(ops) && |args| == STATUS_SIZE
    ensures Callable(MSGT_FO_FLUSH, args, None, 0)
    ensures var r := RemoteCall(ops, s, MSGT_FO_FLUSH, accessId, args, None, 0);
            if ops.flush.None? then r == Remote(s, -1, args, None)
            else r.rvalue == 0 && |r.args| == STATUS_SIZE && (r.state, IntAt(r.args, 0)) == ops.flush.value(s)
  {
    if ops.flush.None? {
      FailureEchoes(ops, s, MSGT_FO_FLUSH, accessId, args, None, 0);
    } else {
      SuccessDelivers(ops, s, MSGT_FO_FLUSH, accessId, args, None, 0);
      WrittenInt(args, 0, ops.flush.value(s).1);
    }
  }

  /** release: state and result of closing the device. */
  lemma ReleaseTransparent<S(!new)>(ops: FileOps<S>, s: S, accessId: int32, args: seq<byte>)
    requires WellBehaved(ops) && |args| == STATUS_SIZE
    ensures Callable(MSGT_FO_RELEASE, args, None, 0)
    ensures var r := RemoteCall(ops, s, MSGT_FO_RELEASE, accessId, args, None, 0);
            r.rvalue == 0 && |r.args| == STATUS_SIZE && (r.state, IntAt(r.args, 0)) == ops.release(s)
  {
    SuccessDelivers(ops, s, MSGT_FO_RELEASE, accessId, args, None, 0);
    WrittenInt(args, 0, ops.release(s).1);
  }

  /** The operations that reach the device. */
  const PERFORMED: set<int> := {
    MSGT_FO_LLSEEK, MSGT_FO_READ, MSGT_FO_WRITE, MSGT_FO_UNLOCKED_IOCTL, MSGT_FO_COMPAT_IOCTL,
    MSGT_FO_OPEN, MSGT_FO_FLUSH, MSGT_FO_RELEASE
  }

  /** Every other operation leaves the device alone and gives the caller -1, with its
      arguments and data as they were. */
  lemma OthersFail<S(!new)>(ops: FileOps<S>, s: S, msgtype: int, accessId: int32,
                            args: seq<byte>, data: Option<seq<byte>>, dataSize: nat)
    requires WellBehaved(ops) && Callable(msgtype, args, data, dataSize) && msgtype !in PERFORMED
    ensures RemoteCall(ops, s, msgtype, accessId, args, data, dataSize) == Remote(s, -1, args, data)
  {
    assert HandlerFor(msgtype).Missing? || HandlerFor(msgtype).Failing?;
    FailureEchoes(ops, s, msgtype, accessId, args, data, dataSize);
  }

  // ----- The caller's functions

  ghost function Buffer(data: array?<byte>): Option<seq<byte>>
    reads data
  {
    if data == null then None else Some(data[..])
  }

  /** fo_send, with what happens between sending and completion done in one go: the
      remote kernel executes the message, and the reply is decoded into the request. A
      device that is not active refuses. */
  method FoSend<S(!new)>(remote: OpenFile<S>, msgtype: int, accessId: int32,
                         args: array<byte>, data: array?<byte>, dataSize: uint64,
                         active: bool, pid: int, seqNo: uint32) returns (rvalue: int32)
    requires args != data
    requires WellBehaved(remote.ops) && Callable(msgtype, args[..], Buffer(data), dataSize)
    modifies remote, args, data
    ensures !active ==> rvalue == -EBUSY && unchanged(remote)
    ensures !active ==> args[..] == old(args[..]) && Buffer(data) == old(Buffer(data))
    ensures active ==>
              var r := RemoteCall(remote.ops, old(remote.state), msgtype, accessId,
                                  old(args[..]), old(Buffer(data)), dataSize);
              Remote(remote.state, rvalue, args[..], Buffer(data)) == r
  {
    if !active {
      return -EBUSY;
    }
    var req := new FoReq(msgtype, accessId, -1, args, args.Length, data, dataSize, seqNo);
    assert args[..args.Length] == args[..];
    assert req.View() == RequestImage(accessId, args[..], Buffer(data), dataSize);
    ReplyFits(remote.ops, remote.state, msgtype, accessId, args[..], Buffer(data), dataSize);
    var buff := FoSerialize(req);
    var _, reply := remote.FoExecute(Nlmsg(pid, seqNo, msgtype, true, true, buff[..]));
    FoDeserializeToReq(req, reply.payload);
    rvalue := req.rvalue;
  }

  method SendLlseek<S(!new)>(remote: OpenFile<S>, accessId: int32, offset: int64, whence: int32,
                             pad: seq<byte>, active: bool, pid: int, seqNo: uint32) returns (ret: int64)
    requires WellBehaved(remote.ops) && |pad| == 4
    modifies remote
    ensures !active ==> ret == -EBUSY && unchanged(remote)
    ensures active ==>
            if remote.ops.llseek.None? then ret == -1 && remote.state == old(remote.state)
            else (remote.state, ret) == remote.ops.llseek.value(old(remote.state), offset, whence)
  {
    var args := NewBuffer(LlseekArgs(offset, whence, pad));
    LlseekTransparent(remote.ops, remote.state, accessId, offset, whence, pad);
    var rvalue := FoSend(remote, MSGT_FO_LLSEEK, accessId, args, null, 0, active, pid, seqNo);
    if rvalue < 0 {
      return rvalue;
    }
    ret := LongAt(args[..], 16);
  }

  /** open: a failure of the device shows as -1, and as -EBUSY if the dummy is not active. */
  method SendOpen<S(!new)>(remote: OpenFile<S>, accessId: int32, inode: seq<byte>, pad: seq<byte>,
                           active: bool, pid: int, seqNo: uint32) returns (ret: int)
    requires WellBehaved(remote.ops) && |inode| == 8 && |pad| == 4
    modifies remote
    ensures !active ==> ret == -EBUSY && unchanged(remote)
    ensures active ==>
              match remote.ops.open(old(remote.state))
              case None => ret == -1 && remote.state == old(remote.state)
              case Some(t) => ret == 0 && remote.state == t
  {
    var args := NewBuffer(OpenArgs(inode, pad));
    OpenTransparent(remote.ops, remote.state, accessId, OpenArgs(inode, pad));
    var rvalue := FoSend(remote, MSGT_FO_OPEN, accessId, args, null, 0, active, pid, seqNo);
    if rvalue < 0 {
      return rvalue;
    }
    ret := IntAt(args[..], 8);
  }

  method SendFlush<S(!new)>(remote: OpenFile<S>, accessId: int32,
                            active: bool, pid: int, seqNo: uint32) returns (ret: int)
    requires WellBehaved(remote.ops)
    modifies remote
    ensures !active ==> ret == -EBUSY && unchanged(remote)
    ensures active ==>
              if remote.ops.flush.None? then ret == -1 && remote.state == old(remote.state)
              else (remote.state, ret) == remote.ops.flush.value(old(remote.state))
  {
    var args := NewBuffer(StatusArgs());
    FlushTransparent(remote.ops, remote.state, accessId, StatusArgs());
    var rvalue := FoSend(remote, MSGT_FO_FLUSH, accessId, args, null, 0, active, pid, seqNo);
    if rvalue < 0 {
      return rvalue;
    }
    ret := IntAt(args[..], 0);
  }

  method SendRelease<S(!new)>(remote: OpenFile<S>, accessId: int32,
                              active: bool, pid: int, seqNo: uint32) returns (ret: int)
    requires WellBehaved(remote.ops)
    modifies remote
    ensures !active ==> ret == -EBUSY && unchanged(remote)
    ensures active ==> (remote.state, ret) == remote.ops.release(old(remote.state))
  {
    var args := NewBuffer(StatusArgs());
    ReleaseTransparent(remote.ops, remote.state, accessId, StatusArgs());
    var rvalue := FoSend(remote, MSGT_FO_RELEASE, accessId, args, null, 0, active, pid, seqNo);
    if rvalue < 0 {
      return rvalue;
    }
    ret := IntAt(args[..], 0);
  }

  method SendCompatIoctl<S(!new)>(remote: OpenFile<S>, accessId: int32, cmd: uint32, arg: uint64,
                                  pad: seq<byte>, active: bool, pid: int, seqNo: uint32) returns (ret: int64)
    requires WellBehaved(remote.ops) && |pad| == 4
    modifies remote
    ensures !active ==> ret == -EBUSY && unchanged(remote)
    ensures active ==> (remote.state, ret) == remote.ops.compatIoctl(old(remote.state), cmd, arg)
  {
    var args := NewBuffer(IoctlArgs(cmd, pad, arg));
    CompatIoctlTransparent(remote.ops, remote.state, accessId, cmd, arg, pad);
    var rvalue := FoSend(remote, MSGT_FO_COMPAT_IOCTL, accessId, args, null, 0, active, pid, seqNo);
    if rvalue < 0 {
      return rvalue;
    }
    ret := LongAt(args[..], 16);
  }

  method SendUnlockedIoctl<S(!new)>(remote: OpenFile<S>, accessId: int32, cmd: uint32, arg: uint64,
                                    pad: seq<byte>, active: bool, pid: int, seqNo: uint32) returns (ret: int64)
    requires WellBehaved(remote.ops) && |pad| == 4
    modifies remote
    ensures !active ==> ret == -EBUSY && unchanged(remote)
    ensures active ==> remote.state == remote.ops.unlockedIoctl(old(remote.state), cmd, arg).0 && ret == -1
  {
    var args := NewBuffer(IoctlArgs(cmd, pad, arg));
    UnlockedIoctlPerformedButFails(remote.ops, remote.state, accessId, cmd, arg, pad);
    var rvalue := FoSend(remote, MSGT_FO_UNLOCKED_IOCTL, accessId, args, null, 0, active, pid, seqNo);
    if rvalue >= 0 {
      assert false;
    }
    ret := rvalue;
  }

  /** copy_to_user: copies as much as the process has memory for, and returns how many bytes
      were not copied. A negative count is huge as unsigned: nothing is copied, and what is
      left is the same negative number again when the caller holds it in a signed one. */
  method CopyToUser(user: array<byte>, src: seq<byte>, n: int64, mapped: nat) returns (left: int64)
    requires n <= user.Length && n <= |src|
    modifies user
    ensures left == if n <= mapped then (if n < 0 then n else 0) else n - mapped
    ensures user[..] == if n < 0 then old(user[..]) else Splice(old(user[..]), 0, src[..Min(n, mapped)])
  {
    if n < 0 {
      return n;
    }
    var count := Min(n, mapped);
    CopyInto(user, 0, src[..count]);
    left := n - count;
  }

  method NewBuffer(src: seq<byte>) returns (buff: array<byte>)
    ensures fresh(buff) && buff[..] == src
  {
    buff := new byte[|src|](_ => 0);
    CopyInto(buff, 0, src);
  }

  /** read of the dummy device: state, result, offset and bytes are the device's own, for
      negative results too, since the residue of copy_to_user is negative then. Only if the
      process has less memory than was read does it get -1. */
  method SendRead<S(!new)>(remote: OpenFile<S>, accessId: int32, user: array<byte>, mapped: nat,
                           size: uint64, offset: int64, pointer: seq<byte>, active: bool, pid: int, seqNo: uint32)
    returns (ret: int64, offset': int64)
    requires WellBehaved(remote.ops) && size <= user.Length && |pointer| == 8
    modifies remote, user
    ensures size >= NETDEV_MESSAGE_LIMIT ==>
              ret == -EINVAL && offset' == offset && unchanged(remote) && unchanged(user)
    ensures size < NETDEV_MESSAGE_LIMIT && !active ==>
              ret == -EBUSY && offset' == offset && unchanged(remote) && unchanged(user)
    ensures size < NETDEV_MESSAGE_LIMIT && active ==>
              var d := remote.ops.read(old(remote.state), size, offset);
              && remote.state == d.state && offset' == d.offset
              && ret == (if d.ret <= mapped then d.ret else -1)
              && |d.bytes| <= user.Length
              && user[..] == if d.ret < 0 then old(user[..])
                             else Splice(old(user[..]), 0, d.bytes[..Min(d.ret, mapped)])
  {
    offset' := offset;
    if size >= NETDEV_MESSAGE_LIMIT {
      return -EINVAL, offset;
    }
    var init := RwArgs(pointer, size, offset);
    var args := NewBuffer(init);
    var data := NewBuffer(Zeros(size));
    assert args[..] == init && Buffer(data) == Some(Zeros(size));
    ghost var d := remote.ops.read(remote.state, size, offset);
    ReadTransparent(remote.ops, remote.state, accessId, init, Zeros(size));
    var rvalue := FoSend(remote, MSGT_FO_READ, accessId, args, data, 0, active, pid, seqNo);
    if rvalue < 0 {
      return rvalue, offset;
    }
    offset' := LongAt(args[..], 16);
    ret := LongAt(args[..], 24);
    PaddedPrefix(d.bytes, size, Min(ret, mapped));
    var left := CopyToUser(user, data[..], ret, mapped);
    if left > 0 {
      ret := -1;
    }
  }

  lemma PaddedPrefix(bytes: seq<byte>, size: nat, n: int)
    requires |bytes| <= size
    ensures 0 <= n <= |bytes| ==> Padded(bytes, size)[..n] == bytes[..n]
  {
  }

  /** write of the dummy device: result and device state are the device's own, but the
      caller's offset stays where it was. A refused call shows as -EIO, and so does one whose
      bytes the process has no memory for. */
  method SendWrite<S(!new)>(remote: OpenFile<S>, accessId: int32, user: seq<byte>, mapped: nat, offset: int64,
                            pointer: seq<byte>, active: bool, pid: int, seqNo: uint32)
    returns (ret: int64, offset': int64)
    requires WellBehaved(remote.ops) && |user| < TWO_TO_THE_64 && |pointer| == 8
    modifies remote
    ensures |user| >= NETDEV_MESSAGE_LIMIT ==> ret == -EINVAL && unchanged(remote)
    ensures |user| < NETDEV_MESSAGE_LIMIT && (!active || mapped < |user|) ==> ret == -EIO && unchanged(remote)
    ensures |user| < NETDEV_MESSAGE_LIMIT && active && |user| <= mapped ==>
              var d := remote.ops.write(old(remote.state), user, offset);
              remote.state == d.0 && ret == d.1
    ensures offset' == offset
  {
    offset' := offset;
    if |user| >= NETDEV_MESSAGE_LIMIT {
      return -EINVAL, offset;
    }
    var init := RwArgs(pointer, |user|, offset);
    var args := NewBuffer(init);
    offset' := LongAt(init, 16);
    if mapped < |user| {
      return -EIO, offset';
    }
    var data := NewBuffer(user);
    assert args[..] == init && Buffer(data) == Some(user);
    WriteTransparent(remote.ops, remote.state, accessId, init, user);
    // the result is held in a size_t, so the test for a negative one never succeeds
    var _ := FoSend(remote, MSGT_FO_WRITE, accessId, args, data, |user|, active, pid, seqNo);
    ret := LongAt(args[..], 24);
  }
}
