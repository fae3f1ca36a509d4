/** The payload of a file-operation message (kernel/fo_comm.c:248-394): access id,
    return value, size of the argument structure, size of the data, then both. */
module Codec {
  import opened Bytes

  const HEADER: nat := 24

  /** What a request holds, with the bytes its two pointers designate. */
  datatype Image = Image(
    accessId: int32,
    rvalue: int32,
    size: uint64,
    dataSize: uint64,
    args: Option<seq<byte>>,
    data: Option<seq<byte>>)

  function BytesOf(o: Option<seq<byte>>): seq<byte> {
    if o.Some? then o.value else []
  }

  /** The lengths agree with the pointers, and there is data where data will be read. */
  predicate WellFormed(i: Image) {
    && (i.args.Some? ==> |i.args.value| == i.size)
    && (i.data.Some? ==> |i.data.value| == i.dataSize)
    && (i.args.Some? && i.dataSize > 0 ==> i.data.Some?)
  }

  function Header(i: Image): (bs: seq<byte>)
    ensures |bs| == HEADER
  {
    IntBytes(i.accessId) + IntBytes(i.rvalue) + SizeBytes(i.size) + SizeBytes(i.dataSize)
  }

  /** With no argument structure the buffer keeps its full length, but stays zero. */
  function Encode(i: Image): (bs: seq<byte>)
    requires WellFormed(i)
    ensures |bs| == HEADER + i.size + i.dataSize
  {
    if i.args.None? then Header(i) + Zeros(i.size + i.dataSize)
    else Header(i) + i.args.value + BytesOf(i.data)
  }

  function AccessId(bs: seq<byte>): int32
    requires HEADER <= |bs|
  {
    ReadInt(bs[0..4])
  }

  function Rvalue(bs: seq<byte>): int32
    requires HEADER <= |bs|
  {
    ReadInt(bs[4..8])
  }

  function ArgsSize(bs: seq<byte>): uint64
    requires HEADER <= |bs|
  {
    ReadSize(bs[8..16])
  }

  function DataSize(bs: seq<byte>): uint64
    requires HEADER <= |bs|
  {
    ReadSize(bs[16..24])
  }

  /** The decoder does not check lengths: the bytes the header announces have to be there. */
  predicate Decodable(bs: seq<byte>) {
    && HEADER <= |bs|
    && (ArgsSize(bs) > 0 ==> HEADER + ArgsSize(bs) + DataSize(bs) <= |bs|)
  }

  /** What the decoder copies out: nothing after an empty argument structure. */
  function ArgsPart(bs: seq<byte>): (r: seq<byte>)
    requires Decodable(bs)
    ensures |r| == ArgsSize(bs)
  {
    bs[HEADER..HEADER + ArgsSize(bs)]
  }

  function DataPart(bs: seq<byte>): (r: seq<byte>)
    requires Decodable(bs)
    ensures |r| == if ArgsSize(bs) == 0 then 0 else DataSize(bs)
  {
    if ArgsSize(bs) == 0 then []
    else bs[HEADER + ArgsSize(bs)..HEADER + ArgsSize(bs) + DataSize(bs)]
  }

  /** fo_deserialize: the result on a request whose pointers are both NULL. */
  function Decode(bs: seq<byte>): Image
    requires Decodable(bs)
  {
    Image(AccessId(bs), Rvalue(bs), ArgsSize(bs), DataSize(bs),
          if ArgsSize(bs) == 0 then None else Some(ArgsPart(bs)),
          if ArgsSize(bs) == 0 || DataSize(bs) == 0 then None else Some(DataPart(bs)))
  }

  lemma HeaderRoundTrip(i: Image, rest: seq<byte>)
    ensures AccessId(Header(i) + rest) == i.accessId
    ensures Rvalue(Header(i) + rest) == i.rvalue
    ensures ArgsSize(Header(i) + rest) == i.size
    ensures DataSize(Header(i) + rest) == i.dataSize
  {
    var bs := Header(i) + rest;
    assert bs[0..4] == IntBytes(i.accessId);
    assert bs[4..8] == IntBytes(i.rvalue);
    assert bs[8..16] == SizeBytes(i.size);
    assert bs[16..24] == SizeBytes(i.dataSize);
    IntRoundTrip(i.accessId);
    IntRoundTrip(i.rvalue);
    SizeRoundTrip(i.size);
    SizeRoundTrip(i.dataSize);
  }

  /** Whatever is encoded can be decoded, and the header fields always arrive. */
  lemma EncodedIsDecodable(i: Image)
    requires WellFormed(i)
    ensures Decodable(Encode(i))
    ensures var d := Decode(Encode(i));
            d.accessId == i.accessId && d.rvalue == i.rvalue && d.size == i.size && d.dataSize == i.dataSize
  {
    HeaderRoundTrip(i, Encode(i)[HEADER..]);
    assert Encode(i) == Header(i) + Encode(i)[HEADER..];
  }

  /** The requests whose content the format can carry. */
  predicate Carried(i: Image) {
    if i.size == 0 then BytesOf(i.data) == [] else i.args.Some?
  }

  /** Round trip: the argument structure and the data arrive exactly when the argument
      structure is present and not empty, or there is nothing to carry at all. */
  lemma RoundTrip(i: Image)
    requires WellFormed(i)
    ensures Decodable(Encode(i))
    ensures && BytesOf(Decode(Encode(i)).args) == BytesOf(i.args)
            && BytesOf(Decode(Encode(i)).data) == BytesOf(i.data)
            <==> Carried(i)
  {
    EncodedIsDecodable(i);
    var bs := Encode(i);
    if i.size > 0 && i.args.Some? {
      assert ArgsPart(bs) == i.args.value;
      assert DataPart(bs) == BytesOf(i.data);
    }
  }

  /** A reply that is decoded fits the buffers the caller allocated for the request. */
  predicate Fits(bs: seq<byte>, argsLength: Option<nat>, dataLength: Option<nat>)
    requires Decodable(bs)
  {
    && (argsLength.Some? ==> ArgsSize(bs) <= argsLength.value)
    && (dataLength.Some? && ArgsSize(bs) > 0 ==> DataSize(bs) <= dataLength.value)
  }

  /** A file-operation request. `args` and `data` are the pointers of the C structure:
      they can be NULL, and a buffer can be longer than the size sent with it. `done`
      counts the complete() calls on the request. */
  class FoReq {
    var seqNo: int
    var msgtype: int
    var accessId: int32
    var args: array?<byte>
    var data: array?<byte>
    var size: uint64
    var dataSize: uint64
    var rvalue: int32
    var done: nat

    constructor (msgtype: int, accessId: int32, rvalue: int32,
                 args: array?<byte>, size: uint64, data: array?<byte>, dataSize: uint64,
                 placeholder: int)
      ensures this.msgtype == msgtype && this.accessId == accessId && this.rvalue == rvalue
      ensures this.args == args && this.size == size && this.data == data && this.dataSize == dataSize
      ensures seqNo == placeholder && done == 0
    {
      this.msgtype, this.accessId, this.rvalue := msgtype, accessId, rvalue;
      this.args, this.size, this.data, this.dataSize := args, size, data, dataSize;
      seqNo, done := placeholder, 0;
    }

    /** The sizes stay inside the buffers, and data that will be read has a buffer. */
    ghost predicate Valid()
      reads this
    {
      && (args != null ==> size <= args.Length)
      && (data != null ==> dataSize <= data.Length)
      && (args != null && dataSize > 0 ==> data != null)
      && (args != null ==> args != data)
    }

    ghost function View(): Image
      requires Valid()
      reads this, args, data
      ensures WellFormed(View())
    {
      Image(accessId, rvalue, size, dataSize,
            if args == null then None else Some(args[..size]),
            if data == null then None else Some(data[..dataSize]))
    }
  }

  /** One memcpy of the serializer: the part already filled grows by `src`. */
  method Append(buff: array<byte>, at: nat, src: seq<byte>, ghost filled: seq<byte>)
    requires at == |filled| && at + |src| <= buff.Length
    requires buff[..] == filled + Zeros(buff.Length - at)
    modifies buff
    ensures buff[..] == filled + src + Zeros(buff.Length - at - |src|)
  {
    CopyInto(buff, at, src);
  }

  /** fo_serialize: a zeroed buffer of the computed length, filled at an advancing offset. */
  method FoSerialize(req: FoReq) returns (buff: array<byte>)
    requires req.Valid()
    ensures fresh(buff)
    ensures buff[..] == Encode(req.View())
  {
    var accessId, rvalue := IntBytes(req.accessId), IntBytes(req.rvalue);
    var size, dataSize := SizeBytes(req.size), SizeBytes(req.dataSize);
    buff := new byte[HEADER + req.size + req.dataSize](_ => 0);
    Append(buff, 0, accessId, []);
    var at := |accessId|;
    Append(buff, at, rvalue, accessId);
    at := at + |rvalue|;
    Append(buff, at, size, accessId + rvalue);
    at := at + |size|;
    Append(buff, at, dataSize, accessId + rvalue + size);
    at := at + |dataSize|;
    if req.args == null {
      return;
    }
    ghost var header := accessId + rvalue + size + dataSize;
    var args := req.args[..req.size];
    Append(buff, at, args, header);
    at := at + req.size;
    if req.dataSize == 0 {
      return;
    }
    Append(buff, at, req.data[..req.dataSize], header + args);
  }

  /** The buffer to decode into: the one at hand, or a new one of the right size. */
  method Receive(buff: array?<byte>, src: seq<byte>) returns (r: array<byte>)
    requires buff != null ==> |src| <= buff.Length
    requires src != []
    modifies buff
    ensures FilledFrom(buff, r, src)
  {
    if buff == null {
      r := new byte[|src|](_ => 0);
    } else {
      r := buff;
    }
    CopyInto(r, 0, src);
  }

  /** A pointer after decoding: bytes go over the start of the buffer it designated, or
      into a new buffer of their length; nothing is allocated for no bytes. */
  twostate predicate FilledFrom(was: array?<byte>, new now: array?<byte>, src: seq<byte>)
    reads now
  {
    if was != null then
      now == was && |src| <= now.Length && now[..] == Splice(old(was[..]), 0, src)
    else if src == [] then now == null
    else now != null && fresh(now) && now[..] == src
  }

  /** fo_deserialize_toreq: decode into the request the caller is waiting on, reusing
      its buffers when it has them. */
  method FoDeserializeToReq(req: FoReq, payload: seq<byte>)
    requires Decodable(payload)
    requires req.args != null ==> req.args != req.data
    requires Fits(payload, if req.args == null then None else Some(req.args.Length),
                  if req.data == null then None else Some(req.data.Length))
    modifies req, req.args, req.data
    ensures req.accessId == AccessId(payload) && req.rvalue == Rvalue(payload)
    ensures req.size == ArgsSize(payload) && req.dataSize == DataSize(payload)
    ensures req.seqNo == old(req.seqNo) && req.msgtype == old(req.msgtype) && req.done == old(req.done)
    ensures FilledFrom(old(req.args), req.args, ArgsPart(payload))
    ensures FilledFrom(old(req.data), req.data, DataPart(payload))
    ensures req.args != null ==> req.args != req.data
  {
    req.accessId := AccessId(payload);
    req.rvalue := Rvalue(payload);
    req.size := ArgsSize(payload);
    req.dataSize := DataSize(payload);
    if req.size == 0 {
      return;
    }
    ReceiveBoth(req, payload[HEADER..HEADER + req.size],
                payload[HEADER + req.size..HEADER + req.size + req.dataSize]);
  }

  /** The argument structure, and then the data if there is any. */
  method ReceiveBoth(req: FoReq, args: seq<byte>, data: seq<byte>)
    requires args != [] && (req.args != null ==> req.args != req.data)
    requires req.args != null ==> |args| <= req.args.Length
    requires req.data != null ==> |data| <= req.data.Length
    modifies req`args, req`data, req.args, req.data
    ensures FilledFrom(old(req.args), req.args, args)
    ensures FilledFrom(old(req.data), req.data, data)
    ensures req.args != null ==> req.args != req.data
  {
    req.args := Receive(req.args, args);
    if data != [] {
      req.data := Receive(req.data, data);
    } else {
      assert req.data != null ==> req.data[..] == Splice(req.data[..], 0, data);
    }
  }

  /** fo_deserialize: the same decoding on a request whose pointers are both NULL. */
  method FoDeserialize(payload: seq<byte>) returns (req: FoReq)
    requires Decodable(payload)
    ensures fresh(req) && req.done == 0
    ensures req.args != null ==> fresh(req.args)
    ensures req.data != null ==> fresh(req.data)
    ensures req.args != null ==> req.args.Length == req.size
    ensures req.data != null ==> req.data.Length == req.dataSize
    ensures req.Valid() && req.View() == Decode(payload)
  {
    req := new FoReq(0, 0, 0, null, 0, null, 0, 0);
    FoDeserializeToReq(req, payload);
    assert req.args != null ==> req.args[..req.size] == req.args[..];
    assert req.data != null ==> req.data[..req.dataSize] == req.data[..];
  }
}
