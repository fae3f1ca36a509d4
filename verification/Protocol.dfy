/** Constants and messages shared by the two kernels and the two proxies
    (include/protocol.h, linux/netlink.h). */
module Protocol {
  import opened Bytes

  const NETDEV_PROTOCOL_SUCCESS: int := 0
  const NETDEV_MESSAGE_LIMIT: int := 213000
  const NETDEV_MAX_DEVICES: nat := 32

  const MSGT_CONTROL_VERSION: int := 4
  const MSGT_CONTROL_REG_SERVER: int := 6

  const MSGT_FO_START: int := 100
  const MSGT_FO_LLSEEK: int := 101
  const MSGT_FO_READ: int := 102
  const MSGT_FO_WRITE: int := 103
  const MSGT_FO_UNLOCKED_IOCTL: int := 108
  const MSGT_FO_COMPAT_IOCTL: int := 109
  const MSGT_FO_OPEN: int := 111
  const MSGT_FO_FLUSH: int := 112
  const MSGT_FO_RELEASE: int := 113
  const MSGT_FO_END: int := 127

  const EIO: int := 5
  const EBUSY: int := 16
  const EINVAL: int := 22
  const ENODATA: int := 61

  predicate IsFileOperation(msgtype: int) {
    MSGT_FO_START < msgtype < MSGT_FO_END
  }

  /** A netlink message: the header of section 2.3.2 of RFC 3549 and its payload. Of the
      flags only NLM_F_REQUEST and NLM_F_ACK are used. */
  datatype Nlmsg = Nlmsg(pid: int, seqNo: uint32, msgtype: int, request: bool, ack: bool, payload: seq<byte>)
}
