/** The command and status codes of the binary protocol that more than one module speaks of. */
module Codes {
  const CMD_GET: nat := 0x00
  const CMD_TAP_MUTATION: nat := 0x41
  const CMD_TAP_DELETE: nat := 0x42
  const CMD_DCP_REQUEST_STREAM: nat := 0x53
  const CMD_DCP_END_STREAM: nat := 0x55
  const CMD_DCP_SNAPSHOT_MARKER: nat := 0x56
  const CMD_DCP_MUTATION: nat := 0x57
  const CMD_DCP_DELETE: nat := 0x58
  const CMD_DCP_EXPIRATION: nat := 0x59
  const CMD_DCP_FLUSH: nat := 0x5A
  const CMD_DCP_NOOP: nat := 0x5C
  const CMD_DCP_BUFFER_ACK: nat := 0x5D

  const ERR_SUCCESS: nat := 0x00
  const ERR_KEY_ENOENT: nat := 0x01
  const ERR_KEY_EEXISTS: nat := 0x02
  const ERR_NOT_MY_VBUCKET: nat := 0x07
  const ERR_ERANGE: nat := 0x22
  const ERR_ROLLBACK: nat := 0x23
  const ERR_UNKNOWN_COMMAND: nat := 0x81
  const ERR_ENOMEM: nat := 0x82
  const ERR_EBUSY: nat := 0x85
  const ERR_ETMPFAIL: nat := 0x86
}
