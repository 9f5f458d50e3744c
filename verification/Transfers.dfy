/** What the sources hand over and the sinks take. */
module Transfers {
  import opened Codes
  import opened Batches
  import Backup
  import ClusterSink
  import Dcp
  import DcpPackets
  import Restore

  /** Of the packets a DCP source passes on, both sinks take mutations and deletes and refuse expirations. */
  lemma ExpirationsRefused(ev: Dcp.Event)
    requires Dcp.IsData(ev)
    ensures Backup.Storable(ev.cmd) <==> ev.cmd != CMD_DCP_EXPIRATION
    ensures ClusterSink.KnownCmd(ev.cmd) <==> ev.cmd != CMD_DCP_EXPIRATION
  {
  }

  /** What a TAP source or the workload generator hands over is taken, except that reads cannot be backed up. */
  lemma OthersTaken(cmd: nat)
    requires cmd == CMD_TAP_MUTATION || cmd == CMD_TAP_DELETE || cmd == CMD_GET
    ensures ClusterSink.KnownCmd(cmd) && (Backup.Storable(cmd) <==> cmd != CMD_GET)
  {
  }

  /** A message of the DCP source as the sinks get it; the revision is its meta. */
  function Passed(m: Dcp.Msg): Msg
  {
    Msg(m.cmd, m.vbucket, m.key, m.flg, m.exp, m.cas, Number(m.rev), m.val, m.seqno, m.dtype, m.metalen)
  }

  /** A batch with an unskipped expiration cannot be backed up. */
  lemma OneExpirationFails(ms: seq<Msg>, skip: Backup.Skipper, i: nat)
    requires i < |ms| && ms[i].cmd == CMD_DCP_EXPIRATION && !skip(ms[i].key, ms[i].vbucket)
    ensures !Backup.AllStorable(ms, skip)
  {
  }

  /** From the wire through a backup file and back: what a packet was written with is what a restore hands over, the
      revision as its decimal digits. */
  lemma WireToRestore(p: DcpPackets.Packet, count: nat, sends: bool)
    requires DcpPackets.Writable(p)
    ensures var ev := DcpPackets.EventOf(DcpPackets.PacketBytes(p), count, sends);
      && Dcp.IsData(ev) && Dcp.Unpackable(ev)
      && Restore.Load(Backup.RowOf(Passed(Dcp.MsgOf(ev))), true) == Restore.AsText(Passed(p.msg))
  {
    DcpPackets.PacketReadsBack(p, count, sends);
    Restore.LoadRow(Passed(p.msg), (key, v) => false);
  }
}
