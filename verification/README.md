# Verified model of the transfer tooling

A Dafny model of the engine behind `cbtransfer`, `cbbackup` and `cbrestore`, together with the arithmetic and
identifier helpers it relies on, and proofs of what that engine is for: a transfer that reports success has moved
everything, in order, once.

The modules follow the program.

| module | models |
|---|---|
| `Radix`, `Bits`, `Reals`, `Wire`, `Codes` | positional notation, Python's bit operations, real products, the packet header, opcodes and status codes |
| `Framing` | the three loops that cut a byte stream into packets |
| `Tap` | building TAP requests and reading them back |
| `Crc`, `Batches`, `Store`, `ClusterSink`, `Resize` | the checksum of a key, grouping by vbucket, the cluster's data, the scatter, gather and retry of `CBSink`, a retry across a resized map |
| `PumpRun`, `PumpResult`, `PumpFaults`, `Station`, `StationEnds` | the pump and its sink worker, what the pump returns, the runs in which they fail each other, and the pool of workers over a task queue, as atomic steps |
| `Dcp`, `DcpPackets`, `Transfers` | the DCP consumer: streams, event loop, flow control, batches; its packets on the wire; what sources hand to sinks |
| `Backup`, `Sessions`, `FileNames`, `Restore`, `Predecessors` | backup files: writing, seqno records, incremental chains, names, reading back, listing |
| `Regression`, `Runs`, `Workload` | least squares, threshold runs, the workload generator |
| `Uuid`, `UuidTime`, `UuidText` | UUID layout, stamping, time fields, text and construction |

How the surroundings appear:

- A socket is a list of arrivals of any sizes; an empty arrival or the end of the list is a closed connection.
- A server answers its requests first in, first out, echoes their opaques, and chooses any status. It may answer
  "not found" or "exists" only where the request would change nothing.
- Threads are lists of actions: every interleaving of the atomic steps of the participants is one list.
- Waiting and retrying without a bound become lists of any length: ticks of the packet queue, environments of the
  attempts of a batch.
- A `.cbb` file is a list of rows, `seqno.json` a map, a directory a set of names.
- A message's meta is bytes from a TAP source or a backup file and a number from a DCP source.
- Floats are reals. Random choices, clocks and the results of foreign calls are parameters or free choices.

Where the code departs from its evident intent, the model does what the code does:

- `find_conn` tests `>` where `>=` is meant: the vbucket id equal to the size of the map raises instead of being
  reported (`RouteEdge`).
- A change of the number of vbuckets between two attempts of a batch whose ids are computed can leave stray items: the
  retry loop makes such a run (`StrayRun`). `LastDecidesIff` says exactly which attempts leave none, and `RunBatch`
  states its result under that condition.
- `provide_batch` of the backup source resets `ver` on every call, so rows of a file carried over from an earlier call
  lose their last three fields: `LosesFields` is such a pair of calls, and `WholeIffOpenedHere` says exactly when.
- With more than 10000 files the names no longer sort in creation order (`CreationOrderIsNameOrder`).
- The end mark that `close` pushes can overwrite an outstanding batch, and a worker can then find the mailbox empty:
  runs that do so are `AnOverwriting` and `AnEmptyMailbox`, and `OverwrittenIff` and `EmptyMailboxIff` say exactly when.
- A pump can wait for ever: it passes the stop test with a batch in the mailbox, and the worker leaves at its own stop
  test (`AHang`). `HangsIffDoomed` says exactly when.
- `provide_batch` of the DCP source is written to reconnect after an error, but its receive thread can be started only
  once, so a second connection raises: `AnUnknownOpcode` is such a call, and `ErrorIsFinal` says it of every bad packet.
  Its handlers for end of file cannot be reached: sending is a bare `socket.send`, which raises socket errors only.
- The DCP source passes expirations on, and both sinks refuse them as an unknown command (`ExpirationsRefused`).
- With a batch limit of zero or less the DCP source reports its end at once, whatever streams are open (`Drain`).
- `write_json_file` updates a stored seqno only if it reads back as an `int`; past `sys.maxint` it is a `long` and is
  never updated again. `RecordExact` says exactly when the record then falls short. `RepeatRun` makes a chain of two
  sessions that stores an entry twice; as long as all records are exact nothing repeats (`StoredIsRecorded`), and
  nothing is skipped in any case (`NeverSkips`).
- The numeric meta of a DCP message is stored as text, so it comes back from a backup as its decimal digits
  (`WholeIffText`).
- The failover search after a rollback looks up a literal name, so it never changes the stream; the model has no such
  search.
- `linreg` documents an R-squared value among its results and returns only the two coefficients.
- `abnormal_extract` lists nothing for an operator outside its table, `<=` included.
- The workload generator divides by zero when no item is allowed or the ratio is negative (`KeysSafeIff`).

## Model

| member | source | states |
|---|---|---|
| `Wire.HeaderRoundTrip` | couchbase-cli/pump_tap.py:608-616 | Unpacking a packed header gives the header back if and only if every field fits its width |
| `Framing.CutConserves` | couchbase-cli/pump_dcp.py:434-450 | The frames cut from a byte string and the rest concatenate to it; every piece is one frame and the rest is no complete frame |
| `Framing.CutUnique` | couchbase-cli/pump_dcp.py:434-450 | Any frames followed by less than a frame are cut into exactly those frames |
| `Framing.CutAppend` | couchbase-cli/pump_dcp.py:428-450 | Cutting early and going on with the rest cuts the same frames: framing does not depend on where the input was split |
| `Framing.Conn.SocketRecv` | couchbase-cli/pump_mc.py:419-433 | A read returns a nonempty part of what is to come, or nothing exactly when the peer has closed |
| `Framing.Conn.RecvString` | couchbase-cli/pump_mc.py:419-433 | For every chunking, returns exactly the next n bytes and keeps all others, or fails exactly when fewer will come |
| `Framing.Conn.RecvList` | couchbase-cli/pump_tap.py:336-363 | The list-joining loop has the same result: the next n bytes, nothing lost, failure exactly when fewer will come |
| `Framing.Conn.RecvResponse` | couchbase-cli/pump_mc.py:392-417 | Reads the packet at the head of the pending bytes, or reports end of file, a wrong magic byte or a missing body |
| `Framing.Conn.RecvRequest` | couchbase-cli/pump_tap.py:325-334 | The same for requests |
| `Framing.ReceiveTakesHead` | couchbase-cli/pump_mc.py:408-417 | Receiving a packet takes exactly the first frame of the cut and leaves the others |
| `Framing.SplitIsCut` | couchbase-cli/pump_dcp.py:434-450 | The DCP splitter delivers exactly the frames of the cut, each counted at its size, the first with the carried-over count added |
| `Framing.FeedCounts` | couchbase-cli/pump_dcp.py:439-450 | Each reported count is at least the frame's wire size and less than twice it |
| `Framing.FeedKeepsSynced` | couchbase-cli/pump_dcp.py:428-450 | After every read the frames delivered so far are those of all bytes received so far |
| `Framing.Splitter.SplitBuffer` | couchbase-cli/pump_dcp.py:434-450 | The inner loop: delivers all complete frames, keeps the rest, sets the carried-over count |
| `Framing.Splitter.Feed` | couchbase-cli/pump_dcp.py:428-450 | One read of the receive thread keeps delivered frames and buffer in step with the whole input |
| `Tap.AppendReq` | couchbase-cli/pump_tap.py:618-628 | The parts appended to the list join to header, extras, sequence number, key and value in that order |
| `Tap.AppendRequest` | couchbase-cli/pump_tap.py:562-567 | Builds one request and appends its bytes, or fails as the request builder does |
| `Tap.BuildRequests` | couchbase-cli/pump_tap.py:561-570 | Joins the bytes of all requests in order, or stops at the first that cannot be built |
| `Tap.BuildsIffEncodable` | couchbase-cli/pump_tap.py:575-616 | A request is built if and only if its command is known, its meta acceptable and every field in range |
| `Tap.MetaKept` | couchbase-cli/pump_tap.py:576-584 | A meta of up to eight bytes is padded on the left and keeps its value; of a longer one the first eight bytes are left |
| `Tap.NetToHostReverses` | couchbase-cli/pump_tap.py:311 | Where the byte order is not fixed, the four bytes of the flags are reversed; doing it twice changes nothing |
| `Tap.RequestIsFrame` | couchbase-cli/pump_tap.py:575-616 | A built request is one frame with the intended header and body layout |
| `Tap.ReadTapConn` | couchbase-cli/pump_tap.py:292-323 | Reads one message, with the errors for end of file, wrong magic, short body and short extras, and consumes exactly one frame |
| `Tap.ParseBody` | couchbase-cli/pump_tap.py:292-323 | Parsing the body of a built request gives back command, vbucket, key, flags, expiry, cas, meta, value and ack bit |
| `Tap.RequestsReadBack` | couchbase-cli/pump_tap.py:292-334 | Any list of encodable requests, concatenated, is cut into those requests and each parses back to what it carried |
| `Tap.ReadMessages` | couchbase-cli/pump_tap.py:292-363 | Reading n messages through any chunking returns the parses of the first n frames in order and leaves the rest |
| `Crc.Continues` | couchbase-cli/pump.py:622 | The checksum of a whole key is that of its second part started with that of its first, as zlib continues one |
| `Crc.FoldIsRemainder` | couchbase-cli/pump.py:622 | For every message and start value the register ends as a remainder modulo the CRC-32 polynomial |
| `Crc.Crc32IsRemainder` | couchbase-cli/pump.py:622 | A number below 2^32 is the checksum of a message if and only if, inverted and reversed, it is the remainder of the message times x^32 with ones added to its first 32 bits |
| `Batches.RetagExact` | couchbase-cli/pump.py:618-623 | Grouping changes nothing of a message but its id, and that only where the source gave none or all are to be computed |
| `Batches.SignDoesNotMatter` | couchbase-cli/pump.py:622 | For up to 65536 vbuckets the id is the same whether the checksum is read as signed or unsigned |
| `Batches.HashInRange` | couchbase-cli/pump.py:622 | The computed id is in range, and for a power of two it is the remainder of the checksum's high half |
| `Batches.GroupByVbucketId` | couchbase-cli/pump.py:614-625 | One group per id that occurs; each group is the subsequence of retagged messages with that id |
| `Batches.GroupsConserve` | couchbase-cli/pump.py:614-625 | Whatever the iteration order, the groups hold every message once, retagged and otherwise unchanged |
| `Store.PartialStaysInside` | couchbase-cli/pump_mc.py:88-106 | A partly applied attempt changes nothing outside the keys the batch writes |
| `Store.CompletePassDecides` | couchbase-cli/pump_mc.py:88-106 | After any partial attempts, one complete pass in per-vbucket order leaves the store as one in-order application would |
| `ClusterSink.SentProject` | couchbase-cli/pump_cb.py:32-39 | Of what one server is sent, a vbucket's share is exactly its group in order, however many vbuckets share the connection |
| `ClusterSink.BatchHolds` | couchbase-cli/pump_mc.py:253-272 | What a batch does to every key, by its messages: after the last unfiltered message for it, a mutation leaves exactly its value, flags and expiry, a delete nothing, and a key no message is for is as before |
| `ClusterSink.RoutePrimary` | couchbase-cli/pump_cb.py:214-222 | An id within the map goes to the first server of its chain |
| `ClusterSink.WillingSettles` | couchbase-cli/pump_cb.py:32-58 | If every server gives enough answers and accepts what it is asked, an attempt that can be sent is answered in full |
| `ClusterSink.RouteEdge` | couchbase-cli/pump_cb.py:203-211 | The id equal to the number of vbuckets raises; an id is reported as missing exactly when it is larger |
| `ClusterSink.CBSink.FindConn` | couchbase-cli/pump_cb.py:203-237 | Finds or opens the connection of the vbucket's active server; reports or raises exactly as the map lookups do |
| `ClusterSink.CBSink.SendMsgs` | couchbase-cli/pump_mc.py:138-184 | Appends the unskipped messages as requests with their group index as opaque, or sends nothing: an error for an unknown command, an exception for fields that do not fit |
| `Store.LastDecidesIff` | couchbase-cli/pump_mc.py:88-106 | The last attempt decides the store whatever failed attempts wrote before it, if and only if it writes every key that a failed attempt asking for more than one thing could have written |
| `ClusterSink.CBSink.Serve` | couchbase-cli/pump_mc.py:186-251 | However the servers interleave, opaques come back in the order sent and each vbucket's operations are served in order |
| `ClusterSink.PairedTag` | couchbase-cli/pump_mc.py:190-206 | The next response on a connection carries the opaque of the next unskipped message of the group |
| `ClusterSink.CBSink.RecvMsgs` | couchbase-cli/pump_mc.py:186-251 | Pairs each unskipped request with its own response, never reports a mismatch, consumes exactly the group's responses, and asks for a retry exactly when one was not settled |
| `ClusterSink.CBSink.Scatter` | couchbase-cli/pump_cb.py:32-39 | After the send phase every connection holds exactly the requests of the groups routed to it; if it fails, those of the groups before the failing one |
| `ClusterSink.CBSink.Gather` | couchbase-cli/pump_cb.py:48-58 | The receive phase visits the groups in the same order; with rv 0 every connection is drained, and a retry is asked for exactly when some response was not settled |
| `ClusterSink.FullyServed` | couchbase-cli/pump_cb.py:32-58 | When all requests are answered, every vbucket was served its operations in batch order |
| `ClusterSink.CBSink.ScatterGather` | couchbase-cli/pump_cb.py:23-63 | One attempt: applies part of the batch and nothing else; without error every vbucket is served its whole share, a retry means that some of it was refused and no retry that all of it was applied; the map changes only when an answer said that a vbucket has moved; an attempt with nothing in its way is decided by the servers' answers alone |
| `ClusterSink.CBSink.RunBatch` | couchbase-cli/pump_mc.py:88-106 | Any number of failed attempts ending in a clean one leaves what the failed ones wrote, overwritten by the whole batch in order; that is exactly one in-order application whenever the last attempt writes what the failed ones could; a key then holds what the last message for it says; a batch that can be sent to servers that accept it is stored at the first attempt; a batch given up leaves what the attempts wrote, part of the batch each; no opaque mismatch ever; connections idle whenever no error is reported |
| `ClusterSink.CBSink.UnmovedIsOverwritten` | couchbase-cli/pump.py:618-624 | That is so whenever no message of the batch changes its id between the maps seen, in particular when no id has to be computed |
| `Resize.IdMoves` | couchbase-cli/pump.py:622 | A key, four bytes of ones, whose computed id is 0 of one vbucket and 1 of two |
| `Resize.StrayRun` | couchbase-cli/pump_cb.py:41-63 | A run of the sink on two versions of that key, the first accepted and the second told that its vbucket has moved, then a larger map and a clean attempt: the first version stays under the old id, and the store is neither map's in-order application |
| `Resize.NotOverwritten` | couchbase-cli/pump_mc.py:88-106 | That run is outside the exact condition |
| `PumpRun.RunInv` | couchbase-cli/pump.py:332-398 | The protocol invariant of pump, mailbox, event, futures and totals holds after every interleaving |
| `PumpRun.ZeroMeansAllStored` | couchbase-cli/pump.py:332-398 | If Pump.run returns 0, the source had no more to give or a stop came before its first batch, the batches pulled and stored are the batches provided, in order and once, the mailbox was never overwritten, and source and sink totals agree |
| `PumpRun.MissingMeansStopped` | couchbase-cli/pump.py:385-398 | The "sink missing" error is reported exactly when the last batch was not waited for, and only after a stop request |
| `PumpRun.AlwaysInOrder` | couchbase-cli/pump.py:566-590 | In every run batches are pulled and stored in order and at most once; the mailbox is overwritten or found empty only through the end mark of a pump that gave up on a batch |
| `PumpRun.HangsIffDoomed` | couchbase-cli/pump.py:344-350 | A waiting pump waits for ever, whatever happens next, if and only if its last batch is not done and the worker is gone or about to leave at its stop test; and that takes a stop request or a crash. No wake-up is lost otherwise |
| `PumpResult.ResultExact` | couchbase-cli/pump.py:344-398 | A pump that returns, returns an error if and only if that is what the source gave, what the sink made of the batch waited for, or a worker gone before a push; with none of these it returns 0 or the report of missing messages |
| `PumpResult.GoodMeansZero` | couchbase-cli/pump.py:344-398 | If nobody asks to stop and neither source nor sink gives an error, a pump that returns, returns 0 |
| `PumpResult.GoodRunsFinish` | couchbase-cli/pump.py:344-398 | Such a run is never stuck: whatever has happened so far, finitely many more steps return 0 |
| `PumpFaults.AHang` | couchbase-cli/pump_mc.py:81 | A run in which the worker leaves on a stop request with a batch in the mailbox and the pump waits for ever |
| `PumpFaults.AnOverwriting` | couchbase-cli/pump.py:566-573 | A run in which the end mark overwrites a batch |
| `PumpFaults.OverwrittenIff` | couchbase-cli/pump.py:566-573 | In every run the mailbox is overwritten if and only if at some point the pump stores the end mark while a batch lies there |
| `PumpFaults.AnEmptyMailbox` | couchbase-cli/pump.py:575-581 | A run in which the worker is woken and finds the mailbox empty |
| `PumpFaults.EmptyMailboxIff` | couchbase-cli/pump.py:575-581 | In every run the worker dies of an empty mailbox if and only if the end mark was stored between its read and its clearing of the slot, and it then came back to read |
| `Station.RunInv` | couchbase-cli/pump.py:262-297 | The invariant of queue, workers, counter and shared result holds after every interleaving of any number of workers |
| `Station.CounterIsExact` | couchbase-cli/cbqueue.py:17-39 | unfinished_tasks is puts minus completions and never negative, and tasks are taken in order and once |
| `Station.FailureSticks` | couchbase-cli/pump.py:294-295 | A nonzero shared result never returns to 0, although check and set are separate steps |
| `Station.ZeroMeansAllPumped` | couchbase-cli/pump.py:201-246 | If the wait loop ends with result 0, every enqueued node was pumped exactly once and returned 0 |
| `Station.GoodMeansZero` | couchbase-cli/pump.py:201-246 | If every pump and every count of messages returns 0, a station that returns, returns 0 |
| `Station.ErrorHasCause` | couchbase-cli/pump.py:201-246 | An error the station returns is one that a pump or a count of messages gave |
| `StationEnds.CalmRunsFinish` | couchbase-cli/pump.py:201-297 | With any number of workers, if nothing fails and nobody stops, every run can be finished, and then it returns 0 |
| `DcpPackets.PacketReadsBack` | couchbase-cli/pump_dcp.py:236-262 | A mutation, delete or expiration packet is one frame, and the source makes of it exactly the message it was written with, every field from its own bytes |
| `DcpPackets.MarkerReadsBack` | couchbase-cli/pump_dcp.py:272-280 | A snapshot marker is read as the seqnos it was written with |
| `DcpPackets.PairsReadBack` | couchbase-cli/pump_dcp.py:188-202 | A failover log is read as the pairs it was written with, and a fragment behind them is ignored |
| `DcpPackets.RollbackReadsBack` | couchbase-cli/pump_dcp.py:217-234 | A rollback moves start and snapshot of its stream to the seqno the packet was written with, and changes nothing else |
| `DcpPackets.StreamReadsBack` | couchbase-cli/pump_dcp.py:428-450 | In whatever chunks a stream of packets arrives, the source is handed exactly the messages they carry, in order |
| `Dcp.DcpSource.Resumed` | couchbase-cli/pump_dcp.py:484-508 | A resumed stream has the uuid of the newest failover entry, starts where the record ends, and keeps the recorded snapshot exactly if that was cut short |
| `Dcp.DcpSource.SetupStreams` | couchbase-cli/pump_dcp.py:452-529 | Opens a stream for exactly the chosen active vbuckets, from the recorded seqno to the current high seqno, with the uuid of the newest failover entry and the recorded snapshot unless that was complete; fails exactly when a chosen vbucket has no record or its request cannot be sent |
| `Dcp.DcpSource.OnRequestStream` | couchbase-cli/pump_dcp.py:186-235 | Rejections close the stream; a rollback re-requests it with start and snapshot set to the server's value and the end kept, and fails if that cannot be sent; acceptance extends the failover log |
| `Dcp.DcpSource.RecordFailover` | couchbase-cli/pump_dcp.py:188-202 | Appends exactly the uuid and seqno pairs of the packet |
| `Dcp.DcpSource.AckBufferSize` | couchbase-cli/pump_dcp.py:401-413 | With flow control an acknowledgement of the given size is attempted; a size beyond four bytes raises |
| `Dcp.DcpSource.EndStream` | couchbase-cli/pump_dcp.py:268-271 | Closes one stream; the source is done exactly when none is left |
| `Dcp.DcpSource.Handle` | couchbase-cli/pump_dcp.py:186-289 | The whole effect of one packet on streams, requests, failover log, snapshots, batch and flags, for every opcode, status and malformed body |
| `Dcp.DcpSource.AckInLoop` | couchbase-cli/pump_dcp.py:170-176 | An acknowledgement is attempted exactly when more than the threshold is unprocessed; those that reached the wire sum to last_processed, which never exceeds the bytes read |
| `Dcp.DcpSource.AckFinal` | couchbase-cli/pump_dcp.py:313-327 | The final acknowledgement is exactly the remainder |
| `Dcp.DcpSource.EventLoop` | couchbase-cli/pump_dcp.py:160-317 | The loop keeps batch, open streams and ledger in step with the packets taken, and names the packet to blame for every failure |
| `Dcp.DcpSource.ProvideActual` | couchbase-cli/pump_dcp.py:142-327 | One call returns the wanted messages of the packets it took, no more than the limit, covers their bytes, and returns no batch only when the source is done; it is an error exactly when one of the packets was bad, but for an oversized acknowledgement, and the flush flag stands for a flush among them |
| `Dcp.DcpSource.AnswerTheNoop` | couchbase-cli/pump_dcp.py:291-312 | A NOOP ends the call with the batch so far, its bytes acknowledged, or with an error exactly when the answer cannot be sent |
| `Dcp.DcpSource.ProvideBatch` | couchbase-cli/pump_dcp.py:105-140 | The whole retry loop: a batch is the wanted messages of the packets taken, no batch means that the source is done; a bad packet among those taken gives an error, which is a failed reconnect or an exception, or the error itself if no retry is allowed |
| `Dcp.DcpSource.ErrorIsFinal` | couchbase-cli/pump_dcp.py:115-140 | With retries allowed, any bad packet at the head of the queue ends in a failed reconnect or an exception |
| `Dcp.AnUnknownOpcode` | couchbase-cli/pump_dcp.py:287-289 | A source with a stream open that is sent an opcode it does not know |
| `Dcp.DcpSource.Drain` | couchbase-cli/pump_dcp.py:105-140 | The batches concatenated are the unskipped mutations, deletes and expirations in arrival order, once each; the end comes only with no stream open or with a flush among the packets taken, or at once if a limit is not positive; for a well-behaved trace nothing is left out, and over a healthy connection no error occurs but an oversized acknowledgement |
| `Dcp.NothingAfterClose` | couchbase-cli/pump_dcp.py:268-271 | A well-behaved trace carries no data once every stream is closed |
| `Dcp.OrderlyBlameless` | couchbase-cli/pump_dcp.py:287-289 | A well-behaved trace never makes the source crash, stop or report an unexpected message |
| `Transfers.ExpirationsRefused` | couchbase-cli/pump_bfd.py:605-612 | Of the packets a DCP source passes on, both sinks take exactly the mutations and deletes |
| `Transfers.WireToRestore` | couchbase-cli/pump_bfd.py:437-453 | What a DCP packet was written with is what a restore of its backup hands over, the revision as decimal digits |
| `Radix.DecRoundTrip` | couchbase-cli/pump_bfd.py:446 | The cas column written as decimal text reads back as the same number |
| `Backup.WriteJson` | couchbase-cli/pump_bfd.py:93-123 | The merged record has the higher value for every vbucket, except that a stored value beyond the plain integers stays; it never gains a zero |
| `Backup.FindSeqno` | couchbase-cli/pump_bfd.py:253-262 | The merge over all sessions is the highest recorded seqno of every vbucket |
| `Backup.FoldJson` | couchbase-cli/pump_bfd.py:253-262 | Merging one record takes the maximum for every vbucket, whatever the iteration order |
| `Backup.BackupSink.constructor` | couchbase-cli/pump_bfd.py:553-565 | A new sink has no files, and its record matches them |
| `Backup.BackupSink.Store` | couchbase-cli/pump_bfd.py:566-632 | One batch: all its rows are committed or none, to a new file exactly when none is open or the open one is full; the record never exceeds what is committed, even if the run stops between commit and record, and after success it is the old record merged with the highest seqno stored, so it equals that for every vbucket whose record is a plain integer |
| `Backup.BackupSink.Insert` | couchbase-cli/pump_bfd.py:601-624 | Inserts the unskipped rows in order and keeps the seqno map equal to their highest seqnos; fails exactly on an unstorable message |
| `Sessions.DeliveredIsRest` | couchbase-cli/pump_dcp.py:476-508 | When the records say where the log stood, what lies above them is the rest of the log |
| `Sessions.HighPermuted` | couchbase-cli/pump_bfd.py:623-624 | The highest seqno does not depend on how the vbuckets interleave |
| `Sessions.ExactlyOnce` | couchbase-cli/pump_bfd.py:563-627 | After any number of completed sessions over a growing log every entry up to the last session's end is stored exactly once, and the records say exactly where that end is |
| `Sessions.NeverSkips` | couchbase-cli/pump_bfd.py:563-627 | Whenever and however often sessions were cut short, an entry at or below its recorded seqno is stored |
| `Sessions.StoredIsRecorded` | couchbase-cli/pump_bfd.py:563-627 | Whenever and however often sessions were cut short, as long as each recorded what it committed, every log entry at or below the recorded seqnos is stored exactly once and nothing else is stored |
| `Sessions.RecordExact` | couchbase-cli/pump_bfd.py:93-123 | After any run of batches the record has the highest seqno of a vbucket if and only if the vbucket did not rise again after a batch that took it past the plain integers |
| `Sessions.RunSession` | couchbase-cli/pump_bfd.py:548-632 | A run of the sink, wherever it stops, is such a session and its record is what its batches make of it; its record is exact, and a successful run complete, if and only if no vbucket rose again past the plain integers |
| `Sessions.ChainRepeats` | couchbase-cli/pump_bfd.py:253-262 | A legal chain of two sessions whose first record fell short stores the entry above it twice |
| `Sessions.RepeatRun` | couchbase-cli/pump_bfd.py:548-632 | Two runs of the sink make such a chain |
| `FileNames.NameOrder` | couchbase-cli/pump_bfd.py:692 | Below 10000 the zero-padded names compare as their numbers |
| `FileNames.CreationOrderIsNameOrder` | couchbase-cli/pump_bfd.py:692 | Names in creation order are ascending if and only if there are at most 10000 files |
| `FileNames.AscendingUnique` | couchbase-cli/pump_bfd.py:414 | A set of names has one sorted listing, whatever order the directory was read in |
| `Restore.BackupSource.constructor` | couchbase-cli/pump_bfd.py:391-414 | At the start everything in the listed files is left to deliver |
| `Restore.BackupSource.Open` | couchbase-cli/pump_bfd.py:420-433 | Opens the next file exactly when its version is known, and loses nothing |
| `Restore.BackupSource.Fetch` | couchbase-cli/pump_bfd.py:437-458 | Takes one row, filtered, or closes the file at its end |
| `Restore.BackupSource.ProvideBatch` | couchbase-cli/pump_bfd.py:379-469 | A batch is the next part of what is left, ends at a limit or with the last file and not before its last message; batch and rest make up what was left in the first eight fields |
| `Restore.BackupSource.Drain` | couchbase-cli/pump_bfd.py:379-469 | Under any positive limits the reading ends, and without error exactly when every file has a known version and reading raised nothing; then the batches concatenated are everything that was left, in order, in the first eight fields |
| `Restore.WholeIffOpenedHere` | couchbase-cli/pump_bfd.py:416-452 | A message keeps its last three fields exactly when its file was opened in the same call or they are zero |
| `Restore.LosesFields` | couchbase-cli/pump_bfd.py:416-452 | A file of two rows read with batches of one: the second call delivers its row without the last three fields |
| `Restore.WholeIffText` | couchbase-cli/pump_bfd.py:617 | A stored message is loaded whole exactly when its meta is text; a numeric meta comes back as its decimal digits, with the same value |
| `Restore.LoadsOfKept` | couchbase-cli/pump_bfd.py:437-453 | Loading what was stored gives the messages that pass both filters, with their metas as text |
| `Restore.ReadBack` | couchbase-cli/pump_bfd.py:414-460 | With at most 10000 files the sorted listing yields the stored messages in arrival order, across any roll-overs |
| `Restore.RestoreAll` | couchbase-cli/pump_bfd.py:379-469 | Restoring what the sink wrote succeeds unless reading raises, and returns its messages in the original order with the first eight fields intact and metas as text, under any positive batch limits |
| `Predecessors.AddFiles` | couchbase-cli/pump_bfd.py:524-526 | Adds exactly the missing files of one directory and no duplicate |
| `Predecessors.AddPreds` | couchbase-cli/pump_bfd.py:527-530 | Queues exactly the predecessors not queued yet, behind what is queued |
| `Predecessors.TurnLightens` | couchbase-cli/pump_bfd.py:522-531 | Every turn of the worklist lowers its weight, though it may grow |
| `Predecessors.Sweep` | couchbase-cli/pump_bfd.py:522-531 | If what can be reached has no cycle the worklist ends, and it adds exactly the files of all transitive predecessors |
| `Predecessors.Scan` | couchbase-cli/pump_bfd.py:514-520 | Scans directories up to the first that has predecessors |
| `Predecessors.ListFiles` | couchbase-cli/pump_bfd.py:503-533 | Returns, without duplicates, exactly the files of the scanned directories and of all their transitive predecessors |
| `Predecessors.EndsIff` | couchbase-cli/pump_bfd.py:522-531 | The worklist runs empty if and only if what can be reached from it has no cycle |
| `Predecessors.CyclesNeverEnd` | couchbase-cli/pump_bfd.py:522-531 | Once directories that are each other's predecessors are queued, the worklist never runs empty |
| `Regression.DetSign` | couchbase-cli/util_cli.py:136-137 | The determinant is never negative, and zero exactly when all x values are equal |
| `Regression.Solve` | couchbase-cli/util_cli.py:140 | The two closed forms solve the normal equations |
| `Regression.ErrorShift` | couchbase-cli/util_cli.py:119-141 | How the squared error changes when a line moves |
| `Regression.LeastSquares` | couchbase-cli/util_cli.py:119-141 | A solution of the normal equations has a smaller squared error than every other line |
| `Regression.Linreg` | couchbase-cli/util_cli.py:119-141 | Returns the one line of least squared error, zeros exactly when all x values are equal, an error exactly for unequal lengths |
| `Runs.AbnormalExtract` | couchbase-cli/util_cli.py:160-181 | Returns exactly the maximal runs that satisfy the condition, ordered, disjoint and not adjacent; nothing for an unsupported operator |
| `Runs.Operators` | couchbase-cli/util_cli.py:183-194 | A sample is above, at or below the threshold, exactly one of these, and the other two operators join or negate them |
| `Runs.RunsUnique` | couchbase-cli/util_cli.py:160-181 | There is only one such list |
| `Runs.Covered` | couchbase-cli/util_cli.py:160-194 | An index satisfies the condition exactly when a run covers it, and then only one does |
| `Workload.RatioBounds` | couchbase-cli/pump_gen.py:114-128 | For every ratio that is not negative, with r the smaller of the ratio and 1, after every N operations the number of SETs lies between rN - r and rN + 1 |
| `Workload.CountersCount` | couchbase-cli/pump_gen.py:114-128 | The counters count the mutations and the reads handed out |
| `Workload.MutationsKeepRatio` | couchbase-cli/pump_gen.py:114-128 | So the mutations among the operations handed out keep to the same bounds, and all others are reads |
| `Workload.MutationKeys` | couchbase-cli/pump_gen.py:117-123 | The mutations carry the keys 0, 1, 2 and so on to the last item, each once, and after that (j + 1) modulo the number of items |
| `Workload.ReadKey` | couchbase-cli/pump_gen.py:124-127 | The reads go round the items created so far |
| `Workload.ItemsAreSets` | couchbase-cli/pump_gen.py:117-123 | Every SET creates an item until the items run out |
| `Workload.KeyExists` | couchbase-cli/pump_gen.py:119-127 | Every key names an item that exists by then |
| `Workload.KeysSafeIff` | couchbase-cli/pump_gen.py:119-127 | The modulo is safe throughout the run if and only if the ratio is not negative and an item is allowed |
| `Workload.NotYetStopped` | couchbase-cli/pump_gen.py:137-139 | While items are missing the run is no longer than (max - 1) / r + 1, with r the smaller of the positive ratio and 1 |
| `Workload.StopExists` | couchbase-cli/pump_gen.py:137-139 | exit-after-creates does stop if and only if an item is allowed and the ratio is positive, or zero with one item enough |
| `Workload.StopBounds` | couchbase-cli/pump_gen.py:137-139 | exit-after-creates stops between (max - 1) / r + 1 and (max - 1) / r + 2 operations, and after exactly max for a ratio of at least 1 |
| `Workload.EstimateError` | couchbase-cli/pump_gen.py:146-152 | For a ratio up to 1 the announced total is within fixed bounds of the number of operations made; above 1 it is that number divided by the ratio, truncated |
| `Workload.GenSource.constructor` | couchbase-cli/pump_gen.py:16-25 | A new source stands at the start of the run |
| `Workload.GenSource.Generate` | couchbase-cli/pump_gen.py:116-128 | One turn makes the next operation of the run |
| `Workload.GenSource.ProvideBatch` | couchbase-cli/pump_gen.py:76-143 | A batch is the next stretch of the run whatever the limits, ends at a limit or at the stop, and after the stop there is none; its mutations and reads are what the counters grow by |
| `Uuid.PackGetFields` | couchbase-python-client/uuid.py:133-152 | Rebuilding any 128-bit value from its fields gives the same value |
| `Uuid.GetFieldsPack` | couchbase-python-client/uuid.py:197-243 | Reading the fields of a value built from fields gives those fields |
| `Uuid.StampBit` | couchbase-python-client/uuid.py:156-164 | Stamping fixes the two variant and four version bits and leaves every other bit alone |
| `Uuid.StampReadsBack` | couchbase-python-client/uuid.py:255-270 | A stamped value reads back as that version and the RFC 4122 variant |
| `Uuid.StampIdle` | couchbase-python-client/uuid.py:156-164 | Stamping changes nothing exactly when the value already had that version |
| `Uuid.VariantBits` | couchbase-python-client/uuid.py:255-263 | The variant is decided by the three top bits of the clock sequence |
| `Uuid.GetBytes` | couchbase-python-client/uuid.py:189-193 | The loop over shifts gives the sixteen big-endian bytes |
| `Uuid.OrderAgrees` | couchbase-python-client/uuid.py:167-170 | Comparing values is comparing their bytes |
| `Uuid.BytesRoundTrip` | couchbase-python-client/uuid.py:129-132 | Rebuilding a value from its bytes gives the same value |
| `Uuid.BytesMakeUuid` | couchbase-python-client/uuid.py:129-132 | Any sixteen bytes are the bytes of the value they make |
| `UuidTime.Uuid1Recovers` | couchbase-python-client/uuid.py:432-440 | uuid1 fails exactly on a host id beyond 48 bits; otherwise the getters recover the timestamp modulo 2^60, the clock sequence modulo 2^14 and the host, and the version is 1 |
| `UuidText.HexRoundTrip` | couchbase-python-client/uuid.py:123-128 | The text of a value, bare, hyphenated, in braces or as a URN, is read back as that value |
| `UuidText.DashesOut` | couchbase-python-client/uuid.py:184-187 | Taking the hyphens out of the text leaves the 32 digits |
| `UuidText.StrLayout` | couchbase-python-client/uuid.py:184-187 | The text is the 32 digits in order with hyphens at positions 8, 13, 18 and 23 |
| `UuidText.HexFits` | couchbase-python-client/uuid.py:124-128 | Every accepted string gives a 128-bit value, and none fails for being out of range, signs included |
| `UuidText.DigitsRead` | couchbase-python-client/uuid.py:128 | Reading digits alone gives the number they denote |
| `UuidText.PrefixCounts` | couchbase-python-client/uuid.py:126-128 | A 0x prefix counts towards the 32 characters, so thirty digits after one are accepted |
| `UuidText.Init` | couchbase-python-client/uuid.py:121-165 | Exactly one representation, each with its own errors, then the range check, then the optional stamp; every accepted value has 128 bits |
| `UuidText.Rebuilt` | couchbase-python-client/uuid.py:121-155 | Every 128-bit value is rebuilt from its text, bytes, fields or integer |

## Left out

- ClusterSink: `add` transfers, server-side conflict resolution and `get` results, for which a retried batch need not equal one application.
- ClusterSink: the length of the backoff between attempts.
- ClusterSink.CBSink.SendMsgs: `send` is taken to write its whole argument; a short write, which the code does not notice, is not modelled. Which field values struct.pack takes is a parameter.
- ClusterSink: compression and the wire form of memcached requests; a request is the operation it asks for and its opaque.
- Dcp.DcpSource.SetupStreams: records without an entry for the node, which the tools never make: the records of a task are empty or are read for its own node.
- Dcp: the version check, connection setup, SASL and the negotiation of flow control; whether flow control is on and whether a reconnect succeeds are parameters or free choices.
- Dcp: the failover search after a rollback, which the code can never enter.
- PumpRun: progress reports and the run_msg and tot_msg counters.
- Station: the merge of per-worker counters, which is not synchronised in the code.
- Backup: the failover and snapshot files, the sqlite tables and the choice of a directory for a session; a chain of sessions is an ordered list.
- Backup: bucket filters and rollbacks in the chain of sessions; `ExactlyOnce` and `NeverSkips` speak of the entries the streams deliver.
- Restore: batch limits of zero or less, under which the source returns empty batches without end; `Drain` and `RestoreAll` need positive limits.
- Restore: the sorting algorithm; a listing is any ascending sequence with the directory's names.
- Restore: date filters and files gathered from several directories, whose full paths decide the order.
- Predecessors: the search for the latest directory and the JSON file that holds the predecessors.
- Predecessors.ListFiles: that what can be reached has no cycle is given as a rank that falls along it, and a directory is known by one path only.
- Workload: the content of the values; their lengths are a parameter. Runs start with all counters at zero.
- Uuid: uuid3, uuid4 and uuid5, the hash and random sources, and the discovery of the host id.
- UuidText.Init: unicode strings, whose decimal digits of other scripts long() reads too.
- Tap.BuildRequests: takes the requests after filtering; the filter itself is modelled with the cluster sink.
- Tap: the TAP connection, its opaque acknowledgements and the TAP sink's scatter and gather.
- The plain memcached sink, the TAP and DCP sinks, and the CSV, JSON, stdin and couchstore endpoints.
- REST calls, command-line parsing, health reports, labels and templates.
