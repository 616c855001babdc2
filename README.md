# A verified model of the LCLS-II DAQ and analysis core

This project is a Dafny model of the sequential, deterministic parts of the
LCLS-II data acquisition (psdaq), analysis monitoring (AMI) and offline
analysis (psana) code. It also proves properties of that model. The modules
follow the source files:

| module | file | models |
|---|---|---|
| `Wrappers`, `Bits`, `Text` | `wrappers.dfy`, `bits.dfy`, `text.dfy` | Option, bit lists and fields on naturals, 32-bit little-endian words, decimal and hexadecimal rendering, `str.split`/`replace`/`upper` |
| `EbConstants` | `eb_constants.dfy` | the port bases, batch geometry and `static_assert`s of `psdaq/eb/eb.hh` |
| `EbEvent` | `eb_event.dfy` | the event of `psdaq/eb/EbEvent.hh`: its contributions, the bit list of slots still to contribute, and its aging counter (a class) |
| `EbLinks` | `eb_links.dfy` | the link-table connection loop shared by the three `configure`s |
| `TebContributor` | `teb_contributor.dfy` | the batching state machine of `TebContributor.cc`, its two `_post`s and its life cycle (a class over specification functions) |
| `MebContributor` | `meb_contributor.dfy` | the buffer sizing, the checks and the posts of `MebContributor.cc` (a class) |
| `MonReqServer` | `mon_req_server.dfy` | the free list of buffers, round-robin requests, `env` packing, connection parameter parsing and buffer-count checks of `monReqServer.cc` |
| `AmiWorker` | `ami_worker.dfy` | the AMI `Worker.run` loop, the `Collector` barrier, and the exit codes of `run_worker` and `main` |
| `Xvc` | `xvc.dfy` | `sread` and `handle_data` of the Xilinx Virtual Cable server (XVC 1.0, Xilinx application note XAPP1251) |
| `DrpMain` | `drp_main.dfy` | `get_kwargs` and the `-P`, alias and mandatory-parameter handling of `drp.cc`'s `main` |
| `XpmUtils` | `xpm_utils.dfy` | the link id naming of `xpm_utils.py` |
| `Lasdb` | `lasdb.dfy` | the parameter packing and unpacking, IOC accessors and configuration-file key naming of `lasdb.py` |
| `PsanaEvent` | `psana_event.dfy` | the psana `Event`: iteration, `_replace`, the byte framing, timestamp and service, and the detector-segment table |

Where the source updates state step by step, the model is imperative. It has
classes with `modifies` frames and methods with loop invariants, each proved
against the specification function that the lemmas beside it are about. Where the
source computes values, the model has functions and lemmas.

Calls into code that is not modelled become parameters:
- RDMA link posts, the batch manager and `Batch::index`;
- the JTAG engine, `read` and `write`;
- the analysis graph and result store;
- DNS, the configuration database and the datagram decoder.

Such a parameter is an oracle or a function passed in. Its answer depends
only on what the model has done so far, such as the position in a trace or
the number of posts made.

C and C++ integer widths are modelled where they matter: an `unsigned`
offset that wraps, a 64-bit bit list, an `int` bit count. Python's `dict` is
modelled as its entries in insertion order.

## Model

| member | source | states |
|---|---|---|
| EbConstants.MaxPortsIsSumOfMaxima | psdaq/psdaq/eb/eb.hh:15-19 | `MAX_PORTS` is the sum of the DRP, TEB, MRQ and MEB maxima, 256 |
| EbConstants.PortBlocksAreConsecutiveAndDisjoint | psdaq/psdaq/eb/eb.hh:21-25 | the TEB, DRP, MRQ and MEB port blocks start at 1024, 1088, 1152 and 1216, each follows the previous one, no port lies in two blocks, and together they cover exactly `[OUR_PORT_BASE, OUR_PORT_BASE + MAX_PORTS)` |
| EbConstants.PowerOfTwoTestIsExact | psdaq/psdaq/eb/eb.hh:103-104 | for every positive n, the header's test `(n & (n - 1)) == 0` holds exactly when n is a power of two |
| EbConstants.BatchDurationIsPowerOfTwo | psdaq/psdaq/eb/eb.hh:27-28 | `BATCH_DURATION` equals `MAX_ENTRIES`, is 2^6 and passes the `static_assert` of line 103 |
| EbConstants.MaxBatchesIsPowerOfTwo | psdaq/psdaq/eb/eb.hh:29-30 | `MAX_BATCHES = MAX_LATENCY / MAX_ENTRIES` is 2^16 and passes the `static_assert` of line 104 |
| EbEvent.Event.Creator | psdaq/psdaq/eb/EbEvent.hh:171-174 | `creator()` is the first of the contributions received |
| EbEvent.Event.Received | psdaq/psdaq/eb/EbEvent.hh:176-184 | `begin()`..`end()` are the first `last` contributions, at least the creator, slot by slot |
| EbEvent.Event.Sequence | psdaq/psdaq/eb/EbEvent.hh:86-89 | `sequence()` is the pulse id of the first contribution received |
| EbEvent.Event.CompleteIffNoneOutstanding | psdaq/psdaq/eb/EbEvent.hh:119-133 | for a 64-bit `remaining()`, the event is complete (the bit list is 0) exactly when the set of slots still to contribute is empty |
| EbEvent.Event.Age | psdaq/psdaq/eb/EbEvent.hh:201-209 | `_alive()` lowers the counter by exactly one and returns true exactly when the old count was above 1, which is the result `alive()` then gives |
| EbLinks.Resize | psdaq/psdaq/eb/TebContributor.cc:70 | `_links.resize(n)` leaves n slots: the first ones keep their links, the new ones are null |
| EbLinks.ConnectStops | psdaq/psdaq/eb/TebContributor.cc:78-94 | once a connect or prepare has failed on some prefix of the peers, the rest of the peers change neither the table nor the return code |
| EbLinks.ConnectAll | psdaq/psdaq/eb/TebContributor.cc:71-99 | the connection loop returns the table and the code of `Connect`: 0 when all peers succeed, else the first failing connect or prepare code, or undefined behaviour for a remote id outside the table |
| EbLinks.Connect | psdaq/psdaq/eb/TebContributor.cc:84-85 | storing links by remote id never changes the size of the table, and every slot either keeps what it held or receives the link of the peer whose remote id is that slot |
| EbLinks.ConnectPlacesLinks | psdaq/psdaq/eb/TebContributor.cc:84-85 | when every connect and prepare succeeds and every remote id fits, the loop returns 0 and slot j holds link j exactly when some peer has remote id j; every other slot keeps what it held |
| EbLinks.LinkIds | psdaq/psdaq/eb/TebContributor.cc:85 | the table whose slot j holds link j, for j below n |
| EbLinks.ConfiguredTableIsLinkIds | psdaq/psdaq/eb/TebContributor.cc:70-99 | when n peers with remote ids covering 0..n-1 all succeed, the resized table is full, slot j holding link j, and the loop returns 0 |
| TebContributor.PostBatchSpec | psdaq/psdaq/eb/TebContributor.cc:230-257 | a batch post leaves the open batch and its contractor alone and only appends to the post log and the pending list; when it ends normally the batch start is queued and one batch post from that start is logged; when it throws, the log is unchanged and the exception is `PendingOverflow` with at least `MAX_LATENCY` entries on the list |
| TebContributor.PostTransitionSpec | psdaq/psdaq/eb/TebContributor.cc:259-292 | a transition copy changes nothing but the post log, and only appends to it |
| TebContributor.Expire | psdaq/psdaq/eb/TebContributor.cc:183-192 | an expiry that ends normally starts the new batch from the expiring datagram |
| TebContributor.FlushBatch | psdaq/psdaq/eb/TebContributor.cc:194-203 | a flush posts only batches and leaves no batch open; the open batch is queued exactly when its contractor ORed with the datagram's groups is non-zero; the only exception is `PendingOverflow` |
| TebContributor.CloseBatch | psdaq/psdaq/eb/TebContributor.cc:181-204 | closing a batch posts only batches and throws only `PendingOverflow`; a flushing datagram leaves no batch open, and an expired one opens a new batch that starts and ends with it |
| TebContributor.Batch | psdaq/psdaq/eb/TebContributor.cc:162-205 | a datagram of the common readout group posts only batches and throws only `PendingOverflow`; after a flushing datagram no batch is open, and otherwise a batch is open and ends with the datagram |
| TebContributor.Bypass | psdaq/psdaq/eb/TebContributor.cc:206-219 | a datagram outside the common readout group posts only batches and throws only `PendingOverflow`; when it ends normally no batch is open and the datagram is the last entry of the pending list |
| TebContributor.FirstDgramStartsBatch | psdaq/psdaq/eb/TebContributor.cc:162-180 | with no batch open, a datagram of the common readout group becomes the batch start, its contractor its groups masked with `contractor`; an L1Accept that neither expires nor flushes is then the whole batch and nothing is posted |
| TebContributor.ExtendOnly | psdaq/psdaq/eb/TebContributor.cc:176-180 | a datagram that neither expires nor flushes only sets the batch end and ORs its masked groups into the contractor; no batch is posted, and only a SlowUpdate with a non-zero contractor is copied to the other TEBs |
| TebContributor.ExpiryPostsOpenBatch | psdaq/psdaq/eb/TebContributor.cc:183-192 | on expiry the open batch `[start, end or start]` is posted exactly when the contractor is non-zero, and the expiring datagram starts a new batch |
| TebContributor.FlushClosesBatch | psdaq/psdaq/eb/TebContributor.cc:194-203 | a flushing datagram ORs in its groups, posts the batch up to itself unless the contractor is then zero, and leaves no batch open |
| TebContributor.BypassPendsDgram | psdaq/psdaq/eb/TebContributor.cc:206-219 | a datagram outside the common readout group posts an open batch with a non-zero contractor, is pushed on the pending list, throws exactly when that list overflows, closes the batch, and posts nothing when no batch with a contractor was open |
| TebContributor.PostBatchDestination | psdaq/psdaq/eb/TebContributor.cc:232-256 | a batch goes to TEB `(idx / MAX_ENTRIES) % numEbs` at offset `idx * maxInputSize` (both as 32-bit values), is queued on the pending list before posting, succeeds exactly when that link exists and the pending list does not overflow, and counts only when the link post does not fail; a destination outside the table is undefined before anything is queued, an overflow throws before the link is read, and a null link is undefined only after the datagram is queued without overflow |
| TebContributor.NoBuildersIsUndefined | psdaq/psdaq/eb/TebContributor.cc:238 | with no TEB counted, `% _numEbs` divides by zero in both `_post` overloads |
| TebContributor.AllBut | psdaq/psdaq/eb/TebContributor.cc:273-291 | the link ids the transition loop sends to: every id below n but dst, and nothing else |
| TebContributor.PostsTo | psdaq/psdaq/eb/TebContributor.cc:289 | one transition post per id, in the order of the ids |
| TebContributor.TransitionPostsToOthers | psdaq/psdaq/eb/TebContributor.cc:273-291 | over a table whose slot j holds link j, the loop posts the transition to every link but dst, in order, and meets no null link |
| TebContributor.TransitionGoesToOtherTebs | psdaq/psdaq/eb/TebContributor.cc:259-292 | a transition is sent once to every TEB but the batch's destination, in link order, at `batchRegionSize + tr * sizeof(dgram)`; nothing is sent with fewer than two links, and a payload throws |
| TebContributor.ProcessSpec | psdaq/psdaq/eb/TebContributor.cc:160-228 | `process` only appends to the post log and the pending list; one that ends normally never leaves a batch end without a batch start; an L1Accept posts only batches; a datagram outside the common readout group that ends normally is the last entry of the pending list; `UnexpectedPayload` is thrown only for a transition that carries a payload |
| TebContributor.Contributor.constructor | psdaq/psdaq/eb/TebContributor.cc:33-45 | a new contributor has id -1, no TEBs, no links, an empty pending list, no batch and both counters zero |
| TebContributor.Contributor.Configure | psdaq/psdaq/eb/TebContributor.cc:60-100 | `configure` sets the id, counts the TEBs as the popcount of the 64-bit `builders` (at most 64), drains the pending list and connects the resized link table as `Connect` does, changing no other field |
| TebContributor.Contributor.Startup | psdaq/psdaq/eb/TebContributor.cc:102-110 | `startup` closes the batch, zeroes both counters and marks the contributor running, changing nothing else |
| TebContributor.Contributor.Shutdown | psdaq/psdaq/eb/TebContributor.cc:112-133 | a running contributor stops, its links are dropped and its id becomes -1; a stopped one is left as it was |
| TebContributor.Contributor.Allocate | psdaq/psdaq/eb/TebContributor.cc:135-158 | `allocate` returns null and does not count when no batch is available, and otherwise counts the event once |
| TebContributor.Contributor.PostBatch | psdaq/psdaq/eb/TebContributor.cc:230-257 | the batch-posting `_post` computes the new state and outcome of `PostBatchSpec` |
| TebContributor.Contributor.PostTransition | psdaq/psdaq/eb/TebContributor.cc:259-292 | the transition-posting `_post` and its loop over the links compute the new post log and outcome of `PostTransitionSpec` |
| TebContributor.Contributor.Process | psdaq/psdaq/eb/TebContributor.cc:160-228 | `process` computes the new state and outcome of `ProcessSpec` |
| TebContributor.Contributor.ProcessBatched | psdaq/psdaq/eb/TebContributor.cc:162-205 | the common-readout-group branch computes `Batch` |
| TebContributor.Contributor.ExpireBatch | psdaq/psdaq/eb/TebContributor.cc:183-192 | the expiry branch computes `Expire` |
| TebContributor.Contributor.FlushOpenBatch | psdaq/psdaq/eb/TebContributor.cc:194-203 | the flush branch computes `FlushBatch` |
| TebContributor.Contributor.ProcessBypass | psdaq/psdaq/eb/TebContributor.cc:206-219 | the bypass branch computes `Bypass` |
| TebContributor.TransitionPostsStop | psdaq/psdaq/eb/TebContributor.cc:273-291 | once the loop has met a null link, the remaining slots change nothing |
| MebContributor.EventOffsetInRegion | psdaq/psdaq/eb/MebContributor.cc:25 | while the event region fits in 32 bits, buffer `idx < maxEvents` starts at `idx * _maxEvSize` and ends inside `_bufRegSize = maxEvents * _maxEvSize` |
| MebContributor.EventOffsetTruncates | psdaq/psdaq/eb/MebContributor.cc:95 | past 4 GiB the `unsigned` offset wraps: with 65537 buffers of 64 KiB, buffer 65536 lands at offset 0, on buffer 0 |
| MebContributor.TransitionOffsetPastEvents | psdaq/psdaq/eb/MebContributor.cc:137 | without 64-bit wrap-around, the transition buffer of `tr` is at `_bufRegSize + tr * _maxTrSize`, at or past the end of the event region |
| MebContributor.TransitionSlotsDisjoint | psdaq/psdaq/eb/MebContributor.cc:137 | the transition buffers of two different transition ids do not overlap |
| MebContributor.PostEventCases | psdaq/psdaq/eb/MebContributor.cc:88-129 | an L1Accept throws exactly when it is larger than `_maxEvSize`, or, when it fits, exactly when its source is not the contributor, changing nothing; an out-of-range or null destination link is undefined; otherwise one post goes to the destination link at `idx * _maxEvSize`, a failed post returns 1 (the value of the comparison at line 124) without counting, and a successful one returns 0 and counts the event |
| MebContributor.PostEventSpec | psdaq/psdaq/eb/MebContributor.cc:88-129 | an L1Accept that returns a code has appended exactly one post to the log and returns 0 or 1; one that throws or is undefined changes nothing; the event count grows only when 0 is returned |
| MebContributor.BroadcastInOrder | psdaq/psdaq/eb/MebContributor.cc:154-172 | with every link present, a transition goes to the links in table order, the loop stops right after the first failed post, and it returns 1 exactly when the last post made failed and 0 only after posting to every link |
| MebContributor.PostTransitionCases | psdaq/psdaq/eb/MebContributor.cc:131-173 | a transition never counts an event; it throws exactly when larger than `_maxTrSize`, or, when it fits, exactly when its source is not the contributor, changing nothing; every post it makes goes to the transition buffer of its service with its whole size |
| MebContributor.PostTransitionSpec | psdaq/psdaq/eb/MebContributor.cc:131-173 | a transition never counts an event, changes nothing when it throws, only appends to the post log, and posts to every link when it returns 0 |
| MebContributor.Broadcast | psdaq/psdaq/eb/MebContributor.cc:154-172 | the transition loop never throws and makes at most one post per link, one for every link when it returns 0, and every post is the same datagram, size, offset and immediate data, sent to some link |
| MebContributor.BroadcastStops | psdaq/psdaq/eb/MebContributor.cc:169 | once a post has failed on some prefix of the links, the remaining links are not posted to |
| MebContributor.BroadcastLoop | psdaq/psdaq/eb/MebContributor.cc:154-172 | the loop over the links computes the posts and return code of `Broadcast` |
| MebContributor.Contributor.constructor | psdaq/psdaq/eb/MebContributor.cc:21-31 | the event region is `maxEvents * _maxEvSize` (in 64 bits), there are no links, the id is -1 as an `unsigned` and the event count is 0 |
| MebContributor.Contributor.Configure | psdaq/psdaq/eb/MebContributor.cc:37-75 | `configure` sets the id, zeroes the event count and connects the resized link table as `Connect` does |
| MebContributor.Contributor.Shutdown | psdaq/psdaq/eb/MebContributor.cc:77-86 | `shutdown` drops every link and sets the id to -1 |
| MebContributor.Contributor.PostEvent | psdaq/psdaq/eb/MebContributor.cc:88-129 | the L1Accept `post` computes the new count, posts and outcome of `PostEventSpec` |
| MebContributor.Contributor.PostTransition | psdaq/psdaq/eb/MebContributor.cc:131-173 | the transition `post` computes the new posts and outcome of `PostTransitionSpec` |
| MonReqServer.PackRoundTrip | psdaq/psdaq/monreq/monReqServer.cc:395 | a buffer index below 256 placed in bits 16-23 of env is read back unchanged by `_deleteDatagram`, and the other bits of env are kept |
| MonReqServer.PackTruncates | psdaq/psdaq/monreq/monReqServer.cc:395 | an index of 256 or more loses its upper bits on the way back, and index 256 sets bit 24 of env |
| MonReqServer.CheckOptionsBounds | psdaq/psdaq/monreq/monReqServer.cc:841-874 | `main` exits with 1 when the 32-bit partition field equals `NO_PARTITION` (0xFFFFFFFF), so `-p -1` is refused; it proceeds exactly when the partition is not `NO_PARTITION`, instrument, collection server and alias are given, and the buffer count (8 unless `-n` gives another) is neither 0 nor above 255; the count used is then raised to at least 8; every other case exits with 1 |
| MonReqServer.CheckOptions | psdaq/psdaq/monreq/monReqServer.cc:841-874 | an exit is always with 1; when `main` proceeds, the partition is not `NO_PARTITION`, the given count is not 0, and the count used is the given one or more, between 8 and 255 |
| MonReqServer.PartitionRejected | psdaq/psdaq/monreq/monReqServer.cc:768-803 | the partition field is `NO_PARTITION` exactly when `strtoul` failed or its result is 0xFFFFFFFF modulo 2^32, otherwise it is that result modulo 2^32; the value `strtoul` gives for `-1` makes `main` exit with 1 |
| MonReqServer.DefaultBuffersAccepted | psdaq/psdaq/monreq/monReqServer.cc:791-874 | without `-n` the buffer count is 8 and `main` proceeds exactly when partition, instrument, collection server and alias are given; the count is 0 exactly when `sscanf` read a multiple of 2^32, and `-n -1` makes `main` exit with 1 |
| MonReqServer.BufferIndexRoundTrips | psdaq/psdaq/monreq/monReqServer.cc:866-874 | after `main`'s checks every buffer index fits in the 8 bits of env and survives the round trip |
| MonReqServer.Find | psdaq/psdaq/monreq/monReqServer.cc:215-225 | the position returned is the first occurrence of the index in the free list, or the list length when it is absent |
| MonReqServer.Range | psdaq/psdaq/monreq/monReqServer.cc:136-143 | the buffers pushed by `configure`'s fill loop are 0, 1, ..., n-1 in order |
| MonReqServer.DeleteNeverDuplicates | psdaq/psdaq/monreq/monReqServer.cc:195-238 | deleting never duplicates an index on the free list: a double free leaves the list alone and reports where the index already is, otherwise the index is appended exactly when there is room; an out-of-range index only warns; the list stays distinct and within capacity |
| MonReqServer.DeleteSpec | psdaq/psdaq/monreq/monReqServer.cc:195-238 | a delete warns exactly when the index is out of range, reports a double free exactly when the index is on the free list and then where it is, appends the index only when it freed it, and keeps the list within capacity |
| MonReqServer.NoFreeBufferPostsNothing | psdaq/psdaq/monreq/monReqServer.cc:245-249 | with an empty free list a request posts nothing and changes nothing |
| MonReqServer.RoundRobinOrder | psdaq/psdaq/monreq/monReqServer.cc:260-273 | the buffer is offered to consecutive TEB links from the cursor, wrapping around, stopping right after the first post that answers 0, with the cursor left one past the last link tried |
| MonReqServer.RoundIsInjective | psdaq/psdaq/monreq/monReqServer.cc:265 | within one round the wrapped cursor visits no link twice |
| MonReqServer.RequestRoundRobin | psdaq/psdaq/monreq/monReqServer.cc:240-280 | a request takes the head of the free list and offers it to between 1 and n distinct TEBs in round-robin order from the cursor; it is delivered exactly when the last post answers 0, and otherwise every TEB was tried and the last answer is returned |
| MonReqServer.RequestSpec | psdaq/psdaq/monreq/monReqServer.cc:240-280 | a request finds no buffer exactly when the free list is empty and then changes nothing; otherwise it pops the head of the free list, keeps the links, and appends at most one request per TEB, each for that buffer and to a TEB in range |
| MonReqServer.RequestWithoutLinks | psdaq/psdaq/monreq/monReqServer.cc:245-279 | with no TEB links the free-list head is still taken and nothing is posted, with result -1 |
| MonReqServer.MonitorServer.constructor | psdaq/psdaq/monreq/monReqServer.cc:81-95 | a new server has its buffer capacity, cursor 0, id -1, no links and an empty free list |
| MonReqServer.MonitorServer.Configure | psdaq/psdaq/monreq/monReqServer.cc:99-147 | links connected as the TEB connection loop leaves them; on success from an empty free list every buffer 0..capacity-1 is on it in order; from a non-empty one the fill stops at capacity and -1 is returned; from an empty free list the list is left within capacity and without a repeated index |
| MonReqServer.MonitorServer.Shutdown | psdaq/psdaq/monreq/monReqServer.cc:149-159 | links and free list emptied and the id reset to -1 |
| MonReqServer.MonitorServer.DeleteDatagram | psdaq/psdaq/monreq/monReqServer.cc:195-238 | the new free list and outcome are those of the deletion specification for the index in env, so the list stays distinct and within capacity |
| MonReqServer.MonitorServer.RequestDatagram | psdaq/psdaq/monreq/monReqServer.cc:240-280 | the new cursor, free list and posts and the outcome are those of the request specification, and taking the head buffer keeps the free list within capacity and free of repeats, as `DeleteDatagram` needs |
| MonReqServer.OfferBuffer | psdaq/psdaq/monreq/monReqServer.cc:256-279 | the loop's posts, cursor and outcome are those of the round-robin specification |
| MonReqServer.RoundRobinStops | psdaq/psdaq/monreq/monReqServer.cc:268-272 | once a post is delivered (or a link is missing) later iterations change nothing |
| MonReqServer.PortOffset | psdaq/psdaq/monreq/monReqServer.cc:625-642 | the port base and the id offset both wrap in 32 bits, which equals one wrap of the full sum |
| MonReqServer.ResizeSizes | psdaq/psdaq/monreq/monReqServer.cc:654 | resizing gives exactly the requested number of slots |
| MonReqServer.ScanDrps | psdaq/psdaq/monreq/monReqServer.cc:660-683 | the DRP loop keeps one contractor word per readout group and the `maxTrSize` length |
| MonReqServer.DrpStep | psdaq/psdaq/monreq/monReqServer.cc:661-682 | one DRP entry keeps one contractor word per readout group and the `maxTrSize` length |
| MonReqServer.ScanDrpsCompletes | psdaq/psdaq/monreq/monReqServer.cc:660-683 | with every DRP id and readout group in range and room for every id, the DRP loop neither fails nor writes out of bounds |
| MonReqServer.ScanDrpsMembers | psdaq/psdaq/monreq/monReqServer.cc:668-678 | `contributors` is the OR of every DRP's bit, each `contractors[g]` the OR of group g's DRPs, `groups` the OR of the groups named |
| MonReqServer.ScanDrpsSums | psdaq/psdaq/monreq/monReqServer.cc:681-682 | the size sums are the sums over the entries, wrapping at 2^64 |
| MonReqServer.ScanDrpsSizes | psdaq/psdaq/monreq/monReqServer.cc:680 | each `maxTrSize` slot holds the size the last entry with that id gave, or its earlier value |
| MonReqServer.ScanDrpsRejects | psdaq/psdaq/monreq/monReqServer.cc:663-674 | an entry with an out-of-range DRP id or readout group stops the loop, as a failure whenever `maxTrSize` has room for every id |
| MonReqServer.ScanDrpsDefined | psdaq/psdaq/monreq/monReqServer.cc:680 | with a slot for every possible DRP id the loop never writes out of bounds |
| MonReqServer.ScanTebsRejects | psdaq/psdaq/monreq/monReqServer.cc:700-704 | an out-of-range TEB id fails the TEB loop |
| MonReqServer.ParseRejects | psdaq/psdaq/monreq/monReqServer.cc:623-710 | the parse fails on an out-of-range MEB id, a missing `drp` or `teb` section, or an out-of-range DRP, readout group or TEB id |
| MonReqServer.ParseSpec | psdaq/psdaq/monreq/monReqServer.cc:623-710 | a parse fails on an out-of-range MEB id or a missing `drp` section; a successful one has the MEB id and interface address of the message, a `teb` section, and one address and one port per TEB |
| MonReqServer.ParseSpecFixed | psdaq/psdaq/monreq/monReqServer.cc:623-710 | with one `maxTrSize` slot per possible DRP id the parse is never undefined, fails on the same inputs, and succeeds with the same parameter shape |
| MonReqServer.ParseShape | psdaq/psdaq/monreq/monReqServer.cc:623-710 | for any number of `maxTrSize` slots, the parse fails on an out-of-range MEB id or a missing `drp` section and a successful parse keeps the MEB id and the interface address and gives one address and port per TEB |
| MonReqServer.ParsePorts | psdaq/psdaq/monreq/monReqServer.cc:625-707 | a parsed MEB keeps its id and address, listens on the MEB port for its id, and reaches TEB entry k at its address on the request port for its TEB id, in entry order |
| MonReqServer.ParsedIsAssembled | psdaq/psdaq/monreq/monReqServer.cc:623-710 | a successful parse had a valid MEB id and both sections, and its parameters are built from the two loops' results |
| MonReqServer.ScanTebsPorts | psdaq/psdaq/monreq/monReqServer.cc:696-707 | the TEB loop lists every entry's address and port, in order |
| MonReqServer.ParseAggregates | psdaq/psdaq/monreq/monReqServer.cc:660-685 | parsed parameters carry the DRP bit-lists, each DRP's last transition size, and `maxBufferSize` as the larger size sum truncated to 32 bits |
| MonReqServer.ParseFixedIsDefined | psdaq/psdaq/monreq/monReqServer.cc:654-680 | with one `maxTrSize` slot per possible DRP id the parse is always defined |
| MonReqServer.MaxTrSizeOverrun | psdaq/psdaq/monreq/monReqServer.cc:654-680 | a single DRP entry with id 1 on a first connect makes the code as written write past `maxTrSize`, while the corrected sizing parses it |
| MonReqServer.ParseConnectionParams | psdaq/psdaq/monreq/monReqServer.cc:623-710 | the method's result is that of the parse specification |
| MonReqServer.ScanDrpsLoop | psdaq/psdaq/monreq/monReqServer.cc:660-683 | the loop's result is that of the DRP scan specification |
| MonReqServer.ScanTebsLoop | psdaq/psdaq/monreq/monReqServer.cc:696-707 | the loop's result is that of the TEB scan specification |
| MonReqServer.ScanDrpsStops | psdaq/psdaq/monreq/monReqServer.cc:663-674 | once the DRP loop has failed, later entries change nothing |
| MonReqServer.ScanTebsStops | psdaq/psdaq/monreq/monReqServer.cc:700-704 | once the TEB loop has failed it stays failed |
| AmiWorker.Perform | ami/ami/worker.py:28-57 | each call on the store or the graph is appended to the trace and raises exactly when the environment says so, leaving the reconfigure flag alone |
| AmiWorker.RunSpec | ami/ami/worker.py:26-57 | a running worker's trace only grows, and its first new entry is the store message of the `Allocate` transition with the source's partition; a worker that is no longer running stays as it is |
| AmiWorker.Creates | ami/ami/worker.py:29-30 | one `store.create` per partition entry, in partition order |
| AmiWorker.Puts | ami/ami/worker.py:47-48 | one `store.put_dgram` per datagram of the batch, in batch order |
| AmiWorker.Names | ami/ami/worker.py:46-49 | the `updates` list holds the datagram names in batch order |
| AmiWorker.PerformAllTrace | ami/ami/worker.py:47-48 | the calls are made in order: the trace grows by a prefix of them, by all of them exactly when none raised, and stops right after the first that raised |
| AmiWorker.PerformAllHalted | ami/ami/worker.py:47-48 | once a call has raised, the remaining calls are not made |
| AmiWorker.AllocationFirst | ami/ami/worker.py:27-30 | the run's trace begins with the Allocate transition and the creates in partition order, unless one of those calls raised and the run stopped there |
| AmiWorker.FoldHalted | ami/ami/worker.py:31-57 | once `run` has returned or raised, no further input is processed |
| AmiWorker.FoldHaltedPrefix | ami/ami/worker.py:50-54 | after a runtime error in some batch the rest of the stream changes nothing |
| AmiWorker.HeartbeatExtends | ami/ami/worker.py:33-44 | a Heartbeat appends at least one call and no `store.message` |
| AmiWorker.ExecuteTrace | ami/ami/worker.py:50-55 | `execute` is called once, and `collect` follows exactly when it returns |
| AmiWorker.DatagramExtends | ami/ami/worker.py:45-55 | a Datagram batch only appends calls, none of them a `store.message` |
| AmiWorker.HandleExtends | ami/ami/worker.py:33-57 | every message only appends calls, none of them a `store.message` |
| AmiWorker.StepExtends | ami/ami/worker.py:23-57 | every input, message or new graph, only appends calls, none of them a `store.message` |
| AmiWorker.FoldExtends | ami/ami/worker.py:31-57 | the message loop only appends calls, none of them a `store.message` |
| AmiWorker.ExactlyOneAllocateMessage | ami/ami/worker.py:26-57 | a run makes exactly one `store.message` call, its first, carrying the Allocate transition with the partition |
| AmiWorker.HeartbeatWithoutUpdate | ami/ami/worker.py:33-44 | a Heartbeat with the flag clear makes no graph call and is forwarded once |
| AmiWorker.HeartbeatWithUpdate | ami/ami/worker.py:34-44 | a Heartbeat with the flag set calls `configure`, and `revert` once on a configuration error; the flag is cleared and the Heartbeat forwarded in both outcomes; any other exception ends the run |
| AmiWorker.DatagramBatch | ami/ami/worker.py:45-55 | every datagram is put in order, `execute` gets their names in that order, then `collect` is called once; a graph runtime error makes `run` return 1 with no collect |
| AmiWorker.OthersForwarded | ami/ami/worker.py:56-57 | Transitions and Occurrences other than Heartbeats are forwarded unchanged, with nothing else done |
| AmiWorker.PutsForwardNothing | ami/ami/worker.py:47-48 | putting datagrams forwards nothing and collects nothing |
| AmiWorker.ForwardsOfHeartbeat | ami/ami/worker.py:33-44 | a Heartbeat that does not end the run forwards exactly itself and collects nothing |
| AmiWorker.DatagramCalls | ami/ami/worker.py:47-55 | a batch that runs through forwards nothing and collects once |
| AmiWorker.ForwardsOfDatagram | ami/ami/worker.py:45-55 | a Datagram batch that does not end the run forwards nothing and collects once |
| AmiWorker.OneStep | ami/ami/worker.py:31-57 | one input that does not end the run forwards the message exactly when it is not a Datagram, and collects once exactly when it is |
| AmiWorker.ForwardsAreNonDatagrams | ami/ami/worker.py:31-57 | over a run that has not stopped, the forwarded messages are exactly the delivered non-Datagram messages in order, with one `collect` per Datagram batch |
| AmiWorker.Worker.constructor | ami/ami/worker.py:16-21 | a new worker has made no call and has the reconfigure flag clear |
| AmiWorker.Worker.Notify | ami/ami/worker.py:23-24 | the listener installs the new graph with `update`, then sets the flag |
| AmiWorker.Worker.Invoke | ami/ami/worker.py:28-57 | one call appended to the trace, answered by the environment |
| AmiWorker.Worker.InvokeAll | ami/ami/worker.py:29-30 | the calls made one after the other, as the sequence specification says |
| AmiWorker.Worker.HandleHeartbeat | ami/ami/worker.py:33-44 | the Heartbeat branch does what the Heartbeat specification says |
| AmiWorker.Worker.PutDgrams | ami/ami/worker.py:46-49 | the datagrams are put as the sequence specification says, and when none raised the `updates` list holds their names in order |
| AmiWorker.Worker.HandleDatagram | ami/ami/worker.py:45-55 | the Datagram branch does what the batch specification says |
| AmiWorker.Worker.HandleMessage | ami/ami/worker.py:33-57 | one pass of the loop body does what the per-message specification says |
| AmiWorker.Worker.Run | ami/ami/worker.py:26-57 | the whole of `run` does what the run specification says |
| AmiWorker.RoundOutcome | ami/ami/worker.py:72-78 | a completed round makes its upstream calls in order up to and including the first that raises; its counter is reset exactly when none raises, and otherwise the collector ends with the counter not reset |
| AmiWorker.CounterBounds | ami/ami/worker.py:69-89 | while the collector runs both counters stay in [0, n); each moves only on its own kind of message and resets exactly when it reaches n and the round's upstream calls return; a raising upstream call ends the collector with that counter at n; a Datagram changes nothing |
| AmiWorker.BarrierExact | ami/ami/worker.py:60-89 | from fresh counters the upstream calls made are always the first ones of those of the completed rounds; the collector still runs exactly when every such call returned, and then each counter is its kind's message count modulo n and every call of the completed rounds has been made |
| AmiWorker.BarrierStep | ami/ami/worker.py:69-89 | one message on a running collector that matches the barrier so far adds a prefix of that message's round calls, all of them exactly when none raises, and keeps the counters at the message counts modulo n |
| AmiWorker.HeartbeatCollects | ami/ami/worker.py:79-86 | over k Heartbeats a collector of n workers calls `collect` k / n times |
| AmiWorker.CollectsCountHeartbeatRounds | ami/ami/worker.py:79-86 | without Transitions the collector makes only upstream `collect` calls |
| AmiWorker.Collector.constructor | ami/ami/worker.py:61-67 | a new collector has both counters 0, has made no upstream call and answers upstream calls by the given oracle |
| AmiWorker.Collector.Upstream | ami/ami/worker.py:76 | one upstream call appended to the trace, answered by the oracle at its position |
| AmiWorker.Collector.StoreMsg | ami/ami/worker.py:69-89 | the counters, the upstream calls and whether one raised change as the barrier specification says |
| AmiWorker.RunWorker | ami/ami/worker.py:90-111 | `run_worker` returns 1 exactly when its source is `static` and the JSON file cannot be opened or parsed; it ends in `sys.exit` exactly when the file was loaded and `run` did not raise, with code 0 exactly when `run` returned normally and 1 exactly when it returned 1 |
| AmiWorker.ProcessExitCode | ami/ami/worker.py:207-217 | a worker process exits with its `sys.exit` code; otherwise with 0 exactly when its target returned and with 1 exactly when it raised |
| AmiWorker.RunWorkerLosesConfigFailure | ami/ami/worker.py:92-111 | a worker whose JSON file cannot be opened or parsed exits with status 0, like one that ran to completion |
| AmiWorker.RunWorkerFixed | ami/ami/worker.py:92-111 | with `sys.exit(1)` on the JSON failures, a worker process exits 0 exactly when it ran to completion without error |
| AmiWorker.MpiExitCode | ami/ami/worker.py:185-231 | with `--mpi`, the exit code is 0 after a keyboard interrupt, 1 for a source string without `://`, that of the collector on rank 0, and on any other rank that of a worker process for the source's protocol |
| AmiWorker.MpiWorkerIsProcess | ami/ami/worker.py:193-199 | on an MPI worker rank the process exits as a local-mode worker process does: `main` returns 0 after `run_worker` returns, so a returned value is lost, and a `sys.exit` code propagates |
| AmiWorker.MpiWorkerLosesConfigFailure | ami/ami/worker.py:97-102 | an MPI worker whose configuration file cannot be opened or parsed exits with 0, although it did not run |
| AmiWorker.MpiCollectorMissesRounds | ami/ami/worker.py:193-199 | with `run_collector(size)` and only size - 1 worker ranks, r rounds of one Heartbeat per worker give fewer than r `collect` calls, and none by the end of the first round |
| AmiWorker.MpiCollectorFixed | ami/ami/worker.py:193-199 | with size - 1 as the collector's `num_workers`, each such round gives exactly one `collect` |
| AmiWorker.SourceMatchSplits | ami/ami/worker.py:186-191 | the source string matches exactly when its first line has a `://`; the two groups rebuild that line around its last `://` |
| AmiWorker.JoinAll | ami/ami/worker.py:212-217 | a failed worker is recorded exactly when some process exited non-zero |
| AmiWorker.MainLocal | ami/ami/worker.py:185-227 | `main` returns 1 exactly when there was no interrupt and the source did not match or some worker or the collector exited non-zero, and 0 otherwise |
| Xvc.Ascii | psdaq/psdaq/mmhw/Xvc.cc:45 | the reply text is sent as one octet per character |
| Xvc.Incoming | psdaq/psdaq/mmhw/Xvc.cc:31-41 | the n bytes the client sends from a given position, in order |
| Xvc.Reading | psdaq/psdaq/mmhw/Xvc.cc:31-41 | `sread` returns 1 exactly when all len bytes arrived, and otherwise the result of a read that returned at most 0, never more bytes than asked |
| Xvc.SreadFirstFailure | psdaq/psdaq/mmhw/Xvc.cc:33-40 | a complete `sread` made only reads that returned data, at most one per byte; a failed one stops at its first read that returned no data, which it returns, after reads that all returned data |
| Xvc.Le | psdaq/psdaq/mmhw/Xvc.cc:127-128 | up to four bytes copied into a zeroed word give a value below 256 to the number of bytes |
| Xvc.WordBytes | psdaq/psdaq/mmhw/Xvc.cc:141 | `memcpy` out of a word gives exactly the bytes asked for |
| Xvc.WordBytesLe32 | psdaq/psdaq/mmhw/Xvc.cc:141 | the four bytes copied out of a word are its little-endian encoding |
| Xvc.LeRoundTrip | psdaq/psdaq/mmhw/Xvc.cc:127-141 | copying bytes into a zeroed word and the word back out gives the bytes |
| Xvc.WordRoundTrip | psdaq/psdaq/mmhw/Xvc.cc:155-169 | the first n bytes of a word copied into a zeroed word give the word modulo 256^n |
| Xvc.Unpack | psdaq/psdaq/mmhw/Xvc.cc:141 | laying out words four bytes each gives exactly the bytes asked for |
| Xvc.Width | psdaq/psdaq/mmhw/Xvc.cc:126-156 | every run of the engine takes between 1 and 4 bytes of each vector, and none reaches past the vector |
| Xvc.Chunks | psdaq/psdaq/mmhw/Xvc.cc:117-179 | a shift of nr bytes per vector runs the engine once per started 4-byte group |
| Xvc.ChunkIndex | psdaq/psdaq/mmhw/Xvc.cc:122-179 | run k of the loop is chunk k, whatever the number of runs so far |
| Xvc.WholeChunks | psdaq/psdaq/mmhw/Xvc.cc:126-145 | vectors of whole words take one run per word |
| Xvc.Tdos | psdaq/psdaq/mmhw/Xvc.cc:140 | one TDO word per run of the engine |
| Xvc.TdosAreWords | psdaq/psdaq/mmhw/Xvc.cc:140 | every TDO word fits the 32 bits of `tdo_offset` |
| Xvc.VectorsRoundTrip | psdaq/psdaq/mmhw/Xvc.cc:122-179 | the runs cover the two vectors exactly and in order: laid out again, their TMS words are the first vector and their TDI words the second |
| Xvc.VectorByte | psdaq/psdaq/mmhw/Xvc.cc:127-156 | byte i of each vector laid out again from the runs is byte i of that vector |
| Xvc.ReplyCarriesTdos | psdaq/psdaq/mmhw/Xvc.cc:141-169 | the reply carries the TDO word of run k in bytes 4k onward: read back they give the word, cut to the width of a shorter last chunk |
| Xvc.Lengths | psdaq/psdaq/mmhw/Xvc.cc:130-158 | one length register value per run of the engine |
| Xvc.NrBytes | psdaq/psdaq/mmhw/Xvc.cc:99 | `nr_bytes` is the C quotient of `len + 7` by 8: for a non-negative numerator, the number of whole bytes holding `len` bits, and otherwise rounded toward zero |
| Xvc.NrBytesBounds | psdaq/psdaq/mmhw/Xvc.cc:99 | for a bit count that is not negative, `nr_bytes` is the number of bytes the bits occupy |
| Xvc.ClocksAsWritten | psdaq/psdaq/mmhw/Xvc.cc:126-158 | as written, a shift clocks exactly its bit count only when the count modulo 32 is 0 or at most 24, since a four-byte chunk is written with length 32 even when fewer bits are left |
| Xvc.ShiftOf25Bits | psdaq/psdaq/mmhw/Xvc.cc:126-133 | a 25-bit shift is one run of the engine written with 32 bits |
| Xvc.FixedLengths | psdaq/psdaq/mmhw/Xvc.cc:126-158 | the corrected lengths give one value per run |
| Xvc.ClocksFixed | psdaq/psdaq/mmhw/Xvc.cc:126-158 | with each length cut to the bits left, a shift clocks exactly its bit count: 32 per run and between 1 and 32 in the last |
| Xvc.RoundsStopped | psdaq/psdaq/mmhw/Xvc.cc:47-185 | once a command stops the loop, more rounds change nothing |
| Xvc.RoundsCodes | psdaq/psdaq/mmhw/Xvc.cc:47-187 | a loop whose rounds each return 0 or 1, or go on after one reply, returns only 0 or 1, with one reply per round that went on |
| Xvc.CommandStep | psdaq/psdaq/mmhw/Xvc.cc:48-184 | a command only extends what was read, shifted and written, and goes on or is undefined only after a `sh` prefix |
| Xvc.GetInfoStep | psdaq/psdaq/mmhw/Xvc.cc:55-67 | `getinfo:` returns 0 or 1, shifts nothing, and on 0 has written `xvcInfo` |
| Xvc.SetTckStep | psdaq/psdaq/mmhw/Xvc.cc:68-80 | `settck:` returns 0 or 1, shifts nothing, and on 0 has read 9 bytes and written one reply |
| Xvc.CommandOutcomes | psdaq/psdaq/mmhw/Xvc.cc:47-91 | a command returns 0 only after `getinfo:` with `xvcInfo` as its one reply or `settck:` echoing the period, having read exactly the command and shifted nothing; it goes on only after a `shift:` with one reply; an unknown prefix returns 1 after its two bytes with nothing written |
| Xvc.CommandCodes | psdaq/psdaq/mmhw/Xvc.cc:47-185 | a command returns only 0 or 1, and one that goes on has written one reply |
| Xvc.GetInfoOutcome | psdaq/psdaq/mmhw/Xvc.cc:55-67 | `getinfo:` returns 0 or 1, and 0 only after its 6 bytes with `xvcInfo` as the reply |
| Xvc.SetTckOutcome | psdaq/psdaq/mmhw/Xvc.cc:68-80 | `settck:` returns 0 or 1, and 0 only after its 9 bytes with bytes 5 to 8 echoed |
| Xvc.ShiftCodes | psdaq/psdaq/mmhw/Xvc.cc:81-183 | a `shift:` never returns 0, and one that goes on has written one reply |
| Xvc.LengthBound | psdaq/psdaq/mmhw/Xvc.cc:99-103 | a bit count over 8192 is rejected with 1 before any vector byte is read, and every smaller one passes the check, negative ones included |
| Xvc.NegativeLengthReads | psdaq/psdaq/mmhw/Xvc.cc:99-108 | a bit count of -15 or less passes the bound check with a negative vector size; the shift then never goes on and shifts and writes nothing; it returns 1 at once when `read` refuses the count, and is undefined exactly when more than the 2048 bytes of `buffer` have arrived |
| Xvc.NegativeReading | psdaq/psdaq/mmhw/Xvc.cc:31-41 | `sread` with a negative count asks every `read` for the count left as a `size_t`, makes no shift and no reply, returns 1 at the first read without data, and is undefined exactly when the bytes read overrun `buffer` |
| Xvc.FixedGuard | psdaq/psdaq/mmhw/Xvc.cc:99-108 | the corrected check admits exactly 0 to 8192 bits, and then both vectors fit `buffer` and the reply fits `result` |
| Xvc.Guard | psdaq/psdaq/mmhw/Xvc.cc:99-108 | the shift goes on exactly when `len + 7` does not overflow and `nr_bytes` is neither negative nor over the bound, with both vectors then fitting the buffer; otherwise it returns 1 or is undefined, having written and shifted nothing, and it reads further only for a negative `nr_bytes`, which is handed to the vector `sread` |
| Xvc.ShiftOutcome | psdaq/psdaq/mmhw/Xvc.cc:81-183 | a `shift:` that goes on has read the bit count and exactly the two vectors of `nr_bytes` each; its runs laid out again are the TMS and TDI vectors; its one reply is the runs' TDO words, `nr_bytes` of them |
| Xvc.HeaderOutcome | psdaq/psdaq/mmhw/Xvc.cc:81-103 | a header that goes on has read exactly the rest of `shift:` and the 4-byte bit count, and admits at most 1024 bytes per vector |
| Xvc.Transfer | psdaq/psdaq/mmhw/Xvc.cc:105-183 | the transfer goes on or returns 1; when it goes on it has read both vectors of `nr_bytes`, made one shift per 4-byte chunk, and written one reply of `nr_bytes` |
| Xvc.TransferOutcome | psdaq/psdaq/mmhw/Xvc.cc:105-183 | a transfer that goes on reads exactly its two vectors, makes their runs in order and writes their TDO words |
| Xvc.Handle | psdaq/psdaq/mmhw/Xvc.cc:43-188 | `handle_data` only extends what was read, shifted and written |
| Xvc.HandleCodes | psdaq/psdaq/mmhw/Xvc.cc:43-188 | `handle_data` returns only 0 or 1, and while it is still running every command so far was a `shift:` with one reply |
| Xvc.CopyWord | psdaq/psdaq/mmhw/Xvc.cc:141 | `memcpy` of n bytes of a word into the result puts its first n little-endian bytes there and leaves the rest |
| Xvc.Connection.constructor | psdaq/psdaq/mmhw/Xvc.cc:43-50 | a new connection has read, written and shifted nothing |
| Xvc.Connection.Read | psdaq/psdaq/mmhw/Xvc.cc:34 | one read call returns at most the count asked for and consumes the bytes it returns |
| Xvc.Connection.Sread | psdaq/psdaq/mmhw/Xvc.cc:31-41 | the reads and result are those of the `sread` specification, and the bytes read are the next ones sent |
| Xvc.Connection.Write | psdaq/psdaq/mmhw/Xvc.cc:59 | one buffer written, the result given by the client side |
| Xvc.Connection.ShiftOnce | psdaq/psdaq/mmhw/Xvc.cc:130-140 | one run of the engine recorded, its TDO word a 32-bit value |
| Xvc.Connection.HandleData | psdaq/psdaq/mmhw/Xvc.cc:43-188 | the connection does what the `handle_data` specification says |
| Xvc.Connection.HandleCommand | psdaq/psdaq/mmhw/Xvc.cc:48-184 | one pass of the loop does what the command specification says |
| Xvc.Connection.HandleGetInfo | psdaq/psdaq/mmhw/Xvc.cc:55-67 | the `getinfo:` branch shifts nothing and does what its specification says |
| Xvc.Connection.HandleSetTck | psdaq/psdaq/mmhw/Xvc.cc:68-80 | the `settck:` branch shifts nothing and does what its specification says |
| Xvc.Connection.HandleShift | psdaq/psdaq/mmhw/Xvc.cc:81-183 | the `shift:` branch does what its specification says |
| Xvc.Connection.ReadShiftHeader | psdaq/psdaq/mmhw/Xvc.cc:81-103 | the header is read and checked as its specification says, and a vector size that goes on fits `result` |
| Xvc.Connection.ReadLength | psdaq/psdaq/mmhw/Xvc.cc:93-103 | the bit count is read and checked as its specification says |
| Xvc.Connection.SreadNegative | psdaq/psdaq/mmhw/Xvc.cc:31-41 | the read loop for a negative count ends as its specification says, in the state it gives |
| Xvc.Connection.HandleTransfer | psdaq/psdaq/mmhw/Xvc.cc:105-183 | both vectors read, shifted and answered as the transfer specification says |
| Xvc.Connection.ShiftChunks | psdaq/psdaq/mmhw/Xvc.cc:117-179 | the chunk loop runs the engine once per chunk in order, and `result` starts with the chunks' TDO words laid out as bytes |
| Xvc.Connection.RunChunk | psdaq/psdaq/mmhw/Xvc.cc:123-178 | one pass of the chunk loop runs the next chunk and appends its TDO bytes to `result` |
| DrpMain.LeadingSpaces | psdaq/drp/drp.cc:116 | `std::stoi` skips exactly the leading white space |
| DrpMain.DigitRun | psdaq/drp/drp.cc:116 | `std::stoi` reads exactly the leading run of digits |
| DrpMain.Stoi | psdaq/drp/drp.cc:116 | every value `std::stoi` returns fits an `int` |
| DrpMain.StoiReadsDecimal | psdaq/drp/drp.cc:116 | `std::stoi` reads back every `int` written in decimal, also when non-digit text follows |
| DrpMain.StoiRejectsNoDigits | psdaq/drp/drp.cc:116 | text without a digit makes `std::stoi` throw |
| DrpMain.GetlineTokens | psdaq/drp/drp.cc:13-15 | `getline` with `,` yields no token exactly for the empty string, and no token contains a comma |
| DrpMain.GetlineTokensJoin | psdaq/drp/drp.cc:13-15 | no token from the `getline` loop holds a comma, and a string not ending in a comma is its tokens joined by commas |
| DrpMain.RemoveSpaces | psdaq/drp/drp.cc:16 | erasing spaces leaves no space, keeps every other character, and leaves a token without spaces unchanged |
| DrpMain.RemoveSpacesAppend | psdaq/drp/drp.cc:16 | erasing spaces from a concatenation erases them from each part |
| DrpMain.ParseKwarg | psdaq/drp/drp.cc:16-24 | a token has no key exactly when, with its spaces removed, it starts with `=`; a key has no `=` and no space, a value no space; a token with `=` is the key, `=` and the value |
| DrpMain.KwargRoundTrip | psdaq/drp/drp.cc:17-24 | a key without `=`, `=`, then any value (which may hold `=`) parse back to that key and value |
| DrpMain.KwargWithoutEquals | psdaq/drp/drp.cc:17-23 | a token with no `=` is its own key and value, and a token is rejected exactly when its first character after space removal is `=` |
| DrpMain.KwargsStops | psdaq/drp/drp.cc:15-21 | once a token has thrown, the remaining tokens are not looked at |
| DrpMain.KwargsSpec | psdaq/drp/drp.cc:12-27 | a returned map keeps every key it started with, and holds the last token's key with its value |
| DrpMain.GetKwargs | psdaq/drp/drp.cc:12-27 | the loop builds the map (or throws) as the keyword specification says for the `getline` tokens |
| DrpMain.KwargsThrowsIff | psdaq/drp/drp.cc:15-21 | `get_kwargs` throws exactly when some token, spaces deleted, starts with `=` |
| DrpMain.KwargsLastWins | psdaq/drp/drp.cc:15-25 | when no token is rejected, a key holds the value of the last token naming it |
| DrpMain.KwargsUntouched | psdaq/drp/drp.cc:15-25 | when no token is rejected, a key no token names keeps its earlier value or stays absent |
| DrpMain.InstrumentOption | psdaq/drp/drp.cc:64-71 | `-P` keeps the instrument up to its first `:`, and the whole value when it has none |
| DrpMain.SplitAlias | psdaq/drp/drp.cc:109-116 | the alias is refused exactly when it has no `_` or does not end in a digit; otherwise `detName` is the text before the last `_` and `detSegment` what `std::stoi` reads after it |
| DrpMain.SplitAliasRoundTrip | psdaq/drp/drp.cc:109-116 | `<name>_<n>` splits into name and n, whatever `_` the name holds |
| DrpMain.MainSpec | psdaq/drp/drp.cc:92-124 | `main` exits only with 1; it goes on only with instrument, partition, device and alias; a run gets the alias's name and segment, the keyword map `get_kwargs` builds, and the given instrument, partition, device and alias |
| DrpMain.MainRejects | psdaq/drp/drp.cc:92-114 | `main` returns 1 exactly when the instrument, partition, device or alias is missing or the alias lacks a `_N` suffix |
| DrpMain.StationOnlyInstrument | psdaq/drp/drp.cc:64-98 | an instrument given as only a station suffix leaves no instrument, so `main` returns 1 |
| DrpMain.MainRuns | psdaq/drp/drp.cc:92-124 | with every mandatory parameter and a `<name>_<n>` alias, `main` runs with that name and segment and the keyword map `get_kwargs` builds, and ends uncaught exactly when a keyword token is rejected |
| XpmUtils.HostName | psdaq/psdaq/cas/xpm_utils.py:7-9 | `hostName` fails exactly when the reverse lookup raises; otherwise the name kept is the looked-up name up to its first `.` and after its last `-`, so it holds neither |
| XpmUtils.LinkTypeDomain | psdaq/psdaq/cas/xpm_utils.py:35-43 | the `linkType` table maps exactly the types 0xf8 to 0xff |
| XpmUtils.LinkValueFields | psdaq/psdaq/cas/xpm_utils.py:4-21 | every field the naming functions extract from a link id is the byte, or nibble of a byte, put there: the type from bits 24-31, the XPM number and crate from the two nibbles of bits 16-23, the slot or host octets from bits 8-15 and 0-7 |
| XpmUtils.XpmLinkNamesXpm | psdaq/psdaq/cas/xpm_utils.py:11-12 | an XPM link names the XPM number in bits 20-23 and the ATCA address `10.0.<bits 16-19>.<bits 8-15>` |
| XpmUtils.DtiLinkNamesAtca | psdaq/psdaq/cas/xpm_utils.py:14-15 | a DTI link names the ATCA address of its crate and slot |
| XpmUtils.HsdLinkNamesHost | psdaq/psdaq/cas/xpm_utils.py:20-21 | an HSD link looks up the host at `172.21.<bits 8-15>.<bits 0-7>` and, when the lookup does not raise, appends bits 16-23 in hexadecimal; a failed lookup raises |
| XpmUtils.AtcaIp | psdaq/psdaq/cas/xpm_utils.py:4-5 | the ATCA address splits at its dots into `10`, `0`, the crate nibble of bits 16-19 and the slot byte of bits 8-15, in decimal |
| XpmUtils.DottedQuad | psdaq/psdaq/cas/xpm_utils.py:4-5 | four dot-free strings joined with dots split back into those four |
| XpmUtils.Name | psdaq/psdaq/cas/xpm_utils.py:4-33 | a naming function raises exactly for a host-named link whose lookup fails; XPM and DTI links name the ATCA address; an XPM link's name starts with `XPM:`; other links name the host, which a HSD link extends; no name starts with `u` |
| XpmUtils.XpmLinkId | psdaq/psdaq/cas/xpm_utils.py:45-52 | `xpmLinkId` raises exactly when the type byte names a host-named device and the lookup of that host fails; it gives `undef` exactly when the type byte is outside 0xf8-0xff, and then the second part reads back as the whole id in hexadecimal |
| XpmUtils.UndefinedLink | psdaq/psdaq/cas/xpm_utils.py:45-52 | a type byte outside the table yields `undef` and the whole id in hexadecimal |
| XpmUtils.HexRoundTrip | psdaq/psdaq/cas/xpm_utils.py:21 | the hexadecimal rendering reads back to the number, so the HSD suffix determines bits 16-23 |
| Lasdb.Find | psdaq/psdaq/configdb/lasdb.py:139 | the position found is the first entry with the key, or the length when the key is absent |
| Lasdb.Store | psdaq/psdaq/configdb/lasdb.py:120 | `d[k] = v` keeps every existing key in its place and adds at most one entry |
| Lasdb.StoreGet | psdaq/psdaq/configdb/lasdb.py:120 | after `d[k] = v`, k holds v and every other key holds what it held |
| Lasdb.StoreAllAppend | psdaq/psdaq/configdb/lasdb.py:112-120 | storing two lists of entries one after the other is storing their concatenation |
| Lasdb.StoreAllGet | psdaq/psdaq/configdb/lasdb.py:112-120 | after storing a list of entries a key holds the value of the last entry naming it, or what it held when none does |
| Lasdb.Path | psdaq/psdaq/configdb/lasdb.py:113-116 | a key extends the parent PV name with `:` and the key, except `BASE`, which names the parent itself |
| Lasdb.UnpackSpec | psdaq/psdaq/configdb/lasdb.py:109-122 | unpacking never removes an entry of `out_dict` nor moves one |
| Lasdb.UnpackIsStoreAll | psdaq/psdaq/configdb/lasdb.py:109-122 | unpacking stores exactly the flattened leaves in depth-first order |
| Lasdb.FlattenLeaves | psdaq/psdaq/configdb/lasdb.py:112-120 | every pair written is a leaf whose PV name starts with the base PV |
| Lasdb.UnpackWritesLeaves | psdaq/psdaq/configdb/lasdb.py:109-122 | each PV name in the result holds the value of the last leaf written there, and a name no leaf has keeps what `out_dict` held |
| Lasdb.PyDict.constructor | psdaq/psdaq/configdb/lasdb.py:109 | a dictionary object holds the entries it is made with |
| Lasdb.UnpackPvDict | psdaq/psdaq/configdb/lasdb.py:109-122 | `_unpack_pv_dict` mutates `out_dict` as the unpacking specification says and returns that same object |
| Lasdb.Levels | psdaq/psdaq/configdb/lasdb.py:129-130 | a PV name has at least one level after every `basepv:` is removed |
| Lasdb.Nest | psdaq/psdaq/configdb/lasdb.py:131-135 | the seed dictionary has the first level as its one key |
| Lasdb.Seeds | psdaq/psdaq/configdb/lasdb.py:127-136 | one seed per parameter, in order, nesting its value under its levels |
| Lasdb.PackDict | psdaq/psdaq/configdb/lasdb.py:137-143 | merging a non-empty dictionary into a number raises; merging into a dictionary keeps every existing key in its place |
| Lasdb.PackDictIntoLeaf | psdaq/psdaq/configdb/lasdb.py:137-143 | merging an empty dictionary into a number leaves it, and a non-empty one raises |
| Lasdb.PackDictKeeps | psdaq/psdaq/configdb/lasdb.py:137-143 | `pack_dict` only inserts: every key of `out_dict` stays in its place and a number under it is never replaced |
| Lasdb.SingleLevelSeed | psdaq/psdaq/configdb/lasdb.py:129-135 | a single-level PV name `basepv:name` seeds `{name: v}` |
| Lasdb.PackFixedSingleLevels | psdaq/psdaq/configdb/lasdb.py:144-153 | the corrected pack puts single-level parameters with distinct names into an empty dictionary's `BASE`, each under its name, in order |
| Lasdb.PackAsWritten | psdaq/psdaq/configdb/lasdb.py:124-153 | `_pack_pv_dict` as written returns a dictionary with a `BASE` entry when it does not raise |
| Lasdb.PackFixed | psdaq/psdaq/configdb/lasdb.py:124-153 | the corrected pack raises on a number and otherwise returns a dictionary with a `BASE` entry |
| Lasdb.PackRebindsOutDict | psdaq/psdaq/configdb/lasdb.py:124-153 | for `P:a` and `P:b` packed into an empty dictionary, the code as written leaves a stray top-level `b` beside `BASE`, while the corrected pack gives `BASE` alone |
| Lasdb.GetIocs | psdaq/psdaq/configdb/lasdb.py:47-56 | the IOC list is no longer than the configuration and names none of `detType:RO`, `detName:RO`, `COMMON`, `:types:` |
| Lasdb.GetIocsMembers | psdaq/psdaq/configdb/lasdb.py:47-56 | a key is an IOC exactly when the configuration has it and it is none of `detType:RO`, `detName:RO`, `COMMON`, `:types:` |
| Lasdb.GetIocsAppend | psdaq/psdaq/configdb/lasdb.py:52-54 | the IOC list keeps the configuration's order |
| Lasdb.UnknownIocRejected | psdaq/psdaq/configdb/lasdb.py:58-102 | `get_ioc_config`, `set_ioc_config` and `get_ioc_parameters` all raise `ValueError` for a name that is not an IOC |
| Lasdb.GetIocConfig | psdaq/psdaq/configdb/lasdb.py:58-71 | `get_ioc_config` succeeds exactly for an IOC and then returns its entry; otherwise it raises `ValueError` |
| Lasdb.GetIocParameters | psdaq/psdaq/configdb/lasdb.py:94-107 | `get_ioc_parameters` raises `ValueError` exactly for a non-IOC; on success it returns the `CONFIG` entry of the IOC's dictionary; otherwise it raises `KeyError` or `TypeError` |
| Lasdb.KnownIocFound | psdaq/psdaq/configdb/lasdb.py:58-107 | an IOC of the configuration is returned by `get_ioc_config`, and `get_ioc_parameters` returns its `CONFIG` section |
| Lasdb.SetIocConfig | psdaq/psdaq/configdb/lasdb.py:73-92 | `set_ioc_config` as written never stores anything: it raises `AttributeError` exactly for an IOC and a configuration with both sections, `TypeError` exactly for an IOC and a number |
| Lasdb.SetIocConfigFixed | psdaq/psdaq/configdb/lasdb.py:73-92 | the corrected call stores exactly for an IOC and a configuration with both sections, keeping the size and placing the new configuration under the IOC; otherwise it raises `ValueError` or `TypeError` |
| Lasdb.SetIocConfigNeverStores | psdaq/psdaq/configdb/lasdb.py:86-90 | for a known IOC and a configuration with both sections, the call as written always raises `AttributeError` |
| Lasdb.SetIocConfigRoundTrip | psdaq/psdaq/configdb/lasdb.py:73-92 | the corrected call stores a configuration with the same IOCs, from which `get_ioc_config` returns the new configuration and `get_ioc_parameters` its `CONFIG` section |
| Lasdb.ReplaceKeepsIocs | psdaq/psdaq/configdb/lasdb.py:88 | replacing an IOC's entry keeps the IOC list |
| Lasdb.ConfigKeyName | psdaq/psdaq/configdb/lasdb.py:265 | an entry name starts with `IOC.` and is five characters longer than its section and key |
| Lasdb.ConfigFileNames | psdaq/psdaq/configdb/lasdb.py:263-266 | every name starts with `IOC.`, and no section gives no name |
| Lasdb.ConfigKeyNameSplits | psdaq/psdaq/configdb/lasdb.py:265 | an entry name splits back at its dots into `IOC`, the upper-cased section and the upper-cased key |
| Lasdb.ConfigFileNamesAppend | psdaq/psdaq/configdb/lasdb.py:263-266 | every key of a section gets a name, in order, after the names of the earlier sections |
| PsanaEvent.Le32s | psana/psana/event.py:53 | the footer holds one 4-byte word per packet size |
| PsanaEvent.ReadSizes | psana/psana/event.py:64-65 | reading a footer gives one size per whole 4-byte word |
| PsanaEvent.SizesRoundTrip | psana/psana/event.py:53-65 | sizes that fit in 32 bits read back unchanged from their words |
| PsanaEvent.ParseFooter | psana/psana/event.py:64 | a footer read from a buffer fits inside it, its size words and its packet count |
| PsanaEvent.Views | psana/psana/event.py:65 | the packets split off exactly when their sizes fit the data, one view per size |
| PsanaEvent.ViewsExtend | psana/psana/event.py:65 | views that fit the data do not see the bytes after it |
| PsanaEvent.FooterRoundTrip | psana/psana/event.py:48-65 | the footer written after a payload reads back as the sizes and leaves the payload as the data |
| PsanaEvent.Present | psana/psana/event.py:51-52 | the datagrams of the slots exist exactly when no slot is empty, one per slot in order |
| PsanaEvent.Lengths | psana/psana/event.py:53 | one recorded size per datagram, its byte length |
| PsanaEvent.PayloadSize | psana/psana/event.py:51-53 | the bytes written add up to the recorded sizes |
| PsanaEvent.Blocks | psana/psana/event.py:52 | one byte block per datagram, its bytes |
| PsanaEvent.PayloadViews | psana/psana/event.py:51-65 | the payload splits back into exactly the datagrams' bytes |
| PsanaEvent.DecodeSlots | psana/psana/event.py:69-73 | one slot per packet, `None` for an empty view and otherwise the datagram its configuration decodes |
| PsanaEvent.EventBytes | psana/psana/event.py:48-58 | `_to_bytes` raises exactly when some slot is empty, and non-empty bytes are the datagram sizes plus four bytes per slot and one for the count |
| PsanaEvent.FromBytesSpec | psana/psana/event.py:60-76 | no bytes give no slots; non-empty bytes are malformed exactly when the footer is missing or its sizes overrun the data; a count mismatch means the footer has another count than the configurations; slots come one per configuration and footer size |
| PsanaEvent.BytesRoundTrip | psana/psana/event.py:48-76 | `_from_bytes` after `_to_bytes` gives no slots for no bytes, and otherwise one slot per datagram, `None` where its bytes were empty and otherwise what its configuration decodes from exactly its bytes |
| PsanaEvent.SlotsRoundTrip | psana/psana/event.py:48-76 | non-empty datagrams that their configurations decode back to themselves survive the round trip unchanged |
| PsanaEvent.CountMismatchRejected | psana/psana/event.py:67 | a buffer with bytes and a configuration count different from its packet count fails the assertion |
| PsanaEvent.FirstPresent | psana/psana/event.py:91-94 | the loop stops at the first slot holding a datagram, or after the last slot |
| PsanaEvent.Timestamp | psana/psana/event.py:89-96 | a timestamp returned is non-zero and that of some datagram present; with no datagram the assertion fails |
| PsanaEvent.Service | psana/psana/event.py:139-147 | a service returned is non-zero and that of some datagram present; with no datagram the assertion fails |
| PsanaEvent.FirstDecides | psana/psana/event.py:88-147 | the first datagram present decides `timestamp` and `service`, whatever the later ones hold, and a zero value fails the assertion |
| PsanaEvent.NoneRaises | psana/psana/event.py:88-147 | with no datagram present, `timestamp`, `_seconds`, `_nanoseconds` and `service` all fail the assertion |
| PsanaEvent.TimestampWords | psana/psana/event.py:78-86 | a timestamp of two 32-bit words gives the high one as `_seconds` and the low one as `_nanoseconds` |
| PsanaEvent.SecondsNanoseconds | psana/psana/event.py:78-86 | every 64-bit timestamp is recovered from `_seconds` and `_nanoseconds` |
| PsanaEvent.ClassItems | psana/psana/event.py:117-118 | one item per drp class of a segment, with its detector, segment and class |
| PsanaEvent.SegmentItemsDet | psana/psana/event.py:116-118 | every item of a detector's segments belongs to that detector |
| PsanaEvent.AttrItemsShown | psana/psana/event.py:111-113 | no item comes from a hidden attribute |
| PsanaEvent.SlotItemsShown | psana/psana/event.py:106-113 | the table skips hidden attributes of every datagram present |
| PsanaEvent.AssignSpec | psana/psana/event.py:101-128 | every detector of the segment table has at least one segment, and items all of `runinfo` or `smdinfo` never fail |
| PsanaEvent.AssignFilled | psana/psana/event.py:105-126 | the segment table holds exactly the detector, class and segment triples of the items |
| PsanaEvent.AssignFailsIff | psana/psana/event.py:124-125 | the assertion fails exactly when two items of a detector other than `runinfo` and `smdinfo` give the same class and segment |
| PsanaEvent.AssignLastWins | psana/psana/event.py:126 | each table entry is the class object of the last item naming it |
| PsanaEvent.AssignStops | psana/psana/event.py:125 | once a prefix of the items fails the assertion, all of them do |
| PsanaEvent.Event.constructor | psana/psana/event.py:23-28 | the slots are taken as given, the iterator starts at 0, and the construction raises exactly when the segment table has a duplicate, which otherwise is built |
| PsanaEvent.Event.AssignDetSegments | psana/psana/event.py:101-128 | the nested loops build the segment table of the specification, or stop at the duplicate-segment assertion exactly when it fails |
| PsanaEvent.Event.Next | psana/psana/event.py:37-42 | `next()` returns the slot at the position and moves on, or raises `StopIteration` past the last slot |
| PsanaEvent.Event.Iterate | psana/psana/event.py:30-42 | iterating yields the remaining slots in order and leaves the position past the last |
| PsanaEvent.Event.Replace | psana/psana/event.py:44-46 | a position below the size replaces that slot, counting negative ones from the end; a larger one fails the assertion and one below minus the size raises `IndexError` |
| PsanaEvent.Event.ToBytes | psana/psana/event.py:48-58 | the loop's buffer is that of the framing specification |
| PsanaEvent.Event.FromBytes | psana/psana/event.py:60-76 | `_from_bytes` gives the slots of the decoding specification and an event over them exactly when it succeeds |
| PsanaEvent.Zeros | psana/psana/event.py:50 | `PacketFooter(n)` starts with n zero sizes |

## Left out

- Concurrency: the AMI listener thread and its `listen_evt` event, the multiprocessing and MPI spawning of AMI's `main`, `std::thread` start and join, and thread pinning. A new graph from the listener is a `Notify` step between messages.
- Transports and I/O appear only as oracles and parameters: RDMA/libfabric's `EbLfClient`, `connect`, `prepare` and `post`; ZMQ and MPI senders; sockets; files; the configuration database; DNS.
- Logging, `perror`, verbose printing, the Prometheus exporter and metrics, and signal handlers: none of them changes state the model keeps.
- `Xvc::launch`: the `select`/`accept` socket server is not part of this model. The register writes and the busy wait on `ctrl_offset` of one shift are a single call of the JTAG engine oracle.
- Xvc.Connection.HandleData: the source's endless command loop is bounded by a fuel count of commands. What happens after that many commands is not modelled.
- `PacketFooter` and `Dgram` internals are not part of this model. A datagram is a value carrying its bytes, timestamp, service and attributes, and its construction from a view is a parameter.
- Python truthiness of a datagram is not modelled: a present datagram is always truthy.
- psana `Event.run()`, `_has_offset` and `get_offsets_and_sizes`, which depend on classes and numpy arrays not modelled here.
- EbEvent `damage(value)`: it goes through `Damage::increase`, which is not part of this model. `EbEvent.cc` (constructor, `_add`, `_insert`) is not part of this model either.
- MebContributor: the `ImmData::src`/`idx` decoding of the destination word is not modelled. The decoded values are inputs.
- TebContributor: `Batch::index` and `_batMan.expired`/`fetchW` are oracles. Their internal arithmetic is not modelled.
- PsanaEvent.Event.AssignDetSegments: the nested loops over datagrams and attributes are one loop over the flattened attribute list, in the same order.
- Lasdb: `_pack_pv_dict` and `pack_dict` mutate nested dicts in place. They are modelled on values, with the rebinding of `out_dict` made explicit, so aliasing between nested dicts is not modelled.
- Lasdb: the module-level database connection and the reading and writing of files are left out. The configuration-file contents are an input.
- MebContributor.TransitionOffsetPastEvents: assumes the 64-bit offset does not wrap, which needs more than 2^64 bytes of buffers.
- Xvc: an answer of the `read` oracle larger than the bytes asked for is clipped to them, since the C `read` never returns more.
- AmiWorker.Collector: the `run` loop of the collector's base class is not part of this model. An exception that leaves `store_msg` is taken to end the collector.
- MonReqServer.MonitorServer.Configure: from a non-empty free list it pushes indices already on it, as the FIFO push does, and `Valid()` is not promised there. `MebApp` joins the previous thread, which shuts the server down, and resets the server before configuring again (monReqServer.cc:564-575, 343-351), so configure only meets an empty free list.
- MonReqServer.ParseConnectionParams: when it returns 1 the source has already changed `_prms` (the contributor mask, the `maxTrSize` resize, the masks of the DRPs seen so far). The model returns only the failure, not those partial updates.
- Text.Upper: maps only ASCII letters. Python's `str.upper` also maps other letters, for instance 'é' to 'É' and 'ß' to 'SS', so `Lasdb.ConfigKeyName` is exact only for ASCII section and key names.
- PsanaEvent.Event.constructor: `self._dgrams = dgrams` shares the caller's list, so a later `_replace` is also seen by the caller. The model's sequence is a copy, and this aliasing is not modelled.
- TebContributor: the consumer of `_pending`, which pops datagrams off the head of the list as their results arrive, lives outside `TebContributor.cc` and is not modelled. In the model the pending list only grows between configures, so `PendingOverflow` is reached sooner than with a consumer running.
- MebContributor.Contributor.constructor: `roundUpSize(prms.maxEvSize)` is not part of this model. Its result is an input of the constructor.
- PsanaEvent.FromBytesSpec: a footer whose sizes add up to more than the data gives `Malformed`. This is the model's choice, because `PacketFooter.split_packets` is not part of this model and Python slicing would silently give shorter views there.
- Lasdb Value: leaves are integers only. With string leaves, the source's `in` tests on a leaf would become substring tests, which the model does not capture.
- DrpMain Options.partition: an unbounded nat, with no 32-bit limit on the parsed `-p` value.
- XpmUtils link value: an unbounded nat, with no 32-bit limit; only its low 32 bits feed the fields, but the `undef` hexadecimal rendering prints the whole value.
- TebContributor: the partition is an unbounded nat, and the readout-group test is the plain bit `partition` of the group mask. The source tests `readoutGroups() & (1 << _prms.partition)` on an `int`, which is undefined for a partition of 32 or more and sets the sign bit at 31; the model does not capture either.
- Xvc.NegativeReading: what `read` does with a count above SSIZE_MAX is implementation-defined in POSIX, so the `read` oracle may still return data for it. Linux refuses such a count, and for Linux the oracle's first result is negative.
- Code outside the modelled files: GUI, HTTP and pyrogue register maps, geometry, EPICS and hardware access, and the MPI/HDF5 test scripts.

## Findings

| source | as written | input that shows it | evidently intended | confidence | as-written member | corrected member |
|---|---|---|---|---|---|---|
| psdaq/psdaq/configdb/lasdb.py:132-153 | the seed loop rebinds `out_dict`, so the dictionary filled and returned is the last seed, not the one passed in | parameters `P:a = 1` and `P:b = 2` packed into `{}` return `{'b': 2, 'BASE': {'a': 1, 'b': 2}}` | the passed-in dictionary is filled and returned: `{'BASE': {'a': 1, 'b': 2}}` | not executed | Lasdb.PackRebindsOutDict | Lasdb.PackFixedSingleLevels |
| psdaq/psdaq/configdb/lasdb.py:86-90 | `set_ioc_config` calls `self.set_current_cfg`, which the class does not define | any known IOC and a new configuration with both `IOC` and `CONFIG` sections raise `AttributeError` | the updated configuration is stored, so `get_ioc_config` returns it | not executed | Lasdb.SetIocConfigNeverStores | Lasdb.SetIocConfigRoundTrip |
| psdaq/psdaq/monreq/monReqServer.cc:654-680 | `maxTrSize` is sized by the number of DRP entries but indexed by `drp_id` | on a first connect, one DRP entry with `drp_id` 1 writes slot 1 of a one-slot vector | `maxTrSize` has `MAX_DRPS` slots | not executed | MonReqServer.MaxTrSizeOverrun | MonReqServer.ParseFixedIsDefined |
| ami/ami/worker.py:97-102 | `run_worker` returns 1 on a JSON open or parse error, but `multiprocessing.Process` ignores the return value of its target, so the worker process exits with 0 | a static source whose configuration file cannot be opened | the worker process exits non-zero | not executed | AmiWorker.RunWorkerLosesConfigFailure | AmiWorker.RunWorkerFixed |
| ami/ami/worker.py:193-199 | with `--mpi`, rank 0 runs `run_collector(size)`, but only ranks 1 to size - 1 are workers, so the collector waits for one message more per round than there are workers | with 3 ranks, both workers send one Heartbeat and the collector does not call `collect` | one `collect` per round, with `num_workers = size - 1` | not executed | AmiWorker.MpiCollectorMissesRounds | AmiWorker.MpiCollectorFixed |
| psdaq/psdaq/mmhw/Xvc.cc:126-133 | every 4-byte chunk is shifted with length 32, even when fewer bits are left | a 25-bit `shift:` clocks 32 bits | a chunk shifts `min(32, bitsLeft)` bits, so len bits clock exactly len | not executed | Xvc.ClocksAsWritten | Xvc.ClocksFixed |
| psdaq/psdaq/mmhw/Xvc.cc:99-108 | the bound check admits a negative bit count, whose negative `nr_bytes` reaches `sread`; there every `read` is asked for a `size_t` count above SSIZE_MAX and `len` never reaches 0, so the shift fails at the first read without data, or overruns the 2048-byte `buffer` once more bytes than that arrive | a `shift:` with length -15 | negative bit counts are rejected | not executed | Xvc.NegativeLengthReads | Xvc.FixedGuard |
