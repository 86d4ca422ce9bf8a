# Verification of the TI WLAN tree

Dafny models of the algorithms in the TI WLAN hardware tree that carry state, framing or
arithmetic worth proving, and proofs of what those algorithms are for. The Dafny code keeps
the form of the C code: an object that is updated in place is a class whose methods are proved
equal to functions on a value, and the laws are proved about those functions, mostly over whole
runs. `dafny verify dfyconfig.toml` checks everything.

| files | what is modelled |
|---|---|
| `FqCodel*.dfy` | the FQ-CoDel queueing discipline and CoDel itself |
| `Kfifo*.dfy` | the kernel FIFO: elements, records, and lock-free use by two threads |
| `Wlconf*.dfy`, `LittleEndian.dfy` | the configuration file tool: layout, printing, setting and saving, its checksum, `struct.bin` |
| `Nvs*.dfy` | parsing and rewriting the calibration file, and the driver reading it |
| `Calendar.dfy` | `time_to_tm` |
| `DevAddr*.dfy` | device address lists and their synchronisation |
| `PmQos*.dfy` | PM QoS parameters under concurrent requests |
| `Crc8.dfy`, `BitXor.dfy` | the table-driven CRC-8 |
| `Util.dfy`, `Words.dfy` | shared definitions and arithmetic |

**FQ-CoDel.** The state holds the flow queues, the backlog table, the new and old list, the
counters, CoDel's variables per flow, a log of events and a history of CoDel's looks at packets.
The clock is an arbitrary function. `parent` is the packet count an ancestor qdisc keeps: it adds
one for an accepted packet, takes one off for a delivered packet and hears of other losses only
through the calls the code makes. The backward `goto begin` is a loop that is proved to end
(`TurnLowersWork`). `RunGood` is the invariant of every reachable state; `NoReordering`,
`BackloggedFair` and `NoStarvation` are about whole runs with any mixture of enqueues, dequeues and
reconfigurations. A flow counts as staying backlogged there while it is on the old list before and
after every request. The roles of the two lists are those of sections 4.1 and 4.2 of RFC 8290, and
the dropping states are those of section 5 of RFC 8289.

What CoDel decides is read off the history. A look may drop its packet exactly when the packet is
late, more bytes are queued than the largest packet has, and its flow has been so at every look for
an interval (`LookDecides`); `codel_dequeue` drops from the front of the queue exactly as long as a
packet may be dropped, cannot be marked and is due (`CodelDecides`), and in every run each drop has
that reason (`DropExplained`). The control law is proved as numbers: the fixed-point estimate never
exceeds 1/sqrt(count), not even after the count wraps, and each step squares its error
(`NewtonLaw`, `ReachedLawful`), so drops lie at most interval/sqrt(count) apart (`Spacing`). They
need not lie apart at all: the code counts on later iterations to correct a poor estimate, but an
estimate of zero stays zero, and a flow whose variables were just cleared gets one in half of the
clock's range (`FreshZeroIff`, `ZeroStands`, with the input `StandsStill`). A deadline that falls on
clock reading zero counts as none: such an interval starts again with the next look.

**kfifo.** Indices are free-running 32-bit counters. The element operations are proved to act on
the queued bytes as on a sequence. In record mode two things go unchecked: `__kfifo_in_r` takes a
record whose length does not fit its header (`OverlongRecord`), and `__kfifo_skip_r` moves on by
whatever length it finds in an empty FIFO, after which the FIFO looks overfull (`EmptySkip`).
Record mode is a FIFO of whole records, step by step in every run, if and only if neither is asked
of it (`StepExact`, `RecordFifo`); `kfifo_avail` is exactly the length that is safe (`AvailExact`).
`KfifoSpsc` takes the single steps of one producer and one consumer and proves safety under every
interleaving, and that each call moves exactly what it found room or elements for.

**wlconf.** Structures are packed in declaration order and refer to earlier structures. Every byte
of a structure has one owner. Two different paths with no empty array of structures on the way
never share a byte, the printing walk reads each element where its path resolves to, in the order
of declaration, and a saved file is accepted again. Three failures are stated exactly:

- Setting an element writes bytes of another one, or past the buffer, if and only if an array on
  its path has length zero, be it the element's own or one of structures (`SetStaysInside`, with
  the inputs `ZeroLengthArray` and `ZeroLengthStructs`).
- The checksum takes four-bit steps through the first sixteen entries of an eight-bit table, which
  loses information: it notices every change of one byte, but not one of four bytes whose
  difference is among sixteen words (`OneByteRefused`, `FourBytesRefused`, `Unnoticed`).
- Setting the checksum field itself leaves a file that is accepted for sixteen values only
  (`SaveChecksum`, `SaveChecksumOne`).

**Calibration file.** What recalibration writes parses back to what was meant exactly when the
transmit and receive data leave room for the version block in the 500 parsed bytes; otherwise the
version is lost (`VersionLost`). The file keeps its size exactly when the transmit data fills the
space the receive data leaves (`SizeKeptIff`). The driver that boots from a recalibrated file takes
the address the tool was given, writes it to the address registers and uploads the tool's blocks
(`RecalibratedBoots`).

**time_to_tm.** Proved for all integers against counting years, months and days one by one in
the proleptic Gregorian calendar (section 3.2.1 of ISO 8601:2004).

**Address lists.** Synchronising and unsynchronising restores both lists exactly, even when an
allocation fails half way, and a synchronisation that succeeds leaves the lower list with exactly
the addresses that users of either list refer to (`SyncMirrors`). Plain additions, global users and
the synchronisation are accounted for apart from the lists. A plain deletion with no plain addition
outstanding takes away what a global user or the synchronisation holds (`GlobalLost`,
`UnmatchedDelete`); the account is kept, request by request in every run, if and only if there is
no such deletion of an address that anyone refers to.

**PM QoS.** Each name is a stack of values: adding pushes, updating replaces the top and removing
pops (`EditStacks`). The code drops its lock between changing the list and recomputing, and again before
calling the watchers. The aggregate is right whenever no thread still owes a recomputation, but
the watchers can be left with an older value when everyone is done (`LeftBehind`). Given the calls
that are outstanding, the watchers end with the aggregate in every order of the calls if and only
if every outstanding value is the aggregate (`KeepUpIff`); that is always so in runs in which a
recomputation waits for the call before it (`WatchersKeepUp`).

**CRC-8.** Both table generators hold the remainder of every byte, the table loop is the
bit-serial register, and single-byte errors are always caught exactly for polynomials with their
lowest term.

## Model

| member | source | states |
|---|---|---|
| FqCodelModel.CodelEffect | mac80211/compat_wl18xx/include/net/codel.h:267-360 | for every clock, CoDel drops a prefix of the flow's queue and hands out the next packet or none; counters and log move by exactly those packets, and a nonempty flow is emptied without a packet only while other flows hold bytes |
| FqCodelModel.DropLoopEffect | mac80211/compat_wl18xx/include/net/codel.h:296-324 | the same for the catch-up loop, started with a packet in hand |
| FqCodelModel.LookEffect | mac80211/compat_wl18xx/include/net/codel.h:217-262 | looking at a packet moves the byte counters and CoDel's variables and nothing else; it permits a drop only while more bytes are left than the largest packet has |
| FqCodelModel.TurnLowersWork | mac80211/compat_wl18xx/compat/sch_fq_codel.c:248-279 | every jump back to `begin` lowers the refills and list entries left, so dequeueing ends |
| FqCodelModel.RefillCounts | mac80211/compat_wl18xx/compat/sch_fq_codel.c:257-261 | adding one quantum uses up exactly one of the refills a deficit needs before it is positive |
| FqCodelModel.Fattest | mac80211/compat_wl18xx/compat/sch_fq_codel.c:143-162 | the scan's result is the first flow of largest backlog |
| FqCodelControl.AheadExact | mac80211/compat_wl18xx/include/net/codel.h:81-84 | comparing two wrapped clock readings by their signed difference is exact while the times lie less than half the range apart |
| FqCodelControl.NewtonLaw | mac80211/compat_wl18xx/include/net/codel.h:192-202 | one iteration: the new estimate is at most 1/sqrt(count), it does not fall while it is below, and the error is squared up to two units of the estimate |
| FqCodelControl.CountDropSane | mac80211/compat_wl18xx/include/net/codel.h:298-301 | one more drop keeps the estimate at most 1/sqrt(count), also when the count wraps |
| FqCodelControl.CountDropClose | mac80211/compat_wl18xx/include/net/codel.h:298-301 | and, with two units added, at least 1/sqrt(2 count) once it was |
| FqCodelControl.EnterSane | mac80211/compat_wl18xx/include/net/codel.h:337-358 | entering the dropping state: odd count, the next drop counted from now, the drops of the last spell taken over if that ended less than 16 intervals ago and one otherwise, the estimate still at most 1/sqrt(count) |
| FqCodelControl.Spacing | mac80211/compat_wl18xx/include/net/codel.h:209-214 | the next drop time moves on by the interval times the estimate, rounded down, and so by at most interval/sqrt(count) |
| FqCodelControl.ZeroIff | mac80211/compat_wl18xx/include/net/codel.h:337-358 | entering leaves an estimate of zero if and only if it was zero and the last spell seems recent |
| FqCodelControl.ZeroStands | mac80211/compat_wl18xx/include/net/codel.h:298-325 | with an estimate of zero further drops do not move the next drop time |
| FqCodelControl.FreshZeroIff | mac80211/compat_wl18xx/include/net/codel.h:337-358 | for a flow whose variables were just cleared, that is so exactly in the first 16 intervals of the clock range and from 16 intervals after its middle on |
| FqCodelControl.StandsStill | mac80211/compat_wl18xx/include/net/codel.h:337-358 | the input: default interval, clock at three quarters of its range, the second drop due together with the first |
| FqCodelDecisions.LookDecides | mac80211/compat_wl18xx/include/net/codel.h:217-262 | a look permits a drop if and only if the packet waited for the target, more bytes are queued than the largest packet has, the flow was like that at every look since one at least an interval ago; first_above_time and maxpacket go on saying so |
| FqCodelDrops.DropFollows | mac80211/compat_wl18xx/include/net/codel.h:192-214 | one drop on the schedule: the count grows by one, the estimate is refined, the due time moves on by interval/sqrt(count) at most |
| FqCodelDrops.LoopDecides | mac80211/compat_wl18xx/include/net/codel.h:296-330 | the catch-up loop drops exactly the packets that may be dropped, cannot be marked and are due, up to the first that is not, and says why it stopped there |
| FqCodelDrops.CodelDecides | mac80211/compat_wl18xx/include/net/codel.h:267-360 | the same for codel_dequeue as a whole; outside the dropping state one packet is dropped or marked, exactly if the first one may be, and that starts it |
| FqCodelInvariants.EmptyIff | mac80211/compat_wl18xx/compat/sch_fq_codel.c:54-71 | no packets, no bytes and all flows empty are the same thing |
| FqCodelInvariants.FattestHasPacket | mac80211/compat_wl18xx/compat/sch_fq_codel.c:143-171 | with a packet queued, the fattest flow has one to drop |
| FqCodelInvariants.TurnKeeps | mac80211/compat_wl18xx/compat/sch_fq_codel.c:240-290 | one trip keeps counters, lists and per-flow FIFO order, and goes round again exactly while packets remain |
| FqCodelInvariants.DequeueKeeps | mac80211/compat_wl18xx/compat/sch_fq_codel.c:240-290 | a packet comes out if and only if one is queued; the invariant is kept and the ancestors' surplus grows by one exactly with a packet |
| FqCodelRuns.AppendKeeps | mac80211/compat_wl18xx/compat/sch_fq_codel.c:173-205 | queueing and listing keeps the invariant, so that an overlimit drop can follow |
| FqCodelRuns.DropFattestKeeps | mac80211/compat_wl18xx/compat/sch_fq_codel.c:143-171 | the overlimit drop keeps the invariant and takes one packet off |
| FqCodelRuns.EnqueueKeeps | mac80211/compat_wl18xx/compat/sch_fq_codel.c:173-219 | whichever of the three outcomes it has, an enqueue leaves the ancestors' count right and the limit respected |
| FqCodelRuns.EnqueueExact | mac80211/compat_wl18xx/compat/sch_fq_codel.c:173-219 | a packet is stamped with a fresh clock reading and put at the end of its queue; if that leaves fewer packets than the limit nothing else happens, otherwise exactly the oldest packet of the first flow with most bytes leaves, and the verdict says whether it was the packet's own flow |
| FqCodelRuns.DrainKeeps | mac80211/compat_wl18xx/compat/sch_fq_codel.c:356-367 | draining ends at the limit with the ancestors' count still explained |
| FqCodelRuns.DequeueReports | mac80211/compat_wl18xx/compat/sch_fq_codel.c:280-289 | the ancestors hear of CoDel's drops with the next packet that leaves another behind, and never while the qdisc is empty |
| FqCodelRuns.ConfigureExact | mac80211/compat_wl18xx/compat/sch_fq_codel.c:309-371 | after a change every value given is in force, times converted to units of 1024 ns, every other value is as before, and the packets queued respect the limit |
| FqCodelRuns.StepGood | mac80211/compat_wl18xx/compat/sch_fq_codel.c:173-371 | every request keeps the invariant of runs |
| FqCodelRuns.InitialGood | mac80211/compat_wl18xx/compat/sch_fq_codel.c:405-455 | the state set up by init satisfies it |
| FqCodelRuns.RunGood | mac80211/compat_wl18xx/compat/sch_fq_codel.c:173-371 | in every reachable state backlogs, packet counts and lists agree with the queues, each flow's arrivals are its departures followed by its queue, and the ancestors count exactly the queued packets and the CoDel drops not yet reported |
| FqCodelRuns.NoReordering | mac80211/compat_wl18xx/compat/sch_fq_codel.c:122-141 | in every run what a flow sends is a subsequence of what it was given |
| FqCodelFairness.TurnEffect | mac80211/compat_wl18xx/compat/sch_fq_codel.c:248-290 | each trip refills, retires or serves the head flow, with exactly that effect on lists, credit and log |
| FqCodelFairness.DequeueLists | mac80211/compat_wl18xx/compat/sch_fq_codel.c:240-290 | a flow off the lists stays off while packets are taken out; an old flow still listed never left the old list |
| FqCodelFairness.DequeueShares | mac80211/compat_wl18xx/compat/sch_fq_codel.c:240-290 | during a dequeue another flow gets at most two quanta for each of a backlogged flow's |
| FqCodelFairness.StepBooks | mac80211/compat_wl18xx/compat/sch_fq_codel.c:173-371 | bytes sent plus credit equal quanta granted; only activation changes that, by at most a quantum each time |
| FqCodelFairness.RunBounded | mac80211/compat_wl18xx/compat/sch_fq_codel.c:257-290 | in every run credit stays between one packet overdrawn and one quantum saved |
| FqCodelFairness.RunEven | mac80211/compat_wl18xx/compat/sch_fq_codel.c:248-261 | two flows that stay on the old list are refilled equally often up to their order in it |
| FqCodelFairness.BackloggedFair | mac80211/compat_wl18xx/compat/sch_fq_codel.c:240-290 | over any stretch in which two flows are on the old list at every request boundary and the quantum stands, their refills differ by at most one and their bytes by at most q + 2 (quantum + maxLen - 1) |
| FqCodelFairness.NoStarvation | mac80211/compat_wl18xx/compat/sch_fq_codel.c:201-290 | however another flow leaves and returns as a new flow, it gets at most two quanta per quantum of a flow that is on the old list at every request boundary, plus two, and so at most twice its bytes plus a constant |
| FqCodelFairness.ReachedBounded | mac80211/compat_wl18xx/compat/sch_fq_codel.c:257-290 | the bound on credit in every state reached from the initial one |
| FqCodelFairness.FairFromStart | mac80211/compat_wl18xx/compat/sch_fq_codel.c:173-371 | both byte bounds for any stretch of any run from the initial state in which the flows are on the old list at every request boundary; the bounds on quantum and packet size are conditions on the requests |
| FqCodelHistory.ReachedLawful | mac80211/compat_wl18xx/compat/sch_fq_codel.c:173-371 | in every reachable state first_above_time and maxpacket are what the looks say, every estimate is at most 1/sqrt(count), every CoDel drop was permitted by its look, every look used a clock reading, and the packets of a flow are stamped with readings of their own, in order |
| FqCodelHistory.DropExplained | mac80211/compat_wl18xx/include/net/codel.h:217-330 | in every run from the start each dropped packet was looked at, at a clock reading, when it had waited for the target, more bytes were left than the largest packet has, and its flow had been above the target at every look since one whose interval had passed |
| FqCodelHistory.NoDelayNoDrop | mac80211/compat_wl18xx/include/net/codel.h:243-248 | a run in which no packet waits for the target has no CoDel drop |
| FqCodelHistory.IdleFlowFirst | mac80211/compat_wl18xx/compat/sch_fq_codel.c:195-262 | a packet that finds its flow idle and no new flow waiting is the next one out |
| FqCodelHistory.IdleFlowsInOrder | mac80211/compat_wl18xx/compat/sch_fq_codel.c:195-279 | two flows that were idle are served in the order their packets came, before all others |
| FqCodelQdisc.Qdisc.constructor | mac80211/compat_wl18xx/compat/sch_fq_codel.c:405-455 | sets up the initial state of the model |
| FqCodelQdisc.Qdisc.TakeHead | mac80211/compat_wl18xx/compat/sch_fq_codel.c:225-238 | the callback pulls the flow's head and moves its counters |
| FqCodelQdisc.Qdisc.Examine | mac80211/compat_wl18xx/include/net/codel.h:217-262 | computes the model's decision and variables in place |
| FqCodelQdisc.Qdisc.CatchUp | mac80211/compat_wl18xx/include/net/codel.h:296-324 | the while loop equals the recursive catch-up |
| FqCodelQdisc.Qdisc.CodelNext | mac80211/compat_wl18xx/include/net/codel.h:267-360 | codel_dequeue in place equals the model |
| FqCodelQdisc.Qdisc.Dequeue | mac80211/compat_wl18xx/compat/sch_fq_codel.c:240-290 | the goto loop equals the model |
| FqCodelQdisc.Qdisc.FindFattest | mac80211/compat_wl18xx/compat/sch_fq_codel.c:155-162 | the scan finds the first flow of largest backlog |
| FqCodelQdisc.Qdisc.DropFat | mac80211/compat_wl18xx/compat/sch_fq_codel.c:143-171 | head-drop in place equals the model |
| FqCodelQdisc.Qdisc.Queue | mac80211/compat_wl18xx/compat/sch_fq_codel.c:190-205 | stamping, queueing and listing in place equal the model |
| FqCodelQdisc.Qdisc.Enqueue | mac80211/compat_wl18xx/compat/sch_fq_codel.c:173-219 | verdict and new state equal the model, the invariant holds and the limit is respected |
| FqCodelQdisc.Qdisc.Change | mac80211/compat_wl18xx/compat/sch_fq_codel.c:309-371 | a reconfiguration in place equals the model; the number of flows is fixed once they exist |
| FqCodelQdisc.Qdisc.DrainToLimit | mac80211/compat_wl18xx/compat/sch_fq_codel.c:356-367 | the drain loop equals the model and ends at the limit |
| KfifoRing.PasteExtends | mac80211/compat_wl18xx/compat/kfifo.c:104-126 | writing round the end right behind a window extends that window |
| KfifoRing.TwoCopies | mac80211/compat_wl18xx/compat/kfifo.c:143-165 | the two block copies read a window round the end |
| KfifoModel.MaskSlot | mac80211/compat_wl18xx/compat/kfifo.c:104-115 | masking an index selects its slot |
| KfifoModel.WrapSlot | mac80211/compat_wl18xx/compat/kfifo.c:104-115 | 32-bit counter wrap-around does not disturb the slot |
| KfifoModel.AppendElements | mac80211/compat_wl18xx/compat/kfifo.c:128-140 | writing behind the queue and moving the in-index appends to the queued bytes |
| KfifoModel.DropElements | mac80211/compat_wl18xx/compat/kfifo.c:181-187 | moving the out-index removes bytes from the front only |
| KfifoModel.FrontElements | mac80211/compat_wl18xx/compat/kfifo.c:167-178 | reading from the out-index reads the front of the queue |
| Kfifo.Kfifo.Alloc | mac80211/compat_wl18xx/compat/kfifo.c:38-67 | size rounded down to a power of two, empty queue, or the right error; the result can be used if and only if the element size is not zero and byte offsets fit 32 bits |
| Kfifo.Kfifo.Init | mac80211/compat_wl18xx/compat/kfifo.c:81-101 | the buffer's size in elements rounded down to a power of two, empty queue, or the right error |
| Kfifo.Kfifo.CopyIn | mac80211/compat_wl18xx/compat/kfifo.c:104-126 | the two block copies write round the end, in unsigned int arithmetic that does not overflow |
| Kfifo.Kfifo.CopyOut | mac80211/compat_wl18xx/compat/kfifo.c:143-165 | the two block copies read round the end |
| Kfifo.Kfifo.In | mac80211/compat_wl18xx/compat/kfifo.c:128-140 | appends as many elements as there is room for |
| Kfifo.Kfifo.OutPeek | mac80211/compat_wl18xx/compat/kfifo.c:167-178 | delivers the oldest elements and changes nothing |
| Kfifo.Kfifo.Out | mac80211/compat_wl18xx/compat/kfifo.c:181-187 | delivers and removes the oldest elements |
| Kfifo.Kfifo.PeekN | mac80211/compat_wl18xx/compat/kfifo.c:406-424 | reads one or two header bytes at the out-index through wrap-around, whether or not a record is there |
| Kfifo.Kfifo.PokeN | mac80211/compat_wl18xx/compat/kfifo.c:426-444 | stores the length header behind the queue |
| Kfifo.Kfifo.InR | mac80211/compat_wl18xx/compat/kfifo.c:452-463 | stores header and payload behind the queue and so appends one frame, or changes nothing when it does not fit |
| Kfifo.Kfifo.OutPeekR | mac80211/compat_wl18xx/compat/kfifo.c:478-487 | copies the bytes behind the header it finds, cut to the caller's buffer, and changes nothing |
| Kfifo.Kfifo.OutR | mac80211/compat_wl18xx/compat/kfifo.c:490-501 | the same, and moves the out-index behind them |
| Kfifo.Kfifo.SkipR | mac80211/compat_wl18xx/compat/kfifo.c:504-510 | moves the out-index by the length it finds, record or not |
| Kfifo.Kfifo.Avail | mac80211/compat_wl18xx/include/linux/kfifo.h:274-290 | the unused bytes less the header, cut to what a header can express |
| Kfifo.MaxR | mac80211/compat_wl18xx/compat/kfifo.c:397-404 | cuts a length to the largest a header can express |
| KfifoRecords.DecodeEncode | mac80211/compat_wl18xx/compat/kfifo.c:412-444 | framed records decode to the records |
| KfifoRecords.EncodeDecode | mac80211/compat_wl18xx/compat/kfifo.c:412-444 | whatever decodes is the framing of its records |
| KfifoRecords.PutDecodes | mac80211/compat_wl18xx/compat/kfifo.c:452-463 | after storing a record the buffer decodes to the accepted records if and only if the length fits the header |
| KfifoRecords.OverlongRecord | mac80211/compat_wl18xx/compat/kfifo.c:435-463 | a record of 256 bytes behind a one-byte header is accepted and does not read back |
| KfifoRecords.AvailExact | mac80211/compat_wl18xx/include/linux/kfifo.h:274-290 | a nonempty record is accepted and reads back if and only if it is no longer than kfifo_avail says |
| KfifoFraming.SkipIff | mac80211/compat_wl18xx/compat/kfifo.c:504-510 | a skip leaves the FIFO intact if and only if a whole record is queued, and then removes it |
| KfifoFraming.EmptySkip | mac80211/compat_wl18xx/compat/kfifo.c:504-510 | on an empty FIFO a skip leaves more in use than there are slots |
| KfifoFraming.StepExact | mac80211/compat_wl18xx/compat/kfifo.c:452-510 | a put, take or skip does to the FIFO what it does to a queue of records if and only if an accepted length fits its header and a skip finds a record |
| KfifoFraming.RecordFifo | mac80211/compat_wl18xx/compat/kfifo.c:452-510 | every operation of a run follows the queue of records if and only if all are of that kind, and then the records are delivered in order |
| KfifoSpsc.ProducerSafe | mac80211/compat_wl18xx/compat/kfifo.c:104-140 | the slot about to be written holds no element that is published and not released |
| KfifoSpsc.ConsumerSafe | mac80211/compat_wl18xx/compat/kfifo.c:143-187 | the consumer reads published elements only, and what was put there |
| KfifoSpsc.StepKeeps | mac80211/compat_wl18xx/compat/kfifo.c:104-187 | every single step of either side keeps the invariant |
| KfifoSpsc.SpscSafe | mac80211/compat_wl18xx/compat/kfifo.c:104-187 | under every interleaving the consumed elements are a prefix of the produced ones, the slot being written is never one still queued, and the consumer only reads published elements |
| KfifoSpsc.PutMoves | mac80211/compat_wl18xx/compat/kfifo.c:128-140 | a put publishes exactly as many elements as there was room for when it began, in order, however the consumer's steps fall in between |
| KfifoSpsc.GetMoves | mac80211/compat_wl18xx/compat/kfifo.c:167-187 | a get delivers exactly the elements queued when it began, as many as asked for at most |
| WlconfLayout.TypeWidths | mac80211/ti-utils/wlconf/wlconf.h:54-63 | every built-in type is as wide as its name says |
| WlconfLayout.ParseElements | mac80211/ti-utils/wlconf/main.c:222-272 | packs the declared members in order and keeps the table well formed |
| WlconfLayout.GetElementPos | mac80211/ti-utils/wlconf/main.c:582-623 | the loop resolves a dotted path, or fails on a missing name or on descending into a scalar |
| WlconfLayout.LeafInside | mac80211/ti-utils/wlconf/main.c:582-623 | the bytes of an element lie within the structure, for paths with no empty array of structures on the way |
| WlconfLayout.LeavesApart | mac80211/ti-utils/wlconf/main.c:222-272 | two different such paths never share a byte |
| WlconfOwners.Held | mac80211/ti-utils/wlconf/main.c:222-272 | every byte of a structure lies in an element of it |
| WlconfOwners.HeldUnique | mac80211/ti-utils/wlconf/main.c:222-272 | and in one only |
| WlconfOwners.OwnedIff | mac80211/ti-utils/wlconf/main.c:582-623 | for every path set_value accepts, a byte belongs to the element the path names if and only if no array on the path is empty and the path resolves to that byte |
| WlconfPrint.PrintStruct | mac80211/ti-utils/wlconf/main.c:445-507 | the recursive printing with its running offset equals the walk |
| WlconfPrint.PrintedExactly | mac80211/ti-utils/wlconf/main.c:445-507 | the walk prints every element a path reaches, once, from where the path resolves to, in the order of declaration, and nothing else |
| WlconfSave.SetData | mac80211/ti-utils/wlconf/main.c:425-443 | stores the value's low bytes in place |
| WlconfSave.SetValueIn | mac80211/ti-utils/wlconf/main.c:664-709 | refuses arrays, structures and unknown paths and changes nothing, else stores the value |
| WlconfSave.GetValueInt | mac80211/ti-utils/wlconf/main.c:876-902 | reads a u32 or __le32 element, refuses others |
| WlconfSave.SetValueInt | mac80211/ti-utils/wlconf/main.c:904-930 | writes a u32 or __le32 element, refuses others |
| WlconfSave.IntAccess | mac80211/ti-utils/wlconf/main.c:876-930 | a path is accepted as a number if and only if it names an element of type u32 or __le32; then the four bytes are read or written, low byte first |
| WlconfSave.SetScalar | mac80211/ti-utils/wlconf/main.c:664-709 | a scalar set reads back cut to its width, every other element keeps its bytes, and setting what is there changes nothing |
| WlconfSave.SetStaysInside | mac80211/ti-utils/wlconf/main.c:687-705 | for every path set_value accepts, it changes only bytes of the element named and stays in the buffer, for all buffers and values, if and only if no array on the path is empty, structures included |
| WlconfSave.ZeroLengthArray | mac80211/ti-utils/wlconf/main.c:687-705 | setting an array of length zero changes the element behind it |
| WlconfSave.ZeroLengthStructs | mac80211/ti-utils/wlconf/main.c:687-705 | setting a member of an array of structures of length zero changes the element behind it |
| WlconfSave.ReadInput | mac80211/ti-utils/wlconf/main.c:932-985 | accepts a file exactly when size, header fields, magic number, version and checksum agree, and clears the checksum field |
| WlconfSave.HeaderLoads | mac80211/ti-utils/wlconf/main.c:932-985 | a file of the tool's own structure, whose header is three __le32 fields, is accepted if and only if it is long enough, its first two words are magic number and version, and its third is the checksum of the file with that word cleared, unless the checksum is ignored |
| WlconfSave.SetCommand | mac80211/ti-utils/wlconf/main.c:1498-1520 | load, set, renew the checksum and write in place, with every refusal |
| WlconfSave.SaveLoad | mac80211/ti-utils/wlconf/main.c:1498-1520 | after setting one scalar of an accepted file every byte but the scalar's and the checksum's is unchanged, the scalar reads back, and the file is accepted again, even if its checksum was ignored before, if and only if magic number and version still match |
| WlconfSave.SetThenRead | mac80211/ti-utils/wlconf/main.c:1498-1520 | the same for one call of the tool that sets and a second that reads |
| WlconfSave.SaveChecksum | mac80211/ti-utils/wlconf/main.c:1498-1520 | setting the checksum field itself leaves a file that passes the check if and only if the four bytes stored are among sixteen listed |
| WlconfSave.SaveChecksumOne | mac80211/ti-utils/wlconf/main.c:1498-1520 | set to 1 every such file is refused, set to 0x76dc4194 every such file is accepted |
| WlconfSave.OneByteRefused | mac80211/ti-utils/wlconf/main.c:932-985 | an accepted file with any one byte changed is refused |
| WlconfSave.FourBytesRefused | mac80211/ti-utils/wlconf/main.c:932-985 | with four bytes outside the header fields changed it is still accepted if and only if the exclusive or of the two words is one of sixteen, one for each top nibble |
| WlconfCrc.CalcCrc32 | mac80211/ti-utils/wlconf/crc32.c:93-103 | the table loop equals the register model |
| WlconfCrc.EntryMixed | mac80211/ti-utils/wlconf/crc32.c:26-30 | the sixteen table entries used are linear in the bits of the index |
| WlconfCrc.StepSettles | mac80211/ti-utils/wlconf/crc32.c:97-101 | after two steps the register lies in a set on which steps lose nothing, and bytes are told apart |
| WlconfCrc.OneByte | mac80211/ti-utils/wlconf/crc32.c:93-103 | a change confined to one byte always changes the checksum |
| WlconfCrc.FourBytes | mac80211/ti-utils/wlconf/crc32.c:93-103 | exactly which changes of four consecutive bytes keep the checksum, at any position: those whose words differ by one of sixteen, one for each top nibble |
| WlconfCrc.LostIff | mac80211/ti-utils/wlconf/crc32.c:93-103 | the sixteen words the register cannot tell from zero, listed as bytes |
| WlconfCrc.Unnoticed | mac80211/ti-utils/wlconf/crc32.c:93-103 | one such change, unnoticed in every file |
| WlconfStructBin.RoundTrip | mac80211/ti-utils/wlconf/main.c:743-874 | reading what was written gives it back and leaves exactly what follows if and only if every name and number fits its field |
| WlconfStructBin.NameBack | mac80211/ti-utils/wlconf/main.c:711-723 | a name comes back exactly when it is shorter than 2^31 and has no zero byte |
| WlconfStructBin.StructBack | mac80211/ti-utils/wlconf/main.c:725-741 | the same for one structure with its elements |
| WlconfStructBin.FileLayout | mac80211/ti-utils/wlconf/main.c:711-770 | where everything lies in the file: four numbers, then the structures, in each its name, the number of its elements and its size, then its elements with name, type, array size and position; numbers take four bytes, low byte first |
| WlconfStructFile.Output.GenerateStruct | mac80211/ti-utils/wlconf/main.c:743-770 | the writing loops produce the encoding |
| WlconfStructFile.Input.ReadBinaryStruct | mac80211/ti-utils/wlconf/main.c:838-874 | the reading loops decode it |
| WlconfStructFile.Input.ReadStruct | mac80211/ti-utils/wlconf/main.c:798-836 | the loop over the elements of one structure |
| WlconfStructFile.StoreAndFetch | mac80211/ti-utils/wlconf/main.c:743-874 | a table that fits survives being generated and read again |
| Nvs.ParseData | mac80211/ti-utils/nvs.c:382-442 | the parse loop equals parsing block by block, a block's buffer keeping what earlier blocks left in it |
| Nvs.CopyPayload | mac80211/ti-utils/nvs.c:426-437 | a payload is copied up to the end of the parsed area |
| Nvs.ParseBounded | mac80211/ti-utils/nvs.c:382-442 | no parsed payload is longer than the area |
| Nvs.Writer.FillHeader | mac80211/ti-utils/nvs.c:608-640 | writes the header of the model: the two address commands and the padding |
| Nvs.Writer.FillVersion | mac80211/ti-utils/nvs.c:444-463 | the version block |
| Nvs.Writer.FillOldRx | mac80211/ti-utils/nvs.c:465-482 | the old receive data as a block |
| Nvs.Prepare | mac80211/ti-utils/nvs.c:561-692 | the rewritten file: new transmit data and version, as much of the old receive buffer as its block announces, old radio parameters; a file of unknown size is refused |
| Nvs.HeaderAddress | mac80211/ti-utils/nvs.c:608-640 | the six bytes the driver takes for the address are the address given, and the rest of the header is zero |
| Nvs.BlocksLayout | mac80211/ti-utils/nvs.c:642-686 | the blocks: type, length low byte first, data; the version high byte first; the end mark |
| Nvs.BlocksParseBack | mac80211/ti-utils/nvs.c:382-482 | written blocks parse back exactly, whatever follows, if and only if the version block starts inside the parsed area; otherwise no version is found |
| Nvs.VersionLost | mac80211/ti-utils/nvs.c:382-482 | at 300 and 194 bytes of data the version written is not found |
| Nvs.RecalibrationKeeps | mac80211/ti-utils/nvs.c:561-692 | recalibration with transmit data that fills its space keeps the file size, the receive data and the radio parameters, the new data parses back, the new address is in the header, and the result can be recalibrated again |
| Nvs.SizeKeptIff | mac80211/ti-utils/nvs.c:561-692 | the file size is kept if and only if the transmit data fills the space the receive data leaves, and exactly when the next recalibration refuses the file |
| Nvs.RecalibrationsKeep | mac80211/ti-utils/nvs.c:561-692 | so does any number of them, with the address of the last |
| NvsDriver.UploadNvs | mac80211/compat_wl18xx/drivers/net/wireless/ti/wlcore/boot.c:336-423 | the nested loops over bursts and words equal the model |
| NvsDriver.BurstWords | mac80211/compat_wl18xx/drivers/net/wireless/ti/wlcore/boot.c:368-385 | a burst writes word after word to consecutive registers and stops at the first word that would reach the end of the section |
| NvsDriver.UploadTables | mac80211/compat_wl18xx/drivers/net/wireless/ti/wlcore/boot.c:391-405 | what is uploaded is never empty, starts at a multiple of four and ends with the section |
| NvsDriver.ProbedFile | mac80211/compat_wl18xx/drivers/net/wireless/ti/wlcore/main.c:5580-5602 | an address in the file is the station's address |
| NvsDriver.ProbedFuse | mac80211/compat_wl18xx/drivers/net/wireless/ti/wlcore/main.c:5669-5675 | without one it is the fuse's address plus one |
| NvsDriver.HeaderUploads | mac80211/compat_wl18xx/drivers/net/wireless/ti/wlcore/boot.c:353-405 | the tool's header makes the driver write the address to two registers and upload from where the tool's blocks start |
| NvsDriver.RecalibratedBoots | mac80211/compat_wl18xx/drivers/net/wireless/ti/wlcore/boot.c:336-423 | from recalibration to boot: the driver uses the address the tool was given, writes it to the address registers and uploads the new transmit data, the old receive data and the version as written |
| Calendar.MathDivFloors | mac80211/compat_wl18xx/compat/compat-2.6.32.c:129-133 | truncating division corrected this way rounds down |
| Calendar.DaysClosed | mac80211/compat_wl18xx/compat/compat-2.6.32.c:135-143 | the closed leap count equals counting year by year, in both directions |
| Calendar.GuessCloser | mac80211/compat_wl18xx/compat/compat-2.6.32.c:193-200 | each year guess keeps the day looked for and moves by less than the one before |
| Calendar.FindYear | mac80211/compat_wl18xx/compat/compat-2.6.32.c:191-200 | the guess loop ends in the one year the day lies in |
| Calendar.FindMonth | mac80211/compat_wl18xx/compat/compat-2.6.32.c:206-209 | the month loop finds the one month the day lies in |
| Calendar.SplitDay | mac80211/compat_wl18xx/compat/compat-2.6.32.c:169-179 | C division and the two correction loops give the floor day and second |
| Calendar.TimeToTm | mac80211/compat_wl18xx/compat/compat-2.6.32.c:164-213 | for every time and offset the date, weekday, day of the year and time of day that counting gives |
| Calendar.RoundTripSeconds | mac80211/compat_wl18xx/compat/compat-2.6.32.c:156-213 | adding the fields up again gives the time back |
| Calendar.RoundTripTm | mac80211/compat_wl18xx/compat/compat-2.6.32.c:156-213 | every consistent calendar time is the conversion of its own seconds |
| DevAddr.AddThenDelete | mac80211/compat_wl18xx/compat/compat-2.6.32.c:14-70 | deleting what was just added restores the list, order included |
| DevAddr.SyncMarks | mac80211/compat_wl18xx/compat/compat-2.6.32.c:72-97 | a first synchronisation adds a prefix of the addresses, up to the first failed allocation, and marks exactly those |
| DevAddr.SyncUnsyncRestores | mac80211/compat_wl18xx/compat/compat-2.6.32.c:72-117 | synchronising and unsynchronising restores both lists, even after a failure half way |
| DevAddr.SyncBalanced | mac80211/compat_wl18xx/compat/compat-2.6.32.c:72-97 | wherever it stops, every reference, global ones included, is accounted for on both lists |
| DevAddr.UnsyncBalanced | mac80211/compat_wl18xx/compat/compat-2.6.32.c:100-117 | it releases what the synchronisation held and nothing else, global references included |
| DevAddr.StepAccounted | mac80211/compat_wl18xx/compat/compat-2.6.32.c:14-117 | a request keeps every reference accounted for if and only if it is not the plain deletion, with no plain addition outstanding, of an address that a global user or the synchronisation refers to |
| DevAddr.UnmatchedDelete | mac80211/compat_wl18xx/compat/compat-2.6.32.c:46-70 | from empty lists, add to the upper, synchronise, delete from the lower: the address is off the lower list while the upper one still has it |
| DevAddr.GlobalLost | mac80211/compat_wl18xx/compat/compat-2.6.32.c:14-70 | from empty lists, a global addition and a plain deletion: the address is gone while the global user still refers to it |
| DevAddr.SyncMirrors | mac80211/compat_wl18xx/compat/compat-2.6.32.c:72-97 | after a synchronisation that succeeds, from any accounted state, exactly the addresses the upper list's users refer to are marked, and the lower list holds exactly those that users of either list refer to |
| DevAddr.RunAccounted | mac80211/compat_wl18xx/compat/compat-2.6.32.c:14-117 | in every run of matched requests an address is on either list exactly while a plain addition is outstanding, a global user has it or the synchronisation holds it there, and its count is the number of these |
| DevAddrList.AddrList.AddAddr | mac80211/compat_wl18xx/compat/compat-2.6.32.c:14-44 | in-place addition with the count kept |
| DevAddrList.AddrList.DeleteAddr | mac80211/compat_wl18xx/compat/compat-2.6.32.c:46-70 | in-place deletion with the count kept |
| DevAddrList.SyncLists | mac80211/compat_wl18xx/compat/compat-2.6.32.c:72-97 | the loop, which may remove the entry it is at, equals the model |
| DevAddrList.UnsyncLists | mac80211/compat_wl18xx/compat/compat-2.6.32.c:100-117 | the same for unsynchronising |
| DevAddrList.SyncThenUnsync | mac80211/compat_wl18xx/compat/compat-2.6.32.c:72-117 | both lists and both counts come back |
| PmQos.ExtremeIs | mac80211/compat_wl18xx/compat/pm_qos_params.c:144-171 | the fold yields a value of the default and the requirements that none beats |
| PmQos.ExtremeUnique | mac80211/compat_wl18xx/compat/pm_qos_params.c:144-171 | there is only one such value |
| PmQos.OrderIrrelevant | mac80211/compat_wl18xx/compat/pm_qos_params.c:155-180 | it does not depend on the order of the list |
| PmQos.EditStacks | mac80211/compat_wl18xx/compat/pm_qos_params.c:226-322 | each name is a stack of values: adding pushes, updating replaces the top, removing pops, other names are untouched, and a recomputation is due exactly if there was something to do |
| PmQos.RemoveTakesOne | mac80211/compat_wl18xx/compat/pm_qos_params.c:302-322 | removing takes exactly the latest requirement of that name off the list |
| PmQos.AddRemove | mac80211/compat_wl18xx/compat/pm_qos_params.c:226-322 | adding a requirement and removing it restores the list and the aggregate |
| PmQos.DefaultNeutral | mac80211/compat_wl18xx/compat/pm_qos_params.c:233-236 | a requirement of the default value leaves the aggregate alone |
| PmQos.StepKeeps | mac80211/compat_wl18xx/compat/pm_qos_params.c:155-322 | every atomic section of every thread keeps the invariant |
| PmQos.QuiescentConsistency | mac80211/compat_wl18xx/compat/pm_qos_params.c:155-322 | under every interleaving the aggregate is the extreme once no thread owes a recomputation, and all changes have been announced once no thread owes a call |
| PmQos.OwnEditCounts | mac80211/compat_wl18xx/compat/pm_qos_params.c:155-322 | from a thread's edit to its recomputation, whatever the others do in between: the list recomputed over is its edit followed by theirs, and a value it added or updated that none of them touched is met by the new aggregate |
| PmQos.BothRecomputed | mac80211/compat_wl18xx/compat/pm_qos_params.c:155-253 | two requests that each tighten a minimum can both have recomputed with neither announced |
| PmQos.LeftBehind | mac80211/compat_wl18xx/compat/pm_qos_params.c:155-253 | a run from the start to all threads idle in which the watchers heard the larger requirement last |
| PmQos.LastCaller | mac80211/compat_wl18xx/compat/pm_qos_params.c:172-180 | after all outstanding calls, in any order, the watchers have last heard the value of the last caller |
| PmQos.KeepUpIff | mac80211/compat_wl18xx/compat/pm_qos_params.c:172-180 | every order of the outstanding calls ends with the aggregate if and only if every outstanding value is the aggregate |
| PmQos.WatchersKeepUp | mac80211/compat_wl18xx/compat/pm_qos_params.c:155-180 | in every run in which a recomputation waits for the call before it, the watchers hear all changes in order and, with no call outstanding, have heard the aggregate last |
| PmQosObject.Parameter.UpdateTarget | mac80211/compat_wl18xx/compat/pm_qos_params.c:155-180 | recomputes the extreme and reports whether it changed |
| PmQosObject.Parameter.AddRequirement | mac80211/compat_wl18xx/compat/pm_qos_params.c:226-253 | adds a requirement and leaves the aggregate current, or fails without effect |
| PmQosObject.Parameter.UpdateRequirement | mac80211/compat_wl18xx/compat/pm_qos_params.c:267-291 | changes the first requirement of that name only |
| PmQosObject.Parameter.RemoveRequirement | mac80211/compat_wl18xx/compat/pm_qos_params.c:302-322 | removes the first requirement of that name only |
| Crc8.ByteAtOnce | mac80211/compat_wl18xx/compat/crc8.c:75-82 | a byte combined into the register and eight steps equal feeding its eight bits |
| Crc8.CrcIsBitSerial | mac80211/compat_wl18xx/compat/crc8.c:75-82 | the byte-wise CRC is the bit-serial one, for both bit orders |
| Crc8.CrcChains | mac80211/compat_wl18xx/compat/crc8.c:75-82 | a message can be fed in pieces |
| Crc8.GoodValue | mac80211/compat_wl18xx/include/linux/crc8.h:24-30 | a message followed by its complemented CRC checks to the table's entry for 0xff |
| Crc8.DetectsIff | mac80211/compat_wl18xx/compat/crc8.c:75-82 | every single-byte change in every message is caught if and only if the polynomial has its lowest term |
| Crc8.PopulateMsb | mac80211/compat_wl18xx/compat/crc8.c:30-43 | the table holds the eight-step remainder of every index |
| Crc8.PopulateLsb | mac80211/compat_wl18xx/compat/crc8.c:52-64 | the same for the reflected order |
| Crc8.ComputeCrc | mac80211/compat_wl18xx/compat/crc8.c:75-82 | with such a table the loop computes the bit-serial CRC |

## Left out

- Classification and hashing of packets in FQ-CoDel: the flow, or the refusal, is a parameter of an enqueue.
- Statistics of FQ-CoDel that no decision reads: drop counters per flow and per qdisc, new flow count, overlimit count.
- Reset, dump and netlink parsing in `sch_fq_codel.c`, and the single-queue qdisc in `sch_codel.c`.
- 32-bit overflow of FQ-CoDel's byte and packet counters, and a quantum above the signed range.
- FqCodelControl.EnterSane: "less than 16 intervals ago" is the wrapped comparison the code makes; an interval above a sixteenth of half the clock range turns it round.
- FqCodelQdisc.Qdisc.Examine: clock comparisons are modelled as the wrapped signed difference; the C expression subtracts two signed values, which is undefined when that overflows.
- kfifo's user-space and DMA variants, which add copying failures and scatter lists to the same index arithmetic.
- Kfifo.Kfifo.Alloc: a size of zero is excluded, since `rounddown_pow_of_two(0)` is undefined; so is an element size of zero in `Init`, which divides by it.
- Kfifo.Kfifo.OutR: a copy longer than the whole buffer, which only a broken framing can ask for, is excluded, because it reads outside the buffer; the same holds for `OutPeekR`.
- Kfifo.Kfifo.InR: a FIFO that a bad skip has left overfull is excluded, because the code then writes outside the buffer.
- Skipping an element of a FIFO without records, which is an increment in a macro.
- KfifoSpsc.SpscSafe: steps are sequentially consistent and copy one element at a time; the write barriers that make this so on weaker memory are not modelled.
- Text handling in wlconf: comment stripping, regular expressions, the dictionary, the textual configuration files, option parsing, and creating the default file.
- WlconfLayout.ParseElements: types are resolved already, members are named apart, and a structure refers to earlier ones; for an unknown type or a structure inside itself the C code reads outside its tables.
- WlconfPrint.PrintStruct: what is printed is the list of elements and offsets, not the text; of an array of structures the code prints the first only, and so does the model.
- WlconfSave.SetValueIn: numbers are read from text by the caller, the host is little-endian, and a store past the end of the buffer is excluded; the same holds for `SetCommand` and `ReadInput`.
- WlconfStructFile.Input.ReadBinaryStruct: files that end early are excluded, because the code does not check its reads; `size_t` has 64 bits.
- Nvs.ParseData: block lengths for which the 16-bit index wraps are excluded, because the C loop then need not end; the buffer has the few bytes behind the area that a header at its end reaches.
- Nvs.Prepare: a receive block that announces more than its 500-byte buffer is excluded, because the code reads behind the buffer; the address comes from the caller, writes succeed, and the other commands on calibration files (front-end settings, printing) are left out.
- NvsDriver.UploadNvs: the file has one of the two sizes the driver accepts, register writes succeed, the address of the register window is left out, and so are the second and third station address.
- Calendar.TimeToTm: years are unbounded; storing `tm_year` in an int and overflow of a 64-bit time are not modelled.
- DevAddr.StepAccounted: plain references are counted and not attributed to their holders, since the code cannot tell these apart; a deletion that takes back another user's plain addition is not noticed.
- DevAddrList.SyncLists: list nodes are positions in a sequence; pointers and freeing are not modelled.
- PmQos.QuiescentConsistency: a thread's lock-protected sections are atomic, and a call of the watchers is one step.
- The driver-facing parts of the tree (mac80211 and driver backports, firmware tools, command-line front ends).
