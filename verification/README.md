# Dolphin RE MCP, verified

dolphin-re-mcp drives the CPU of a running emulator through the emulator's GDB stub. One TCP connection is
shared by the tools a user calls and by a background thread, the stop watcher, that captures registers at
breakpoints and lets the CPU run on. This project models the parts of that program where several pieces of
state have to stay in step, and proves what they keep.

| file | contents |
|---|---|
| `Text.dfy` | stripping, splitting, `int(text, base)` and hexadecimal printing as Python does them |
| `Rsp.dfy` | frames, packets, acks and whole dialogues as parses of one byte stream |
| `Client.dfy` | the RSP client: a class over a socket whose `recv` may deliver any chunk, time out, fail or close |
| `StopReply.dfy` | the stop-reply parser against a printer of T packets |
| `Wire.dfy` | the stub: a CPU, a queue in each direction, interrupts and commands served in order |
| `Packets.dfy` | the text of command packets against what a stub reads in them |
| `Interleaving.dfy` | tool thread and watcher thread under `gdb_lock`, stub moves in between, as a transition system |
| `Tools.dfy` | the tools and the watcher as programs of that system, each proved to keep its discipline |
| `Delivery.dfy` | where the stop replies of a run are: taken, queued or on the line, each once |
| `Limits.dfy` | concrete runs on which a guarantee fails once one of its hypotheses is dropped |
| `Connection.dfy` | the client at packet level, with the stub working on between any two of its steps |
| `Registry.dfy` | breakpoint specs, attribution of stops, agreement of the registry with the stub |
| `Session.dfy` | session state, the modification fence, add/remove, execution control, temporary breakpoints |
| `Arrears.dfy` | adds and removes in a session that is not RUNNING, after some were not answered in time |
| `Watcher.dfy`, `Tracing.dfy` | the watcher's loop, accounting and logs; the arm, capture, disarm tools |
| `Fusion.dfy`, `FusionExact.dfy`, `FusionLimits.dfy` | the `lis` + `addi`/`subi`/`ori` pass against PowerPC execution; exactly when a tag is right; code on which it is not |
| `Listings.dfy` | what the pass reads in operand text, and its tags in numbers |
| `Search.dfy`, `SymbolMap.dfy` | chunked search against naive search; the symbol index against a scan |
| `Routing.dfy`, `Attach.dfy` | guest address routing and the host-process backend against flat guest memory |

The protocol is the GDB Remote Serial Protocol (GDB manual, appendix "GDB Remote Serial Protocol", sections
"Overview", "Stop Reply Packets" and "Packet Acknowledgment"). The instructions are those of the Power ISA,
Book I, section 3.3.

## How the pieces fit

The same wire is seen at three levels. `Client.dfy` works on bytes: its methods are proved against the parses
of `Rsp.dfy`, so chunking and timeouts disappear. `Wire.dfy` works on packets, and `AckOnLine`,
`ExchangeOnLine` and `PacketOnLine` show that parsing the bytes of a packet queue gives what the packet-level
steps take from it. `Interleaving.dfy` and `Connection.dfy` then use the packet queue: the first for every
interleaving of the two threads, the second for the contracts of single calls.

In the interleaving a thread is a tree of the steps the source takes, timeouts and the branch on a bad register
dump included. A discipline on trees (`Disciplined`) says what each step may rely on, and each tool and the
watcher are proved disciplined. One induction over runs (`RunKeeps`) turns that into reply pairing, the fence
and "no lost stop", a second one (`RunBalances`) into exactly-once delivery. The hypotheses are on the run: all
of these need every exchange to be answered in time (`PromptAll`, part of `LawfulRun`); "no lost stop" also
needs a stub that answers every interrupt and no register read of the watcher that raises (`ObligesAll`).
`Limits.dfy` has a run against each hypothesis. The stub sends the ack and the reply of a command
contiguously, serves interrupts and commands in order, and may send a stop reply whenever the CPU runs.

The single-call models (`Connection`, `Session`, `Watcher`, `Tracing`) let any exchange time out. A connection
keeps a ghost history of the commands and interrupts written, the commands given up, the stops handed out, the
packets taken for replies and what the CPU did. The accounting of the watcher is stated on it, and so is what
every call writes and what that makes the CPU do.

## What the code does that its documentation does not say

- `_match_bp`: the comment restricts the lone-watchpoint fallback to stops without an annotation and whose PC
  is no breakpoint. The code falls back also when an annotation matched nothing. `Registry.MatchBp` follows
  the code; `AttributedIsLeast` and `UnattributedExactly` state it.
- `_first_destination_register`: "any other write invalidates the pair" holds only for operand texts with a
  comma. `mflr r3` between `lis r3` and `ori r3, r3` goes unnoticed (`SingleOperandWrite`), as do the updated
  base of `lwzu` (`SecondOperandWrite`) and an `addi` from another register (`CombinedFromElsewhere`). `subi`
  of 0x8000 and a base register r0 give wrong tags (`SubtractedHalf`, `BaseRegisterZero`). So the tag is not
  always the value the register holds. `TagHoldsExactly` says when it is, for all code, against full constant
  propagation; `PairHoldsExactly` says it in terms of the listing; `TagsAreComputed` is a sufficient condition
  that looks at the writes of one run only.
- An immediate that cannot be read, a symbol say, counts as zero, so the pair is tagged with the high half
  (`UnreadImmediate`).
- `search_mem` finds all occurrences only for patterns of at most 4 MB and one byte; `ChunkedIsNaive` is the
  exact condition.
- `pause`: on a stub that ignores an interrupt while the CPU is halted, a stop that arrives just before the
  probe is drained, `pause` raises and the session stays RUNNING over a halted CPU (`DeafStubLosesStop`).
- An error reply to the watcher's `g` raises an exception it does not catch; the watcher dies without `c`, and
  the stop it had taken is lost (`ErrorReplyLosesStop`). A read of the watcher that times out is caught and
  followed by `c`, with the late ack and reply still to come: later commands get wrong replies
  (`LateReadBreaksPairing`).
- `capture_on_hit` resumes without `gdb_lock`, which breaks reply pairing (`UnlockedResumeBreaksPairing`).
- A command that times out before its ack shifts every later reply by one (`LateAck`); one that times out
  after its ack leaves its reply to be taken for a stop (`LateReply`).
- So in a session that is not RUNNING, where nothing is fenced, an addition after one that was given up before its
  ack takes the answer to that one for its own, and can register a place that the stub refused
  (`LateAddRegistersRefused`). `RunSureExactly` is the exact condition on every run; for places asked for once it
  is that no addition is heard after such a loss (`AgreesExactly`). A removal never breaks the agreement, nor does a
  call given up after its ack (`CallSureExactly`).
- `step_over`, `step_out` and `run_until` at the place of a live breakpoint leave it registered but disarmed
  (`TemporaryAgrees`), and so does removing one of two specs at one place (`RemovalAgrees`).
- A surfaced stop goes to the back of the queue, so it changes places with stops queued behind it
  (`SurfacingReorders`; `RequeueKeepsOrder` says exactly when not), and the session is marked
  paused, so `wait_for_hit` refuses to return it until the CPU is resumed (`StopWatcher.Iterate`,
  `Session.WaitForHit`).
- `close` keeps the queued packets, so stops of the old connection are returned on the next one (`Close`).
- A symbol nested in another one hides it past the inner end (`NestedHidesOuter`); `HiddenExactly` is the
  exact condition.

## Model

| member | source | states |
|---|---|---|
| `Rsp.ReadFrames` | src/dolphin_re_mcp/gdb/client.py:210-316 | framing round trip: any payloads without `#`, framed one after another with any `$`-free junk before each, are read back in order and exactly the trailing bytes are left |
| `Rsp.FrameChecksum` | src/dolphin_re_mcp/gdb/client.py:210-221 | the two characters after `#` read as hexadecimal are the byte sum of the payload modulo 256 |
| `Rsp.ParseMore` | src/dolphin_re_mcp/gdb/client.py:295-316 | a packet complete in the buffer is the same packet whatever arrives after it |
| `Rsp.ParseAckAfter` | src/dolphin_re_mcp/gdb/client.py:232-254 | waiting for an ack behind any number of packets queues those packets in order and then meets what stands behind them |
| `Rsp.ParseTurn` | src/dolphin_re_mcp/gdb/client.py:331-337 | one exchange picks out exactly its own reply, queues exactly the packets before the ack and leaves no byte behind |
| `Rsp.DialoguePairs` | src/dolphin_re_mcp/gdb/client.py:219-337 | reply pairing over runs of any length: the i-th command gets the i-th reply, all out-of-band packets are queued in arrival order, nothing is left |
| `Rsp.LateReply` | src/dolphin_re_mcp/gdb/client.py:127-157 | a command given up after its ack does not disturb later pairing, but its late reply enters the queue of stops |
| `Rsp.LateAck` | src/dolphin_re_mcp/gdb/client.py:232-337 | a command given up before its ack gives every later command the reply of the one before it |
| `Rsp.StandsHeard` | src/dolphin_re_mcp/gdb/client.py:331-337 | in front of the oldest reply owed, a command heard out gets that reply and leaves the next |
| `Rsp.StandsGivenUp` | src/dolphin_re_mcp/gdb/client.py:232-337 | a command given up before its ack leaves the client in front of the same reply, one given up after it in front of the next, its own reply to be queued |
| `Client.GDBStub.Connect` | src/dolphin_re_mcp/gdb/client.py:89-98 | connecting starts with an empty buffer, keeps the queue, and does nothing when connected |
| `Client.GDBStub.Close` | src/dolphin_re_mcp/gdb/client.py:100-107 | closing forgets the unparsed bytes and keeps the queued packets |
| `Client.GDBStub.ReadExact` | src/dolphin_re_mcp/gdb/client.py:256-275 | returns the next n bytes of the stream; a failure loses fewer than n bytes, so none for a one-byte read |
| `Client.GDBStub.FillUntil` | src/dolphin_re_mcp/gdb/client.py:295-308 | receives until the delimiter is buffered, finds its first occurrence, and loses no byte when it fails |
| `Client.GDBStub.ReadPacketFromWire` | src/dolphin_re_mcp/gdb/client.py:287-329 | whatever the chunking, the payload and the rest are those of one parse of the whole stream; a timeout anywhere leaves the stream and the queue as they were; one `+` is sent per packet |
| `Client.GDBStub.QueueOutOfBand` | src/dolphin_re_mcp/gdb/client.py:246-253 | the packet whose `$` was read instead of an ack is parsed whole and appended to the queue, or the stream is as before the `$` was read |
| `Client.GDBStub.AckOrQueue` | src/dolphin_re_mcp/gdb/client.py:241-254 | one round: the ack is read, or the packet in front of it is queued; a timeout at either leaves stream and queue as they were |
| `Client.GDBStub.ConsumeAck` | src/dolphin_re_mcp/gdb/client.py:232-254 | the parse of the stream up to the ack is always the newly queued packets followed by the parse of what is left, also when a timeout interrupts it |
| `Client.GDBStub.SendPacket` | src/dolphin_re_mcp/gdb/client.py:219-230 | sends exactly one frame and one `+` per packet met, and consumes exactly up to its ack |
| `Client.GDBStub.Cmd` | src/dolphin_re_mcp/gdb/client.py:331-337 | a completed command returns the reply of its own exchange and leaves the stream just behind it; a failed one on a lasting connection leaves it in front of its ack or behind its ack and in front of its reply, the starting points of `LateAck` and `LateReply`, or behind a byte that was no ack |
| `Client.GDBStub.CmdAll` | src/dolphin_re_mcp/gdb/client.py:331-337 | any commands one after the other: what is sent is the frame of each in order and the acks owed behind it; the i-th gets the i-th reply of the dialogue on the stream, stops in between are queued in order |
| `Client.GDBStub.CmdEach` | src/dolphin_re_mcp/gdb/client.py:219-337 | separate commands, each sent whatever became of those before, in order; one that is heard out gets the answer to the command that stands as many places before it as commands have been given up before their ack |
| `Client.GDBStub.QueryRegisters` | src/dolphin_re_mcp/tools/execution_tools.py:152-187 | the i-th frame sent is `p` and hexadecimal text that reads back as the i-th number, and the i-th answer is the i-th reply |
| `Client.GDBStub.ContinueAsync` | src/dolphin_re_mcp/gdb/client.py:433-435 | sends one `c` and an ack for each packet met, and consumes exactly up to its ack |
| `Client.GDBStub.ReadPacket` | src/dolphin_re_mcp/gdb/client.py:277-285 | the oldest queued packet if there is one, else the next of the stream; a failure loses neither |
| `Client.GDBStub.Step` | src/dolphin_re_mcp/gdb/client.py:445-448 | sends one `s` and the acks owed, returns the oldest stop it can see, and its own only when none was queued or arrived before its ack |
| `Client.GDBStub.Interrupt` | src/dolphin_re_mcp/gdb/client.py:450-460 | sends the byte 0x03 and reads nothing |
| `Client.GDBStub.ProbeResponsive` | src/dolphin_re_mcp/gdb/client.py:127-157 | sends one `qC`; true only when the heartbeat got the reply of its own exchange and that is no error; on a lasting connection, false only for an error reply or a heartbeat given up; stops met are queued |
| `Client.GDBStub.DrainStopReplies` | src/dolphin_re_mcp/gdb/client.py:462-485 | returns exactly the queue followed by the next packets of the stream, each once, in order, and sends nothing but their acks |
| `Client.GDBStub.ConsumeStops` | src/dolphin_re_mcp/tools/breakpoint_tools.py:57-68 | however often waits fail and are retried, the stops taken are the queue and then the packets of one parse, none lost or doubled |
| `StopReply.ParseStopReply` | src/dolphin_re_mcp/gdb/stop_reply.py:40-92 | the loop, on every string, computes the fold of the items that the round trip is proved for |
| `StopReply.PrintParse` | src/dolphin_re_mcp/gdb/stop_reply.py:61-92 | printing a signal and any register, watch and other fields as a T packet, unreadable ones and noise in between, and parsing it gives back what the fields say, later ones overriding earlier ones |
| `StopReply.PrintedRegister` | src/dolphin_re_mcp/gdb/stop_reply.py:68-92 | every register number parses to the last value printed for it and is absent exactly when never printed |
| `StopReply.PrintedFields` | src/dolphin_re_mcp/gdb/stop_reply.py:76-85 | kind and address of the watch annotation parsed are the last ones printed, every other field has the last text printed for it, each is absent exactly when never printed |
| `StopReply.PrintedNames` | src/dolphin_re_mcp/gdb/registers.py:22-38 | by literal name: pc, sp, msr, cr, lr, ctr and xer hold the last value printed for 0x40, 1 and 0x41 to 0x45, and are absent exactly when that was not printed |
| `StopReply.PrintedBanks` | src/dolphin_re_mcp/gdb/registers.py:39-42 | so do `r` and `f` with their decimal number, and the hexadecimal name of any number above |
| `StopReply.PlainPackets` | src/dolphin_re_mcp/gdb/stop_reply.py:46-59 | S, X and W packets give back the signal printed and nothing else |
| `StopReply.OtherPackets` | src/dolphin_re_mcp/gdb/stop_reply.py:42-59 | any other packet, and one whose signal cannot be read, gives an empty record |
| `Text.DecimalRead` | src/dolphin_re_mcp/disasm/ppc.py:350-358 | every integer printed in decimal is read back, minus sign included |
| `Text.HexRead` | src/dolphin_re_mcp/gdb/stop_reply.py:68-89 | every integer printed in hexadecimal is read back, in base 16 or with its prefix, minus sign included |
| `Text.SpacedRead` | src/dolphin_re_mcp/disasm/ppc.py:339-358 | white space around a number makes no difference |
| `StopReply.RegNameInjective` | src/dolphin_re_mcp/gdb/registers.py:30-42 | no two register numbers, listed or not, share a name |
| `Wire.AckOnLine` | src/dolphin_re_mcp/gdb/client.py:232-254 | parsing the bytes of a packet queue up to its first ack gives exactly the stops in front of it |
| `Wire.ExchangeOnLine` | src/dolphin_re_mcp/gdb/client.py:331-337 | a command on those bytes gets the reply that stands behind its ack |
| `Wire.PacketOnLine` | src/dolphin_re_mcp/gdb/client.py:295-316 | reading a packet on those bytes skips stray acks and takes the next packet whole |
| `Wire.DumpsAndErrors` | src/dolphin_re_mcp/gdb/client.py:349-353 | a hexadecimal dump of any bytes does not make the register read raise; an empty reply, an error reply and a dump with a digit missing do |
| `Packets.BreakRead` | src/dolphin_re_mcp/gdb/client.py:393-429 | every change of a breakpoint is read back from its packet by the types of the protocol: kind, address, size, and whether it arms or disarms |
| `Interleaving.ReplyPairing` | src/dolphin_re_mcp/stop_watcher.py:63-90 | in every state reachable while exchanges are answered in time, each completed command was given its own reply, and only a thread in the lock, so at most one, is between a send and its reply |
| `Interleaving.NoLostStop` | src/dolphin_re_mcp/session.py:63-109 | on every such run with interrupts answered and no watcher read raising: lock free and state RUNNING implies the CPU runs, or a stop is queued or in flight, or an interrupt is still unanswered |
| `Interleaving.ClaimsStand` | src/dolphin_re_mcp/tools/breakpoint_tools.py:105-144 | the fence: whenever the protected block starts after an interrupt, the CPU is halted, nothing is in flight in either direction, the queue is empty and the state is not RUNNING; a nested use finds the state not RUNNING, so takes the branch that neither interrupts nor resumes; the outermost use leaves the lock with the state RUNNING and the CPU told to go on, so that it runs unless a breakpoint has fired since; and so does the watcher behind a stop it has logged or dropped |
| `Interleaving.RestoredCovered` | src/dolphin_re_mcp/tools/breakpoint_tools.py:131-144 | there, on an obliging stub, the CPU runs, or a stop is queued or in flight, or an interrupt is unanswered |
| `Interleaving.RunKeeps` | src/dolphin_re_mcp/session.py:63-66 | the invariant behind these, over all runs of stub moves and thread steps with exchanges answered in time |
| `Delivery.DeliveredOnce` | src/dolphin_re_mcp/gdb/client.py:246-285 | on every run with exchanges answered in time: the stops on the line are the last of those sent, in order, so the queue is always older than the line; the ones before have been taken or are queued, each once; and they are taken and queued in the order sent, in every state of the run, if and only if no stop is put back behind a different one |
| `Delivery.RunBalances` | src/dolphin_re_mcp/stop_watcher.py:66-84 | the same from any reachable state |
| `Delivery.RequeueBalances` | src/dolphin_re_mcp/stop_watcher.py:76-84 | a surfaced stop is neither lost nor doubled, and the line stays newest |
| `Delivery.RequeueKeepsOrder` | src/dolphin_re_mcp/stop_watcher.py:81 | putting a stop back keeps the order if and only if nothing but equal stops is queued, so always into an empty queue |
| `Tools.PauseDisciplined` | src/dolphin_re_mcp/tools/execution_tools.py:47-77 | `pause` keeps the discipline: any reply to the probe, both interrupts, any timeout of its waits; a probe that times out is outside it |
| `Tools.ResumeDisciplined` | src/dolphin_re_mcp/tools/execution_tools.py:87-97 | `resume` keeps it although it reads the state outside the lock; it marks the session RUNNING only behind an acknowledged `c`, as any disciplined program does |
| `Tools.RegistersDisciplined` | src/dolphin_re_mcp/tools/execution_tools.py:107-187 | the register tools keep it, for any list of queries and an error reply to any of them |
| `Tools.WaitsDisciplined` | src/dolphin_re_mcp/tools/breakpoint_tools.py:292-309 | `wait_for_hit` and the waits of the step family keep it |
| `Tools.StepDisciplined` | src/dolphin_re_mcp/tools/execution_tools.py:228-230 | `step` keeps it |
| `Tools.FenceEstablished` | src/dolphin_re_mcp/tools/breakpoint_tools.py:32-92 | interrupt, consume, drain, heartbeat and drain put any body in the fenced state, so a disciplined body makes a disciplined whole |
| `Tools.SafeToModifyDisciplined` | src/dolphin_re_mcp/tools/breakpoint_tools.py:95-144 | the fence around any commands, with the body raising after any of them, keeps the discipline, so its claims of the fenced start and the restored end stand on every run |
| `Tools.NestedModifyDisciplined` | src/dolphin_re_mcp/tools/breakpoint_tools.py:105-107 | so does a nested use, with the claim in front of it that the session is not RUNNING |
| `Tools.WatcherDisciplined` | src/dolphin_re_mcp/stop_watcher.py:63-90 | a watcher iteration keeps it, for any list of reads and any replies, the one it dies of excused as not obliging; a read that times out is outside it |
| `Tools.PauseWrites` | src/dolphin_re_mcp/tools/execution_tools.py:47-77 | over all paths, timeouts included: `pause` writes the probe, and behind a good answer one interrupt or two |
| `Tools.ResumeWrites` | src/dolphin_re_mcp/tools/execution_tools.py:87-97 | `resume` writes `c` or nothing, `step` writes `s`, the waits write nothing |
| `Tools.RegistersWrite` | src/dolphin_re_mcp/tools/execution_tools.py:107-187 | the register tools write a first part of their queries, at least one, and nothing else |
| `Tools.SafeToModifyWrites` | src/dolphin_re_mcp/tools/breakpoint_tools.py:95-144 | the fence writes the commands of its block, all or up to the one that raises, alone, or behind probe, interrupt and heartbeat and in front of `c`; or the probe alone: the commands of `Session.Modify` |
| `Tools.WatcherWrites` | src/dolphin_re_mcp/stop_watcher.py:63-157 | one pass of the watcher writes nothing; or its reads, all or up to one that times out, and `c`; or the reads up to the register dump it dies of |
| `Limits.DeafStubLosesStop` | src/dolphin_re_mcp/tools/execution_tools.py:51-76 | a run of `pause` that ends RUNNING with the CPU halted and no stop left, when the stub ignores interrupts while halted |
| `Limits.ErrorReplyLosesStop` | src/dolphin_re_mcp/stop_watcher.py:86-97 | a run of the watcher, prompt and with every interrupt answered, on which an error reply to `g` loses the stop it had taken |
| `Limits.LateReadBreaksPairing` | src/dolphin_re_mcp/stop_watcher.py:151-157 | a run on which a read of the watcher times out before its ack, the watcher continues the CPU, and the next register tool takes a stop for its reply |
| `Limits.UnlockedResumeBreaksPairing` | src/dolphin_re_mcp/tools/breakpoint_tools.py:435-437 | a run of the watcher, with every exchange answered in time, on which the resume sent without the lock makes it take a stop for its register dump |
| `Limits.SurfacingReorders` | src/dolphin_re_mcp/stop_watcher.py:76-84 | a lawful and prompt run of the watcher on which surfacing the first of two queued stops leaves them in the other order |
| `Limits.LateAddRegistersRefused` | src/dolphin_re_mcp/tools/breakpoint_tools.py:155-165 | a run of two additions in a paused session, the first given up before its ack, on which the second takes the acceptance of the first for its own and its place is refused: registered but not armed, which no answered or lost `Call` leads to |
| `Connection.Connection.ConsumeAck` | src/dolphin_re_mcp/gdb/client.py:232-254 | with the stub moving in between, what stands behind the ack read is exactly the reply of that command, or the stop it causes; only stops were queued, and none from a still line |
| `Connection.Connection.Cmd` | src/dolphin_re_mcp/gdb/client.py:331-337 | a completed command was delivered its own reply, has had exactly the effect that reply admits to on the armed set and leaves the line idle; sent to a halted CPU, it leaves nothing in flight and queues nothing; it is given up only with no packet on the line |
| `Connection.Connection.WaitForStop` | src/dolphin_re_mcp/gdb/client.py:437-439 | takes one packet: the oldest queued one, else the next one on the line at some later moment; a timeout means that no packet is on the line |
| `Connection.Connection.DrainStopReplies` | src/dolphin_re_mcp/gdb/client.py:462-485 | the queue is returned first and is empty afterwards |
| `Connection.Connection.SetBreak` | src/dolphin_re_mcp/gdb/client.py:423-429 | success, which is any reply but an empty one or one that begins with `E`, means the stub has armed or disarmed exactly that place, refusal that it changed nothing |
| `Connection.Connection.ContinueAsync` | src/dolphin_re_mcp/gdb/client.py:433-435 | once acknowledged, `c` is the last thing the CPU obeyed, and the only thing since a still line: it runs, unless a breakpoint has fired since |
| `Registry.MatchBp` | src/dolphin_re_mcp/tools/breakpoint_tools.py:359-393 | the three loops compute the attribution the next two rows characterize |
| `Registry.AttributedIsLeast` | src/dolphin_re_mcp/tools/breakpoint_tools.py:359-393 | a stop goes to the least id its annotation names, failing those to the least breakpoint at its PC, failing those to the only watchpoint |
| `Registry.UnattributedExactly` | src/dolphin_re_mcp/tools/breakpoint_tools.py:370-393 | it stays unattributed exactly when only watchpoints are left to take it and there is not exactly one |
| `Registry.PrintedWatch` | src/dolphin_re_mcp/tools/breakpoint_tools.py:370-380 | from the packet to the spec: a stop printed with `watch`, `rwatch` or `awatch` goes to the least id among the write, read or access watchpoints at that address |
| `Registry.PrintedBreak` | src/dolphin_re_mcp/tools/breakpoint_tools.py:382-393 | one printed without goes to the least breakpoint at the program counter printed, failing that to the only watchpoint, if there is exactly one |
| `Registry.RunAgrees` | src/dolphin_re_mcp/tools/breakpoint_tools.py:155-240 | over every run of adds and removes with the outcomes of `Call` (answered, lost, or registered on an unsure reply), without shared places: every registered spec is armed after every call if and only if no call registers a place the stub has not armed; the two sets stay equal while no call strays, ids ascend. Its calls are those that start on an idle line, which is what `Session.ChangeAll` gives; what follows a lost call is `Arrears` |
| `Registry.LastDecides` | src/dolphin_re_mcp/tools/breakpoint_tools.py:155-240 | when all calls but the last are answered, agreement in the end is decided by that one: it holds if and only if it is no addition of an unarmed place on an unsure reply |
| `Registry.RemovalAgrees` | src/dolphin_re_mcp/tools/breakpoint_tools.py:199-227 | a removal keeps registry and stub in agreement if and only if no other live spec is at that place |
| `Registry.IdsNeverReused` | src/dolphin_re_mcp/session.py:157-169 | whatever is registered after a run was registered before it or has a fresh id |
| `Session.Session.Quiesce` | src/dolphin_re_mcp/tools/breakpoint_tools.py:32-92 | one interrupt and one heartbeat are written; once the heartbeat is answered the CPU is halted and nothing is in flight, for any stops in flight and any timeouts before; and it is answered unless given up |
| `Session.Session.EnterModify` | src/dolphin_re_mcp/tools/breakpoint_tools.py:107-130 | from RUNNING: PAUSED, empty queue, still line; otherwise nothing at all changes; a dead stub gives ERROR |
| `Session.Session.ExitModify` | src/dolphin_re_mcp/tools/breakpoint_tools.py:133-144 | the one command written is `c`; once it is acknowledged: RUNNING again, and the CPU runs unless a breakpoint has fired since; a session that was not RUNNING is not touched |
| `Session.Session.Modify` | src/dolphin_re_mcp/tools/breakpoint_tools.py:95-144 | the fence around one change: the commands written are the change alone, or probe, heartbeat, change and `c` with one interrupt; answered and settled, the change is made exactly when accepted, and the CPU then runs unless a breakpoint has fired since; however it ends, and whatever the stub does later, the change has been made or not, and no other one; on an idle line it is answered and settled unless a command is given up |
| `Session.Session.Add` | src/dolphin_re_mcp/tools/breakpoint_tools.py:155-194 | success registers one spec with the next id and arms its place, refusal and a bad kind change neither registry nor stub, any other failure is at most a lost addition of `Registry.Call`, success without a settled fence one on an unsure reply; not RUNNING, it is always settled; the commands written are those of one change, and from an idle line with none given up the call succeeds or the stub has refused |
| `Session.Session.Remove` | src/dolphin_re_mcp/tools/breakpoint_tools.py:199-227 | the spec is gone whatever the stub answers; the place is disarmed exactly when it accepts; however it ends it is at most a lost removal of `Registry.Call`; unknown ids touch nothing; the commands written are those of one change |
| `Session.Session.Change` | src/dolphin_re_mcp/tools/breakpoint_tools.py:155-227 | one add or remove from an idle line ends in exactly one outcome of `Registry.Call`, and when the stub answered it leaves the line idle |
| `Session.Session.ChangeAll` | src/dolphin_re_mcp/tools/breakpoint_tools.py:155-227 | any adds and removes one after the other, from an idle line up to the first that is not answered: registry and stub go through a run of `Call`s with only the last in doubt, agreement is as `LastDecides` says, and from a session that is not RUNNING it always holds; all are answered unless a command is given up |
| `Arrears.SureExactly` | src/dolphin_re_mcp/tools/breakpoint_tools.py:155-227 | the registry agrees with the stub whatever the replies still owed if and only if every registered place is armed and no removal of it is owed |
| `Arrears.CallSureExactly` | src/dolphin_re_mcp/tools/breakpoint_tools.py:155-227 | one call, on the reply its client hears, its own or an earlier one: agreement whatever is owed survives if and only if an addition heard accepted is backed by what was armed and is owed; removals and calls given up never break it |
| `Arrears.RunSureExactly` | src/dolphin_re_mcp/tools/breakpoint_tools.py:155-227 | on every run of adds and removes heard, given up before or after their ack, from any state: agreement in every state if and only if every addition heard accepted is backed |
| `Arrears.AgreesExactly` | src/dolphin_re_mcp/tools/breakpoint_tools.py:155-227 | from nothing owed, with no place asked for twice (what a second request for one does is in the row above): agreement in every state for all replies of the stub if and only if no addition is heard after a call given up before its ack |
| `Arrears.HeardIs` | src/dolphin_re_mcp/gdb/client.py:331-337 | the reply a call hears is the stub's answer to the command that stands as many places earlier as calls have been given up before their ack: the indexing of `CmdEach` |
| `Arrears.StubArms` | src/dolphin_re_mcp/tools/breakpoint_tools.py:155-227 | what the stub has armed once it has answered every command in order is what the replies used up have armed and those owed do to it |
| `Arrears.StubAgrees` | src/dolphin_re_mcp/tools/breakpoint_tools.py:155-227 | so without an addition heard after a loss the registry agrees with what is armed in the end, whatever the stub answered |
| `Session.Session.RemoveAll` | src/dolphin_re_mcp/tools/breakpoint_tools.py:230-240 | empties the registry, and the changes asked for are the disarming of every spec in order; or on a wedged stub has removed a first part of it |
| `Session.Session.WaitForHit` | src/dolphin_re_mcp/tools/breakpoint_tools.py:292-309 | refused unless RUNNING without a live watcher; takes the oldest queued stop, else the next packet on the line at some later moment, and pauses; a timeout leaves the state and means that no packet was queued or on the line |
| `Session.Session.Pause` | src/dolphin_re_mcp/tools/execution_tools.py:36-77 | writes a probe and one interrupt, two when the first brings no stop, and returns no stop queued before; a stop taken leaves the CPU halted or with an interrupt on its way and the session PAUSED; a timeout leaves the state, a dead stub gives ERROR |
| `Session.Session.Resume` | src/dolphin_re_mcp/tools/execution_tools.py:87-97 | nothing is sent when already RUNNING; otherwise one `c`, behind which the CPU runs unless a breakpoint has fired since |
| `Session.Session.StepInstruction` | src/dolphin_re_mcp/tools/execution_tools.py:220-230 | writes one `s`; a completed step leaves the CPU halted with that instruction the last thing it did, and from a quiet start the only one, with nothing in flight or queued |
| `Session.Session.RunTo` | src/dolphin_re_mcp/tools/execution_tools.py:306-340 | on every exit the registry is what it was and the last commands are those of the removal, and when both changes settled the stub has lost exactly the temporary place; what it returns is the stop taken last, with the program counter it carries or the one read, after the CPU was told to go on exactly once |
| `Session.TemporaryAgrees` | src/dolphin_re_mcp/tools/execution_tools.py:261-340 | agreement with the stub survives that if and only if no live spec was at the temporary place |
| `Watcher.StopWatcher.Snapshot` | src/dolphin_re_mcp/stop_watcher.py:131-157 | the commands sent are a first part of the queries the captures ask for; the i-th reply is the packet delivered for the i-th of them, its own reply on a line that was idle; it stops early only for a read that timed out or raises |
| `Watcher.StopWatcher.HandleStop` | src/dolphin_re_mcp/stop_watcher.py:101-167 | by cases on the spec that captures the stop: a read that raised kills the thread; else the capture is appended to its log, and counted, if and only if its condition is empty or holds; else nothing changes; a stop of no capturing spec is surfaced and touches nothing; the capture holds the replies delivered, and no `c` is sent |
| `Watcher.StopWatcher.Iterate` | src/dolphin_re_mcp/stop_watcher.py:63-90 | takes exactly one stop off the connection, or none; its verdict and the registry after it are those of attribution, condition and the replies delivered for its reads; a logged or dropped one is followed by exactly one `c`, the last command; a surfaced one goes to the back of the queue, pauses and sends nothing |
| `Watcher.StopWatcher.Run` | src/dolphin_re_mcp/stop_watcher.py:53-99 | in the history of the connection, between any doings of the tools: the stops the passes took = hits + hits dropped by a condition + at most one, the last, surfaced or fatal, after which the thread exits; the `c` packets they wrote = the first two; the captures are those stops, and each got the verdict that attribution, replies and condition give on the registry the session had at that stop; alone, the watcher writes and takes nothing else, and verdicts and registry are what its captures make of the registry at the start |
| `Watcher.HandledIs` | src/dolphin_re_mcp/stop_watcher.py:108-167 | the same by cases for the verdict and registry that the accounting of a run is stated with |
| `Watcher.MeantIsLogged` | src/dolphin_re_mcp/stop_watcher.py:101-167 | a capture is logged for a spec if and only if its stop is attributed to it, it is auto-continuing, the reads went through and its condition is empty or holds |
| `Watcher.QueriesExactly` | src/dolphin_re_mcp/stop_watcher.py:133-150 | GPRs at once and first, then LR by its number, which the stack needs too, then the 32 FPRs in order, each if and only if asked for |
| `Watcher.HitsAreEntries` | src/dolphin_re_mcp/stop_watcher.py:165-166 | the hits counted are the entries added to the logs |
| `Watcher.DiesExactly` | src/dolphin_re_mcp/stop_watcher.py:133-157 | a stop kills the watcher exactly when it is captured for a spec that asks for GPRs and the first reply makes the read raise |
| `Watcher.NothingDies` | src/dolphin_re_mcp/stop_watcher.py:133-157 | so on a run without such replies nothing dies, and the accounting is hits, dropped and surfaced |
| `Watcher.LogsInOrder` | src/dolphin_re_mcp/stop_watcher.py:108-167 | in that registry every log has grown by exactly the captures meant for its spec, in the sense of `MeantIsLogged`, in arrival order, and nothing else changed |
| `Tracing.CaptureOnHit` | src/dolphin_re_mcp/tools/breakpoint_tools.py:405-446 | an unknown id or key changes nothing; otherwise exactly that spec gets the keys, GPRs by default, and becomes auto-continuing, also when the resume fails; `c` is written exactly from the paused state with auto-resume |
| `Tracing.StopCapturing` | src/dolphin_re_mcp/tools/breakpoint_tools.py:503-528 | clears the flag of one spec or of all and stops the watcher exactly when none is left |
| `Tracing.CaptureFor` | src/dolphin_re_mcp/tools/compound_tools.py:43-47 | the log fetched is the old one and exactly the captures meant for that spec among the stops the watcher took while the tool slept, in arrival order |
| `Tracing.Trace` | src/dolphin_re_mcp/tools/compound_tools.py:20-95 | on every exit the registry is what it was, but for what the watcher logged for other specs; the changes asked for are the arming of the place and then its disarming, unless the stub is wedged by then; what it returns are exactly the captures meant for its own spec; a bad duration touches nothing; and the watcher is gone when no other spec captures |
| `Fusion.PostProcess` | src/dolphin_re_mcp/disasm/ppc.py:292-336 | the walk over the array in place leaves exactly the tagged listing that the next rows characterize |
| `Fusion.Visit` | src/dolphin_re_mcp/disasm/ppc.py:302-336 | one instruction: it alone may change, and what is pending changes as it reads |
| `Fusion.PendingExactly` | src/dolphin_re_mcp/disasm/ppc.py:301-336 | a register is pending exactly when its last touch so far is a `lis`, with that `lis` and its value |
| `Fusion.TagsExactly` | src/dolphin_re_mcp/disasm/ppc.py:312-331 | an instruction is tagged if and only if it combines a register with itself and the last touch of that register was a `lis`, and the tag is built from that `lis` |
| `Fusion.TagsAreComputed` | src/dolphin_re_mcp/disasm/ppc.py:292-336 | on one run, from any registers and whatever other instructions write within `Sound`, every tag is the value its register holds after the instruction, with 32-bit wrap-around and sign or zero extension |
| `Fusion.TagRight` | src/dolphin_re_mcp/disasm/ppc.py:316-329 | the tag of a pending register other than r0 is what the instruction computes if and only if it is not `subi` of 0x8000 |
| `Fusion.TagOnR0` | src/dolphin_re_mcp/disasm/ppc.py:319-329 | on r0 it is right if and only if the high half is zero, or 0xffff for the flipped immediate |
| `Fusion.BitOrBits` | src/dolphin_re_mcp/disasm/ppc.py:316-317 | a bit of the `ori` result is set exactly when it is set in one of the two |
| `Listings.PairTag` | src/dolphin_re_mcp/disasm/ppc.py:292-331 | in numbers: whatever texts stand for the immediates, and in any case of the mnemonics, the pair is tagged with the high half plus, minus or or'ed with the low one, modulo 2^32 |
| `Listings.NegativeImmediate` | src/dolphin_re_mcp/disasm/ppc.py:319-329 | `lis rN, hi; addi rN, rN, -m` as printed is tagged with hi * 0x10000 - m, for every register, hi and m |
| `Listings.PrintedStands` | src/dolphin_re_mcp/disasm/ppc.py:320-325 | immediates printed in decimal or hexadecimal with their sign stand for themselves |
| `Listings.UnreadImmediate` | src/dolphin_re_mcp/disasm/ppc.py:350-358 | an immediate that cannot be read leaves the tag at the high half |
| `Listings.OperandCounts` | src/dolphin_re_mcp/disasm/ppc.py:339-358 | with another number of operands the instruction is not read at all |
| `Listings.FirstOperand` | src/dolphin_re_mcp/disasm/ppc.py:332-366 | any other instruction is taken to write the register its operands begin with, r0 to r31 or any number, if a comma follows, and nothing if they begin with something else |
| `FusionExact.AlwaysExactly` | src/dolphin_re_mcp/disasm/ppc.py:292-336 | constant propagation as the reference: for all code, a register holds one value on every way the code can go, other instructions writing or not what they may, if and only if propagation finds that value |
| `FusionExact.TagHoldsExactly` | src/dolphin_re_mcp/disasm/ppc.py:292-336 | for all code, a tag is right on every way the code can go if and only if propagation finds the tagged value in its register |
| `FusionExact.PairHoldsExactly` | src/dolphin_re_mcp/disasm/ppc.py:312-336 | in terms of the listing, with no combination from another register in between: if and only if the immediate is not the flipped one and no instruction since the `lis`, unseen by the pass, may write the register; on r0 as `TagOnR0` says |
| `FusionExact.UnknownDiffers` | src/dolphin_re_mcp/disasm/ppc.py:332-336 | a register that propagation does not know differs by one in the high half on two ways, so no tag on it is right |
| `FusionLimits.SingleOperandWrite` | src/dolphin_re_mcp/disasm/ppc.py:361-366 | `lis r3, 1; mflr r3; ori r3, r3, 5` is mistagged |
| `FusionLimits.SecondOperandWrite` | src/dolphin_re_mcp/disasm/ppc.py:332-336 | `lwzu r4, 8(r3)` in between: mistagged |
| `FusionLimits.CombinedFromElsewhere` | src/dolphin_re_mcp/disasm/ppc.py:312-331 | `addi r3, r4, 8` in between: mistagged |
| `FusionLimits.SubtractedHalf` | src/dolphin_re_mcp/disasm/ppc.py:322-328 | `lis r3, 1; subi r3, r3, 0x8000` is tagged 0x18000 and computes 0x8000 |
| `FusionLimits.BaseRegisterZero` | src/dolphin_re_mcp/disasm/ppc.py:312-331 | `lis r0, 1; addi r0, r0, 8` is tagged 0x10008 and computes 8 |
| `FusionLimits.SoundPair` | src/dolphin_re_mcp/disasm/ppc.py:292-331 | `lis r3, 1; ori r3, r3, 5` meets `Sound`, is tagged 0x10005 and leaves it in r3 |
| `Search.Find` | src/dolphin_re_mcp/tools/memory_tools.py:260-262 | the first occurrence at or after the start, or that there is none |
| `Search.ScanChunk` | src/dolphin_re_mcp/tools/memory_tools.py:255-267 | one chunk and the kept tail add exactly the occurrences ending in that chunk that lie in both |
| `Search.Scan` | src/dolphin_re_mcp/tools/memory_tools.py:249-271 | the chunk loop reports, ascending and once each, exactly the occurrences that touch at most two chunks |
| `Search.SearchMem` | src/dolphin_re_mcp/tools/memory_tools.py:239-271 | the empty pattern and unknown regions are errors, and only those; otherwise the scan of the named region |
| `Search.UpperAnyCase` | src/dolphin_re_mcp/tools/memory_tools.py:241-244 | the region may be named in any mixture of cases |
| `Search.OccurrencesExactly` | src/dolphin_re_mcp/tools/memory_tools.py:239-240 | the naive search lists an address if and only if the pattern occurs there |
| `Search.OccurrencesAscend` | src/dolphin_re_mcp/tools/memory_tools.py:239-240 | strictly ascending, so without duplicates |
| `Search.ChunkedIsNaive` | src/dolphin_re_mcp/tools/memory_tools.py:249-271 | chunked and naive search agree on every memory and pattern of given sizes if and only if no occurrence can span three chunks, for any chunk size |
| `Search.ExactInRegions` | src/dolphin_re_mcp/tools/memory_tools.py:244-250 | in both regions that is: at most 0x400001 bytes, or longer than the region |
| `Symbols.ParseText` | src/dolphin_re_mcp/symbol_map.py:154-186 | the loop with its set of seen keys computes the entries kept and the lines skipped |
| `Symbols.ParsedExactly` | src/dolphin_re_mcp/symbol_map.py:178-186 | an entry is kept if and only if it is the first with its address and name |
| `Symbols.SkippedExactly` | src/dolphin_re_mcp/symbol_map.py:154-186 | the lines skipped are the malformed ones, each counted once |
| `Symbols.SortedIs` | src/dolphin_re_mcp/symbol_map.py:68-71 | the table is ordered by (addr, -size), has the same symbols, and keeps file order within a key |
| `Symbols.SymbolMap.Load` | src/dolphin_re_mcp/symbol_map.py:59-84 | the three structures are rebuilt together and agree |
| `Symbols.SymbolMap.Lookup` | src/dolphin_re_mcp/symbol_map.py:107-127 | dictionary and bisection give what a scan of the whole table gives |
| `Symbols.BisectRight` | src/dolphin_re_mcp/symbol_map.py:119-122 | splits a sorted list at the last element not above the address |
| `Symbols.ExactFound` | src/dolphin_re_mcp/symbol_map.py:74-118 | the dictionary and the index name the same symbol on every table |
| `Symbols.Candidate` | src/dolphin_re_mcp/symbol_map.py:107-127 | the answer is the symbol of highest start not above the address, then smallest size, then last in the file, if that contains the address |
| `Symbols.DisjointLookup` | src/dolphin_re_mcp/symbol_map.py:107-127 | on disjoint ranges it is the one symbol containing the address, and none exactly when none does |
| `Symbols.HiddenExactly` | src/dolphin_re_mcp/symbol_map.py:119-127 | addresses inside some symbol are always resolved if and only if no symbol outlives a later one before the next start |
| `Symbols.NestedHidesOuter` | src/dolphin_re_mcp/symbol_map.py:119-127 | an enclosing symbol is not found past the end of the one nested in it |
| `Attach.RoutedExactly` | src/dolphin_re_mcp/memory/routing.py:41-64 | an access is routed if and only if it is not empty and every byte of it is guest memory, at the region and offset that give its address |
| `Attach.WalkRegions` | src/dolphin_re_mcp/memory/attach.py:230-258 | the regions of the mapped blocks, in address order |
| `Attach.RegionsExactly` | src/dolphin_re_mcp/memory/attach.py:230-258 | a region is found if and only if it is a mapped block, not the one at address 0, with no empty block in front of it |
| `Attach.FindRegions` | src/dolphin_re_mcp/memory/attach.py:85-106 | the two regions found are the first of exactly the reserved sizes, do not overlap and hold the usable memory; failure names the size that is missing |
| `Attach.StaysInside` | src/dolphin_re_mcp/memory/attach.py:165-169 | the host range of a routed access lies in the usable part of its region, byte for byte |
| `Attach.AttachBackend.Read` | src/dolphin_re_mcp/memory/attach.py:133-149 | answers as the access model does: routing errors, OS errors, bytes |
| `Attach.AttachBackend.Write` | src/dolphin_re_mcp/memory/attach.py:151-163 | changes the process as the access model does and nothing else |
| `Attach.RunRefines` | src/dolphin_re_mcp/memory/attach.py:131-169 | any run of accesses, in range or not, is answered as flat guest memory answers it, and no host byte outside the usable regions changes |
| `Attach.SeparateExactly` | src/dolphin_re_mcp/memory/attach.py:165-169 | that refinement holds if and only if the usable parts of the regions are apart |

## Left out

- Sockets, wall-clock time and thread scheduling: `recv` is nondeterministic, deadlines are the parameters `polls`, `waits`, `replies` and `passes`, threads are interleaved steps.
- The interleaving theorems assume exchanges answered in time: a timeout between a send and its reply is a step there, but `LawfulRun` excludes it, because the properties fail with it (`LateReadBreaksPairing`, `LateAck`, `LateReply`).
- Which packets the fence of a RUNNING session meets once a call has been lost: `Arrears` follows sessions that are not RUNNING, between whose adds and removes no other command is sent.
- Loss of the connection, reconnecting, loading save states and `disconnect` are not part of the packet-level model; the byte-level client has the first.
- Stub access without `gdb_lock` (memory reads through the stub, the connect handshake) is outside the interleaving; `UnlockedResumeBreaksPairing` shows why it matters.
- Register contents are opaque replies to the watcher; of decoding them only what makes `read_registers` raise is modelled.
- Conditions and capture predicates evaluated by Python are arbitrary boolean functions of the capture.
- The kind of a watchpoint is given already recognized, `None` for an unknown one, without the lower-casing.
- What `step` reads when its stop reply carries no program counter is what `RunTo` reads there; it is not repeated.
- The disassembly that decides whether `step_over` sets a breakpoint, and the symbol annotations of results, are not modelled.
- `trace_until`, the filters of `get_capture_log`, `get_stack`, the typed and structured reads, dumps and diffs, the diagnostic ring buffer, floating-point registers: easy members beside the above.
- Instruction decoding, classification and effective addresses are foreign or easy; the pass takes decoded instructions.
- The columns of one line of a map file are not parsed: lines come classified as ignored, malformed or an entry.
- The library sort of the symbol table is modelled as stable insertion; its order, contents and stability determine it.
- Process lookup and the Windows calls are parameters: a list of blocks that follow one another from address 0.
- A failing system call is taken to write nothing.
- The stub-backed memory backend and the choice between the two backends.
- Digits and white space outside Latin-1, and payload bytes that do not decode.
- Concurrent memory changes during a search: the region is constant while it is searched.
- Addresses are unbounded integers, as in the source; only the fusion pass wraps at 32 bits.
