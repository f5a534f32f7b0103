# Two file-transfer protocols over UDP

The repository holds several implementations of an FTP-like file transfer over UDP. This project models
two of them and proves what they keep, over all runs:

* **The sliding-window transport** of `build3/sample-3`: a Go-Back-N sender and receiver with 5-bit
  sequence numbers, and the router between them that drops packets and holds one back.
* **The pair-at-a-time protocol** of `build3/Assign3_zcl`: two packets make one block, numbers are plain
  integers, and each of the two packets is answered by number.

## How it is built

| file | content |
|---|---|
| `Protocol.dfy`, `Sequences.dfy` | constants, frames, arithmetic on five bits; choosing elements of a sequence |
| `Router.dfy`, `RouterHost.dfy`, `RouterTiming.dfy` | the router as a function of its state; the object of `Router.cpp`, proved against it; when it sends what |
| `SenderSpec.dfy`, `SockLib.dfy` | what the calls of `socklib.cpp` compute; the object with its array and its loops, proved against that |
| `Files.dfy` | cutting a file into packets and putting it together |
| `Link.dfy` | sender, router and receiver as one system of steps |
| `Calls.dfy`, `Receiving.dfy`, `Program.dfy` | the calls of the library inside runs of that system, with anything happening on the legs meanwhile |
| `Flow.dfy`, `GoBackN.dfy` | the same system with unbounded numbers, and its invariant, for a window of any size |
| `Refinement.dfy`, `Safety.dfy` | with at most 15 packets in the window, five bits decide as the unbounded numbers do; what follows |
| `Transfer.dfy`, `FullWindow.dfy` | what arrives of a file, also when a payload was passed over, and exactly when that can happen |
| `RunPieces.dfy`, `Exactness.dfy`, `StaleSlot.dfy` | families of concrete runs: 16 packets are too many, line 506 of `socklib.cpp` loses packets, a full window stays full |
| `Synchronisation.dfy` | how a reset receiver finds the sender's numbers, in every run |
| `Retransmission.dfy`, `CallEnds.dfy`, `Responses.dfy` | what is sent, and what is answered, told by the payloads and by what comes in |
| `WindowBuffer.dfy`, `Progress.dfy`, `AckOrder.dfy`, `Termination.dfy` | the buffer, progress, order of ACKs, termination of a call |
| `PairSpec.dfy`, `PairHost.dfy` | `udpsend` and `udprecv` as functions of their state, and as methods |
| `PairSending.dfy`, `PairAnswers.dfy` | what udpsend sends and udprecv answers, for everything that comes in |
| `PairNet.dfy`, `PairLossy.dfy`, `PairCalls.dfy`, `PairProgress.dfy`, `Blocks.dfy` | the pair protocol over an arbitrary network, and over one in which what is lost is gone; when it moves on; files |

A state of `Link` holds the concrete sender (window buffer, tags, 32-bit counter), `lastSeq`, the router
and the four legs between them. Each step is named by an event that carries the choice the environment
makes: a timeout, a delivery, a loss behind the router, or what the router's two random tests answer. All
theorems about runs hold for every list of events, every first sequence number and every initial content
of the window memory. The object in `SockLib.dfy` carries the same state as a ghost value; its methods
keep the loops of the program and are proved to compute what the functions of `SenderSpec.dfy` say. The steps
of `Link` are made of the same functions, and `Program.dfy` closes the circle: a series of library calls is a
process beside the network, every interleaving of its steps with those of the network is a run of `Link`, and
when the calls are over they have the results that the methods have for the arrivals they met.

The memory right behind `winBuf` is modelled as one more slot of arbitrary content that is never written,
because `remove_packets_from_win` reads it when the window is full. Legs keep their order; the router is
the only reorderer. A run is *clean* when it never takes the branch at line 506 on a window that is not
empty.

## What the proofs found

* **The bound of 15 is exact.** For windows of 1 to 15 packets every clean run delivers a prefix of what
  was stamped and forgets nothing. For each of 16 to 32 there is a clean run in which the sender discards
  packets that never arrived, and one in which the receiver passes on a wrong payload: a NACK that was
  overtaken in the router comes in one window later, where its number means another packet. With 32 any NACK
  for the base packet does it. The default window is 7.
* **Line 506** compares before it masks, and it looks at a slot that is not in the window. In the
  model, as in C, the comparison is `p->seq == recvSeq - 1`, which never holds for `recvSeq` 0. After a
  clean run with a window of at most 15 packets it is the one way for the sender to lose packets
  (`ForgetsExactly`). For every window of 2 to 32
  packets a clean run leads to it, whatever the memory holds at the start (`StaleSlotForgets`); for a window of
  one packet it can be reached exactly when the memory behind the buffer does not hold the number 31
  (`OneSlotForgets`).
* **`send_file` returns -1 in every case**: emptying the window gives 0, and the last loop takes 0 for a
  failure. What is sent is not affected.
* **A payload that finds the window full is passed over** by `copy_2_winbuf`. For every window of 1 to 31
  packets a clean run leads there (`FullWindowStays`): a NACK for a packet that has left the window already
  ends the next transmission with nothing removed. A transmission returns its window unchanged exactly when the
  first NACK or SACK misses, with no ACK for the base packet before it (`ReturnsUnmoved`). Then `recv_file` waits
  for ever, unless 1024 divides the length and one chunk only is missing; in that case it writes the file
  without it and zeros at the end, which is the file exactly when everything from that chunk on is zero
  (`SkippedChunk`, `FileArrivesExactly`).
* **A retransmission** sends the packet before the last one twice and leaves the last one out; progress and
  safety are proved with that.
* **One lost packet stalls the pair protocol for ever** if nothing is lost after it: `udprecv` then reads
  the second packet of a pair and the first of its repetition as a pair, refuses both, and is out of step
  again. A perfect round gets through if and only if `udprecv` holds no packet when it begins
  (`RoundCompletes`). A further loss repairs it, so no state is a dead end (`CanAlwaysFinish`).
* **The resend limit in `udpsend` has no effect** (`OnlyAnswersEndFirstLoop`).
* **The server's loop for GET runs once more** when 260 divides the length of a non-empty file, and passes on an
  empty tail that nobody reads (`ServeFile`, against `PutFile` and `GetFile`).

## Model

| member | source | states |
|---|---|---|
| RouterSpec.OutputExplained | build3/sample-3/Router/Router.cpp:149-258 | In every run, what reaches a peer is what was sent to it with some packets removed and then disjoint neighbours exchanged; the held packet comes after all of them. |
| RouterSpec.Accounting | build3/sample-3/Router/Router.cpp:161-254 | In every run, received = forwarded + released + dropped + held, and an empty slot has wait count 0. |
| RouterSpec.WaitCounts | build3/sample-3/Router/Router.cpp:161-253 | As long as the slot is taken it holds the same packet, and each quiet pass is counted. |
| RouterSpec.HoldingIsBounded | build3/sample-3/Router/Router.cpp:243-254 | A held packet leaves no later than the third select timeout after it was stored. |
| RouterTiming.DelayedIsHeld | build3/sample-3/Router/Router.cpp:191-200 | A packet toward either peer that finds the slot empty and is delayed is in the slot after the pass, whatever the damage test would say, and nothing was sent. |
| RouterTiming.OthersAtOnce | build3/sample-3/Router/Router.cpp:201-241 | Any other packet is dropped if damaged, and else sent in the same pass to its peer alone, with the packet held for that peer right behind it. |
| RouterTiming.HeldUntilFreed | build3/sample-3/Router/Router.cpp:159-254 | Until a packet for the same peer is sent on, or a quiet pass is at least the third pass since, a delayed packet is held and not sent, and the wait count is the number of passes since it was stored. |
| RouterTiming.FreedAtOnce | build3/sample-3/Router/Router.cpp:220-252 | In the first such pass it is sent, and the slot is empty. |
| RouterTiming.HeldExactly | build3/sample-3/Router/Router.cpp:159-254 | It is held through a stretch of passes, each counted, if and only if none of them is such a pass. |
| RouterHost.Host.constructor | build3/sample-3/Router/Router.cpp:143-147 | The router starts with an empty slot and all counters at 0. |
| RouterHost.Host.Receive | build3/sample-3/Router/Router.cpp:159-242 | A pass with a packet makes the specified step on slot and wait count, appends to the right peer's stream only, and counts the packet for its sender. |
| RouterHost.Host.Wait | build3/sample-3/Router/Router.cpp:243-254 | A quiet pass makes the specified step and changes no packet counter. |
| RouterHost.Host.SendProc | build3/sample-3/Router/Router.cpp:267-289 | The held packet goes to its destination and nowhere else, and the slot is empty. |
| RouterHost.Host.RunLoop | build3/sample-3/Router/Router.cpp:149-257 | The loop over any list of arrivals ends in the state and output of RouterSpec.Run; the two counters add up to the packets received. |
| SockLibrary.SockLib.constructor | build3/sample-3/common/socklib.cpp:319-329 | A new object has an empty window over memory of any content. |
| SockLibrary.SockLib.AddUdpHeader | build3/sample-3/common/socklib.cpp:720-729 | A header carries the low five bits of the counter, which then wraps at 2^32. |
| SockLibrary.SockLib.FindSeq | build3/sample-3/common/socklib.cpp:480-487 | The search stops at the first live packet with the number, or behind the live packets. |
| SockLibrary.SockLib.RemovePacketsFromWin | build3/sample-3/common/socklib.cpp:472-511 | The array, the tags and winBufPos change as Remove says, in all three cases; the result is what is left. |
| SockLibrary.SockLib.ShiftOut | build3/sample-3/common/socklib.cpp:488-503 | Packets and tags move left together and the tags behind them are cleared, unless nothing is left. |
| SockLibrary.SockLib.CopyDown | build3/sample-3/common/socklib.cpp:496-499 | The in-place copy puts a[i..i+count] in front and leaves the rest of the array. |
| SockLibrary.SockLib.GetMaxSeq | build3/sample-3/common/socklib.cpp:514-550 | The packet is tagged if it is in the window; the results tell an empty window, no leading run, and the number of the last packet of the run apart. |
| SockLibrary.SockLib.CountLeading | build3/sample-3/common/socklib.cpp:533-539 | The loop finds the length of the leading run of tagged live packets. |
| SockLibrary.SockLib.ResendAllWinPackets | build3/sample-3/common/socklib.cpp:162-186 | A retransmission sends all live packets but the last, and then the one before the last once more. |
| SockLibrary.SockLib.SendAllWinPackets | build3/sample-3/common/socklib.cpp:162-196 | Window, unread datagrams and everything sent are those of Transmission; -1 exactly on failure, else the packets left. |
| SockLibrary.SockLib.UdpSendToEx | build3/sample-3/common/socklib.cpp:617-718 | The loop with its retries ends as Exchange does, for everything that may come in. |
| SockLibrary.SockLib.Turn | build3/sample-3/common/socklib.cpp:624-714 | One pass of the loop is one turn, and the retry count and waitForACK follow it. |
| SockLibrary.SockLib.OnSilence | build3/sample-3/common/socklib.cpp:638-654 | A timeout costs one retry, sends the window again, clears all tags, and at the last retry sends the probe. |
| SockLibrary.SockLib.TakeReply | build3/sample-3/common/socklib.cpp:661-714 | ACK, NACK, SACK and any other type change state, wire and result as OnArrival says. |
| SockLibrary.SockLib.TakeAck | build3/sample-3/common/socklib.cpp:694-714 | An ACK ends the call exactly when the window is empty before it or after it. |
| SockLibrary.SockLib.CopyToWinBuf | build3/sample-3/common/socklib.cpp:198-211 | A payload is stamped if there is room and passed over if not; a full window is sent; negative exactly on failure. |
| SockLibrary.SockLib.SockSendToEx | build3/sample-3/common/socklib.cpp:764-790 | With flag 0, success means an empty window. |
| SockLibrary.SockLib.DrainWindow | build3/sample-3/common/socklib.cpp:240-245 | The loop ends with an empty window or a failed call, with the effects of Drained. |
| SockLibrary.SockLib.SendFile | build3/sample-3/common/socklib.cpp:213-254 | What is stamped are the chunks of the file in order without those passed over, up to the call that failed if one did; without a failure all of them exactly when none was passed over; the result is -1 in every case. |
| SockLibrary.SockLib.ChkSeqEx | build3/sample-3/common/socklib.cpp:828-849 | New lastSeq, reply and acceptance are those of Check. |
| SockLibrary.SockLib.SockRecvFrom | build3/sample-3/common/socklib.cpp:851-944 | The loop takes as many payloads as the length needs and returns their first bytes; otherwise it is still waiting. |
| SockLibrary.SockLib.HearOne | build3/sample-3/common/socklib.cpp:856-928 | One pass answers a late handshake frame, passes over refused packets, and hands out accepted ones. |
| SockLibrary.SockLib.RecvFile | build3/sample-3/common/socklib.cpp:256-282 | What is written is the assembled file of the payloads taken, as if they had been taken in one call. |
| SenderSpec.ListenOn | build3/sample-3/common/socklib.cpp:268-278 | Receiving some payloads and then more is the same as receiving all of them. |
| Responses.ListenResponds | build3/sample-3/common/socklib.cpp:828-937 | For every stretch of receiving: what was sent is, frame by frame read, an ACK with its number for the packet waited for, a NACK with the number waited for to any other, the same number to a probe; what was taken are the packets waited for. |
| Responses.HandshakesAnswered | build3/sample-3/common/socklib.cpp:903-915 | A receiver sends one frame with number 0 and the handshake data for each handshake frame read, and no other frame of type REQUEST. |
| Files.ChunksRoundTrip | build3/sample-3/common/socklib.cpp:213-282 | For every file, the packets recv_file takes out of those send_file makes assemble to the file. |
| Files.SurplusChunk | build3/sample-3/common/socklib.cpp:227-236 | One packet more than needed is made exactly when 1024 divides the length. |
| Files.ChunkByte | build3/sample-3/common/socklib.cpp:227-235 | Byte j of chunk i is byte 1024 i + j of the file, and 0 behind its end. |
| Calls.TransmissionInRun | build3/sample-3/common/socklib.cpp:162-196 | In every run that starts with send_all_win_packets and in which the caller does nothing else, the sender is where Transmission says for the arrivals met so far, and ends there when the call returns. |
| Calls.ExchangeInRun | build3/sample-3/common/socklib.cpp:617-718 | The same from any wait of udp_sendtoEx on, whatever the network does in between and whatever is still to come. |
| Receiving.ReceivingInRun | build3/sample-3/common/socklib.cpp:851-944 | In every run the receiving calls are where Listen says for the datagrams delivered so far, with select timeouts anywhere between them. |
| Receiving.ReceivedInRun | build3/sample-3/common/socklib.cpp:851-944 | In every run that accepted enough, receiving calls that ask for a number of payloads have returned with the first ones accepted, whatever came later. |
| Receiving.RunPlain | build3/sample-3/common/socklib.cpp:903-919 | In one direction of transfer no handshake frame is ever under way, so the branch for late ones is not taken. |
| Program.PlayIsRun | build3/sample-3/common/socklib.cpp:198-254 | Any interleaving of the library's sending calls with the network is a run of the system. |
| Program.ProcessPerforms | build3/sample-3/common/socklib.cpp:198-254 | When the calls are over, their state, all they sent and the payloads they passed over are those the methods produce for the arrivals they met. |
| Program.StampedInOrder | build3/sample-3/common/socklib.cpp:198-254 | At each moment the payloads stamped are those copied so far without the ones passed over, in order. |
| Program.MessageSent | build3/sample-3/common/socklib.cpp:764-790 | sock_sendtoEx on an empty window, if it succeeds, has stamped its message and left the window empty. |
| Flow.PacketKeeps | build3/sample-3/Router/Router.cpp:189-241 | A pass of the router keeps the order of ranks up to one overtaking by the neighbour. |
| GoBackN.NextKeeps | build3/sample-3/common/socklib.cpp:617-849 | Every step keeps base <= high <= expected <= top <= base + size and the bounds on all messages under way, for a window of any size. |
| GoBackN.RunKeeps | build3/sample-3/common/socklib.cpp:617-849 | The invariant holds in every run of the unbounded system. |
| Refinement.FindReply | build3/sample-3/common/socklib.cpp:524-531 | With at most 15 packets, looking up the 5-bit number of a reply finds the packet it stands for, or nothing if that is not in the window. |
| Refinement.CheckPacket | build3/sample-3/common/socklib.cpp:833-839 | The receiver's 5-bit test decides equality of unbounded indexes. |
| Refinement.LeadingRel | build3/sample-3/common/socklib.cpp:533-548 | The run of tags is the run of acknowledged indexes from the base. |
| Refinement.NextRel | build3/sample-3/common/socklib.cpp:617-849 | Each step of the program is the image of the unbounded step for the same event. |
| Refinement.RunRel | build3/sample-3/common/socklib.cpp:617-849 | In every clean run with at most 15 packets the program is at each moment the image of the unbounded system. |
| Safety.DeliveredIsPrefix | build3/sample-3/common/socklib.cpp:617-849 | End-to-end safety: accepted payloads are a prefix of stamped ones, in every clean run. |
| Safety.NothingForgotten | build3/sample-3/common/socklib.cpp:472-511 | B <= R <= B + winBufPos, and a tag on slot k implies B + k < R: only accepted packets leave the window or are tagged. |
| Synchronisation.FirstPacketSynchronises | build3/sample-3/common/socklib.cpp:828-840 | In every run, clean or not, with a window of up to 32: the first data packet at a reset receiver is packet 0 and is accepted; from then on lastSeq is (R - 1) mod 32. |
| Safety.InFlightBounds | build3/sample-3/common/socklib.cpp:682-714 | Data under way has an index in [R - w - 1, R + w - 1], replies count from B - w to what was stamped, for any window size w. |
| Safety.ForgetsExactly | build3/sample-3/common/socklib.cpp:504-509 | After a clean run, a step loses packets not accepted if and only if it takes the branch at line 506 while there are some. |
| WindowBuffer.WindowIsSound | build3/sample-3/common/socklib.cpp:198-211 | In every run, clean or not, with up to 32 slots: the live slots hold the last packets stamped with numbers that follow from the counter, all different, and no tag is set behind them. |
| WindowBuffer.ShiftKeeps | build3/sample-3/common/socklib.cpp:488-503 | The shift keeps numbering and payloads, keeps tags aligned, and clears the rest. |
| WindowBuffer.StampKeeps | build3/sample-3/common/socklib.cpp:720-729 | Stamping keeps the numbering, also where the 32-bit counter wraps. |
| Exactness.SafeWindowExact | build3/sample-3/common/protocol.h:68-76 | Among windows of 1 to 32 packets, those for which every clean run delivers a prefix, and those for which none forgets, are exactly the ones of at most 15. |
| Exactness.LargeWindowForgets | build3/sample-3/common/socklib.cpp:682-691 | For every window of 16 to 31 a clean run in which a stale NACK removes packets never received. |
| Exactness.LargeWindowCorrupts | build3/sample-3/common/socklib.cpp:833-840 | That run goes on to the acceptance of a wrong payload. |
| Exactness.FullRangeCorrupts | build3/sample-3/common/socklib.cpp:682-691 | With 32 packets a NACK for the base packet empties the window, and a wrong payload is accepted next. |
| StaleSlot.StaleSlotForgets | build3/sample-3/common/socklib.cpp:504-509 | For every window of 2 to 32 and every initial memory a clean run leads to the branch at line 506 with packets to lose. |
| StaleSlot.StaleMemoryForgets | build3/sample-3/common/socklib.cpp:504-509 | Unless slot k, in the buffer or behind it, holds 31 at the start, some first number makes it drop k packets never received. |
| StaleSlot.OneSlotForgets | build3/sample-3/common/socklib.cpp:504-509 | With a window of one packet the branch can be reached if and only if the memory behind the buffer does not hold 31. |
| StaleSlot.FullWindowStays | build3/sample-3/common/socklib.cpp:198-211 | For every window of 1 to 31 a clean run gives a full window back full with one packet accepted, so that the next payload is passed over; with first number 0 for every memory. |
| WindowBuffer.BehindIsUntouched | build3/sample-3/common/socklib.cpp:326-327 | In no run is the slot behind the buffer written. |
| FullWindow.ReturnsUnmoved | build3/sample-3/common/socklib.cpp:617-718 | A transmission of a non-empty window returns, without failing, with as many packets as before if and only if the first NACK or SACK is for no live packet and not the case of line 506, comes before 1000 timeouts, and no ACK for the base packet comes before it. |
| Progress.BaseGoesFirst | build3/sample-3/common/socklib.cpp:162-186 | Every transmission and retransmission, the last one too, puts the base packet first behind what is already on the leg. |
| Retransmission.TransmitSends | build3/sample-3/common/socklib.cpp:162-196 | In every run a transmission puts all packets of the window on the leg, each once and in order, numbered by the counter and with the payloads stamped; it starts with 1000 retries and no tag. |
| Retransmission.TimeOutSends | build3/sample-3/common/socklib.cpp:638-654 | In every run a timeout sends all packets but the last in order, the one before the last again (or the only one), then the last if the call has seen no ACK, or the probe if it was the last retry; it clears every tag. |
| Retransmission.WaitsForAckExactly | build3/sample-3/common/socklib.cpp:619-714 | A call that is still waiting leaves the last packet out exactly when it has met an ACK or a packet that would be next. |
| Retransmission.ResendDelivers | build3/sample-3/common/socklib.cpp:162-186 | If all a timeout sends gets through to a receiver that waits for the base, it takes every packet of the window but the last, and the last too if it was sent. |
| Progress.Round | build3/sample-3/common/socklib.cpp:617-718 | With nothing under way, the round in which the first frame and the reply to it get through and all other frames are dropped is clean and takes at least one packet out of the window. |
| Progress.EverythingGetsThrough | build3/sample-3/common/socklib.cpp:617-849 | From any clean run with nothing under way, no more such rounds than there are packets in the window deliver all that was stamped. |
| AckOrder.AcksLeave | build3/sample-3/common/socklib.cpp:694-714 | A series of ACKs leaves the window without its longest prefix in the set of numbers seen, the rest tagged exactly when seen. |
| AckOrder.AckOrderIrrelevant | build3/sample-3/common/socklib.cpp:514-550 | Two series with the same set of numbers leave the same window, tags and phase. |
| Termination.AckCloses | build3/sample-3/common/socklib.cpp:694-714 | An ACK leaves the window as it was if and only if its number is not that of a live untagged packet; otherwise, unless the call ends, one untagged packet fewer is left. |
| Termination.TurnLowersMeasure | build3/sample-3/common/socklib.cpp:624-715 | A timeout costs one retry; a datagram costs none and lowers the number of untagged packets, by one, exactly when it is an ACK for a live untagged packet, and else leaves the window as it was. |
| Termination.CallIsBounded | build3/sample-3/common/socklib.cpp:617-718 | From any point of a call on that is still waiting: fewer timeouts than retries, and if none, exactly as many ACKs for live untagged packets as packets closed. |
| Termination.WholeCall | build3/sample-3/common/socklib.cpp:617-718 | A call still waiting has seen fewer than 1000 timeouts, and in any stretch without one no more ACKs for live untagged packets than packets in the window. |
| CallEnds.FailsAtThousand | build3/sample-3/common/socklib.cpp:618-656 | With nothing but timeouts a call still waits after 999 and has failed after 1000. |
| CallEnds.EmptyTransmission | build3/sample-3/common/socklib.cpp:519-522 | A transmission of an empty window succeeds if and only if a NACK or SACK comes before any ACK and before 1000 timeouts. |
| CallEnds.NackLeaves | build3/sample-3/common/socklib.cpp:682-691 | A NACK or SACK for the packet behind the k-th live one ends the call with exactly the packets up to it gone, nothing sent and nothing more read. |
| CallEnds.StrayPacket | build3/sample-3/common/socklib.cpp:670-679 | A packet of the other side that would be next is answered by an ACK with its number and stops the resending of the last packet; after any other the last packet is sent again unless that has stopped. |
| CallEnds.CopiesWait | build3/sample-3/common/socklib.cpp:198-211 | While the window does not become full, copying sends and reads nothing and puts the payloads behind those already there, numbered by the counter. |
| CallEnds.FullWindowGoesOut | build3/sample-3/common/socklib.cpp:198-211 | The payload that fills the window makes all its packets go out, each once and in order; one that finds it full is not stamped, and the window goes out without it. |
| CallEnds.DrainSends | build3/sample-3/common/socklib.cpp:240-245 | The last loop sends the window at least once, slot 0 if it is empty. |
| Transfer.FileArrives | build3/sample-3/common/socklib.cpp:213-282 | However send_file is interleaved with the network in a clean run, after whatever messages: if no chunk was passed over and recv_file has all it asks for, it has written the file. |
| Transfer.SkippedChunk | build3/sample-3/common/socklib.cpp:198-282 | Once a chunk has been passed over recv_file never has all it asks for, unless 1024 divides the length and no other was; then it writes the file without that chunk and zeros at the end. |
| Transfer.FileArrivesExactly | build3/sample-3/common/socklib.cpp:198-282 | With all it asks for, recv_file has written the file if and only if all bytes from the first chunk passed over on are zero. |
| Transfer.RecvFileInRun | build3/sample-3/common/socklib.cpp:256-282 | In every run, recv_file after the calls for the first n payloads returns as soon as the run has accepted enough, with the bytes that the file theorems are about. |
| Transfer.RecvFileOfRun | build3/sample-3/common/socklib.cpp:256-282 | The same for the method RecvFile on an object with the datagrams of the run in front of it. |
| Files.WithoutChunkSame | build3/sample-3/common/socklib.cpp:227-236 | Leaving out a chunk makes no difference if and only if it and all bytes behind it are zero. |
| Files.ChunkMissing | build3/sample-3/common/socklib.cpp:227-236 | All packets of a file but one assemble to the bytes without those of that packet, followed by zeros. |
| PairHost.Peer.UdpSend | build3/Assign3_zcl/Server/Server.cpp:4-185 | udpsend, with both of its loops, ends as Exchange does, for everything that may come in. |
| PairHost.Peer.FirstTurn | build3/Assign3_zcl/Server/Server.cpp:34-92 | One pass of the first loop takes one or two of the things that come in, keeps where the call will end, and goes on exactly as the stage says. |
| PairHost.Peer.SecondTurn | build3/Assign3_zcl/Server/Server.cpp:95-180 | One pass of the second loop: a timeout ends the call, a missing second answer never does. |
| PairHost.Peer.Linger | build3/Assign3_zcl/Server/Server.cpp:95-183 | The second loop, by either exit, advances the counter by two; it sends nothing. |
| PairHost.Peer.AwaitSecond | build3/Assign3_zcl/Server/Server.cpp:65-88 | The inner wait clears the second flag on a timeout and sets it on the right answer. |
| PairHost.Peer.UdpRecv | build3/Assign3_zcl/Server/Server.cpp:188-296 | udprecv ends as Hear does: counter, answers, and a block, NULL or still waiting. |
| PairCalls.ExchangeInRun | build3/Assign3_zcl/Client/Cllient.cpp:36-188 | From any wait of udpsend on, in any run without another call, the call is where its specification says for what came in so far. |
| PairCalls.CallInRun | build3/Assign3_zcl/Client/Cllient.cpp:7-190 | In every run that starts with a call of udpsend and has no other, state and packets sent are those the method gives for what came in. |
| PairCalls.ReceivingInRun | build3/Assign3_zcl/Client/Cllient.cpp:285-395 | In every run the calls of udprecv have answered and returned what the method gives for what came in, and the blocks among their results are those written. |
| PairSending.CallReads | build3/Assign3_zcl/Server/Server.cpp:4-185 | For everything that may come in: when udpsend returns, how much it has read, that the counter moves by two then, and that its two halves are on the socket once and then once for each timeout at the top of its first loop. |
| PairSending.UnansweredCall | build3/Assign3_zcl/Server/Server.cpp:34-56 | k timeouts and nothing else leave k + 1 copies of the two packets on the socket, and the call still waiting. |
| PairLossy.LossySafe | build3/Assign3_zcl/Server/Server.cpp:188-296 | Safety over a network that delivers each copy at most once. |
| PairLossy.StuckWithoutTimeout | build3/Assign3_zcl/Server/Server.cpp:34-92 | When all copies are lost, nothing gets on without a timeout of the sender. |
| PairLossy.LossyCanFinish | build3/Assign3_zcl/Server/Server.cpp:34-92 | From every state of every run, after the loss of all copies under way, what udpsend sends again is enough to finish with every block returned. |
| PairAnswers.AnswersInRun | build3/Assign3_zcl/Server/Server.cpp:196-291 | In every run each pair read by udprecv is answered by its two numbers in order, positively if and only if it is (r, r + 1) or (r - 2, r - 1), and returned as a block exactly in the first case. |
| PairNet.PairIsBlock | build3/Assign3_zcl/Server/Server.cpp:202-223 | Two genuine packets with the awaited numbers are the halves of the next block given. |
| PairNet.NextKeeps | build3/Assign3_zcl/Server/Server.cpp:4-296 | Every step over a network that loses, repeats and reorders keeps the invariant. |
| PairNet.WrittenIsPrefix | build3/Assign3_zcl/Server/Server.cpp:188-296 | Blocks returned are a prefix of blocks given, and all of them whenever no call of udpsend is under way. |
| PairNet.Lockstep | build3/Assign3_zcl/Client/Cllient.cpp:36-188 | Both counters are even, s <= r <= s + 2, equal when idle, and r = s + 2 in the second loop. |
| PairNet.OnlyAnswersEndFirstLoop | build3/Assign3_zcl/Server/Server.cpp:34-92 | No timeout, however many, ends the first loop; only an answer that completes both flags does. |
| PairProgress.RoundCompletes | build3/Assign3_zcl/Server/Server.cpp:196-291 | In every run, a perfect round ends the first loop if and only if udprecv holds no packet at its beginning. |
| PairProgress.CrossedForever | build3/Assign3_zcl/Server/Server.cpp:196-291 | From a state in which it holds one, any number of perfect rounds returns no block. |
| PairProgress.OneLossStalls | build3/Assign3_zcl/Server/Server.cpp:196-291 | Losing the first packet of all leads to such a state. |
| PairProgress.CanAlwaysFinish | build3/Assign3_zcl/Server/Server.cpp:34-183 | From every state of every run the call of udpsend can still finish, with every block returned. |
| Blocks.BlocksRoundTrip | build3/Assign3_zcl/Client/Cllient.cpp:509-526 | The full blocks and the tail, which has 1 to 260 bytes unless the file is empty, make up the file. |
| Blocks.PutFile | build3/Assign3_zcl/Client/Cllient.cpp:504-526 | The PUT loop hands out the (L - 1) / 260 full blocks and then one tail, or nothing for an empty file. |
| Blocks.ServeFile | build3/Assign3_zcl/Server/Server.cpp:717-740 | The GET loop of the server hands out one empty tail more exactly when 260 divides the length of a non-empty file. |
| Blocks.GetFile | build3/Assign3_zcl/Server/Server.cpp:644-675 | The receiving loop takes (L - 1) / 260 blocks, skipping NULL, and then the tail; what it writes is their concatenation. |
| Blocks.BlocksArrive | build3/Assign3_zcl/Server/Server.cpp:653-674 | In every run the blocks written are the beginning of the file, complete when the sender is done. |

## Left out

- Sockets, select, name resolution, timing, file handles and error codes of the operating system: an arrival, a timeout or (for `udprecv`) a failed `recvfrom` is a choice of the environment, a file is a sequence of bytes.
- Other orders on the legs: between host and router the legs keep their order and lose packets only behind the router.
- The handshake of sample-3 (`sock_sendto`, `udp_sendto`, `handshake`, `chk_seq`), `srv_wait4cnn`, and the change of direction within one connection: the model covers one direction, from a reset receiver on.
- `set_last_seq`, marked obsolete, and statistics counters, logging and menus.
- Several transfers over one object: a run is one transfer; after a failed call the system takes no more payloads, while the object may be used on.
- Windows of more than 32 packets: the tag array of `udp_sendtoEx` has 32 entries. `setWindowsSize` after allocation is not modelled.
- Blocking calls: when the list of arrivals ends, `udp_sendtoEx` sees timeouts only, and the receiving calls and `udpsend` report that they are still waiting.
- `udplastsend` and `udplastrecv` of Assign3_zcl, whose ACKs are not checked, and the handshake there; their packets are taken to be kept apart from those of `udpsend`, and the tail to be what was passed.
- Overflow of `int` sequence numbers in the pair protocol, and of the router's counters.
- The texts of ACK and NAK replies in the pair protocol: only the first letter is looked at.
- The stop-and-wait program of build 2 and the TCP program of build 1: the first takes any datagram for an ACK, the second leaves the work to the library.
- Transfer.FileArrives: the runs in which a payload was passed over are not in this statement; Transfer.SkippedChunk and Transfer.FileArrivesExactly say what they write.
- Progress.EverythingGetsThrough: needs more retries left than packets in the window, because a call gives up after its last retry.
