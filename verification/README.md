# Hudp: a verified model

Hudp is a reliable-UDP library in C++. This project models the eight stateful algorithms that
carry its guarantees and proves what they promise, for every input, every run or every reachable
state. Code that works by changing fields, arrays and lists is modelled by classes whose methods
have the same branches; each method is proved equal to a function on values, and the laws are
proved about those functions and about runs of them.

| file | models |
|---|---|
| `MemoryPool.dfy`, `PoolFootprint.dfy` | the size-class allocator: free lists threaded through raw blocks of malloc'd chunks; how many chunks it asks for |
| `CloseProtocol.dfy` | the FIN / FIN_ACK state machine, two endpoints and a network |
| `TimeTool.dfy` | `gmtime64` and `mktime64` against the Gregorian calendar counted day by day |
| `OrderList.dfy`, `OrderAnswers.dfy` | the 256-slot reorder buffer on wrapping 16-bit ids; what it answers to each arrival |
| `PriorityQueue.dfy`, `SendWnd.dfy` | the weighted priority queue and the send window on top of it |
| `SendLog.dfy` | what the send window hands to the socket, call by call and over whole runs |
| `MinMax.dfy` | the windowed max filter |
| `LoopBuffer.dfy` | the ring buffer as a byte queue |
| `SlicingFilter.dfy` | slicing and reassembly of messages |
| `Common.dfy` | small shared definitions |
| `Bytes.dfy`, `Wire.dfy` | numbers as bytes; the wire format, its size and its round trip, as values |
| `Layout.dfy` | where every field of a packet stands, byte by byte |
| `Truncation.dfy` | what becomes of a packet that is cut short |
| `BitStream.dfy`, `MsgHead.dfy`, `Serializes.dfy` | the byte streams, the header and the serializer that implement that format |
| `PendAck.dfy`, `AckBudget.dfy` | the pending acks and their attachment to messages within the MTU |

Locked methods are single steps. A callback into another object is an append to a log (`upper`,
`socket`, `out`, `sent`). What malloc answers, which element `begin()` of an unordered map yields,
and whether the next filter refuses a slice are parameters. Message objects carry a `tag` so that
two of them can be told apart. The flag word of a header is a list of 32 bits, so that testing and
setting one bit is what the source does with its masks.

## Where the code and its documentation or apparent intent differ

The model follows the code. Each difference is stated by a lemma.

- `PriorityQueue.PushKeepsIffPriority`: the queue tests the message's local flag word, not the
  header flags that the priorities are set in, and a message without a priority bit there is
  dropped without notice (common/PriorityQueue.cpp:21).
- `PriorityQueue.PriorityHonouredIff`, `PriorityQueue.UserMessagesAreOneQueue`: in the local word the
  four bits mean other things (interface/IMsg.h:14-17), and SendTo sets the first of them on every
  message (hudp/HudpImpl.cpp:114). So a user's message is queued as one of low priority whatever he
  asked for, and his messages leave the weighted queue in the order they came.
- `PriorityQueue.BusyPeriodShares`: README.md:56 promises one low message for every eight highest;
  the code serves eighteen highest, six high and two normal for every low one.
- `OrderList.StaysInStepUnlessStale`, `OrderList.DeliversTheWholeRun`: nothing rejects an id just
  behind the awaited one; exactly-once delivery in order fails when such a repeat finds its slot
  free, and only then. `OrderList.StrayComesOut` says what happens to it, and
  `OrderList.RepeatIsDeliveredTwice` gives an input.
- `OrderAnswers.AcknowledgedButLostIff`: of the messages too far from the awaited id the first two,
  modulo 65536, are thrown away and answered 0, on which the socket acknowledges them
  (net/SocketImpl.cpp:370-387); from the third on, however far apart they come, the answer is 2.
- `MinMax.YoungSampleIsForgotten`: whatever the window, and however densely it is sampled up to then, the
  result can be less than a sample three ticks old. `MinMax.ChoicesSinceReset` and
  `MinMax.FirstExpiryIsExact` say up to when it is the maximum that it is meant to be.
- `SlicingFilter.RepeatsStandIn`: a slice that comes twice is counted twice, so a message is delivered
  without the slice that is missing.
- `LoopBuffer.WriteAppendsIff`: a write that is longer than the free space of a linear ring puts
  what it accepts in front of the contents (base/LoopBuffer.cpp:377-384).
- `SendWnd.RunOverwritesIff`, `SendWnd.WindowCanOverwrite`: ids are given out without looking
  whether one is still in flight, so a message displaces the one sent 65536 sends before it.
- `SendWnd.UnflaggedIsLostIff`: a FIN carries its priority in the header flags only, so a full
  window drops it. `CloseProtocol.LostFinNeverCloses`, `CloseProtocol.DroppedFinNeverCloses`: no other
  FIN is ever made for it, and neither side's close is ever over.
- `CloseProtocol.LostAckIsMadeUpIff`: a FIN that is sent again because its FIN_ACK was lost is answered
  by a FIN_ACK, except by a peer in TIME_WAIT, which sends a reset, so that the close ends by reset.
- `CloseProtocol.EveryCloseCompletes`: the end of the 2MSL wait first asks the user whether to go on
  resending (net/SocketImpl.cpp:174-180); when he declines, the socket stays in TIME_WAIT.
- `CloseProtocol.ResetHitsTheClosing`, `CloseProtocol.ResetCanBreakTheClose`: whatever arrives in
  TIME_WAIT is answered by a reset, which breaks off the close of a peer still waiting for its FIN_ACK.
- `AckBudget.AcksReachTheirWindowIff`: a message that brings both kinds of acks tells the reliable
  window the ids of the orderly one.
- `TimeTool.Mktime64IsExactIffFits`: the unsigned arithmetic wraps for the year 0 before March and
  from the year 11767034 (counted from March) on.
- `Wire.EmptyMessageIff`: a packet under four bytes or over the MTU is taken for an empty message,
  because two reads are not checked.
- `Truncation.CutMessage`, `Truncation.FlagWordAlone`: a packet whose read fails is processed all the
  same (hudp/HudpImpl.cpp:134-146), and its header holds the packet's flags and whatever else came
  before the failure; so the first four bytes of a message are taken for one with its flags.
- `SlicingFilter.SharedFlagMixes`: the slice map is keyed by the flag alone
  (filter/FlowSlicingFilter.cpp:51), so two peers' messages under one flag are delivered as a mixture.
- `PendAck.ContinuousIff`: the continuity test does not see a gap behind id 0.
- `AckBudget.TimedFitsIff`, `AckBudget.UntimedFitsIff`: the space left for acks is an unsigned
  difference, so a message one byte over the limit after its first ack list takes everything that
  waits for the second and no longer fits the MTU. `AckBudget.AckOnlyCanOverflow` and
  `AckBudget.DataFitsIff` say when this happens to an ack-only message and to a user's message.
- `TimeTool.CorrectYear`: the day count comes nearer to zero on every turn of the year loop that
  does not yet find the year; the last turn, which finds it, may take it either way, so the measure
  that always falls also asks whether the year is found.

## Model

| member | source | states |
|---|---|---|
| `MemoryPool.ClassHoldsRequest` | base/MemoryPool.h:61-67 | a request of 1 to 256 bytes has a class in range whose blocks are its size rounded up to 8, and rounding again does not change the class |
| `MemoryPool.BlocksApart` | base/MemoryPool.cpp:64-77 | two blocks carved from chunks that do not overlap are the same block of the same class or do not overlap |
| `MemoryPool.GrowKeepsInv` | base/MemoryPool.cpp:45-80 | putting all blocks of a new chunk on an empty free list keeps every block in exactly one place, of its own class |
| `MemoryPool.TakeKeepsInv` | base/MemoryPool.h:143-153 | handing out the head of a free list keeps it |
| `MemoryPool.ReleaseKeepsInv` | base/MemoryPool.h:168-174 | giving a block back with the size it was asked with keeps it |
| `MemoryPool.LiveBlockIsBacked` | base/MemoryPool.h:135-154 | a live block is as large as asked for and lies inside one chunk |
| `MemoryPool.LiveBlocksApart` | base/MemoryPool.h:135-154 | two live blocks do not overlap |
| `MemoryPool.LiveAndFreeApart` | base/MemoryPool.h:135-175 | a live block overlaps no free block |
| `MemoryPool.FreeBlocksApart` | base/MemoryPool.h:157-175 | free blocks of any classes do not overlap |
| `MemoryPool.BlocksAreConserved` | base/MemoryPool.cpp:45-80 | live and free blocks of a class are together 20 for each chunk malloc'd for it |
| `MemoryPool.ApplyKeepsInv` | base/MemoryPool.h:135-175 | every legal call keeps the invariant |
| `MemoryPool.RunKeepsInv` | base/MemoryPool.h:135-175 | so does every run of legal calls |
| `MemoryPool.EveryRunIsSafe` | base/MemoryPool.h:88-175 | after every run from the empty pool live blocks are backed, apart from each other and from free ones, free blocks of all classes are apart, a free list holds only blocks of its own class and each once, and blocks are conserved |
| `PoolFootprint.LiveAfter` | base/MemoryPool.h:135-175 | an allocation makes exactly one more block of its class live, and nothing else adds any |
| `PoolFootprint.FootprintIsPeak` | base/MemoryPool.cpp:45-80 | over every run, malloc is asked for exactly as many chunks of a class as the most of its blocks ever live at once fill |
| `PoolFootprint.HandedOutOnce` | base/MemoryPool.h:135-154 | the block handed out was not live, is live from then on with the size asked for, and no other changes hands |
| `PoolFootprint.FreedIsNext` | base/MemoryPool.h:156-175 | a block given back is the next one handed out for its class, whatever happens in other classes in between |
| `MemoryPool.MemoryPool.constructor` | base/MemoryPool.cpp:7-14 | a new pool has empty lists and no window |
| `MemoryPool.MemoryPool.ChunkAlloc` | base/MemoryPool.cpp:82-120 | every branch, also those the pool never takes: what is carved, what is left over, how deep the recursion went |
| `MemoryPool.MemoryPool.ReFill` | base/MemoryPool.cpp:45-80 | on an empty window the chunk is consumed whole, no leftover branch runs, one recursion is enough, and the list threaded through the memory is the chunk's blocks but the first |
| `MemoryPool.MemoryPool.ThreadBlocks` | base/MemoryPool.cpp:67-78 | the loop links adjoining blocks into a chain that ends in null and writes nowhere else |
| `MemoryPool.MemoryPool.TakeBlock` | base/MemoryPool.h:97-105 | popping the real list, refilled when empty, is the abstract allocation, and the lists stay exact |
| `MemoryPool.MemoryPool.PoolMalloc` | base/MemoryPool.h:134-154 | the block granted is the abstract one and zeroed; a large request leaves the pool alone; only a failed malloc aborts |
| `MemoryPool.MemoryPool.PoolFree` | base/MemoryPool.h:156-175 | the link written into the block makes the real list the abstract one; null and large blocks are no business of the lists |
| `MemoryPool.MemoryPool.UserWrite` | base/MemoryPool.h:73-76 | whatever an owner writes into its live block, links included, the free lists are untouched |
| `CloseProtocol.Socket.CanSendMessage` | net/SocketImpl.cpp:229-231 | sending is allowed before the first FIN only |
| `CloseProtocol.Socket.StatusChange` | net/SocketImpl.cpp:413-480 | the status moves along an edge of the diagram or stays; the target CLOSE releases the socket and leaves the status |
| `CloseProtocol.Socket.SendFinMessage` | net/SocketImpl.cpp:208-227 | one FIN goes out from READY or CLOSE_WAIT, none from elsewhere |
| `CloseProtocol.Socket.SendFinAckMessage` | net/SocketImpl.cpp:482-490 | one FIN_ACK goes out |
| `CloseProtocol.Socket.SendResetMsg` | net/SocketImpl.cpp:492-500 | one RST goes out |
| `CloseProtocol.Socket.Wait2MslClose` | net/SocketImpl.cpp:502-514 | a timer is armed in TIME_WAIT only |
| `CloseProtocol.Socket.CheckClose` | net/SocketImpl.cpp:516-554 | the step of the endpoint on FIN and FIN_ACK: every FIN is acknowledged first, whatever the status; a timer is armed exactly on entry to TIME_WAIT |
| `CloseProtocol.Socket.RecvMessage` | net/SocketImpl.cpp:79-130 | the step of the endpoint on any packet; a socket never comes to rest in CLOSE_WAIT |
| `CloseProtocol.Socket.TimerOut` | net/SocketImpl.cpp:168-194 | the end of the 2MSL wait releases the socket gracefully if and only if the user's resend callback allows it; the status stays |
| `CloseProtocol.PacketEffect` | net/SocketImpl.cpp:79-130 | receiving keeps the record consistent, never lowers the rank, and sends a FIN exactly when it counts one |
| `CloseProtocol.NextKeepsSafe` | net/SocketImpl.cpp:413-554 | every event of a network that loses, repeats and reorders, resets and data included, keeps the invariant of both sides |
| `CloseProtocol.RunKeepsSafe` | net/SocketImpl.cpp:413-554 | so does every run |
| `CloseProtocol.HandshakeIsSafe` | net/SocketImpl.cpp:208-231 | in every run: whoever is in FIN_WAIT_2, TIME_WAIT or gracefully released has a peer that processed its FIN and is in LAST_ACK, CLOSING, TIME_WAIT or gone; never both in FIN_WAIT_2; at most one FIN each; no rest in CLOSE_WAIT; no sending after the FIN |
| `CloseProtocol.NextNeverLowersRank` | net/SocketImpl.cpp:413-480 | no event lowers a side's rank or takes its FIN back |
| `CloseProtocol.RankNeverFalls` | net/SocketImpl.cpp:413-480 | nor does any run |
| `CloseProtocol.ResetHitsTheClosing` | net/SocketImpl.cpp:91-106 | in every run in which no side gives up on a disordered stream: a reset on its way was sent out of TIME_WAIT, finds its receiver in LAST_ACK, CLOSING or TIME_WAIT, and breaks off the close in exactly the first two |
| `CloseProtocol.LastAckOutcome` | net/SocketImpl.cpp:99-106 | an endpoint in LAST_ACK ends gracefully or by reset according to which of FIN_ACK and RST reaches it first, and not at all without either |
| `CloseProtocol.EveryFinIsAnswered` | net/SocketImpl.cpp:516-536 | every FIN that reaches a held endpoint outside TIME_WAIT, first or repeated, is answered by exactly one FIN_ACK, ahead of everything else, and by a FIN if and only if none was sent; in TIME_WAIT the one answer to anything is a reset; nothing else is answered |
| `CloseProtocol.AnswersInOrder` | net/SocketImpl.cpp:516-554 | the answers of a READY peer, taken in order, lead a closing side over FIN_WAIT_2 into TIME_WAIT |
| `CloseProtocol.LostAckIsMadeUpIff` | net/SocketImpl.cpp:91-95 | from any safe state in which a FIN was processed and its FIN_ACK is gone: the FIN sent again brings one, and the side from FIN_WAIT_1 to FIN_WAIT_2, from CLOSING to TIME_WAIT or from LAST_ACK to its release, if and only if the peer is not in TIME_WAIT; from there a reset comes and ends the close |
| `CloseProtocol.ResetCanBreakTheClose` | net/SocketImpl.cpp:91-95 | a run in which one repeated data message ends the peer's close by reset |
| `CloseProtocol.ReleasedByResetIff` | net/SocketImpl.cpp:79-106 | one event releases a held side by reset if and only if it is a reset that reaches it outside TIME_WAIT |
| `CloseProtocol.EndsByResetIff` | net/SocketImpl.cpp:79-106 | over every run, from any state: a held side ends by reset if and only if a reset reaches it while it is held and not in TIME_WAIT |
| `CloseProtocol.DroppedFinIsLost` | net/SocketImpl.cpp:208-227 | a side whose FIN is dropped by the send window, when its user closes or when it answers a FIN, has made its one FIN, which nobody can receive or acknowledge |
| `CloseProtocol.LostFinNeverCloses` | net/SocketImpl.cpp:208-227 | whatever the network does from there on, no second FIN is made, the side rests in FIN_WAIT_1, CLOSING or LAST_ACK unless a reset releases it, and neither side reaches TIME_WAIT or a graceful release |
| `CloseProtocol.DroppedFinNeverCloses` | net/SocketImpl.cpp:208-227 | the same from two new sockets, wherever in a run a READY side's FIN is dropped |
| `CloseProtocol.ControlPacketEffect` | net/SocketImpl.cpp:516-554 | a first FIN is answered by exactly one FIN_ACK, and FINs sent are FINs counted |
| `CloseProtocol.MovedKeepsOrderly` | net/SocketImpl.cpp:516-554 | with exactly-once delivery every FIN and FIN_ACK made is on its way or processed, and no reset exists |
| `CloseProtocol.PacketPaysForItself` | net/SocketImpl.cpp:516-554 | a control packet is worth more than all its receiver does about it |
| `CloseProtocol.MoveLowersMeasure` | net/SocketImpl.cpp:208-227 | every close, arrival and timer lowers an explicit measure |
| `CloseProtocol.RunIsBounded` | net/SocketImpl.cpp:208-227 | the measure bounds the length of every run |
| `CloseProtocol.SilenceMeansOver` | net/SocketImpl.cpp:516-554 | with nothing on its way, a close that was started is over on both sides |
| `CloseProtocol.EveryCloseCompletes` | net/SocketImpl.cpp:208-227 | every run from two READY endpoints, simultaneous close included, ends within eight moves, without a reset, with both sides in TIME_WAIT or released; when no move is left, a side is released if and only if its user did not decline at the end of the 2MSL wait, and is in TIME_WAIT otherwise (compare section 3.5 of RFC 793) |
| `TimeTool.DivIsFloor` | base/TimeTool.cpp:9 | the macro DIV, built from truncating operators, is the floor |
| `TimeTool.LeapsThruEndOf` | base/TimeTool.cpp:10 | the macro is the Gregorian leap count, before year 0 as well |
| `TimeTool.YearStartFormula` | base/TimeTool.cpp:195-197 | the closed formula of 365 days a year and leap days is the day-by-day count of every year |
| `TimeTool.YearIsUnique` | base/TimeTool.cpp:190-199 | a day lies in one year only |
| `TimeTool.MonthTableIsMonthStart` | base/TimeTool.cpp:158-163 | both rows of the month table are the sums of the month lengths |
| `TimeTool.MonthsInOrder` | base/TimeTool.cpp:210-212 | months follow each other without overlap |
| `TimeTool.GuessGetsNearer` | base/TimeTool.cpp:190-199 | a guess of 365 days a year, corrected by leap days, keeps the day and brings it nearer, from any wrong year |
| `TimeTool.CorrectYear` | base/TimeTool.cpp:192-198 | one turn of the loop: the day is kept, the measure falls, and the day count itself falls unless the year is found |
| `TimeTool.FindYear` | base/TimeTool.cpp:188-199 | for every day count the loop ends in the year that holds it |
| `TimeTool.FindMonth` | base/TimeTool.cpp:209-215 | the loop finds the month and the day in it |
| `TimeTool.SplitDay` | base/TimeTool.cpp:167-178 | whole days and seconds within the day, also before the epoch |
| `TimeTool.ClockOf` | base/TimeTool.cpp:180-183 | hour, minute and second are in range and add up |
| `TimeTool.WeekDayOf` | base/TimeTool.cpp:184-187 | the weekday counts on from Thursday 1 January 1970 in both directions |
| `TimeTool.Gmtime64` | base/TimeTool.cpp:156-217 | the year found holds the instant; the call fails exactly when it does not fit `tm_year`; otherwise the fields are an existing date and time whose seconds are the instant |
| `TimeTool.Mktime64IsExactIffFits` | base/TimeTool.cpp:140-154 | on existing dates the second is right if and only if neither unsigned step wraps |
| `TimeTool.BreakDownIsUnique` | base/TimeTool.cpp:156-217 | an instant has one broken-down form |
| `TimeTool.MktimeInvertsGmtime` | base/TimeTool.cpp:140-217 | `mktime64` takes the fields of an instant back to it |
| `TimeTool.GmtimeInvertsMktime` | base/TimeTool.cpp:140-217 | `gmtime64` takes the second of an existing date back to it |
| `TimeTool.PosixFormula` | base/TimeTool.cpp:156-217 | from the epoch on, the fields satisfy the formula of section 4.16 of POSIX.1-2017 Base Definitions |
| `OrderList.ReliableOrderlyList.constructor` | common/OrderListImpl.cpp:23-25 | empty slots, awaiting the start id |
| `OrderList.ReliableOrderlyList.Insert` | common/OrderListImpl.cpp:42-94 | the return value and the whole new state of one insertion |
| `OrderList.ReliableOrderlyList.TakeSlot` | common/OrderListImpl.cpp:62-69 | one turn of the drain loop, around the end of the ring |
| `OrderList.ReliableOrderlyList.DrainSlots` | common/OrderListImpl.cpp:60-70 | the drain loop ends, taken slots being its measure, at the first empty slot |
| `OrderList.ReliableOrderlyList.PassUp` | common/OrderListImpl.cpp:84-92 | received messages go up in order |
| `OrderList.DrainSettles` | common/OrderListImpl.cpp:60-70 | after a drain the awaited slot is empty, and as many messages were delivered as slots were freed |
| `OrderList.RunSettles` | common/OrderListImpl.cpp:42-94 | so it is after every arrival sequence, with each slot holding an id of its own |
| `OrderList.RunConserves` | common/OrderListImpl.cpp:42-94 | each message object is delivered, cached or refused exactly as often as it arrived |
| `OrderList.OneDrainIsBounded` | common/OrderListImpl.cpp:61-70 | one insertion delivers at most 256 messages |
| `OrderList.EveryArrivalSequence` | common/OrderListImpl.cpp:42-94 | without any hypothesis: the k-th delivered id is start + k modulo 256, nothing is delivered more often than it arrived, and a drain takes at most 256 turns |
| `OrderList.InsertInStepIff` | common/OrderListImpl.cpp:42-94 | the exact effect of one insertion, of any message into any reachable buffer: what was delivered is a beginning of the stream and only due messages are cached if and only if that was so before and the message was not one taken in without being due; once out of step, the buffer stays so |
| `OrderList.RunInStepIff` | common/OrderListImpl.cpp:42-94 | over every arrival sequence whatever: in step at the end if and only if no arrival was taken in without being due |
| `OrderList.StrayIffStale` | common/OrderListImpl.cpp:47-79 | in a stream shorter than the id space less the window, those arrivals are exactly the delivered ones that are near and find their slot free |
| `OrderList.StaysInStepUnlessStale` | common/OrderListImpl.cpp:47-79 | so an arriving message of the stream keeps the buffer in step if and only if it is not one of those |
| `OrderList.DeliversTheWholeRun` | common/OrderListImpl.cpp:42-94 | for every arrival sequence whatever: the whole stream is delivered in order and nothing stays cached if and only if no arrival was a stray and each message was taken in as often as it occurs in the stream |
| `OrderList.ArrivalMatches` | common/OrderListImpl.cpp:42-94 | an arrival in the window is answered 1 exactly when it repeats one that waits, and leaves the slots matching the positions that have arrived |
| `OrderList.WelcomedRunIsWhole` | common/OrderListImpl.cpp:42-94 | arrivals in the window, with repeats of cached messages, deliver the run in order across the wrap, leave nothing cached, and are answered 1 exactly for the repeats |
| `OrderList.DeliversAnyPermutation` | common/OrderListImpl.cpp:42-94 | up to 65536 consecutive ids, each once and within 100 of the awaited id on arrival, come out whole and in order and 1 is never returned |
| `OrderList.StrayComesOut` | common/OrderListImpl.cpp:59-79 | whatever arrives after a stray, the position that was next for its slot is given the stray and not the message of the stream, as soon as that position is reached |
| `OrderList.RepeatIsDeliveredTwice` | common/OrderListImpl.cpp:59-79 | an input that does it, from a new buffer: a message, its repeat, and the next 255 messages in order deliver the repeat again in the place of the 256th |
| `OrderAnswers.DiscardsCountFar` | common/OrderListImpl.cpp:47-54 | over every arrival sequence the discard count is the number of arrivals too far from the id then awaited, modulo 65536; nothing resets it |
| `OrderAnswers.EveryAnswer` | common/OrderListImpl.cpp:42-94 | over every arrival sequence: the last answer is 2 if and only if that arrival was too far and the arrivals too far so far are 3 or more modulo 65536; 1 if and only if it was near, not awaited, and another waits in its slot; 0 otherwise |
| `OrderAnswers.AcknowledgedButLostIff` | common/OrderListImpl.cpp:47-54 | an arrival answered 0 is thrown away if and only if it was too far and is one of the first two such modulo 65536 |
| `PriorityQueue.PriorityQueue.PushBack` | common/PriorityQueue.cpp:20-34 | the message joins the queue its flag word selects, or none |
| `PriorityQueue.PriorityQueue.PopCredited` | common/PriorityQueue.cpp:38-64 | the first level with credit and a message is served and charged |
| `PriorityQueue.PriorityQueue.Pop` | common/PriorityQueue.cpp:36-107 | both passes and the refill in between |
| `PriorityQueue.PriorityQueue.Size` | common/PriorityQueue.cpp:109-115 | the number of waiting messages, 0 exactly when all queues are empty |
| `PriorityQueue.PushKeepsIffPriority` | common/PriorityQueue.cpp:20-34 | a message enters a queue if and only if its flag word has a priority bit; otherwise nothing changes |
| `PriorityQueue.PopTakesAFront` | common/PriorityQueue.cpp:36-107 | a pop returns nothing exactly when all queues are empty, and otherwise the front of one queue, leaving the rest in order |
| `PriorityQueue.EveryLevelIsFifo` | common/PriorityQueue.cpp:20-107 | over every run of pushes and pops, what a level held and what was pushed at it is what was popped from it, in order, followed by what it still holds |
| `PriorityQueue.PriorityHonouredIff` | hudp/HudpImpl.cpp:112-115 | a message marked by SendTo enters the level its user asked for if and only if that is the lowest |
| `PriorityQueue.UserMessagesAreOneQueue` | common/PriorityQueue.cpp:20-107 | over every run of pushes of such messages and of pops, what waited and what was pushed is popped in that order, and the other levels stay empty |
| `PriorityQueue.CreditedPopSpends` | common/PriorityQueue.cpp:38-64 | 9 normal + 3 high + highest credits fall on every pop on credit |
| `PriorityQueue.NoLevelStarves` | common/PriorityQueue.cpp:36-107 | whatever is pushed in between, a level that stays non-empty is served within 2, 6, 18 or 27 pops |
| `PriorityQueue.BusyPop` | common/PriorityQueue.cpp:36-107 | with all levels busy the credits count down as one number in base three, whose factors of three give the level |
| `PriorityQueue.BusySchedule` | common/PriorityQueue.cpp:36-107 | the level of every pop of a busy period follows from the starting credits |
| `PriorityQueue.BusyPeriodShares` | common/PriorityQueue.cpp:36-107 | every 27 busy pops serve the levels 18, 6, 2 and 1 times |
| `PriorityQueue.BoundsAreTight` | common/PriorityQueue.cpp:36-107 | each of the four starvation bounds is reached |
| `PriorityQueue.PopCharges` | common/PriorityQueue.cpp:36-107 | every pop of an upper level costs it one credit, from full credit when none could be used; the levels above are back at full credit and those below keep theirs |
| `PriorityQueue.UpperSchedule` | common/PriorityQueue.cpp:36-107 | while the upper levels are busy and the lowest is empty, the level of the k-th pop follows from the starting credit, counted round from 26 to 1 |
| `PriorityQueue.UpperPeriodShares` | common/PriorityQueue.cpp:76-103 | every 26 such pops serve the upper levels 18, 6 and 2 times |
| `SendWnd.SendWindow.constructor` | common/SendWnd.cpp:12-21 | an empty window over an empty queue |
| `SendWnd.SendWindow.SendAndAck` | common/SendWnd.cpp:136-152 | all pending sends go out, then all pending acks are reported |
| `SendWnd.SendWindow.Enter` | common/SendWnd.cpp:168-178 | a message enters the flight under the next id, overwriting whatever is there |
| `SendWnd.SendWindow.AddToEnd` | common/SendWnd.cpp:183-191 | the start message is set when there was none |
| `SendWnd.SendWindow.PushBackToSendWnd` | common/SendWnd.cpp:168-181 | the message is in flight and sent |
| `SendWnd.SendWindow.SendNext` | common/SendWnd.cpp:154-166 | waiting messages are launched while there is room |
| `SendWnd.SendWindow.PushBack` | common/SendWnd.cpp:27-45 | a message without id is queued when the window is full and launched otherwise; one with an id is turned away |
| `SendWnd.SendWindow.Retire` | common/SendWnd.cpp:50-79 | the acked message leaves the flight, and every third ack out of order queues a quick resend |
| `SendWnd.SendWindow.AcceptAck` | common/SendWnd.cpp:47-85 | the whole effect of an ack, none for a repeated one, and the estimated size of the message acked |
| `SendWnd.SendWindow.ChangeSendWndSize` | common/SendWnd.cpp:113-123 | a new size lets waiting messages in |
| `SendWnd.NextSettles` | common/SendWnd.cpp:27-123 | after every call, room in the window means nothing waits, and no call raises the count above the window or its former value |
| `SendWnd.NextBalances` | common/SendWnd.cpp:27-123 | every call keeps the balance of accepted, waiting, launched, in-flight, acked, overwritten and dropped messages |
| `SendWnd.NextCountsIds` | common/SendWnd.cpp:168-171 | first sends get consecutive ids modulo 65536, and nothing is overwritten in the first 65536 |
| `SendWnd.NextOrders` | common/SendWnd.cpp:136-181 | every call keeps each reported ack behind a send of the same message |
| `SendWnd.NextPaces` | common/SendWnd.cpp:56-79 | between calls, while nothing was overwritten, the start message is in flight and the counter is the number of acks out of order in a row, modulo 3 |
| `SendWnd.EveryRunIsPaced` | common/SendWnd.cpp:27-123 | so after every run |
| `SendWnd.QuickResendIsUnacked` | common/SendWnd.cpp:56-79 | an ack resends exactly when it is the third, sixth, ninth and so on out of order in a row, and what it resends is a message in flight other than the one acked |
| `SendWnd.UnflaggedIsLostIff` | common/SendWnd.cpp:38-44 | a message without a local priority, such as the FIN of net/SocketImpl.cpp:213-226, is neither sent nor queued if and only if the window is full |
| `SendWnd.LaunchOverwritesIff` | common/SendWnd.cpp:168-181 | a send displaces a message if and only if the next id is still in flight, and then the count exceeds the flight |
| `SendWnd.LateIff` | common/IncrementalId.cpp:14-18 | the next id is in flight if and only if the message sent 65536 sends before is |
| `SendWnd.RunOverwritesIff` | common/SendWnd.cpp:168-181 | over every run a message in flight is displaced if and only if one is sent while the one sent 65536 sends before it is still in flight |
| `SendWnd.WindowCanOverwrite` | common/SendWnd.cpp:168-181 | a run that does it: a window of two, a message never acked, 65535 messages sent and acked, and one more |
| `SendWnd.EveryRunConserves` | common/SendWnd.cpp:27-191 | over every run each accepted message object is exactly once waiting, in flight, reported acked, overwritten or dropped |
| `SendWnd.EveryRunIsOrderly` | common/SendWnd.cpp:27-191 | after every run: count, work conservation, consecutive ids and acks only after sends, all at once |
| `SendLog.FillLetsIn` | common/SendWnd.cpp:154-166 | filling the window launches exactly as many waiting messages as it has places for, in the order the queue gives them up, under consecutive ids |
| `SendLog.NextGoesOut` | common/SendWnd.cpp:27-152 | while nothing was overwritten, the callbacks of each call, exactly and in order: what it sends again, what it sends for the first time, and the ack it reports; the first sends of an ack are at most one message, when it makes room |
| `SendLog.NextQueue` | common/SendWnd.cpp:38-44 | what waits after each call: a message is queued only when the window is full, and what is let in leaves in the order it is popped |
| `SendLog.NextStart` | common/SendWnd.cpp:70-76 | the start message after each call: the one an ack chose, the one there was, or the first one sent |
| `SendLog.AckResendsIff` | common/SendWnd.cpp:56-83 | after an ack the callbacks go on with the send of another message that was in flight already, ahead of everything else, if and only if the ack is the third, sixth and so on out of order in a row |
| `SendLog.ThirdResends` | common/SendWnd.cpp:76-83 | that message is the one begin() yields, is not the one acked, and stays in flight |
| `SendLog.EveryRunSends` | common/SendWnd.cpp:27-152 | every run of a new window that overwrites nothing sends each message once for the first time, and again exactly what the third, sixth and so on of the acks out of order in a row ask for, with multiplicity; and it reports each ack taken once, in order |
| `MinMax.Filter.constructor` | net/controller/OsCommon.h:26-32 | three equal samples |
| `MinMax.Filter.Get` | net/controller/OsCommon.h:22-24 | the first choice's value |
| `MinMax.Filter.Reset` | net/controller/OsCommon.h:26-32 | three equal samples again |
| `MinMax.Filter.SubwinUpdate` | net/controller/OsCommon.h:35-72 | the shifted or refreshed choices, and the value of the first |
| `MinMax.Filter.RunningMax` | net/controller/OsCommon.h:75-89 | the new choices after one sample |
| `MinMax.UpdateKeepsSummary` | net/controller/OsCommon.h:75-89 | one more sample keeps three real past samples, in order of time, that no later sample exceeds, the first within the window |
| `MinMax.EveryHistoryIsSummarised` | net/controller/OsCommon.h:26-89 | so after every history of non-decreasing times, on a clock that wraps as well |
| `MinMax.ResultIsMaximumOfSuffix` | net/controller/OsCommon.h:26-89 | the result is the maximum of a suffix of the history that starts within the window |
| `MinMax.ResultIsBetween` | net/controller/OsCommon.h:26-89 | the result lies between the newest sample and the true window maximum |
| `MinMax.ExpiryPromotes` | net/controller/OsCommon.h:40-56 | an expired first choice gives way to the best choice not expired |
| `MinMax.FallbacksSpread` | net/controller/OsCommon.h:57-70 | past a quarter and a half of the window the second and third choices come from other times |
| `MinMax.ChoicesStay` | net/controller/OsCommon.h:57-88 | while the first choice is neither beaten nor expired, a second choice from another time stays until a sample reaches it, and so does a third from yet another |
| `MinMax.GivesUpIff` | net/controller/OsCommon.h:57-88 | exactly when a call other than a reset gives up a choice in the window that is larger than the new sample: when it takes the second anew while a third, or a second of the first's time, is larger, or the third while one of the second's time is |
| `MinMax.ChoicesSinceReset` | net/controller/OsCommon.h:34-89 | over every history, from a reset on and for as long as that sample is neither beaten nor older than the window: it is the result, the second choice is the largest sample more than a quarter of the window later, and the third the largest after that and more than half of the window later |
| `MinMax.FirstExpiryIsExact` | net/controller/OsCommon.h:40-56 | when it expires, the result is the largest sample more than a quarter of the window after it, the newest included, as long as that one is in the window |
| `MinMax.YoungSampleIsForgotten` | net/controller/OsCommon.h:40-56 | for every window, a history at whose end the result is less than a sample three ticks old |
| `LoopBuffer.MovedContents` | base/LoopBuffer.cpp:350-435 | moving the write pointer takes in the first bytes of the free space, behind the contents, or in front for an overlong request |
| `LoopBuffer.ConsumedContents` | base/LoopBuffer.cpp:44-96 | consuming removes exactly a prefix |
| `LoopBuffer.LoopBuffer.constructor` | base/LoopBuffer.cpp:7-18 | an empty ring |
| `LoopBuffer.LoopBuffer.ReadOut` | base/LoopBuffer.cpp:285-348 | the prefix that is there, up to the length asked for, removed or not |
| `LoopBuffer.LoopBuffer.Read` | base/LoopBuffer.cpp:30-35 | the prefix is returned and removed |
| `LoopBuffer.LoopBuffer.ReadNotClear` | base/LoopBuffer.cpp:26-28 | the same prefix, nothing changes |
| `LoopBuffer.LoopBuffer.Clear` | base/LoopBuffer.cpp:44-96 | a prefix, or with length 0 everything, is dropped |
| `LoopBuffer.LoopBuffer.WriteIn` | base/LoopBuffer.cpp:350-435 | how much is taken in and where the pointers end, in every pointer case |
| `LoopBuffer.LoopBuffer.Write` | base/LoopBuffer.cpp:37-42 | the accepted bytes follow the contents, or precede them when the write is overlong |
| `LoopBuffer.LoopBuffer.MoveWritePt` | base/LoopBuffer.cpp:98-100 | the pointer moves over at most the free space |
| `LoopBuffer.LoopBuffer.GetFreeLength` | base/LoopBuffer.cpp:126-142 | the length of the free space |
| `LoopBuffer.LoopBuffer.GetCanReadLength` | base/LoopBuffer.cpp:144-160 | the length of the contents |
| `LoopBuffer.LoopBuffer.GetFreeMemoryBlock` | base/LoopBuffer.cpp:162-185 | the blocks are the free space in order, and cover exactly the bytes not in use |
| `LoopBuffer.LoopBuffer.GetUseMemoryBlock` | base/LoopBuffer.cpp:187-210 | the blocks joined are the contents, and cover exactly the bytes in use |
| `LoopBuffer.WrittenContents` | base/LoopBuffer.cpp:350-435 | the contents after any write |
| `LoopBuffer.WriteAppendsIff` | base/LoopBuffer.cpp:377-384 | a write appends, whatever its bytes, if and only if it is not overlong or there is no room at all |
| `LoopBuffer.OverlongWritePrepends` | base/LoopBuffer.cpp:377-384 | a three-byte ring in which it prepends |
| `LoopBuffer.FreeBlocksAreFree` | base/LoopBuffer.cpp:162-185 | the blocks given for a ring are its free space in order and cover exactly the bytes not in use |
| `LoopBuffer.FillThenMoveIsWrite` | base/LoopBuffer.cpp:98-185 | writing bytes into the blocks given, from their front, and nowhere else, and then moving the pointer leaves the contents a write of those bytes leaves |
| `LoopBuffer.StepIsFifo` | base/LoopBuffer.cpp:26-42 | one read or write keeps: bytes in are bytes out followed by the contents |
| `LoopBuffer.EveryRunIsFifo` | base/LoopBuffer.cpp:26-42 | first in, first out over every run without an overlong write |
| `SlicingFilter.SliceRoundTrip` | filter/FlowSlicingFilter.cpp:77-95 | a slice comes back from its bytes |
| `SlicingFilter.SlicesAreTheMessage` | filter/FlowSlicingFilter.cpp:17-40 | the slices joined are the message, none is empty, and each fits a packet |
| `SlicingFilter.FlowSlicingFilter.constructor` | filter/FlowSlicingFilter.h:44-45 | nothing is held |
| `SlicingFilter.FlowSlicingFilter.FilterProcess` | filter/FlowSlicingFilter.cpp:14-47 | the slices of the body, cut to a 32-bit length, go out in order under the next flag, up to the first that is refused |
| `SlicingFilter.FlowSlicingFilter.RelieveFilterProcess` | filter/FlowSlicingFilter.cpp:49-64 | the slice joins its group or completes the message |
| `SlicingFilter.SortedIsIncreasing` | filter/FlowSlicingFilter.cpp:55 | sorting slices of distinct index gives the same slices in increasing order |
| `SlicingFilter.AllSlicesGiveTheMessage` | filter/FlowSlicingFilter.cpp:53-58 | all slices of a message, each once and in any order, give the message |
| `SlicingFilter.SliceJoins` | filter/FlowSlicingFilter.cpp:49-64 | a slice more leaves other groups alone and delivers exactly when it is the last |
| `SlicingFilter.ArrivalKeepsHolds` | filter/FlowSlicingFilter.cpp:49-64 | any arrival keeps every group in step with what has arrived |
| `SlicingFilter.RunHolds` | filter/FlowSlicingFilter.cpp:49-64 | so does any interleaving, delivering the messages in order of their last slices |
| `SlicingFilter.CompletedOnce` | filter/FlowSlicingFilter.cpp:53-61 | a message is completed exactly when all its slices have arrived, once |
| `SlicingFilter.ReassemblyIsIdentity` | filter/FlowSlicingFilter.cpp:14-64 | any interleaving and permutation of all slices of messages with distinct flags delivers each message once, byte for byte, and leaves the map empty |
| `SlicingFilter.SenderFlagsDistinct` | filter/FlowSlicingFilter.cpp:15-27 | 65536 messages in a row have distinct flags |
| `SlicingFilter.GroupDelivers` | filter/FlowSlicingFilter.cpp:49-65 | the slices of one message, each once and in any order, deliver it with the last and nothing before |
| `SlicingFilter.SharedFlagMixes` | filter/FlowSlicingFilter.cpp:49-65 | the first k slices of one message and the others of another with as many slices, under one flag and in any order, are delivered as one message made of both, which is one of the two only where they agree |
| `SlicingFilter.AnySlicesComplete` | filter/FlowSlicingFilter.cpp:49-65 | any sequence of as many slices of a message as it has, repeats or not, is delivered at its last one, and no shorter one is |
| `SlicingFilter.RepeatsStandIn` | filter/FlowSlicingFilter.cpp:49-65 | without repeats that is the message; with repeats a slice is missing from it |
| `SlicingFilter.EmptyMessageHasNoSlices` | filter/FlowSlicingFilter.cpp:17-28 | exactly the empty message has no slices and is never sent |
| `Bytes.BytesRoundTrip` | common/BitStream.h:73-96 | a number that fits its width comes back from its bytes |
| `Bytes.WordFits` | common/BitStream.h:73-96 | a flag word fits four bytes and comes back bit for bit |
| `Wire.TakeManyOf` | common/Serializes.cpp:110-120 | a list of numbers is read back and the bytes behind it are left |
| `Wire.TakeAcksOf` | common/Serializes.cpp:100-122 | an ack list, as a range or id by id, with or without times, is read back whole |
| `Wire.TakeHeadOf` | common/Serializes.cpp:82-251 | a written header read over another gives the sender's fields, and the other's where nothing was sent |
| `Wire.EstimateIsExact` | common/Serializes.cpp:18-80 | the size predicted from the header alone is the length written, plus the body it announces |
| `Wire.SentIffEstimateFits` | common/Serializes.cpp:18-163 | a well-formed message is sent if and only if its predicted size is at most 440 |
| `Wire.EmptyMessageIff` | common/MsgImpl.cpp:184-191 | a packet becomes an empty message if and only if its length, cut to 16 bits, is over 440 or under 4, or its first four bytes are zero |
| `Wire.RoundTripIff` | common/Serializes.cpp:82-258 | a well-formed message comes back into a cleared header if and only if it fits: flag, id, acks, times and body, and the send time when it was sent |
| `Wire.RoundTrip` | common/Serializes.cpp:82-258 | into a fresh header the whole message comes back |
| `Layout.ByteAt` | common/BitStream.cpp:82-87 | the bytes of a number are its digits to the base 256, lowest first |
| `Layout.FlagAt` | common/CommonFlag.h:19-41 | flag k is bit k % 8 of byte k / 8 of the packet |
| `Layout.FrontLayout` | common/Serializes.cpp:90-98 | the flag word stands first, the id behind it, and the send time behind that, each where it is flagged |
| `Layout.OrderlyLayout` | common/Serializes.cpp:100-122 | behind them the orderly acks: how many, then the first id or every one, then the times |
| `Layout.ReliableLayout` | common/Serializes.cpp:124-146 | behind those the reliable acks, alike |
| `Layout.BodyLayout` | common/Serializes.cpp:148-163 | and last the body length, where it is flagged, and the body |
| `Truncation.ShortAcks` | common/Serializes.cpp:182-212 | from fewer bytes an ack list is read the same, or not at all |
| `Truncation.ShortHead` | common/Serializes.cpp:165-251 | so is a header, and the flag word is the same as long as it is there |
| `Truncation.ShortHeadRead` | common/Serializes.cpp:165-251 | the header that a read of fewer bytes leaves in one without acks holds in every field what all the bytes give, or what was there before; of an ack list nothing, the ids alone, or all |
| `Truncation.FlagIsThePackets` | common/Serializes.cpp:165-169 | after any read, failed or not, the header's flags are the packet's; after a successful one the header is the one read |
| `Truncation.CutMessage` | common/MsgImpl.cpp:184-191 | a message cut short is refused if and only if its flag word is there, and its header then has the flags and, field by field, what was sent or nothing; without its flag word it is an empty message |
| `Truncation.FlagWordAlone` | hudp/HudpImpl.cpp:132-146 | the first four bytes of a message leave the old header under the new flags, and the read fails if and only if the flags announce a field |
| `BitStream.BitStreamWriter.constructor` | common/BitStream.cpp:10-17 | an empty stream of an MTU |
| `BitStream.BitStreamWriter.CheckBufferExpend` | common/BitStream.cpp:59-80 | there is room exactly up to the MTU |
| `BitStream.BitStreamWriter.CopyMemory` | common/BitStream.cpp:82-87 | the bytes are appended |
| `BitStream.BitStreamWriter.Write` | common/BitStream.cpp:89-96 | a block is appended whole if and only if it fits, and otherwise nothing changes |
| `BitStream.BitStreamWriter.WriteNum` | common/BitStream.h:73-85 | so is a number, low byte first |
| `BitStream.BitStreamReader.Init` | common/BitStream.cpp:36-45 | a packet is loaded if and only if it is within the MTU |
| `BitStream.BitStreamReader.Read` | common/BitStream.cpp:128-136 | exactly the bytes asked for come off the front, or none |
| `BitStream.BitStreamReader.ReadNum` | common/BitStream.h:87-96 | so does a number |
| `MsgHead.Head.constructor` | common/MsgHead.cpp:7-12 | a fresh header |
| `MsgHead.Head.Clear` | common/MsgHead.cpp:18-26 | everything but the send time is reset |
| `MsgHead.Head.ClearAck` | common/MsgHead.cpp:28-37 | acks, their times and their four flag bits go; the time stamp bit stays |
| `MsgHead.Head.SetFlag` | common/MsgHead.cpp:39-41 | the word is replaced |
| `MsgHead.Head.SetId` | common/MsgHead.cpp:56-59 | the id and its bit |
| `MsgHead.Head.SetBodyLength` | common/MsgHead.cpp:47-50 | the length and its bit |
| `MsgHead.Head.SetSendTime` | common/MsgHead.cpp:65-67 | the time, and no bit |
| `MsgHead.Head.AddReliableOrderlyAck` | common/MsgHead.cpp:73-91 | a non-empty list is taken once, with its bits; anything else is refused |
| `MsgHead.Head.AddReliableOrderlyAckTime` | common/MsgHead.cpp:102-115 | so are its times, with the time stamp bit |
| `MsgHead.Head.AddReliableAck` | common/MsgHead.cpp:126-144 | the same for the other list |
| `MsgHead.Head.AddReliableAckTime` | common/MsgHead.cpp:155-168 | and its times |
| `Serializes.WriteMany` | common/Serializes.cpp:110-120 | the loop writes the list, or stops at the first number that does not fit |
| `Serializes.WriteAcks` | common/Serializes.cpp:100-122 | one ack list, its length cut to 16 bits, is appended as the format says, or as much of it as fits |
| `Serializes.SerializesHead` | common/Serializes.cpp:82-152 | on an empty stream exactly the header's bytes, if they fit; on any other nothing |
| `Serializes.Serialize` | common/Serializes.cpp:154-163 | on an empty stream the packet of the message, its body cut to a 16-bit length, if and only if that is within the MTU; on any other a failure |
| `Serializes.GetSerializeBuffer` | common/MsgImpl.cpp:176-182 | the bytes sent for a message, none when it does not fit |
| `Serializes.ReadMany` | common/Serializes.cpp:196-199 | as many numbers as asked for, or a failure |
| `Serializes.ReadIds` | common/Serializes.cpp:186-201 | ids one by one, or a range counted up modulo 65536 |
| `Serializes.ReadAcks` | common/Serializes.cpp:182-212 | one ack list as the format says; a failure keeps the ids when they were all there |
| `Serializes.ReadLists` | common/Serializes.cpp:182-243 | both lists end up in the header, unless it had acks already; a failure leaves there what was complete before it |
| `Serializes.DeserialiHead` | common/Serializes.cpp:165-251 | succeeds exactly when the format can be read, with the header and the rest of the stream it gives; otherwise the header holds the packet's flags and the fields read before the failure |
| `Serializes.Deseriali` | common/Serializes.cpp:253-258 | the same with the body, which stays as it was when none can be read |
| `Serializes.InitWithBuffer` | common/MsgImpl.cpp:184-191 | what a received packet becomes, and what it leaves of header and body when it is refused |
| `PendAck.PendAck.AddAck` | common/PendAck.cpp:19-29 | the id waits, without a time; the acks are to be sent at once when the running size has reached its limit |
| `PendAck.PendAck.AddAckTimed` | common/PendAck.cpp:31-41 | the same with its time |
| `PendAck.PendAck.TakeFirst` | common/PendAck.cpp:62-91 | the first entry goes out if and only if the 16-bit size stays under the limit |
| `PendAck.PendAck.TakeAll` | common/PendAck.cpp:61-92 | the loop takes the ids that fit, with their times, and leaves the rest |
| `PendAck.PendAck.GetAck` | common/PendAck.cpp:48-103 | the ids taken with their times, what is left behind, whether they may be sent as a range, and what the running size loses |
| `PendAck.TakenIsLowest` | common/PendAck.cpp:61-92 | whatever the limit, the ids taken are the lowest, in ascending order |
| `PendAck.TakenCount` | common/PendAck.cpp:61-92 | with times throughout, the number taken is the largest n with 10n below the limit, or all |
| `PendAck.TakenBounds` | common/PendAck.cpp:61-92 | with a wrapping size as well, at most all are taken, and at least one when one fits |
| `PendAck.SpentCount` | common/PendAck.cpp:61-101 | the running size loses 10 for each entry taken and 8 or 10 more when one is left behind |
| `PendAck.SizeStaysExactIff` | common/PendAck.cpp:101 | a running size that was exact stays exact if and only if everything was taken |
| `PendAck.BareCount` | common/PendAck.cpp:79-84 | without times the number taken is the largest n with 2n below the limit, or all, and the running size loses 2 for each and 2 more when one is left behind |
| `PendAck.TimesMatchIds` | common/PendAck.cpp:67-77 | with times throughout, every id brings its own |
| `PendAck.ContinuousIff` | common/PendAck.cpp:87-97 | the continuity test holds exactly for consecutive ids and for a gap behind id 0 |
| `AckBudget.AddAckToMsg` | net/SocketImpl.cpp:278-300 | old acks go, pending ones are attached, and every pending ack is either attached or still pending |
| `AckBudget.AttachOrderly` | net/SocketImpl.cpp:282-289 | one list takes what the space left allows |
| `AckBudget.AttachReliable` | net/SocketImpl.cpp:291-298 | the other list takes what is left after that |
| `AckBudget.OrderlySize` | common/Serializes.cpp:18-80 | n acks with times add 2 + 10n bytes, and 8 more for the first time stamp |
| `AckBudget.OneListStaysClose` | net/SocketImpl.cpp:24 | one list leaves a timestamped message of at most 432 bytes at 433 at most, and at 433 exactly in the stated case |
| `AckBudget.TimedFitsIff` | net/SocketImpl.cpp:278-300 | when a timestamped message fits the MTU with both lists, from its size and the two numbers of pending acks |
| `AckBudget.UntimedFitsIff` | net/SocketImpl.cpp:278-300 | when one without a time stamp does |
| `AckBudget.AckOnlyCanOverflow` | net/SocketImpl.cpp:594-611 | an ack-only message overflows exactly with 42 or more orderly acks and any reliable one |
| `AckBudget.DataFitsIff` | hudp/HudpImpl.cpp:98-102 | a user's message of up to 400 bytes fits with its acks exactly unless its length ends in 5, the orderly acks fill it and a reliable one waits |
| `AckBudget.DataArrivesIff` | net/SocketImpl.cpp:140-152 | and then, and only then, it arrives whole with all the acks it took along |
| `AckBudget.BareFitsIff` | net/SocketImpl.cpp:278-300 | when a message without a time stamp fits with acks that carry no times: within the limit exactly unless it is of odd size, the orderly acks fill it to one byte over, and three reliable ones wait |
| `AckBudget.AckedKeepsRest` | net/SocketImpl.cpp:278-300 | attaching acks touches no other field and no other flag bit |
| `AckBudget.AckedMessageArrives` | net/SocketImpl.cpp:278-300 | a well-formed message stays so with its acks, and arrives with exactly them if and only if it fits |
| `AckBudget.GetAck` | common/MsgImpl.cpp:165-174 | the acks found in a header, whichever kind is asked for |
| `AckBudget.AcksReachTheirWindowIff` | net/SocketImpl.cpp:302-344 | the orderly window gets its own acks; the reliable one does if and only if the message brings no orderly ones, or the same |
| `AckBudget.BothListsAreOne` | net/SocketImpl.cpp:278-344 | of two lists a message took along the receiver sees the orderly one twice |

## Left out

- Sockets, threads, locks, logging, configuration and compression: input, output and foreign code.
- The BBR controller, round-trip estimation, pacing and timers: a timer is an event that may fire.
- Retransmission: the close protocol's termination assumes that each control packet arrives once; its safety assumes nothing of the network.
- Data and acks in the termination model of the close protocol: any message received in TIME_WAIT is answered with a reset, so only control messages are there. The safety model has them, and says whom a reset can hit.
- The re-creation of a socket after its release: each endpoint lives once.
- `PoolNew` and `PoolDelete`: the same list steps as `PoolMalloc` and `PoolFree`, with constructors and destructors around them; and the pool of large blocks.
- A destroyed pool: its chunks go back to malloc.
- The send window that ignores its limit (`_always_send`), `Clear`, `Remove` and the `AcceptAck` of several ids.
- MemoryPool.MemoryPool.PoolMalloc: sizes below 1, for which the code indexes in front of its lists, and a failed malloc of a large block, which it would write to.
- `CReliableList` and `COrderlyList`, `IncrementalId` comparisons, `FlowQueue`, message pools: simpler relatives of what is here.
- `base/Buffer.cpp`, and the searches of the ring buffer (`FindStr`, `ReadUntil`).
- LoopBuffer.LoopBuffer.Write: null pointers, which the code turns away, are not in the types; negative lengths, which it does not look at, are outside the model.
- SlicingFilter.FlowSlicingFilter.RelieveFilterProcess: under six bytes the code reads past its input, so six are required; equal indexes are sorted in order of arrival, which std::sort does not promise; the theorems have distinct indexes.
- Serializes.SerializesHead: a timestamped ack list with fewer times than ids to write is excluded, because the code would index past its end.
- Serializes.WriteAcks: the same.
- Serializes.Serialize: the same.
- Serializes.GetSerializeBuffer: the same.
- BitStream.BitStreamWriter.CheckBufferExpend: the branch that doubles the buffer, which a constant switches off.
- `GetAllAck` of `PendAck`, which nothing calls.
- AckBudget.TimedFitsIff: pending acks with a time each (`BareFitsIff` has those without; the two kinds mixed are not covered), and not all 65536 ids at once, which a 16-bit length cannot count; the same holds for the other size laws.
