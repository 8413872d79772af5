# Verified model of the gateway's protocol cores

The repository is a Linux/ROS 2 gateway that drives a robot hand over unreliable serial links. This
project models its protocol cores in Dafny and proves what they promise.

| files | component |
|---|---|
| `RetryPolicy.dfy`, `UartCommand.dfy`, `HandBridge.dfy`, `HandBridgeNode.dfy` | the ROS 2 hand bridge: request table, text commands, and the transition system formed by the callback, the transmit, receive and retry threads. `HandBridgeNode` is the node as a class; each of its methods is one lock-protected region and is proved equal to one action of the system |
| `HandBridgeInvariants.dfy`, `HandBridgeHistory.dfy`, `HandBridgeOrder.dfy`, `HandBridgeEffects.dfy`, `HandBridgeTheorems.dfy`, `HandBridgeFifo.dfy` | what every region keeps, how the log of a run constrains the table, the order of logged events, what each action does to each request, frame and log, and the resulting theorems over all runs |
| `Decimal.dfy`, `AckParser.dfy`, `RxLines.dfy` | decimal numbers, the text acknowledgement, and the receive worker's line assembly |
| `WireBytes.dfy`, `SerialFrame.dfy`, `StreamParser.dfy` | the nine-byte binary frame and the resynchronising stream parser |
| `BoundedQueue.dfy`, `QueueThreads.dfy`, `QueueTermination.dfy`, `QueueAccounts.dfy` | the blocking ring buffer, any number of producer and consumer threads around it, why they come to an end, and what each of them has to show for itself |
| `LengthFramer.dfy` | the byte-at-a-time parser of length-prefixed frames |
| `ReliableProtocol.dfy`, `ReliableDevice.dfy` | request and acknowledgement frames, and the device that executes each number once |
| `MqttBackoff.dfy` | reconnection delays in 32-bit arithmetic |
| `TimeoutSender.dfy` | the sender that waits, times out and retries beside a device thread |
| `Basics.dfy` | optional values and joined sequences |

How concurrency is modelled. A locked region is one atomic action. Whatever a thread carries from one
region to its next (a popped frame, a batch of retries, a command registered but not yet queued) is
part of the state, so every gap between two locks is a point where any other thread may act. A run is
any sequence of enabled actions; write outcomes, received lines, clock readings (monotone, in
milliseconds), signal targets and spurious wakeups are free. The state of the bridge carries a log of
registrations, write attempts and acknowledgements, and the theorems speak about that log.

Methods carry the loops and field updates of the original; each is proved against a function or an
action, and the properties are proved about those. Several statements come out exact rather than as
the original's comments suggest:

* a 32-bit command counter that wraps is part of the model: after 2^32 - 1 commands every further
  command, a STOP included, is refused; such a STOP still supersedes every motion request, except
  the one that draws number 0, which leaves the request table alone (`RegisteredUntilExhausted`);
* that a final verdict is preceded by a complete write of its request is not true of every run
  (`StrayOkIsBelieved`). It fails exactly when the acknowledgement was accepted while the request was
  superseded and had never been written, and that is exactly when a STOP superseded the request while
  it was still QUEUED (`UnwrittenAcceptsExactly`, `VerdictIsEarnedExactly`). With a device that
  acknowledges only what it was sent every verdict is earned (`VerdictIsEarned`);
* the known-command check of the serial frame decoder is what keeps frames apart: without it two
  windows can overlap, at distance three or four only (`OverlapNeedsUnknownCommand`, `OverlapsOccur`);
* the request decoder does not look at the length byte, so decoding determines the bytes exactly when
  that byte is 4 (`DecodedIsEncodedIff`, `WrongLengthIsAccepted`).

## Model

| member | source | states |
|---|---|---|
| HandBridgeTheorems.StopSilencesEarlierMotion | ros2_ws/src/hand_bridge/src/hand_bridge_node.cpp:255-287 | in every run, a motion request registered before a STOP is never written after that STOP's registration, even if its frame was already queued or in the transmitter's hand |
| HandBridgeTheorems.StopIsWrittenFirst | ros2_ws/src/hand_bridge/src/hand_bridge_node.cpp:488-557 | in every run, between the registration of a STOP and any later write of a motion frame lies a write attempt of that STOP |
| HandBridgeEffects.StopJumpsTheQueue | ros2_ws/src/hand_bridge/src/hand_bridge_node.cpp:488-530 | in every run, a STOP that was just queued is the next frame the transmitter takes, unless another STOP is queued in between |
| HandBridgeFifo.MotionsAreWrittenInOrder | ros2_ws/src/hand_bridge/src/hand_bridge_node.cpp:488-557 | in every run, when a motion command is written, every motion command registered before it has been written by then or never is |
| HandBridgeEffects.OnlyStopsOvertake | ros2_ws/src/hand_bridge/src/hand_bridge_node.cpp:476-530 | in every run the queue changes only by its front being taken, one frame joining the back, being emptied by shutdown, or a STOP being put in front when it is first queued |
| HandBridgeEffects.FramesAreConserved | ros2_ws/src/hand_bridge/src/hand_bridge_node.cpp:279-288 | in every run frames in the queue and in the hands of the threads neither vanish nor multiply: what an action adds and what it disposes of is accounted for, each transmission disposing of one |
| HandBridgeEffects.EveryChangeHasItsCause | ros2_ws/src/hand_bridge/include/hand_bridge/retry_policy.hpp:85-284 | for every run, action and request: what becomes of the request, with the reasons and constants written out; any other action leaves it exactly as it is |
| HandBridgeEffects.EveryEventHasItsCause | ros2_ws/src/hand_bridge/src/hand_bridge_node.cpp:534-650 | registrations, writes and acknowledgements are logged just as they happen: a frame is written exactly when its request is QUEUED or RETRY_QUEUED, with that request's bytes |
| HandBridgeEffects.OnlyCommandsRegister | ros2_ws/src/hand_bridge/src/hand_bridge_node.cpp:132-277 | a new entry comes from OPEN, GRAB, RELEASE or STOP, has the next number, and its frame is `SEQ:n CMD:HAND_x` with CR LF |
| HandBridgeEffects.OtherCommandsAreIgnored | ros2_ws/src/hand_bridge/src/hand_bridge_node.cpp:208-219 | in every run, any other command leaves the whole state unchanged |
| HandBridgeEffects.EveryCommandTakesANumber | ros2_ws/src/hand_bridge/src/hand_bridge_node.cpp:230-242 | in every run the counter is one more than the commands submitted so far, modulo 2^32, whether they were registered or refused |
| HandBridgeEffects.OnlyStopSupersedes | ros2_ws/src/hand_bridge/include/hand_bridge/retry_policy.hpp:264-284 | in every run a request becomes SUPERSEDED only by a submitted STOP, and only a motion request does |
| HandBridgeEffects.RetriesAreCounted | ros2_ws/src/hand_bridge/include/hand_bridge/retry_policy.hpp:225-262 | in every run the retry counter of a request is the number of polls that handed out a retry of it |
| HandBridgeEffects.SilentAfterShutdown | ros2_ws/src/hand_bridge/src/hand_bridge_node.cpp:503-530 | once the workers are told to stop, only the frame already in the transmitter's hand can still be written, at most once |
| HandBridgeTheorems.NothingIsStranded | ros2_ws/src/hand_bridge/src/hand_bridge_node.cpp:503-733 | until shutdown, every QUEUED request has a frame in the queue, the transmitter or the callback, and every RETRY_QUEUED one in the queue, the transmitter or the retry worker, whatever stale duplicates exist |
| HandBridgeTheorems.AtMostThreeWrites | ros2_ws/src/hand_bridge/include/hand_bridge/retry_policy.hpp:225-262 | over a whole run a number is written at most three times |
| HandBridgeTheorems.WritesAreSpacedAndFaithful | ros2_ws/src/hand_bridge/include/hand_bridge/retry_policy.hpp:85-134 | of two writes of one number the earlier succeeded, they are at least 1500 ms apart, and their bytes are equal |
| HandBridgeTheorems.WritesCarryTheirCommand | ros2_ws/src/hand_bridge/src/hand_bridge_node.cpp:132-164 | a write follows the registration of its number, and a device reading the frame gets back the registered command and number |
| HandBridgeTheorems.QuietWhileExecuting | ros2_ws/src/hand_bridge/include/hand_bridge/retry_policy.hpp:186-195 | after an accepted IN_PROGRESS the number is not written again for 15 s |
| HandBridgeTheorems.PollActsOnTime | ros2_ws/src/hand_bridge/include/hand_bridge/retry_policy.hpp:225-262 | a poll acts exactly on requests 1500 ms past their last complete write, or 15 s past their last accepted IN_PROGRESS: one more retry with the original frame if fewer than two were handed out so far, else RESULT_UNKNOWN |
| HandBridgeTheorems.VerdictExact | ros2_ws/src/hand_bridge/include/hand_bridge/retry_policy.hpp:136-223 | a request is SUCCEEDED, PREEMPTED, BUSY or ERROR exactly when an acknowledgement of that status was accepted for it |
| HandBridgeTheorems.UnwrittenAcceptsExactly | ros2_ws/src/hand_bridge/include/hand_bridge/retry_policy.hpp:136-184 | in every run, a request that was never completely written accepts an acknowledgement if and only if it is SUPERSEDED and the status is OK, PREEMPTED or ERROR |
| HandBridgeTheorems.VerdictIsEarnedExactly | ros2_ws/src/hand_bridge/include/hand_bridge/retry_policy.hpp:136-284 | in every run, a verdict lacks an earlier complete write if and only if its acknowledgement was accepted while the request was SUPERSEDED and unwritten, and if and only if a submitted STOP superseded the request while it was QUEUED |
| HandBridgeTheorems.VerdictIsEarned | ros2_ws/src/hand_bridge/src/hand_bridge_node.cpp:630-646 | with a device that acknowledges only numbers sent to it, each verdict is preceded by a complete write and then the matching acknowledgement, also through SUPERSEDED |
| HandBridgeTheorems.StrayOkIsBelieved | ros2_ws/src/hand_bridge/include/hand_bridge/retry_policy.hpp:150-177 | without that assumption it fails: a concrete run in which a never written request succeeds |
| HandBridgeTheorems.CompletionIsNeverIgnored | ros2_ws/src/hand_bridge/include/hand_bridge/retry_policy.hpp:150-223 | once a write succeeded and until the request ends, OK, PREEMPTED and ERROR take effect in whatever state it is |
| HandBridgeTheorems.AckTakesEffect | ros2_ws/src/hand_bridge/include/hand_bridge/retry_policy.hpp:136-223 | in every run, each of the five acknowledgements of a request that was completely written, has not ended and is not SUPERSEDED is accepted and takes effect at once, a repeated IN_PROGRESS included |
| HandBridgeTheorems.SupersededAnswers | ros2_ws/src/hand_bridge/include/hand_bridge/retry_policy.hpp:150-177 | in every run a SUPERSEDED request takes OK, PREEMPTED and ERROR and ignores IN_PROGRESS and BUSY |
| HandBridgeTheorems.AckIsIgnored | ros2_ws/src/hand_bridge/include/hand_bridge/retry_policy.hpp:136-184 | in every run a request that has ended, or was never completely written and is not SUPERSEDED, ignores every acknowledgement |
| HandBridgeTheorems.ProgressBuysTime | ros2_ws/src/hand_bridge/include/hand_bridge/retry_policy.hpp:186-262 | in every run no poll touches or retries a request within 15 s of any accepted IN_PROGRESS, a repeated one included |
| HandBridgeTheorems.UnknownIsJustified | ros2_ws/src/hand_bridge/include/hand_bridge/retry_policy.hpp:113-134 | RESULT_UNKNOWN before shutdown means that exactly two retries were handed out, or that a write failed |
| HandBridgeTheorems.AtMostTenChanges | ros2_ws/src/hand_bridge/include/hand_bridge/retry_policy.hpp:85-284 | in any run a request changes state at most ten times |
| HandBridgeTheorems.EndsAreFinal | ros2_ws/src/hand_bridge/include/hand_bridge/retry_policy.hpp:150-184 | the five final states are never left; SUPERSEDED can only become PREEMPTED, SUCCEEDED or ERROR |
| HandBridgeTheorems.StatusIsTruthful | ros2_ws/src/hand_bridge/src/hand_bridge_node.cpp:297-336 | the reply of the status service is about the command registered last, which it always finds; it reports success exactly when an OK was accepted for that command, and names its state by the ten words of the interface |
| HandBridgeTheorems.NumbersAreConsecutive | ros2_ws/src/hand_bridge/src/hand_bridge_node.cpp:230-277 | the k-th registered command has number k, in every run |
| HandBridgeTheorems.RegisteredUntilExhausted | ros2_ws/src/hand_bridge/src/hand_bridge_node.cpp:230-277 | a valid command is registered exactly while fewer than 2^32 - 1 were; a STOP that draws a number other than 0, refused or not, leaves no motion request alive, and one that draws 0 leaves the table as it is |
| HandBridgeOrder.StepInv | ros2_ws/src/hand_bridge/src/hand_bridge_node.cpp:208-738 | every locked region of every thread keeps the whole invariant: genuine frames, nothing stranded, log and table in agreement, spacing, supersession, STOP ahead of living motion requests |
| HandBridgeOrder.StopsAheadKept | ros2_ws/src/hand_bridge/src/hand_bridge_node.cpp:476-557 | every region keeps each unwritten STOP ahead, in queue or transmitter, of every frame of every living motion request |
| HandBridgeInvariants.NotStrandedKept | ros2_ws/src/hand_bridge/src/hand_bridge_node.cpp:503-733 | every region keeps a frame under way for each request that still has to be written |
| HandBridgeHistory.EventsKept | ros2_ws/src/hand_bridge/include/hand_bridge/retry_policy.hpp:85-262 | every region keeps each logged write and acknowledgement in agreement with the request's state and deadline |
| HandBridgeHistory.StatesKept | ros2_ws/src/hand_bridge/include/hand_bridge/retry_policy.hpp:85-262 | every region keeps each state explained by the log and the number of writes within the retries used |
| HandBridgeNodes.HandBridgeNode.Submit | ros2_ws/src/hand_bridge/src/hand_bridge_node.cpp:208-277 | the callback's first region is the submit action: number, supersession by STOP, registration or refusal |
| HandBridgeNodes.HandBridgeNode.EnqueueUartCommand | ros2_ws/src/hand_bridge/src/hand_bridge_node.cpp:476-501 | refused after stop; otherwise STOP goes to the front and everything else to the back, the rest of the queue unchanged |
| HandBridgeNodes.HandBridgeNode.EnqueueCommand | ros2_ws/src/hand_bridge/src/hand_bridge_node.cpp:279-288 | the callback's hand-over is the enqueue action |
| HandBridgeNodes.HandBridgeNode.MarkSendFailed | ros2_ws/src/hand_bridge/src/hand_bridge_node.cpp:283-287 | the callback's refused hand-over is the give-up action |
| HandBridgeNodes.HandBridgeNode.TakeFrame | ros2_ws/src/hand_bridge/src/hand_bridge_node.cpp:511-530 | the transmit worker leaves on stop without touching anything, otherwise takes the front frame |
| HandBridgeNodes.HandBridgeNode.Transmit | ros2_ws/src/hand_bridge/src/hand_bridge_node.cpp:534-557 | check, write and mark are one action; a stale frame is dropped unwritten |
| HandBridgeNodes.HandBridgeNode.ReceiveLine | ros2_ws/src/hand_bridge/src/hand_bridge_node.cpp:620-672 | a line that does not parse changes nothing; otherwise its acknowledgement is applied, and the result says whether it was accepted |
| HandBridgeNodes.HandBridgeNode.PollRetries | ros2_ws/src/hand_bridge/src/hand_bridge_node.cpp:706-714 | the retry worker's poll is the poll action with exactly the batch it hands over |
| HandBridgeNodes.HandBridgeNode.Requeue | ros2_ws/src/hand_bridge/src/hand_bridge_node.cpp:716-729 | a retry joins the back of the queue, or is dropped after stop |
| HandBridgeNodes.HandBridgeNode.Status | ros2_ws/src/hand_bridge/src/hand_bridge_node.cpp:297-336 | the service gives the reply that `StatusIsTruthful` speaks about |
| RetryPolicies.RetryPolicy.Start | ros2_ws/src/hand_bridge/include/hand_bridge/retry_policy.hpp:63-83 | refuses number 0, an empty frame and a number in use, else adds a fresh request; nothing else changes |
| RetryPolicies.RetryPolicy.MarkSent | ros2_ws/src/hand_bridge/include/hand_bridge/retry_policy.hpp:85-111 | succeeds exactly for a request waiting to be written and changes only that entry |
| RetryPolicies.RetryPolicy.OnAck | ros2_ws/src/hand_bridge/include/hand_bridge/retry_policy.hpp:136-223 | accepted exactly for a known request in an accepting state; changes only that entry |
| RetryPolicies.RetryPolicy.Poll | ros2_ws/src/hand_bridge/include/hand_bridge/retry_policy.hpp:225-262 | the in-place walk updates every due request and returns, by ascending number, one frame for each that gets a retry |
| RetryPolicies.RetryPolicy.CancelNonStop | ros2_ws/src/hand_bridge/include/hand_bridge/retry_policy.hpp:264-284 | supersedes exactly the living motion requests |
| RetryPolicies.RetryBatchUnique | ros2_ws/src/hand_bridge/include/hand_bridge/retry_policy.hpp:225-262 | table and time determine the batch completely |
| RetryPolicies.EveryOperationProgresses | ros2_ws/src/hand_bridge/include/hand_bridge/retry_policy.hpp:85-284 | every operation moves a request along the state graph or leaves its state, keeps its identity, never exceeds two retries, and pays for each change of state with rank |
| RetryPolicies.EveryEdgeIsTaken | ros2_ws/src/hand_bridge/include/hand_bridge/retry_policy.hpp:85-284 | the state graph is tight: each of its edges is taken by some operation |
| UartCommand.FrameCarriesCommand | ros2_ws/src/hand_bridge/src/hand_bridge_node.cpp:132-164 | the frame of a valid command is not empty and reads back as exactly that command and number |
| AckParser.ParseAck | ros2_ws/src/hand_bridge/src/ack_parser.cpp:9-113 | the parser as written agrees with the grammar and leaves its outputs alone when it refuses |
| AckParser.ReadSequence | ros2_ws/src/hand_bridge/src/ack_parser.cpp:33-63 | the guarded loop never wraps a 32-bit number and stops exactly when the mathematical value of the whole digit run exceeds 2^32 - 1 |
| AckParser.ParseExact | ros2_ws/src/hand_bridge/src/ack_parser.cpp:9-113 | both directions: accepted with this result exactly when the line is `ACK:`, digits, a space and a status, followed by nothing, LF or CR LF, and the value of the digits, at most 2^32 - 1, is the number |
| AckParser.AcceptedExactly | ros2_ws/src/hand_bridge/src/ack_parser.cpp:9-113 | a line is refused exactly when it does not read so; every 32-bit value is let through |
| AckParser.StatusWords | ros2_ws/src/hand_bridge/src/ack_parser.cpp:81-138 | for every number, each of the five status words, written out, gives its own status |
| AckParser.ParseInvertsPrint | ros2_ws/mock_stm32.py:40-46 | parsing inverts printing for every number and status, with LF, CR LF or no terminator |
| RxLines.SplitExact | ros2_ws/src/hand_bridge/src/hand_bridge_node.cpp:616-678 | segments and rest spell the stream again and contain no line feed |
| RxLines.LineAssembler.Read | ros2_ws/src/hand_bridge/src/hand_bridge_node.cpp:580-692 | each read hands on exactly the segments of 1 to 95 characters it completes; longer lines vanish whole and do not affect later ones |
| RxLines.ReadAll | ros2_ws/src/hand_bridge/src/hand_bridge_node.cpp:580-692 | for every stream and every way it is cut into reads, the lines handed on are those of splitting the whole stream |
| RxLines.LineLimits | ros2_ws/src/hand_bridge/src/hand_bridge_node.cpp:620-678 | a single line is handed on exactly when it has 1 to 95 characters |
| RxLines.TranscriptIsDelivered | ros2_ws/mock_stm32.py:40-46 | every acknowledgement the device prints passes line assembly and parser, once and in order |
| SerialFrame.DecodeExact | cpp_modules/serial_frame_demo/src/serial_frame.cpp:43-163 | decoding yields a frame exactly for the encoding of that frame |
| SerialFrame.EncodeBytes | cpp_modules/serial_frame_demo/src/serial_frame.cpp:26-77 | the nine bytes of every frame, written out: header, length, number high byte first, command code 01 to 04, exclusive-or of the four, tail |
| SerialFrame.RejectedBecause | cpp_modules/serial_frame_demo/src/serial_frame.cpp:79-163 | for all bytes, each of the five errors if and only if its check is the first in order that fails |
| SerialFrame.CorruptedIsRejected | cpp_modules/serial_frame_demo/src/serial_frame.cpp:79-149 | an encoding with any one byte changed is rejected |
| SerialFrame.EncodeFrame | cpp_modules/serial_frame_demo/src/serial_frame.cpp:43-77 | the byte-by-byte encoder with its running checksum produces the wire form |
| SerialFrame.DecodeFrame | cpp_modules/serial_frame_demo/src/serial_frame.cpp:79-163 | the first failing check, in the code's order, determines the error; the caller's frame changes only on success |
| WireBytes.CalculateChecksum | cpp_modules/serial_frame_demo/src/serial_frame.cpp:9-24 | the loop computes the exclusive-or of the stretch |
| StreamParsers.WindowsDoNotOverlap | cpp_modules/serial_frame_demo/src/serial_frame.cpp:26-149 | two windows that both decode never overlap |
| StreamParsers.OverlapNeedsUnknownCommand | cpp_modules/serial_frame_demo/src/serial_frame.cpp:26-163 | windows that pass every check but perhaps the known-command check overlap only at distance 3, the later one with command byte 0x0A, or at distance 4, the earlier one with command byte 0x55 |
| StreamParsers.OverlapsOccur | cpp_modules/serial_frame_demo/src/serial_frame.cpp:26-163 | concrete streams for both overlaps, so the known-command check is needed |
| StreamParsers.ExtractExact | cpp_modules/serial_frame_demo/src/serial_frame.cpp:251-363 | one extraction yields the frames at all decodable positions of the buffer, in order, and keeps at most eight bytes |
| StreamParsers.ExtractAppend | cpp_modules/serial_frame_demo/src/serial_frame.cpp:242-363 | extracting now and again after more bytes equals extracting once at the end |
| StreamParsers.ChunksDoNotMatter | cpp_modules/serial_frame_demo/src/serial_frame.cpp:242-363 | for every cut of a stream into rounds the output is the frames at all decodable positions of the whole stream, and the residue is that of one round up to a lone byte that starts no header |
| StreamParsers.NoiseCostsNothing | cpp_modules/serial_frame_demo/src/serial_frame.cpp:330-359 | any bytes between two runs of frames cost no frame on either side |
| StreamParsers.OneBadByteCostsOneFrame | cpp_modules/serial_frame_demo/src/serial_frame.cpp:330-359 | changing one byte of back-to-back frames to any other value loses exactly the frame it lies in |
| StreamParsers.StreamParser.ExtractFrames | cpp_modules/serial_frame_demo/src/serial_frame.cpp:251-363 | the loop over the live buffer terminates, emits all decodable positions and leaves the specified residue |
| StreamParsers.ParseChunks | cpp_modules/serial_frame_demo/src/serial_frame.cpp:242-363 | a fresh parser object driven through any rounds emits all decodable positions of the concatenated stream |
| BoundedQueues.BoundedQueue.Push | test/day09_bounded_queue.c:94-139 | waits exactly when full and open, refuses when closed, otherwise appends in ring order |
| BoundedQueues.BoundedQueue.Pop | test/day09_bounded_queue.c:142-199 | removes the oldest message; a closed queue is drained before it reports closed |
| BoundedQueues.PushedAppends | test/day09_bounded_queue.c:132-134 | writing at the tail modulo the capacity appends one message and overwrites none |
| BoundedQueues.PoppedRemoves | test/day09_bounded_queue.c:188-193 | moving the head modulo the capacity removes exactly the oldest message |
| QueueThreads.QueueIsFifo | test/day09_bounded_queue.c:119-198 | for any number of threads, popped messages followed by the ring contents are the pushed messages, in every reachable state |
| QueueThreads.NoWakeupIsLost | test/day09_bounded_queue.c:119-228 | while a consumer sleeps each message has a woken consumer of its own, while a producer sleeps each free slot has a woken producer, and nobody sleeps on a closed queue; spurious wakeups included |
| QueueThreads.NeverStuck | test/day09_bounded_queue.c:119-322 | with at least one thread on each side, as long as a thread is unfinished some thread can go on without a spurious wakeup |
| QueueThreads.ConsumerReceivesAll | test/day09_bounded_queue.c:242-371 | with one producer and one consumer no order check ever fails; a returned consumer has received exactly 1 to n and the queue is closed and empty |
| QueueTermination.RunsAreBounded | test/day09_bounded_queue.c:119-322 | for any number of threads, a run without spurious wakeups has at most a stated number of steps, and each spurious wakeup adds at most two |
| QueueAccounts.PushOutcome | test/day09_bounded_queue.c:119-138 | in every run a push fails at a closed queue, sleeps when the pushes are four messages ahead of the pops, and otherwise adds the producer's next message and wakes a sleeping consumer if there is one |
| QueueAccounts.PopOutcome | test/day09_bounded_queue.c:168-198 | in every run a pop takes the oldest message not popped yet, checks its number and wakes a sleeping producer; with nothing left it sleeps, or at a closed queue returns its count |
| QueueAccounts.MessagesAreAccountedFor | test/day09_bounded_queue.c:242-322 | for any number of threads each message was pushed once by every producer that is past it, with its own readings, and the messages popped are those the consumers counted plus one for each failed check |
| QueueAccounts.EndsAreExplained | test/day09_bounded_queue.c:242-322 | a producer fails only at a closed queue and otherwise ends having pushed all n; a consumer that did not fail returns from a closed and empty queue with its count |
| QueueAccounts.ClosedIsFinal | test/day09_bounded_queue.c:200-228 | after closing the queue stays closed and nothing is pushed any more |
| QueueTermination.RestMeansFinished | test/day09_bounded_queue.c:119-322 | with at least one thread on each side, when nothing but a spurious wakeup can happen every thread has finished and nobody sleeps |
| QueueTermination.SoloRunDelivers | test/day09_bounded_queue.c:242-371 | with one thread on each side, every run that has come to rest has delivered exactly 1 to n, with the counts that the program asserts at its end |
| LengthFramer.FramesAreGenuine | test/day10_length_framer.c:57-185 | over every stream a frame is reported only when the last bytes are exactly that frame on the wire, unused payload zero |
| LengthFramer.FramesAreDisjoint | test/day10_length_framer.c:57-185 | every stream consists of exactly the frames delivered from it, on the wire, in order and without overlap, with gaps around them |
| LengthFramer.FramesSurviveNoise | test/day10_length_framer.c:57-185 | frames with noise free of AA 55 before, between and after them are delivered exactly, in order; trailing AA bytes are allowed |
| LengthFramer.HuntsAgainSoon | test/day10_length_framer.c:122-177 | once a header is matched the parser is back in its first state within 19 bytes, whatever they are |
| LengthFramer.TracksKept | test/day10_length_framer.c:95-185 | each byte keeps the working frame, its zero rest and the running checksum equal to what was matched |
| LengthFramer.FeedByMatch | test/day10_length_framer.c:57-185 | each byte of the real automaton refines one step of that plain one |
| LengthFramer.ResultIsExact | test/day10_length_framer.c:57-185 | for every stream and next byte, exactly when the result is bad length, frame ready or bad checksum, told by a plain automaton over the matched bytes that knows neither states, index nor running checksum |
| LengthFramer.FrameParser.FeedByte | test/day10_length_framer.c:57-185 | the in-place automaton follows the specification, keeps the payload index in bounds and touches the output only for a ready frame |
| ReliableProtocol.DecodeExact | cpp_modules/reliable_serial_demo/src/reliable_protocol.cpp:83-187 | a decoder accepts exactly the frames of its type with any length byte and the checksum that goes with it |
| ReliableProtocol.EncodeBytes | cpp_modules/reliable_serial_demo/src/reliable_protocol.cpp:23-81 | the ten bytes of every frame, written out: header, length, number high byte first, 01 for a request and 02 for an acknowledgement, code, exclusive-or of the five, tail |
| ReliableProtocol.DecodedIsEncodedIff | cpp_modules/reliable_serial_demo/src/reliable_protocol.cpp:83-187 | accepted bytes are the encoding of the result exactly when the length byte is 4 |
| ReliableProtocol.WrongLengthIsAccepted | cpp_modules/reliable_serial_demo/src/reliable_protocol.cpp:83-134 | a concrete accepted request with another length byte |
| ReliableProtocol.CorruptedIsRejected | cpp_modules/reliable_serial_demo/src/reliable_protocol.cpp:23-134 | an encoded frame with any one byte changed is ignored |
| ReliableProtocol.TypesAreApart | cpp_modules/reliable_serial_demo/src/reliable_protocol.cpp:104-162 | an acknowledgement never decodes as a request nor a request as an acknowledgement |
| ReliableDevice.ExecutesFirstRequestsOnly | cpp_modules/reliable_serial_demo/demo/main.cpp:21-76 | for any deliveries the executions are the first decodable request of each number, each number once; executed equals the cache size, received equals executed plus duplicates |
| ReliableDevice.RepliesAreStable | cpp_modules/reliable_serial_demo/demo/main.cpp:36-75 | all replies to one number are the same bytes and decode to an acknowledgement of it with result 00 |
| ReliableDevice.JunkDoesNotMatter | cpp_modules/reliable_serial_demo/demo/main.cpp:21-34 | among any deliveries, those that do not decode change neither the state of the device nor the sequence of its answers |
| ReliableDevice.RetransmissionsExecuteOnce | cpp_modules/reliable_serial_demo/demo/main.cpp:93-140 | a request repeated any number of times, any copy damaged in one byte, executes exactly once if one copy arrives intact, else never |
| ReliableDevice.SimulatedDevice.HandleRequest | cpp_modules/reliable_serial_demo/demo/main.cpp:21-76 | the method updates cache and counters and replies as specified |
| MqttBackoff.MqttRetryPolicy.ComputeBase | test/day10_mqtt_retry_policy.c:173-194 | the loop returns min(base * 2^(n-1), max) for n failures, never overflows 32 bits and takes at most 32 turns even for a saturated count |
| MqttBackoff.MqttRetryPolicy.CalculateDelay | test/day10_mqtt_retry_policy.c:123-250 | no delay without failure, else the closed form plus the random number modulo one more than the jitter limit |
| MqttBackoff.MqttRetryPolicy.Init | test/day10_mqtt_retry_policy.c:33-76 | accepts exactly the legal parameters and otherwise leaves the policy unchanged |
| MqttBackoff.DelaysAreExactly | test/day10_mqtt_retry_policy.c:216-246 | the delays that some 32-bit random number produces are exactly those from the base delay up to min(base delay + jitter, max) |
| MqttBackoff.BaseDelayMonotone | test/day10_mqtt_retry_policy.c:173-194 | further failures never shorten the base delay, and it stays between base and max |
| MqttBackoff.BaseDelayDoubles | test/day10_mqtt_retry_policy.c:173-194 | the first failure gives the base delay, each further one doubles it up to the maximum |
| TimeoutSender.Gateway.CommandSender | cpp_modules/gateway_timeout_demo/main.cpp:105-255 | for any commands, retry limit and device behaviour: acked and failed count the verdicts, sent counts the frames, the counters balance and the frames follow the plan; a valid command is acknowledged at the first attempt in whose wait the device answers a frame of its number, fails exactly when there is none, and invalid commands are skipped |
| TimeoutSender.Gateway.SendCommand | cpp_modules/gateway_timeout_demo/main.cpp:132-232 | acknowledged at attempt k exactly when an acknowledgement of the number is in the map at the end of wait k and of no earlier wait, failed exactly when of none; each of the five counters grows by exactly what the verdict and the frames sent say |
| TimeoutSender.Gateway.SendOnce | cpp_modules/gateway_timeout_demo/main.cpp:136-203 | a wait succeeds if and only if an acknowledgement of this number is in the map when it ends; that one is consumed and every other entry stays, so a late one satisfies no other request |
| TimeoutSender.PostedIff | cpp_modules/gateway_timeout_demo/main.cpp:54-98 | an acknowledgement is in the map exactly when it was there before or the device answered a frame with that number |
| TimeoutSender.FramesAreAccountedFor | cpp_modules/gateway_timeout_demo/main.cpp:54-98 | every frame the device takes is answered once, lost once or still in its hand |
| TimeoutSender.DecidedByAnswers | cpp_modules/gateway_timeout_demo/main.cpp:132-232 | for a number not yet in the map, the verdict read off the map is the verdict read off the answers of the device |
| TimeoutSender.OnlyOneVerdict | cpp_modules/gateway_timeout_demo/main.cpp:132-232 | the behaviour of the device admits only one verdict per command |
| TimeoutSender.PlanPayload | cpp_modules/gateway_timeout_demo/main.cpp:110-145 | every frame in the plan carries the payload that its number stands for |

## Left out

- Operating system and middleware: termios, `open`/`read`/`write`/`close`, `select`, ROS publishers and services, logging and console output. A UART write is a free success or failure, received bytes are a free input; the resumption of short writes inside `write_uart` is not modelled.
- A UART that failed to open: `command_callback` then returns before it takes a number, and no worker runs.
- Shutdown order: the destructor's flags and the clearing of the queue are one action; joining the threads is not modelled. The claim that nothing is stranded is made for the time before it.
- STOP retries: they join the back of the queue like any retry, so the priority theorems speak of a STOP's first write.
- Liveness of the hand bridge under a fair scheduler: the theorems say that a frame is under way and that polls act on time, not when a thread is scheduled.
- pthread and mutex failures and the memory model below the mutex; a locked region is atomic. The wait loops of `queue_push` and `queue_pop` appear as actions of `QueueThreads`, the locked parts as methods of `BoundedQueue`.
- Null pointers: `PARSER_INVALID_ARGUMENT`, `QUEUE_ERROR` and the null checks of the MQTT policy have no counterpart, because references here are never null.
- Message sequence numbers in `QueueThreads` and command numbers and counters in `TimeoutSender` and `ReliableDevice` are unbounded; the original's 32-bit counters would wrap only after 2^31 or more items.
- Wall-clock time in `TimeoutSender`: what the device does between two pushes is a free sequence of steps per wait; the 120 ms and timeout durations do not appear.
- `ProtocolParser`: `TimeoutSender` takes the validity of a command as a parameter.
- `toHex`, `commandToString`, `errorToString`, `ack_status_to_string`'s default branch and the demonstration `main` functions: printing only.
- `main.c`, `data_source.c`, `sensor_parser.c`, `mqtt_client.c`, `app_log.c`, `log_writer.c`, the log manager, the socket servers and the C and C++ exercises: library plumbing or easy members.
