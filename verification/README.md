# A verified model of the HTTP server's protocol code

This project models the parts of the server that move bytes and shared state, and proves what they keep:

- **HTTP/2, sending side** (`FlowControl`, `ManySenders`, `UngrantedData`): the four critical sections every sender
  thread runs on the shared windows and the reservation map, interleaved with SETTINGS, WINDOW_UPDATE, new streams and
  the DATA frames that take no grant, over any number of streams; the same with any number of senders on a stream; and
  what the peer's windows allow in every run.
- **HTTP/2, receiving side** (`Http2Frame`, `Http2Proto`, `Http2Table`, `Http2Runs`, `Http2Bits`, `Http2Faults`,
  `Http2Feed`, `Http2Reassembly`, `Http2Windows`, `Http2Receiver`): frame cutting over the residual buffer, the stream
  table, header blocks, body queues, the bits and the queue that frames determine, stream errors, and the receive loop
  as a class that updates the connection in place.  `Http2Windows` refines its window updates into the steps of
  `FlowControl`.
- **HTTP/2, both sides of the stream table** (`Http2Actions`, `Http2Requests`, `Http2Bodies`, `Http2Interference`,
  `Http2Dispatch`, `Http2Cases`): a transition system in which frames, stream errors and the dispatch of actions are
  interleaved with the action threads, which take the request bodies, spend the windows and reset their streams when
  they are done.  Every event is one locked section.
- **Body senders** (`DataFrames`, `CgiSender`, `FileSender`): the in-place DATA framer for program output, error output
  included, and the loop that sends a slice of a mapped file.
- **Log writer** (`LogFile`): producers, writer threads and the destructor as a transition system whose steps are
  single accesses to shared state, plus the code of the two critical sections.
- **Codecs and engines**: `Sha256` and `Md5` (over `BlockHash`), `WebSocket`, `Chunked` (with `ChunkedCuts`), `Ranges`,
  `UrlCode`, `Base64`.

Code that updates state in place is a class or a loop proved against a function; the results are lemmas about the
functions. The HPACK decoder is a parameter: any function from bytes, dynamic table, earlier fields and settings to a
field list or an error.  Time, sockets and thread scheduling appear as inputs: a sender's turns are a list of grants, a
run is a list of events. Parameters named `dec`, `grants`, `blocked`, `arrivals`, `evs` and `later` are universally
quantified everywhere.

## Where the code and the documents differ

The model follows the code.  Each of these is a lemma that says exactly when the code does what is promised.

- A new SETTINGS_INITIAL_WINDOW_SIZE is added to every window unchecked; windows can pass 2^31 - 1, up to 2^32 - 3
  (`SettingsStaysInRange`, `StreamWindowBoundIsReached`; section 6.9.2 of RFC 7540 asks for a connection error).
- A trailer after DATA queues the action a second time (`DispatchCount`), and two senders on one stream can overdraw
  the connection window: a run of nine moves takes it to -65535 (`TwoOverdraw`).  With any number of senders on any
  stream the reservations stay consistent through a run if and only if every size a sender is about to reserve or
  charge fits in what the other streams' reservations leave of the window (`ConsistentIff`); it always does while no
  stream has two senders (`ApartFits`).  `TwoSendersIff` reads the condition off the two sizes for one order of two
  senders, and `ConnectionWindowSafety` has one sender per stream.
- The frame that ends program output and the error pages (HttpServ.cpp:2039-2043, 1048-1054, 1496-1505) are DATA sent
  without a grant and without a charge.  A run sends 65540 bytes without credit (`BoundIsPassed`).  Such a frame stays
  within the peer's windows if and only if it fits in what a caller can compute beforehand (`UngrantedFitsIff`,
  `FirstUngrantedFitsIff`, `UngrantedFitsStreamIff`); the bound that does hold is `DataBound`.
- After a stream error that keeps the connection, the payload of the offending frame stays in front of the residual;
  which frames can raise one and which leave the next call at a frame boundary is read off the frame
  (`StreamErrorKinds`, `StreamErrorResync`; `ResyncHeaders` for a decoder whose refusals close the connection, as those
  of HPack.cpp do).
- Such an error starts none of the actions queued earlier in the same call; they are never started and stay marked as
  called (`ActionsLostIff`); only a trailer queues them again (`QueuedAgainIff`).
- A stream is reset once its response is complete.  If the request is not, its next DATA or HEADERS frame closes the
  whole connection (`LateDataCloses` is a run).  Nothing else is refused because of the actions: in every run a frame
  is accepted if and only if the receive loop alone accepts it and it is no such frame (`LateFrameIff`).
- An action tests for a reset and then takes the first block without looking whether there is one
  (HttpServ.cpp:2356-2361, 2177-2190).  With one action on the stream, the test passes exactly when no RST_STREAM has
  come (`TestPassesIff`), and the queue is then empty exactly when one has come since, on a stream not opened over
  CONTINUATION (`FrontIsEmptyIff`); with several, exactly when a reset has dropped the queue or all that was put in it
  is taken (`FrontIsEmptyAnyIff`). `ResetCrashes` and `TwoActionsCrash` are runs, `CrashNeeds` says that there are no
  others.
- A padded DATA frame of one byte returns no credit (`DataCreditReturned`).
- A CONTINUATION does not check `:path` and `:scheme`, a HEADERS frame does (`SplitIsReassembled`).
- Whether a reset suppresses a queued action depends on where the reads are cut: exactly when the second read completes
  an RST_STREAM for a stream the first one queued (`DispatchAcrossReads`).
- RST_STREAM is to drop the body of a request that has not ended, but tests HEADER_RECEIVED.  It does what it is meant
  to if and only if nothing is left in the queue or the stream was opened over CONTINUATION exactly if it has ended
  (`ResetDropsBodyIff`, `ResetInRunIff`); `SplitStreamKeepsBody` and `SingleHeadersLosesBody` are runs in which it does
  not.
- The frame builder masks the swapped id with 0xfffffff7, so bit 27 of a stream id is lost (`BuildIsExactIff`).
- Error output of a program is read over the carried bytes.  The body sent is the program's output, whatever the error
  output says, if and only if every piece of it fits in the header gap or comes before any output (`BodyIsOutputIff`).
- An empty slice puts no frame on the wire, so nothing ends its stream (`SliceArrives`).
- SHA-256 writes only 32 length bits (`PaddingIsStandardIff`); MD5's block loop can wrap on inputs near 2^32
  (`WrapReadsPast`).
- A WebSocket text frame without FIN delivers nothing: the first part of a fragmented text message (section 5.4 of RFC
  6455) is lost and the rest arrives as binary data (`PayloadsArriveIff`, `FragmentedTextIsLost`).
- The mask of a WebSocket frame restarts at every read (`SplitPayloadIff`, `EveryKeyIff`).  The size of a written frame
  is a 32-bit sum, so messages of 2^32 - 10 bytes and more run past the array (`WriteData`).
- A chunked reader fed a read that ends inside a size line takes the piece for data and declares the end, and loops for
  ever on a cut line end; it is sound exactly on reads that end between tokens (`ReadsSoundIff`).
- Characters whose UTF-8 starts with E0, with F0 and up, and U+007F vanish from decoded paths (`UrlCode.RoundTripIff`).
- A two-byte Base64 tail with a zero low nibble is cut short and not accepted back (`Base64.RoundTripIff`).

## Model

| member | source | states |
|---|---|---|
| FlowControl.GrantIsExact | HttpServ.cpp:1140-1174 | on a consistent state the critical section grants the smaller of the stream window and what the other streams' reservations leave of the connection window, and reserves exactly that |
| FlowControl.TrimIsExact | HttpServ.cpp:1105-1138 | trimming a grant succeeds exactly with room in the socket queue and a positive grant, takes the least of buffer, rest and grant, and touches no other reservation |
| FlowControl.ChargeIsExact | HttpServ.cpp:1176-1201 | charging releases the reservation and lowers stream and connection window by the bytes sent, keeping the invariant |
| FlowControl.StepKeepsInv | HttpServ.cpp:1105-1216 | every step of every sender and of the receiver keeps the invariant over all streams |
| FlowControl.RunKeepsInv | HttpServ.cpp:1105-1216 | the invariant holds after every run |
| FlowControl.ConnectionWindowSafety | HttpServ.cpp:1105-1216 | in every run the reserved total is the sum of the reservations and lies between 0 and the connection window, and all DATA written on grants stays within 65535 plus the credit received |
| FlowControl.WindowConservation | H2Proto.h:491-504 | in every run each stream window is current initial size plus credit minus bytes charged over any number of SETTINGS changes, the connection likewise from 65535, with the bounds 2^32 - 3 and charged plus reserved at most credit plus the largest initial size in force |
| FlowControl.NoReservationSurvives | HttpServ.cpp:1203-1216 | only a sender between grant and update holds a reservation; when none is there nothing is reserved |
| FlowControl.GrantInEveryRun | HttpServ.cpp:1140-1174 | in every reachable state a sender at its loop head gets all that both windows leave it |
| FlowControl.SettingsStaysInRange | H2Proto.h:491-504 | the windows stay at or below 2^31 - 1 across a SETTINGS frame exactly when the shift leaves the largest one there |
| FlowControl.StreamWindowBoundIsReached | H2Proto.h:491-504 | a run of four frames that takes a stream window to 2^32 - 3 |
| FlowControl.TwoSendersOverdraw | HttpServ.cpp:1105-1201 | two senders on one stream are granted the same window and drive the connection window to its negative |
| FlowControl.TwoSendersIff | HttpServ.cpp:1105-1201 | two senders of one stream, in the order grant, grant, trim, trim, charge, charge, keep the invariant if and only if their two trimmed sizes together are at most the connection window less the other reservations |
| ManySenders.ConsistentIff | HttpServ.cpp:1105-1216 | over every run of any number of senders on any streams: the reservations are consistent throughout if and only if every size reserved by a trim or charged fits, at that moment, in what the other streams' reservations leave of the connection window |
| ManySenders.ApartFits | HttpServ.cpp:1105-1216 | a run in which no stream has two senders at once stays consistent, whatever frames and senders of other streams do |
| ManySenders.TwoOverdraw | HttpServ.cpp:1105-1216 | a run of nine moves in which two senders of one stream take the connection window to -65535 |
| FlowControl.SendWindows.GetStreamWindowSize | HttpServ.cpp:1140-1174 | the method on the shared maps does what GetWindow says |
| FlowControl.SendWindows.SendQueueReady | HttpServ.cpp:1105-1138 | the method on the shared maps does what QueueReady says |
| FlowControl.SendWindows.UpdateStreamParam | HttpServ.cpp:1176-1201 | the method on the shared maps does what Charge says |
| FlowControl.SendWindows.CleanUpReservation | HttpServ.cpp:1203-1216 | the method on the shared maps does what Release says |
| FlowControl.SendWindows.ApplyInitialWindowSize | H2Proto.h:491-504 | every stream window but the connection's is shifted by the difference of the initial sizes, or the value is refused |
| FlowControl.SendWindows.ApplyWindowUpdate | H2Proto.h:570-597 | the increment is added, or the frame refused when the window would pass 2^31 - 1 |
| UngrantedData.PeerWindowIs | HttpServ.cpp:2039-2043 | in every run what the peer still allows on the connection is the connection window less the bytes written and not yet charged, less everything written without a grant, plus what was charged for frames a reset kept back |
| UngrantedData.PeerStreamWindowIs | HttpServ.cpp:2039-2043 | the same for every stream |
| UngrantedData.DataBound | HttpServ.cpp:1048-1054 | in every run all DATA written stays within 65535 plus the credit, plus ten bytes for each ending of program output, plus the pages; and so on every stream |
| UngrantedData.UngrantedFitsIff | HttpServ.cpp:2039-2043 | an ungranted frame of n bytes stays within the peer's connection window if and only if n fits in the window less the bytes in flight and the ungranted bytes so far, plus the bytes charged and never written |
| UngrantedData.FirstUngrantedFitsIff | HttpServ.cpp:2039-2043 | the first one: if and only if n is at most the connection window less the bytes in flight |
| UngrantedData.UngrantedFitsStreamIff | HttpServ.cpp:1048-1054 | the same condition on the stream's own window |
| UngrantedData.BoundIsPassed | HttpServ.cpp:2039-2043 | a run of eight events that puts 65540 bytes on the wire without credit and takes the peer's window to -5 |
| Http2Frame.ParseWire | H2Proto.h:197-212 | every header with a 24-bit length and a 31-bit id is read back from its nine bytes |
| Http2Frame.WireParse | H2Proto.h:197-212 | nine bytes determine the header and back |
| Http2Frame.BuildReadsBack | H2Proto.h:110-119 | what a peer reads from a built header, for every length and id: the length modulo 2^24 and the id without bit 27 |
| Http2Frame.BuildIsExactIff | H2Proto.h:110-119 | the built header is exact if and only if the length is below 2^24 and the id a 31-bit id with bit 27 clear |
| Http2Frame.CutConsumes | H2Proto.h:197-216 | cutting a buffer consumes 9 + length bytes a frame and leaves the unconsumed suffix |
| Http2Frame.CutWire | H2Proto.h:197-216 | well-formed frames followed by an incomplete one are cut into exactly these frames and that residual |
| Http2Frame.CutAppend | H2Proto.h:197-216 | cutting two pieces through the residual is cutting their concatenation |
| Http2Table.FrameKeepsTable | H2Proto.h:219-653 | every accepted frame keeps the table invariant, has the stated effect on every stream's queue and bits, and queues at most its own stream |
| Http2Table.DataAccepted | H2Proto.h:234-288 | what is true of a stream whose DATA frame is accepted, and the state after it |
| Http2Table.HeaderBlockAccepted | H2Proto.h:349-402 | what an accepted complete header block changes: fields, bits, the open-block flag, the end marker and the queued action |
| Http2Table.HeadersAccepted | H2Proto.h:290-405 | the three ways a HEADERS frame is accepted, and the block it passes on: the payload without pad length, priority fields and padding |
| Http2Table.ContinuationAccepted | H2Proto.h:598-653 | what an accepted CONTINUATION changes |
| Http2Actions.RunKeepsSys | H2Proto.h:219-653 | the table invariant, the marks of queued streams and the order of dispatch hold after every run of frames, stream errors, dispatches and steps of actions |
| Http2Requests.RequestBody | H2Proto.h:234-288 | in every run, actions included, what was put in a body queue is the DATA payloads without padding, in order, with their total as received count; one end marker at most, last, and only on an ended stream; what the actions took is a front of it |
| Http2Requests.BitsOnlyGrow | H2Proto.h:219-230 | whatever frames and actions do, streams stay in the table and, stream 0 aside, no state bit is cleared |
| Http2Requests.TableShape | H2Proto.h:219-230 | keys are 0 or odd, and an open block marked on stream 0 is open on some other stream |
| Http2Requests.DispatchCount | H2Proto.h:282-286 | a stream is queued at most twice, twice if and only if an END_STREAM trailer was accepted after DATA, at least once if and only if its bit says so |
| Http2Requests.RunDetermines | H2Proto.h:219-653 | in every run header bits, end bit and everything put in the body queue are those the accepted frames determine; the queue is what was not taken, or nothing once an RST_STREAM has dropped it |
| Http2Requests.ResetIff | HttpServ.cpp:1076-1085 | a stream is reset if and only if an RST_STREAM for it was accepted or an action of it is done |
| Http2Bits.ResetDropsBodyIff | H2Proto.h:442-448 | an accepted RST_STREAM drops the queue exactly when the request has not ended, if and only if the queue is empty or HEADER_RECEIVED agrees with the end bit |
| Http2Requests.ResetInRunIff | H2Proto.h:442-448 | over runs, for the queue the actions have left: if and only if it is empty or the stream was opened over CONTINUATION exactly if it has ended; else it is kept, or a complete body is lost |
| Http2Cases.SplitStreamKeepsBody | H2Proto.h:442-448 | a run of HEADERS, CONTINUATION, DATA and RST_STREAM, all accepted, that keeps the block of an unfinished request |
| Http2Cases.SingleHeadersLosesBody | H2Proto.h:442-448 | a run of HEADERS, last DATA frame and RST_STREAM, all accepted, that drops a complete body |
| Http2Bodies.BodyReader | HttpServ.cpp:2346-2392 | in every run the only action of a stream gives its program DATA payloads in order, none twice and none left out, and holds what it has taken beyond; once it holds the end marker the program was given the whole body of an ended request |
| Http2Bodies.OnlyWithoutTrailer | H2Proto.h:282-286 | without a trailer behind DATA a stream has at most one action |
| Http2Bodies.TestPassesIff | HttpServ.cpp:2356 | the test in front of the first item passes if and only if no RST_STREAM was accepted for the stream |
| Http2Bodies.FrontIsEmptyIff | HttpServ.cpp:2356-2361 | an action about to call front() meets an empty queue if and only if an RST_STREAM was accepted for its stream, which was not opened over CONTINUATION |
| Http2Bodies.FrontIsEmptyAnyIff | HttpServ.cpp:2356-2361 | the same for any number of actions on the stream: if and only if a reset has dropped the queue or everything pushed has been taken |
| Http2Bodies.CrashNeeds | HttpServ.cpp:2356-2361 | in any run an action that has met an empty queue has a stream that was so reset or has got a trailer after DATA |
| Http2Bodies.ReaderFinishes | HttpServ.cpp:2346-2392 | from every run, if the body is complete and the stream not reset, its only action alone passes on all the rest and stops at the end marker |
| Http2Cases.ResetCrashes | HttpServ.cpp:2356-2361 | a run in which an RST_STREAM comes between test and front() |
| Http2Cases.TwoActionsCrash | HttpServ.cpp:2356-2361 | a run without any reset in which the second action of a stream finds the queue emptied by the first |
| Http2Interference.BehindFrame | H2Proto.h:219-653 | of two connections that differ only in what actions do, both make the same of every frame, refusals and stream errors included, unless it is DATA or HEADERS for a stream reset on the second only, which then closes the connection |
| Http2Interference.ActionsStayBehind | H2Proto.h:219-653 | over every run, stream errors and spent windows included, the receive side alone takes all the frames too and has the same windows, settings, dynamic table, answers, queued actions, header blocks and pushed bodies |
| Http2Interference.AloneIsFrames | H2Proto.h:219-653 | without stream errors and bytes sent, the receive side alone is the run of the accepted frames |
| Http2Interference.LateFrameIff | HttpServ.cpp:1076-1085 | in every run a frame is accepted if and only if the receive side alone accepts it and it is not DATA or HEADERS for a stream with a finished action; such a frame then closes the connection, and every other has the outcome it has alone |
| Http2Cases.LateDataCloses | HttpServ.cpp:1076-1085 | a run in which the next DATA frame after an early response closes the connection |
| Http2Feed.LoopRunsTheFrames | H2Proto.h:197-216 | the loop over a buffer is the run of the frames cut from it |
| Http2Feed.FragmentationIndependence | HttpServ.cpp:342-359 | however the bytes are split into reads, table, settings, dynamic table, queued actions, answers and residual are those of one read |
| Http2Feed.FramesArrive | HttpServ.cpp:342-359 | well-formed frames and an incomplete rest, split anyhow, run frame by frame and leave the rest |
| Http2Feed.StreamErrorResync | H2Proto.h:681-752 | after a stream error that keeps the connection the next call starts at a frame boundary if and only if the frame is a HEADERS frame of its optional fields alone, an empty CONTINUATION, or an empty padded DATA frame at the very end of the read |
| Http2Faults.StreamErrorKinds | H2Proto.h:681-752 | the frames and faults that keep the connection: oversized DATA, self-dependent HEADERS and PRIORITY, an overflowing WINDOW_UPDATE, a CONTINUATION for a started stream, or what the decoder raised; and the payload bytes each has consumed |
| Http2Feed.ResyncHeaders | H2Proto.h:304-327 | with a decoder whose refusals close the connection: if and only if the HEADERS payload is its pad length field and its five priority bytes |
| Http2Faults.StreamErrorState | H2Proto.h:681-752 | such an error leaves the connection as it was if the decoder's refusals close it; else what the decoder made of dynamic table and fields stays, and a block refused on its last CONTINUATION has grown by that fragment |
| Http2Dispatch.DispatchAcrossReads | H2Proto.h:669-676 | two reads, with any activity of the actions in between, start the same actions as one if and only if, of the streams the first read queued, the frames completed by the second reset none that was not reset before |
| Http2Dispatch.ActivityIsActed | HttpServ.cpp:1076-1085 | any sequence of steps of any actions is an activity in this sense: bodies are taken from the front, windows shrink, streams of called actions are reset, and nothing else changes |
| Http2Dispatch.ActionsLostIff | H2Proto.h:669-682 | of the actions queued in a call that ends in a stream error none is started in any continuation, and their streams stay marked; one was due if and only if its stream had neither an RST_STREAM nor a finished action |
| Http2Dispatch.DispatchStarts | H2Proto.h:669-676 | a call that ends in good order starts exactly the actions due |
| Http2Dispatch.StartingIff | HttpServ.cpp:2953-2958 | the dispatch ends in WRONG_HEADER if and only if a stream to be started has a field `:status`, with the actions ahead of it started |
| Http2Dispatch.StartingEnds | HttpServ.cpp:2953-2958 | the actions started are the due ones ahead of the first stream, not reset, with a field `:status`; all due ones if there is none |
| Http2Dispatch.QueuedAgainIff | H2Proto.h:282-286 | a stream marked as called is queued again by a run if and only if the run brings it a trailer |
| Http2Reassembly.SingleFrame | H2Proto.h:349-402 | what one HEADERS frame of a new highest stream makes of its block |
| Http2Reassembly.SplitRun | H2Proto.h:598-653 | HEADERS and any number of CONTINUATIONs call the decoder once, on the joined fragments |
| Http2Reassembly.SplitIsReassembled | H2Proto.h:290-405 | a split block is refused with the whole one or goes through, and agrees with it in everything but the HEADER_RECEIVED bit if and only if its fields are acceptable to a single frame |
| Http2Windows.FrameIsFlowStep | H2Proto.h:491-597 | refinement: an accepted frame moves windows and initial size by its flow-control events and by nothing else |
| Http2Windows.DataCreditReturned | H2Proto.h:253-258 | the answers to DATA return the whole payload to stream and connection if and only if it is not a padded single byte |
| Http2Receiver.Receiver.DataFrame | H2Proto.h:234-288 | the in-place method has the outcome and new state of OnData and leaves the cursor behind the frame |
| Http2Receiver.Receiver.HeadersFrame | H2Proto.h:290-405 | the same for OnHeaders, padding and priority fields included |
| Http2Receiver.Receiver.ContinuationFrame | H2Proto.h:598-653 | the same for OnContinuation |
| Http2Receiver.Receiver.SettingsFrame | H2Proto.h:454-519 | the same for OnSettings, setting by setting |
| Http2Receiver.Receiver.ShortFrame | H2Proto.h:407-453 | the same for PRIORITY, RST_STREAM, PUSH_PROMISE, PING, GOAWAY, WINDOW_UPDATE and unknown types |
| Http2Receiver.Receiver.OneFrame | H2Proto.h:219-658 | the checks before the switch and the switch |
| Http2Receiver.Receiver.StreamProto | H2Proto.h:155-755 | the loop over a buffer, its residual, the actions it starts and the exception of the dispatch are those of Call |
| DataFrames.PeerSeesFrames | H2Proto.h:110-119 | a peer cuts the bytes of DATA frames into exactly the frames sent |
| CgiSender.Sender.SendLoop | HttpServ.cpp:1953-1987 | over any grants the payloads on the wire are a prefix of the data, the rest lies unharmed in the buffer, and every turn let through sends at least a byte |
| CgiSender.Sender.SendOutput | HttpServ.cpp:1948-1991 | one call sends all but the last bytes, ten at most, which it moves to the front |
| CgiSender.Sender.ReadAndSend | HttpServ.cpp:2400-2409 | payloads sent followed by the carried bytes are all bytes produced, after every completed call |
| CgiSender.Sender.AfterCgi | HttpServ.cpp:2035-2045 | the carried bytes leave in the only frame with END_STREAM, and the payloads are the output |
| CgiSender.Sender.Respond | HttpServ.cpp:2394-2430 | for any reads of output and error output and any grants: the payloads are a prefix of Produced, all of it when the turns suffice, ended once |
| CgiSender.Sender.ReadErrorOutput | HttpServ.cpp:2410-2413 | error output overwrites the start of the same buffer: the bytes produced become Spoiled of them, and the sender stays consistent with that |
| CgiSender.CarrySurvivesErrorOutput | HttpServ.cpp:2410-2413 | error output leaves the carried bytes alone if and only if it fits in the header gap or nothing is carried |
| CgiSender.BodyIsOutputIff | HttpServ.cpp:2394-2430 | over whole responses the body sent is the program's output, whatever the error output says, if and only if each piece of error output is at most nine bytes or comes before any output |
| CgiSender.SettledForGood | HttpServ.cpp:2394-2430 | what is no longer carried after some reads is a prefix of the body of all reads |
| CgiSender.ResponseOnTheWire | HttpServ.cpp:2035-2045 | the peer's frames carry the payloads in order and only the last one ends the stream |
| FileSender.Slice.SendSlice | HttpServ.cpp:2893-2918 | the loop puts exactly the frames the turns allow on the wire |
| FileSender.PlanDelivers | HttpServ.cpp:2893-2918 | for every list of turns: payloads are a prefix of the slice in frames of 1 to the limit, END_STREAM stands on the frame that completes a non-empty slice and on no other, and every turn let through advances |
| FileSender.SliceArrives | HttpServ.cpp:2893-2918 | with as many turns as bytes the peer gets the slice, ended on the last frame; nothing is sent for an empty slice |
| LogFile.StepKeeps | LogFile.cpp:53-172 | every access by any producer, writer or destructor keeps mutual exclusion, one writer, no lost wake-up and the message account |
| LogFile.WriterAdvances | LogFile.cpp:140-170 | with no producer or destructor inside, the active writer's next step is enabled and makes progress |
| LogFile.WaitingMeansRunning | LogFile.cpp:132-172 | over every interleaving, mutex free and list not empty means a writer is running, and no two writers are at work |
| LogFile.EveryMessageOnce | LogFile.cpp:132-172 | file, message in flight and list are the messages pushed, in order and once each, if and only if no failed open has cleared the list; otherwise each message is in the file, in order, or was cleared, or is waiting |
| LogFile.DestructorWaits | LogFile.cpp:53-63 | the destructor leaves if and only if every message has come to its end and every writer thread is done |
| LogFile.ListDrains | LogFile.cpp:132-172 | from every reachable state with no producer or destructor inside, the writer alone empties the list, into the file unless an open has failed |
| LogFile.Log.StartWriteThread | LogFile.cpp:132-139 | the message is appended and a thread started exactly when none runs |
| LogFile.Log.WriteThread | LogFile.cpp:140-171 | the thread writes what was waiting and what arrives meanwhile, in order, then clears the flag with an empty list |
| BlockHash.AbsorbAppend | CommonLib/sha256.cpp:96-115 | absorbing two runs of blocks is absorbing their concatenation |
| BlockHash.GrowBlocks | CommonLib/sha256.cpp:96-115 | an update that completes the buffered block absorbs that block and all whole blocks behind it, and the rest is the new tail |
| Sha256.SHA256.Transform | CommonLib/sha256.cpp:50-80 | the schedule and the 64 rounds on arrays are the compression of section 6.2.2 of FIPS 180-4, block by block |
| Sha256.SHA256.Update | CommonLib/sha256.cpp:96-115 | after any updates `m_h` has absorbed all whole blocks of the concatenation and `m_block` holds its tail |
| Sha256.SHA256.Final | CommonLib/sha256.cpp:117-128 | the digest is that of the message with the code's padding, and of FIPS 180-4 below 2^29 bytes |
| Sha256.PaddingIsStandardIff | CommonLib/sha256.cpp:117-128 | the padding is that of section 5.1.1 if and only if the message is shorter than 2^29 bytes |
| Sha256.Sha256Of | CommonLib/sha256.cpp:130-138 | the digest of a whole input is SHA-256 of it below 2^29 bytes |
| Md5.StepIsMacro | CommonLib/md5.cpp:61-98 | a line of the round tables is one call of FF, GG, HH or II |
| Md5.MD5.Round1 | CommonLib/md5.cpp:168-184 | the unrolled calls of round 1 are steps 1 to 16 of section 3.4 of RFC 1321 |
| Md5.MD5.Round2 | CommonLib/md5.cpp:186-202 | the same for steps 17 to 32 |
| Md5.MD5.Round3 | CommonLib/md5.cpp:204-220 | the same for steps 33 to 48 |
| Md5.MD5.Round4 | CommonLib/md5.cpp:222-238 | the same for steps 49 to 64 |
| Md5.CarryIsExact | CommonLib/md5.cpp:258-261 | the two counter words hold eight times the bytes modulo 2^64, carry included |
| Md5.ShortNeverWraps | CommonLib/md5.cpp:275-277 | no length below 2^32 - 64 wraps |
| Md5.WrapReadsPast | CommonLib/md5.cpp:275-277 | the 32-bit loop condition stops at the end of the input if and only if the last index plus 64 does not wrap |
| Md5.MD5.Update | CommonLib/md5.cpp:253-286 | counter, buffer and state follow from the concatenation alone, however it was split |
| Md5.MD5.Finalize | CommonLib/md5.cpp:300-333 | the digest is that of RFC 1321, and a second call changes nothing |
| WebSocket.Reader.WriteData | WebSocket.cpp:237-263 | the frame fits in the array if and only if the message is shorter than 2^32 - 10 bytes; then the array is the unmasked final text frame of section 5.2 of RFC 6455, in all three length encodings |
| WebSocket.HeaderIsReadBack | WebSocket.cpp:97-108 | the reader takes from the wire exactly the header that was written, whatever follows |
| WebSocket.FrameIsRead | WebSocket.cpp:83-182 | one frame at the front of a read is delivered whole and the rest is read as if on its own |
| WebSocket.FramesAreRead | WebSocket.cpp:83-182 | a read of whole frames delivers the unmasked payloads of all but text frames without FIN, in order, and leaves the reader waiting for a header |
| WebSocket.PayloadsArriveIff | WebSocket.cpp:131-166 | all payloads arrive if and only if no text frame without FIN carries anything |
| WebSocket.FragmentedTextIsLost | WebSocket.cpp:131-166 | of a text message in two frames the first part is lost and the second arrives as binary data |
| WebSocket.SplitIsRead | WebSocket.cpp:111-166 | a binary or continuation frame split over reads delivers one block a read |
| WebSocket.SplitPayloadIff | WebSocket.cpp:113-120 | the blocks concatenate to the payload if and only if the frame is unmasked or the key repeats at every block start |
| WebSocket.EveryKeyIff | WebSocket.cpp:113-120 | for every key, if and only if every block that carries anything starts at a multiple of four |
| WebSocket.Reader.OnDataReceived | WebSocket.cpp:83-235 | the loop unmasks in place and delivers what Read says |
| Chunked.HexRoundTrip | HttpServ.cpp:1969-1972 | a size written in upper-case hexadecimal is parsed back |
| Chunked.SizeLineIsRead | HttpFetch.cpp:455-468 | a written size line is matched as a whole with its number |
| Chunked.PendingIsWire | HttpServ.cpp:1967-1980 | the tokens of a body are its bytes on the wire, carry its octets and name the end once |
| Chunked.ChunkedRoundTrip | HttpFetch.cpp:453-514 | for all chunks and all reads of whole tokens the reader terminates with its counters at zero, having delivered exactly the body and one end marker |
| ChunkedCuts.SizePart | HttpFetch.cpp:455-482 | a proper piece of a size line passes as data and declares the end |
| ChunkedCuts.ReadsSoundIff | HttpFetch.cpp:453-514 | for every way of cutting the wire into reads: the reader terminates on each and declares the end no earlier than the last size line if and only if no read ends inside a size line or between CR and LF, and then it has delivered the body |
| Chunked.Fetch.DatenEmpfangen | HttpFetch.cpp:453-514 | the goto loop on the two counters delivers what AtHeader says, or is stuck when it is |
| Chunked.SendChunked | HttpServ.cpp:1953-1987 | each read of the program's output is cut on its own into full blocks of 0x4000 and a rest; the wire holds their chunks, and the terminator if and only if the turns suffice for every read, and then the chunks carry the whole output |
| Ranges.SortKeeps | HttpServ.cpp:2471 | the sorted list is ordered and a permutation |
| Ranges.Normalise | HttpServ.cpp:2471-2493 | for two or more ranges: 416 if and only if some input range is empty, backwards or starts behind the file; otherwise ordered ranges with gaps that cover the same positions, read as half-open or closed |
| Ranges.NormalFormIsUnique | HttpServ.cpp:2471-2493 | ordered ranges with gaps that serve the same positions are the same list, so order and overlap of the request do not matter |
| UrlCode.UrlEncode | CommonLib/UrlCode.cpp:8-32 | the loop emits the encoding octet by octet |
| UrlCode.CharIsFed | HttpServ.cpp:1296-1330 | what the octets of one character do to the pending state and the path |
| UrlCode.DecodesAsExpected | HttpServ.cpp:1277-1338 | for every text: control characters are refused, characters that do not survive vanish, the first question mark starts the query |
| UrlCode.RoundTripIff | HttpServ.cpp:1277-1338 | decoding the encoded UTF-8 of a text gives it back with an empty query if and only if every character is U+0020 to U+007E without the question mark, U+0080 to U+07FF or U+1000 to U+FFFF |
| UrlCode.DecodePath | HttpServ.cpp:1277-1338 | the loop of the request handler is Decode, with the pending character and count as state |
| Base64.FindIsInverse | CommonLib/Base64.h:9-10 | looking a character up in an alphabet gives the sextet it stands for, and nothing for any other character |
| Base64.MasksAreGroup | CommonLib/Base64.h:26-29 | masks and shifts give the sextets of the 24-bit group |
| Base64.CodedIsStandardIff | CommonLib/Base64.h:15-49 | the output is the encoding of sections 4 and 5 of RFC 4648 if and only if no tail is cut |
| Base64.RoundTripIff | CommonLib/Base64.h:15-97 | in both alphabets Decode gives back what Encode took if and only if the length modulo 3 is not 2 or the last low nibble is not 0; else the empty string |
| Base64.Encode | CommonLib/Base64.h:15-49 | the loop over the input emits Coded |
| Base64.Decode | CommonLib/Base64.h:51-94 | the loop over the text yields Decoded, errors included |

## Left out

- HPACK coding and dynamic tables: HPack.cpp is not part of this model; the decoder is a parameter and does not change
  settings.
- Frames behind a GOAWAY or PUSH_PROMISE in the same buffer: the run ends there.
- Reads outside a payload (empty padded frames, padding longer than a fragment, short priority fields): outcome
  `Undefined`.
- What an action does between its locked sections, and its unlocked reading of the header fields a trailer may be
  replacing.
- A block of which the program takes only a part counts as not passed on.
- An action that takes an item between two pushes of one frame, or between mark and clearing of a reset: it has the
  same effect behind or ahead of the frame, since it takes from the front.
- Responses to Expect beyond their order.
- h2c upgrade and the HTTP/1.x use of the stream table, whose ids are table sizes.
- zlib and brotli senders, TLS, sockets, timers, process spawning, file mapping, configuration, authentication,
  rewriting.
- CGI header parsing and the response header block in front of the body.
- Ending: an ungranted frame is one write outside the sender's loop; the page's own header block is not part of the
  model.
- Conformance of a single range to RFC 7233, and the numbers and regular expression in front of the merge loop.
- OnDataReceived: headers cut by the end of a read and text frames split over reads use bytes beyond the read and end
  the model; so do opcodes 3 and up. Casts of lengths to 32 bits are not modelled: payloads are below 2^32 bytes.
- DatenEmpfangen: the clamp of strtol above 2^63 - 1 and the content-length comparison are not modelled.
- Update: lengths are those of buffers that exist; 64-bit wrap-around of `m_len + len` is not modelled.
- DecodePath: isxdigit is the ASCII one; a plain octet above 7F is widened with its sign, as on Linux.
- WriteData: where the copy runs past the array nothing is said about memory; `fits` is false.
- SendChunked: a stop returns without the terminator, as the code does; the size of a read is not limited.
- Hexadecimal text of the digests.
- Log: message formatting, file names and the map of log files; each write of a message is one step.
