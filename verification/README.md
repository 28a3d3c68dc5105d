# ReplaySorcery, verified

ReplaySorcery keeps the last `recordSeconds` of video and audio in memory and writes them to a
file when asked. This project models the parts of it that carry state from one call to the next,
in Dafny 4.11, and proves what they keep over whole runs.

Verify everything with `dafny verify dfyconfig.toml`.

## What is modelled

**The replay window.** `AudioBuffer` is the circular sample buffer with its byte array, its two
wrapped copies in and out, and the loop that drains a window of it through an encoder.
`AudioRing` is the same ring as a value; `Samples` is the byte level below it (`sampleSize`
strides), `FrameCutting` the list of frames a save owes the encoder, `DrainPlan` what the drain
loop really sends, from any `int` start index on. `PacketBuffer` is the linked list of video
packets with its pool of nodes; `PacketWindow` says what such a list holds after any history of
packets, with any 64-bit timestamps. `Recorder` is a save of both under the audio mutex.

**The two threads.** `Threads` is the step relation of the main thread and the audio thread, with
one step for each access to something shared: the ring (each of its copies and field updates is a
step), its mutex, the silence counter and the mutex of that. What devices, encoders, the output and
the user do is chosen by the events of a run. `ThreadSafety`, `ThreadSilence` and `ThreadRuns`
prove what every interleaving keeps. `ThreadAccounts` and `ThreadSaves` settle a run's accounts:
what devices, encoders and the user gave, told by the events alone, against what the threads made
of it. `SilenceLog` is `rsLogSilence` on its own.

**The KMS service.** `KmsProtocol` is client and server as two processes over two first-in
first-out channels, `KmsLockstep` proves that they stay in step and that the remote device refines
the local one, `KmsEndpoints` is the code of one frame at either end.

**The configuration parser.** `ConfigParser` cuts one character buffer into lines, keys and values
by writing NULs into it. `ConfigText` is the pure parser it is proved equal to, what each of its
lines means character by character, its printer, and the round trip.

**Utilities.** `ScaleSize` is the aspect-preserving scaling, `Directory` the recursive directory
creation that edits its path in place, `CLib` the arithmetic of C and of libavutil they rest on.

## How to read it

Code that changes things step by step is imperative here too: classes with the source's fields,
loops with invariants, arrays written in place. Each such method is proved against a function or
predicate on values, and the lemmas about those carry the promises. `int` is unbounded; where the
source converts to a 32-bit `int` the conversion is the function `CLib.ToInt32`, and the 64-bit
subtractions of timestamps are `CLib.Minus64`, which wraps around. Return values are the source's
integers, negative for an error. A call into a library that may fail is a method whose body picks
its outcome freely, so every error path is covered; only an object whose constant `reliable` is set
grants every request, and with such objects around them the operations are proved to succeed. Where
adding a frame or saving may reach
something C does not define (a division by zero, a slot outside the ring), the method ends with its
out-parameter `undefined` set and the step relation with the thread in `ATrapped` or `MTrapped`; no
contract excludes it.

Where the source and a plausible promise about it part, the exact condition is proved:

- The audio save cuts its start index to an `int`. It is defined to its end exactly when that
  index may start a drain (`DrainPlan.MayStartAt`; always when it is not negative), and the encoder
  gets exactly the window it is owed exactly when the uncut index fits an `int` or, cut, still
  lies behind the window (`DrainPlan.PlanIsOwed`). After thirteen and a half hours of uptime at
  44100 Hz with no audio frame yet, a save divides by zero (`ThreadRuns.LongUptimeTraps`).
- The main thread adds a blank packet when its encoder fails with anything but EAGAIN. The window
  of that packet wraps around in 64 bits, the add drops every packet including its own, `head` is
  left on a pooled node, and no packet is ever live again (`PacketWindow.BlankLosesAll`). The exact
  condition for an add to do so is `PacketWindow.Empties`, for a run `PacketWindow.LostExactly`.
- A frame that the KMS server's device delivers with a negative timestamp reaches the recorder as a
  failure whose code is the timestamp cut to an `int`; a frame without a timestamp even as a success
  without a frame (`KmsLockstep.RemoteRefinesLocal`, `KmsProtocol.NoTimestampLooksLikeSuccess`).
- A device name reaches the server intact exactly when it is shorter than 256 bytes
  (`KmsLockstep.DeviceNameArrives`).
- Directory creation reports success when the directory part of the path is an existing regular
  file (`Directory.FileCountsAsDirectory`), and can never succeed for a file directly in the root
  (`Directory.DirectoryCreate`).
- The side that scaling derives keeps the aspect ratio exactly when it fits an `int`
  (`ScaleSize.ScalingKeepsShape`). When a side is derived, scaling a scaled size again is defined
  exactly for a configured side of at least 2 and a derived one that is not negative, since a
  configured side of 0 or 1 leaves a zero to divide by. It then changes nothing exactly when the
  configured side is even, or the derived one less than one and a half times the configured one
  less one (`ScaleSize.ScalingTwice`): 3 is stable for a size of 3 x 3 and drifts for one of
  2 x 200 (`ScaleSize.OddSideExamples`).
- A save whose first key frame lies before time zero writes nothing and returns that time cut to
  an `int`. So a return value that is not negative means that everything was saved, except exactly
  when that cut time is not negative (`Recorder.RSRecorder.SaveStreams`); for a start at
  -4294967296 it reports 0 (`Recorder.RSRecorder.SaveFromBeforeZero`).
- A captured frame longer than the ring takes in two copies is written past its end
  (`AudioRing.AcceptsExactly`); destroying a packet buffer frees every node exactly unless packets
  were added after all were lost (`PacketBuffer.RSBuffer.Destroy`).

## Assumptions

- `recordSeconds >= 1`, sample rate, channel count and bytes per sample `>= 1`, an encoder frame
  size `>= 1`; `recordSeconds <= 2147`, a ring of less than 2^30 samples and less than 2^31 bytes,
  so that the products and sums the source computes in `int` fit.
- An encoder asks for no more input after a flush and reports the end of its stream only after one;
  between two inputs it produces finitely many packets.
- `av_rescale` rounds to the nearest integer, halves away from zero.
- 64-bit subtraction wraps around in two's complement.
- The byte in front of the configuration text is no white space.

## Model

| member | source | states |
|---|---|---|
| CLib.RescaleNearest | src/util.c:113-119 | `av_rescale` as used here is off the exact quotient by at most half a unit, halves away from zero |
| Samples.ChunkSplice | src/audio/abuffer.c:25-33 | copying bytes with `sampleSize` strides copies whole samples: byte offsets and sample offsets tell the same story |
| Samples.FlattenChunk | src/audio/abuffer.c:25-33 | the samples of a byte buffer laid end to end are its bytes, so nothing proved on samples loses bytes |
| Samples.FlattenLast | src/audio/abuffer.c:25-33 | the newest samples of a history are the newest `n * width` bytes of it |
| Samples.Copy | src/audio/abuffer.c:25-33 | `audioBufferCopy`: the destination's samples become the splice of old and copied ones, a negative count changes nothing |
| Samples.CopyWrapped | src/audio/abuffer.c:67-70 | the two copies out of the ring fill a frame with the slots from `bufIndex` on, continuing from slot 0 behind the last used slot |
| AudioRing.NotFullMeansIndexIsSize | src/audio/abuffer.c:106-113 | the hidden invariant: while the ring is not full the write index equals the size |
| AudioRing.AcceptsExactly | src/audio/abuffer.c:107-111 | the first copy always stays in the ring, the second for exactly the frames of at most `2 * capacity - index` samples, and then the index sum fits an int |
| AudioRing.AddAppends | src/audio/abuffer.c:106-113 | adding a frame appends its samples to the history the ring stands for, also for a frame longer than the ring whose second copy overwrites its first |
| AudioRing.ReadAtIsWindow | src/audio/abuffer.c:66-70 | reading modulo the size what was written modulo the capacity gives the i-th oldest kept sample |
| AudioRing.ReadFrameIsWindow | src/audio/abuffer.c:66-70 | the two-piece copy gives `n` consecutive samples of the window |
| AudioRing.RunKeepsNewest | src/audio/abuffer.c:106-116 | over every run of frames the ring reads back exactly the last min(total, capacity) samples, and its end time is that of the last frame |
| AudioRing.RunKeepsNewestBytes | src/audio/abuffer.c:25-33 | the same in bytes: over every run the ring reads back the newest bytes of all frame buffers that arrived, `size * width` of them |
| AudioRing.CapturedAt | src/audio/abuffer.c:113 | for any frames: when each sample was captured, counted back from the end of the last frame by the samples and the gaps that followed it |
| AudioRing.DriftBounded | src/audio/abuffer.c:113 | so a capture time is off by at most the sizes of the gaps between the frames |
| AudioRing.WindowTimes | src/audio/abuffer.c:113-142 | with contiguous frames, window position `i` was captured at `endTime - size + i` |
| FrameCutting.CutSendsAll | src/audio/abuffer.c:45-75 | the frames of a save laid end to end are the window: no sample lost or repeated |
| FrameCutting.CutShape | src/audio/abuffer.c:45-75 | one flush, last; every frame but the last full, none empty; each pts counts the samples sent before it |
| DrainPlan.PlanIsCut | src/audio/abuffer.c:45-75 | from a start index that is not negative the loop sends exactly the cut of the window |
| DrainPlan.PlanIsOwed | src/audio/abuffer.c:141-159 | the drain is defined and sends exactly what is owed, the newest samples that lie behind the start, if and only if the uncut start index fits an int or, cut, lies behind the window |
| DrainPlan.OwedSamples | src/audio/abuffer.c:141-159 | what a save owes are the newest samples, `min(size, endTime - start)` of them and none when that is negative |
| DrainPlan.RunsExactly | src/audio/abuffer.c:45-75 | the exact condition under which no turn of the loop overflows, divides by zero or leaves the ring, for every int start index; it holds for every one that is not negative |
| DrainPlan.SlotSumFits | src/audio/abuffer.c:66 | the sum that gives the slot fits an int at every int position in front of the window's end |
| DrainPlan.EmptyRingRuns | src/audio/abuffer.c:66 | with an empty ring the loop is defined exactly for a start index that is not negative |
| DrainPlan.LongUptimeBeforeAudio | src/audio/abuffer.c:141-142 | a concrete start time whose index is negative as an int, so that the first frame divides by zero |
| Codec.Output.Write | src/output.c:147-159 | a packet is appended or, on failure, nothing is; a reliable output does not fail |
| Codec.Encoder.NextPacket | src/encoder/ffenc.c:122-133 | the protocol of an encoder: input wanted only before a flush, end of stream only after one, fewer pending packets after each packet |
| Codec.Encoder.SendFrame | src/encoder/ffenc.c:94-120 | an accepted frame or flush is the next input, the frame object is emptied for reuse |
| AudioBuffer.RSAudioBufferCreate | src/audio/abuffer.c:77-98 | an empty valid ring of `recordSeconds` worth of samples, or, only when memory may be refused, ENOMEM and none |
| AudioBuffer.RSAudioBuffer.AddFrame | src/audio/abuffer.c:106-116 | in place, byte by byte, the ring becomes what `AudioRing.Add` says and stays valid for the longer history, and the frame is emptied; undefined exactly for a frame too long for the ring |
| AudioBuffer.RSAudioBuffer.GetEncoder | src/audio/abuffer.c:35-43 | makes an unused encoder on first use and keeps an existing one; succeeds exactly when there is one afterwards, and always when nothing is refused |
| AudioBuffer.RSAudioBuffer.SendFrame | src/audio/abuffer.c:45-75 | at any int index: sends the frame of the slots found there, or the flush behind the window, or ends as undefined exactly where the access is not defined |
| AudioBuffer.RSAudioBuffer.Feed | src/audio/abuffer.c:150-155 | answering a request moves one entry from what is left to what was sent |
| AudioBuffer.RSAudioBuffer.Drain | src/audio/abuffer.c:143-159 | the loop ends for every encoder and every int start; success means exactly the planned inputs were sent and all packets written, failure a prefix of both; undefined only when the plan is; it succeeds when nothing is refused |
| AudioBuffer.RSAudioBuffer.Write | src/audio/abuffer.c:127-167 | a save sends exactly the plan of the rescaled, cut start and tags its packets; the encoder is gone on every exit; a further save would send the same; it succeeds when nothing is refused |
| AudioBuffer.RSAudioBuffer.PlannedIsOwed | src/audio/abuffer.c:141-142 | for the buffer as it stands: the plan is safe and is what is owed if and only if the start index survives the cut |
| AudioBuffer.RSAudioBuffer.SaveInputsAre | src/audio/abuffer.c:141-159 | for the buffer as it stands: the samples owed are the newest of all ever added, as many as are kept and lie behind the start |
| PacketWindow.LiveIsSuffix | src/buffer.c:92-117 | after any run the live list is a suffix of all packets added |
| PacketWindow.AddEmpties | src/buffer.c:108-115 | an add drops its own packet, and with it the whole list, exactly when the 64-bit window start wraps around and no live packet is as late as that |
| PacketWindow.BlankLosesAll | src/main.c:69-91 | once a blank packet was added to packets with ordinary timestamps nothing is live any more, whatever is added later |
| PacketWindow.LostExactly | src/buffer.c:100-115 | a run ends with no live packet if and only if some add of it emptied the list: after that nothing is ever live again |
| PacketWindow.LiveStartsAtFirstReaching | src/buffer.c:108-115 | the closed form for arbitrary timestamps while packets are live: the suffix starts at the first packet that is as late as the window start of everything added after it |
| PacketWindow.LiveCoversWindow | src/buffer.c:108-115 | while packets are live the first is in the newest packet's window, and nothing was dropped that was not before the window of a packet already added |
| PacketWindow.LiveIsFilter | src/buffer.c:108-115 | with nondecreasing timestamps the list is the filter of the whole history by the window if and only if the window of the first packet does not wrap |
| PacketWindow.SavedVideoStart | src/buffer.c:58-66 | a save is empty exactly when no live packet is a key frame; otherwise its first packet is one, at time zero |
| PacketWindow.SavedVideoIsTranslated | src/buffer.c:135-151 | a save is the live packets from the first key frame on, all else kept, pts and dts moved by one amount exactly where the moved time fits 64 bits |
| PacketWindow.ReplayLength | src/buffer.c:92-151 | with gaps of at most `gap` and a key frame every `period` packets, once something was dropped a save finds a key frame if and only if the first window did not wrap, and then spans more than the window less `period * gap`, at most the window |
| PacketWindow.PeakBounds | src/buffer.c:24-43 | no add of a run needs more nodes than the peak |
| PacketWindow.PeakIsNeeded | src/buffer.c:24-43 | some add of a run needs as many nodes as the peak |
| PacketBuffer.RSBuffer.constructor | src/buffer.c:68-71 | an empty valid buffer with the configured window |
| PacketBuffer.RSBuffer.PacketCreate | src/buffer.c:24-50 | takes the first pooled node, allocates only when the pool is empty, and changes nothing on failure |
| PacketBuffer.RSBuffer.PacketDestroy | src/buffer.c:52-56 | the oldest live node moves to the front of the pool, blank; both lists stay acyclic and disjoint and together hold every node |
| PacketBuffer.RSBuffer.DropOlder | src/buffer.c:108-115 | the removal loop drops exactly the packets up to the first that is not older than the start, each to the front of the pool |
| PacketBuffer.RSBuffer.AppendAdrift | src/buffer.c:100-106 | with `head` on a node that is not live the new node is linked behind it, or to itself, and ends up in neither list |
| PacketBuffer.RSBuffer.AddPacket | src/buffer.c:92-117 | the live list is what the history leaves in the window, `head` stays its last node exactly unless this add empties it, nodes ever allocated equal the peak, a failed allocation changes neither list and happens only with the pool empty and memory refused |
| PacketBuffer.RSBuffer.GetStart | src/buffer.c:58-66 | finds the first live key frame or reports that there is none |
| PacketBuffer.RSBuffer.GetStartTime | src/buffer.c:119-125 | the time of the first key frame, or EAGAIN |
| PacketBuffer.RSBuffer.Write | src/buffer.c:127-157 | success writes exactly the translated live packets, failure a prefix of them; stored packets stay as they are; when nothing is refused it succeeds exactly with a key frame and else returns EAGAIN |
| PacketBuffer.RSBuffer.Destroy | src/buffer.c:73-90 | every node in a list is freed, each once, and that is every node ever allocated if and only if no packet was added after all were lost |
| Recorder.RSRecorder.WriteStreams | src/main.c:118-123 | audio and video are written from the same first key frame on, all audio packets as stream 1, then all video packets as stream 0; undefined only when the audio drain is; it succeeds when nothing is refused |
| Recorder.RSRecorder.SaveStreams | src/main.c:113-129 | a return value that is not negative means everything was saved, except exactly when the start lies before time zero and is not negative as an int |
| Recorder.RSRecorder.SaveFromBeforeZero | src/main.c:114-117 | the input for which a save writes nothing and returns 0 |
| Recorder.RSRecorder.SaveBoth | src/main.c:94-133 | what a save writes for each outcome: no key frame, a start before zero, an undefined drain, success; when nothing is refused the outcome is decided by these alone |
| Recorder.RSRecorder.MainOutput | src/main.c:94-133 | the outcome is that of the save, and the lock flag is clear again unless it was undefined |
| Recorder.RSRecorder.MainOutputVideo | src/main.c:135-157 | without audio, success writes exactly the translated live packets; when nothing is refused it succeeds exactly with a key frame and else returns EAGAIN |
| Recorder.RSRecorder.SavedIsOwed | src/main.c:118 | what a successful save gave the encoder is what it owes if and only if the start index survives the cut |
| Recorder.RSRecorder.SaveIsAligned | src/main.c:113-123 | for the recorder's own buffers and any frames: as many samples are owed as of the kept ones lie behind the video start, the newest; the one owed at audio pts `p` was captured `p` after the video start in samples, or after the window's beginning when that is later, less the gaps between the frames behind it; the packet written at `q` was at `q` after that same start; the start in samples is off by at most half a sample |
| Recorder.RSRecorder.SaveIsAlignedExactly | src/main.c:113-123 | with contiguous frames as many samples are owed, and there is no gap to subtract |
| SilenceLog.Logger.Silence | src/log.c:98-113 | counter and messages change as specified and keep agreeing: level FATAL exactly when the counter is positive, messages strictly alternate |
| Threads.SafeNext | src/audio/abuffer.c:45-116 | in every interleaving each access to the ring hits an existing slot, or the thread is trapped instead |
| ThreadSafety.AudioKeepsRing | src/audio/audio.c:43-45 | each step of an add leaves the ring at a known stage between the old and the new one, and the last gives the ring with the frame added |
| ThreadSafety.DrainKeeps | src/audio/abuffer.c:144-159 | each step of a drain keeps sent plus left equal to the goal and written equal to the encoder's packets; it is trapped only when the save is not safe |
| ThreadSafety.SaveIsOwed | src/audio/abuffer.c:141-142 | a save on the ring of these frames is safe and sends the window they leave if and only if its start index survives the cut |
| ThreadSafety.SaveOfSamples | src/audio/abuffer.c:141-159 | what a save owes after these frames are the newest of their samples, as many as fit the ring and lie behind the start |
| ThreadSafety.RingSafetyNext | src/main.c:94-133 | every step of either thread keeps the mutex discipline, the ring, the save and the shutdown order |
| ThreadSilence.SilenceNext | src/log.c:98-113 | every step of either thread keeps the counter equal to the number of raised threads, with level and messages to match |
| ThreadSilence.ClampNeverCuts | src/log.c:101-102 | the clamp at zero never discards a decrement |
| ThreadSilence.CallIsSilence | src/log.c:98-113 | run without interruption the steps of a call are `rsLogSilence` as specified |
| ThreadRuns.RunKeeps | src/main.c:206-223 | every state that any interleaving reaches satisfies all invariants |
| ThreadRuns.RingChangesUnderMutex | src/audio/audio.c:43-45 | only the audio thread changes the ring, only holding the mutex, never during a save |
| ThreadRuns.SavesAreSnapshots | src/main.c:94-133 | every finished drain was logged by the very save that took the mutex with these frames added and these packets live, between the two the main thread never left its critical section; it started at their first key frame, and the encoder got exactly the window they leave in a ring of the run's capacity if and only if the start index survives the cut |
| ThreadRuns.ReachableStates | src/main.c:225-236 | the critical sections exclude each other, the main thread holds no mutex outside its save, the ring keeps its capacity, the counter is exact, the ring is freed only after the audio thread ended and then the counter is what that thread left, and a save about to close has written the encoder's packets and then the translated video |
| ThreadRuns.SaveProgresses | src/main.c:97-132 | during a save each main step comes closer to the unlock by a lexicographic measure, whatever fails, and leaving the save frees the mutex; the only exception is a trap, and never with a cut start index that is not negative |
| ThreadRuns.NoDeadlock | src/audio/audio.c:28-101 | in every reachable state a thread that has not ended has a step, or waits for the other one, which then has one; only an undefined access stops a thread |
| ThreadRuns.LongUptimeTraps | src/audio/abuffer.c:142 | ten steps from the start to a save that divides by zero |
| ThreadAccounts.AudioAccounts | src/audio/audio.c:30-49 | after any interleaving the frames added are exactly those the audio device delivered, in order, up to the one in hand, and outside an add the ring stands for them |
| ThreadAccounts.ListenAccounts | src/audio/audio.c:30-50 | the device is asked once for every time the recorder was found running, every frame missed or added leads back to the loop, and the thread has ended exactly when it found the recorder stopped |
| ThreadAccounts.PacketAccounts | src/main.c:70-92 | the packets added are exactly those the video encoder handed out, a blank one for each error, in order, up to the one in hand or the last one when its add failed, which ends the loop |
| ThreadAccounts.FrameAccounts | src/main.c:70-92 | the encoder is asked once for every turn and every frame sent, the device once for every EAGAIN, every frame grabbed is sent, and every packet stored or frame missed leads to one look at the controls |
| ThreadAccounts.RequestAccounts | src/main.c:206-223 | every request is served by exactly one save, with audio by one that takes and frees the mutex once; every turn comes back to the loop; the loop is left exactly when there was a reason, once |
| ThreadAccounts.SilenceAccounts | src/main.c:63-83 | each thread counts as silent exactly when the last answer of its device was a failure, apart from the log call in between, the main thread no longer once it has left |
| ThreadAccounts.StopsInOrder | src/audio/audio.c:94-101 | the audio thread is told to stop before it is joined and not before, has not ended while it is to run, and the ring is freed last |
| ThreadSaves.SaveAccounts | src/main.c:113-129 | what a save has written is told by the packets the encoder gave since the mutex was taken: all of them as stream 1, then the video, cut short only where the save is; before the video comes its own finished drain |
| ThreadSaves.SaveSkipsNothing | src/main.c:97-132 | a save goes through its stages one by one, goes to the cleanup when memory, encoder, output or a start time is refused, and leaves only by the unlock |
| ThreadSaves.SavesAreOfAllGiven | src/main.c:94-133 | main theorem on saves: every finished drain is of all frames the audio device had delivered, but the one in hand, and all packets the video encoder had handed out when its save took the mutex |
| KmsProtocol.NoTimestampLooksLikeSuccess | src/device/svkmsdev.c:62-66 | a frame without timestamp is reported as success without a frame |
| KmsLockstep.ServerKeepsStream | src/command/svkmscmd.c:69-98 | what the server sent stays what the client received plus what is in the channel |
| KmsLockstep.ResultsAreGrabbed | src/command/svkmscmd.c:69-76 | what the server streams is what its local device returned to the calls of the loop, all of it and in order; the server has ended exactly when its loop once found the service stopped |
| KmsLockstep.HandshakeCompletes | src/command/svkmscmd.c:47-67 | six steps from the start both sides are ready, with frame rate and parameters exchanged and nothing on its way |
| KmsLockstep.ServerTurn | src/command/svkmscmd.c:69-98 | from the beginning of its loop the server puts the messages of one result into the channel and is back there after two steps, or three for a frame with a timestamp |
| KmsLockstep.ClientTurn | src/device/svkmsdev.c:50-96 | a next-frame call that finds these messages takes exactly them and returns the result |
| KmsLockstep.NextIsPts | src/device/svkmsdev.c:59-61 | the first receive of a call gets the timestamp or code of the server's next result |
| KmsLockstep.NextIsDesc | src/device/svkmsdev.c:68-71 | the second receive gets the descriptor of that very frame |
| KmsLockstep.RemoteRefinesLocal | src/device/svkmsdev.c:50-96 | after any interleaving nobody got a message of the wrong kind and the client's results are those of a prefix of the calls of the server's local device: its error codes, and its frames with all sizes and modifiers exactly where the timestamp is not negative; the local view exactly when no timestamp was negative |
| KmsLockstep.DeviceNameArrives | src/command/svkmscmd.c:49-60 | the frame rate always arrives, the device name exactly when shorter than 256 bytes |
| KmsEndpoints.ServeFrame | src/command/svkmscmd.c:74-97 | one result becomes one message for a failure, two for a frame |
| KmsEndpoints.NextFrame | src/device/svkmsdev.c:50-96 | takes exactly one result's messages and shows its remote view: the same frame, descriptors replaced by the received ones, exactly for a timestamp that is not negative, else the code |
| ConfigText.TrimIs | src/config.c:145-155 | trimming takes exactly the white space around |
| ConfigText.LineMeans | src/config.c:184-207 | for every line, character by character: blank exactly when all before the first '#' is white space, an error exactly when that is not so and holds no '=', else a setting of what stands around the first '=', both sides trimmed |
| ConfigText.LinesAreTokens | src/config.c:180-183 | from every position the lines are those found by reading the text one character after the other |
| ConfigText.LastAssignmentWins | src/config.c:227-250 | the last assignment of a key is the one that counts |
| ConfigText.ParsePrintedLine | src/config.c:182-207 | a printed `key = value # comment` parses to that key and value, also with '=' in the value or an empty value; a printed comment or blank line parses to nothing |
| ConfigText.ParseUndoesPrint | src/config.c:180-215 | parsing a printed list of settings, comments and blank lines gives the settings back, in order, and what follows is parsed as if it stood alone |
| ConfigText.ParseStopsAtError | src/config.c:197-215 | the first line that is no setting, or whose setting is refused, ends the parse with its error: all before it is set, nothing behind it |
| ConfigParser.TrimInPlace | src/config.c:145-155 | in place: one NUL, never behind the string, and never in front of it when no white space is there; the walk back stays in the buffer |
| ConfigParser.CutSetting | src/config.c:205-207 | key and value are cut and trimmed without disturbing each other |
| ConfigParser.CleanLine | src/config.c:184-191 | comment cut and line trimmed, writing only to the line and text already consumed |
| ConfigParser.StrTok | src/config.c:180-183 | yields the next non-empty line and leaves all text behind it as it was |
| ConfigParser.HandleLine | src/config.c:184-215 | one line has the outcome of the pure parse of that line, which `ConfigText.LineMeans` spells out |
| ConfigParser.ParseContents | src/config.c:157-225 | in-place parsing makes exactly the settings of the pure parse, in order, with its error, after which the options are freed |
| ConfigParser.ParseFile | src/config.c:157-225 | a file that cannot be opened is skipped, one that cannot be read frees the options and returns its error |
| ConfigParser.ConfigInit | src/config.c:227-247 | global then local file: the first of a read or parse error and a missing local path gives the return value and what is left of the options; with none of them local settings override |
| ScaleSize.Size.Scale | src/util.c:107-124 | in place: both sides even, a configured side kept on its own axis but for at most 1, both source sides so when none is configured, and equal to the specified size |
| ScaleSize.FollowingSide | src/util.c:113-123 | the derived side keeps the ratio within `-3a < 2(e*a - c*b) <= a` exactly when it fits an int |
| ScaleSize.ScalingKeepsShape | src/util.c:107-124 | the bound for a configured width and, symmetrically, height |
| ScaleSize.ScalingTwice | src/util.c:107-124 | for every configuration and source size: exactly when scaling a scaled size is defined, and exactly when it then changes nothing |
| ScaleSize.OddSideKeeps | src/util.c:113-123 | the odd case: a size `(c - 1, h)` is kept if and only if `2h < 3(c - 1)` |
| ScaleSize.EvenSidesAreStable | src/util.c:107-124 | with even positive configured sides and a derived side that fits an int it always is |
| Directory.StrRChrSlash | src/util.c:30 | finds the last slash of the C string in the buffer |
| Directory.AncestorsAre | src/util.c:27-57 | the directories above a path are exactly what stands before each of its slashes but a leading one |
| Directory.FileSystem.Mkdir | src/util.c:36-38 | the errno of mkdir, with a directory added exactly on success; a name may be refused for any other reason |
| Directory.MkdirSettles | src/util.c:36-51 | an answer other than ENOENT decides whether the directory can be had |
| Directory.MakeableExactly | src/util.c:27-57 | a directory can be had exactly when neither it nor one above it is a file, or is missing and refused |
| Directory.SecondMkdir | src/util.c:43-45 | once the parents exist the second mkdir can only be refused permission |
| Directory.DirectoryCreate | src/util.c:27-57 | success exactly when there is no directory part, or it is a file already, or it can be made; only ancestors are added; the path buffer is restored on every return |
| Directory.CreatedHasAncestors | src/util.c:40-51 | success leaves every directory above the file in place, the nearest of them possibly as a regular file |
| Directory.FileCountsAsDirectory | src/util.c:47 | the directory part is a regular file, and the outcome is success |

## Left out

- AudioBuffer.RSAudioBufferCreate: does not model rings of 2^31 bytes or more, whose byte offsets overflow the `int` in which `audioBufferCopy` computes them, nor of 2^30 samples or more.
- AudioBuffer.RSAudioBuffer.SendFrame: what a program does after an access C does not define is not modelled; such a run ends there.
- Recorder.RSRecorder.SaveIsAligned: gives the capture time also when the audio begins after the video start, in which case the two zeros differ by that lateness and no alignment is claimed; capture times are those the frames' own timestamps tell.
- KmsLockstep.RemoteRefinesLocal: says nothing about file descriptor numbers, since `src/socket.c` hands over at most one of them reliably, and nothing about disconnection, which the receiver does not detect.
- Directory.FileSystem.Mkdir: does not model a missing search permission on a directory that exists, which mkdir would report before it looks further.
- Directory.DirectoryCreate: names are compared as strings, so paths are taken to be normalised (no doubled slashes, dots or links), and no other process changes the tree meanwhile.
- PacketBuffer.RSBuffer.Append: the step that links a node is written once for a `head` in the live list and once, as `AppendAdrift`, for one that is not; the two bodies do the same, and which one runs is decided by a test the source does not make.
- The first frame the KMS server's device grabs and drops while it is created, and a failure of that creation.
- Allocation failures of the frame and packet shells of an audio save, beyond the failing calls shown.
- The shell packet that a video save does not free on success; memory accounting covers list nodes only.
- Use of a packet buffer after it was destroyed: `head` is not reset there.
- The step relation leaves open whether a blocked device call ever returns, so the join at shutdown is shown safe but not to end.
- Options that `av_opt_set` validates against each other: acceptability is a function of key and value.
- FFmpeg, PulseAudio, X11, DRM and libbacktrace calls, encoder and device selection, controls, strftime paths, shell commands, signal handling and the build: foreign code or single-branch glue.
