# Verified models of device_soc_oniro

This project models the parts of device_soc_oniro whose correctness spans several functions, threads or
calls, and proves what they promise.

- **Audio server** (`waydroid/audio`).  PulseAudio's credit flow control as a step system of client, two FIFO
  channels, protocol loop and render thread (`CreditProtocol`), the handlers that make its steps
  (`AudioStream`), the render ring and its two threads (`SinkSpec`, `OhosSink`, `SinkRuns`, `SinkEvents`, and
  `SinkCredit` for how they meet the protocol), the packet layer (`Framing`) and the tagged fields (`PaWire`,
  `TagWriter`, `TagReader`, `TagRoundTrip`).
- **Compositor** (`waydroid/src/wl_server.cpp`).  Who owns each buffer (`BufferBooks`, `BufferRuns`,
  `BufferReturns`, `BufferDisplay`) and which toplevel is activated and shown (`Activation`, `Presence`,
  `ActivationRuns`, `ActivationHistory`, `PresenceRuns`), over every interleaving of the wayland thread, the
  render service (RS) callback thread and the IPC threads.
- **Binder client** (`waydroid/binder`).  The String16 codec and the parcel (`String16`, `Unicode`,
  `ParcelLayout`, `Parcel`, `ParcelRoundTrip`), and the rule that a late reply is never taken for the next
  call's (`BinderScript`, `BinderCall`).
- **SHA-256** of `waydroidd` against FIPS 180-4 (`Sha256`, `WordBits`, `Sha256Constants`, `Sha256Registers`).
- **Tablet to touchscreen** (`Touch`), **HEVC and AVC sessions** (`HevcSession`, `AvcSession`) and the **EXIF
  orientation repair** (`Exif`, `ExifFile`).

`Bytes`, `Arithmetic` and `Sequences` hold what these share.  `dafny verify dfyconfig.toml` checks the whole project.

Objects that the source updates in place are classes, whose methods are proved against functions of the
old state; protocols between threads are step systems (`Enabled`, `Apply`, `Feasible`, `Run`), cut where
the source takes or gives up a mutex.  What comes from outside (reads, writes, polls, codecs, allocation)
is a parameter or a nondeterministic choice.

## What is assumed of the outside

- The audio client counts its credit as libpulse does; nothing is assumed about how much it writes.
- A container client commits valid wlegl buffers that it holds.  RS reports a buffer only between a successful
  Flush of it and the next reset or detach of that window's queue, and not while it has it on screen.  A reset
  keeps what is on screen.
- The binder driver replies only to transactions that were sent on the same connection and not yet answered;
  it may pick any of them.
- The decoder is a pipeline of any depth that gives pictures in the order of its input, all of them
  convertible; flushing it discards what it holds.  The encoder holds back exactly the number of frames that
  was measured.

## Where the code does not do what one might expect

- A read call that gets a full buffer and then meets the end of the stream returns before it parses: a whole
  packet may go unhandled (`Framing.Serve`, `Framing.APacketIsLostAtClose`).
- A corked client that has written its whole target gets no more credit, however long it waits, until it
  uncorks or flushes (`CreditProtocol.CreditComesBackIff`, `CreditProtocol.CorkedClientWaits`).
- A channel volume with no channels is read back as the norm volume (`TagRoundTrip.WriteThenRead`).
- Destroying one shown buffer resets the queue of every attached window.  The other buffers in flight stay in
  the books but RS will not report them (`BufferReturns.ResetAllStrands`); they come back with the next failed
  flush or the detach (`BufferReturns.EveryRecoveryGivesBack`, `EveryDetachGivesBack`).
- Recovering from a failed flush releases the buffer that RS still has on screen
  (`BufferDisplay.ReleasedWhileReadIff`, `BufferDisplay.FailedFlushReleasesWhatIsShown`).  Nothing else does,
  the destruction of buffers included (`BufferDisplay.NeverReleasedWhileRead`).
- A toplevel whose surface is noted only after it was activated is not told that it is on an output; for the
  full desktop no hand-over ever mends that (`PresenceRuns.ShownExactlyWhenActivated`,
  `PresenceRuns.DesktopStaysDark`).
- A pulse to the only toplevel that is shown and activated leaves a moment with none
  (`Presence.ShownHandOverIsNeverDark`).
- A window whose package is literally `*` counts as one for whatever is on top
  (`ActivationHistory.ActivationMirrorsTheFront`).
- A String16 with a zero unit is cut there for a C caller (`String16.UnitsOfCString`).
- The decoder session tells samples apart by address and length: a new sample that has those of an abandoned,
  unconsumed one is not queued (`HevcSession.AbandonedSampleSwallowsTheNext`).
- The copies of an encoder's first frame share its timestamp once fps * (delay + 1) exceeds a million
  (`AvcSession.CopiesFitTheInterval`, `AvcSession.CopiesThatDoNotFit`).
- An access unit that does not fit the caller's buffer counts as returned and is lost; the next call gets the
  next one (`AvcSession.Record`, `AvcSession.Session.Encode`).

## Model

| member | source | states |
|---|---|---|
| `CreditProtocol.CreditIsConserved` | hybris_generic/waydroid/audio/waydroid_audio_main.cpp:241-258 | in every reachable state of client, two FIFO channels, loop and render thread: outstanding = client credit + REQUESTs in flight + data in flight; buffered + outstanding <= tlength; after every handler what was observed buffered + outstanding > tlength - minreq; the 32-bit REQUEST field never truncates |
| `CreditProtocol.NoStall` | hybris_generic/waydroid/audio/waydroid_audio_main.cpp:390-412 | once the channels are empty, the ring is drained and a pump has run since the last pop, the client holds more than tlength - minreq >= 0 bytes of credit, after any history of overdrafts |
| `CreditProtocol.CreditAlwaysComesBack` | hybris_generic/waydroid/audio/waydroid_audio_main.cpp:696-729 | from every reachable state in which the stream is uncorked once everything sent has been received, there is a continuation in which the client only receives and ends up with credit |
| `CreditProtocol.CreditComesBackIff` | hybris_generic/waydroid/audio/ohos_sink.cpp:246-252 | in every reachable state with an idle loop and everything sent received: the client gets credit without sending anything if and only if the stream is uncorked, or outstanding >= 1, or the ring is below tlength and what is owed is at least minreq |
| `CreditProtocol.CorkedClientWaits` | hybris_generic/waydroid/audio/ohos_sink.cpp:246-252 | for all attributes a run in which a corked client writes its whole grant and then no continuation without a send gives it credit |
| `CreditProtocol.OneCommandIsEnough` | hybris_generic/waydroid/audio/waydroid_audio_main.cpp:490-528 | from every reachable state, corked or not, one uncork or one flush command leads to credit |
| `CreditProtocol.WithinCreditNothingIsDropped` | hybris_generic/waydroid/audio/waydroid_audio_main.cpp:401-411 | a client whose writes are covered by its credit never has a byte dropped by Push, whatever the render thread does |
| `CreditProtocol.StepKeepsInv` | hybris_generic/waydroid/audio/waydroid_audio_main.cpp:241-258 | each step of client, loop and render thread keeps conservation, ceiling and floor |
| `CreditProtocol.EveryRunKeepsInv` | hybris_generic/waydroid/audio/waydroid_audio_main.cpp:358-371 | so does every run, from the initial grant of tlength |
| `CreditProtocol.Refill` | hybris_generic/waydroid/audio/waydroid_audio_main.cpp:696-729 | with nothing on its way to the server and the stream uncorked, playing out the ring and one pump give the client credit |
| `CreditProtocol.EmptyUp` | hybris_generic/waydroid/audio/waydroid_audio_main.cpp:377-412 | the loop can always work off what the client has sent; the stream ends corked as the last cork command says, and empty after a last flush |
| `AudioStream.NormaliseIsSane` | hybris_generic/waydroid/audio/waydroid_audio_main.cpp:306-330 | for every request and valid sample specification: a whole frame <= minreq <= tlength <= maxlength <= 16 MiB and prebuf <= tlength |
| `AudioStream.NormaliseKeepsGoodRequests` | hybris_generic/waydroid/audio/waydroid_audio_main.cpp:306-330 | numbers that already fit together are answered unchanged |
| `AudioStream.UnsetMeans` | hybris_generic/waydroid/audio/waydroid_audio_main.cpp:306-330 | an unset target is the whole frames of 200 ms, an unset maximum those of 2 s, an unset request a quarter of the target, an unset prebuf the target; each cut to what the others allow |
| `AudioStream.RegrantIsObserveAndDecide` | hybris_generic/waydroid/audio/waydroid_audio_main.cpp:241-258 | the handlers account as the steps Observe and Decide of the step system do |
| `AudioStream.DataIsDebitAndPush` | hybris_generic/waydroid/audio/waydroid_audio_main.cpp:401-411 | a data packet does to account and ring what the steps Receive and Push do |
| `AudioStream.Stream.constructor` | hybris_generic/waydroid/audio/waydroid_audio_main.cpp:306-371 | a new stream has an open, empty sink of maxlength bytes, corked as the request asks, and a grant of tlength |
| `AudioStream.Stream.MaybeRequest` | hybris_generic/waydroid/audio/waydroid_audio_main.cpp:241-258 | asks for exactly what is missing when that is at least minreq, with one REQUEST of that size; else changes nothing |
| `AudioStream.Stream.Debit` | hybris_generic/waydroid/audio/waydroid_audio_main.cpp:401-411 | write index and account move by the full length, the ring by what Push accepts |
| `AudioStream.Stream.HandleStreamData` | hybris_generic/waydroid/audio/waydroid_audio_main.cpp:377-413 | the account, the ring and the packets sent: OVERFLOW exactly when Push was short, then the REQUEST if one is due |
| `AudioStream.Stream.HandleFlush` | hybris_generic/waydroid/audio/waydroid_audio_main.cpp:507-528 | the ring is emptied, the credit is kept, the command is acknowledged and then the space asked for |
| `AudioStream.Stream.HandleCork` | hybris_generic/waydroid/audio/waydroid_audio_main.cpp:490-506 | the ring is untouched, the command is acknowledged, and the account changes only by what is then asked for |
| `AudioStream.Stream.HandleDrain` | hybris_generic/waydroid/audio/waydroid_audio_main.cpp:544-559 | nothing is answered; the request is remembered with its tag |
| `AudioStream.Stream.Notify` | hybris_generic/waydroid/audio/waydroid_audio_main.cpp:704-725 | STARTED, UNDERFLOW (with the read index from version 23 on) and the drain acknowledgement, in this order, each exactly when due; a drain is acknowledged once |
| `AudioStream.Stream.Pump` | hybris_generic/waydroid/audio/waydroid_audio_main.cpp:696-729 | the events are taken once, counted and told, and then the ring is looked at again |
| `OhosSinks.OhosSink.Push` | hybris_generic/waydroid/audio/ohos_sink.cpp:134-153 | the wrapping array behaves as a sequence: the accepted prefix is appended |
| `OhosSinks.OhosSink.CopyIn` | hybris_generic/waydroid/audio/ohos_sink.cpp:134-153 | the two-part copy fills exactly the free slots behind the contents |
| `OhosSinks.OhosSink.PopLocked` | hybris_generic/waydroid/audio/ohos_sink.cpp:220-231 | the oldest bytes leave in order, across the wrap |
| `OhosSinks.OhosSink.Buffered` | hybris_generic/waydroid/audio/ohos_sink.cpp:155-159 | the number of bytes in the ring |
| `OhosSinks.OhosSink.Flush` | hybris_generic/waydroid/audio/ohos_sink.cpp:161-168 | empties the ring, stops playing and forgets a drain request |
| `OhosSinks.OhosSink.TakeEvents` | hybris_generic/waydroid/audio/ohos_sink.cpp:188-194 | hands the pending events over once |
| `OhosSinks.OhosSink.RenderTurn` | hybris_generic/waydroid/audio/ohos_sink.cpp:240-275 | the decision of one turn under the mutex, pausing included, and the state it leaves |
| `SinkRuns.NothingIsLostOrReordered` | hybris_generic/waydroid/audio/ohos_sink.cpp:134-194 | over every interleaving of the two threads: bytes drawn for the renderer followed by the ring are the accepted bytes without the flushed ones, in order |
| `SinkRuns.BytesAreAccountedFor` | hybris_generic/waydroid/audio/ohos_sink.cpp:220-343 | writeIndex = readIndex + chunk in hand + fill + flushed + dropped; credit taken + pending = readIndex |
| `SinkRuns.DrainComesLast` | hybris_generic/waydroid/audio/ohos_sink.cpp:179-288 | when a drain is taken up, every accepted byte is behind readIndex or was flushed |
| `SinkRuns.EveryRunKeepsInv` | hybris_generic/waydroid/audio/ohos_sink.cpp:233-343 | the invariant behind these holds after every run |
| `SinkEvents.TurnExactly` | hybris_generic/waydroid/audio/ohos_sink.cpp:241-276 | a turn of the render thread after any history: it takes Min(chunk, fill) bytes if the sink is open and was uncorked last, and none otherwise; a wanted drain begins if and only if the ring is empty; a corked sink pauses a running renderer; UNDERFLOW is due if and only if an uncorked sink that was playing, with no drain wanted, is empty |
| `SinkEvents.CorkedIsSilent` | hybris_generic/waydroid/audio/ohos_sink.cpp:246-252 | from a cork to the next uncork no byte is taken for the renderer, whatever else happens |
| `SinkEvents.SinkFollowsHistory` | hybris_generic/waydroid/audio/ohos_sink.cpp:161-195 | in every run the sink is corked as it was set last; a drain is wanted if it was asked for and neither begun nor flushed since; STARTED, UNDERFLOW and DRAINED are pending if and only if the first write of a stretch, an empty ring or the end of a drain has not been told yet |
| `SinkEvents.FinishExactly` | hybris_generic/waydroid/audio/ohos_sink.cpp:278-345 | a chunk that was taken is written, a drain that was begun has ended; ring and read index move accordingly |
| `SinkCredit.TurnIsPop` | hybris_generic/waydroid/audio/ohos_sink.cpp:241-276 | a turn that takes n bytes is the step Pop(n) of the credit protocol; any other leaves its state alone |
| `SinkCredit.PopIsTurn` | hybris_generic/waydroid/audio/ohos_sink.cpp:241-276 | and every Pop of the protocol is such a turn |
| `SinkCredit.ReceiveIsSinkStep` | hybris_generic/waydroid/audio/waydroid_audio_main.cpp:490-528 | a received cork or flush command does to the protocol what it does to the sink |
| `SinkCredit.PushIsSinkStep` | hybris_generic/waydroid/audio/waydroid_audio_main.cpp:401-411 | so does a data packet, dropped bytes included |
| `SinkCredit.OthersLeaveItAlone` | hybris_generic/waydroid/audio/ohos_sink.cpp:178-195 | and nothing else of the sink concerns the protocol |
| `Framing.ChunkingDoesNotMatter` | hybris_generic/waydroid/audio/waydroid_audio_main.cpp:829-857 | for every split of the byte stream, the packets handled, the bytes kept and the verdict are those of a one-shot parse |
| `Framing.TwoGoes` | hybris_generic/waydroid/audio/waydroid_audio_main.cpp:829-857 | parsing a prefix and then the rest is parsing the whole, for any handler |
| `Framing.RestIsShort` | hybris_generic/waydroid/audio/waydroid_audio_main.cpp:829-857 | what is kept is exactly an incomplete packet |
| `Framing.FramesParse` | hybris_generic/waydroid/audio/waydroid_audio_main.cpp:211-227 | the frames of a list of packets parse back to that list |
| `Framing.PeerSeesAPrefix` | hybris_generic/waydroid/audio/waydroid_audio_main.cpp:859-879 | from any prefix of what was framed, a peer reads a prefix of the packets, in order |
| `Framing.Serve` | hybris_generic/waydroid/audio/waydroid_audio_main.cpp:806-857 | for every series of read results over the life of a connection: the packets handled are a prefix of those of a one-shot parse of everything received, and all of them if and only if the last call did not meet the end or an error while the bytes it held started a whole packet |
| `Framing.APacketIsLostAtClose` | hybris_generic/waydroid/audio/waydroid_audio_main.cpp:806-828 | any 16384 bytes that start a whole packet, followed by close, lose it |
| `Framing.AFrameOfThatSize` | hybris_generic/waydroid/audio/waydroid_audio_main.cpp:806-828 | and a packet has such a frame |
| `Framing.Call` | hybris_generic/waydroid/audio/waydroid_audio_main.cpp:806-857 | what one read call does to that comparison |
| `Framing.Connection.HeadAt` | hybris_generic/waydroid/audio/waydroid_audio_main.cpp:829-848 | the header taken apart by hand is the head of the specification |
| `Framing.Connection.Send` | hybris_generic/waydroid/audio/waydroid_audio_main.cpp:211-227 | bytes written plus bytes waiting are always the frames of the packets sent |
| `Framing.Connection.FlushOut` | hybris_generic/waydroid/audio/waydroid_audio_main.cpp:859-879 | under any partial writes exactly the written bytes leave the buffer, in order |
| `Framing.Connection.ReadFrom` | hybris_generic/waydroid/audio/waydroid_audio_main.cpp:806-857 | refines the one-shot parse of everything received, for any series of read results |
| `Framing.Connection.HandleInput` | hybris_generic/waydroid/audio/waydroid_audio_main.cpp:829-857 | the parse loop with its cursor is the recursive parse |
| `Framing.Connection.Collect` | hybris_generic/waydroid/audio/waydroid_audio_main.cpp:806-828 | the read loop collects what was read, and tells whether it may be parsed |
| `TagRoundTrip.WriteThenRead` | hybris_generic/waydroid/audio/pa_wire.h:229-316 | any list of fields is read back and the reader ends at Eof; a field comes back as it was put if and only if it is not a volume of no channels other than the norm; a proplist comes back as its map |
| `TagRoundTrip.DistinctKeysAllComeBack` | hybris_generic/waydroid/audio/pa_wire.h:285-300 | a map with distinct keys comes back with exactly its entries |
| `TagRoundTrip.WireMeansMap` | hybris_generic/waydroid/audio/pa_wire.h:285-300 | the entries on the wire mean the map that was put, embedded and trailing NULs in values included |
| `TagRoundTrip.ReadAll` | hybris_generic/waydroid/audio/pa_wire.h:318-518 | field after field, whatever follows |
| `TagRoundTrip.WriteAll` | hybris_generic/waydroid/audio/pa_wire.h:229-316 | the bytes are the layouts of the fields, in order |
| `TagRoundTrip.Get` | hybris_generic/waydroid/audio/pa_wire.h:318-470 | each getter takes back what its putter wrote |
| `TagWriting.TagWriter.Raw32` | hybris_generic/waydroid/audio/pa_wire.h:306-312 | four bytes, most significant first |
| `TagWriting.TagWriter.Raw64` | hybris_generic/waydroid/audio/pa_wire.h:313-313 | the high word, then the low word |
| `TagWriting.TagWriter.PutString` | hybris_generic/waydroid/audio/pa_wire.h:239-247 | a null, or the bytes and a NUL |
| `TagWriting.TagWriter.PutSampleSpec` | hybris_generic/waydroid/audio/pa_wire.h:249-255 | tag, format, channels, rate |
| `TagWriting.TagWriter.PutChannelMap` | hybris_generic/waydroid/audio/pa_wire.h:257-264 | tag, count, positions |
| `TagWriting.TagWriter.PutCVolume` | hybris_generic/waydroid/audio/pa_wire.h:266-273 | tag, count, the same volume for every channel |
| `TagWriting.TagWriter.PutTimeval` | hybris_generic/waydroid/audio/pa_wire.h:275-281 | tag and two words |
| `TagWriting.TagWriter.PutProplist` | hybris_generic/waydroid/audio/pa_wire.h:285-300 | every entry with its length written twice and a NUL after the value, then a null string |
| `TagReading.TagReader.Take8` | hybris_generic/waydroid/audio/pa_wire.h:486-492 | one byte if there is one; else failure, which is sticky |
| `TagReading.TagReader.Take32` | hybris_generic/waydroid/audio/pa_wire.h:494-502 | succeeds exactly when four bytes are left |
| `TagReading.TagReader.Take64` | hybris_generic/waydroid/audio/pa_wire.h:504-512 | succeeds exactly when eight bytes are left |
| `TagReading.TagReader.Expect` | hybris_generic/waydroid/audio/pa_wire.h:478-484 | succeeds exactly on the tag |
| `TagReading.TagReader.GetU32` | hybris_generic/waydroid/audio/pa_wire.h:323-323 | exactly the bytes that PutU32 writes |
| `TagReading.TagReader.GetS64` | hybris_generic/waydroid/audio/pa_wire.h:326-334 | two's complement undone |
| `TagReading.TagReader.GetBool` | hybris_generic/waydroid/audio/pa_wire.h:338-354 | either of the two tags |
| `TagReading.TagReader.GetString` | hybris_generic/waydroid/audio/pa_wire.h:356-385 | sound and complete for a null or a NUL-terminated string |
| `TagReading.TagReader.GetSampleSpec` | hybris_generic/waydroid/audio/pa_wire.h:387-390 | exactly the layout of PutSampleSpec |
| `TagReading.TagReader.GetChannelMap` | hybris_generic/waydroid/audio/pa_wire.h:392-406 | succeeds exactly on a counted list |
| `TagReading.TagReader.GetCVolume` | hybris_generic/waydroid/audio/pa_wire.h:408-424 | the first volume, or the norm for none |
| `TagReading.TagReader.GetTimeval` | hybris_generic/waydroid/audio/pa_wire.h:426-429 | two words |
| `TagReading.TagReader.GetArbitrary` | hybris_generic/waydroid/audio/pa_wire.h:431-443 | succeeds exactly when the counted bytes are there |
| `TagReading.TagReader.GetEntry` | hybris_generic/waydroid/audio/pa_wire.h:445-470 | one key, length and value; refuses exactly what is no entry |
| `TagReading.TagReader.GetEntries` | hybris_generic/waydroid/audio/pa_wire.h:445-470 | terminates on arbitrary bytes with the offset in range, sound and complete for a list of entries |
| `TagReading.TagReader.GetProplist` | hybris_generic/waydroid/audio/pa_wire.h:445-470 | adds to the map exactly what the wire holds |
| `BufferRuns.ReleasedExactlyOnce` | hybris_generic/waydroid/src/wl_server.cpp:127-237 | through every interleaving of commit, failed flush, RS report, drain, destroy, attach and detach: every live buffer is in exactly one of client-held, in flight, release pending, being committed, being handed back; releases = commits less the one still owed |
| `BufferRuns.NeverReportedWhileHeld` | hybris_generic/waydroid/src/wl_server.cpp:820-875 | RS will not report a buffer that the client holds, so none is released a second time |
| `BufferReturns.RsHasWhatIsNotStranded` | hybris_generic/waydroid/src/wl_server.cpp:191-234 | in every run, between two requests: RS will report a buffer in flight if and only if the destruction of another buffer has not stranded it |
| `BufferReturns.NobodyStrands` | hybris_generic/waydroid/src/wl_server.cpp:756-782 | without a destruction nothing is ever stranded |
| `BufferReturns.ResetAllStrands` | hybris_generic/waydroid/src/wl_server.cpp:756-782 | in every run, at the end of ForgetBuffer: what is in flight stays so, is stranded if and only if it was or its window is attached, and RS keeps exactly the rest |
| `BufferReturns.DestroyStrandsAnother` | hybris_generic/waydroid/src/wl_server.cpp:756-782 | a run from the start in which destroying one of two shown buffers strands the other |
| `BufferReturns.EveryRecoveryGivesBack` | hybris_generic/waydroid/src/wl_server.cpp:213-234 | in every run from a failed flush on, whatever RS, the client and the IPC threads do and however the retry ends: when the thread comes to rest, everything that was in flight on the window is with the client or pending release |
| `BufferReturns.EveryDetachGivesBack` | hybris_generic/waydroid/src/wl_server.cpp:1386-1395 | the same for every run of a detach closure |
| `BufferReturns.ComesBackAfterFailedFlush` | hybris_generic/waydroid/src/wl_server.cpp:213-234 | and there is a run that hands it to the client |
| `BufferReturns.ComesBackAfterDetach` | hybris_generic/waydroid/src/wl_server.cpp:1386-1395 | and so there is for the detach |
| `BufferDisplay.ReleasedWhileReadIff` | hybris_generic/waydroid/src/wl_output_surface.cpp:175-197 | in every run: RS may still read a buffer that the client holds if and only if it is on the screen of a window where the recovery from a failed flush has reset the queue since RS last took a buffer from it |
| `BufferDisplay.NeverReleasedWhileRead` | hybris_generic/waydroid/src/wl_server.cpp:213-234 | in every run in which no flush fails, whatever buffers are destroyed, the client never holds what RS may still read |
| `BufferDisplay.FailedFlushReleasesWhatIsShown` | hybris_generic/waydroid/src/wl_server.cpp:213-234 | whenever a flush fails on a window that shows a buffer in flight, that buffer is released while on screen |
| `BufferDisplay.ReleasedWhileShown` | hybris_generic/waydroid/src/wl_server.cpp:213-234 | a run from the start in which this happens |
| `BufferDisplay.EndsWithTheNextFrame` | hybris_generic/waydroid/src/wl_output_surface.cpp:126-141 | once RS takes the next buffer of that window, or the window is detached, RS may still read the buffer if and only if a recovery left it on another window's screen |
| `BufferDisplay.EveryPlayKeepsInv` | hybris_generic/waydroid/src/wl_output_surface.cpp:175-197 | in every run, what is on screen and still imported is in flight on that window, unless a recovery reset its queue |
| `BufferRuns.NothingStrandedOnDetachedWindow` | hybris_generic/waydroid/src/wl_server.cpp:1363-1395 | once the posted closure of a detach has collected, no in-flight entry carries that window in any later state |
| `BufferRuns.StepKeepsInv` | hybris_generic/waydroid/src/wl_server.cpp:127-237 | each critical section keeps the ownership, RS and window invariants |
| `BufferRuns.EveryRunKeepsInv` | hybris_generic/waydroid/src/wl_server.cpp:756-875 | so does every run |
| `BufferRuns.ClosedForEver` | hybris_generic/waydroid/src/wl_server.cpp:1363-1395 | a detached window never comes back |
| `BufferServer.Server.ReleaseInFlightOf` | hybris_generic/waydroid/src/wl_server.cpp:820-840 | gives back everything in flight on one window, each buffer once, and nothing else |
| `BufferServer.Server.DrainReleases` | hybris_generic/waydroid/src/wl_server.cpp:862-875 | sends every pending release once, in order |
| `BufferServer.Server.ShowBuffer` | hybris_generic/waydroid/src/wl_server.cpp:205-234 | the frame path with its retry: what is in flight afterwards and what was handed back, for each outcome of the two flushes |
| `ActivationHistory.ActivationMirrorsTheFront` | hybris_generic/waydroid/src/wl_server.cpp:1622-1702 | in every run, whenever no caller is between update and Post and the posted work is done: the toplevels are those created and not removed, under the names given last, and a named one is activated if and only if it is the full desktop, or not HOME and the window that the calls so far have put in front is its own or one for whatever is on top |
| `ActivationHistory.FrontMeans` | hybris_generic/waydroid/src/wl_server.cpp:1680-1702 | the window in front is the one that was made active last while attached, and since then neither made inactive nor detached nor followed by another |
| `ActivationHistory.EveryRunAgrees` | hybris_generic/waydroid/src/wl_server.cpp:1320-1395 | in every run windows, packages, toplevels and names are what the calls so far say, and the active window is the one in front unless it is being detached |
| `ActivationHistory.Settles` | hybris_generic/waydroid/src/wl_server.cpp:1029-1055 | from every state the posts and the wayland thread alone lead to a quiet one |
| `ActivationRuns.StepKeepsInv` | hybris_generic/waydroid/src/wl_server.cpp:1029-1055 | each step of the wayland and IPC threads keeps it, the active package being read under one mutex and the table walked under another |
| `ActivationRuns.EveryRunKeepsInv` | hybris_generic/waydroid/src/wl_server.cpp:1363-1395 | so does every run |
| `Activation.PackageIs` | hybris_generic/waydroid/src/wl_server.cpp:1622-1655 | the package is what follows the prefix waydroid., and no other name has one |
| `Activation.HandOverIsNeverDark` | hybris_generic/waydroid/src/wl_server.cpp:1660-1677 | the configure sequence never passes through a state with nothing activated if and only if something is activated before and after and no pulse goes to the only activated toplevel |
| `Activation.PlainHandOverIsNeverDark` | hybris_generic/waydroid/src/wl_server.cpp:1660-1677 | without a pulse, a hand-over between two non-empty states is never dark |
| `Activation.ClientSeesTheTable` | hybris_generic/waydroid/src/wl_server.cpp:1243-1278 | after the configures the client takes exactly the wanted toplevels to be activated |
| `Activation.NeverDarkMeans` | hybris_generic/waydroid/src/wl_server.cpp:1657-1677 | never dark means that no prefix of the configures leaves nothing activated |
| `Presence.ShownHandOverIsNeverDark` | hybris_generic/waydroid/src/wl_server.cpp:1657-1677 | the messages never pass through a state in which no toplevel is both on an output and activated if and only if one is before, one is once the others are off, and besides each pulsed toplevel there is another by then; and what the client takes to be shown and activated afterwards |
| `Presence.PlainShownHandOver` | hybris_generic/waydroid/src/wl_server.cpp:1657-1671 | without a pulse it is enough that one is before and that a toplevel with a surface is switched on |
| `Presence.ConfiguresOfMessages` | hybris_generic/waydroid/src/wl_server.cpp:1660-1677 | the configures among the messages are those of the plan, in that order |
| `PresenceRuns.ShownExactlyWhenActivated` | hybris_generic/waydroid/src/wl_server.cpp:1495-1519 | in every run: a toplevel is on an output if and only if it has a surface, is activated and did not get the surface only after it was activated; in a quiet state, for a named one: if and only if it is in front and not such a latecomer |
| `PresenceRuns.AllShownInTime` | hybris_generic/waydroid/src/wl_server.cpp:1440-1447 | if surfaces are noted before their toplevels are activated, every activated toplevel with a surface is on an output |
| `PresenceRuns.LateSurfaceIsNotShown` | hybris_generic/waydroid/src/wl_server.cpp:932-948 | a run in which the surface of an activated toplevel is destroyed, another is noted, and the toplevel is on no output in a quiet state |
| `PresenceRuns.DesktopStaysDark` | hybris_generic/waydroid/src/wl_server.cpp:1640-1655 | in every run the full desktop then stays so until its surface, its name or itself goes |
| `PresenceRuns.ScanIsAHandOver` | hybris_generic/waydroid/src/wl_server.cpp:1657-1677 | whatever plan a hand-over makes, its messages leave the client with exactly these toplevels shown and activated |
| `PresenceRuns.EveryPlayKeepsStageOk` | hybris_generic/waydroid/src/wl_server.cpp:1495-1519 | each step, surface and hand-over keeps this |
| `ActivationServer.Server.ApplyActivation` | hybris_generic/waydroid/src/wl_server.cpp:1622-1677 | the table ends as wanted; the client is told of the front first (on an output, then activated), of the others second (deactivated, then off), of pulses last, and ends up with the server's idea of both |
| `ActivationServer.Server.SwitchOn` | hybris_generic/waydroid/src/wl_server.cpp:1660-1665 | each enters an output, if it has a surface and has not, before it is activated |
| `ActivationServer.Server.SwitchOff` | hybris_generic/waydroid/src/wl_server.cpp:1666-1671 | each is deactivated before it leaves |
| `ActivationServer.Server.Scan` | hybris_generic/waydroid/src/wl_server.cpp:1636-1656 | one pass, in any order, sets the table and plans every change once |
| `ActivationServer.Server.Consider` | hybris_generic/waydroid/src/wl_server.cpp:1640-1655 | what is planned for one toplevel |
| `ActivationServer.Server.PulseAll` | hybris_generic/waydroid/src/wl_server.cpp:1672-1676 | on an output, then off and on for each, in order |
| `ActivationServer.Server.OutputFor` | hybris_generic/waydroid/src/wl_server.cpp:1404-1437 | a window of the toplevel's own package if there is one, else one for whatever is on top, else none; HOME has none |
| `String16.TextOfUnits` | hybris_generic/waydroid/binder/wdbinder.c:139-196 | get(put(s)) = s for every UTF-8 encoding of non-NUL scalar values (section 3 of RFC 3629, section 2 of RFC 2781) |
| `String16.UnitsOfText` | hybris_generic/waydroid/binder/wdbinder.c:221-271 | put(get(u)) = u on the encodings, unpaired surrogates included |
| `String16.UnitsOfCString` | hybris_generic/waydroid/binder/wdbinder.c:221-271 | as a C string, put(get(u)) is the part of u before its first zero unit, so it is u if and only if there is none |
| `String16.UnitsOfScalars` | hybris_generic/waydroid/binder/wdbinder.c:161-196 | well-formed UTF-8 goes out as the UTF-16 of the same scalar values |
| `String16.TextOfScalars` | hybris_generic/waydroid/binder/wdbinder.c:238-268 | well-formed UTF-16 is read as the UTF-8 of the same scalar values |
| `String16.FirstAdvances` | hybris_generic/waydroid/binder/wdbinder.c:139-159 | on any bytes the decoder advances, does not pass the NUL and yields what fits two units |
| `String16.FirstOfUtf8` | hybris_generic/waydroid/binder/wdbinder.c:139-159 | the decoder inverts the encoding of any code point |
| `String16.Text` | hybris_generic/waydroid/binder/wdbinder.c:221-271 | at most three bytes a unit |
| `String16.Units` | hybris_generic/waydroid/binder/wdbinder.c:161-196 | at most one unit a byte |
| `Unicode.PairsKeepOrder` | hybris_generic/waydroid/binder/wdbinder.c:221-240 | code points beyond 0xFFFF are a high and a low surrogate, in the order of the code points |
| `Unicode.PairsCoverAll` | hybris_generic/waydroid/binder/wdbinder.c:221-240 | every such pair is one |
| `Unicode.Utf8KeepsOrder` | hybris_generic/waydroid/binder/wdbinder.c:139-196 | the order of the bytes is that of the code points, whatever their lengths |
| `Unicode.Utf8IsWellFormed` | hybris_generic/waydroid/binder/wdbinder.c:139-196 | and each is well formed (section 4 of RFC 3629, surrogates admitted) |
| `Unicode.Utf8CoversAll` | hybris_generic/waydroid/binder/wdbinder.c:139-196 | every well-formed sequence is one |
| `ParcelLayout.StrComesBack` | hybris_generic/waydroid/binder/wdbinder.c:161-271 | a string is read back as its decoded and re-encoded form, with exactly its bytes used, whatever follows |
| `ParcelLayout.Le32` | hybris_generic/waydroid/binder/wdbinder.c:130-136 | the four bytes of any int32 determine it |
| `ParcelLayout.Padded` | hybris_generic/waydroid/binder/wdbinder.c:176-176 | a multiple of four that leaves room for a zero unit |
| `Parcels.Utf8Next` | hybris_generic/waydroid/binder/wdbinder.c:139-159 | the loop is the specification, on any NUL-terminated bytes |
| `Parcels.CountUnits` | hybris_generic/waydroid/binder/wdbinder.c:167-170 | the counting pass finds the number of units that the writing pass writes |
| `Parcels.Parcel.Grow` | hybris_generic/waydroid/binder/wdbinder.c:102-128 | zeroed room at the end, or an error with the contents kept; an error is sticky; too large if and only if beyond 4 MiB |
| `Parcels.Parcel.Doubled` | hybris_generic/waydroid/binder/wdbinder.c:111-115 | the doubling ends at a capacity that fits, below 8 MiB |
| `Parcels.Parcel.PutI32` | hybris_generic/waydroid/binder/wdbinder.c:130-136 | appends the four bytes or sets the error |
| `Parcels.Parcel.PutStr16` | hybris_generic/waydroid/binder/wdbinder.c:161-196 | appends the layout of the string, or sets the error: too large only if it is |
| `Parcels.Parcel.StoreUnits` | hybris_generic/waydroid/binder/wdbinder.c:177-196 | the writing pass fills the room with the units, and zeros remain after them |
| `Parcels.Parcel.GetI32` | hybris_generic/waydroid/binder/wdbinder.c:206-219 | the next four bytes, or a sticky protocol error at the end |
| `Parcels.Parcel.GetStr16` | hybris_generic/waydroid/binder/wdbinder.c:221-271 | succeeds exactly on what the specification reads, on arbitrary bytes |
| `Parcels.Parcel.Decode` | hybris_generic/waydroid/binder/wdbinder.c:232-270 | every write stays within three bytes a unit, and gives the specified text |
| `ParcelRoundTrip.WriteThenRead` | hybris_generic/waydroid/binder/wdbinder.c:130-271 | any list of integers and C strings, malformed ones too, comes back as what it means with nothing left to read; it fails only for lack of memory, a string over 1 MiB units or a layout over 4 MiB |
| `ParcelRoundTrip.ReadAll` | hybris_generic/waydroid/binder/wdbinder.c:206-271 | and the reader ends at pos = len |
| `ParcelRoundTrip.WellFormedMeansItself` | hybris_generic/waydroid/binder/wdbinder.c:161-271 | well-formed UTF-8 means itself |
| `BinderCall.Session` | hybris_generic/waydroid/binder/wdbinder.c:381-594 | over any series of calls: which succeed and how the others fail follows from how the outside behaves during each (see the rows below); every returned reply (a result, an exception, or that there is no such service) answers the last transaction that the very call returning it has sent, and a platform call goes only to a handle that came by the connection it is sent on |
| `BinderCall.Wdb.Transact` | hybris_generic/waydroid/binder/wdbinder.c:381-518 | the code, the handle and the exception are those that the script gives; closes the connection or leaves nothing unanswered; success is the answer to what this call sent, to the handle it was given |
| `BinderCall.Wdb.Await` | hybris_generic/waydroid/binder/wdbinder.c:413-518 | the waiting loop: every way out but a reply closes the connection |
| `BinderCall.Wdb.TakeCommands` | hybris_generic/waydroid/binder/wdbinder.c:443-516 | the command loop: a reply, a close, or go on waiting |
| `BinderCall.Wdb.TakeReply` | hybris_generic/waydroid/binder/wdbinder.c:467-511 | consumes one unanswered transaction, whichever the kernel picks |
| `BinderCall.Wdb.PlatformCall` | hybris_generic/waydroid/binder/wdbinder.c:552-594 | the code, and whether it is tried again, are those that the scripts give; the request is sent at most twice, the second time only on a newer connection; a lookup that gets no answer ends the call with nothing more sent |
| `BinderCall.Wdb.FindPlatform` | hybris_generic/waydroid/binder/wdbinder.c:564-573 | a lookup, whose handle is kept if it finds one |
| `BinderCall.Wdb.Attempt` | hybris_generic/waydroid/binder/wdbinder.c:564-580 | one lookup if no handle is cached, and only with an answer to it at most one send |
| `BinderCall.Wdb.GetService` | hybris_generic/waydroid/binder/wdbinder.c:529-546 | the handle found belongs to the open connection; that there is no such service is the answer to this very lookup |
| `BinderCall.Wdb.Reset` | hybris_generic/waydroid/binder/wdbinder.c:295-309 | closes and forgets the handle |
| `BinderCall.Wdb.SetPath` | hybris_generic/waydroid/binder/wdbinder.c:317-325 | a path that differs from the stored one closes the connection and is stored up to 255 characters; the same path changes nothing |
| `BinderCall.Wdb.Connect` | hybris_generic/waydroid/binder/wdbinder.c:327-355 | keeps an open connection; a new one starts with nothing unanswered |
| `BinderScript.OkIff` | hybris_generic/waydroid/binder/wdbinder.c:381-518 | a transaction succeeds if and only if the request is good, the device is or can be opened, the request is written, and what ends the wait is a reply that is not too long, for which there is memory, and that is no bare status |
| `BinderScript.TimedOutIff` | hybris_generic/waydroid/binder/wdbinder.c:409-427 | it times out if and only if it was written and nothing ends the wait before the deadline |
| `BinderScript.DeadIff` | hybris_generic/waydroid/binder/wdbinder.c:402-442 | it finds the connection dead if and only if the write fails, or poll, a read or a dead reply ends the wait |
| `BinderScript.NoMemoryIff` | hybris_generic/waydroid/binder/wdbinder.c:462-480 | no memory if and only if the reply fits and there is none for it |
| `BinderScript.ProtocolIff` | hybris_generic/waydroid/binder/wdbinder.c:436-511 | a protocol error if and only if the device answers wrongly when it is opened, a command is cut short or fails, or the reply is too long or a bare status |
| `BinderScript.EndingMeans` | hybris_generic/waydroid/binder/wdbinder.c:413-518 | walking events and commands finds the first that ends the wait |
| `BinderScript.TriedAgainIff` | hybris_generic/waydroid/binder/wdbinder.c:564-580 | a platform call is tried again if and only if there was a handle, cached or found, and the transaction with the request was dead |
| `BinderScript.PlatformOkIff` | hybris_generic/waydroid/binder/wdbinder.c:552-594 | it succeeds if and only if the first attempt does, or the request found the connection dead and the second attempt, which opens and looks up anew, does |
| `Sha256Stream.DigestOf` | hybris_generic/waydroid/launcher/waydroidd.c:333-377 | for every way of cutting a message (under 2^61 bytes) into updates, the result is the hexadecimal FIPS 180-4 digest of the whole |
| `WordBits.AndAt` | hybris_generic/waydroid/launcher/waydroidd.c:320-328 | bit by bit, a conjunction |
| `WordBits.XorAt` | hybris_generic/waydroid/launcher/waydroidd.c:311-328 | bit by bit, an exclusive or |
| `WordBits.NotAt` | hybris_generic/waydroid/launcher/waydroidd.c:320-328 | bit by bit, a negation |
| `WordBits.RotrAt` | hybris_generic/waydroid/launcher/waydroidd.c:307 | bit i of a rotation by n is bit (i + n) mod 32 |
| `WordBits.ShrAt` | hybris_generic/waydroid/launcher/waydroidd.c:311-319 | bit i of a shift by n is bit i + n, or 0 |
| `WordBits.ChChooses` | hybris_generic/waydroid/launcher/waydroidd.c:320-328 | where x has a one Ch takes y, elsewhere z |
| `WordBits.MajIsMajority` | hybris_generic/waydroid/launcher/waydroidd.c:320-328 | Maj has a one where at least two of the three do |
| `WordBits.Sum0At` | hybris_generic/waydroid/launcher/waydroidd.c:320-328 | the parity of the bits 2, 13 and 22 places on |
| `WordBits.Sum1At` | hybris_generic/waydroid/launcher/waydroidd.c:320-328 | of those 6, 11 and 25 places on |
| `WordBits.Sigma0At` | hybris_generic/waydroid/launcher/waydroidd.c:311-319 | of those 7, 18 and, without wrapping, 3 places on |
| `WordBits.Sigma1At` | hybris_generic/waydroid/launcher/waydroidd.c:311-319 | of those 17, 19 and, without wrapping, 10 places on |
| `WordBits.BigEndianIs` | hybris_generic/waydroid/launcher/waydroidd.c:312-314 | the bytes of a word are those it was made of, most significant first |
| `WordBits.HexReadsBack` | hybris_generic/waydroid/launcher/waydroidd.c:373-377 | the digits of a word read back as that word |
| `Sha256Constants.RoundConstants` | hybris_generic/waydroid/launcher/waydroidd.c:293-305 | the round constants are the first 32 bits of the fractions of the cube roots of the first 64 primes (section 4.2.2 of FIPS 180-4) |
| `Sha256Constants.PrimesArePrimes` | hybris_generic/waydroid/launcher/waydroidd.c:293-305 | which those are: each is the next prime after the one before |
| `Sha256Constants.InitialHash` | hybris_generic/waydroid/launcher/waydroidd.c:333-342 | the initial hash value is the same of the square roots of the first eight (section 5.3.3) |
| `Sha256Registers.RegistersAreTheRounds` | hybris_generic/waydroid/launcher/waydroidd.c:320-328 | the rounds told as two shift registers, each word given by the four before it |
| `Sha256Stream.Stream.Finish` | hybris_generic/waydroid/launcher/waydroidd.c:365-377 | padding (section 5.1.1), length and digest of everything given so far |
| `Sha256Stream.Stream.Pad` | hybris_generic/waydroid/launcher/waydroidd.c:365-374 | the padded message is whole blocks, and all of them are compressed |
| `Sha256Stream.Stream.Update` | hybris_generic/waydroid/launcher/waydroidd.c:344-362 | appends to the message, whatever the buffer holds |
| `Sha256Stream.Stream.Some` | hybris_generic/waydroid/launcher/waydroidd.c:347-361 | one turn: a whole block directly, or as much as fits |
| `Sha256Stream.Stream.Buffered` | hybris_generic/waydroid/launcher/waydroidd.c:353-360 | fills the buffer within its 64 bytes and compresses it when full |
| `Sha256Stream.Stream.Block` | hybris_generic/waydroid/launcher/waydroidd.c:309-331 | one more block of section 6.2.2 |
| `Sha256Stream.Stream.constructor` | hybris_generic/waydroid/launcher/waydroidd.c:333-342 | the initial hash value, and nothing given yet |
| `Sha256Stream.CompressBlock` | hybris_generic/waydroid/launcher/waydroidd.c:309-331 | the intermediate hash value of section 6.2.2 |
| `Sha256Stream.Schedule` | hybris_generic/waydroid/launcher/waydroidd.c:311-319 | the message schedule, computed in place, is the recursive one |
| `Sha256Stream.AllRounds` | hybris_generic/waydroid/launcher/waydroidd.c:320-328 | the 64 rounds |
| `Sha256Stream.LengthBytes` | hybris_generic/waydroid/launcher/waydroidd.c:370-372 | the length in bits, big-endian |
| `Sha256Spec.ZeroCountIsLeast` | hybris_generic/waydroid/launcher/waydroidd.c:368-369 | the padding is the least that fits |
| `TouchTranslator.Translate` | x86_general/hardware/input/emulator_touch.c:163-234 | for every series of events: a reader of the output reconstructs finger, Back and (while down) position as of the last report; contacts alternate, ids are in 0..65535 and change; no frame is empty |
| `TouchTranslator.Translator.Handle` | x86_general/hardware/input/emulator_touch.c:207-234 | each event keeps all of that |
| `TouchTranslator.Translator.Flush` | x86_general/hardware/input/emulator_touch.c:171-205 | afterwards the screen shows the pointer as it is, and no frame is left open |
| `TouchTranslator.Translator.Begin` | x86_general/hardware/input/emulator_touch.c:175-182 | a contact with the next id at the pointer's place |
| `TouchTranslator.Translator.End` | x86_general/hardware/input/emulator_touch.c:183-192 | the contact ends |
| `TouchTranslator.Translator.EmitPosition` | x86_general/hardware/input/emulator_touch.c:163-169 | both kinds of coordinates |
| `TouchMeaning.NeatMeansFramed` | x86_general/hardware/input/emulator_touch.c:200-204 | what no empty frame means on the stream |
| `HevcSession.Play` | hybris_generic/hardware/hybris_codec/src/hevcdec_mediandk.cpp:171-249 | over any number of streams on one decoder, each flushed before the next, with a caller that repeats an unconsumed sample and goes on after a refused one: the pictures of each stream are those of its samples that went in, in order, none twice and none of another stream; all of them if the stream is complete, which it is if the codec runs, takes the end of stream and gives up what it holds and then the end |
| `HevcSession.PlayOne` | hybris_generic/hardware/hybris_codec/src/hevcdec_mediandk.cpp:171-249 | one of those streams, from the start or after an end of stream that the codec may or may not come back from, with the same condition for all its pictures |
| `HevcSession.AllEnter` | hybris_generic/hardware/hybris_codec/src/hevcdec_mediandk.cpp:183-191 | every sample goes in if the codec restarts at the first and refuses none |
| `HevcSession.Session.Decode` | hybris_generic/hardware/hybris_codec/src/hevcdec_mediandk.cpp:171-200 | a sample is queued if and only if its address and length are not those of the pending one, which only then ends an ended stream; it is consumed if and only if no picture is left waiting |
| `HevcSession.Session.Present` | hybris_generic/hardware/hybris_codec/src/hevcdec_mediandk.cpp:171-200 | the repeats end; the access unit was queued once and no picture waits, or it was refused, which happens exactly if the codec does not restart or does not take it |
| `HevcSession.AbandonedSampleSwallowsTheNext` | hybris_generic/hardware/hybris_codec/src/hevcdec_mediandk.cpp:171-225 | a run in which an unconsumed sample is abandoned, the stream flushed, and a new unit at the same address and length is reported consumed but neither queued nor restarts the codec |
| `HevcSession.Session.Flush` | hybris_generic/hardware/hybris_codec/src/hevcdec_mediandk.cpp:202-225 | the end is reported if and only if nothing is ready and no picture comes: none is left, or none came while the codec was told and then the end had been seen, could not be told, or the waits bring none; the codec is told of the end if and only if it was fed and not told before, and takes it |
| `HevcSession.Session.Tell` | hybris_generic/hardware/hybris_codec/src/hevcdec_mediandk.cpp:204-213 | the end of stream is queued if and only if the codec was fed and takes it; whoever cannot tell it gives up |
| `HevcSession.Session.WaitForOne` | hybris_generic/hardware/hybris_codec/src/hevcdec_mediandk.cpp:214-217 | a picture is ready afterwards if and only if one was, or one is left and a wait brings it; with none left the end is seen if a wait brings it |
| `HevcSession.Session.FlushAll` | hybris_generic/hardware/hybris_codec/src/hevcdec_mediandk.cpp:202-225 | flushing ends; the codec comes to its end, and everything queued has been handed out, if it takes the end of stream and every wait delivers |
| `HevcSession.Session.Drain` | hybris_generic/hardware/hybris_codec/src/hevcdec_mediandk.cpp:397-430 | pictures move from codec to session in order, none lost |
| `HevcSession.Session.Hand` | hybris_generic/hardware/hybris_codec/src/hevcdec_mediandk.cpp:432-450 | the oldest waiting picture goes out |
| `HevcSession.Session.Rearm` | hybris_generic/hardware/hybris_codec/src/hevcdec_mediandk.cpp:235-249 | after the end of a stream everything starts anew; else nothing changes |
| `HevcSession.Session.FreeInput` | hybris_generic/hardware/hybris_codec/src/hevcdec_mediandk.cpp:253-263 | at most 50 tries |
| `HevcSession.Session.QueueUnit` | hybris_generic/hardware/hybris_codec/src/hevcdec_mediandk.cpp:251-285 | one unit in, or none |
| `HevcSession.Session.TakeIn` | hybris_generic/hardware/hybris_codec/src/hevcdec_mediandk.cpp:183-191 | a new unit is queued behind the earlier ones of its stream, or refused, and then nothing else changes but a restart |
| `AvcSession.Record` | hybris_generic/hardware/hybris_codec/src/avcenc_mediandk.cpp:572-659 | with an encoder that does its part, call i returns the i-th access unit in the order frames and copies went in, or fails and loses it if and only if it does not fit the caller's buffer |
| `AvcSession.Session.Encode` | hybris_generic/hardware/hybris_codec/src/avcenc_mediandk.cpp:572-659 | with a prompt encoder the session stays at most `delay` behind whatever fails; a call that gets an access unit gets the oldest, leaves queued - returned = delay, and returns it if and only if it fits the caller's buffer, else it is lost |
| `AvcSession.Answers` | hybris_generic/hardware/hybris_codec/src/avcenc_mediandk.cpp:572-594 | over calls of any kind: the first without a frame answers the header if it fits, every later one that it is the last, bad planes are refused |
| `AvcSession.Session.PutIn` | hybris_generic/hardware/hybris_codec/src/avcenc_mediandk.cpp:613-642 | the frame, and its copies if it is the first |
| `AvcSession.Session.QueueCopies` | hybris_generic/hardware/hybris_codec/src/avcenc_mediandk.cpp:634-642 | the copies' timestamps, in order |
| `AvcSession.CopiesFitTheInterval` | hybris_generic/hardware/hybris_codec/src/avcenc_mediandk.cpp:634-642 | the copies lie strictly inside the frame's interval if and only if fps * (delay + 1) <= 1000000 |
| `AvcSession.CopiesThatDoNotFit` | hybris_generic/hardware/hybris_codec/src/avcenc_mediandk.cpp:634-642 | at 300000 frames a second and a delay of 3 all copies share the timestamp |
| `AvcSession.Session.Next` | hybris_generic/hardware/hybris_codec/src/avcenc_mediandk.cpp:304-316 | an access unit if and only if the encoder holds more than its delay (and is not late) |
| `AvcSession.Session.Queue` | hybris_generic/hardware/hybris_codec/src/avcenc_mediandk.cpp:259-301 | one frame in, or none, without losing output |
| `AvcSession.Session.Poll` | hybris_generic/hardware/hybris_codec/src/avcenc_mediandk.cpp:392-428 | output moves from encoder to session in order |
| `Exif.FixupExifOrientation` | hybris_generic/hardware/camera/src/hybris_stream_operator_vdi.cpp:76-146 | on every byte array, in bounds: the array becomes the specified repair |
| `Exif.RepairIsLocal` | hybris_generic/hardware/camera/src/hybris_stream_operator_vdi.cpp:130-145 | at most the two value bytes of the located entry change, and only if the value was not 1..8; then it is 1 |
| `Exif.RepairedIsLegal` | hybris_generic/hardware/camera/src/hybris_stream_operator_vdi.cpp:130-145 | a located value ends in 1..8, at the same place |
| `Exif.RepairTwiceIsOnce` | hybris_generic/hardware/camera/src/hybris_stream_operator_vdi.cpp:76-146 | running it twice is running it once, for any directory offset |
| `Exif.PlaceStaysPut` | hybris_generic/hardware/camera/src/hybris_stream_operator_vdi.cpp:84-137 | everything that is read to find the place lies before it |
| `Exif.EntryIsTheFirst` | hybris_generic/hardware/camera/src/hybris_stream_operator_vdi.cpp:129-137 | the located entry is the first orientation entry of the directory |
| `Exif.WalkMarkers` | hybris_generic/hardware/camera/src/hybris_stream_operator_vdi.cpp:84-102 | the marker walk is the recursive search |
| `Exif.WalkEntries` | hybris_generic/hardware/camera/src/hybris_stream_operator_vdi.cpp:129-145 | the directory walk patches the located entry, if it must |
| `Exif.FixupTiff` | hybris_generic/hardware/camera/src/hybris_stream_operator_vdi.cpp:103-145 | either byte order, any directory offset |
| `ExifFile.FindsTheValue` | hybris_generic/hardware/camera/src/hybris_stream_operator_vdi.cpp:84-137 | in every file built from segments, an Exif segment, a TIFF header of either byte order and a directory with an orientation entry among others, that entry's value is found |
| `ExifFile.RepairsTheFile` | hybris_generic/hardware/camera/src/hybris_stream_operator_vdi.cpp:76-146 | the repair gives the same file, with 1 in place of a value that is not legal |

## Left out

- Sockets, epoll, eventfd, poll, ioctl and memory mapping: only their results appear.
- AudioRenderer, RS, gralloc, AMediaCodec, the camera NDK and libwayland: represented by the assumptions above.
- Several streams on one connection, streams for unknown channels, and the other commands of the audio protocol.
- The pace of the render thread: sleeping for dropped bytes.
- ReleaseEverythingInFlight, the debug console, the legacy fullscreen output and the self-drawing node of the compositor.
- Shared-memory buffers, which the compositor releases in the commit itself, and the reuse of a SurfaceBuffer's address.
- Several wl_output objects of one client, and which of a toplevel's surfaces (its own or a subsurface) an enter or leave names: it is one message for the toplevel here.
- BinderCall: the contents of requests and replies, and reference counting of handles; a reply is its identity, size, status flag, first handle and exception code.
- Parcels.Parcel.GetStr16: `units * 3 + 1` and `len + n` are unbounded integers here; the limits checked before keep them far below a 64-bit size.
- Exif.FixupExifOrientation: positions are unbounded integers; `pos + 2 + segLen` can exceed a 32-bit int only for images within 64 KiB of 2 GiB. A null pointer is not modelled.
- Sha256Stream: words are numbers with the bitwise operations written out, not machine words; the example digests of FIPS 180-4 are not evaluated.
- TouchTranslator: failing writes to uinput, and finding and grabbing the tablet.
- HevcSession: conversion of pictures to I420 and output formats.
- AvcSession: measuring the delay with a throwaway encoder, bitrate changes and key-frame requests.
- The rest of waydroidd (container setup, image trust, DHCP, NAT), the other HAL wrappers, camera sessions, NAPI, mixerctl, wdctl and tcprelay: plumbing and table lookups that would add only easy members.
- Logging, clocks and thread creation.
