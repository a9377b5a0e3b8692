# ThunderNanoServices: models and proofs

Six parts of ThunderNanoServices, written in Dafny with what they promise proved for all inputs and all runs.
Where the C++ code updates objects in place the model does the same, in classes and loops that are proved
against functions on values; what the code promises is then proved about those functions.

* **Compositor** (`Names`, `ZOrder`, `ZOrderRuns`, `AttachPlaces`, `ZOrderCases`, `TidyRuns`, `GraphicsRuns`, `Compositor`). Every client stores a layer. Attaching sorts the
  clients by layer, inserts the new one and renumbers all of them; detaching renumbers nobody; moving a callsign before
  another one cuts its layers out, puts them back and rewrites only the layers between. The proofs say when
  the partial rewrite is the intended move, for single calls and for whole runs.
* **Voice path** (`RingBuffer`, `VoiceRuns`, `VoiceChunks`, `VoiceLosses`, `VoiceStream`). A ring buffer with two-part copies and growth, and the
  start, data and end steps that cut the stream of bytes into numbered chunks.
* **Voice decoders** (`ImaAdpcm`, `ImaReference`, `FourModRuns`, `FourModDecoder`, `Tech4HomeRuns`, `Tech4HomeDecoder`).
  The IMA ADPCM arithmetic (section 4.5.1 of RFC 3551, but low nibble first) and the rule behind its tables, the packet reassembly of the 4Mod decoder, and the
  modulo-32 frame accounting of the Tech4Home decoder.
* **HID report maps** (`HidForest`, `HidItems`, `HidLiterals`, `HidStructure`, `HidParser`, `HidPrint`, `HidBuild`,
  `HidRoundTrip`).
  The one-pass parser of section 6.2.2 of the USB Device Class Definition for HID 1.11 that links collection, report
  and element objects, what each descriptor byte does, the structure of what it builds from arbitrary bytes, and a
  printer that it inverts.
* **Command sequencer** (`SequencerRuns`, `Sequencer`). A sequence of labelled commands that a worker executes outside
  the lock while callers load, start and abort. Each operation is one step between two points at which the lock is free.
* **Bluetooth audio sink** (`PlayerRuns`, `PlayerClock`, `AudioPlayer`, `SinkRuns`, `AudioSink`). The staging buffer and
  the clock of the player, and the two state machines of endpoint and sink that call each other.

`Bytes` holds octets and the sixteen and thirty-two bit bounds.

## What the proofs found

Some properties hold only under a condition; each is proved exactly, as an if and only if, and a case in which the
condition fails is given by name.

* `Detached` leaves gaps, and `PutBefore` does not renumber what lies above the layers it moves. After a gap the next
  move can give two clients the same layer (`GapBreaksMove`, from an empty compositor); it works exactly when no layer
  above the first change reaches into the rewritten places (`PutBeforeExact`). `ToTop` always works.
* `Attached` keeps a callsign's layers together only under `AttachKeepsTogether`: a bare name pushed to one end of the stack
  can be cut off from its sub screens (`AttachSplits`). Without such names, and without a move between a detach and the
  next attach, every run behaves (`TidyBehaves`).
* Putting a callsign before itself sends its topmost layer below its others, which turns graphics and video round
  (`SelfMoveExact`, `SelfMoveSinks`).
* Without general buffering (`_audioChunkSize == 0`) and with a first chunk of two bytes or more, a byte left in the
  ring is overtaken by the next packet (`Overtaking`, `ConservingConfigs`). At the end of a transmission of exactly 65536 n
  chunks the waiting rest is dropped, because the sequence number is back at zero (`EndDelivers`); so unless chunks are of
  single bytes some transmission is delivered neither whole nor not at all (`AllOrNothingConfigs`, `LongRunLoses`). With
  both chunk sizes zero there is no buffer, and the assertion at BluetoothRemoteControl/BluetoothRemoteControl.cpp:487
  fails at every end of a transmission (`EndReceived`).
* A `Resize` to the bytes stored, or to any smaller size but zero, leaves the write position at the buffer end, outside
  the form `Push` expects (`ResizeBreaks`).
* `DecodeStream` reports four bytes per input byte, stored or not, in sixteen bits (`LengthTruthful`, `LengthWraps`).
* The Tech4Home drop counter is exact as long as fewer than 32 headers in a row are lost, and too small otherwise
  (`DropsExact`, `HiddenGap`).
* A report map's very last operand reads as zero, so a tree whose map does not end in an end-of-collection item comes
  back with its last field cleared (`RoundTrip`, `RoundTripExact`, `LastFieldLost`).
* A `Load` without a valid command empties a loaded sequence but leaves it loaded; `Execute` then `Abort` look for a
  step that is not there (`EmptiedLoadUnsafe`). Requests that overlap can also load over an active sequence, and a
  request without a valid command starts a worker with nothing to run; both fail assertions (`BusyLoadUnsafe`,
  `IdleBeginUnsafe`). Nothing else goes wrong (`RunSafeExact`).
* The player's buffer is large enough exactly when a frame is at most twice the preferred size, or the preferred size is
  at most one byte (`RoomyExact`, `OverrunsExact`, `Overrunning`).
* A player that has a multiple of 65536 bytes pending offers none of them to the transport, and neither sends nor
  fetches again (`SendsExact`, `HaltedRun`, `HaltingRun`).
* A source that refuses `Relinquish` once leaves the sink with a player and the endpoint idle, and no call gets
  the sink going again before the device disconnects (`RefusalSticks`, `RefusedSessionSticks`, `StuckForever`).

## Model

| member | source | states |
|---|---|---|
| Names.LeastExists | Compositor/Compositor.cpp:73-88 | a non-empty client map has a first key in the iteration order of std::map |
| Names.SubPrefix | Compositor/Compositor.cpp:472-481 | comparing the text up to and including the colon singles out the sub screens of one callsign, and nothing else |
| AttachPlaces.NamesRead | Compositor/Compositor.cpp:44-51 | a callsign followed by a colon and a suffix is a sub screen of that callsign, graphics if and only if the suffix begins with g or 1 |
| AttachPlaces.LessExact | Compositor/Compositor.cpp:73-88 | the key order of the client map: one name is a beginning of the other, or has the smaller character where they first differ, and conversely |
| ZOrder.OrderReadsBack | Compositor/Compositor.cpp:71-89 | the order lists all clients, each below the former by layer and, for equal layers, by name |
| ZOrder.OrderUnique | Compositor/Compositor.cpp:71-89 | the layers determine that list completely |
| ZOrder.RearrangedReadsBack | Compositor/Compositor.cpp:91-150 | writing places into a rearranged range gives distinct layers and reads back as the intended list if and only if the layers above carry no gap |
| ZOrder.ExchangeClustered | Compositor/Compositor.cpp:91-150 | exchanging two neighbouring segments that end where groups end splits no group |
| ZOrder.InsertClustered | Compositor/Compositor.cpp:460-501 | inserting an entry keeps every group in one run if and only if its group is absent or the new entry touches it |
| ZOrder.MovedToTop | Compositor/Compositor.cpp:720-731 | putting a callsign on top exchanges the segment above it with its own |
| ZOrder.MovedUp | Compositor/Compositor.cpp:729-731 | moving up exchanges the segment from relative on with the callsign's |
| ZOrder.MovedDown | Compositor/Compositor.cpp:731-733 | moving down exchanges the callsign's segment with the one up to relative |
| ZOrderRuns.AttachTogether | Compositor/Compositor.cpp:440-513 | attaching keeps every callsign's layers neighbours if and only if the stated condition on the remaining clients holds |
| ZOrderRuns.AttachGraphics | Compositor/Compositor.cpp:491-500 | when a graphics sub screen stays above its siblings after attaching, if and only if |
| AttachPlaces.OrderAfterAttach | Compositor/Compositor.cpp:440-513 | the order after attaching is the order of the others with the new name inserted |
| AttachPlaces.AttachBeside | Compositor/Compositor.cpp:491-500 | a sub screen goes directly below its callsign's topmost sub screen, a graphics one directly above it, and nothing else moves |
| AttachPlaces.AttachAtEnd | Compositor/Compositor.cpp:462-490 | a name without sub screens of its callsign goes on top, or to the bottom when so configured |
| AttachPlaces.GraphicsAboveVideo | Compositor/Compositor.cpp:491-500 | for every callsign: its graphics screen above its video screen, whichever was attached first and wherever new clients go |
| AttachPlaces.SecondVideoBelow | Compositor/Compositor.cpp:491-500 | for every callsign: a second screen that is not graphics goes below the video screen |
| ZOrderRuns.NumberedReadsBack | Compositor/Compositor.cpp:503 | renumbering everything gives distinct layers that read back as the list |
| ZOrderRuns.DetachReadsBack | Compositor/Compositor.cpp:515-534 | detaching removes one name from the order and nothing else |
| ZOrderRuns.MovedKeepsOrders | Compositor/Compositor.cpp:689-743 | a move changes neither the order of the callsign's own layers nor that of all others |
| ZOrderRuns.MovedJustBefore | Compositor/Compositor.cpp:689-743 | after a move the callsign's layers end directly above relative's topmost layer |
| ZOrderRuns.MovedShape | Compositor/Compositor.cpp:720-743 | every move of a callsign in one piece exchanges two neighbouring segments |
| ZOrderRuns.MovedGrouped | Compositor/Compositor.cpp:720-743 | a move splits no callsign when all were in one piece |
| ZOrderRuns.PutBeforeExact | Compositor/Compositor.cpp:689-743 | the partial rewrite achieves the move, with distinct layers, if and only if there is no gap above it |
| ZOrderRuns.StepExact | Compositor/Compositor.cpp:440-534 | any one operation leaves a sound stack in its intended order if and only if its condition held |
| ZOrderRuns.ToTopAlways | Compositor/Compositor.cpp:761-764 | raising to the top meets the condition in every sound stack |
| ZOrderRuns.GapFreeAttach | Compositor/Compositor.cpp:503 | attaching leaves layers 0, 1, 2, ... |
| ZOrderRuns.GapFreeMove | Compositor/Compositor.cpp:689-743 | from gap-free layers every move meets its condition and leaves gap-free layers |
| ZOrderRuns.RunExact | Compositor/Compositor.cpp:440-534 | over any run, every state is sound and in the intended order if and only if every operation met its condition when called |
| ZOrderCases.GapBreaksMove | Compositor/Compositor.cpp:515-534 | four plain clients attached to an empty compositor, the topmost detached, the last put before the middle one: two clients share a layer |
| ZOrderCases.AttachSplits | Compositor/Compositor.cpp:462-467 | a sub screen, another client, then the sub screen's bare callsign: the callsign is in two pieces |
| ZOrderCases.RunAttaches | Compositor/Compositor.cpp:462-467 | plain names attached one after the other are stacked in reverse, numbered from zero |
| TidyRuns.TidyBehaves | Compositor/Compositor.cpp:440-743 | runs from an empty compositor that mix no bare name with its sub screens, and put nothing before another client between a detach and the next attach, always behave |
| GraphicsRuns.MoveKeeps | Compositor/Compositor.cpp:689-743 | a callsign put before another one, or on top, keeps graphics above video if and only if it was |
| GraphicsRuns.SelfMoveExact | Compositor/Compositor.cpp:701-733 | a callsign put before itself keeps graphics on top if and only if its topmost layer is no graphics layer or its only sub screen |
| GraphicsRuns.RunOnTopExact | Compositor/Compositor.cpp:440-743 | over every run that behaves, graphics stays above its siblings if and only if no operation attaches a second graphics layer or sinks one |
| GraphicsRuns.SelfMoveSinks | Compositor/Compositor.cpp:701-733 | a graphics layer above a video layer, put before itself: they change places |
| Compositor.GetZOrderList | Compositor/Compositor.cpp:71-89 | the insertion sort yields the order of the stored layers, each entry with its client and layer |
| Compositor.SetZOrderList | Compositor/Compositor.cpp:59-69 | client k of the list stores index + k, no other client is written |
| Compositor.MoveUp | Compositor/Compositor.cpp:101-118 | the erase loop selects the block, drops what follows it and appends what lay above |
| Compositor.MoveDown | Compositor/Compositor.cpp:124-139 | the erase loop takes the block out and keeps what lies up to the location |
| Compositor.Rearrange | Compositor/Compositor.cpp:91-150 | the reordered entries store consecutive layers from index on, the others keep theirs |
| Compositor.AttachIndex | Compositor/Compositor.cpp:460-498 | the search finds the insertion place, before or after the first sub screen of the callsign |
| Compositor.Locate | Compositor/Compositor.cpp:701-718 | the first place of relative, the first and the last of the callsign |
| Compositor.MoveBlock | Compositor/Compositor.cpp:721-733 | exactly the clients of the exchanged range store their new places, all others keep their layer |
| Compositor.PrimariesHave | Compositor/Compositor.cpp:578-591 | the primary list names exactly the callsigns of the attached clients |
| Compositor.PrimariesInOrder | Compositor/Compositor.cpp:578-591 | the primary list is ordered by topmost layer, every callsign once |
| Compositor.Compositor.Attached | Compositor/Compositor.cpp:440-513 | the clients then stored, and layers equal to the places of the intended order |
| Compositor.Compositor.Detached | Compositor/Compositor.cpp:515-534 | the name is gone, every other layer is as it was |
| Compositor.Compositor.PutBefore | Compositor/Compositor.cpp:689-743 | exactly the clients whose place changes store their new place |
| Compositor.Compositor.ToTop | Compositor/Compositor.cpp:761-764 | as PutBefore with an empty relative |
| Compositor.Compositor.ZOrder | Compositor/Compositor.cpp:569-594 | the order read back, or every callsign once |
| RingBuffer.RingPushed | BluetoothRemoteControl/BluetoothRemoteControl.h:114-145 | bytes written behind the stored ones, wherever they wrap, extend the contents |
| RingBuffer.RingPopped | BluetoothRemoteControl/BluetoothRemoteControl.h:146-177 | advancing the read position drops the oldest bytes |
| RingBuffer.RingBuffer.Push | BluetoothRemoteControl/BluetoothRemoteControl.h:114-145 | appends exactly the first min(length, free) bytes |
| RingBuffer.RingBuffer.Pop | BluetoothRemoteControl/BluetoothRemoteControl.h:146-177 | removes and returns exactly the first min(length, used) bytes, the rest of the destination untouched |
| RingBuffer.RingBuffer.Resize | BluetoothRemoteControl/BluetoothRemoteControl.h:93-111 | keeps the first bytes that fit; leaves normal form if and only if the new size is the old one, zero, or larger than what is stored |
| RingBuffer.ResizeBreaks | BluetoothRemoteControl/BluetoothRemoteControl.h:93-111 | any bytes stored, the ring resized to them or to fewer but not to nothing: not in normal form |
| RingBuffer.RingBuffer.Reset | BluetoothRemoteControl/BluetoothRemoteControl.h:86-92 | empties the ring |
| VoiceRuns.RunConserves | BluetoothRemoteControl/BluetoothRemoteControl.cpp:426-605 | at every point of every run, chunks sent ++ ring equals the bytes received since the start; the ring is empty outside a transmission |
| VoiceRuns.RunBounded | BluetoothRemoteControl/BluetoothRemoteControl.cpp:550-552 | between events less than a chunk waits |
| VoiceChunks.PacketSends | BluetoothRemoteControl/BluetoothRemoteControl.cpp:529-567 | a packet makes as many chunks leave as fit into the waiting and received bytes, each of exactly the size that applies, numbered on, their bytes in order; without a size the packet leaves as it came |
| VoiceChunks.RunSends | BluetoothRemoteControl/BluetoothRemoteControl.cpp:529-567 | the same at any point of any run |
| VoiceChunks.RunSized | BluetoothRemoteControl/BluetoothRemoteControl.cpp:589-605 | over every run: the first chunk of a transmission has the first size, every other one of the two sizes |
| VoiceChunks.ChunkCount | BluetoothRemoteControl/BluetoothRemoteControl.cpp:550-552 | with one chunk size: as many chunks are out as fit into the bytes received, the remainder waits |
| VoiceChunks.StartEndsFirst | BluetoothRemoteControl/BluetoothRemoteControl.cpp:426-456 | a start in the middle of a transmission is an end and a start, and begins with number zero and an empty ring |
| VoiceChunks.OutsideIgnored | BluetoothRemoteControl/BluetoothRemoteControl.cpp:481-567 | outside a transmission packets and ends change nothing |
| VoiceChunks.RunAnnounces | BluetoothRemoteControl/BluetoothRemoteControl.cpp:426-567 | over every run: listeners hear starts and ends in turn, chunks only in between, and what they heard says whether a transmission is going on |
| VoiceRuns.ConservingConfigs | BluetoothRemoteControl/BluetoothRemoteControl.cpp:535-556 | all runs conserve their bytes if and only if the chunk size is positive or the first chunk is at most one byte |
| VoiceRuns.Overtaking | BluetoothRemoteControl/BluetoothRemoteControl.cpp:554-556 | for every other configuration, a run that does not |
| VoiceRuns.RunNumbered | BluetoothRemoteControl/BluetoothRemoteControl.cpp:589-605 | with general buffering the k-th chunk of a transmission carries number k modulo 65536 |
| VoiceRuns.RunPassesOn | BluetoothRemoteControl/BluetoothRemoteControl.cpp:554-556 | without chunk sizes every packet is passed on as it came, with its own number |
| VoiceRuns.EndDelivers | BluetoothRemoteControl/BluetoothRemoteControl.cpp:481-498 | at the end all received bytes were sent in order if and only if nothing waited or the chunk count is no multiple of 65536 |
| VoiceRuns.ShortAllOrNothing | BluetoothRemoteControl/BluetoothRemoteControl.cpp:490-495 | below 65536 chunks: everything was sent, or nothing |
| VoiceLosses.SinglesChunks | BluetoothRemoteControl/BluetoothRemoteControl.cpp:535-552 | how many chunks a number of single bytes makes, and how many bytes wait |
| VoiceLosses.LongRunLoses | BluetoothRemoteControl/BluetoothRemoteControl.cpp:490-495 | for every chunk size of two or more, a run of 65536 chunks and one more byte, which the end drops |
| VoiceLosses.AllOrNothingConfigs | BluetoothRemoteControl/BluetoothRemoteControl.cpp:481-556 | every transmission is delivered whole or not at all if and only if no chunk size exceeds one |
| VoiceStream.VoiceStream.DataReceived | BluetoothRemoteControl/BluetoothRemoteControl.cpp:529-567 | the object's ring, sequence number and deliveries follow the run's data step |
| VoiceStream.VoiceStream.EndReceived | BluetoothRemoteControl/BluetoothRemoteControl.cpp:481-527 | the same for the end step; the assertion that there is a buffer holds if and only if nothing was going on or there is one |
| VoiceStream.VoiceStream.StartReceived | BluetoothRemoteControl/BluetoothRemoteControl.cpp:426-456 | the same for the start step, a missing end made up for |
| VoiceStream.VoiceStream.SendOut | BluetoothRemoteControl/BluetoothRemoteControl.cpp:589-605 | the oldest bytes leave as one chunk with the current number |
| VoiceStream.VoiceStream.Buffer | BluetoothRemoteControl/BluetoothRemoteControl.cpp:540-548 | the packet is stored whole, the ring grown when needed |
| ImaAdpcm.ImaSane | BluetoothRemoteControl/T4HDecoders.cpp:209-227 | the two tables have the shape the arithmetic relies on |
| ImaAdpcm.Next | BluetoothRemoteControl/T4HDecoders.cpp:207-267 | from a step index in 0..88 and a sixteen-bit value, every nibble leads to such a state again |
| ImaAdpcm.DifferenceBounds | BluetoothRemoteControl/T4HDecoders.cpp:229-239 | the difference is at most 61436 and falls short of (2m+1)/8 steps by at most 17/8 |
| ImaReference.NibbleMoves | BluetoothRemoteControl/T4HDecoders.cpp:250-265 | nibbles below eight move the value up, the others down, by (2m+1)/8 steps less at most 17/8, or to the end of the range when that is nearer |
| ImaReference.IndexMoves | BluetoothRemoteControl/T4HDecoders.cpp:232-239 | small magnitudes lower the step index by one, larger ones raise it by 2, 4, 6, 8, within 0..88 |
| ImaReference.StepRule | BluetoothRemoteControl/T4HDecoders.cpp:214-227 | the step table by rule: seven to fourteen, then 16 times 1.1 to the power i - 8, rounded down, at most 32767 |
| ImaReference.SamplesByNibble | BluetoothRemoteControl/T4HDecoders.cpp:276-279 | sample i is the value after i + 1 nibbles, of which every byte gives its low half first |
| ImaReference.SignedExact | BluetoothRemoteControl/T4HDecoders.cpp:171-178 | reading sixteen bits as a signed value changes it by a multiple of 65536 into -32768..32767 |
| ImaAdpcm.Accumulate | BluetoothRemoteControl/T4HDecoders.cpp:229-239 | the sixteen-bit sums never wrap and give the difference |
| ImaAdpcm.Decoder.DecodeNibble | BluetoothRemoteControl/T4HDecoders.cpp:207-267 | the two fields follow the reference step, saturating at -32767 and 32767 |
| ImaAdpcm.Decoder.DecodeStream | BluetoothRemoteControl/T4HDecoders.cpp:268-294 | stores exactly the first min(2 in, out / 4) samples of the reference stream, touches nothing else, ends in the reference state |
| ImaAdpcm.LengthTruthful | BluetoothRemoteControl/T4HDecoders.cpp:293 | for every length, the returned length is the number of bytes written if and only if all samples were stored, or the wrapped length happens to be the room |
| ImaAdpcm.LengthWraps | BluetoothRemoteControl/T4HDecoders.cpp:293 | 16384 bytes into a full output: zero is returned |
| ImaAdpcm.DecodeConcat | BluetoothRemoteControl/T4HDecoders.cpp:268-294 | decoding a then b is decoding a ++ b |
| ImaAdpcm.ErrorNeverGrows | BluetoothRemoteControl/T4HDecoders.cpp:207-267 | fed the same nibbles, two decoders' step indices never drift apart, nor, once these agree, their values |
| ImaAdpcm.QuietLowers | BluetoothRemoteControl/T4HDecoders.cpp:222-229 | n small nibbles lower the step index by n, down to zero |
| ImaAdpcm.Resynchronises | BluetoothRemoteControl/T4HDecoders.cpp:207-267 | after 88 small nibbles in a row any two decoders agree on the step index for ever |
| FourModRuns.FedHolds | BluetoothRemoteControl/4ModDecoders.cpp:102-151 | after any history the package holds exactly the bytes of the unfinished group, and the header of its first packet |
| FourModRuns.CompletesExactly | BluetoothRemoteControl/4ModDecoders.cpp:102-151 | a package completes if and only if an 11-byte packet follows 6k > 0 long ones, and what it then consists of |
| FourModRuns.Accounting | BluetoothRemoteControl/4ModDecoders.cpp:106-148 | frames counts packets; completed + dropped equals short packets + restarts, modulo 2^32 |
| FourModRuns.TwoForms | BluetoothRemoteControl/4ModDecoders.cpp:77-99 | when a package completes, decoding the ADPCM frame from its own preamble gives the samples of the PCM form |
| FourModRuns.FrameHeader | BluetoothRemoteControl/4ModDecoders.cpp:85-95 | an ADPCM frame begins with its first packet's value, low byte first, the step index and a zero, and goes on with the package |
| FourModRuns.StartValue | BluetoothRemoteControl/4ModDecoders.cpp:109-111 | the PCM form starts from that value, received high byte first, and that step index |
| FourModDecoder.Adpcm.AddFrame | BluetoothRemoteControl/4ModDecoders.cpp:102-151 | the object follows the assembly step, and says when a package is complete |
| FourModDecoder.Adpcm.Decode | BluetoothRemoteControl/4ModDecoders.cpp:77-99 | preamble and package go out when a package completes, as much as there is room for |
| FourModDecoder.Pcm.Decode | BluetoothRemoteControl/4ModDecoders.cpp:182-194 | the decoded package goes out at the same calls |
| FourModDecoder.FeedBoth | BluetoothRemoteControl/4ModDecoders.cpp:77-194 | both decoders fed the same packets from the start: output at the same calls, and each ADPCM frame decodes to the PCM form's samples |
| Tech4HomeRuns.Unwrap | BluetoothRemoteControl/T4HDecoders.cpp:83-88 | the five-bit comparison gives the lost headers modulo 32 |
| Tech4HomeRuns.DropsExact | BluetoothRemoteControl/T4HDecoders.cpp:65-120 | frames is exact, dropped never exceeds the truth and equals it if and only if no gap reached 32 headers |
| Tech4HomeRuns.HiddenGap | BluetoothRemoteControl/T4HDecoders.cpp:83-88 | 32 headers lost in a row: the counter stays at zero |
| Tech4HomeRuns.WidestGap | BluetoothRemoteControl/T4HDecoders.cpp:83-88 | 31 headers lost in a row: all are counted |
| Tech4HomeRuns.Distance | BluetoothRemoteControl/T4HDecoders.cpp:81-94 | frames + dropped equals the distance from the first counted header to the latest if and only if gaps are short |
| Tech4HomeRuns.FramesHeard | BluetoothRemoteControl/T4HDecoders.cpp:195 | the frame counter is unset if and only if no header was heard |
| Tech4HomeRuns.PacketsDecodeAsOne | BluetoothRemoteControl/T4HDecoders.cpp:165-204 | however the audio after a header is cut into packets, the samples are those of one stream |
| Tech4HomeDecoder.CarriedStep | BluetoothRemoteControl/T4HDecoders.cpp:74-107 | a packet of the stream does to the counters what its bytes do |
| Tech4HomeDecoder.HeaderValue | BluetoothRemoteControl/T4HDecoders.cpp:172-174 | the value of a header is read low byte first, and signed |
| Tech4HomeDecoder.Accounting.HeaderReceived | BluetoothRemoteControl/T4HDecoders.cpp:81-94 | the counters follow the header step |
| Tech4HomeDecoder.Adpcm.Decode | BluetoothRemoteControl/T4HDecoders.cpp:69-120 | preamble and audio go out, and the counters follow the packet |
| Tech4HomeDecoder.Pcm.Decode | BluetoothRemoteControl/T4HDecoders.cpp:165-204 | the samples stored are those of the reference stream from where the decoder stood |
| Tech4HomeDecoder.DecodeAll | BluetoothRemoteControl/T4HDecoders.cpp:165-204 | a stream fed to a new decoder: the samples stored since the latest header are those of the specification, and audio before the first header gives none |
| HidForest.AddCollectionWellFormed | BluetoothRemoteControl/HID.h:258-263 | a new child is listed by its parent and by nobody else, after all before it |
| HidForest.AddReportWellFormed | BluetoothRemoteControl/HID.h:251-256 | the same for reports |
| HidForest.AddElementWellFormed | BluetoothRemoteControl/HID.h:184-189 | adding an element keeps all links |
| HidForest.GrownTree | BluetoothRemoteControl/HID.h:251-263 | subtrees of later nodes stay as they are while a collection grows |
| HidItems.ReadExact | BluetoothRemoteControl/HID.cpp:45-66 | reading fails if and only if there are no operand bytes; otherwise it moves over them and gives them lowest first, or zero when they reach the end of the map |
| HidItems.ScanItem | BluetoothRemoteControl/HID.cpp:76-89 | every item moves on |
| HidItems.Interpret | BluetoothRemoteControl/HID.cpp:88-156 | every item leaves the current collection and report inside the tree |
| HidItems.MakeUsage | BluetoothRemoteControl/HID.h:71-75 | the page is the upper half of a usage, the usage item the lower |
| HidLiterals.ShortUsageCollection | BluetoothRemoteControl/HID.cpp:119-147 | the bytes 05 page 09 usage A1 category C0, for all three operands: one collection, its usage made of page and usage |
| HidLiterals.FirstUsageCollection | BluetoothRemoteControl/HID.cpp:101-104 | of two usages a collection gets the first |
| HidLiterals.LongUsageCollection | BluetoothRemoteControl/HID.cpp:140-144 | a four-byte usage is taken as it is, lowest byte first, whatever the page at hand |
| HidLiterals.EveryItem | BluetoothRemoteControl/HID.cpp:88-157 | a map with every kind of item, for all operands: the one collection and report, and the three elements field by field; usages and bounds belong to the first element only |
| HidLiterals.NoReportID | BluetoothRemoteControl/HID.cpp:68-74 | an element without a report ID makes a report numbered zero in the collection at hand |
| HidLiterals.ParseShort | BluetoothRemoteControl/HID.cpp:76-89 | a descriptor byte with one operand byte that is not the last of the map: split into kind, tag and size, operand taken |
| HidLiterals.ParseLong | BluetoothRemoteControl/HID.cpp:55-59 | the same with four operand bytes, lowest first |
| HidLiterals.OthersIgnored | BluetoothRemoteControl/HID.cpp:112-157 | any other item changes nothing, but a main item clears what is pending |
| HidLiterals.Fails | BluetoothRemoteControl/HID.cpp:60-63 | the byte FC, and an item without the operand it needs, make the parse fail |
| HidStructure.InterpretGrew | BluetoothRemoteControl/HID.cpp:88-156 | an item keeps the tree well-formed and adds exactly the collection or element it stands for |
| HidStructure.InterpretNests | BluetoothRemoteControl/HID.cpp:101-111 | an item moves the current collection as it nests; only an end at a root collection fails |
| HidStructure.ParseStructure | BluetoothRemoteControl/HID.cpp:26-162 | for arbitrary bytes: success if and only if all items can be read and nest, links are sound, lists only grow, and on success one node per collection item, one element per element item, depth equal to the nesting |
| HidParser.Parser.Operand | BluetoothRemoteControl/HID.cpp:45-66 | the read lambda: operand, new position, failure |
| HidParser.Parser.CollectElement | BluetoothRemoteControl/HID.cpp:68-74 | an element for the report at hand, made up when there is none |
| HidParser.Parser.MainItem | BluetoothRemoteControl/HID.cpp:88-118 | the objects follow the meaning of a main item, locals cleared |
| HidParser.Parser.GlobalItem | BluetoothRemoteControl/HID.cpp:119-137 | the same for global items |
| HidParser.Parser.LocalItem | BluetoothRemoteControl/HID.cpp:138-157 | the same for local items |
| HidParser.ParseReportMap | BluetoothRemoteControl/HID.cpp:26-162 | the linked objects represent the tree of the specification, and the result says whether parsing succeeded |
| HidPrint.ScanPrinted | BluetoothRemoteControl/HID.cpp:45-89 | scanning a printed item gives it back, its operand zero at the very end of the map |
| HidPrint.ParsePrinted | BluetoothRemoteControl/HID.cpp:43-159 | parsing printed items is interpreting them one by one, the last operand as zero |
| HidBuild.PutTreeHolds | BluetoothRemoteControl/HID.h:251-263 | building a tree below a collection adds exactly that tree to what is read there |
| HidRoundTrip.FeedTree | BluetoothRemoteControl/HID.cpp:88-157 | the items of a tree build it in the current collection and return there |
| HidRoundTrip.RoundTrip | BluetoothRemoteControl/HID.cpp:26-162 | parsing a printed tree succeeds and gives it back, less the operand at the very end |
| HidRoundTrip.RoundTripExact | BluetoothRemoteControl/HID.cpp:26-162 | the same tree comes back if and only if the map does not end in a non-zero operand; with a top-level collection it always does |
| HidRoundTrip.LastFieldLost | BluetoothRemoteControl/HID.cpp:45-66 | a single report without elements comes back without its ID |
| SequencerRuns.JumpsToNearest | Commander/Commander.h:421-450 | the next step is the nearest later one with the label, else the nearest at or before, else the following; and nothing else |
| SequencerRuns.LeadsBack | Commander/Commander.h:434-449 | a result leads back if and only if no later step has its label and this or an earlier one has |
| SequencerRuns.LoadsAll | Commander/Commander.h:337-353 | commands that are all known become the list as they are, ready at the first |
| SequencerRuns.LoadsInOrder | Commander/Commander.h:337-350 | loading a ++ b gives what loading a gives followed by what loading b gives |
| SequencerRuns.LoadsOne | Commander/Commander.h:340-349 | a single command is kept if and only if its item is known |
| SequencerRuns.ProgramExecutes | Commander/Commander.h:321-459 | a program loaded, started and taken up executes its own commands from the first on, by the jumps its results call for, whatever happens meanwhile |
| SequencerRuns.StraightThrough | Commander/Commander.h:434-449 | results without a label: one step after the other, each once, to the last |
| SequencerRuns.GoodExact | Commander/Commander.h:321-459 | every operation keeps the invariant, in which an active sequence has a current step, if and only if it does not empty a loaded sequence |
| SequencerRuns.RunGoodExact | Commander/Commander.h:321-459 | the same over every interleaving |
| SequencerRuns.SafeExact | Commander/Commander.h:321-459 | one call or return is safe if and only if it does not load over an active sequence, abort a running one without steps, or begin with nothing to run |
| SequencerRuns.RunSafeExact | Commander/Commander.h:321-459 | over every interleaving: no access out of range and every assertion holds if and only if no event is one of these |
| SequencerRuns.RunHasStepExact | Commander/Commander.h:362-377 | over every interleaving: an active machine has a current step at every lock-free point if and only if no emptied sequence is started |
| SequencerRuns.HasStepCalls | Commander/Commander.h:378-394 | then no access goes out of range |
| SequencerRuns.BusyLoadUnsafe | Commander/Commander.cpp:242-249 | two requests that both found the sequencer idle: the assertion at Commander/Commander.h:327 fails |
| SequencerRuns.IdleBeginUnsafe | Commander/Commander.cpp:246-249 | a request without a valid command: the assertion at Commander/Commander.h:453 fails |
| SequencerRuns.EmptiedLoadUnsafe | Commander/Commander.h:352-387 | load, empty load, execute, abort: an access out of range |
| SequencerRuns.StepsFrozen | Commander/Commander.h:329-333 | the list of an active sequence does not change until the worker ends it |
| SequencerRuns.ExecutesTrace | Commander/Commander.h:406-459 | whatever callers do, the steps executed are those the jumps lead to, up to the aborted one |
| SequencerRuns.ForwardOnce | Commander/Commander.h:411-450 | without jumps back, strictly increasing steps, each at most once |
| Sequencer.Sequencer.Load | Commander/Commander.h:321-361 | the commands the factory makes become the list, unless a sequence is active, and then the assertion fails |
| Sequencer.Sequencer.Execute | Commander/Commander.h:362-377 | starts a loaded sequence and only that |
| Sequencer.Sequencer.Abort | Commander/Commander.h:378-394 | a running sequence is aborted, and its current step told |
| Sequencer.Sequencer.Index | Commander/Commander.h:289-304 | the current index while a sequence is active, all ones otherwise |
| Sequencer.Sequencer.Label | Commander/Commander.h:305-320 | the label of the current step of an active sequence, empty without one; in a good machine there always is one |
| Sequencer.Sequencer.Jump | Commander/Commander.h:421-450 | the two search loops reach the target of the jump |
| Sequencer.Sequencer.DispatchBegin | Commander/Commander.h:406-415 | the object follows the worker's start |
| Sequencer.Sequencer.DispatchReturn | Commander/Commander.h:417-459 | the object follows the return of a step |
| PlayerRuns.RoomyExact | BluetoothAudio/BluetoothAudioSink.h:368-369 | a frame fits whenever one is fetched if and only if it is at most twice the preferred size or that is at most one |
| PlayerRuns.OverrunsExact | BluetoothAudio/BluetoothAudioSink.h:483-489 | some frames overrun the buffer if and only if the sizes do not fit |
| PlayerRuns.Overrunning | BluetoothAudio/BluetoothAudioSink.h:483-489 | otherwise a single byte from the source makes too little room |
| PlayerRuns.WorkKeeps | BluetoothAudio/BluetoothAudioSink.h:472-544 | one round: sent ++ pending equals what was pending ++ what was fetched |
| PlayerRuns.RunKeeps | BluetoothAudio/BluetoothAudioSink.h:472-544 | over every run since the start: sent ++ pending equals all bytes fetched, in order |
| PlayerRuns.AcceptsAllExact | BluetoothAudio/BluetoothAudioSink.h:486-489 | nothing of the frames is lost if and only if each fits the buffer and a sixteen-bit length |
| PlayerRuns.SendsExact | BluetoothAudio/BluetoothAudioSink.h:515-527 | a willing transport gets nothing of enough pending bytes if and only if their number is a multiple of 65536 |
| PlayerRuns.FillExact | BluetoothAudio/BluetoothAudioSink.h:483-505 | the refill stops with the preferred amount, at a frame that gives nothing, or at the end of the frames, and not before |
| PlayerRuns.FetchesExact | BluetoothAudio/BluetoothAudioSink.h:477-508 | a round fetches if and only if less than the minimum is pending and the end was not signalled |
| PlayerRuns.SendsPrefix | BluetoothAudio/BluetoothAudioSink.h:510-535 | what goes out is the front of what is pending, of exactly the length the transport takes of the sixteen-bit length offered; a closed transport signals the end |
| PlayerRuns.BlocksExact | BluetoothAudio/BluetoothAudioSink.h:537-541 | the thread blocks if and only if nothing went out and the end was signalled |
| PlayerRuns.SamplesExact | BluetoothAudio/BluetoothAudioSink.h:452-464 | the samples of some bytes are as many as are whole |
| PlayerRuns.PlayTimeExact | BluetoothAudio/BluetoothAudioSink.h:467-470 | a thousand milliseconds for every second of samples |
| PlayerRuns.StallsExact | BluetoothAudio/BluetoothAudioSink.h:491-503 | the clock is folded in a round if and only if less than the minimum is there with all the source has |
| PlayerRuns.StopExact | BluetoothAudio/BluetoothAudioSink.h:414-429 | a stop folds the play time, signals the end, and leaves what is pending |
| PlayerRuns.StoppedFetchesNothing | BluetoothAudio/BluetoothAudioSink.h:414-429 | after a stop no frame is fetched until the player is started again |
| PlayerRuns.RestartFetches | BluetoothAudio/BluetoothAudioSink.h:396-413 | started again, it is empty, fetches at once, and does not block |
| PlayerRuns.HaltedRun | BluetoothAudio/BluetoothAudioSink.h:472-544 | then nothing is sent or fetched until the player is started again |
| PlayerRuns.HaltingRun | BluetoothAudio/BluetoothAudioSink.h:472-544 | two frames that bring a new player there |
| PlayerClock.FoldKeepsTime | BluetoothAudio/BluetoothAudioSink.h:496-498 | folding the play time never changes the time reported, wrap-around included |
| PlayerClock.RunTime | BluetoothAudio/BluetoothAudioSink.h:414-470 | over every run the time never goes back, is never ahead of the samples played, and lags by less than folds + 1 milliseconds |
| PlayerClock.PlayerTime | BluetoothAudio/BluetoothAudioSink.h:414-470 | the same for a new player |
| AudioPlayer.AudioPlayer.constructor | BluetoothAudio/BluetoothAudioSink.h:336-383 | the buffer has the computed size, and nothing is pending |
| AudioPlayer.AudioPlayer.Fetch | BluetoothAudio/BluetoothAudioSink.h:315-332 | the frame's bytes end up behind the pending ones, inside the buffer |
| AudioPlayer.AudioPlayer.Replenish | BluetoothAudio/BluetoothAudioSink.h:482-504 | the refill loop fetches until the preferred amount is there or the source has none, with room for every frame |
| AudioPlayer.AudioPlayer.Worker | BluetoothAudio/BluetoothAudioSink.h:472-544 | buffer, clock, bytes sent and blocking follow the round of the specification, as long as the code's own assertion holds |
| AudioPlayer.AudioPlayer.Play | BluetoothAudio/BluetoothAudioSink.h:396-413 | nothing pending, not at the end; refused without usable buffers and transport |
| AudioPlayer.AudioPlayer.Stop | BluetoothAudio/BluetoothAudioSink.h:414-429 | the play time is folded and the end of the stream set; refused likewise |
| AudioPlayer.AudioPlayer.Time | BluetoothAudio/BluetoothAudioSink.h:430-443 | the reported time, zero when unusable |
| SinkRuns.CoupledExact | BluetoothAudio/AudioEndpoint.h:288-596 | every operation keeps endpoint, sink and player in step if and only if it is not a device loss, nor the end of a session that the source refuses or that finds the device gone |
| SinkRuns.RunCoupledExact | BluetoothAudio/BluetoothAudioSink.h:1013-1248 | the same over every run, and no call ever reaches a missing player |
| SinkRuns.RefusalSticks | BluetoothAudio/BluetoothAudioSink.h:1963-1983 | the machines end up with an idle endpoint and a live player if and only if a source refused to relinquish |
| SinkRuns.RefusedSessionSticks | BluetoothAudio/BluetoothAudioSink.h:1963-1983 | a session whose source refuses, from the start: stuck |
| SinkRuns.StuckForever | BluetoothAudio/BluetoothAudioSink.h:1013-1223 | from there nothing but losing the device helps |
| SinkRuns.FoundAgain | BluetoothAudio/BluetoothAudioSink.h:1293-1330 | after losing and finding the device the machines are in step if and only if the endpoint was outside a session; otherwise an abort helps |
| SinkRuns.ClientsTold | BluetoothAudio/BluetoothAudioSink.h:1013-1223 | success tells a client what it brought about, failure that nothing changed |
| SinkRuns.SucceedsExact | BluetoothAudio/AudioEndpoint.h:288-596 | in step, an operation reports success if and only if state and peers allow it, and then arrives where it should |
| SinkRuns.OtherSpeeds | BluetoothAudio/BluetoothAudioSink.h:1136-1178 | a speed that is neither stop nor normal is refused and changes nothing |
| SinkRuns.UnmatchedUnusable | BluetoothAudio/BluetoothAudioSink.h:1293-1330 | a device found without a matching endpoint: every client call is refused until it is lost |
| SinkRuns.AbortUnopened | BluetoothAudio/AudioEndpoint.h:572-595 | aborting a configured endpoint works, and reports an error |
| AudioSink.AudioEndpoint.OnSetConfiguration | BluetoothAudio/AudioEndpoint.h:417-469 | the objects follow the specification of the operation |
| AudioSink.AudioEndpoint.OnOpen | BluetoothAudio/AudioEndpoint.h:474-496 | the same |
| AudioSink.AudioEndpoint.OnStart | BluetoothAudio/AudioEndpoint.h:523-546 | the same; a player exists |
| AudioSink.AudioEndpoint.OnSuspend | BluetoothAudio/AudioEndpoint.h:547-571 | the same; a player exists |
| AudioSink.AudioEndpoint.OnClose | BluetoothAudio/AudioEndpoint.h:497-522 | the same |
| AudioSink.AudioEndpoint.OnAbort | BluetoothAudio/AudioEndpoint.h:572-595 | the same |
| AudioSink.AudioEndpoint.Open | BluetoothAudio/AudioEndpoint.h:330-350 | the same |
| AudioSink.AudioEndpoint.Close | BluetoothAudio/AudioEndpoint.h:351-371 | the same |
| AudioSink.AudioEndpoint.Abort | BluetoothAudio/AudioEndpoint.h:372-391 | the same |
| AudioSink.AudioEndpoint.Disconnected | BluetoothAudio/AudioEndpoint.h:392-410 | the same |
| AudioSink.A2DPSink.OnAcquire | BluetoothAudio/BluetoothAudioSink.h:1092-1135 | one player made on success, none left on failure |
| AudioSink.A2DPSink.SetSpeed | BluetoothAudio/BluetoothAudioSink.h:1136-1178 | start and suspend where the state allows, the same speed again accepted |
| AudioSink.A2DPSink.OnSetSpeed | BluetoothAudio/BluetoothAudioSink.h:1179-1205 | the sink's state follows the player |
| AudioSink.A2DPSink.OnRelinquish | BluetoothAudio/BluetoothAudioSink.h:1225-1248 | the player is gone; connected only if the device is |
| AudioSink.A2DPSink.OnDeviceDisconnected | BluetoothAudio/BluetoothAudioSink.h:1310-1330 | player and endpoint are dropped, the endpoint's own state stays |
| AudioSink.BluetoothAudioSink.OnRelinquish | BluetoothAudio/BluetoothAudioSink.h:1963-1983 | the sink is asked only if the source agreed |
| AudioSink.BluetoothAudioSink.OnSetSpeed | BluetoothAudio/BluetoothAudioSink.h:1985-2003 | the same for speeds |
| AudioSink.BluetoothAudioSink.Perform | BluetoothAudio/AudioEndpoint.h:240-596 | any operation performed on the objects keeps them in step if and only if it is not a breaking one |
| AudioSink.PerformAll | BluetoothAudio/BluetoothAudioSink.h:1013-1248 | any run without a breaking operation can be performed on new objects, which stay in step |

## Left out

- Compositor.Compositor.PutBefore: requires the moved callsign's layers to be neighbours; otherwise the code moves what lies between them along, or fails its assertion (Compositor/Compositor.cpp:122). `RunExact` says when runs keep all callsigns in one piece.
- Compositor.Compositor.Attached: requires that the client object is not also attached under another name, and at most 65535 clients, since places are sixteen-bit numbers.
- RingBuffer.RingBuffer.Resize: says what a size not above the stored bytes leaves behind, and promises nothing for later calls then.
- VoiceRuns.RunNumbered: for positive chunk sizes only; without chunk sizes see `RunPassesOn`. With only a first chunk size both kinds of numbers occur.
- VoiceRuns.EndDelivers: for the chunk sizes that conserve bytes (`ConservingConfigs`); for the others bytes are out of order already.
- Sequencer.Sequencer.Abort: requires that a running sequence has a current step, without which the source reads past its list; `RunHasStepExact` says when it has.
- FourModRuns.CompletesExactly: long packets are exactly 20 bytes; longer ones make the eight-bit offset and the copies run out of step. The offset, uninitialised in the source, starts at zero.
- FourModDecoder.Adpcm.AddFrame: requires packets that fit the package at the point reached, which longer packets need not.
- ImaAdpcm.Decoder.DecodeNibble: the step index starts in 0..88; the wire value is not checked by the code.
- Tech4HomeDecoder.DecodeAll: for packets below 4096 bytes, so that sixteen-bit lengths have room for all samples.
- Tech4HomeRuns.DropsExact: wire numbers are below 32 and counters below 2^32 - 1, which marks an unset counter.
- Tech4HomeDecoder.Adpcm.Decode: agreement of this form with the PCM form beyond the first audio packet after a header is not claimed: every packet repeats the header's preamble.
- HidParser.ParseReportMap: lengths are unbounded here and sixteen-bit in the source; maps of up to 65535 bytes behave the same.
- SequencerRuns.RunSafeExact: the job queue is not modelled; a job revoked after an abort leaves the sequence aborting for good, so no claim that every sequence ends idle.
- PlayerClock.RunTime: for sample counts and milliseconds below 2^32, after which the counters wrap.
- AudioPlayer.AudioPlayer.Worker: requires that every frame fetched finds room, as the code asserts; waiting for the device to catch up, the start time and the state of the thread are not modelled; frames, transport and its readiness are parameters. The play time and the offset wrap, as does the sixteen-bit length offered to the transport.
- SinkRuns.RunCoupledExact: every operation is one step; the remote device, the transport, the codec, the source and the device's connection answer as parameters. Assigning and revoking a sink device is not modelled.
- Sockets, AVDTP and SDP messages, GATT discovery, shared memory, files, JSON and web requests: input and output over libraries that are not part of this model.
- Reference counts, tracing, notifications and recording to WAV files: no property here depends on them.
- The device bits of BluetoothControl, the plugins around vendor libraries and the JSON-RPC multiplexer: no further algorithm of this kind.
