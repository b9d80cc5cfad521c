# A verified model of the modem's data path

This project models the exact, discrete parts of a software modem written in C and proves what
they promise: the V.42 error-correcting link and its HDLC framing, the V.34 shell mapper, mapping
frames, superframes and soft decoder, the V.32bis trellis code and its Viterbi decoder, the
start-stop converters, Phase 4 of V.34 start-up, and the hand-over of bytes from start-up to data
mode. The signal processing is cut away: transmitters end at constellation points or line bits,
receivers begin at coordinates or line bits.

`dafny verify dfyconfig.toml` verifies the whole project.

## How it is laid out

Code that updates state in place is modelled by classes and methods with loops (`Arq`,
`HdlcCodec`, `HdlcStream`, `ShellCodec`, `V34FrameCodec`, `V34Soft`, `V34DataStream`,
`V34DataReceiver`, `V32Viterbi`, `V32Data`, `Uart`, `Handoff`, `V34Phase4`,
`V34Phase4Receiver`). Each method is tied to a function of its inputs or of the old state, and
the theorems are about those functions (`ArqSpec`, `Hdlc`, `StreamSpec`, `ShellMapper`,
`V34Frame`, `V34Superframe`, `V32Line`, `Async`).

| part of the modem | files |
|---|---|
| bits, rings, lockstep of sender and receiver | Bits, Ring, Queues, Transducer, Lockstep, Reals, Wrappers |
| HDLC frames and streams | Hdlc, HdlcCodec, HdlcErrors, HdlcKnown, StreamSpec, HdlcStream, StreamDelivery |
| the error-correcting link | Lapm, ArqSpec, Arq, ArqLink, ArqWire, ArqAnswers, ArqRecovery, ArqTimer |
| V.34 shell mapper | ShellCounts, ShellRank, ShellParams, ShellMapper, ShellCodec |
| V.34 mapping frames | V34Points, V34Trellis, V34Parse, V34Interval, V34Frame, V34RoundTrip, V34FrameCodec, V34Soft |
| V.34 superframes and clock | Scrambler, V34Framing, V34Superframe, V34DataStream, V34DataReceiver, V34Loopback |
| V.32bis | V32Map, V32Trellis, V32Turns, V32Distance, V32Viterbi, V32Line, V32Data |
| start-stop conversion and start-up | Async, Uart, Handoff, StartupDelivery, V34Mp, V34Phase4, V34Phase4Receiver |

Two devices keep the proofs short. `Lockstep` proves once that a receiver whose step undoes the
sender's step, both going on from equal states, undoes any number of steps. Heavy definitions are
passed as function values in records (`Coder`, `Shells`, `Link`, `Opening`), so that a proof sees
only the laws it uses.

## Model

| member | source | states |
|---|---|---|
| `ArqWire.Safety` | src/v42_arq.c:10-59 | Two ends joined by lines that keep order and may lose any frame, exchanging HDLC-encoded LAPM frames: in every run, what an end has delivered is a prefix of what the other accepted, and all of it once nothing is outstanding. Runs include any window from 1 to 127, wrap of the seven-bit numbers, REJ, RNR, full rings and retransmission. |
| `ArqLink.Safety` | src/v42_arq.c:24-59 | The same for ends that exchange frames as values; the seven-bit tests are shown to be exact against unbounded numbers. |
| `ArqWire.StepMatches` | src/v42_arq.c:33-45 | Every step on the bit lines is a short run of the abstract link; a frame that does not fit the caller's buffer is at worst a frame lost. |
| `ArqRecovery.Recovery` | src/v42_arq.c:24-59 | In particular, from every state a run can reach in which no end has given up (frames outstanding, none left to send, retries used up), one continuation without further loss gets everything both ends accepted delivered and acknowledged. |
| `ArqRecovery.RecoversExactly` | src/v42_arq.c:24-59 | From every state a run can reach, whatever is on the lines: an end can finish without further loss if and only if it has not given up; or an answer that acknowledges everything or asks for a repetition is on its way, waits, or can come of the frames on the lines and the room in the far ring; or the far end holds everything and can send an I frame, or be asked to repeat one. The condition is computed from the state; and when it holds a continuation will do in which no retry limit is passed. |
| `ArqRecovery.BothRecoverExactly` | src/v42_arq.c:24-59 | From every state a run can reach both ends can finish in one continuation if and only if each of them can. |
| `ArqRecovery.RecoversWorking` | src/v42_session.c:60 | As long as no end has passed its retry limit, so that the session still drives both, the same condition decides whether one end, or both, can finish in a continuation in which that stays so. |
| `ArqRecovery.WriteRevives` | src/v42_arq.c:10-19 | A write of which the window takes anything lets an end that has given up finish again. |
| `ArqAnswers.QuietCondition` | src/v42_arq.c:24-59 | With nothing on the lines and no answer waiting the condition is: not given up, or the far end holds everything and still has an I frame to send or repeat. |
| `ArqAnswers.NeverFinishes` | src/v42_arq.c:24-59 | An end for which the condition fails stays so along every continuation without writes and losses. |
| `ArqRecovery.GivesUp` | src/v42_arq.c:59 | A run, four losses of the only frame, after which no continuation without writes and losses delivers what was accepted. |
| `Arq.Endpoint.Write` | src/v42_arq.c:10-19 | The loop over slots computes `ArqSpec.Write`: chunks of at most `max_info` octets enter the window while it has room. |
| `Arq.Endpoint.Next` | src/v42_arq.c:33-42 | The next frame's bits: a waiting S frame, else the I frame at the send cursor; an I frame that does not fit waits, an S frame that does not fit is gone. |
| `Arq.Endpoint.Receive` | src/v42_arq.c:44-58 | Decoding, acknowledgement and delivery in place compute `ArqSpec.Receive` on the whole state; and if the window has become empty, the retries are renewed and T401 is stopped. |
| `Arq.Endpoint.Advance` | src/v42_arq.c:59 | Expiry of T401: back to the first frame not acknowledged, or failure when the retries are used up. |
| `ArqSpec.AnswerIs` | src/v42_arq.c:44-54 | An I frame is answered with RR if it was the next and there was room, or if it is the one taken last; with RNR if there was no room; and with REJ in all other cases. It is delivered in the first case only. |
| `ArqSpec.CursorIs` | src/v42_arq.c:55-58 | After REJ sending goes on at the frame asked for; after RR and RNR where it was, unless that has been acknowledged. |
| `ArqSpec.FullAckRenews` | src/v42_arq.c:24-31 | An I frame, RR, RNR or REJ that acknowledges everything outstanding empties the window, renews the retries and clears the deadline. |
| `ArqSpec.EmptiedRenews` | src/v42_arq.c:24-31 | Whatever was received: if it empties the window, the retries are renewed and the deadline is cleared. |
| `ArqTimer.RetriesAre` | src/v42_arq.c:30-59 | In every run the retry count of an end is the number of times T401 has run out since its window was last empty. |
| `ArqTimer.FailsExactly` | src/v42_arq.c:59 | In every run an end has failed if and only if T401 has at some moment run out four times without its window having been empty. |
| `ArqTimer.TimerIs` | src/v42_arq.c:24-59 | In every run T401 runs out exactly when 1000 ms or more have passed since it was last started, by the first frame sent with no timer running, by an acknowledgement in the window that leaves frames outstanding, or by running out, and frames are outstanding. |
| `ArqSpec.WriteTakes` | src/v42_arq.c:10-19 | A write takes as many octets as the free places of the window hold at `max_info` octets each, or all there are. |
| `ArqSpec.FreshTakes` | src/v42_arq.c:6-19 | So a new link takes 1024 octets, in frames of 128. |
| `ArqLink.WriteOwn` | src/v42_arq.c:10-19 | The octets a write takes are cut into frames of `max_info` octets of which only the last may be shorter, in order, behind those already accepted. |
| `Lapm.IRoundTrip` | src/v42_lapm.c:5-8 | Every I frame the encoder accepts is decoded to its fields and information. |
| `Lapm.SRoundTrip` | src/v42_lapm.c:6-8 | Every supervisory frame is decoded to its kind and N(R). |
| `Lapm.AlwaysFits` | src/v42_lapm.c:5-6 | A buffer of V42_HDLC_MAX_BITS takes every S frame, and an I frame exactly when it has at most 255 octets of information. |
| `Lapm.FramesKnown` | src/v42_lapm.c:4-8 | Some frames octet by octet: I frame 127 that acknowledges up to 72, RR, RNR, REJ and SREJ. |
| `Hdlc.RoundTrip` | src/v42_hdlc.c:21-56 | Every frame of 1 to 258 octets is decoded from its stuffed, flag-delimited line form to itself. |
| `Hdlc.OnlyTwoFlags` | src/v42_hdlc.c:21-44 | A flag starts in an encoded frame at the first and the last eight bits and nowhere else. |
| `Hdlc.UnstuffStuff` | src/v42_hdlc.c:27-49 | Zero removal returns the bits that zero insertion was given, from any run of ones below five. |
| `Hdlc.EncodedLength` | src/v42_hdlc.c:21-36 | Every frame of at most 258 octets takes at most 2512 bits on the line, which is within V42_HDLC_MAX_BITS. |
| `Hdlc.FcsResidue` | src/v42_hdlc.c:4-14 | Appending the complemented check sequence, low octet first, always leaves the residue the decoder tests for. |
| `HdlcKnown.GeneratorLaw` | src/v42_hdlc.c:4-9 | From any register, after any bits, the register holds at place i the sum of the bits fed back 4, 11 and 16 places before, and of what is left of the register at the start. |
| `HdlcKnown.QuotientLaw` | src/v42_hdlc.c:4-9 | So the bits fed back are the quotient of the division by x^16 + x^12 + x^5 + 1. |
| `HdlcKnown.DigitsChecked` | tests/test_v42_hdlc.c:5 | The check octets of the nine characters 1 to 9 are 6e 90. |
| `HdlcKnown.ReadyChecked` | src/v42_hdlc.c:11-14 | Those of the first RR frame, 03 01 00, are 70 30. |
| `HdlcKnown.LeadingZero` | src/v42_hdlc.c:11-51 | What starting from ones is for: a zero octet before a good frame makes the check fail. |
| `HdlcCodec.EncodeRaw` | src/v42_hdlc.c:21-36 | The encoder's loops over a bit buffer write exactly `Hdlc.Encoded`, or report failure exactly when it does not fit or the frame is too long. What the check octets in it are is the subject of the `HdlcKnown` rows. |
| `HdlcCodec.DecodeRaw` | src/v42_hdlc.c:38-56 | The decoder's flag search, zero removal and check compute `Hdlc.Decoded` on any bits. |
| `HdlcErrors.UpdateBijection` | src/v42_hdlc.c:4-9 | For every octet the register update is a bijection. |
| `HdlcErrors.BurstDetected` | src/v42_hdlc.c:4-14 | A change confined to any sixteen consecutive bits of a good frame of any length, in line order before zero insertion, makes the check fail. |
| `HdlcErrors.AdjacentOctetsDetected` | src/v42_hdlc.c:4-14 | So does a change confined to two adjacent octets. |
| `StreamDelivery.Delivery` | src/v42_stream.c:10-53 | Whatever the idle gaps when frames are queued, the pieces in which octets arrive and the bits still on their way, the received pieces that decode are the first of the frames sent, in order, and all of them once the queue is empty and nothing is on its way, while the frame queue does not overflow. |
| `HdlcStream.Stream.Send` | src/v42_stream.c:10-15 | The bits of a frame are queued, all of them, if fewer than 16384 would then wait, and none otherwise. |
| `StreamDelivery.AllTaken` | src/v42_stream.c:10-15 | Frames of any length are taken one after another as long as 2512 bits for each of them fit behind those that wait. |
| `StreamDelivery.SixTaken` | src/v42_stream.c:10-15 | So an empty stream takes any six frames. |
| `StreamDelivery.Drained` | src/v42_stream.c:16-25 | An octet for every eight bits that wait empties the queue. |
| `HdlcStream.Stream.TxBytes` | src/v42_stream.c:16-25 | The ring of queued bits goes out octet by octet, filled up with idle flag bits. |
| `HdlcStream.Stream.RxBytes` | src/v42_stream.c:33-45 | The assembling buffer cuts the stream at flags and queues the pieces `StreamSpec` says, dropping those that find the queue full. |
| `ShellMapper.MapUnmap` | src/v34_mapper.c:174-313 | Whatever the shell mapper produces are eight rings below the ring count, and unmapping gives the bits back. |
| `ShellMapper.UnmapMap` | src/v34_mapper.c:174-313 | Every tuple of rings that unmapping accepts maps back to itself. |
| `ShellMapper.EveryWordMaps` | src/v34_mapper.c:11-43 | With the parameters of any frame length and either ring count, every word of shell bits maps. |
| `ShellMapper.LeastTotals` | src/v34_mapper.c:174-214 | The tuples in use are of least sum: none left out has a smaller sum than one that some word maps to. |
| `ShellMapper.RankOrders` | src/v34_mapper.c:251-313 | The rank of a tuple is its place in this order: by the sum of all eight rings, then of the first four, then by the last four and last by the first four, each of these by the sum of its first two, then by its third ring and last by its first. |
| `ShellMapper.MapOrders` | src/v34_mapper.c:174-214 | The words, as numbers with the first bit the least, map in that order. |
| `ShellMapper.PairsCounted` | src/v34_mapper.c:129-133 | The pair table holds the number of pairs of rings of each sum. |
| `ShellMapper.FoursCounted` | src/v34_mapper.c:134-137 | The next table holds the number of four-tuples of rings of each sum. |
| `ShellMapper.EightsCounted` | src/v34_mapper.c:138-141 | The last table holds the number of eight-tuples of rings of each sum. |
| `ShellCounts.EightTotal` | src/v34_mapper.c:138-144 | The tables end where the source stops them, and the last running total is the eighth power of the ring count. |
| `ShellCodec.ShellMap` | src/v34_mapper.c:174-234 | The loops over the count tables compute `ShellMapper.Map`, with every table access in range. |
| `ShellCodec.ShellUnmap` | src/v34_mapper.c:251-313 | The loops over the count tables compute `ShellMapper.Unmap`. |
| `ShellParams.Init` | src/v34_mapper.c:11-43 | Accepted are 8 to 79 bits; the minimum ring count is the least that holds every word of shell bits, the expanded one the largest the rule allows. |
| `V34Parse.ParseEmit` | src/v34_data_decoder.c:134-187 | Every frame the parser accepts is put back together bit for bit, long and short frames, high and low. |
| `V34Parse.EmitParse` | src/v34_mapper.c:45-110 | Whatever is emitted parses to what it was emitted from. |
| `V34Parse.LargePlaces` | src/v34_mapper.c:74-110 | Where the bits of a long frame are: shell bits first, the last of them zero and not sent in a low frame; then four groups of three bits and the further bits of two points. |
| `V34Parse.SmallPlaces` | src/v34_mapper.c:46-72 | And of a short frame: no shell bits, and three bits or two for each group. |
| `V34Frame.CellPlaces` | src/v34_data_mapper.c:99-139 | Interval j takes group j, rings 2j and 2j + 1, and for its points the indices that have these rings above the group's further bits. |
| `V34Points.ConstellationInit` | src/v34_data_mapper.c:14-48 | The generated quarter constellation is the first 416 lattice points in order of energy, then coordinates. |
| `V34Points.FirstSix` | tests/test_v34_data_mapper.c:25-30 | Its first six points are (1,1), (-3,1), (1,-3), (-3,-3), (1,5), (5,1). |
| `V34Points.QuarterDecode` | src/v34_data_decoder.c:15-39 | A point is recognised exactly when it is a turned constellation point, with its turn and index. |
| `V34Trellis.AdvanceTurns` | src/v34_trellis.c:27-119 | All three trellis coders are invariant under quarter turns of the points. |
| `V34Trellis.InputsCount` | src/v34_trellis.c:27-75 | From one state two inputs lead to the same state if and only if they agree in y2 and y1 with 16 states, in y4 as well with 32, and in all four bits with 64. |
| `V34Trellis.SixteenLaw` | src/v34_trellis.c:27-75 | In every run of the 16-state coder: out(t) + out(t-4) = y1(t-1) + y2(t-2) + y2(t-3). |
| `V34Trellis.ThirtyTwoLaw` | src/v34_trellis.c:27-75 | Of the 32-state coder: out(t) + out(t-5) = y2(t-1) + y4(t-2) + y1(t-3) + y2(t-4). |
| `V34Trellis.SixtyFourLaw` | src/v34_trellis.c:27-75 | Of the 64-state coder, which is not linear: three of its cells, read off the outputs and inputs around an interval, satisfy the coder's one equation with a product. |
| `V34Trellis.PairMeans` | src/v34_trellis.c:96-119 | The four inputs for a pair of subsets: whether the two are in different halves, the turn of the first, and whether the second is turned from it by a half or more. |
| `V34Trellis.TurnedSubset` | src/v34_trellis.c:77-94 | A quarter point turned t times is of subset t or t + 4, by its kind. |
| `V34Interval.CoderInputs` | src/v34_trellis.c:132-161 | What the encoder tells the coder: whether the quarter points differ in kind, the two bits of the rotation, and the bit that turns the second point by a half; and the coder's output with the inversion bit is the parity of the two subsets sent. |
| `V34Interval.RotationsKnown` | tests/test_v34_data_mapper.c:53-66 | The differential encoder's rotations for six pairs of bits. |
| `V34Interval.ReadBack` | src/v34_data_decoder.c:84-129 | The decoder reads back what was sent in an interval, and both ends go on from the same state. |
| `V34RoundTrip.FrameRoundTrip` | src/v34_data_decoder.c:75-208 | For every frame the parser accepts, trellis, inversion pattern and starting state, the points sent decode to the bits, and the decoder ends in the encoder's state. |
| `V34RoundTrip.RunRoundTrip` | src/v34_data_mapper.c:99-139 | Any number of frames comes through bit for bit. |
| `V34RoundTrip.DecodedFrame` | src/v34_data_decoder.c:111-117 | A frame the decoder accepts is the one the encoder sends for its bits if and only if there are further index bits, or every point is among the first 256 of its quarter. |
| `V34RoundTrip.Impostor` | src/v34_data_decoder.c:111-113 | Without further index bits every frame has other points that decode to the same bits. |
| `V34RoundTrip.RunTurned` | src/v34_trellis.c:27-161 | A quarter turn of the carrier is invisible: a decoder in the turned state reads the same bits from the turned points. |
| `V34RoundTrip.CarrierTurned` | src/v34_trellis.c:27-161 | That holds of the source's coders, with each of the three trellis codes, every accepted frame length and both constellation sizes. |
| `V34FrameCodec.FrameEncoder.MapFrame` | src/v34_data_mapper.c:99-139 | Parsing, shell mapping and point selection of a frame the parser accepts do not fail, and give the points `V34Frame` says. |
| `V34FrameCodec.FrameEncoder.EncodeInterval` | src/v34_trellis.c:132-161 | The 4D encoder turns the second point by the trellis output and the inversion bit, and moves trellis and rotation on, as `V34Interval.Send` says; what the trellis makes of it is `V34Interval.CoderInputs` and the laws of the three coders. |
| `V34FrameCodec.FrameDecoder.DecodeMappingFrame` | src/v34_data_decoder.c:189-208 | The hard decoder computes `V34Frame.Decode`: the bits or a refusal, and the trellis and rotation it is left with in either case. |
| `V34Soft.DecodeSoft` | src/v34_data_decoder.c:228-397 | What the survivor search accepts is the hard decode of the points it reports as decided, which are among the candidates and follow the trellis. And for all coordinates: if one such sequence of candidates is nearer to them than all others, and the hard decoder accepts it, the search decides for it, although it keeps only two survivors for each state and rotation. |
| `V34Soft.CloseCheapest` | src/v34_data_decoder.c:228-262 | Points the hard decoder accepts are that nearest sequence whenever every coordinate is less than one unit of the grid from them. |
| `V34Soft.MakeCandidates` | src/v34_data_decoder.c:228-262 | The candidates are all those of the nine points around the sliced one that are in the constellation, each with its rotation, subset and squared distance. |
| `V34Soft.EligibleReach` | src/v34_data_decoder.c:228-262 | They are those that can matter: every constellation point less than two units of the grid from the coordinates is among them, and none further than three. |
| `V34Soft.NearestOfAll` | src/v34_data_decoder.c:228-397 | So if the nearest of all sequences the trellis can send lies within two units of the coordinates, it is the one `DecodeSoft` speaks of. |
| `V34Framing.GeometryInit` | src/v34_framing.c:3-4 | The symbol rates and data rates accepted; among the first i mapping frames floor(i r / P) are high, and the frame lengths add up to exactly the bits of a data frame. |
| `V34Framing.MaximumIs` | src/v34_framing.c:3 | The maximum rate of every symbol rate is the greatest multiple of 2400 bit/s for which no mapping frame needs more than 79 bits. |
| `V34Superframe.InversionsAre` | src/v34_framing.c:6-31 | A superframe's inversions: at the start of every data frame but the first and the third, and in the middle of the first six, and nowhere else. |
| `V34Framing.FramesParse` | src/v34_data_stream.c:33-46 | With a geometry and parameters that both initialisers accept, no mapping frame has a length the parser refuses. |
| `V34Framing.ClockCounts` | src/v34_timing.c:5-31 | At any two rates the clock counts the floor of samples times rate, or the samples if those are fewer. |
| `V34Framing.CountsFloorWhen` | src/v34_timing.c:5-31 | So it counts the floor after every number of samples if and only if there are at least as many samples as symbols. |
| `V34Framing.SamplesAreFirst` | src/v34_timing.c:33-44 | At no less than the symbol rate, `v34_samples_for_symbols` is the first sample at which a clock started at phase zero has reached so many symbols. |
| `V34Framing.SamplesFirstWhen` | src/v34_timing.c:33-44 | At any rate, that is so if and only if the number computed is no less than the number of symbols. |
| `V34Framing.SuperframeTakes2240` | src/v34_timing.c:19-31 | At 8000 samples a second, at every symbol rate and from any phase a symbol boundary leaves, a superframe ends on sample 2240 and leaves the phase as it was. |
| `V34Superframe.SuperframesRoundTrip` | src/v34_data_stream.c:7-158 | Any number of superframes comes through scrambler, encoder, decoder and descrambler bit for bit, all of them in step across the boundaries. |
| `V34DataStream.DataStream.AdvanceSymbol` | src/v34_data_stream.c:131-158 | The symbol, interval, frame and data frame counters visit every symbol of the superframe once and in order, and no step fails. |
| `V34DataStream.DataStream.NextSuperframe` | src/v34_data_stream.c:102-129 | A whole superframe of bits is accepted after the last, and its course is laid out from where scrambler, trellis and rotation stand. |
| `V34DataStream.GenerateSuperframe` | src/v34_data_stream.c:160-182 | At 8000 samples a second generating a superframe takes exactly 2240 active samples, and the symbols sent are those of the superframe. |
| `V34DataReceiver.DataReceiver.FinishMappingFrame` | src/v34_data_receiver.c:6-55 | Eight symbols are decided, decoded, descrambled and appended; the counters go on, and the superframe is complete at its last frame. |
| `V34DataReceiver.DataReceiver.FeedSymbol` | src/v34_data_receiver.c:101-115 | A symbol is sliced and stored; symbols less than one unit of the grid from those of an expected course are taken without failure until it is complete. |
| `V34Loopback.CarryAll` | src/v34_data_receiver.c:6-84 | Transmitter and soft receiver joined by any lines that move every coordinate by less than one unit of the grid, objects and loops as in the source: any number of superframes is returned bit for bit. |
| `V34Loopback.Carry` | src/v34_data_stream.c:102-158 | One superframe over such a line is returned bit for bit, and both ends are again in the same state. |
| `Scrambler.DescrambleScramble` | src/v34_training_symbols.c:39-60 | From equal histories the descrambler returns the bits, for every tap. |
| `Scrambler.LineLaw` | src/v34_training_symbols.c:39-50 | In every run a line bit is the data bit with the line bits `tap` and 23 places before added. |
| `Scrambler.OnesKnown` | tests/test_v34_training_symbols.c:26-37 | Ones from a cleared register: as many ones as the tap says, and then a zero. |
| `Scrambler.SelfSynchronises` | src/v32_std.c:3-4 | From any two histories the descrambler is right after 23 line bits. |
| `V32Map.MapInjective` | src/v32bis_map.c:29-30 | At every rate each label has a point of its own. |
| `V32Turns.CodeTurns` | src/v32bis_map.c:3-28 | A quarter turn of a constellation about its centre moves the subsets 0 to 7 to 7, 6, 4, 5, 3, 2, 0, 1 and keeps the bits within them. |
| `V32Turns.CarrierTurns` | src/v32bis_map.c:3-28 | A turn about the origin leads from points to points if and only if the rate is not 14400 bit/s. |
| `V32Trellis.PointInjective` | src/v32bis_trellis.c:2-9 | In one trellis state different branches send different points. |
| `V32Trellis.DelayLine` | tests/test_v32bis_trellis.c:7-18 | The table of successors is that of a line of three delay cells with two products. |
| `V32Turns.BranchTurns` | src/v32bis_trellis.c:2-9 | Turning a branch's point about the centre turns the branch and the states at both its ends. |
| `V32Turns.StatesTurnOnlySo` | src/v32bis_trellis.c:2-9 | No other renaming of the states does. |
| `V32Turns.RunTurns` | src/v32bis_trellis.c:2-9 | A run turned as a whole is the run of the turned branches from the turned state. |
| `V32Distance.LeastDistance` | src/v32bis_trellis.c:2-9 | Two different paths of any length that leave one state and meet again send points at least ten units apart in squared distance, a unit being half of what next neighbours are apart. |
| `V32Distance.LeastReached` | src/v32bis_trellis.c:2-9 | At every rate two paths are exactly that far apart. |
| `V32Distance.Neighbours` | src/v32bis_map.c:3-28 | No two points are nearer to each other than two units. |
| `V32Line.LineRoundTrip` | src/v32_std.c:3-7 | Scrambling, differential coding and branch selection of any number of symbols are undone by the receiver. |
| `V32Turns.DibitTurns` | src/v32_std.c:6-7 | Differential coding does not notice quarter turns: from the turned last dibit the code of a dibit is the turned code, and it is decoded alike. |
| `V32Turns.TurnedRead` | src/v32_std.c:3-7 | So whatever was sent is read bit for bit from the turned run. |
| `V32Line.DiffFrom` | src/v32_std.c:6 | From dibit 0 a dibit is coded as itself, and dibit 0 repeats the last. |
| `V32Line.FirstSymbols` | src/v32bis_data.c:9 | For the start bit and octet 01 a calling sender at 9600 bit/s begins with the labels 4 and 20. |
| `V32Viterbi.Viterbi.Put` | src/v32bis_viterbi.c:8 | Nothing for the first 31 symbols; then the payload 31 symbols old on a path from state 0 to which no path is nearer. The object's invariant says every metric is the least distance to its state and the circular arrays trace those paths. |
| `V32Viterbi.Viterbi.Traceback` | src/v32bis_viterbi.c:8 | Following predecessors through the circular array leads along the nearest path to the oldest symbol still stored. |
| `V32Data.EndToEnd` | src/v32bis_data.c:8-28 | When every symbol received is nearer to the point sent than to all other points of the rate, every symbol comes through bit for bit 31 symbols late, and what has been read and waits in the receive ring is the first of the bytes accepted, unless a byte found the ring full. |
| `V32Data.EndToEndComplete` | src/v32bis_data.c:8-28 | It is all of them once everything accepted had gone out and 31 further symbols have come. |
| `V32Data.Sender.Next` | src/v32bis_data.c:8-9 | The label of the next symbol is that of the trellis branch for the next scrambled bits, and those are the next bits of the frame under way, the queue, or idle marks; what the trellis and the differential code are is the subject of the `V32Turns`, `V32Distance` and `V32Line` rows. |
| `V32Data.Receiver.Put` | src/v32bis_data.c:10-28 | A decoded payload goes through differential decoding, descrambler and tolerant converter into the receive ring, with what is lost when that is full; every payload is on a nearest path. |
| `Async.TolerantReads` | src/v32bis_data.c:10-27 | After any idle marks, characters with stop bits deleted wherever the next character follows at once are read as exactly their bytes. |
| `Async.StrictReads` | src/v34_uart.c:69-94 | The V.34 converter reads any characters with their stop bits, and any marks between them, as exactly their bytes. |
| `Async.ZeroStop` | src/v34_uart.c:69-94 | With a zero where the stop bit should be the V.34 converter loses the character and waits; that of V.32bis keeps it and is in the next. |
| `Uart.SentReads` | src/v34_uart.c:40-57 | Whatever a converter has sent, a receiver of its bits puts out the first of the bytes accepted, in order, and all of them once queue and frame are empty. |
| `Uart.ByteGoesOut` | src/v34_uart.c:40-57 | With no frame under way the next bit takes the byte at the head of the queue and leaves nine, and ten bits are the frame of that byte. |
| `Uart.AllGoesOut` | src/v34_uart.c:40-67 | The rest of the frame under way and ten bits for every byte waiting send everything, in order, and leave nothing. |
| `Uart.Converter.FillBits` | src/v34_uart.c:59-67 | Exactly so many bits are taken, one by one, from the frame under way, the queue, or idle marks, and what is left to send is stated. |
| `Uart.Converter.FeedBits` | src/v34_uart.c:96-107 | The bytes that complete go into the queue while it has room. |
| `Handoff.ModemSession.Write` | src/v34_modem_session.c:179-196 | At any moment of start-up or data mode as many bytes are accepted as the ring in use has room for, behind everything accepted before. |
| `Handoff.ModemSession.StartTraining` | src/v34_modem_session.c:20-75 | Emptying the first pending ring into the session's terminates, cannot fail, and keeps every byte in order. |
| `Handoff.ModemSession.StartDataLink` | src/v34_session.c:77-112 | The same for the session's ring and the data link's. |
| `Handoff.ModemSession.StartData` | src/v34_b1_data_link.c:66-88 | The same for the data link's ring and the converter's queue. |
| `StartupDelivery.Course` | src/v34_modem_session.c:20-196 | For every course of writes, start-up steps, bits taken, bits fed in pieces of any size and reads, every event returns what the function `Play` of the events says (octets accepted, bits added, octets read), and both ends are left as it says. |
| `StartupDelivery.InOrder` | src/v34_modem_session.c:20-196 | Of every such course: until the far ring overflows, what its user has read and what it holds is the first of what the writes accepted, in order; and all of it once nothing is left to send and nothing on the line. |
| `StartupDelivery.DropsWhenFull` | src/v34_uart.c:69-107 | A byte is dropped only once at least as many are accepted and unread as the far ring has places. |
| `StartupDelivery.AllArrives` | src/v34_modem_session.c:20-196 | In data mode, whatever came before, two further events bring every byte accepted to the far end, and a third to its user, if no more are unread than its ring holds. |
| `StartupDelivery.FeedPiece` | src/v34_uart.c:69-107 | A piece of the line leaves the far receiver and its ring as the strict machine says, with the bytes that found no place recorded. |
| `V34Mp.DecodeEncode` | src/v34_mp.c:9-10 | Every valid modulation parameter sequence comes back from its 88-bit frame. |
| `V34Mp.EncodeDecode` | src/v34_mp.c:9-10 | Every frame accepted is the frame of what was read from it. |
| `V34Mp.BodyFields` | src/v34_mp.c:9 | Where the fields and the fixed bits are in the frame. |
| `V34Mp.BurstRefused` | src/v34_mp.c:8-10 | An accepted frame of which up to sixteen covered bits in a row were changed is refused. |
| `V34Mp.GreatestIs` | src/v34_mp.c:12 | The rate selected is one both ends offer within the limit, and no other such rate is greater. |
| `V34Mp.SettledAlike` | src/v34_mp.c:13 | Both ends settle on the same rates. |
| `V34Mp.Negotiate` | src/v34_mp.c:13 | The negotiation gives each direction, if both ends want that, the greatest rate both offer within both ends' limits for that direction and the maximum; otherwise one rate for both, the greatest within all four limits; and nothing exactly when an end is invalid or there is no such rate. It is the settlement of `SettledAlike`. |
| `V34Mp.RatesKnown` | tests/test_v34_mp.c:8 | Three settlements: 31200 and 24000, 24000 for both, and 19200 for both. |
| `V34Phase4.Transmitter.Next` | src/v34_phase4.c:3-5 | The state machine sends the 618 symbols of J', training, MP, MP' and E, each once and in order, and then stops. |
| `V34Phase4.TrainingKnown` | tests/test_v34_training_symbols.c:38-44 | The calling end's training begins with nine symbols of phase 3 and one of phase 0. |
| `V34Phase4.JPrimeIs` | src/v34_training_symbols.c:104-113 | The pattern of J' is 1111 1001 1001 0001. |
| `V34Phase4Receiver.Receiver.Completed` | src/v34_phase4_receiver.c:5-71 | A receiver that has completed has heard exactly the 618 symbols of the two sequences it reports, the first not acknowledging and the second acknowledging. |
| `V34Phase4Receiver.Exchange` | src/v34_phase4_receiver.c:5-71 | For every valid sequence and shared starting state the receiver takes every symbol of the transmitter, completes when it does, and has the sequence without and with acknowledgement. |

## Findings

Three properties one would expect of the code do not hold. The model keeps the code as it is, names
an input, and proves exactly when the property does hold.

- **Ring numbers are cut to an octet.** The decoder stores a ring number, a constellation index
  shifted right by the number of further index bits, in an octet before the shell mapper sees it
  (src/v34_data_decoder.c:111-113). With no further index bits the indices of the last 160 of the
  416 points of a quarter do not fit, so the decoder accepts points no encoder sends:
  `V34RoundTrip.Impostor` gives, for every frame, other points that decode to the same bits.
  `V34RoundTrip.DecodedFrame` is the exact condition: what is accepted is what the encoder sends
  for those bits if and only if there are further index bits or every point is among the first
  256 of its quarter. What an encoder does send always comes back (`V34RoundTrip.FrameRoundTrip`).
- **The link can stop for good.** When T401 expires once more after the last retry the deadline is
  cleared and nothing is sent again (src/v42_arq.c:59). From then on the end is helped only by an
  answer from the other end that acknowledges everything or asks for a repetition, or by a new
  write: that puts a frame behind the gap, which the other end answers with REJ
  (`ArqRecovery.WriteRevives`). `ArqRecovery.GivesUp` gives a run that ends without either: four
  losses of one frame. `ArqRecovery.RecoversExactly` and `ArqRecovery.BothRecoverExactly` say, for
  every state a run can reach, exactly when everything accepted can still get through.

- **The constellation for 14400 bit/s is off centre.** A quarter turn of the carrier, a turn about
  the origin, leads from points to points at 7200, 9600 and 12000 bit/s. The table for 14400 bit/s
  (src/v32bis_map.c:20-28) is symmetric about (0, 2) instead: (-8, -1) becomes (1, -8), which is
  not a point. `V32Turns.CarrierTurns` says that this is so at that rate and no other;
  `V32Turns.CodeTurns`, `RunTurns` and `TurnedRead` prove the invariance about the centre at every
  rate. Round trips and distances do not depend on where the centre is.

The flag `failed` of the second finding is set at src/v42_arq.c:59 and never cleared. Nothing in src/v42_arq.c tests it, but
src/v42_session.c:60 does, and puts the session into its failed state, after which it neither
receives nor sends. So a rescue of an end that has passed its limit is about src/v42_arq.c alone;
`ArqRecovery.RecoversWorking` is the statement for the session, where no end has failed.

## Left out

- Waveform code (filters, oscillators, equalisers, carrier tracking, tone detection, probing),
  G.711, RTP, SIP, the terminal and AT commands: not discrete, or plumbing. The data receiver is
  fed coordinates at symbol times, and Phase 4 is fed phases.
- Rounding: coordinates, metrics and the scale are reals. The sizes of the shell mapper are taken
  with exact powers of two and five in place of `exp2` and `pow`.
- Unreachable states of the Viterbi decoder have no metric, in place of a very large one.
- Bits are booleans: the tests for bit values above one, for null pointers and for objects not
  initialised are not modelled. Counters have no width, except where modulo 128, the ring masks or
  the octet of a ring number carry the meaning; time does not wrap.
- Frames that are damaged and pass the check sequence by chance: a line loses a frame or delivers
  it whole. Lines that reorder frames: a REJ moves the cursor unconditionally
  (src/v42_arq.c:55), so order is assumed.
- Link establishment: SABME, UA, XID and DISC (src/v42_link.c, src/v42_session.c, src/v42_xid.c).
- Empty HDLC frames and I frames of 256 octets, which the code itself refuses.
- ConstellationInit: the library sort is modelled as an insertion sort by the same comparison.
- DecodeSoft: the trial decoder is not a copied object; the decoder's trellis and rotation are
  restored after each trial. What is decided when the nearest sequence is not unique, or when the
  hard decoder refuses it, is stated only as one of the sequences that the hard decoder accepts.
- DataReceiver.Feed: the samples are those that hold a symbol; silence before the first superframe
  and the correction of the carrier are not modelled.
- DataStream: the bits of a superframe follow B1 directly; the waveform state it hands over is not
  part of the model.
- StartTraining, StartDataLink and StartData: the moment they are called, when Phase 2, Phase 4
  and B1 are complete, is the caller's choice, and so are the rates; that they cannot fail is about
  emptying the rings, not about a failed negotiation. Deferred packets of samples are left out.
- The count of framing errors in src/v34_uart.c:90-92.
- Converter.Write and the rings of V.32bis are the same class with another size; what differs is
  the receiver's treatment of the stop bit.
- Exchange: one direction of Phase 4; the other is the same with the roles exchanged. A
  configuration with an invalid sequence, which the transmitter refuses when it reaches MP, is
  left out.
- V.32 start-up, rate signals and retraining, V.34 Phases 2 and 3, B1, V.8, V.21 and V.22.
