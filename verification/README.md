# Verification of the wideband receiver server

The program takes one wideband IQ stream, cuts several narrow streams out of it, and serves each over two TCP
protocols; it can itself receive the wideband stream through a hand-written WebSocket client or from an SDRplay
device. This project models its state and its loops in Dafny and proves what they are for.

| file | what it covers |
|---|---|
| `Bytes.dfy`, `Incremental.dfy` | byte order; one theorem about receive loops that append, parse and keep the rest |
| `WebSocketFrames.dfy`, `Handshake.dfy`, `WebSocketClient.dfy` | RFC 6455 frames, the handshake response, the receive loop, fragment reassembly, sendFrame |
| `Sha1.dfy`, `Sha1Vectors.dfy`, `Base64.dfy` | RFC 3174 and its known answers, section 4 of RFC 4648, with the loops that compute them |
| `Complex.dfy`, `Nco.dfy`, `FirDesign.dfy`, `Decimator.dfy`, `DecimatorGrid.dfy`, `VirtualReceiver.dfy` | the down-conversion chain over exact reals |
| `Descriptors.dfy`, `RtlTcp.dfy`, `RtlSystem.dfy` | descriptor lifetime; the rtl_tcp server as an object and as a system of threads |
| `SpyProtocol.dfy`, `SpyServer.dfy`, `SpyHistory.dfy`, `SpySystem.dfy`, `SpyRefinement.dfy`, `SpyGuarantees.dfy` | the SpyServer wire format, object, per-client history, system of threads, how the two agree, and what holds in every run |
| `Tuning.dfy` | requests of both protocols on one receiver |
| `Sdrplay.dfy` | the device as an acquire/release machine |

Code that changes things step by step is modelled by classes and methods with loops, each proved against a
specification function; the properties are lemmas about those functions. The two servers appear twice: as objects
whose methods are the mutex-held regions, and as step systems in which those regions interleave freely, each
connection with its own byte stream; in both, a method follows any step with the object's own regions and reaches the
same table and the same sends.

Some claims one might expect turn out to hold only under a condition, and the exact condition is proved:

- Cutting a signal into chunks can change the decimator's output, because the sampling grid restarts with each
  chunk (`DecimatorGrid.ChunkInvarianceExactly`, read for ordinary filters in
  `DecimatorGrid.SharpFilterCondition`, smallest case in `Decimator.ChunkingMatters`). Nothing in the
  source requires chunks to be multiples of the factor.
- IQ can reach a SpyServer client before DeviceInfo, exactly when the client enables streaming ahead of its first
  Hello (`SpyGuarantees.OrderFailsExactlyWhenEnabledFirst`).
- Frames the server pushes together with its handshake response are lost exactly when no byte ever follows them
  (`WebSocketClient.HandshakeLosesNothing`, smallest case in `WebSocketClient.PushedFrameIsLost`).
- The advertised minimum frequency is refused exactly when truncation lowered it (`SpyProtocol.RepliesAdvertiseTuning`,
  a case in `SpyProtocol.MinimumCanBeRefused`).
- A failure between locking and unlocking the device interface leaves it locked, although a comment on the cleanup says
  otherwise (`Sdrplay.LockBalance`, a case in `Sdrplay.LockCanLeak`).

What the code computes is also held against its standards directly: known answers of RFC 3174, RFC 4648 and RFC 6455, the
layout of every wire format field by field, and what the oscillator, the filter design and the quantiser do to a signal.

The C library is a record of functions satisfying the laws in `Complex.Lawful`: cos and sin of a sum, their parity, a
quarter turn, and hypot as the non-negative root. Every lemma that needs the laws takes them as a hypothesis; the filter
design, which divides by M_PI, also takes that it is positive.

## Model

| member | source | states |
|---|---|---|
| Incremental.ChunkIndependence | src/sdrconnect/websocket.cpp:372-460 | For any parser that is stable under later bytes, any reads up to the end of the stream and any bytes carried in: items, ending and leftover are those of one pass over all bytes, if and only if some byte arrives or the bytes carried in hold nothing complete |
| Incremental.DrainLeavesMore | src/spyserver/server.cpp:134-151 | A pass that did not end the connection stops exactly where the next item is incomplete |
| Incremental.AnyTwoCuttings | src/rtltcp/server.cpp:116-129 | Two lists of reads through which the same bytes arrive cannot be told apart |
| WebSocketFrames.FrameRoundTrip | src/sdrconnect/websocket.cpp:318-345 | For every opcode, FIN bit, payload below 2^64 bytes and mask: the receive decoder on an encoded frame followed by anything recovers the frame and consumes exactly it |
| WebSocketFrames.FrameLayout | src/sdrconnect/websocket.cpp:318-343 | The bytes of a frame: FIN and opcode with reserved bits clear, mask bit and length form, big-endian length, key, and each payload byte exclusive-ored with its key byte |
| Bytes.XorIsBitwise | src/sdrconnect/websocket.cpp:342 | A bit of the masked byte is set just when the bits of payload and key differ |
| WebSocketFrames.TakeFrameStable | src/sdrconnect/websocket.cpp:380-410 | A decided frame is not changed by bytes that arrive later |
| WebSocketFrames.ShortestForm | src/sdrconnect/websocket.cpp:322-331 | No masked frame that decodes to the same FIN, opcode and payload is shorter than the one sendFrame builds |
| WebSocketFrames.SendsDecode | src/sdrconnect/websocket.cpp:379-457 | A sequence of encoded frames decodes to the same sequence up to and including the first Close |
| WebSocketFrames.SendsDecodeWhole | src/sdrconnect/websocket.cpp:379-457 | Without a Close everything decodes, nothing is left over and the loop goes on |
| WebSocketFrames.MoreIsProperPrefix | src/sdrconnect/websocket.cpp:380-402 | Whenever the parser waits, what it holds is a proper prefix of some complete frame |
| WebSocketClient.SessionIndependentOfChunks | src/sdrconnect/websocket.cpp:364-460 | Callbacks and pongs are those of one pass over handshake leftover and everything that arrives, however cut, if and only if a byte arrives or the leftover holds nothing to act on; with no Close seen, the bytes left are a proper prefix of a frame |
| WebSocketClient.FragmentReassembly | src/sdrconnect/websocket.cpp:412-453 | A message in any number of fragments, with any pings, pongs and unknown frames between, is delivered once, whole, to its own opcode's handler after one equal-payload pong per ping in order |
| WebSocketClient.MessagesReachHandlers | src/sdrconnect/websocket.cpp:364-464 | Any sequence of messages, each fragmented and interleaved in its own way, under any masks and TCP cuts: the callbacks are, in order, text with the whole payload for each message of opcode 1, binary for each of opcode 2, when its handler is installed, and nothing else, with the pongs in their places |
| WebSocketClient.EachMessageIsDelivered | src/sdrconnect/websocket.cpp:416-438 | With both handlers installed there is one callback for each message, of its own kind and with its own bytes |
| WebSocketClient.WholeIsItsFragments | src/sdrconnect/websocket.cpp:413-433 | A message's payload is the payloads of its data frames joined in order |
| WebSocketClient.StrayFramesDoNothing | src/sdrconnect/websocket.cpp:412-453 | A continuation without a message, a Close, a Pong and an unknown opcode change nothing and call nobody |
| WebSocketClient.ExamplesAreUnderstood | src/sdrconnect/websocket.cpp:379-457 | The example frames of section 5.7 of RFC 6455, byte for byte and however cut: Hel, a ping, lo, a masked Hello and a binary byte give the pong, Hello, Hello and the byte |
| WebSocketClient.ServerToHandlers | src/sdrconnect/websocket.cpp:364-464 | Whatever a server encodes and however TCP cuts it, up to the end of the stream, the client acts on exactly those frames up to the first Close |
| WebSocketClient.HandshakeLosesNothing | src/sdrconnect/websocket.cpp:268-310 | Everything after the first empty line of the stream is acted on exactly once, if and only if a byte follows the handshake read or the bytes pushed with it hold nothing to act on |
| WebSocketClient.PushedBytesAreIgnored | src/sdrconnect/websocket.cpp:307-375 | Whatever a server pushes in the read that completes an accepted response, if nothing follows it, none of it is acted on |
| WebSocketClient.PushedFrameIsLost | src/sdrconnect/websocket.cpp:307-375 | A text frame pushed behind the shortest accepted response, with nothing after it, is never handed over |
| Handshake.ResponseKeepsStream | src/sdrconnect/websocket.cpp:270-281 | The handshake loop runs out of bytes exactly when no terminator ever arrives; otherwise what it read plus what is still to come is the whole stream |
| Handshake.FindHeaderValue | src/sdrconnect/websocket.cpp:176-199 | The line walk returns the trimmed value of the first line that carries the header in any case, or nothing |
| Handshake.ValueBetweenBlanks | src/sdrconnect/websocket.cpp:181-193 | Name in any case, colon, spaces and tabs, value, blanks or carriage returns reads as the value |
| Handshake.LettersMatchInAnyCase | src/sdrconnect/websocket.cpp:182-185 | Upper-case ASCII letters compare as their lower case, and no other byte changes |
| Handshake.CheckResponse | src/sdrconnect/websocket.cpp:284-301 | The checks after the terminator pass exactly when the response starts with HTTP/, its first space is followed by 101, and the accept header has the expected value |
| Handshake.ConformingResponseIsAccepted | src/sdrconnect/websocket.cpp:270-310 | Any response of a conforming server is accepted, whatever its other headers, and what follows its empty line is the leftover |
| Handshake.AnswerConforms | src/sdrconnect/websocket.cpp:284-301 | A status line with 101 and the accept header with the expected value are such a response, for every nonce |
| Handshake.LiteralResponseIsAccepted | src/sdrconnect/websocket.cpp:284-310 | A literal two-line response with the expected value is accepted, and what follows its empty line is the leftover |
| Handshake.ValueDecides | src/sdrconnect/websocket.cpp:294-301 | A response for 101 is accepted if and only if the first line that carries the accept header has exactly the expected value |
| Handshake.NoHeaderRefused | src/sdrconnect/websocket.cpp:294-301 | Without the header it is refused |
| Handshake.Only101Switches | src/sdrconnect/websocket.cpp:284-292 | Among status lines only code 101 switches protocols |
| Handshake.AcceptShape | src/sdrconnect/websocket.cpp:293-301 | The expected accept value is 28 characters with one trailing '=' and decodes to the SHA-1 of key and GUID |
| WebSocketClient.Client.ReadHandshake | src/sdrconnect/websocket.cpp:268-315 | Succeeds exactly when a terminator arrives and the bytes read accept the nonce; stores just the bytes after the terminator; otherwise drops the descriptor |
| WebSocketClient.Client.SendFrame | src/sdrconnect/websocket.cpp:318-345 | Puts on the wire the encoded masked final frame, or its part that fits, and reports which |
| WebSocketClient.Client.RunReadLoop | src/sdrconnect/websocket.cpp:364-464 | The nested loops log exactly the events of the session over the pending bytes and the reads, put each pong on the wire as its masked frame and nothing else, then drop the descriptor |
| WebSocketClient.Client.ParseBuffer | src/sdrconnect/websocket.cpp:377-459 | From any point of the stream, the inner loop's log, fragment state and kept bytes continue the same session |
| WebSocketClient.Client.ParseFrame | src/sdrconnect/websocket.cpp:380-410 | Finds a frame at an offset exactly when the decoder takes one there, and then that frame and its length |
| WebSocketClient.Client.ParseHeader | src/sdrconnect/websocket.cpp:380-400 | Header and payload length in all three length forms, and whether the bytes that give them have arrived |
| WebSocketClient.Client.WholeFrame | src/sdrconnect/websocket.cpp:402-410 | The frame whose bytes are all there, as the decoder takes it |
| WebSocketClient.Client.Dispatch | src/sdrconnect/websocket.cpp:412-453 | One frame's effect on fragment state, callbacks and pongs |
| WebSocketClient.Client.CopyPayload | src/sdrconnect/websocket.cpp:404-410 | The payload loop undoes the mask, or copies when there is none |
| Sha1.ComputeSha1 | src/sdrconnect/websocket.cpp:71-134 | The mutable loops compute the recursive digest of section 6.1 of RFC 3174 |
| Sha1Vectors.KnownAnswerAbc | src/sdrconnect/websocket.cpp:71-134 | The digest of "abc" is the one section 7.3 of RFC 3174 gives |
| Sha1Vectors.KnownAnswerLonger | src/sdrconnect/websocket.cpp:71-134 | So is the digest of its 56-byte message, which takes two blocks |
| Sha1.CircularAgrees | src/sdrconnect/websocket.cpp:83-119 | The 16-word circular method of section 6.2 yields the same registers after every round of every block |
| Sha1.PadIsLeast | src/sdrconnect/websocket.cpp:74-78 | The padded length is the least multiple of 64 that holds message, marker and length |
| Sha1.PadInjective | src/sdrconnect/websocket.cpp:74-78 | Messages below 2^61 bytes with the same padding are equal |
| Sha1.PadMessage | src/sdrconnect/websocket.cpp:74-78 | The padding loop builds the padded message of section 4 |
| Sha1.Schedule | src/sdrconnect/websocket.cpp:83-89 | The 80-word array holds the message schedule of the block |
| Sha1.RunRounds | src/sdrconnect/websocket.cpp:91-113 | The round loop's registers are those of 80 rounds of the definition |
| Base64.DecodeEncode | src/sdrconnect/websocket.cpp:136-164 | A strict decoder of section 4 of RFC 4648 recovers every input from its encoding |
| Base64.EncodeDecode | src/sdrconnect/websocket.cpp:136-164 | Every string that decoder accepts is the encoding of what it decodes to |
| Base64.EncodeInjective | src/sdrconnect/websocket.cpp:136-164 | Different inputs have different encodings |
| Base64.EncodeShape | src/sdrconnect/websocket.cpp:150-162 | Length 4*ceil(n/3), alphabet characters, then exactly (3 - n mod 3) mod 3 '=' |
| Base64.Examples | src/sdrconnect/websocket.cpp:136-164 | The seven examples of section 10 of RFC 4648 |
| Base64.TableIsAlphabet | src/sdrconnect/websocket.cpp:137 | The table's entries are the standard's alphabet, by position |
| Base64.ComputeBase64 | src/sdrconnect/websocket.cpp:138-164 | The loop and its two tails build the encoding |
| Nco.RunIsPhaseContinuous | src/dsp/nco.hpp:19-63 | Over any run of chunks and retunes the phasor at each sample is the product of all rotations in force before it; normalisation changes nothing |
| Nco.RunKeepsPower | src/dsp/nco.hpp:35-63 | Every output sample of a run has the squared magnitude of its input sample |
| Nco.MagnitudeWithinChunk | src/dsp/nco.hpp:41-55 | With a rotation of magnitude r, from a unit phasor, the phasor's magnitude i samples into a chunk is r^i |
| Nco.NormaliseGivesUnit | src/dsp/nco.hpp:60-62 | Normalising any non-zero phasor puts it on the unit circle |
| Nco.UnitAfterEveryChunk | src/dsp/nco.hpp:35-63 | Over any run, from any non-zero rotation and whatever the retunes, the phasor is on the unit circle after every chunk |
| Nco.NormaliseUnit | src/dsp/nco.hpp:60-62 | Normalising a unit phasor is the identity |
| Nco.Oscillator.MixInPlace | src/dsp/nco.hpp:35-63 | In place, the array's samples become the mix with the running phasor, which advances and is normalised |
| Nco.Oscillator.SetOffsetHz | src/dsp/nco.hpp:19-25 | Replaces the rotation by that of the new offset and leaves the phasor alone |
| Nco.TuningShiftsFrequencies | src/dsp/nco.hpp:19-63 | Tuned to f, the oscillator turns the tone at any frequency g into the tone at g - f |
| Nco.TunedToneIsBaseband | src/dsp/nco.hpp:19-63 | So a tone at the frequency it is tuned to comes out as the constant 1 |
| Decimator.AlignedChunks | src/dsp/decimator.cpp:40-81 | Chunks that are multiples of the factor give the output of one call on the whole signal |
| Decimator.OutputShortfall | src/dsp/decimator.cpp:51-52 | For any chunks the number of outputs is floor(total/factor) minus floor(sum of remainders/factor) |
| Decimator.OutputPlusRemainders | src/dsp/decimator.cpp:51-52 | Outputs times factor plus the remainders is the number of samples received |
| Decimator.OutputIsCausal | src/dsp/decimator.cpp:56-68 | An output already due does not depend on what follows in the chunk |
| Decimator.ChunkingMatters | src/dsp/decimator.cpp:40-81 | Two one-sample chunks at factor 2 give nothing, one two-sample chunk gives one output |
| DecimatorGrid.ChunkInvarianceExactly | src/dsp/decimator.cpp:40-81 | For any taps, chunk lengths leave the output of every signal alone if and only if no output is missing and each is taken where one call takes it, or where the filter can only be silent |
| DecimatorGrid.SharpFilterCondition | src/dsp/decimator.cpp:40-81 | When the last tap is not zero that reads: after the first chunk that is not a multiple of the factor none is as long as the factor, and the remainders sum to less than the factor |
| DecimatorGrid.StreamOutAt | src/dsp/decimator.cpp:51-68 | For any chunks, output o of the run is the filter of the whole stream at the position the chunk lengths give |
| DecimatorGrid.HarmlessCutting | src/dsp/decimator.cpp:40-81 | Under that condition the output equals one call's |
| DecimatorGrid.HarmfulCutting | src/dsp/decimator.cpp:40-81 | For every other list of lengths, a signal cut that way whose output changes |
| Decimator.TailIsHistory | src/dsp/decimator.cpp:71-78 | The kept tail is the last numTaps-1 samples of silence followed by all input |
| Decimator.BufferOutput | src/dsp/decimator.cpp:56-65 | Filtering history plus chunk gives the filter of the whole stream at the chunk's grid |
| Decimator.Filter.Process | src/dsp/decimator.cpp:40-81 | Output is the stream's filter at every factor-th sample of the chunk; history stays the last numTaps-1 samples; all indices in bounds |
| Decimator.Filter.Create | src/dsp/decimator.cpp:30-38 | Fails exactly for a factor below 1; otherwise starts from silence |
| Decimator.Filter.Accumulate | src/dsp/decimator.cpp:58-65 | The tap loop's two accumulators are the filter sum |
| FirDesign.DesignIsSymmetricUnitGain | src/dsp/decimator.cpp:7-28 | With two or more taps and a non-zero tap sum, the taps are symmetric and sum to 1 |
| FirDesign.DesignLowPassFir | src/dsp/decimator.cpp:7-28 | The fill and rescale loops leave the designed taps in the array |
| FirDesign.SincValues | src/dsp/decimator.cpp:13-16 | The unwindowed response is 2 fc in the middle, zero where 2 fc x is another whole number, 1 / (pi x) where it is one half |
| FirDesign.WindowValues | src/dsp/decimator.cpp:17-18 | The window is 0.08 at the ends, 1 in the middle and 0.54 half way |
| FirDesign.DesignValues | src/dsp/decimator.cpp:13-26 | Times the raw sum, the middle tap is 2 fc, the taps on the zero crossings are zero and the first is windowed to 0.08 of its response |
| FirDesign.FirIsConvolution | src/dsp/decimator.cpp:60-65 | For symmetric taps the forward-indexed sum is the convolution |
| FirDesign.ConstantPasses | src/dsp/decimator.cpp:56-68 | An output is the constant when the last numTaps samples up to it are that constant |
| FirDesign.OutputBounded | src/dsp/decimator.cpp:56-68 | No output component of any run exceeds the sum of |taps| times the largest input component |
| VirtualReceiver.AlignedRunEquivalence | src/dsp/virtual_receiver.cpp:55-72 | With aligned chunks and retunes between them, the callback bytes are: mix the whole signal, filter at every factor-th sample, quantise |
| VirtualReceiver.ChunksEqualOneCall | src/dsp/virtual_receiver.cpp:55-72 | Aligned chunks hand over the bytes of one call on the concatenated signal |
| VirtualReceiver.CuttingLeavesNoTrace | src/dsp/virtual_receiver.cpp:38-72 | Two aligned runs over the same signal, retuned at the same samples, hand over the same bytes |
| VirtualReceiver.RunIsQuantisedStream | src/dsp/virtual_receiver.cpp:55-72 | For any chunks at all, the bytes are the quantised decimator output of the mixed chunks |
| VirtualReceiver.QuantiseIsNearest | src/dsp/virtual_receiver.cpp:65-69 | Within full scale a byte is 127x + 128 to the nearest, halves away from 128; beyond it 1 and 255; the map is odd about 128 and keeps order |
| VirtualReceiver.TunedToneIsFullScale | src/dsp/virtual_receiver.cpp:55-72 | End to end, a tone at the tuned frequency through unit-gain taps comes out as the bytes 255, 128 once the history is full |
| VirtualReceiver.CentreIsBaseband | src/dsp/virtual_receiver.cpp:38-42 | A receiver's oscillator brings a tone at its own centre to the constant 1 |
| VirtualReceiver.AdvertisedRange | src/dsp/virtual_receiver.cpp:44-53 | A request is accepted exactly from the truncated lower edge to the truncated upper edge, but the lower one only when truncation did not lower it, and none when the capture lies below zero |
| VirtualReceiver.SpanIsHalfTheRate | src/dsp/virtual_receiver.cpp:44-53 | A frequency is in the span just when it is at most half the wideband rate from the centre |
| VirtualReceiver.TruncationDropsFraction | src/spyserver/server.cpp:211-212 | A cast to an integer drops the fraction, towards zero |
| VirtualReceiver.TuningStaysInSpan | src/dsp/virtual_receiver.cpp:38-53 | Over any sequence of requests the centre stays in the span and is the latest acceptable request, or the first centre if none was |
| VirtualReceiver.Receiver.ProcessWidebandChunk | src/dsp/virtual_receiver.cpp:55-72 | One chunk through the mutable chain: bytes appended to each callback and the new state are those of the specification |
| VirtualReceiver.Receiver.RetuneTo | src/dsp/virtual_receiver.cpp:38-42 | Accepted exactly inside the span, moving centre and oscillator together; a refusal changes nothing |
| VirtualReceiver.Receiver.Create | src/dsp/virtual_receiver.cpp:18-36 | Construction succeeds exactly when the rate divides the wideband rate and the centre is in the span; the chain then starts from silence with the oscillator matching the centre |
| VirtualReceiver.Receiver.QuantiseBuffer | src/dsp/virtual_receiver.cpp:64-69 | The quantising loop produces the byte of each component in order |
| SpyProtocol.CommandsIndependentOfChunks | src/spyserver/server.cpp:124-152 | However the bytes arrive, up to the end of the stream, the same commands are handled in order, none at or after the first oversized header, with at most 263 bytes kept otherwise |
| SpyProtocol.ParseIsExact | src/spyserver/server.cpp:134-151 | The commands taken, re-encoded, are exactly the bytes before the stop; the loop hangs up exactly at an oversized header |
| SpyProtocol.SentCommandsAreTaken | src/spyserver/server.cpp:134-151 | Any commands with bodies up to 256 bytes, sent back to back, are taken in order, and the rest is parsed as if it came first |
| SpyProtocol.CommandRoundTrip | src/spyserver/server.cpp:134-149 | The command parser recovers an encoded command followed by anything |
| SpyProtocol.MessageRoundTrip | src/spyserver/server.cpp:327-338 | A client's parser recovers a message if and only if its body is shorter than 2^32 bytes |
| SpyProtocol.MessageLayout | src/spyserver/server.cpp:327-336 | Where each header field of a message lies, as little-endian words, and the body after them |
| SpyProtocol.WordIs | src/spyserver/protocol.hpp:24-26 | A field's first byte weighs least |
| SpyProtocol.DeviceInfoLayout | src/spyserver/server.cpp:200-218 | Every field of DeviceInfo at its own offset |
| SpyProtocol.ClientSyncLayout | src/spyserver/server.cpp:221-230 | Every field of ClientSync at its own offset, with the capture's and the receiver's centre |
| SpyProtocol.OversizedIsOver256 | src/spyserver/protocol.hpp:33 | The limit on a command's body is 256 bytes |
| SpyProtocol.MessagesParseBack | src/spyserver/server.cpp:315-339 | Whole messages back to back parse back into themselves with nothing left over |
| SpyProtocol.RepliesAdvertiseTuning | src/spyserver/server.cpp:197-231 | DeviceInfo and ClientSync carry the same range at their own offsets, and it is the range the receiver accepts, but for a minimum that truncation lowered |
| SpyProtocol.MinimumCanBeRefused | src/spyserver/server.cpp:211 | A capture from 999999.5 Hz advertises 999999 Hz and refuses it |
| SpyServer.Server.MarkGreeted | src/spyserver/server.cpp:185-195 | Marks the handshake and defaults the mode to IQ, for a client that is still there |
| SpyServer.Server.HandleHello | src/spyserver/server.cpp:171-238 | A Hello of 4 bytes or more marks the client, then sends DeviceInfo, then ClientSync, each numbered; shorter ones do nothing |
| SpyServer.Server.HandleSetSetting | src/spyserver/server.cpp:240-313 | Mode and enabled settings change just their own field; setting 101 tunes the receiver to its value if that lies in the span; short and other settings change nothing |
| SpyServer.CommandNumbers | src/spyserver/server.cpp:159-169 | What each command and setting number of the protocol does |
| SpyServer.MessageNumbers | src/spyserver/server.cpp:327-332 | What each reply and the IQ message carry, by the protocol's numbers |
| SpyServer.CentreFollowsTunings | src/spyserver/server.cpp:269-276 | After a client's commands the centre is where its SetSetting 101 values, taken in order, put it |
| SpyServer.Server.HandleCommand | src/spyserver/server.cpp:159-169 | Each command performs its own list of locked regions and no other |
| SpyServer.Server.SendMessage | src/spyserver/server.cpp:315-339 | One send of header and body under the client's number, which advances modulo 2^32; nothing for an unknown client |
| SpyServer.Server.BroadcastIq | src/spyserver/server.cpp:341-382 | Walking the table, with one shared buffer, sends the specified calls and advances just the streaming clients' numbers |
| SpyServer.OneCallPerStreamingClient | src/spyserver/server.cpp:357-371 | Those calls go to exactly the streaming clients, once each, in order, each carrying the block under its own next number |
| SpyServer.Server.ClientReadLoop | src/spyserver/server.cpp:124-157 | The loop handles exactly the commands of the stream, reports a protocol error exactly when an oversized header came, leaves the receiver where the stream's tuning requests put it, and removes the client |
| SpyServer.Server.ParseBuffer | src/spyserver/server.cpp:133-151 | From any point of the stream the inner loop's effects and kept bytes continue the same session |
| SpyServer.Server.Register | src/spyserver/server.cpp:115-118 | A fresh entry for the descriptor, the others untouched |
| SpyServer.Server.RemoveClient | src/spyserver/server.cpp:384-387 | The entry is gone, the others untouched |
| SpyHistory.OpenMeansReplied | src/spyserver/server.cpp:185-231 | At any moment, even inside a handler, that the gate is open, the replies owed up to the first Hello have been sent, unless streaming was enabled ahead of it |
| SpyHistory.GateOfCommands | src/spyserver/server.cpp:249-267 | Handshake, enabled flag and mode read off the commands: Hello seen, latest StreamingEnabled, latest of Hello and StreamingMode |
| SpySystem.StepKeepsInv | src/spyserver/server.cpp:96-387 | Every step of every thread keeps: descriptors owned, entries equal to their connection's own history, messages numbered and genuine, replies in order |
| SpySystem.RunKeepsInv | src/spyserver/server.cpp:96-387 | So does every sequence of steps |
| SpySystem.RegisterKeepsInv | src/spyserver/server.cpp:113-120 | Registering never replaces a live entry |
| SpySystem.AfterBroadcastFor | src/spyserver/server.cpp:341-382 | A broadcast appends one message to each receiving connection, none to others |
| SpyGuarantees.StreamIsHandledInOrder | src/spyserver/server.cpp:124-157 | In every interleaving the commands taken up are the first of the byte stream received, all of them whenever the read loop waits, their regions are performed in order, and the replies sent are exactly those they call for |
| SpyGuarantees.HelloRepliesComeFirst | src/spyserver/server.cpp:171-231 | In every interleaving, a connection whose stream begins with a Hello is first sent DeviceInfo number 0, then ClientSync number 1, and both have been sent once the handler has finished |
| SpyGuarantees.OpeningRepliesComeFirst | src/spyserver/server.cpp:171-231 | Unless the stream enables streaming before its first Hello, what is sent begins with the replies owed up to it, IQ comes after them, and all have been sent whenever the read loop waits |
| SpyGuarantees.OrderFailsExactlyWhenEnabledFirst | src/spyserver/server.cpp:262-267 | For every byte stream: some interleaving sends IQ before DeviceInfo if and only if the latest StreamingEnabled before the first Hello in it is non-zero |
| SpyGuarantees.BroadcastFollowsTheGate | src/spyserver/server.cpp:357-363 | In every reachable state a broadcast goes once, under the next number, to exactly the registered connections whose gate is open: when the read loop waits, those whose stream holds a Hello, a latest enabled value that is non-zero and bit 0 in the latest mode |
| SpyGuarantees.IqIsWhatWasBroadcast | src/spyserver/server.cpp:341-371 | Over every run, the IQ sent to a connection is, block for block and in order, what was broadcast while it was registered with its gate open |
| SpyGuarantees.OthersLeaveItAlone | src/spyserver/server.cpp:240-267 | No step of another client, accept or close changes a client's history or entry |
| SpyGuarantees.SendsAreNumbered | src/spyserver/server.cpp:325-332 | Sends to a connection from both threads are numbered 0, 1, 2, ... modulo 2^32, and the entry holds the next number |
| SpyGuarantees.WireParsesBack | src/spyserver/server.cpp:327-381 | If every send was complete or took nothing, the bytes on the wire parse back into exactly the completed messages |
| SpyGuarantees.DescriptorsAreOwned | src/spyserver/server.cpp:113-157 | In every reachable state each fd in the table is open and led to by exactly one connection with a read loop; no write ever strays; an accepted fd is never already listed |
| SpyRefinement.Follow | src/spyserver/server.cpp:113-387 | Every step of the interleaved model, done by the object's own method, leaves the step's table and makes the step's sends |
| SpyRefinement.CallsReachOwners | src/spyserver/server.cpp:315-382 | In every step each connection gets one more message, carried by the one call on its descriptor, or nothing and there is no such call |
| RtlTcp.CommandsIndependentOfChunks | src/rtltcp/server.cpp:112-129 | However the bytes arrive, up to the end of the stream, each complete 5-byte big-endian command is decoded once in order; the rest mod 5 is kept |
| RtlTcp.ParseCommand | src/rtltcp/protocol.cpp:23-28 | Command byte and big-endian 32-bit parameter |
| RtlTcp.TuningRequest | src/rtltcp/server.cpp:136-145 | Command 1 with a big-endian frequency is the request to tune there |
| RtlTcp.HeaderLayout | src/rtltcp/protocol.cpp:7-21 | RTL0, then tuner type 6 and no gain steps as big-endian words |
| RtlTcp.Server.ClientReadLoop | src/rtltcp/server.cpp:112-129 | The receiver ends where the stream's tuning requests put it; fewer than five bytes are kept |
| RtlTcp.Server.HandleCommand | src/rtltcp/server.cpp:136-182 | Only a tuning request has an effect, and only inside the span |
| Tuning.BothProtocolsTune | src/rtltcp/server.cpp:138-145 | Requests of both protocols in any one order leave the centre where their frequencies, taken in that order, put it |
| Tuning.CentreIsLatestAcceptable | src/spyserver/server.cpp:269-276 | So it stays in the span, at the latest request of either protocol that lay inside it |
| RtlTcp.Server.RemoveClient | src/rtltcp/server.cpp:208-211 | Every occurrence of the fd is erased, the order of the others kept |
| RtlTcp.Server.BroadcastIq | src/rtltcp/server.cpp:184-206 | One send of the whole block to each client in table order |
| RtlSystem.DescriptorsAreOwned | src/rtltcp/server.cpp:83-134 | Over every interleaving each fd in the table is open, there once, and belongs to exactly one read loop; no write strays; an accepted fd is never already listed |
| RtlSystem.GreetingComesFirst | src/rtltcp/server.cpp:100-106 | In every interleaving, a client's wire holds what the one send of the dongle header took, then what the IQ sends took, in order, and nothing else |
| RtlSystem.Follow | src/rtltcp/server.cpp:100-211 | Every step, done by the object's own method, leaves the step's table, and only its calls on a connection's own descriptor reach that connection's wire |
| RtlSystem.BroadcastReachesTheTable | src/rtltcp/server.cpp:184-211 | A broadcast adds the block, or the part taken, once to each registered connection and to nothing else |
| RtlSystem.StepKeepsInv | src/rtltcp/server.cpp:83-211 | Every step of every thread keeps ownership, the table and the greeting's place |
| Sdrplay.OneLife | src/sdrplay/client.cpp:76-176 | For every failure point: connect, close and destructor make the possible calls, then Uninit iff Init succeeded with a device handle, Release iff Select did, Close iff Open did, in that order and at most once; nothing is held at the end |
| Sdrplay.SmoothLife | src/sdrplay/client.cpp:84-176 | When nothing fails: the eight steps in their order, then Uninit, Release, Close |
| Sdrplay.WhichDevice | src/sdrplay/client.cpp:109-129 | The first device, or with a serial number the first that has it |
| Sdrplay.Outcomes | src/sdrplay/client.cpp:84-162 | A call succeeds exactly when its own outcome and all before it are good |
| Sdrplay.LockBalance | src/sdrplay/client.cpp:97-145 | Locks and unlocks balance if and only if no failure follows a successful Lock up to Unlock |
| Sdrplay.LockCanLeak | src/sdrplay/client.cpp:97-103 | A failure to list the devices leaves the lock taken |
| Sdrplay.EveryUse | src/sdrplay/client.cpp:84-389 | However an object is connected and closed, its Opens, Selects and Inits exceed Closes, Releases and Uninits by exactly those made while the flag was already set, and one Init more if it stays marked for want of a device handle |
| Sdrplay.TidyUseBalances | src/sdrplay/client.cpp:84-389 | An object never opened while open balances all three, Init provided none succeeded without a device handle |
| Sdrplay.Client.Connect | src/sdrplay/client.cpp:84-176 | The chain of calls with its cleanup on failure reaches the specified flags and trace |
| Sdrplay.Client.ChooseDevice | src/sdrplay/client.cpp:109-127 | The first device, or the first with the configured serial, or none |
| Sdrplay.Client.CloseDevice | src/sdrplay/client.cpp:367-389 | Undoes exactly what the flags say is held, in order, and clears them |

## Left out

- Payload lengths: sums of header and payload length are unbounded integers. Section 5.2 of RFC 6455 keeps the top bit of a 64-bit length clear, and then the sum at src/sdrconnect/websocket.cpp:402 does not wrap.
- Floating point: samples, taps and frequencies are exact reals; casts to float, rounding, infinities and NaN are not modelled. A cast to uint32_t truncates; out of its range, where C++ leaves the result open, the model wraps.
- DesignIsSymmetricUnitGain: assumes two or more taps and a non-zero tap sum, because the code divides by both numTaps-1 and the sum; the receiver's constructor assumes the same of its 129 taps.
- Receiver.Create: assumes the requested rate is not zero, where the code would divide by zero, and does not model a quotient too large for int.
- CheckResponse: header names and values are bytes in the C locale; the nonce is a parameter.
- RepliesAdvertiseTuning: assumes band edges whose truncation a uint32_t holds, that is above -1 and below 2^32; the language leaves other casts open.
- SharpFilterCondition: assumes the last tap is not zero; ChunkInvarianceExactly covers every filter.
- SendFrame: the mask is a parameter, and the loop that repeats partial sends is the number of bytes the socket takes before it fails. Key and mask generation are arbitrary values.
- RunReadLoop: recv is a list of chunks, an empty one standing for an error or the end; handlers are events in a log. The descriptor shared by close() and the read loop is not modelled.
- ClientReadLoop: the object's read loop runs without other threads in between; the step systems have them.
- ProcessWidebandChunk: every callback receives the same bytes, so one log stands for all of them; the reused buffers are values, and a retune happens between chunks.
- SpySystem: the read buffer is in the state but a read's size limit is not. Several accepted connections may wait to be registered at once, which is more than one accept thread allows; the centre a ClientSync quotes is any value the unlocked read might return.
- WireParsesBack: says nothing about a connection after a short write, whose remainder the code drops, nor about IQ blocks of 2^32 bytes or more.
- stop(): ownership claims are about runs before stop() begins; its snapshot and the detached threads that outlive the server are not modelled.
- Unsynchronised access, socket options, timeouts, name lookup, logging and socket setup.
- OneLife: one connect per object; EveryUse has any number. A vendor library that returns success but no parameters is not modelled. Parameter writes, bias-T, antenna, the bandwidth ladder and the decimation choice are table lookups or foreign calls.
- Commands that are accepted and ignored (gain, FFT, formats, sample rate): they only log, so they appear as commands without an effect.
- Configuration files, the command line, and the JSON protocol of src/sdrconnect/client.cpp: plumbing.
