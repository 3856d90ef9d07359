# Verified model of the YSF, DMR and EchoLink bridge

A Dafny model of the parts of the bridge where correctness is hard to see, with proofs about all their
inputs and all their runs.

- **Viterbi decoder, FICH, payload blocks** (`Bits`, `Trellis`, `Convolution`, `TwoWrongBits`,
  `ThreeWrongBits`, `Interleave`, `Golay`, `Weights`, `GolayDistance`, `Crc`, `Fich`, `Payload`,
  `TwoBitBlocks`): the decoder's arrays are verified against the trellis, its metrics are minimum
  distances, every block on the air survives any one wrong bit, what becomes of two is stated exactly,
  for the decoder, for a FICH and for a payload block, and three are corrected behind the first eleven
  symbols. The Golay words are seven and eight bits apart, so three errors are corrected. The checksum
  tells every burst of sixteen bits.
- **Transcoder** (`RingBuffer`, `VoiceQueue`, `Voice`, `ModeConv`, `Transcode`, `Silence`): the tagged
  queues, exactly when they drain cleanly, and voice streams through DMR and YSF under any schedule with
  all signalling overlaid. Bit places, whitening and protection are checked against the two silence
  records, which turn out to be one frame.
- **DMR signalling** (`DmrSignalling`, `HammingDistance`, `SignallingErrors`): the product codes of
  annexes B.1.1 and B.2.1 of ETSI TS 102 361-1, their minimum distances, and a header known through
  seven wrong bits in a row.
- **Alias index** (`Probing`, `Aliases`): two linear-probing tables, slot by slot, that stay equal to
  two maps across growth unless a callsign is longer than a slot, exactly when their loops end, and that
  they do for ordinary files. **Download protocol** (`Downloads`): any number of instances over one
  directory, and what the results of a call mean.
- **Call state machine of echolink-dmr** (`WireGrammar`, `CallFlow`, `CallSafety`, `CallVoice`,
  `CallTimes`, `CallQuiescence`, `BridgeEl`): the grammar of what goes on the wire after every run, that
  a call says what was coded in that order, who keeps the slot and for how long, and the return to idle.
- **EchoLink proxy and peer** (`Octets`, `ProxyStream`, `Proxy`, `Sdes`, `DirectoryThreads`): stream
  reassembly, the directory channel and when it is open, the SDES packets, and two threads with two
  mutexes.

How it is modelled:

- Code that updates fields and buffers is a class or a method on arrays, proved against a function of
  the old state; what that function guarantees is proved in lemmas. The fields of `BridgeEl.Bridge`
  refine the state machine of `CallFlow`; the wire and the log of streams in its state record what was
  sent.
- Words that the source packs into integers are bit strings, most significant bit first; bytes of
  buffers are `bv8`, bytes of network packets numbers below 256. Lookup tables are the functions they
  tabulate; the Golay correction table and the AMBE scrambling table are parameters.
- The clock, the state of the DMR link, new stream ids, the talker's id, vocoder output, arriving audio,
  read sizes, the outcome of allocations and downloads, and the order in which threads and instances run
  are inputs. One handler reads the clock once.
- The download protocol and the two threads are state machines whose steps are single accesses to the
  shared directory and single lock operations.

Where the code does not do what one might hope, the model follows the code and says when it holds: a put
past the limit empties the ring under its counter (`VoiceQueue.Lane.Put`) and an EchoLink call loses
frames exactly then (`CallSafety.EveryRun`), an EOT behind a pending HEADER is not aligned
(`VoiceQueue.EotAlignedIff`, `VoiceQueue.EotBehindHeader`), a key of more than ten characters is never
found again (`Aliases.CutKeyFoundIff`), a full callsign table lets a put run forever (`Aliases.EndsIff`,
`Aliases.RenamedTooOften`, `Aliases.LongTooOften`), a takeover of a held lock leaves two downloaders
(`Downloads.TwoHolders`, `Downloads.OneHolder`), and two wrong bits near the start of a block can be
decoded wrongly (`TwoWrongBits.NotAllTwoBits`, `TwoWrongBits.TwoBitsCorrectedIff`). In
`ysf_fich_decode_fields` the second offset is never tried, since a two-bit field cannot exceed 3
(`ysf_fich.c:893-901`); the model has no such branch.

`dafny verify dfyconfig.toml` checks the whole project.

## Model

| member | source | states |
|---|---|---|
| Trellis.MetricIsMinimum | mmdvm/YSFConvolution.cpp:68-97 | no path into a state, from any start state, is nearer to what was received than the metric kept for that state |
| Trellis.SurvivorIsOptimalPath | mmdvm/YSFConvolution.cpp:99-114 | the path the stored decisions trace is a path of the trellis into the state and its distance is exactly the metric |
| Trellis.TraceReadsInputs | mmdvm/YSFConvolution.cpp:99-114 | the bit shifted out at time t + 4 of the traced path is the input the path took at time t, which is why chainback stops four steps early |
| Trellis.MinimumDistance | mmdvm/YSFConvolution.cpp:116-141 | two paths into one state that differ in any input are at least four bits apart, whatever states they start in |
| Trellis.LightPaths | mmdvm/YSFConvolution.cpp:116-141 | a path that differs in some input carries at least four bits, and four only if it is one of four rivals, given by start state and inputs |
| Trellis.SingleErrorCorrected | mmdvm/YSFConvolution.cpp:58-114 | the survivor into state zero is the message sent, for every message that ends in state zero and every received stream at most one bit away from its code |
| Trellis.ZeroTail | mmdvm/YSFConvolution.cpp:116-141 | four zero bits bring the register to zero from every state |
| Trellis.ImpulseResponse | mmdvm/YSFConvolution.cpp:116-141 | a single one leaves 1 + x^3 + x^4 in the first bits of the symbols and 1 + x + x^2 + x^4 in the second |
| Convolution.ButterflySelects | mmdvm/YSFConvolution.cpp:70-96 | the add-compare-select step on states i and i + 8 computes metric and decision of states 2i and 2i + 1, ties included |
| Convolution.Decoder.Start | mmdvm/YSFConvolution.cpp:58-66 | all metrics zero, no symbol received |
| Convolution.Decoder.Decode | mmdvm/YSFConvolution.cpp:68-97 | after every symbol each metric is the minimum distance to its state, each stored decision the choice made there, and no metric exceeds twice the number of symbols, so 16 bits never wrap |
| Convolution.Decoder.Select | mmdvm/YSFConvolution.cpp:72-91 | the loop over eight butterflies yields the sixteen new metrics and the decision word |
| Convolution.Decoder.Chainback | mmdvm/YSFConvolution.cpp:99-114 | the bytes written hold the oldest register bits of the path traced back from state zero; bits beyond nBits are not touched |
| Convolution.TraceBack | mmdvm/YSFConvolution.cpp:105-113 | one step back along the traced path follows the stored decision |
| Convolution.Encode | mmdvm/YSFConvolution.cpp:116-141 | the bits written are the code of the first nBits input bits from state zero; the rest of the buffer is not touched |
| Convolution.DecodeCorrectsOneBit | mmdvm/YSFConvolution.cpp:58-141 | decoding a zero-tailed message received with at most one wrong bit yields the message without its tail |
| TwoWrongBits.TwoBitsCorrectedIff | mmdvm/YSFConvolution.cpp:58-114 | for every message that ends in state zero, two wrong bits are corrected if and only if they do not both lie on one of the four rivals while the message bit of that rival is zero |
| TwoWrongBits.DecodesTwoBitsIff | mmdvm/YSFConvolution.cpp:58-141 | chainback delivers every zero-tailed message through two wrong bits under exactly that condition |
| TwoWrongBits.DeliversRival | mmdvm/YSFConvolution.cpp:58-141 | otherwise chainback delivers the message with the inputs of a rival that both wrong bits lie on flipped: its first bit, its second or both, and no other |
| TwoWrongBits.LaterBitCorrected | mmdvm/YSFConvolution.cpp:58-114 | two wrong bits are always corrected when one of them is behind the first six symbols |
| TwoWrongBits.NotAllTwoBits | mmdvm/YSFConvolution.cpp:58-114 | a failing input in the program's blocks of 100 symbols: the message of zeros with both bits of the fifth symbol wrong |
| TwoWrongBits.RivalCode | mmdvm/YSFConvolution.cpp:116-141 | each rival differs from the sent path in exactly its four coded bits |
| TwoWrongBits.Beaten | mmdvm/YSFConvolution.cpp:82-88 | ties prefer the predecessor that shifts out a one: a path that meets the survivor from there costs more than a survivor that does not |
| ThreeWrongBits.FreeDistance | mmdvm/YSFConvolution.cpp:116-141 | a path that leaves state zero and comes back carries at least seven bits |
| ThreeWrongBits.HeadOrWhole | mmdvm/YSFConvolution.cpp:116-141 | a path into state zero on which some input differs, whatever state it starts in, carries four bits in its first eleven symbols or seven in all |
| ThreeWrongBits.ThreeLaterBitsCorrected | mmdvm/YSFConvolution.cpp:58-114 | up to three wrong bits behind the first eleven symbols are corrected, in every message that ends in state zero |
| ThreeWrongBits.DecodesThreeLaterBits | mmdvm/YSFConvolution.cpp:58-141 | chainback delivers every zero-tailed message through them |
| TwoBitBlocks.WrongIsHit | ysf_fich.c:1029-1034 | two wrong bits of an interleaved block are two wrong bits of the code, at the places they travel for |
| TwoBitBlocks.FichSurvivesTwoBits | ysf_fich.c:1021-1083 | every FICH is received as sent with any two of its 200 bits flipped, if the Golay table is right for errors in the first two data bits of a word |
| TwoBitBlocks.FichNeedsFirstTwo | ysf_fich.c:1021-1083 | and only then: for every other table there is a FICH and two flipped bits with which it is not received as sent |
| TwoBitBlocks.RightTableExists | mmdvm/Golay24128.cpp:1092-1108 | there are Golay tables that are right for errors in the first two data bits, for their four patterns have four syndromes |
| TwoBitBlocks.ThreeErrorTableIsRight | mmdvm/Golay24128.cpp:1092-1108 | a table that knows all errors of up to three bits is one of them |
| TwoBitBlocks.BlockOfTwoBits | mmdvm/YSFPayload.cpp:245-337 | a payload block with two flipped bits yields its data, or nothing exactly when they lie on a rival whose message bit is zero; never other data |
| Interleave.OneBitAwaySymbols | ysf_fich.c:1029-1034 | one wrong bit anywhere in an interleaved block is at most one wrong bit in the symbol stream |
| Interleave.PlacesInRows | ysf_fich.c:1029-1034 | the next symbol of a row travels forty bits on, the next row two bits on |
| Interleave.NearSymbolsApart | ysf_fich.c:1029-1034 | symbols less than a row apart travel at least 38 bits apart, so a short burst hits one of them |
| Interleave.DeinterleavedInjective | ysf_fich.c:1075-1082 | the symbols of a block determine every bit of the block |
| Interleave.Gather | ysf_fich.c:1023-1034 | the decoder receives the symbols of the block in deinterleaved order |
| Interleave.Scatter | ysf_fich.c:1075-1082 | the block written carries the symbols in order and no byte outside it changes |
| Interleave.EncodeBlock | mmdvm/YSFPayload.cpp:499-519 | the block written carries the code of the message and no byte outside it changes |
| Interleave.DecodeBlock | mmdvm/YSFPayload.cpp:263-277 | the bits stored are those recovered from the block's symbols |
| Golay.GetSyndrome | mmdvm/Golay24128.cpp:1047-1070 | the nested loop ends on every 23-bit word and returns the remainder of the division by the generator, whose code GolayDistance determines |
| Golay.CodewordSyndrome | mmdvm/Golay24128.cpp:1072-1075 | every code word has syndrome zero |
| Golay.Decode24 | mmdvm/Golay24128.cpp:1092-1108 | drops the parity bit, corrects by the table, keeps the data bits |
| Golay.DecodeEncode24 | mmdvm/Golay24128.cpp:1072-1108 | a code word decodes to its data, for every correction table whose entry zero is zero |
| Golay.DecodesIff | mmdvm/Golay24128.cpp:1072-1108 | whatever bits are wrong, the data come back if and only if the table entry for the syndrome of the errors has their data bits |
| Golay.ErrorSyndrome | mmdvm/Golay24128.cpp:1047-1070 | a word with errors has the syndrome of its errors |
| Golay.ShortErrorsDiffer | mmdvm/Golay24128.cpp:1047-1070 | different errors within the first eleven bits have different syndromes |
| GolayDistance.MinimumDistance | mmdvm/Golay24128.cpp:11-421 | the code words of two different data words are at least seven bits apart |
| GolayDistance.MinimumDistance24 | mmdvm/Golay24128.cpp:423-833 | and at least eight with the parity bit |
| GolayDistance.LastUnit | mmdvm/Golay24128.cpp:11-421 | data word 1 is encoded as 0xC75, which tells the code from its mirror image |
| GolayDistance.EncodedCarries | mmdvm/Golay24128.cpp:11-421 | each of the eleven parity bits is the sum of the seven data bits listed for it |
| GolayDistance.EncodedWhole | mmdvm/Golay24128.cpp:1047-1070 | a word with syndrome zero is the code word of its data |
| GolayDistance.ThreeErrorsDiffer | mmdvm/Golay24128.cpp:1047-1070 | different errors of up to three bits have different syndromes |
| GolayDistance.ThreeErrorsCorrected | mmdvm/Golay24128.cpp:1072-1108 | with a table that knows all errors of up to three bits the data come back through any three wrong bits and a wrong parity bit besides |
| GolayDistance.ThreeTableKnows | mmdvm/Golay24128.cpp:835-1045 | there is such a table |
| Crc.AddCcitt162 | mmdvm/CRC.cpp:149-168 | the last two bytes become the checksum of those before; nothing else changes |
| Crc.CheckCcitt162 | mmdvm/CRC.cpp:170-188 | accepts a buffer if and only if its last two bytes are the checksum of those before |
| Crc.TrailersSpelled | mmdvm/CRC.cpp:149-168 | the checksum of nothing is FF FF and that of byte 01 is EF DE: start value, generator, complement and byte order |
| Crc.CcittIsRemainder | mmdvm/CRC.cpp:149-188 | the checksum computed byte by byte from the table is the remainder of the division by x^16 + x^12 + x^5 + 1 bit by bit |
| Crc.BurstDetected | mmdvm/CRC.cpp:149-188 | buffers that differ, but only within sixteen bits in a row, have different checksums, wherever those bits lie |
| Crc.SealedBurstDetected | mmdvm/CRC.cpp:149-188 | a buffer closed with its checksum and damaged within sixteen bits in a row, the checksum among them or not, is rejected |
| Fich.SurvivesOneBit | ysf_fich.c:1021-1083 | every FICH is received as it was sent through checksum, Golay words, convolution and interleaver with at most one of its 200 bits flipped |
| Fich.OutboundFields | ysf_fich.c:874-925 | for fi, cm below 4 and fn, ft below 8 the setters and the field extraction are inverse, with data type 2 |
| Fich.OutboundHeader | ysf_fich.c:874-925 | the four outbound bytes are FI 2 CM 0, FN FT, data type 2 and 0, and are read as exactly that header |
| Fich.CodedInOrder | ysf_fich.c:1055-1070 | the 48 bits stand in order at the heads of the four Golay words |
| Fich.OutboundSurvivesOneBit | ysf_fich.c:886-925 | an outbound FICH with at most one of its 200 bits flipped is read back with the same fields and data type 2 |
| Fich.RewrittenHeader | ysf_fich.c:853-863 | the rewritten header is the old one with the new DGID, data type 2 and VoIP clear; fi, cs, cm, fn, ft and mr stay |
| Fich.RewriteSurvivesOneBit | ysf_fich.c:853-863 | a later decode of a rewritten block, even with one bit flipped, reads exactly that header |
| Fich.Codec.Encode | ysf_fich.c:1052-1083 | the six bytes are sealed with their checksum and the 25 bytes written carry them; no other byte of the frame changes |
| Fich.Codec.GolayWords | ysf_fich.c:1055-1070 | the twelve coded bytes and the flush byte hold the four Golay words, data bits in order, and the zero tail |
| Fich.Codec.Decode | ysf_fich.c:1021-1050 | the six bytes become what is received from the 25-byte block |
| Fich.Codec.EncodeOutbound | ysf_fich.c:910-925 | the block written carries the sealed outbound header for all field values |
| Fich.Codec.DecodeFields | ysf_fich.c:867-903 | the fields are those received behind the sync word if there is one, else at the other offset |
| Fich.Codec.RewriteDgid | ysf_fich.c:853-863 | DGID 0 changes nothing; otherwise only bytes 40 to 64 change, and they carry the old header with the new DGID, data type 2 and VoIP clear |
| Payload.BlockSurvivesOneBit | mmdvm/YSFPayload.cpp:485-571 | a block read with at most one flipped bit passes its checksum and yields what was written |
| Payload.WrittenDataReadsBack | mmdvm/YSFPayload.cpp:339-380 | reading a block that was written, with at most one flipped bit, returns the data |
| Payload.WriteBlock | mmdvm/YSFPayload.cpp:485-527 | the block carries the whitened, sealed, coded data and no byte outside it changes |
| Payload.ReadBlock | mmdvm/YSFPayload.cpp:245-290 | succeeds exactly when the checksum holds, and then returns the data |
| Payload.WriteHeader | mmdvm/YSFPayload.cpp:474-483 | both 20-byte blocks are in the frame, neither disturbs the other, and sync and FICH bytes stay |
| Payload.WriteVDMode2Data | mmdvm/YSFPayload.cpp:339-380 | the ten bytes are in the data channel and no voice byte, sync byte or FICH byte changes |
| Payload.ReadVDMode2Data | mmdvm/YSFPayload.cpp:429-472 | returns the data of the channel, or leaves the caller's bytes alone when the checksum fails |
| Payload.ReadDataFRMode | mmdvm/YSFPayload.cpp:245-337 | returns the data of the block, or spaces when the checksum fails |
| Payload.HeaderProcessor.ProcessHeaderData | mmdvm/YSFPayload.cpp:96-243 | learns source and destination from a valid first block unless already known, rewrites each valid block in clean form with the configured callsigns, and leaves the rest alone |
| Payload.RegeneratesBlock | mmdvm/YSFPayload.cpp:96-140 | a header block hit by one bit error is written back bit for bit as sent, and its two callsigns are learnt |
| Payload.OtherBlock | mmdvm/YSFPayload.cpp:474-571 | writing one header block leaves the other block and the 30 bytes before it alone |
| Payload.SlotsInOrder | mmdvm/YSFPayload.cpp:245-262 | a block fills its bytes of the five sections in order |
| Payload.SectionsShared | mmdvm/YSFPayload.cpp:245-337 | each byte behind the prefix belongs to the data channel or to the voice, and in a header to one of its two blocks |
| Payload.RelinkedReads | mmdvm/YSFPayload.cpp:96-243 | with both callsigns configured a refreshed second block is read as downlink and then uplink |
| RingBuffer.Ring.AddData | mmdvm/RingBuffer.h:50-66 | appends, or empties the queue exactly when the samples would leave no free slot |
| RingBuffer.Ring.GetData | mmdvm/RingBuffer.h:68-83 | removes the oldest samples, or fails and removes nothing |
| RingBuffer.Ring.Peek | mmdvm/RingBuffer.h:85-101 | returns the oldest samples and removes nothing |
| RingBuffer.Ring.Clear | mmdvm/RingBuffer.h:103-109 | empties the queue |
| VoiceQueue.Lane.Put | mmdvm/ModeConv.cpp:680-685 | the record joins the ring, or empties it exactly at the limit (499 or 357 records), and the counter moves on; ring and counter agree afterwards if and only if they did and there was room |
| VoiceQueue.Lane.PutEot | mmdvm/ModeConv.cpp:842-858 | silence up to a group boundary of the counter and then the EOT join the ring, past the limit as well |
| VoiceQueue.JoinsIffFits | mmdvm/ModeConv.cpp:653-686 | records put one after the other are all in the ring, in order, if and only if they fit together |
| VoiceQueue.Lane.Take | mmdvm/ModeConv.cpp:878-885 | the oldest record leaves the ring, or nothing does when it is empty; the counter falls by one in any case |
| VoiceQueue.Lane.Get | mmdvm/ModeConv.cpp:860-900 | at any state a put can leave: a tag record, a voice group or what there is of it, or nothing is returned and removed, and the counter falls by what was tried |
| VoiceQueue.VoiceServed | mmdvm/ModeConv.cpp:860-900 | on a ring of voice alone a get takes and leaves what the call state machine says its converter does |
| VoiceQueue.GetConserves | mmdvm/ModeConv.cpp:860-900 | what a get returns followed by what stays is what was there, and the counter never gets further ahead of the ring |
| VoiceQueue.AgreeingGet | mmdvm/ModeConv.cpp:860-900 | ring and counter that agree agree after a get, which then returns one tag record, one whole group or nothing |
| VoiceQueue.StaleVoiceIff | mmdvm/ModeConv.cpp:878-900 | a voice burst is handed out with stale bytes if and only if the ring starts with voice and holds less than a group under a counter of at least a group |
| VoiceQueue.EmptyRingRecovers | mmdvm/ModeConv.cpp:860-900 | after an overflow emptied the ring, ring and counter agree again after exactly as many gets as the counter says |
| VoiceQueue.DrainConserves | mmdvm/ModeConv.cpp:860-951 | draining a queue loses, duplicates and reorders nothing |
| VoiceQueue.DrainsCleanIff | mmdvm/ModeConv.cpp:860-951 | a queue drains to nothing without packing a tag record as voice if and only if every tag record and the end lie whole groups behind the tag before |
| VoiceQueue.EotAlignedIff | mmdvm/ModeConv.cpp:813-858 | after an EOT the queue drains cleanly if and only if its tags were on boundaries and the records ahead of its closing voice run fill whole groups |
| VoiceQueue.EotAfterVoice | mmdvm/ModeConv.cpp:813-858 | with only voice pending an EOT drains as whole voice groups and then itself |
| VoiceQueue.EotBehindHeader | mmdvm/ModeConv.cpp:819-821 | with a HEADER pending before voice an EOT never drains cleanly |
| Voice.BytesRoundTrip | mmdvm/ModeConv.cpp:688-705 | seven packed bytes give the 49-bit frame back |
| Voice.StripProtected | mmdvm/ModeConv.cpp:653-660 | removing the Golay protection and the scrambling gives the frame back, for every scrambling table |
| Voice.DmrRecord | mmdvm/ModeConv.cpp:653-678 | the nine bytes hold the protected frame at the places that Silence.SpotsApart determines and Silence.DmrSilence checks |
| Voice.Spread | mmdvm/ModeConv.cpp:662-678 | a word is written to its interleaved places and no other bit changes |
| Voice.PackBurst | mmdvm/ModeConv.cpp:878-896 | three records become the voice bits of a burst; bytes 14 to 18 stay |
| Voice.WhereInOrder | mmdvm/ModeConv.cpp:878-896 | the bits of the three records fill a burst in order around the 48 signalling bits |
| Voice.VoiceUntouched | bridge_el.c:372-385 | bursts that agree outside the 48 signalling bits carry the same voice |
| Voice.BurstFrames | mmdvm/ModeConv.cpp:733-789 | reads the three frames whose voice bits the burst carries |
| Voice.ChannelRoundTrip | mmdvm/ModeConv.cpp:538-596 | the repeated channel bits give the frame back |
| Voice.YsfRecord | mmdvm/ModeConv.cpp:538-596 | the thirteen bytes hold the channel bits of the frame that the protected words carry |
| Voice.Repeated | mmdvm/ModeConv.cpp:552-578 | the loops lay out three copies of each protected bit and single copies of the rest |
| Voice.Whiten | mmdvm/ModeConv.cpp:580-589 | whitening and interleaving keep the channel bits recoverable |
| Voice.SectionFrame | mmdvm/ModeConv.cpp:598-651 | reads the frame of one payload section |
| Voice.PayloadUntouched | bridge_el.c:1003-1009 | new sync, FICH or data channel bytes leave the voice of a payload alone |
| Silence.OneSilence | mmdvm/ModeConv.cpp:463-464 | the two silence records of the source are one and the same frame: what DMR_SILENCE holds behind its protection is what YSF_SILENCE holds behind its whitening |
| Silence.DmrSilence | mmdvm/ModeConv.cpp:653-678 | DMR_SILENCE is bit for bit the record of that frame, with its two Golay words, the source's mask and the places of the three tables |
| Silence.UnmaskedSilence | mmdvm/ModeConv.cpp:653-678 | for every scrambling table its first word is the Golay word of 0xF80 and its last word 0x13F19C1 |
| Silence.YsfSilence | mmdvm/ModeConv.cpp:538-596 | YSF_SILENCE is bit for bit the record of that frame, every copy of every repeated bit included |
| Silence.SevenBytes | mmdvm/ModeConv.cpp:688-705 | the frame is F8 01 A9 9F 8C E0 80 in seven bytes, both ways |
| Silence.SpotsApart | mmdvm/ModeConv.cpp:447-452 | the tables of a DMR record: the next protected bit is four places on, and the next place belongs to the protected bit eighteen on |
| Silence.CellsApart | mmdvm/ModeConv.cpp:454-458 | the table of a YSF record: the next channel bit is four places on, and the next place belongs to the channel bit twenty-six on |
| Silence.WhiteningIsSequence | mmdvm/ModeConv.cpp:460-461 | the whitening bytes are a sequence of x^9 + x^4 + 1 |
| ModeConv.Converter.PutAmbe2Dmr | mmdvm/ModeConv.cpp:653-686 | one record of the frame is put for DMR, its bits at the places of Voice.DmrRecord, at any filling of the ring |
| ModeConv.Converter.PutAmbe2Ysf | mmdvm/ModeConv.cpp:538-596 | one record of the frame the protected words carry is put for YSF, at any filling of the ring |
| ModeConv.Converter.PutAmbe7 | mmdvm/ModeConv.cpp:707-714 | one record of the seven-byte frame is put for DMR |
| ModeConv.Converter.PutAmbe7Ysf | mmdvm/ModeConv.cpp:716-731 | one record of the seven-byte frame is put for YSF |
| ModeConv.Converter.PutDmr | mmdvm/ModeConv.cpp:478-536 | the three frames of a burst are put for YSF in order |
| ModeConv.Converter.PutYsf | mmdvm/ModeConv.cpp:598-651 | the five frames of a payload are put for DMR in order |
| ModeConv.Converter.PutYsfHeader | mmdvm/ModeConv.cpp:831-840 | a HEADER record is put for DMR |
| ModeConv.Converter.PutDmrHeader | mmdvm/ModeConv.cpp:802-811 | a HEADER record is put for YSF |
| ModeConv.Converter.PutYsfEot | mmdvm/ModeConv.cpp:842-858 | silence up to the counter's group boundary and an EOT record are put for DMR |
| ModeConv.Converter.PutDmrEot | mmdvm/ModeConv.cpp:813-829 | silence up to the counter's group boundary and an EOT record are put for YSF |
| ModeConv.Converter.GetDmr | mmdvm/ModeConv.cpp:860-900 | at any state a put can leave: delivers three frames as a burst, or what there is of them over the caller's bytes, a tag record or nothing, and removes exactly that |
| ModeConv.Converter.GetYsf | mmdvm/ModeConv.cpp:902-951 | the same for payloads of five frames |
| ModeConv.Converter.Dmr33ToAmbe | mmdvm/ModeConv.cpp:733-789 | the three frames of a burst as seven bytes each |
| Transcode.OverlayBurst | bridge_el.c:372-385 | sync in the first burst, embedded LC and EMB bits in the others, and the voice stays |
| Transcode.OverlayPayload | bridge_el.c:1003-1009 | sync, data channel and FICH written over a payload leave every voice byte alone |
| Transcode.ThroughDmr | mmdvm/ModeConv.cpp:478-951 | under every schedule of puts and gets that stays below the limit, and with any link control, EMB word, data channel and frame number for each frame, the frames come back from DMR in order and bit for bit, and those not back are queued |
| Transcode.ThroughYsf | mmdvm/ModeConv.cpp:478-951 | under every schedule of puts, relays and gets that stays below the limits, and with any signalling for each frame, the frames come back through YSF and DMR in order and bit for bit, and those not back are queued, first for DMR and then for YSF |
| DmrSignalling.HammingEncode | hbp/dmr_hbp.c:230-243 | the bits become a code word and only parity bits change, for every systematic code given by its parity equations |
| DmrSignalling.CodewordClosed | hbp/dmr_hbp.c:230-243 | the sum of two code words is a code word |
| DmrSignalling.ParityRowsCoded | hbp/dmr_hbp.c:281-299 | when the nine data rows and all columns are code words, so are the four parity rows |
| DmrSignalling.Matrix | hbp/dmr_hbp.c:260-299 | the 96 data bits are in place, the reserved cells zero, and all 13 rows and 15 columns are words of the codes of HammingDistance |
| DmrSignalling.Unshuffle | hbp/dmr_hbp.c:300-306 | the interleaver a to 181 a modulo 196 is undone by 13 |
| DmrSignalling.BptcEncode | hbp/dmr_hbp.c:244-336 | the burst holds the interleaved matrix, whose rows and columns are all words of the codes of HammingDistance, and bits 98 to 165 (slot type and sync) stay |
| DmrSignalling.BptcRecoverable | hbp/dmr_hbp.c:244-336 | every bit of the link control can be read at its place in the burst |
| DmrSignalling.EmbParityRowCoded | hbp/dmr_hbp.c:641-644 | when seven rows are code words and all columns even, the parity row is a code word |
| DmrSignalling.EncodeEmbedded | hbp/dmr_hbp.c:607-652 | the 72 link control bits are in place, all 8 rows are code words, all 16 columns even, and the read-out is column by column |
| DmrSignalling.OverlayEmbedded | hbp/dmr_hbp.c:653-687 | bursts 1 to 4 carry a quarter each, others zeros, no bit outside changes, and LCSS names the quarter |
| DmrSignalling.OverlayEmb | hbp/dmr_hbp.c:688-701 | the 16 EMB bits lie around the embedded LC and no other bit changes |
| DmrSignalling.OverlaySync | bridge_el.c:372-376 | the 48 sync bits are written and the voice stays |
| DmrSignalling.EmbeddedRecoverable | hbp/dmr_hbp.c:607-687 | bursts 1 to 4 together give every bit of the link control |
| HammingDistance.RowDistance | hbp/dmr_hbp.c:230-236 | two words of the row code are at least three bits apart |
| HammingDistance.ColumnDistance | hbp/dmr_hbp.c:237-243 | two words of the column code are at least three bits apart |
| HammingDistance.LongDistance | hbp/dmr_hbp.c:592-599 | two words of the longer row code are at least four bits apart |
| HammingDistance.ColumnIsShortRow | hbp/dmr_hbp.c:237-243 | the column code is the row code with two zeros ahead |
| HammingDistance.LongIsEvenRow | hbp/dmr_hbp.c:592-599 | the longer row code is the row code with a bit that makes the ones even |
| HammingDistance.RowCyclic | hbp/dmr_hbp.c:230-236 | a row code word moved round is a row code word |
| HammingDistance.RowPolynomial | hbp/dmr_hbp.c:230-236 | x^4 + x + 1 is a row code word, so the row code is the cyclic code it generates |
| SignallingErrors.HeaderDistance | hbp/dmr_hbp.c:244-299 | the matrices of different headers differ in at least nine cells |
| SignallingErrors.EmbeddedDistance | hbp/dmr_hbp.c:607-652 | the matrices of different embedded link controls differ in at least eight cells |
| SignallingErrors.ColumnScattered | hbp/dmr_hbp.c:300-306 | cells of one column of a header travel at least seven coded bits apart |
| SignallingErrors.HeaderSurvivesBurst | hbp/dmr_hbp.c:244-336 | a header burst names its 12 link control bytes through any seven wrong coded bits in a row: no other link control can be received like that |
| SignallingErrors.DataFillsRows | hbp/dmr_hbp.c:260-279 | the 96 data bits fill the data cells of nine rows in order behind three reserved ones |
| SignallingErrors.BurstFilled | hbp/dmr_hbp.c:307-336 | the 196 coded bits fill the burst in order around bits 98 to 165 |
| SignallingErrors.LcFillsRows | hbp/dmr_hbp.c:607-640 | the 72 link control bits fill the data cells of seven rows in order around the checksum |
| SignallingErrors.CrcOfTalkgroup91 | hbp/dmr_hbp.c:607-640 | a worked checksum; Crc5 is the sum of the bytes modulo 31 |
| Probing.ProbeEndsIff | aliases.c:817-864 | in a table of a map, a probe for a key meets a free slot or the key if and only if the key is stored or the table is not full |
| Probing.PutRepresents | aliases.c:817-864 | writing a key where its probe stopped stores the old map with that key bound, and nothing else |
| Probing.FullIff | aliases.c:804-815 | a table is full exactly when it holds as many entries as it has slots |
| Probing.Probe | aliases.c:817-864 | the unbounded probe, in any table that has such a slot, ends at the first slot that is free or holds the key |
| Probing.Find | aliases.c:1231-1276 | the bounded probe, in any table, finds what the first slot that is free or holds the key has |
| Probing.FoundIsBound | aliases.c:1231-1276 | in a table of a map that is what the map binds the key to |
| Probing.Move | aliases.c:773-795 | an entry goes to the first free slot from its hash slot on, and no other slot changes |
| Probing.Rehash | aliases.c:752-802 | the larger table is the one in which the entries, in slot order, have taken the first free slots |
| Probing.MovedSame | aliases.c:752-802 | moved in this way, a table of a map is a table of the same map |
| Aliases.KeyIdempotent | aliases.c:724-738 | a key files under itself |
| Aliases.KeyWithoutSuffix | aliases.c:724-738 | a suffix mark and whatever follows it make no difference to a key, wherever the mark stands |
| Aliases.KeyIgnoresCase | aliases.c:724-738 | nor does the case of any letter |
| Aliases.KeyIgnoresPadding | aliases.c:724-738 | nor a space ahead or behind |
| Aliases.KeyWhole | aliases.c:724-738 | up to fifteen characters without spaces, suffix marks or small letters are their own key |
| Aliases.HashesSpelled | aliases.c:83-94 | worked hashes of an id and of keys |
| Aliases.NormalizeKey | aliases.c:724-738 | leading and trailing spaces dropped, upper case, cut at a suffix mark and at 15 characters |
| Aliases.NextPow2 | aliases.c:740-749 | the least capacity, 1024 times a power of two, that is at least n |
| Aliases.Index.Grow | aliases.c:752-802 | both tables move to the new capacity slot by slot, also with keys that were cut, and neither map changes |
| Aliases.Index.EnsureCap | aliases.c:804-815 | after success one more id stays below 70 per cent, at the old capacity or its double; it fails exactly when growth is needed and allocation fails, and then nothing changes |
| Aliases.Index.PutId | aliases.c:817-840 | the id is bound to the first ten characters of the key and the count is the number of ids; when growth fails the id is not filed |
| Aliases.Index.PutCs | aliases.c:842-864 | for keys of any length, whenever there is room: the first slot that is free takes the key's first ten characters and the id, the first that holds the key takes the id of a preferred record, no other slot changes; the callsign map follows until a longer key is filed |
| Aliases.Index.Insert | aliases.c:866-878 | maps, capacity and callsign table change as one subscriber record says, for callsigns of any length and whether or not memory can be had, whenever there is room for its callsign; unusable records change nothing |
| Aliases.Index.Upsert | aliases.c:880-892 | the same for an overlay record |
| Aliases.Index.Load | aliases.c:894-953 | after all records of a file, across every growth and every failed one, the tables are what the records amount to, whenever there is room for each callsign in its turn, which Aliases.DistinctIdsLoad and Aliases.BalancedLoads show of ordinary files |
| Aliases.Index.LookupId | aliases.c:1231-1252 | returns the id at the slot the probe for the callsign's key meets, and as long as no callsign longer than a slot was filed that is what the map binds the key to; otherwise 0 |
| Aliases.Index.LookupCallsign | aliases.c:1254-1276 | returns the callsign the map binds the id to, padded to ten characters; spaces if unknown; the buffer is left alone for an empty table or an id that is not positive |
| Aliases.EndsIff | aliases.c:804-864 | the put of a record's callsign ends if and only if there is room: fewer slots are in use than the table will have, or one holds the callsign, or there is no table |
| Aliases.RoomIff | aliases.c:804-864 | as long as no key was cut short there is room if and only if the callsign has an id, or callsigns are fewer than the slots there will be, or there is no table |
| Aliases.DistinctIdsLoad | aliases.c:804-953 | every file whose records name different new ids is loaded to its end, with callsigns of any length: growth at 70 per cent of the ids keeps ahead of the callsign table |
| Aliases.BalancedLoads | aliases.c:804-953 | every file in which no callsign is longer than a slot and callsigns never outnumber ids is loaded to its end |
| Aliases.FirstCarrierFound | aliases.c:866-953 | after such a file, from empty tables, a lookup finds the id of the first record that carries the callsign, and nothing when none does |
| Aliases.LookupsFollowMap | aliases.c:842-953 | after a file without a callsign longer than a slot, and with room for each, lookups find exactly what the map of its records binds |
| Aliases.FiledKeeps | aliases.c:842-878 | filing a record keeps the callsign table a table of the map, until a longer callsign is filed |
| Aliases.IdHasLastCallsign | aliases.c:817-840 | an id has the callsign of the last record that names it, cut to ten characters, if that record found room |
| Aliases.UnnamedId | aliases.c:817-840 | an id no record names keeps what it had |
| Aliases.CallsignHasFirstId | aliases.c:866-878 | a callsign has the id it had before the subscriber file, or that of the first record that carries it, once there is a table |
| Aliases.OverlayWins | aliases.c:880-892 | a callsign the overlay carries has the id of the last record that carries it, once there is a table |
| Aliases.UncarriedCallsign | aliases.c:842-864 | a callsign no record carries keeps what it had |
| Aliases.CutKeyFoundIff | aliases.c:842-864 | a key put into the callsign table is in some slot afterwards if and only if it has at most ten characters |
| Aliases.LongTakesSlot | aliases.c:842-864 | a put of a longer key ends if and only if a slot is free, and then takes a new one |
| Aliases.LongsFill | aliases.c:842-878 | n records with one long callsign, up to 1024, leave the first capacity, one id and n slots in use, with room for each in its turn |
| Aliases.LongTooOften | aliases.c:842-878 | 1024 records with one long callsign are loaded in full, and then neither a new callsign nor that one finds a slot: the put does not end |
| Aliases.RenamedTooOften | aliases.c:804-864 | 1024 records that rename one id are loaded in full, and the next new callsign finds a full table, where its put does not end |
| Aliases.RenamingsFill | aliases.c:804-864 | n renamings of one id leave the first capacity, one id and n callsigns, with room for each in its turn |
| Downloads.FileSound | aliases.c:541-686 | whatever the instances, how often each calls and with what digest, their interleaving, takeovers and crashes, the shared file holds its starting content or what some turn of the run renamed onto it, which had passed the tests of the very call that took the turn |
| Downloads.FileChangesByRename | aliases.c:614-664 | the shared file changes only by a rename, to the renamer's own download, which has passed the tests of its current call |
| Downloads.MismatchNotSkipped | aliases.c:556-569 | a call that begins on a file with another digest than it wants never returns 0, whatever the other instances do |
| Downloads.ZeroMeansNone | aliases.c:541-594 | a call that returns 0 began on a file it need not replace or has seen none |
| Downloads.OneMeansGood | aliases.c:571-686 | a call that returns 1 has had the shared file before it with the digest it wants |
| Downloads.ThreeAttempts | aliases.c:614-686 | no call makes more than three attempts |
| Downloads.TriesAgain | aliases.c:614-686 | an attempt that fails while the file is not there is followed by the next, up to the third, and then by the error |
| Downloads.StepLocksIff | aliases.c:246-289 | a step keeps the lock with whoever holds it if and only if it does not take the lock over while an instance holds it |
| Downloads.OneHolder | aliases.c:246-289 | as long as no lock is taken over from an instance that holds it, at most one holds it; locks of crashed instances may be taken |
| Downloads.TakeoverAdmitsSecond | aliases.c:246-258 | from every takeover while an instance holds the lock the run can go on to two that hold it |
| Downloads.TwoHolders | aliases.c:252-258 | from every start a takeover leads to two instances that download at once |
| WireGrammar.Consecutive | bridge_el.c:328-403 | within a stream: the header first with sequence number 0, consecutive numbers modulo 256, one stream id, bursts numbered 0 to 5 in a circle, nothing after a terminator |
| WireGrammar.SpeechOnlyInCall | bridge_el.c:1357-1370 | in every log of streams, speech bursts are sent only while the EchoLink call owns the slot |
| WireGrammar.SentIsRecognised | bridge_el.c:118-138 | byte 15 of a packet is taken for a header, a terminator or the burst of its number exactly when it is one |
| CallSafety.EveryRun | bridge_el.c:405-499 | after every run from the start: the wire is streams one after the other, all complete but the one being sent; complete means closed on a superframe with at most the silence that fills it, or pre-empted, or a cut connect PTT; speech only in an EchoLink call; teardown only in such a call; connect PTT never in one; what was put to the converter since the call's first burst leaves in order and in threes if and only if no put of it found the ring full |
| CallSafety.StepKeeps | bridge_el.c:1357-1408 | every tick, received packet, arrival of audio and pass over it keeps the invariant behind that |
| CallSafety.HowStreamsEnd | bridge_el.c:800-817 | a stream is left without terminator only by a tick that finds the link down, and terminated off the superframe only by a DMR header during an EchoLink call |
| CallVoice.BlockHeard | bridge_el.c:535-614 | outside the cooldown a coded block adds its frame behind those that wait, three at a time in order, and a failed one adds nothing |
| CallVoice.BlocksHeard | bridge_el.c:535-614 | a pass outside the cooldown hears every block it reads in order, up to the third failure in a row, which drops at most two frames |
| CallVoice.RunHeard | bridge_el.c:524-615 | over every stretch of a call, or of the time between calls, what was put and what waits grow by exactly the frames coded, in order |
| CallVoice.CallSaysWhatWasCoded | bridge_el.c:405-430 | the frames sent in an open call, then those in the ring and those that wait, are those of any earlier time of it and then all that was coded since, in order |
| CallVoice.CallBeginsWith | bridge_el.c:405-430 | a call begins with the three oldest frames heard since the last reset, under the talker's id, or the bridge's own if there is none |
| CallTimes.SlotHeld | bridge_el.c:1398-1408 | a DMR call keeps the slot for 1500 ms after its last header or voice packet unless a terminator comes |
| CallTimes.DmrdInDmrCall | bridge_el.c:617-709 | voice and a repeated header renew a DMR call, another header replaces it, a terminator ends it, other packets leave it alone |
| CallTimes.CallHeld | bridge_el.c:1385-1396 | an EchoLink call stays open for 700 ms after audio was last read unless DMR takes the slot |
| CallTimes.CooldownHolds | bridge_el.c:548-556 | for 800 ms after a call no other EchoLink call begins, whatever is heard |
| CallTimes.CooldownEnds | bridge_el.c:548-556 | and no longer |
| CallTimes.TickPaces | bridge_el.c:1357-1370 | a tick sends a burst of an open call exactly when the converter gives one and the last packet is 60 ms old |
| CallTimes.BurstsSpaced | bridge_el.c:1357-1370 | for 60 ms after a burst of an open call nothing is sent, whatever happens, unless DMR takes the slot |
| CallTimes.ConnectPaces | bridge_el.c:771-817 | a connect PTT sends its header first, bursts 60 ms or more apart for 500 ms, and then ends |
| CallTimes.EveryStreamAddressed | bridge_el.c:328-403 | after every run calls have gone to the configured talkgroup, and connect PTTs there or to 4000 under the bridge's own id |
| CallTimes.ConnectStages | bridge_el.c:712-769 | a connect PTT that clears goes first, and is followed by the one to the talkgroup |
| CallSafety.HeadLive | bridge_el.c:328-403 | after its header a stream is open on the wire, with sequence number 0 sent and no burst yet |
| CallSafety.SpeechLive | bridge_el.c:328-430 | a burst of speech is the next packet of the open call: right sequence number, burst number, stream id, talkgroup and source |
| CallSafety.SilenceLive | bridge_el.c:328-403 | a burst of silence is the next packet of the open stream, in the same sense |
| CallSafety.TermQuiet | bridge_el.c:328-403 | a terminator that completes the open stream leaves only complete streams on the wire |
| CallSafety.StartKeeps | bridge_el.c:405-430 | the first burst of a call opens a stream whose first burst is number 0, because no call leaves its frame counter behind |
| CallSafety.SpeechKeeps | bridge_el.c:405-430 | a later burst carries what the get gave, three frames as long as no put has found the ring full, and the invariant holds |
| CallSafety.GetKeeps | bridge_el.c:1357-1370 | a get moves frames from ring to wire: frames sent and in the ring are those put, in order, or after an overflow fewer |
| CallSafety.PutKeeps | bridge_el.c:535-614 | a put keeps that, and is an overflow exactly when it finds 499 frames in the ring |
| CallSafety.SpillsIff | bridge_el.c:535-614 | the three puts of a group overflow exactly when fewer than three places are free |
| CallSafety.PaceTxKeeps | bridge_el.c:1357-1370 | the paced burst keeps the invariant in every state |
| CallSafety.BeginEndKeeps | bridge_el.c:434-446 | teardown begins in an open call only, drops what is queued and sends nothing |
| CallSafety.PaceEndKeeps | bridge_el.c:465-485 | teardown pads to the superframe and closes the call with one terminator |
| CallSafety.EndCallKeeps | bridge_el.c:488-499 | pre-emption terminates the call at once and leaves no call towards DMR |
| CallSafety.StartConnectKeeps | bridge_el.c:712-769 | a connect PTT starts exactly when there is neither a call nor another one and a talkgroup is set, and sends nothing yet |
| CallSafety.EmitConnectKeeps | bridge_el.c:771-798 | header, burst or end of a connect PTT keep the invariant in every state |
| CallSafety.CutConnectKeeps | bridge_el.c:800-811 | the loss of the link leaves the cut connect stream as the last of the log and sends nothing |
| CallSafety.PollConnectKeeps | bridge_el.c:800-817 | a poll of the link keeps the invariant in every state |
| CallSafety.FinishConnectKeeps | bridge_el.c:729-756 | the end of a connect PTT completes the superframe, terminates the stream and keeps the invariant, also when a second stream follows |
| CallSafety.TickKeeps | bridge_el.c:1372-1408 | a tick keeps the invariant in every state |
| CallSafety.DmrdKeeps | bridge_el.c:617-709 | a received packet keeps the invariant in every state |
| CallSafety.AudioKeeps | bridge_el.c:524-615 | a pass over all audio that waits keeps the invariant, whatever the vocoder makes of it |
| CallQuiescence.Settles | bridge_el.c:1372-1408 | after every run, whatever audio it left unread, the main loop going on without network input ends in idle with only complete streams on the wire once 90 passes over the audio and their ticks are 60 ms or more apart; an open call that is heard is closed by one terminator after at most five bursts of silence |
| CallQuiescence.SettlesInTime | bridge_el.c:1372-1408 | with ticks at most g ms apart the bridge is idle after 89 times 60 + g ms |
| CallQuiescence.WindowTick | bridge_el.c:1372-1408 | a tick without news never takes the bridge further from idle, and one 60 ms or more after a state that is not idle, behind a pass over the audio, brings it strictly nearer |
| CallQuiescence.WindowAudio | bridge_el.c:524-615 | a pass over waiting audio may start or prolong a call, and still never takes the bridge further from idle than it was with that audio unread |
| BridgeEl.Bridge.ConnectFinish | bridge_el.c:729-756 | on the fields of the bridge: the padding loop, the terminator and the next stage are the end of a connect PTT of the state machine |
| BridgeEl.Bridge.Tick | bridge_el.c:1372-1408 | on the fields of the bridge: the tick step of the state machine, and its invariant |
| BridgeEl.Bridge.OnDmrd | bridge_el.c:617-709 | on the fields of the bridge: the packet step of the state machine, and its invariant |
| BridgeEl.Bridge.ProcessElAudio | bridge_el.c:524-615 | on the fields of the bridge: the audio step of the state machine over all blocks that wait, whose order CallVoice determines, and its invariant |
| BridgeEl.Bridge.Encode | bridge_el.c:535-614 | on the fields of the bridge: the loop reads every waiting block, puts frames three at a time into the ring and its counter in the order CallVoice.BlocksHeard gives, drops them in the cooldown and at the third failure in a row gives up and drops what waits |
| BridgeEl.Bridge.Arrives | peer_echolink.c:234-246 | on the fields of the bridge: audio waits for two seconds at most and the rest is lost |
| ProxyStream.FrameParses | el_proxy.c:168-191 | a framed message followed by anything is parsed back with that rest if and only if its payload fits the buffer; otherwise it is refused as too large |
| ProxyStream.ParsePrefix | el_proxy.c:313-349 | what has been parsed does not depend on what follows |
| ProxyStream.SplitIndependent | el_proxy.c:352-387 | however the stream is split into reads, channel, leftover bytes and handled messages are those of the whole stream |
| ProxyStream.FramesHandled | el_proxy.c:313-349 | a stream of framed messages is handled message by message in order up to the first that ends the link |
| ProxyStream.HandledPrefix | el_proxy.c:313-349 | what is handled is a prefix of the messages, all of them if the link stays up |
| ProxyStream.SentIsHandled | el_proxy.c:168-387 | messages sent are handled as sent in whatever pieces they arrive |
| ProxyStream.EndsIff | el_proxy.c:242-310 | a message ends the link exactly when it is an overflow of directory data, a one-byte system message or of unknown type |
| ProxyStream.ChannelConserves | el_proxy.c:210-258 | between resets of the directory channel, what reads return followed by what waits is what was waiting followed by all payloads, in order, also after the channel was closed |
| ProxyStream.OpensIff | el_proxy.c:242-284 | a channel that is being opened is open after a run exactly when its first status word is 0 and neither a close nor an end of the link came before or since; it still waits exactly when none of these came |
| ProxyStream.FrameSpelled | el_proxy.c:168-191 | a frame byte by byte, with the length low byte first |
| Proxy.Client.Disconnect | el_proxy.c:193-208 | the link is down, buffers and channel are empty |
| Proxy.Client.DirAppend | el_proxy.c:210-240 | data joins the unread bytes, which are moved to the front in place, or ends the link exactly when it does not fit |
| Proxy.Client.HandleMsg | el_proxy.c:242-310 | acts on one message as the channel says, whose state over whole runs ProxyStream.OpensIff gives |
| Proxy.Client.ParseAcc | el_proxy.c:313-349 | handles every complete message in the buffer and leaves the bytes of the next |
| Proxy.Client.ParseOne | el_proxy.c:317-346 | one turn of that loop: too large, not complete, or handled and removed |
| Proxy.Client.Drain | el_proxy.c:352-387 | whatever sizes the reads have, the result is that of the bytes taken from the socket in one piece, all of them if reads do not stop early, and the link is down if the stream has then ended or failed; there is room before every read, so the no-space exit is not taken |
| Proxy.Client.TakeDir | el_proxy.c:739-752 | a read returns the oldest unread bytes, at most the caller's buffer, and removes exactly those |
| Sdes.CompoundWalked | peer_echolink.c:1330-1380 | every compound packet built is walked to its exact end and its one description is read |
| Sdes.DescriptionRead | peer_echolink.c:1279-1328 | a description is read to the fields its items set |
| Sdes.StationReadBack | peer_echolink.c:868-947 | for every printable name without trailing space, up to 63 characters, the packet is a multiple of four bytes and yields the literal CNAME and that NAME |
| Sdes.WholePacket | peer_echolink.c:868-947 | a compound packet byte by byte |
| Sdes.PaddedPacket | peer_echolink.c:369-388 | and one that is padded |
| Sdes.OpenRecognised | peer_echolink.c:977-1033 | a firewall request is always read as OPEN, whatever callsign and address it carries |
| Sdes.CleanSame | peer_echolink.c:1091-1111 | printable text without trailing space that fits its field is kept as it is |
| Sdes.FinishSdes | peer_echolink.c:369-388 | padding, padding bit and length in words are those of the padded description |
| Sdes.BuildSdes | peer_echolink.c:868-947 | refuses exactly when the buffer is too small, otherwise builds the compound packet of the station |
| Sdes.BuildFirewallOpen | peer_echolink.c:977-1033 | refuses exactly when the buffer is too small or a text is empty, otherwise builds the compound packet of the request |
| Sdes.CopyItem | peer_echolink.c:1091-1111 | keeps the printable characters that fit, without trailing spaces |
| Sdes.ParseItems | peer_echolink.c:1297-1316 | the item loop ends in bounds on any bytes and notes every item it passes |
| Sdes.ParseSdes | peer_echolink.c:1279-1328 | on any bytes the loops end in bounds with the reading of the packet |
| Sdes.HandleRtcp | peer_echolink.c:1330-1380 | on any bytes the walk ends in bounds with the readings of the packets it passes |
| DirectoryThreads.NoDeadlock | peer_echolink.c:702-757 | after every interleaving: the proxy mutex is wanted only by a thread that holds no mutex; a thread that waits for a mutex waits for one that can go on; a sleeping worker has nothing to do; a joining main thread finds a worker that can go on or is over; some thread can go on until both are over |
| DirectoryThreads.StepKeeps | peer_echolink.c:949-968 | every lock operation of either thread keeps the invariant behind that |
| DirectoryThreads.JobsInOrder | peer_echolink.c:702-757 | jobs are taken in the order of acceptance, each at most once, and one is finished before the next is taken |
| DirectoryThreads.EveryReplySent | peer_echolink.c:1690-1705 | whatever the threads do, once the poll in which a control packet came is over the main thread has gone on to send the answer |
| DirectoryThreads.ReplyInPoll | peer_echolink.c:1350-1375 | while an answer is put off the main thread is still in the poll |

## Left out

- Aliases.Index.PutCs: requires room for the key, without which the probe does not end.
- Aliases.Index.Insert: requires room for its callsign, by Aliases.EndsIff exactly when the put ends; Aliases.RenamedTooOften and Aliases.LongTooOften are inputs without.
- Aliases.Index.Upsert: the same condition as Aliases.Index.Insert.
- Aliases.Index.Load: the same condition for every record in its turn; JSON parsing yields the records and is not modelled.
- Aliases.LookupsFollowMap: for files without a callsign longer than a slot; behind one, what a shorter key finds depends on the layout of the table, which Aliases.Index.LookupId gives slot by slot.
- BridgeEl.Bridge.Tick: payload bytes of packets are not part of the state machine, their overlays are in Transcode and DmrSignalling; bytes that an incomplete voice burst takes over from the last one are left out of its frames; frame counters are not bounded by the width of an int.
- Fich.Codec.Decode: the checksum of a received FICH is not examined, as in the code.
- GolayDistance.ThreeErrorsCorrected: requires that the correction table knows those errors; its 2048 entries are not part of the model.
- Silence.DmrSilence: requires the scrambling table's entry for the first word of silence, PRNG_TABLE[0xF80].
- Golay and scrambling table entries, the Reed-Solomon (12,9) code and assembly of the link control header, and the EMB code word, which is an input.
- The activation burst, V/D mode 1 and directory address descrambling.
- `bridge.c` and the echolink-ysf call lifecycle.
- Talker identification from received SDES names, and RTP, GSM and PCM handling.
- Timing of the waits in the download protocol: when a lock is stale or a peer idle is an input.
- Proxy authentication, reconnection and the sending half beyond framing.
- Sockets, DNS, curl, file contents, zlib, OpenSSL and the remote vocoder.
- Configuration, logging, the main loop, and the login and keepalive logic of the YSF and DMR peers.
