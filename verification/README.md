# Formal model of the Red Pitaya servers, driver and hub

This project models the parts of a Red Pitaya (Zynq FPGA) software collection that carry
state or protocols, and proves what they guarantee. `dafny verify dfyconfig.toml` checks all
of it.

| files | what they model |
|---|---|
| `Keyer`, `KeyerTheorems`, `KeyerOrder`, `KeyerProgress`, `KeyerStraight` | the CW keyer thread of the HPSDR transceiver: outputs in every millisecond of every run, which element follows which, and the straight key |
| `Bytes`, `Ep6`, `Ep6Sender`, `Ep6Theorems` | the EP6 packetizer of both HPSDR servers, in place in its buffer, and what a client gets over a whole run |
| `Search`, `Relays`, `Registers`, `RegistersTheorems`, `Oscillators`, `BoardSettings` | the main loop's cached words for the misc and ALEX boards: dirty flags against recomputing everything; what the oscillators are tuned to and what the boards are set to, by the frames so far |
| `Handshake` | starting and stopping a worker through two flags, all interleavings |
| `Pulser` | the MCPHA pulser: cumulative table, sampling, and the peak of its shaping filter |
| `DoubleBuffer` | the ping-pong reader of the ADC test server, with the exact timing bound |
| `Devcfg`, `DevcfgTheorems`, `DevcfgRetry` | the write path of the Zynq bitstream driver, and the offline byte flip |
| `StreamBuffers`, `AxiHub`, `AxiHubTheorems`, `AxiHubMemory`, `AxiHubProgress`, `AxiHubAddresses` | the AXI hub clock by clock, over its real stream buffers |
| `Ipfix`, `PskReporter`, `PskUploader`, `PskBatches`, `PskLimits`, `PskReading` | the PSK Reporter uploader, against an IPFIX decoder (RFC 7011) |
| `PeakFinder` | the peak detector of the record viewer |
| `Calibration` | open-short-load calibration and standing wave ratio of the network analyzer |
| `Arithmetic` | products, quotients and powers of two |

Most cores follow one pattern. Functions on values say what one step does; a class or a
method does the same step by step, as the program does, and is proved to end in the state
that the functions give; lemmas about the functions then state what whole runs guarantee.
Time is counted in milliseconds, clock edges or passes of a loop, and whatever comes from
outside (paddle contacts, FIFO contents, what a bus master drives, frames from the client,
failures of a transfer) is an argument over which the statements range.

What the proofs show about the programs:

* A dash of the keyer has its nominal length only under a condition on `cw_delay`;
  `KeyerTheorems.DashExactIff` gives it exactly, and `KeyerProgress.DashCanBeShort` is a run
  with a dash that is too short. With letter spacing on, two elements of one inner run may be
  a unit and a letter space apart.
* The double buffer needs more than that one sleep and one send together stay within a half:
  a sleep must also stay strictly within a half. `DoubleBuffer.TimingIsExact` is an
  equivalence.
* How a bitstream is cut matters only for the first nonempty write: a header that is cut in
  two is not found. `DevcfgTheorems.ChunkingIff` and `DevcfgTheorems.CutIff` are equivalences,
  and `DevcfgTheorems.CutHeaderIsMissed` is such a block.
* A write to the driver that failed in its transfer has already replaced the stragglers.
  `DevcfgRetry.RetryIff` says for which stragglers and buffers repeating it is right anyway:
  in a first block with a header, if the new stragglers hide no sync word; in every other
  block, if they are the old ones.
* The products of the MCPHA table fit 64 bits exactly if the total of the spectrum is below
  2^63 / RAND_MAX (`Pulser.ProductsFitIff`); `Pulser.TableCanOverflow` is a spectrum that is not.
* `find_peaks_simple` ends on every record only if the distance is positive.
* Leaving synchronous mode does not tune the second receiver back to its own frequency;
  `Oscillators.SecondInTuneIff` says exactly when it has it.
* The hub's beat counters have four bits, so the register file is a sequential memory for
  bursts of up to 16 beats, the longest that section A3.4 of the AMBA AXI specification
  (ARM IHI 0022) has for AXI3. `AxiHubWrites.LongBurstWraps` is a burst of 17.
* The uploader's buffer has 512 bytes, and the program does not check that a message fits.
  Every file fits exactly for stations whose texts have 26 characters or fewer in all
  (`PskLimits.StationFitsIff`), while the command line admits 86.
* The uploader's sequence field counts messages, where section 3.1 of RFC 7011 has it count
  data records. That makes a difference exactly for files of more than ten receptions
  (`PskReading.SequenceAsInRfcIff`).
* If the rate of the HPSDR transceiver changes between two copies of the codec samples, the
  audio index can run past the copy. `Ep6Runs.IndexInCopyIff` says exactly when, and
  `Ep6Runs.RateChangeOverruns` is such a run.

## Model

| member | source | states |
|---|---|---|
| `Keyer.Thread.CwOn` | projects/sdr_transceiver_hpsdr/server/sdr-transceiver-hpsdr.c:1500-1521 | keys RF after a lead of min(cw_delay, one unit) milliseconds that sample the paddles; PTT and the TX multiplexer go on first |
| `Keyer.Thread.CwOff` | projects/sdr_transceiver_hpsdr/server/sdr-transceiver-hpsdr.c:1523-1539 | drops RF after the same lead and arms the hang counter with cw_hang, or 10 if that is zero |
| `Keyer.Thread.CwPttOff` | projects/sdr_transceiver_hpsdr/server/sdr-transceiver-hpsdr.c:1541-1552 | one call counts the hang down and drops PTT, its flag and the multiplexer when it reaches zero |
| `Keyer.Thread.CwSignalDelay` | projects/sdr_transceiver_hpsdr/server/sdr-transceiver-hpsdr.c:1554-1566 | the sampling loop equals `Wait` over the nominal length less cw_delay, not below zero, with mode 1 forgetting a released squeeze |
| `Keyer.Thread.CwSpaceDelay` | projects/sdr_transceiver_hpsdr/server/sdr-transceiver-hpsdr.c:1568-1579 | the spacing loop equals `Wait` over one unit less the delay, or over a letter space, while PTT hangs |
| `Keyer.Thread.Handler` | projects/sdr_transceiver_hpsdr/server/sdr-transceiver-hpsdr.c:1581-1647 | the thread with its nested loops ends in the state of `Run`, pass by pass, under settings that may change between passes |
| `KeyerTheorems.RunKeeps` | projects/sdr_transceiver_hpsdr/server/sdr-transceiver-hpsdr.c:1500-1647 | from the start, every pass keeps: PTT bit, flag and multiplexer agree, each logged element is timed, and the log accounts for the outputs of every millisecond |
| `KeyerTheorems.RfOnlyUnderPtt` | projects/sdr_transceiver_hpsdr/server/sdr-transceiver-hpsdr.c:1500-1552 | in no millisecond of any run is RF on without PTT and the TX multiplexer |
| `KeyerTheorems.SpacingHangs` | projects/sdr_transceiver_hpsdr/server/sdr-transceiver-hpsdr.c:1541-1552 | exactly the h-th call of cw_ptt_off drops PTT, none before, in a wait of any length |
| `KeyerTheorems.PttHangsExactly` | projects/sdr_transceiver_hpsdr/server/sdr-transceiver-hpsdr.c:1536-1552 | after each element of each run PTT stays on for exactly the hang time unless the next element begins sooner, with RF off throughout |
| `KeyerTheorems.RfThroughoutElement` | projects/sdr_transceiver_hpsdr/server/sdr-transceiver-hpsdr.c:1520-1537 | RF is on in every millisecond between the on and off times of a logged element |
| `KeyerTheorems.DotLastsOneUnit` | projects/sdr_transceiver_hpsdr/server/sdr-transceiver-hpsdr.c:1500-1566 | every dot, in every run, keys RF for exactly 1200/speed milliseconds for every cw_delay |
| `KeyerTheorems.PttLeadsRf` | projects/sdr_transceiver_hpsdr/server/sdr-transceiver-hpsdr.c:1500-1521 | PTT and the multiplexer come on before RF by min(cw_delay, 1200/speed) milliseconds, before every automatic and every iambic element |
| `KeyerTheorems.DashExactIff` | projects/sdr_transceiver_hpsdr/server/sdr-transceiver-hpsdr.c:1500-1566 | how long RF is on in a dash, for every weight, speed and delay; it is the nominal 3600*weight/(50*speed) if and only if cw_delay is at most both one unit and that length, or the two are equal |
| `KeyerStraight.IdleDecides` | projects/sdr_transceiver_hpsdr/server/sdr-transceiver-hpsdr.c:1585-1619 | what one idle pass makes of the two contacts, wired straight or reversed: nothing, a held key with RF a lead later, one whole automatic dot, or the iambic loop with just the paddles that are down latched |
| `KeyerStraight.HoldsWhileDown` | projects/sdr_transceiver_hpsdr/server/sdr-transceiver-hpsdr.c:1594-1600 | while every sample finds the key down, n passes take n milliseconds and change nothing but the trace |
| `KeyerStraight.ReleaseEnds` | projects/sdr_transceiver_hpsdr/server/sdr-transceiver-hpsdr.c:1594-1600 | the first sample that finds the key up ends the element: after two more passes the thread is idle, RF went off a lead after that sample, and one straight element is logged |
| `KeyerStraight.StraightFollowsKey` | projects/sdr_transceiver_hpsdr/server/sdr-transceiver-hpsdr.c:1585-1600 | in every run, whatever settings but the wiring change, each straight element began with the key sampled down, which stayed down from when RF came on, and was first up in the sample a lead before RF went off; while one is being keyed, RF is on and the key has been down since |
| `KeyerTheorems.GapIsOneUnit` | projects/sdr_transceiver_hpsdr/server/sdr-transceiver-hpsdr.c:1523-1579 | consecutive elements of one inner run are one unit apart, plus the letter space when the keyer has inserted one |
| `KeyerTheorems.NeverSpins` | projects/sdr_transceiver_hpsdr/server/sdr-transceiver-hpsdr.c:1585-1643 | two consecutive passes of any loop always take time |
| `KeyerProgress.SentWithinTwo` | projects/sdr_transceiver_hpsdr/server/sdr-transceiver-hpsdr.c:1616-1643 | while a latch is set the pass sends exactly the one element that is due, or does nothing but turn to the other one, which the next pass sends |
| `KeyerProgress.DashCanBeShort` | projects/sdr_transceiver_hpsdr/server/sdr-transceiver-hpsdr.c:1554-1566 | a run whose first dash lasts 140 ms instead of its nominal 180 |
| `KeyerTheorems.TimeAdvances` | projects/sdr_transceiver_hpsdr/server/sdr-transceiver-hpsdr.c:1585-1643 | a pass takes no time if and only if it leaves a released key without delay, or finds its own latch clear, and then it only turns to the other element |
| `KeyerOrder.WaitLatches` | projects/sdr_transceiver_hpsdr/server/sdr-transceiver-hpsdr.c:1513-1536 | after a wait a paddle's latch is set exactly when it was sampled down in some millisecond and, in mode 1 while keying, not lost by a later release of both, or was set before and kept |
| `KeyerOrder.LatchAfterElement` | projects/sdr_transceiver_hpsdr/server/sdr-transceiver-hpsdr.c:1618-1639 | which latches an element leaves, as a condition on the samples of its milliseconds only |
| `KeyerOrder.NextElement` | projects/sdr_transceiver_hpsdr/server/sdr-transceiver-hpsdr.c:1616-1643 | decides the element after an element from the paddle samples: the opposite one, the same one after one empty pass, a new letter after the inserted space, or none |
| `KeyerOrder.AnyPressIsRemembered` | projects/sdr_transceiver_hpsdr/server/sdr-transceiver-hpsdr.c:1512-1578 | outside mode 1 the opposite paddle sampled down in any millisecond of an element makes it come next |
| `KeyerOrder.SqueezeAlternates` | projects/sdr_transceiver_hpsdr/server/sdr-transceiver-hpsdr.c:1616-1643 | with both paddles held, n passes send n elements that alternate strictly, for every n |
| `Ep6.Sizes` | projects/sdr_transceiver_hpsdr/server/sdr-transceiver-hpsdr.c:1400-1402 | for all receiver counts and both servers a block fits the buffers: how many datagrams it has, at most 25 (or 12), at most 512 (or 256) slots, each frame's slots within its 504 bytes |
| `Ep6.ChannelsSelected` | projects/sdr_transceiver_hpsdr/server/sdr-transceiver-hpsdr.c:1468-1477 | which FIFO channel each receiver gets: skipping the third, and zeros from the fifth receiver on; in the 8-channel server channel c is receiver c |
| `Ep6.WriteSamples` | projects/sdr_transceiver_hpsdr/server/sdr-transceiver-hpsdr.c:1468-1476 | the one or two memcpy calls leave the selected bytes at the slot |
| `Ep6.WriteFrame` | projects/sdr_transceiver_hpsdr/server/sdr-transceiver-hpsdr.c:1438-1480 | a frame written in place: status row, zero fill and all slots, and not a byte outside the frame changes |
| `Ep6.FramesTile` | projects/sdr_transceiver_hpsdr/server/sdr-transceiver-hpsdr.c:1438 | the address formula puts the two frames of a datagram right after its head and each other, up to its end |
| `Ep6Sender.Sender.constructor` | projects/sdr_transceiver_hpsdr/server/sdr-transceiver-hpsdr.c:1370-1383 | the four constant bytes of every datagram are in place and counters start at zero |
| `Ep6Sender.Sender.RefreshAudio` | projects/sdr_transceiver_hpsdr/server/sdr-transceiver-hpsdr.c:1420-1425 | a fresh copy of the codec words is taken exactly when the rate counter runs out |
| `Ep6Sender.Sender.WriteHeads` | projects/sdr_transceiver_hpsdr/server/sdr-transceiver-hpsdr.c:1430-1434 | numbers the heads of a block, keeps the constant bytes, and advances the counter modulo 2^32 |
| `Ep6Sender.Sender.WriteFrames` | projects/sdr_receiver_hpsdr/server/sdr-receiver-hpsdr.c:319-333 | fills all frames of a block without disturbing heads or earlier frames, and leaves the header offset after that many turns |
| `Ep6Sender.Sender.SendBlock` | projects/sdr_transceiver_hpsdr/server/sdr-transceiver-hpsdr.c:1396-1484 | one pass leaves all heads and frames of the block in the buffer and the audio state, counter and offset that follow, as long as the audio index stays inside the copy |
| `Ep6Runs.HandlerEp6` | projects/sdr_transceiver_hpsdr/server/sdr-transceiver-hpsdr.c:1343-1484 | over a whole run, with rate and receivers changing from block to block, every block sent is the block that counter, offset and audio state of all passes before determine, if no block comes too late for its rate after the last copy |
| `Ep6Runs.IndexInCopyIff` | projects/sdr_transceiver_hpsdr/server/sdr-transceiver-hpsdr.c:1420-1479 | for any rates and receivers the audio indices of a block, shifted right by its rate, stay inside the copy if and only if the blocks since the last copy, this one included, are at most 2^rate of this block |
| `Ep6Runs.SteadyIsPaced` | projects/sdr_transceiver_hpsdr/server/sdr-transceiver-hpsdr.c:1420-1479 | at a constant rate that is always so, whatever the receivers |
| `Ep6Runs.RateChangeOverruns` | projects/sdr_transceiver_hpsdr/server/sdr-transceiver-hpsdr.c:897 | a run in which the rate drops from 3 to 0 after one block, and the index of the next one passes 512 |
| `Ep6Theorems.EveryByteOnce` | projects/sdr_transceiver_hpsdr/server/sdr-transceiver-hpsdr.c:1430-1481 | every byte of m datagrams lies in exactly one head or exactly one frame |
| `Ep6Theorems.UnpackingRecovers` | projects/sdr_receiver_hpsdr/server/sdr-receiver-hpsdr.c:319-333 | a client that cuts datagrams into frames and frames into slots gets FIFO slot i*n+j from slot j of frame i: the selected channels, then the tail |
| `Ep6Theorems.SequenceNumbers` | projects/sdr_transceiver_hpsdr/server/sdr-transceiver-hpsdr.c:1430-1434 | sequence numbers count all datagrams of the run, modulo 2^32, with the constant prefix in front |
| `Bytes.NetworkOrder` | projects/sdr_transceiver_hpsdr/server/sdr-transceiver-hpsdr.c:1432 | numbers are sent with their highest byte first |
| `Ep6Theorems.HeadersCycle` | projects/sdr_transceiver_hpsdr/server/sdr-transceiver-hpsdr.c:1462 | over the whole run frame number k carries status row k mod 5, across block boundaries |
| `Ep6Theorems.RowRead` | projects/sdr_transceiver_hpsdr/server/sdr-transceiver-hpsdr.c:1438-1461 | a client reads from the row of each turn the sync bytes, the turn and flags in C0, and C1 to C4: the version bytes, the ADC readings in their places, or zeros |
| `Ep6Theorems.AudioRepeats` | projects/sdr_transceiver_hpsdr/server/sdr-transceiver-hpsdr.c:1420-1479 | at one rate and receiver count, of all slots from the first copy on those from 2^rate * w up to 2^rate * (w + 1) carry half of copied word w: each word exactly 2^rate times, in order, with no gap between blocks |
| `Relays.BandIff` | projects/sdr_transceiver_hpsdr/server/sdr-transceiver-hpsdr.c:287-305 | band code b is returned if and only if the frequency is above the lower edge and at most the upper edge of band b |
| `Relays.AmateurBands` | projects/sdr_transceiver_hpsdr/server/sdr-transceiver-hpsdr.c:287-305 | the code of every frequency, band by band from 160 m to 6 m |
| `Relays.BandCode` | projects/sdr_transceiver_hpsdr/server/sdr-transceiver-hpsdr.c:267-277 | binary search and parity give the band code, as the binary search of the MCPHA server does for bins |
| `Relays.MiscFields` | projects/sdr_transceiver_hpsdr/server/sdr-transceiver-hpsdr.c:307-309 | the board reads back both band codes, the cross-band bit and all three switch settings: no field overlaps another |
| `Relays.RxPacked` | projects/sdr_transceiver_hpsdr/server/sdr-transceiver-hpsdr.c:219-231 | each field of the receive word can be read back: PTT, the two bits beside it, six filter relays, the bypass, three antennas, preamplifier and the bit that is always set |
| `Relays.TxPacked` | projects/sdr_transceiver_hpsdr/server/sdr-transceiver-hpsdr.c:250-258 | each field of the transmit word can be read back: seven filter relays, PTT, the bit beside it, which of the three antennas, and the bits that are constant |
| `Relays.AutomaticFilters` | projects/sdr_transceiver_hpsdr/server/sdr-transceiver-hpsdr.c:210-248 | in automatic mode exactly one high-pass relay is closed, that of the highest filter meant for the lower receive frequency, or the 6 m preamplifier is on with none; exactly one low-pass relay is closed, that of the lowest filter that passes the frequency in use, or the bypass if none does |
| `Relays.ManualFilters` | projects/sdr_transceiver_hpsdr/server/sdr-transceiver-hpsdr.c:199-241 | in manual mode preamplifier and relays are the bits of the setting, but with the preamplifier on no high-pass relay is closed |
| `Relays.PttAgrees` | projects/sdr_transceiver_hpsdr/server/sdr-transceiver-hpsdr.c:219-258 | both ALEX words carry the same PTT bit and neither is zero, so the initial cache never suppresses a word |
| `Registers.Board.ProcessEp2` | projects/sdr_transceiver_hpsdr/server/sdr-transceiver-hpsdr.c:863-1284 | of the registers modelled, a frame changes those that `Received` says and raises exactly the flags of what changed; what that makes of the registers over whole runs is stated by OscillatorsFollow, SettingsFollow, MiscBoardFollows and AlexBoardsFollow |
| `Registers.Board.MiscWrite` | projects/sdr_transceiver_hpsdr/server/sdr-transceiver-hpsdr.c:284-316 | recomputes the word, sends it if it differs from the last, and remembers it |
| `Registers.Board.AlexWrite` | projects/sdr_transceiver_hpsdr/server/sdr-transceiver-hpsdr.c:197-265 | the same for both ALEX words; nothing happens with the codec present |
| `RegistersTheorems.MainLoop` | projects/sdr_transceiver_hpsdr/server/sdr-transceiver-hpsdr.c:727-843 | the loop with dirty flags ends with the cache and the transmissions of the loop that recomputes every word in every pass |
| `RegistersTheorems.FlagsSuffice` | projects/sdr_transceiver_hpsdr/server/sdr-transceiver-hpsdr.c:826-843 | where a clear flag means a current word, recomputing the flagged words only gives the same cache and transmissions as recomputing all |
| `RegistersTheorems.MessagesKeep` | projects/sdr_transceiver_hpsdr/server/sdr-transceiver-hpsdr.c:756-824 | no sequence of messages leaves a stale word without its flag |
| `RegistersTheorems.LazyIsEager` | projects/sdr_transceiver_hpsdr/server/sdr-transceiver-hpsdr.c:826-843 | after every number of passes the lazy and the eager loop agree, and clear flags mean current words |
| `RegistersTheorems.MiscTraffic` | projects/sdr_transceiver_hpsdr/server/sdr-transceiver-hpsdr.c:301-316 | what the misc board gets is the sequence of end-of-pass words with consecutive repeats removed |
| `RegistersTheorems.MiscIsCurrent` | projects/sdr_transceiver_hpsdr/server/sdr-transceiver-hpsdr.c:284-316 | after every pass the last word sent is the function of frequencies and switch settings, and no word is sent twice in a row |
| `RegistersTheorems.AlexTraffic` | projects/sdr_transceiver_hpsdr/server/sdr-transceiver-hpsdr.c:233-264 | what each ALEX board gets is the sequence of end-of-pass words since the first change of a setting, consecutive repeats removed |
| `RegistersTheorems.AlexIsCurrent` | projects/sdr_transceiver_hpsdr/server/sdr-transceiver-hpsdr.c:197-265 | without a codec, from the first change of an ALEX setting on, the last words sent are the words of the current settings, none twice in a row; with a codec nothing is sent |
| `Oscillators.OscillatorsFollow` | projects/sdr_transceiver_hpsdr/server/sdr-transceiver-hpsdr.c:875-1089 | after every pass of every run the four increments, the table of frequencies and the synchronous mode are functions of the frames so far: which frequency was last asked for, accepted, and copied |
| `Oscillators.BigEndian` | projects/sdr_transceiver_hpsdr/server/sdr-transceiver-hpsdr.c:1004 | a frame asks for a frequency if and only if C1 to C4 are its four bytes, the highest first |
| `BoardSettings.SettingsFollow` | projects/sdr_transceiver_hpsdr/server/sdr-transceiver-hpsdr.c:914-1267 | after every pass of every run the settings of the misc board are the attenuator bits of the last frames of codes 20/21 and 22/23 and two bits of the last frame of codes 18/19, and those of the ALEX boards come from the last frames of codes 0/1 and 18/19, with the keyer's PTT since joined in |
| `BoardSettings.KeyedIff` | projects/sdr_transceiver_hpsdr/server/sdr-transceiver-hpsdr.c:826-831 | the keyer's PTT is in the ALEX settings if and only if it was on at the end of some pass since the last one that brought a frame of code 0 or 1 |
| `BoardSettings.MiscBoardFollows` | projects/sdr_transceiver_hpsdr/server/sdr-transceiver-hpsdr.c:284-316 | after every pass the word that the misc board got last has the band codes of the frequencies asked for, bits 3 and 4 of C4 of the last frame 20/21 in bits 9 and 10, of C1 of the last frame 22/23 in bits 11 and 12, and bits 5 and 7 of C3 of the last frame 18/19 in bits 13 and 14 |
| `BoardSettings.AlexBoardsFollow` | projects/sdr_transceiver_hpsdr/server/sdr-transceiver-hpsdr.c:197-265 | after every pass, once a setting has changed, the words that the ALEX boards got last show the bits of the last frames of codes 0/1 and 18/19 and the keyer's PTT: antennas, attenuators and PTT one by one, and the filters that the frame names in manual mode or the frequencies choose otherwise |
| `BoardSettings.UntouchedIsInitial` | projects/sdr_transceiver_hpsdr/server/sdr-transceiver-hpsdr.c:197-265 | as long as no setting of the ALEX boards counts as changed, frequencies and settings are those of the start |
| `Oscillators.OwnIff` | projects/sdr_transceiver_hpsdr/server/sdr-transceiver-hpsdr.c:1058-1067 | the second oscillator has its own frequency if and only if it has been tuned and synchronous mode has not been switched on since |
| `Oscillators.SecondInTuneIff` | projects/sdr_transceiver_hpsdr/server/sdr-transceiver-hpsdr.c:1029-1067 | the increment of the second receiver is that of its frequency in the table if and only if that is so, or it was synchronized to the same frequency |
| `Oscillators.AlwaysInSync` | projects/sdr_transceiver_hpsdr/server/sdr-transceiver-hpsdr.c:875-887 | in synchronous mode, after every pass, both receivers have the same increment |
| `Oscillators.SyncDetunes` | projects/sdr_transceiver_hpsdr/server/sdr-transceiver-hpsdr.c:875-887 | switching synchronous mode on and off leaves the second receiver at the frequency of the first, and the table at its own |
| `Oscillators.SyncDetunesTenMegahertz` | projects/sdr_transceiver_hpsdr/server/sdr-transceiver-hpsdr.c:875-887 | the same for two frequencies, with the frames written out |
| `Oscillators.NearestIncrement` | projects/sdr_transceiver_hpsdr/server/sdr-transceiver-hpsdr.c:1005-1007 | the increment is the nearest integer, never a tie, and fits 30 bits for every frequency allowed |
| `Handshake.NextKeeps` | projects/mcpha/server/mcpha-server.c:485-533 | every possible access of main thread or worker keeps the invariant |
| `Handshake.AtMostOneWorker` | projects/mcpha/server/mcpha-server.c:526-533 | in every interleaving at most one worker is between its creation and its `active_thread = 0` |
| `Handshake.StopCompletesIff` | projects/sdr_transceiver_hpsdr/server/sdr-transceiver-hpsdr.c:797-805 | the wait for the worker ends if and only if no worker is left, and the main thread goes on to what the command asks for |
| `Handshake.AbandonedStart` | projects/mcpha/server/mcpha-server.c:483-497 | a start with an empty spectrum leaves the table as it was and no worker |
| `Handshake.WritesAreExclusive` | projects/mcpha/server/mcpha-server.c:501-506 | the table changes only while no worker can read it |
| `Handshake.ReadsAreConsistent` | projects/mcpha/server/mcpha-server.c:570-589 | every value a worker reads is from the complete table it was started for |
| `Handshake.WorkersKeepWorking` | projects/sdr_transceiver_hpsdr/server/sdr-transceiver-hpsdr.c:1396-1398 | in every interleaving a live worker's test sends it out of its loop if and only if the main thread is waiting for that, and to work otherwise |
| `Handshake.StartedWorkerWorks` | projects/sdr_transceiver_hpsdr/server/sdr-transceiver-hpsdr.c:801-821 | when a start command is through, a new worker is live, has the table that was filled for it, and its first test takes it to work |
| `Handshake.StartIsBounded` | projects/mcpha/server/mcpha-server.c:526-533 | from the end of the wait each access of the main thread brings the new worker one step closer |
| `Handshake.StopIsBounded` | projects/sdr_transceiver_hpsdr/server/sdr-transceiver-hpsdr.c:1396-1398 | while the main thread waits, every access of the worker brings its end one step closer and nothing undoes it |
| `Search.LowerBound` | projects/mcpha/server/mcpha-server.c:32-42 | the first index whose entry is not below the value |
| `Pulser.BuildTable` | projects/mcpha/server/mcpha-server.c:493-506 | builds the cumulative table of the spectrum in 64-bit arithmetic that never leaves its range, or leaves the table alone when the spectrum is empty |
| `Pulser.ProductsFitIff` | projects/mcpha/server/mcpha-server.c:501-506 | every product that is formed stays below 2^63 if and only if the total times RAND_MAX does |
| `Pulser.TableCanOverflow` | projects/mcpha/server/mcpha-server.c:501-506 | a spectrum of 32-bit counts for which the third product already overflows |
| `Pulser.Amplitude` | projects/mcpha/server/mcpha-server.c:574 | a draw returns the bin whose range holds the value, and never an empty bin |
| `Pulser.ChosenIff` | projects/mcpha/server/mcpha-server.c:32-42 | bin k owns exactly the values from its cut to the next, so the bins partition 0..RAND_MAX-1 |
| `Pulser.EmptyBinNeverChosen` | projects/mcpha/server/mcpha-server.c:574 | no drawn value selects a bin with a zero count |
| `Pulser.SharesAreExact` | projects/mcpha/server/mcpha-server.c:501-506 | the number of values for bin k differs from spectrum[k]*RAND_MAX/total by less than one |
| `Pulser.FilterPeak` | projects/mcpha/server/mcpha-server.c:511-520 | the loop ends for all coefficients, with the greatest value the output ever takes; the scale is its exact quotient, the divisor is not zero and the result fits 16 bits |
| `Pulser.FilterStep` | projects/mcpha/server/mcpha-server.c:514-519 | both states of the filter start and step as the fixed-point recurrence says: scaled by coefficient / 65536 and rounded down, the output joined by the inner state as it was |
| `Pulser.FallsForGood` | projects/mcpha/server/mcpha-server.c:514-519 | the filter output is unimodal: once it falls it never rises |
| `Pulser.OutputBound` | projects/mcpha/server/mcpha-server.c:514-519 | all intermediates stay below 2^53 |
| `DoubleBuffer.Serve` | projects/adc_test/server/adc-test-server.c:129-147 | the polling loop produces the client stream of `Run` |
| `DoubleBuffer.ClientGetsPrefix` | projects/adc_test/server/adc-test-server.c:131-147 | under the timing bound the client gets the written stream: whole halves, in order, nothing lost or overwritten |
| `DoubleBuffer.SendsAreExclusive` | projects/adc_test/server/adc-test-server.c:137-141 | while a half is sent it is complete and the writer is in the other half |
| `DoubleBuffer.TimingIsExact` | projects/adc_test/server/adc-test-server.c:131-147 | the server is safe for all timely writers if and only if the writer stands still while it sleeps, or advances less than a half per sleep and at most a half per sleep and send together |
| `DoubleBuffer.SlowSend` | projects/adc_test/server/adc-test-server.c:137-141 | a timely run in which a slow send lets the half be overwritten |
| `DoubleBuffer.LatePoll` | projects/adc_test/server/adc-test-server.c:143-146 | a timely run in which a late poll loses a half |
| `Devcfg.XDevCfg.Open` | patches/xilinx_devcfg.c:571-574 | opening forgets stragglers and byte order |
| `Devcfg.XDevCfg.Write` | patches/xilinx_devcfg.c:288-431 | every call, successful or not, leaves the state that `AfterWrite` says and returns the count or the error |
| `Devcfg.FindSync` | patches/xilinx_devcfg.c:331-344 | finds the first sync word of either kind that starts before the last four bytes |
| `Devcfg.SwapWords` | patches/xilinx_devcfg.c:357-363 | the in-place loop swaps each word of the prefix once and nothing else |
| `Devcfg.SwapFirstIsSwab` | patches/xilinx_devcfg.c:357-363 | swapping word after word reverses every word of the prefix |
| `DevcfgTheorems.StreamInvariant` | patches/xilinx_devcfg.c:318-394 | after any sequence of writes the driver is a function of the bytes written and the header in the first block |
| `DevcfgTheorems.NothingLost` | patches/xilinx_devcfg.c:318-363 | DMA bytes, unswapped, then the stragglers are the user's bytes after the header; fewer than four straggle |
| `DevcfgTheorems.EveryByte` | patches/xilinx_devcfg.c:318-363 | after any sequence of writes, which byte of the user's data each byte of each DMA word is: mirrored in its word if and only if the header found is of the swapped kind |
| `DevcfgTheorems.SyncComesFirst` | patches/xilinx_devcfg.c:330-363 | with a header of either kind, however the data is cut after it, the DMA engine first gets the bytes 66 55 99 AA |
| `DevcfgTheorems.ChunkingIff` | patches/xilinx_devcfg.c:330-355 | two ways of cutting the same bytes give the same state if and only if their first nonempty chunks show the same header |
| `DevcfgTheorems.CutAfterHeader` | patches/xilinx_devcfg.c:330-355 | once the first chunk holds the whole header, cutting the rest anywhere changes nothing |
| `DevcfgTheorems.CutIff` | patches/xilinx_devcfg.c:330-350 | a first block cut in two is delivered as if uncut if and only if header, sync word and one more byte are in the first part, or nothing is, or there is no header to miss |
| `DevcfgTheorems.CutHeaderIsMissed` | patches/xilinx_devcfg.c:330-350 | a block for which cutting the sync word in two changes what is delivered |
| `DevcfgTheorems.WritesJoin` | patches/xilinx_devcfg.c:318-355 | after the first write, writing a then b leaves the state of writing them together |
| `DevcfgRetry.RetryIff` | patches/xilinx_devcfg.c:302-424 | repeating a write that failed delivers the same words, stragglers and byte order as one that succeeds at once if and only if it failed before the transfer or a condition on stragglers and buffer holds, stated for first blocks with a header and for all others |
| `DevcfgRetry.RetryWithNewStragglers` | patches/xilinx_devcfg.c:330-355 | a first write whose repetition is right although its stragglers have changed |
| `DevcfgRetry.RetryMissesHeader` | patches/xilinx_devcfg.c:330-355 | a first write whose repetition is wrong, because a straggler completes a sync word |
| `DevcfgRetry.RetryDoublesByte` | patches/xilinx_devcfg.c:352-355 | a later write of one byte whose repetition delivers it twice |
| `Flip.Flip32` | helpers/fpga-bit-to-bin.py:9-16 | swaps every word of whole-word data, and fails on all other data |
| `Flip.FlipInvolution` | helpers/fpga-bit-to-bin.py:9-16 | flipping twice gives the data back |
| `Flip.SyncFlips` | patches/xilinx_devcfg.c:334-339 | at a word boundary a normal sync word becomes a swapped one and the reverse |
| `Flip.FlipAgrees` | patches/xilinx_devcfg.c:331-363 | the driver sends the same words for the data and for the flipped data, however each is cut, when both sync words are found at one word-aligned place |
| `Flip.NothingLeftIff` | patches/xilinx_devcfg.c:345-355 | whole-word data leaves no stragglers if and only if the header ends on a word boundary |
| `StreamBuffers.OutputIsQueue` | modules/output_buffer.v:19-46 | one clock of the register is one step of a queue of one |
| `StreamBuffers.InoutIsQueue` | modules/inout_buffer.v:1-40 | the pair of buffers is a queue of two whoever stalls: nothing lost, repeated or reordered |
| `AxiHub.Hub.ClockWrite` | cores/axi_hub.py:125-181 | one edge of the write half, against its wires and registers; the read half does not change |
| `AxiHub.Hub.ClockRead` | cores/axi_hub.py:129-161 | one edge of the read half |
| `AxiHub.Hub.Clock` | cores/axi_hub.py:190-228 | one edge of the hub; reads see the register file from before it |
| `AxiHubWrites.RunKeeps` | cores/axi_hub.py:125-228 | every clock keeps the write invariant, from reset on |
| `AxiHubWrites.WriteBursts` | cores/axi_hub.py:125-181 | in every run beats are executed in the order accepted, the register file is the memory of those beats with their number taken modulo 16, and each completed burst gets one response with its own ID, in order |
| `AxiHubWrites.ShortIsSequential` | cores/axi_hub.py:78-79 | with bursts of at most 16 beats that is a memory written at consecutive addresses |
| `AxiHubWrites.LongBurstWraps` | cores/axi_hub.py:136 | in a burst of 17 beats the last one overwrites the first |
| `AxiHubWrites.LastWriteWins` | cores/axi_hub.py:163-181 | each byte of a configuration word holds what the last strobed beat on it wrote |
| `AxiHubWrites.UnwrittenIsZero` | cores/axi_hub.py:168-178 | a byte no beat has hit is still zero |
| `AxiHubReads.RunKeeps` | cores/axi_hub.py:129-228 | every clock keeps the read invariant, from reset on |
| `AxiHubReads.ReadBursts` | cores/axi_hub.py:258-276 | every request is answered in order by exactly len+1 beats with its ID, last only on the final one, beat i carrying what its port shows for the i-th word from the address on; the master receives them in order |
| `AxiHubMemory.ReadsSeeWrites` | cores/axi_hub.py:136-141 | in every run of the whole hub beat i of a read of the configuration words carries the i-th word from its address on, as the write bursts executed until then have left it |
| `AxiHubAddresses.FieldsRead` | cores/axi_hub.py:136-159 | for every address with the fields high, port, word and low the hub uses bits 27 to 24 for the port and bits 23 to 2, plus the beat number in 22 bits, for the word, and no other bits |
| `AxiHubAddresses.EveryAddress` | cores/axi_hub.py:136-159 | every address has exactly one choice of these fields |
| `AxiHubAddresses.SpanIsLeast` | cores/axi_hub.py:73-76 | the index bits of a register file are the fewest, but at least one, that tell its words apart |
| `AxiHubAddresses.WordInFile` | cores/axi_hub.py:163-181 | a beat for a word of the register file changes that word, in the strobed bytes, and a beat for a word past its end changes nothing up to the next power of two |
| `AxiHubAddresses.WritesByWord` | cores/axi_hub.py:125-181 | in every run, whatever the address bits that nothing looks at, beat i of a burst for word w is stored in word w + i, i modulo 16, and with short bursts without that |
| `AxiHubAddresses.FetchesByWord` | cores/axi_hub.py:139-145 | a read beat carries the configuration word, the status word, or the stream's word if it is valid, by port and word number |
| `AxiHubAddresses.ReadsByWord` | cores/axi_hub.py:136-141 | in every run of the whole hub a read beat for a configuration word carries that word as the beats executed before have left it, by word number |
| `AxiHubMemory.Drive` | cores/axi_hub.py:125-228 | clocking the registers through any inputs is such a run |
| `AxiHubProgress.ResponseWaits` | cores/axi_hub.py:250-256 | a write response that the master does not take stays as it is, for any number of clocks |
| `AxiHubProgress.ReadBeatWaits` | cores/axi_hub.py:268-276 | so does a read beat |
| `AxiHubProgress.WritesAnswered` | cores/axi_hub.py:125-134 | while the master keeps its ready wire high and offers a beat in every clock, the bursts accepted so far are all answered within as many clocks as their beats, and two more |
| `AxiHubProgress.ReadsAnswered` | cores/axi_hub.py:129-134 | while the master keeps its ready wire high, the requests accepted so far are all answered within as many clocks as their beats, and two more |
| `AxiHubProgress.ReachedCounts` | cores/axi_hub.py:224-227 | in every state reached the beat counter does not pass the length of the request at the head |
| `AxiHubReads.PoppedOnce` | cores/axi_hub.py:147-160 | the words popped from the streams are exactly those on read beats, each on one beat, in order |
| `Ipfix.RecordsRoundTrip` | projects/sdr_transceiver_ft8/app/upload-to-pskreporter.c:191-209 | decoding the records of a set returns them, and padding shorter than the shortest record is never read as one |
| `Ipfix.TemplateSetRoundTrip` | projects/sdr_transceiver_ft8/app/upload-to-pskreporter.c:79-94 | a template set decodes to its template, padding ignored |
| `Ipfix.DataSetRoundTrip` | projects/sdr_transceiver_ft8/app/upload-to-pskreporter.c:206-213 | a data set decodes to its records under its template |
| `Ipfix.MessageRoundTrip` | projects/sdr_transceiver_ft8/app/upload-to-pskreporter.c:215-219 | a message decodes to its header and sets, and its length field is its size |
| `PskReporter.TemplateSetsSpelledOut` | projects/sdr_transceiver_ft8/app/upload-to-pskreporter.c:79-94 | the bytes in the program are the options template set and the template set of the two templates |
| `PskReporter.TextsSpellOut` | projects/sdr_transceiver_ft8/app/upload-to-pskreporter.c:12 | the software name and the mode, character by character |
| `PskReporter.MessageDecodes` | projects/sdr_transceiver_ft8/app/upload-to-pskreporter.c:150-221 | decoding an emitted message by the templates it carries returns exactly the station and the records put in |
| `PskReporter.SetsAreAligned` | projects/sdr_transceiver_ft8/app/upload-to-pskreporter.c:160-169 | every set and every message is a multiple of four bytes |
| `PskReporter.ReadsBackIff` | projects/sdr_transceiver_ft8/app/upload-to-pskreporter.c:191-197 | a reader recovers a reception if and only if its numbers fit the fields; text always comes through |
| `PskUploader.Uploader.constructor` | projects/sdr_transceiver_ft8/app/upload-to-pskreporter.c:150-173 | header, template sets and padded, back-patched station set are in the buffer |
| `PskUploader.Uploader.CopyChar` | projects/sdr_transceiver_ft8/app/upload-to-pskreporter.c:34-41 | writes a length-prefixed text at the pointer and advances it, touching nothing else |
| `PskUploader.Uploader.AddRecord` | projects/sdr_transceiver_ft8/app/upload-to-pskreporter.c:191-199 | appends one record and keeps the layout |
| `PskUploader.Uploader.CloseSet` | projects/sdr_transceiver_ft8/app/upload-to-pskreporter.c:206-213 | pads a set and patches its id and size in |
| `PskUploader.Uploader.Flush` | projects/sdr_transceiver_ft8/app/upload-to-pskreporter.c:204-226 | sends the message of the open batch with the next sequence number and reopens the buffer |
| `PskUploader.MessageIsSealed` | projects/sdr_transceiver_ft8/app/upload-to-pskreporter.c:204-221 | the bytes left by back-patching are the encoded message |
| `PskBatches.Upload` | projects/sdr_transceiver_ft8/app/upload-to-pskreporter.c:171-229 | over a whole file the messages sent are those of the batches of valid lines |
| `PskLimits.MessageLengthIs` | projects/sdr_transceiver_ft8/app/upload-to-pskreporter.c:150-221 | the length of every message, from the lengths of its texts, which decides whether it fits the 512-byte buffer |
| `PskLimits.StationFitsIff` | projects/sdr_transceiver_ft8/app/upload-to-pskreporter.c:103-119 | no file can overrun the buffer if and only if the three texts of the station have at most 26 characters together, fewer than the command line admits |
| `PskLimits.TenLinesOverrun` | projects/sdr_transceiver_ft8/app/upload-to-pskreporter.c:187-199 | for any station above that, ten lines that overrun it |
| `PskLimits.BufferCanOverrun` | projects/sdr_transceiver_ft8/app/upload-to-pskreporter.c:73 | a station within the limits of the command line and ten lines of printable text: 520 bytes |
| `PskReading.FileRoundTrip` | projects/sdr_transceiver_ft8/app/upload-to-pskreporter.c:174-229 | for every file, whether or not its messages fit the buffer, reading them gives back its valid lines in order, sequence 0, 1, 2, ..., all batches but the last of size 10 |
| `PskReading.SequenceAsInRfcIff` | projects/sdr_transceiver_ft8/app/upload-to-pskreporter.c:215-224 | the sequence fields of the messages for a file count the data records sent before, as section 3.1 of RFC 7011 has it, if and only if the file gives no more than one message |
| `PeakFinder.Refine` | records/graph.py:33-38 | the inner loop returns the highest sample of the window of five |
| `PeakFinder.RefinedIff` | records/graph.py:33-38 | which sample that is, ties included: the candidate if no sample at most two away is higher, else the first of the highest |
| `PeakFinder.TurnKeeps` | records/graph.py:30-44 | every turn keeps: reported peaks sound and spaced, every candidate so far covered |
| `PeakFinder.FindPeaksSimple` | records/graph.py:16-45 | ends although the index can step back; all peaks are in range, above the threshold, at least the distance apart and increasing, and every candidate lies within distance + 1 of one |
| `PeakFinder.ResultIff` | records/graph.py:16-45 | for every positive distance the loop reports exactly one list: each peak is the refined first sample behind the peak before that is a local maximum above the threshold and far enough, before and after refining, and behind the last peak there is no such sample |
| `PeakFinder.EndsIff` | records/graph.py:16-45 | the loop ends on every record if and only if the distance is at least 1 |
| `PeakFinder.NeverEnds` | records/graph.py:39-43 | a record on which the loop runs for ever when the distance is not positive |
| `Calibration.CalibrationIsExact` | projects/vna/client/vna.py:730-738 | for every invertible bilinear error network the unclamped impedance is the true one, and the formula never divides by zero |
| `Calibration.PassiveIff` | projects/vna/client/vna.py:740-742 | the reflection coefficient is smaller than 1 if and only if the resistance is positive |
| `Calibration.ReflectionIs` | projects/vna/client/vna.py:736-742 | the clamp changes only a resistance below 0.01, and the reflection coefficient is the only number g with g(z + 50) = z - 50, in magnitude and phase |
| `Calibration.SwrIsSound` | projects/vna/client/vna.py:736-747 | for every clamped impedance nothing divides by zero, the ratio is at least 1, and is 1 only for 50 ohms, so the lower clip never acts |
| `Calibration.SwrOfResistance` | projects/vna/client/vna.py:744-747 | for a pure resistance the ratio is the resistance over 50 ohms or its inverse |

## Left out

- Keyer.Thread.CwOn: the sidetone bit that CwOn and CwOff switch with the codec is not modelled.
- Keyer.Thread.CwPttOff: the reset pulse of the TX FIFO has no counterpart, because no other modelled part reads that bit.
- Keyer.Thread.Handler: settings are constant within one pass of a loop; in the program they may change in the middle of an element. A speed of 0, which a frame can carry and which makes the program divide by zero, is excluded. One `usleep(1000)` is one millisecond, and the dot of mode 0 sleeps its whole length at once.
- Ep6Sender.Sender.SendBlock: waiting for the FIFO and resetting it when it overflows are left out, and so are sockets; the variables for rate and receivers are read once per block. The audio index has to stay inside the copy, because the program reads past its array otherwise; Ep6Runs says when it does.
- Ep6.WriteSamples: the sizes of a THETIS build are left out.
- Registers.Board.ProcessEp2: only the frames for frequencies, filters, attenuators and synchronous mode, and of those only the misc and ALEX words, phase increments and frequencies; Penelope, Nucleo, Arduino, DAC, drive and ICOM words are left out: what those devices hold at the start is not known to equal the program's copies, or the frame sets them directly without a flag. So are GPIO outputs and sample rate, TX levels, and the frames 28 to 33. Increments are rounded exactly, not in double precision.
- RegistersTheorems.MainLoop: of the datagrams only frames and the start command are modelled; what they do to FIFOs and workers is not.
- Handshake.NextKeeps: accesses to the two flags and to single table entries are atomic and sequentially consistent, which plain C variables do not promise; failure of pthread_create is left out.
- Pulser.FilterPeak: the coefficients are arguments, as the logarithms and exponentials behind them are left out.
- Pulser.Amplitude: the interval between pulses is left out, and the random number is an argument.
- DoubleBuffer.Serve: positions and memory are counted in blocks of which a half has h, with the writer's wrap at two halves; sockets and interruption are left out. The other servers with the same loop have other constants.
- Devcfg.XDevCfg.Write: the low bit of the DMA address that marks a short transfer, register accesses and interrupts are left out, and so is the 32-bit width of `i` and `dma_len`. A file opened for a partial bitstream behaves alike.
- Flip.Flip32: parsing the bit file's header is left out.
- AxiHub.Hub.Clock: outgoing streams are left out, and what a read returns from a BRAM port is undetermined; a reset in the middle of a run is left out. Configuration and status indices beyond the register file read as undefined.
- PskBatches.Upload: parsing a line is left out: a line is a reception or is skipped. The precondition is that every message fits the 512-byte buffer, because the program writes past its end otherwise; PskLimits says when it holds.
- PskUploader.Uploader.CopyChar: texts are shorter than 128 bytes, as all that the program reads are.
- Ipfix.Parse: a scope field count of zero is accepted, as the program's options template has it; section 3.4.2.2 of RFC 7011 forbids it. Scope fields are not modelled.
- PeakFinder.FindPeaksSimple: samples are real numbers, without NaN. A reported peak may be the first or last sample.
- Calibration.CalibrationIsExact: numbers are exact, the interpolation over frequency is left out, and so is what numpy returns for a division by zero.
- Calibration.SwrIsSound: the magnitude is an argument that squares to the norm, as the square root of a real need not be representable.
- Oscilloscope readback of the MCPHA server: its wrap disagrees with the ring that its mask implies.
- Graphical clients, vendored scripts, FPGA build scripts and generated wrappers: they display or assemble what the modelled parts deliver, and keep no protocol state of their own.
