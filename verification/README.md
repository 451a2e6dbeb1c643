# VTP readout: a verified model

The VTP library and its readout lists drive a data-acquisition board. They push EVIO messages into
hardware FIFOs, run the event builder through Prestart, Go, Pause and End, extend a wrapping frame
counter, read and print a configuration file, share a robust mutex between processes, and program a
clock chip through a page register. This project models those parts and proves what they promise, or
the exact condition under which they do where a promise does not hold everywhere.

Modules, by the component they model:

* `AsyncFifo`, `EvioWriter`, `FlowControl`, `Framing`, `Delivery`, `Receiver`, `UserFile`: the writers into the
  512-word asynchronous FIFO, and a receiver that reads by word position. The hardware is a schedule of pops, one number for each register access; a
  statement about every schedule is one about every interleaving.
* `StreamingEb`, `RunProtocol`, `NetConfig`: the streaming event builder's registers, the run
  transitions, and the network set-up of the four streams.
* `FrameCounter`, `SenderLifecycle`: the stats sender's counter and the thread's life.
* `Text`, `ConfigKeys`, `ConfigStore`, `ConfigReader`, `ConfigInvariant`, `ConfigPrinter`,
  `ConfigManual`, `ConfigLines`: the configuration reader, character by character, the printer of the
  global-trigger and HPS sections, and both with every keyword and field written out.
* `SlotTable`, `PayloadPorts`, `GeneratedConfig`, `HostNames`: the generated configuration file, from
  the pedestal file's slots to the payload mask, and the names both programs derive.
* `TriggerBank`, `EventReader`, `RobustMutex`: the block rewrite, the FIFO readers, the shared mutex.
* `PageCache`: the clock chip's cached page register.
* `Options`, `Bytes`, `Bits`: an option type, bytes of a word, and `|` on naturals.

Where the source changes state, a method performs its steps and is proved equal to a function of the old
state; the lemmas are about those functions.

Words are naturals below 2^32, and wrap-around is written out. Where the code departs from its comments,
from its other half or from what its name says, a lemma gives the exact condition:

* the level mask is 0x2ff, so a level of 256 to 511 reads 256 too low, and a long event can overrun the FIFO
  or be given up part way. An event is sure to be delivered exactly when it fits on top of the level
  (`FlowControl.UserEventDeliveredIff`), a sequence of writes exactly when each fits on top of the highest
  level those before it can leave (`Delivery.FramedAlwaysIff`); control events are taken at level 256 as well
  as at 0 (`FlowControl.ControlEventSafe`);
* the length word 0xffffffff wraps (`Framing.UserFrameIff`);
* the printer writes `VTP_HPS_ECAL_BOT`, the reader knows `VTP_HPS_ECAL_BOTTOM`
  (`ConfigPrinter.HpsRestoredIff`);
* the reader never returns from a file that ends inside a comment (`ConfigInvariant.HangsIff`);
* the payload loop's comment speaks of a limit of 8, and the loop breaks after the ninth
  (`PayloadPorts.Ports.Prestart`); ports configured in an earlier run stay (`PayloadPorts.StaleIff`);
* re-initialising the mutex while a live process owns it, even one that has yet to repair it, ends mutual
  exclusion (`RobustMutex.ReinitIff`);
* the frame difference is 0 when the counter wraps (`FrameCounter.SampleExact`), and `htonll` does not
  exchange the two halves (`FrameCounter.WireOrderIff`);
* the generator does not trim the directory that the readout list trims (`HostNames.PathsAgreeIff`);
* a zero-count trailer just before the header is taken for a block (`TriggerBank.TriggerBankCases`);
* a write to the page register itself puts the page cache wrong (`PageCache.AgreementIff`).

## Model

| member | source | states |
|---|---|---|
| AsyncFifo.LevelFieldReading | vtp/vtpRocLib.c:657 | what the masked status reads as: the level, except 256 too low for levels 256 to 511; the full flag is level 512 |
| AsyncFifo.PushAllEffect | vtp/vtpRocLib.c:751-767 | against any consumer every word is accepted in order or counted as lost, and what fits on top of the starting level is accepted |
| EvioWriter.AsyncPort.RocWriteControl | vtp/vtpRocLib.c:647-694 | refused on a non-zero level reading, else the fifteen words and then the length 15 |
| EvioWriter.AsyncPort.RocWriteUserEvent | vtp/vtpRocLib.c:700-799 | the four checks, the admission sample above 512 words, the length, eleven words, then the rest directly or under flow control |
| EvioWriter.AsyncPort.PutUnderFlowControl | vtp/vtpRocLib.c:773-799 | the loop: give up on the full flag, otherwise send as many words as the second sample leaves room for |
| EvioWriter.AsyncPort.StreamingWriteControl | vtp/vtpLib.c:2834-2870 | the event with its length, 15 words, or 13 over UDP without the two cMsg words |
| EvioWriter.AsyncPort.WriteConnectData | vtp/vtpRocLib.c:1219-1226 | connection data and its length, or nothing if there is none |
| FlowControl.LongMessageNeverOverflows | vtp/vtpRocLib.c:736-792 | when each level sample reads right, a message longer than 512 words never meets a full FIFO, whatever the hardware pops between accesses |
| FlowControl.UserEventSafeIff | vtp/vtpRocLib.c:736-799 | with the samples as coded, a user event pushes no word into a full FIFO under every hardware behaviour if and only if it fits on top of the level, or is 513 words into an empty FIFO (and then may be given up) |
| FlowControl.UserEventDeliveredIff | vtp/vtpRocLib.c:736-799 | a user event is accepted, sent to its end and loses no word under every hardware behaviour if and only if it fits on top of the level |
| FlowControl.MisreadBurstOverflows | vtp/vtpRocLib.c:776-790 | a sample at level 256 to 511 with more words left than room, and a pausing consumer, loses words |
| FlowControl.ControlEventSafe | vtp/vtpRocLib.c:657-694 | control events never lose a word, and are accepted exactly at levels 0 and 256 |
| Framing.FramingIff | vtp/vtpRocLib.c:664-692 | for any sequence of writes and any hardware behaviour, cutting the data history by the length history gives back exactly the accepted messages in order if and only if nothing was lost, no write was given up and no length wrapped |
| Delivery.FramedAlwaysIff | vtp/vtpRocLib.c:647-799 | a sequence of writes is framed right under every hardware behaviour if and only if, worked out before the first write, each one fits on top of the highest level those before it can leave |
| Delivery.HighestIsTotal | vtp/vtpLib.c:2834-2870 | without ROC control events that level is the starting level and the sizes of the messages together |
| Delivery.FillingFills | vtp/vtpRocLib.c:657-692 | the highest level is reached: some hardware behaviour lets every control event in and pauses otherwise |
| Receiver.FramesTell | vtp/vtpRocLib.c:664-799 | over a history that fits, under every hardware behaviour, each frame read by word position gives the roc id, the bank word 0x1604 or 0x1204, the control event's type and values or the user's bank, and the cMsg words, of exactly the accepted writes in order |
| Receiver.RefusedIff | vtp/vtpRocLib.c:711-733 | an empty FIFO refuses a user event exactly for more than 2^20 words, a tag from 0xff00, a data type above 16 other than 32, or a num other than 0 |
| Receiver.LongRefusedIff | vtp/vtpRocLib.c:737-745 | a long event that passes those checks is refused exactly at a full FIFO |
| Framing.FrameHeaders | vtp/vtpLib.c:2834-2870 | block length is frame length less 2 and the cMsg byte count four times that; a UDP control frame is the TCP one without its first two words |
| Framing.UserFrameIff | vtp/vtpRocLib.c:711-751 | the length written for a user event is the number of words sent unless the length word is 0xffffffff |
| Framing.UserIsOneFrame | vtp/vtpRocLib.c:751-799 | an accepted user event that lost nothing is one frame, the message |
| UserFile.FileToEvent | vtp/vtpRocLib.c:812-883 | ERROR and an unchanged buffer on a bad tag or a file that cannot be opened; otherwise the buffer holds the event of as much of the file as fits, a NUL behind it if it needed no padding, and nothing else changes |
| UserFile.ReadFile | vtp/vtpRocLib.c:843-848 | the getc loop puts as much of the file as fits behind the 16 header bytes |
| UserFile.PadBuffer | vtp/vtpRocLib.c:851-860 | zeros up to a whole word, or one NUL |
| UserFile.SwapWords | vtp/vtpRocLib.c:872-879 | each word behind the header reversed in place |
| UserFile.EventAccepted | vtp/vtpRocLib.c:862-867 | both nested bank lengths are right, and the event passes the writer's checks exactly when the roc id is a legal tag |
| UserFile.FileRoundTrip | vtp/vtpRocLib.c:843-883 | the buffer passes the writer's checks exactly when the roc id is a legal tag; in the frame, by position, the outer bank has the roc id and type 0x10, the inner one the user's tag and type 3, each its own length; the receiver, reading most significant byte first and dropping the recorded padding, gets back what was read of the file, and the file itself exactly when it fits below the limit |
| UserFile.FileReachesReceiver | vtp/vtpRocLib.c:773-799 | through the FIFO: the file reaches the receiver whole and under its tags under every hardware behaviour if and only if the roc id is a legal tag, the file and its header fit below the limit, and its padded words and 14 more fit on top of the level |
| StreamingEb.Builder.SetCfg | vtp/vtpLib.c:2145-2183 | the configured Ctrl, Ctrl3 and roc id, with their clamps, and the streams of the ports in the mask |
| StreamingEb.RegistersKept | vtp/vtpLib.c:2145-2304 | over every sequence of calls after configuration, the number in bits 2..0 is the clamped stream count, that in bits 5..4 the instance last addressed, the ports' streams and the roc id stay, and Ctrl keeps its mask and frame field until a close |
| StreamingEb.LastCallDecides | vtp/vtpLib.c:2249-2809 | over every such sequence, reset, each enable bit and each connection are what the last call that decides it made of it; foreign enable bits are refused |
| StreamingEb.FrameLengthClamped | vtp/vtpLib.c:2156-2165 | the frame field plus one is the frame length over 32, rounded up and clamped to 33..2048 |
| RunProtocol.ReadoutList.RocPrestart | rol/vtp_stream3_1udp_vg.c:680-915 | configure, connect each stream, PRESTART to each; nothing without connections or a local port, or with a bad mode |
| RunProtocol.ReadoutList.RocGo | rol/vtp_stream3_1udp_vg.c:944-1004 | GO to each stream, to one if the file gives none, then stream processing on |
| RunProtocol.ReadoutList.RocEnd | rol/vtp_stream3_1udp_vg.c:1025-1064 | END to each stream with its frame count, then close each; one stream if the file gives none |
| RunProtocol.RunLog | rol/vtp_stream3_1udp_vg.c:784-1064 | over every Prestart, Go, (Pause, Go)*, End run, each message is written out of reset with the async FIFO on, to its own port over its open socket, and streams are off until the first GO round is complete |
| RunProtocol.StreamHistory | rol/vtp_stream3_1udp_vg.c:907-1064 | each stream's history is PRESTART, one GO per Go, then END |
| RunProtocol.StreamReads | rol/vtp_stream3_1udp_vg.c:907-1064 | read by word position, a stream's history is 0xffd1 with the run's number and type, 0xffd2 for each Go, and 0xffd4 with the run's number and the stream's frame count |
| RunProtocol.PrestartState | rol/vtp_stream3_1udp_vg.c:784-915 | the registers and connections Prestart leaves, bit by bit, for each transport |
| RunProtocol.EndState | rol/vtp_stream3_1udp_vg.c:1045-1064 | End from any state disables the builder, closes the run's streams and leaves the other connections |
| RunProtocol.RunClosed | rol/vtp_stream3_1udp_vg.c:784-1064 | after every run the builder is disabled, none of its streams is connected, and every other connection is as it was |
| NetConfig.SetThenGet | vtp/vtpLib.c:2373-2508 | reading back returns what was set, the destination and its port under the transport in use and 0 under the other, and the two local ports |
| NetConfig.Registers | vtp/vtpLib.c:2373-2405 | every register by its bits: addresses and MAC most significant byte first, MTU, destination, local port in the high half and destination port in the low half |
| NetConfig.NetPort.ConfigureStreams | rol/vtp_stream3_1udp_vg.c:818-909 | the loop that steps the settings it read back |
| NetConfig.StreamsConfigured | rol/vtp_stream3_1udp_vg.c:818-909 | instance i gets the base IP and MAC with one byte plus i modulo 256, the common subnet and gateway, and the destination; instances beyond the count are untouched |
| NetConfig.StreamsDistinct | rol/vtp_stream3_1udp_vg.c:818-909 | no two streams share an address or a MAC |
| FrameCounter.SenderLoop | rol/vtp_stream3_1udp_vg.c:438-494 | the loop yields the samples of the tracker that starts at the first count |
| FrameCounter.ExtensionIff | rol/vtp_stream3_1udp_vg.c:463-471 | every extended count is the true count less the starting multiple of 2^32 if and only if fewer than 2^32 frames pass between samples |
| FrameCounter.SampleExact | rol/vtp_stream3_1udp_vg.c:463-479 | the difference behind the rate is the true gap, and 0 when the register wrapped |
| FrameCounter.Timestamps | rol/vtp_stream3_1udp_vg.c:477-479 | below 2^48 frames timestamps are 65535 ns a frame without wrap, and never go back |
| FrameCounter.StartExact | rol/vtp_stream3_1udp_vg.c:444-446 | the sender starts exact |
| FrameCounter.WireOrderIff | rol/vtp_stream3_1udp_vg.c:387-391 | the field written by htonll reads as the number, most significant byte first, if and only if its two halves are equal |
| SenderLifecycle.SenderSafe | rol/vtp_stream3_1udp_vg.c:438-535 | over every interleaving of launch, its failures, stop and the thread: one sender at most, sends only on an open socket to a resolved destination, no close under a living sender, and between calls the run flag is set exactly when there is a sender and an open socket |
| SenderLifecycle.StopTerminates | rol/vtp_stream3_1udp_vg.c:525-529 | the join in stop waits for at most three more steps of the sender |
| SenderLifecycle.LaunchSends | rol/vtp_stream3_1udp_vg.c:499-523 | a launch that meets no failure leaves a live sender with an open socket and a resolved destination, whose next three steps send |
| SenderLifecycle.LaunchFails | rol/vtp_stream3_1udp_vg.c:503-509 | a launch that cannot resolve or make a socket leaves everything but the destination |
| SenderLifecycle.CreateFails | rol/vtp_stream3_1udp_vg.c:515-521 | one that cannot create the thread closes its socket and is at rest |
| SenderLifecycle.StopRests | rol/vtp_stream3_1udp_vg.c:525-535 | stop clears the run flag, a sender at its check then ends, and joining and closing return to rest |
| Text.ScanPrinted | vtp/vtpConfig.c:1117-1218 | arguments printed with spaces between them are scanned back as they were |
| ConfigKeys.KeyOfName | vtp/vtpConfig.c:1117-1713 | every keyword the printer writes (but one) is found by the reader's chain of comparisons as itself |
| ConfigStore.StoreThenPrint | vtp/vtpConfig.c:2831-2974 | a field stored from what was printed prints the same |
| ConfigStore.StoreElsewhere | vtp/vtpConfig.c:1117-1713 | storing a field changes what no other field prints |
| ConfigReader.ConfigFile.ParseConfigFile | vtp/vtpConfig.c:622-1950 | the character loop: comments, blank lines and lines of at most 249 characters, in order, up to the first error; or never returning |
| ConfigReader.MaskIsWeight | vtp/vtpConfig.c:51-62 | the or-loop over a mask of zeros and ones gives their weighted sum |
| ConfigReader.PassedOver | vtp/vtpConfig.c:628-632 | lines that begin with a hash, a space or a tab, and empty ones, are passed over |
| ConfigReader.Taken | vtp/vtpConfig.c:633-636 | any other line is taken, 249 characters at a time |
| ConfigInvariant.InitInRange | vtp/vtpConfig.c:147-507 | the initial configuration satisfies the invariant |
| ConfigInvariant.StoreKeepsRanges | vtp/vtpConfig.c:692-785 | one stored line keeps it, whatever its arguments and whether or not it returns an error |
| ConfigInvariant.AnyFilesKeepRanges | vtp/vtpConfig.c:495-785 | after initialisation and any files with any content, the streaming settings are in range and payload_en is the weighted sum of an array of zeros and ones |
| ConfigInvariant.GatingFolds | vtp/vtpConfig.c:640-665 | reading is storing just the lines the gate lets through, with the same return code |
| ConfigInvariant.StoredByPosition | vtp/vtpConfig.c:636-665 | those are exactly the lines whose last crate line before them names this host or `all`, in order, up to the first error |
| ConfigInvariant.OtherCratesIgnored | vtp/vtpConfig.c:640-665 | a file that nowhere names this host or `all` changes nothing and is not an error |
| ConfigInvariant.HangsIff | vtp/vtpConfig.c:628-631 | the reader never returns if and only if no stored line is in error and the file ends inside a comment |
| ConfigLines.StatsPortLine | vtp/vtpConfig.c:692-702 | an active `VTP_STATS_PORT` line sets that field to a value in 1..65535, ignores any other, changes nothing else and returns 0 |
| ConfigLines.StatsInstLine | vtp/vtpConfig.c:703-713 | an active `VTP_STATS_INST` line sets that field to a value in 0..3, ignores any other, changes nothing else and returns 0 |
| ConfigLines.SyncPktLenLine | vtp/vtpConfig.c:714-724 | an active `VTP_SYNC_PKT_LEN` line sets that field to a value in 1..1499, ignores any other, changes nothing else and returns 0 |
| ConfigLines.NumConnectionsLine | vtp/vtpConfig.c:725-735 | an active `VTP_NUM_CONNECTIONS` line sets that field to a value in 1..4, ignores any other, changes nothing else and returns 0 |
| ConfigLines.NetModeLine | vtp/vtpConfig.c:736-746 | an active `VTP_NET_MODE` line sets that field to a value in 0..1, ignores any other, changes nothing else and returns 0 |
| ConfigLines.EnableEjfatLine | vtp/vtpConfig.c:747-757 | an active `VTP_ENABLE_EJFAT` line sets that field to a value in 0..1, ignores any other, changes nothing else and returns 0 |
| ConfigLines.LocalPortLine | vtp/vtpConfig.c:758-768 | an active `VTP_LOCAL_PORT` line sets that field to a value in 1..65535, ignores any other, changes nothing else and returns 0 |
| ConfigLines.GeneratedAreDefaults | vme_rol/fadc_master_stream_vg.c:812-843 | the settings the generator writes are the initial ones: read after initialisation they change nothing |
| ConfigLines.FiberLine | vtp/vtpConfig.c:786-791 | four flags give the fiber mask, bit 0 first; an entry other than 0 and 1 returns -6 and changes no field |
| ConfigLines.BadPayload | vtp/vtpConfig.c:773-785 | a payload entry other than 0 and 1 returns -6 and changes no field |
| ConfigLines.SlotLine | vtp/vtpConfig.c:1742-1746 | eight flags, or -6 |
| ConfigLines.ComptonLine | vtp/vtpConfig.c:1859-1885 | an instance below 5, or -4; sixteen flags, or -6 |
| ConfigLines.TrgSelected | vtp/vtpConfig.c:1127-1135 | `VTP_GT_TRG` makes its number current, and returns -4 for one outside 0..31 |
| ConfigLines.NoCurrentBit | vtp/vtpConfig.c:1136-1218 | a trigger-bit line without a current bit returns -4 and stores nothing |
| ConfigLines.NoSuchInstance | vtp/vtpConfig.c:1391-1713 | an instance outside 0..3, 0..3, 0..1, 0..6 or 0..31 of a pair, single, multiplicity, FEE region or prescale line returns -4 and stores nothing |
| ConfigLines.TrgbitLine | vtp/vtpConfig.c:1219-1237 | the short form of a trigger bit: one of each field, the second ones cleared |
| ConfigLines.Trgbit2Line | vtp/vtpConfig.c:1238-1256 | the long form: every field but the pulser |
| ConfigLines.DcSegthrLimits | vtp/vtpConfig.c:1258-1267 | instance 0..2, or -1 |
| ConfigLines.StreamingEbLimits | vtp/vtpConfig.c:1732-1741 | instance 0..1, or -4 |
| ConfigLines.ComptonFadcThresholdLimits | vtp/vtpConfig.c:1848-1858 | instance 0..4, or -4 |
| ConfigLines.ComptonEplaneMultMinLimits | vtp/vtpConfig.c:1886-1896 | instance 0..4, or -4 |
| ConfigLines.ComptonEplaneMaskLimits | vtp/vtpConfig.c:1897-1911 | instance 0..4, or -4 |
| ConfigLines.ComptonPrescaleLimits | vtp/vtpConfig.c:1912-1922 | bit 0..31, or -4 |
| ConfigLines.ComptonDelayLimits | vtp/vtpConfig.c:1931-1941 | bit 0..31, or -4 |
| ConfigLines.HeadLineSets | vtp/vtpConfig.c:1117-1126 | `VTP_GT_LATENCY` and `VTP_GT_WIDTH` lines set the latency and the width |
| ConfigLines.TrgLineSets | vtp/vtpConfig.c:1136-1218 | each of the nine trigger-bit lines, its keyword written out, sets the fields written beside it for the current bit |
| ConfigLines.PairLineSets | vtp/vtpConfig.c:1479-1597 | each of the ten pair-trigger lines sets its fields for its instance |
| ConfigLines.SingleLineSets | vtp/vtpConfig.c:1391-1478 | each of the seven single-trigger lines |
| ConfigLines.MultLineSets | vtp/vtpConfig.c:1598-1665 | each of the six multiplicity-trigger lines |
| ConfigLines.CalibLineSets | vtp/vtpConfig.c:1308-1390 | each of the calibration lines |
| ConfigLines.FeeLineSets | vtp/vtpConfig.c:1666-1697 | each of the four FEE lines |
| ConfigLines.RegionLineSets | vtp/vtpConfig.c:1671-1682 | the FEE prescale line sets its region |
| ConfigLines.LatencyLineSets | vtp/vtpConfig.c:1698-1702 | the HPS latency line |
| ConfigLines.PrescaleLineSets | vtp/vtpConfig.c:1703-1713 | the HPS prescale line sets its bit |
| ConfigLines.HalfLines | vtp/vtpConfig.c:1323-1330 | TOP sets the flag to 1 and BOTTOM to 0; the BOT that is printed leaves it |
| ConfigPrinter.UploadBuffer.PrintSection | vtp/vtpConfig.c:2831-2974 | the longest prefix of whole lines that stays below the limit, and its length |
| ConfigPrinter.LineWhole | vtp/vtpConfig.c:2886-2974 | every printed line fits the reader's line buffer, with one newline, at its end |
| ConfigPrinter.ReadBack | vtp/vtpConfig.c:622-665 | any printed prefix read under a crate line for this host returns 0 and stores its fields one after another |
| ConfigPrinter.BottomUnknown | vtp/vtpConfig.c:2909 | the keyword printed for the bottom half is none the reader knows |
| ConfigPrinter.GtBits | vtp/vtpConfig.c:2836-2848 | every line of a trigger bit is printed behind the line that makes it current |
| ConfigPrinter.GtRoundTrip | vtp/vtpConfig.c:2831-2848 | reading the first n printed lines restores just their fields; reading all restores the global-trigger section, and nothing else changes |
| ConfigPrinter.HpsRoundTrip | vtp/vtpConfig.c:2886-2974 | the same for the HPS section, whose top/bottom flag comes back only as top |
| ConfigPrinter.HpsRestoredIff | vtp/vtpConfig.c:2902-2911 | the whole section is restored if and only if the flag was 1, or 0 on both sides |
| ConfigPrinter.UploadReadsBack | vtp/vtpConfig.c:19-27 | what a section leaves in a buffer behind a crate line, for any limit, reads back without an error and restores exactly the fields whose lines stay below the limit |
| ConfigManual.GtListed | vtp/vtpConfig.c:2831-2848 | the text and place of each of the 290 global-trigger lines, keyword and values written out |
| ConfigManual.PairsListed | vtp/vtpConfig.c:2888-2900 | those of the pair-trigger lines, which stand twice |
| ConfigManual.CalibListed | vtp/vtpConfig.c:2902-2925 | those of the calibration lines |
| ConfigManual.SinglesListed | vtp/vtpConfig.c:2927-2936 | those of the single-trigger lines |
| ConfigManual.MultsListed | vtp/vtpConfig.c:2952-2960 | those of the multiplicity-trigger lines |
| ConfigManual.FeeListed | vtp/vtpConfig.c:2962-2965 | those of the four FEE lines |
| ConfigManual.RegionListed | vtp/vtpConfig.c:2966-2969 | those of the FEE prescale lines |
| ConfigManual.LatencyListed | vtp/vtpConfig.c:2971 | that of the latency line |
| ConfigManual.PrescaleListed | vtp/vtpConfig.c:2972-2975 | those of the prescale lines |
| SlotTable.ParseActiveFadcSlots | vme_rol/fadc_master_stream_vg.c:651-704 | the distinct slots of the file, taken in lines of at most 511 characters, in order, up to the limit, in the front of the array; -1 and no change without a file |
| SlotTable.FirstDistinctIff | vme_rol/fadc_master_stream_vg.c:667-700 | a slot is listed if and only if it appears while fewer than the limit of different slots have appeared; none is listed twice |
| SlotTable.SlotLine | vme_rol/fadc_master_stream_vg.c:667-672 | a line of one word and a number names a slot exactly if the word is FADC250_SLOT |
| SlotTable.PedsLine | vme_rol/fadc_master_stream_vg.c:667 | lines are taken 511 characters at a time |
| SlotTable.SlotToPayload | vme_rol/fadc_master_stream_vg.c:713-731 | payload 21 - 2 * slot for slots 3..10, 2 * (slot - 12) for 13..20, -1 for any other |
| SlotTable.MapSlots | vme_rol/fadc_master_stream_vg.c:758-780 | entry p is 1 exactly when payload p+1's slot is listed |
| PayloadPorts.Ports.PayloadConfig | vtp/vtpLib.c:1273-1314 | ERROR and no change on a bad port or no bank and stream; else one port changes and the result has a bit for each configured port |
| PayloadPorts.LaneBits | vtp/vtpLib.c:1290-1295 | bit 8 + k of the lane word of an unbonded port says that lane k has a bank |
| PayloadPorts.Ports.Prestart | rol/vtp_stream3_1udp_vg.c:741-772 | the mask is empty if nothing is enabled, else the ports configured before and the first nine enabled ones, which alone are configured |
| PayloadPorts.StaleIff | rol/vtp_stream3_1udp_vg.c:741-772 | the mask is just the selected payloads if and only if nothing is enabled or no other port was left configured |
| GeneratedConfig.PayloadRead | vme_rol/fadc_master_stream_vg.c:846-851 | the payload line is read back as the array it was written from and its weighted sum |
| GeneratedConfig.FileRead | vme_rol/fadc_master_stream_vg.c:799-895 | on the host it was written for the file activates the reader, its preamble cannot fail, and nothing after the payload line changes the payloads |
| GeneratedConfig.FileText | vme_rol/fadc_master_stream_vg.c:799-851 | the crate line and the payload line written out |
| GeneratedConfig.GenerateVtpConfig | vme_rol/fadc_master_stream_vg.c:739-895 | -1 if the slots cannot be read or the file not written, else the file for the slots of the pedestal file |
| GeneratedConfig.SlotsToMask | vtp/vtpConfig.c:773-785 | end to end, with no port configured before, bit p is set exactly for a payload whose slot, 10, 9 .. 3 for the odd ones and 13, 14 .. 20 for the even ones, is among the first twenty different ones and which has fewer than nine such payloads before it |
| HostNames.TrimTrailingWs | rol/vtp_stream3_1udp_vg.c:82-94 | the string loses its trailing white space, in place |
| HostNames.TrimmedIs | rol/vtp_stream3_1udp_vg.c:82-94 | what is taken off is exactly the newlines, returns, tabs and spaces at the end |
| HostNames.CutIs | rol/vtp_stream3_1udp_vg.c:158-166 | the cut is at the first dot |
| HostNames.KeptCharacters | rol/vtp_stream3_1udp_vg.c:168-176 | letters, digits, underscore and minus are kept |
| HostNames.PathText | vme_rol/fadc_master_stream_vg.c:789-790 | the written path is the directory, /vtp_, the name and .cnf |
| HostNames.StripTrailingVtp | rol/vtp_stream3_1udp_vg.c:103-120 | a copy, cut to the buffer, without a trailing "vtp" if more than that is there |
| HostNames.GetSanitizedHostname | rol/vtp_stream3_1udp_vg.c:129-179 | the name in use, trimmed, cut at its first dot and sanitised; -1 without one |
| HostNames.GetGeneratedConfigPath | rol/vtp_stream3_1udp_vg.c:186-226 | the path for the directory and the host, each cut to its buffer; none without either |
| HostNames.StripIff | rol/vtp_stream3_1udp_vg.c:103-120 | which short host names lead to the base name r: r with "vtp" behind it, and r itself unless it would be stripped |
| HostNames.PathsAgreeIff | vme_rol/fadc_master_stream_vg.c:789-790 | a host called r followed by "vtp" and any domain derives the path written for r, exactly when the directory has no trailing white space |
| HostNames.ProducerConsumer | vtp/vtpConfig.c:526-534 | and the file written there activates the reader on that host and sets the payloads |
| TriggerBank.FindHeader | vtp/vtpLib.c:7534-7552 | the first block header, or -1 |
| TriggerBank.FindTrailer | vtp/vtpLib.c:7554-7572 | the last block trailer, or -1 |
| TriggerBank.WordTypes | vtp/vtpLib.c:7524-7528 | the values of header and trailer words, and the count in a trailer |
| TriggerBank.TIDataToTriggerBank | vtp/vtpLib.c:7519-7608 | the result and the rewritten data; words past the count are untouched |
| TriggerBank.TriggerBankCases | vtp/vtpLib.c:7574-7608 | with a matching count only the header word changes and header to trailer becomes a bank of its own length; a zero-count trailer just before the header writes and returns -1; all else is an error and unchanged |
| TriggerBank.NoBounds | vtp/vtpLib.c:7534-7572 | no header, or no trailer, is an error and unchanged |
| EventReader.ReadEvent | vtp/vtpLib.c:7613-7658 | the words popped, in order, in the front of the buffer; the rest of it unchanged |
| EventReader.ReaderBounds | vtp/vtpLib.c:7613-7658 | for any status behaviour: at most maxsize words, one poll for each word and each empty FIFO, the retry budget spent exactly on a time-out, and the count one short exactly when it stopped on the end-of-event flag |
| EventReader.EbBounds | vtp/vtpLib.c:7611-7658 | the same for the event builder: status bits 1 and 17, and 10000 retries |
| EventReader.TiLinkBounds | vtp/vtpLib.c:7471-7516 | and for the trigger link: bits 0 and 16, and 100 retries |
| RobustMutex.MutualExclusion | vtp/vtpLib.c:8178-8384 | over every interleaving of locks, unlocks, health checks and deaths without re-initialisation at most one live process holds the lock, and it is never unrecoverable |
| RobustMutex.ReturnsRight | vtp/vtpLib.c:8178-8518 | a lock that returns OK leaves the mutex consistent and the caller's, even after its owner died; an unlock or health check that returns OK leaves the caller without it |
| RobustMutex.UnlockAnswers | vtp/vtpLib.c:8358-8384 | a holder's unlock returns OK and leaves the mutex free; anyone else's returns EPERM and changes nothing |
| RobustMutex.FreeMutexTaken | vtp/vtpLib.c:8178-8350 | each lock routine takes a free mutex at once |
| RobustMutex.HeldMutexRefused | vtp/vtpLib.c:8178-8350 | against another holder lock blocks, try-lock returns EBUSY, and timed-lock blocks and may return ETIMEDOUT |
| RobustMutex.DeathRecovered | vtp/vtpLib.c:8178-8350 | after its owner's death the next live process to try, by any of the lock routines or by waking in one, holds the lock two steps later |
| RobustMutex.ReinitIff | vtp/vtpLib.c:8468-8472 | after the health check re-initialises the mutex, exclusion holds over every continuation without another re-initialisation if and only if no live process owned it, repairing or not |
| RobustMutex.ReinitUnderRepair | vtp/vtpLib.c:8468-8472 | a run in which nobody alive holds the lock at the re-initialisation, and two live processes come to hold it |
| PageCache.Si5341.Configure | vtp/si5341_cfg.c:1023-1063 | the two resets, the table in order and the sync; only the resets for an unknown clock source |
| PageCache.ConfigureSteps | vtp/si5341_cfg.c:1023-1063 | the accesses by address: 2 to 0x1E, 1 to 0x1C, the table in order, 4 to 0x1E |
| PageCache.ChipWrites | vtp/si5341_cfg.c:885-911 | what a write to the chip does: select a page, reset, or set the one register |
| PageCache.StepRefines | vtp/si5341_cfg.c:885-911 | one cached access does what selecting the page each time does, hard resets included, and the cache stays right exactly when the access does not select another page behind it |
| PageCache.CacheRefinesDirect | vtp/si5341_cfg.c:885-911 | over any sequence of such accesses, the same chip and the same values read |
| PageCache.AgreementIff | vtp/si5341_cfg.c:885-911 | every next access agrees with direct access if and only if the last one was of that kind |
| PageCache.TableLastWins | vtp/si5341_cfg.c:1053-1058 | the last write to each register wins |
| PageCache.ConfiguredChip | vtp/si5341_cfg.c:1023-1063 | every register after a configuration: sync, the table's last value, the soft reset's, or the power-on value |

## Left out

- Device access, sockets, process creation and sleeps are parameters, schedules or steps; firmware loading is not modelled. The checks for an initialised library and the right firmware type are taken to pass, as is `VLOCK`.
- Status printing, scalers, EPICS and histograms: output only.
- Floating-point fields are carried as the text printf gives for a finite float; conversion to and from binary, the event rate, and temperatures are not modelled.
- Keywords of other sections are range-checked where the source returns an error from them, and otherwise ignored; what they store is not modelled.
- Strings are sequences of characters: a NUL byte in a configuration file, and words longer than the keyword, crate-name and host-name buffers, are not modelled.
- GeneratedConfig.GenerateVtpConfig: takes the comments, fixed values and parameter lines of the file as arguments, any lines of those kinds (`GeneratedConfig.IsPreamble`, `GeneratedConfig.IsTail`), not their literal text.
- ConfigReader.ConfigFile.ParseConfigFile: stores the modelled fields only, see the keywords above.
- ConfigPrinter.GtRoundTrip: floats as printed text, see above; `ConfigPrinter.HpsRoundTrip` likewise.
- HostNames.GetSanitizedHostname: takes gethostname to fail when the name does not fit, as glibc's does, so the buffer always holds a terminated string.
- Scanning accepts what printf writes. After a literal `0x`, C's `%X` also takes white space, a sign or another `0x`, and `%f` also takes exponents and stops at a second point; such hand-written input is not modelled.
- The full order of printed sections: a section is printed into a buffer that may hold anything before it.
- The synchronous event writer `vtpRocWriteBank`, and a negative data length in the connect routines.
- Overflow of signed arithmetic, and block data longer than an int can count.
- The CODA macros, the fadc and ti libraries; `EV_PRESTART` and `EV_GO` carry the values used in `rol/vtp_list_davtp3.c`.
- The copies of the readout list `rol/vtp_stream3_1udp.c` and `rol/vtp_stream3_1udp_jz.c`, and the single-register get and set pairs: nothing of their own to prove.
- `vtpStreamingGetEbCfg`, `vtpStreamingFramesSent`, `vtpStreamingBytesSent`, the threshold of `vtpSetCompton_Trigger`, and a dotted `VTP_STREAMING_DESTIP` in `vtpReadConfigFile`: known not to do what their names say.
- FlowControl.LongMessageNeverOverflows: assumes that the level samples read right, because the mask misreads levels 256 to 511; `FlowControl.UserEventSafeIff` and `FlowControl.UserEventDeliveredIff` have no such assumption.
- RobustMutex.MutualExclusion: holds without re-initialisation; `RobustMutex.ReinitIff` says when it survives one.
- TriggerBank.TIDataToTriggerBank: takes the two indices as -1 before the scans; the source leaves them unset.
