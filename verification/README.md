# Models of fastvideo

fastvideo moves video frames between devices.  These Dafny modules model the parts of
it that are algorithms, and prove what they are for.

- **MPEG-TS multiplexer** (`src/smpegts.c`): `Crc32` (the table-driven checksum against
  the register of Annex A of ISO/IEC 13818-1), `SmoothClock` (the smoothed PCR/PTS
  timeline in wrapping 32-bit arithmetic), `TsPacket` (cutting frames into packets, and
  a receiver after section 2.4.3 of the standard), `Datagrams` (grouping packets into
  datagrams), `Multiplexer` (the sending loops over a transport that may refuse),
  `Streams` (the datagrams of whole runs), `Reception` (what a receiver gets from them),
  `Psi` (the program tables and the PMT of a KLV stream, with a receiver after section
  2.4.4), `Klv` (the packet of that stream), `MetaReception` (what its receiver gets) and
  `TableReception` (the tables over whole runs, and the way from the PAT to the video).
- **Threaded TCP sender** (`src/sproto_tcp.c`): `TcpRing`, two threads that share a ring
  of 64 buffers, as interleaved steps at the granularity of accesses to shared fields;
  `TcpMessages`, what a caller whose messages fit gets from it; and `MuxOverTcp`, the
  multiplexer as that caller.
- **Buffer hand-over**: `Passthrough` (`src/spassthrough.c`, the twin queues and the
  shoot gate on linked buffer objects), `Pipeline` (`src/fastvideo.c`, the transfer loop
  over devices given by tables of operations), `PassthroughPipes` (the passthrough keeps
  the contract of that loop) and `Tiles` (`src/stile.c`, the tile grid and the slot ring).
- **Smaller cores**: `Agc` (`utils/rpivc4_alg.c`), `RectLayout` (`utils/rectshm.c` and
  `src/segl_gles2.c`, one layout computed by two programs), `EntityList`
  (`src/sfastvideo.c`, nodes on the heap) and `BayerConvert` (the portable, ARMv8 and
  ARMv7 converters).  `Bytes`, `Arithmetic` and `Errno` hold what they share.

Code that updates things in place is a class or a method over arrays here, proved
against a function; what the code is for is proved about that function, or as an
invariant of every run.

## Where a promise does not hold

The models follow the code.  In these places it falls short of what its comments or
its purpose say, and the lemmas say exactly when:

- A clock that reads exactly 0 is taken for "no frame yet", so that the period starts
  again from the configured rate (`SmoothClock.PeriodStaysKnown`,
  `SmoothClock.SettledStays`).  A timeline settles all the same, within 402 frames of
  such a clock (`SmoothClock.SettlesAfterZero`).
- "The timeline never goes back" (`src/smpegts.c:770`) has the exception of the lines
  above it, and that of a clock that read 0 the frame before, by which the stamp is set
  to the clock without looking at the drift (`SmoothClock.TimelineGoesBack`).
- When 188 divides the datagram size and more than one packet fits, the filling stops
  one packet short, and the next frame goes on in the open datagram but counts from a
  fresh one: either a datagram gets too long, or, when every frame brings fewer packets
  than fit, nothing is sent any more (`Streams.FrameIsGrouped`,
  `Streams.OpenDatagramGoesOn`, `Streams.GroupingCondition`).
- A configured pid of 0x10 or 0xff, modulo 256, puts the video on the pid of the SDT or
  of the PAT, and a receiver of the video fails as soon as that table is sent
  (`Reception.CreatedRunComesBack`).  In the same way 0x0f, 0x1ffe and 0x1ffd, modulo
  0x2000, put the metadata on the pid of the SDT, the PAT or the null packets
  (`MetaReception.MetaRunComesBack`).  0x00 and 0x11, modulo 256, put the PMT on the pid
  of the PAT or the SDT, and a receiver of that pid gets the tables mixed
  (`TableReception.TablesCountOn`).
- The SDT gives its descriptor loop and its service descriptor one byte less than they
  have, so that a receiver that walks it by these lengths (section 5.2.3 of ETSI EN
  300 468) finds no service (`Psi.SdtIsShort`).
- PCRs are compared with the previous PTS: the discontinuity flag also marks a PCR less
  than a millisecond after the previous one, and a lower PCR goes out unmarked behind a
  frame that had data and no PCR (`Reception.LowerPcrIsAnnounced`).
- In http mode the greeting of a new client is sent inside the call that finds it.  It
  ends the dropping while that call itself is refused, so that the next chunk is
  accepted even if it does not start a frame (`TcpRing.ResumeCondition`,
  `TcpRing.GreetingHidesGap`).
- A shoot is spent even if the input end has no buffer for the frame
  (`Passthrough.ShootIsUsedUp`).
- A real error of a queue on an end without a descriptor loses the buffer, and the loop
  goes on (`Pipeline.LostAndGoesOn`, `Pipeline.BufferVanishes`).
- A source one pixel wide, with no tile width given, is accepted with tiles of width 0
  (`Tiles.GridFits`), by which the offset computation then divides.
- The strides of the tile splitter are products in 32 bits: with source rows of 2^32
  bytes and more, every row but the first of the source is copied from a wrong place
  (`Tiles.RowIsOwn`, `Tiles.PixelOfTile`, `Tiles.WideSource`).
- The two programs disagree on the layout of a configuration with a sized control whose
  name is not a string (`RectLayout.RectanglesAgree`, `RectLayout.TotalsAgree`).
- The gain controller divides by the ratio, which the option `-r` takes unchecked: a
  ratio of 0 goes well until a measured frame has pixels in the region
  (`Agc.ZeroRatioSurvives`).
- A walk with `next` after `first` leaves the first entity out
  (`EntityList.WalkAfterFirst`); `src/fastsetting.c:64-67` walks like that.
- The ARMv7 converter narrows with `vqrshrn.u16`.  In the ARM architecture the suffix of
  this instruction names the elements of the operand, so both halves of each 32-bit
  product are narrowed to eight bits, where the comment and the ARMv8 loop mean the
  product.  Lines come out right exactly as long as green samples stay below 2044
  (`BayerConvert.HalvesOfGreen`, `BayerConvert.HalvesEqualPortable`).

## Model

| member | source | states |
|---|---|---|
| `Crc32.Compute` | src/smpegts.c:507-517 | The checksum loop returns, for every buffer range, the register of Annex A of ISO/IEC 13818-1: division by 0x04C11DB7 bit by bit, most significant bit first, from all ones |
| `Crc32.EntryIsRemainder` | src/smpegts.c:439-505 | Each of the 256 table entries is what eight zero bits leave in the register when the index is on top |
| `Crc32.TableStepIsEightShifts` | src/smpegts.c:513 | One table lookup moves the register exactly as feeding the eight bits of the byte does, for every register and byte |
| `Crc32.CrcOfOneMore` | src/smpegts.c:511-515 | The register of a message and one more byte is one table step from the register of the message |
| `Crc32.ResidueIsZero` | src/smpegts.c:1059-1060 | A message followed by its checksum in big-endian order leaves residue zero, for every message |
| `Crc32.ResidueIsZeroOnlyForTheCrc` | src/smpegts.c:507-517 | A four-byte tail leaves residue zero if and only if it is the checksum of what precedes it |
| `Crc32.RegisterIsInjective` | src/smpegts.c:507-517 | Feeding the same bits to two registers gives the same result only if they were equal: feeding, a zero byte for instance, is injective |
| `Crc32.ShortInputIsUnique` | src/smpegts.c:507-517 | From one register, two bit strings of equal length up to 32 leave the same register only if they are equal |
| `Crc32.BurstChangesRegister` | src/smpegts.c:507-517 | Two messages that differ only inside a window of at most 32 bits leave different registers |
| `Crc32.FourByteBurstIsDetected` | src/smpegts.c:507-517 | Two messages that differ only inside four consecutive bytes have different checksums |
| `SmoothClock.Smoother.Smooth` | src/smpegts.c:736-775 | One call moves the fields as the wrapping 32-bit step function does, with signed readings of differences and divisions towards zero, and returns the new stamp |
| `SmoothClock.PeriodStaysKnown` | src/smpegts.c:738-755 | A period in 1..90000 stays there if and only if the previous clock was not 0 or the configured rate is in 1..90000: a clock of exactly 0 is taken for the first frame |
| `SmoothClock.PeriodIsBounded` | src/smpegts.c:742-755 | No step makes the period longer than a second, whatever the rate and the clocks |
| `SmoothClock.FirstFrameStarts` | src/smpegts.c:738-745 | The first frame gets its own clock and the largest whole period with period * fps <= 90000, or none without a rate |
| `SmoothClock.PeriodFollows` | src/smpegts.c:747-755 | Behind it, an interval outside of 1..17999 changes no period; any other becomes the period if none is known, and moves it a sixteenth of the way, towards zero, if one is |
| `SmoothClock.StampNearClock` | src/smpegts.c:756-774 | Whenever a period is known, the stamp is within 18000 ticks of the clock, in wrapping arithmetic |
| `SmoothClock.TimelineGoesBack` | src/smpegts.c:736-774 | For every state whose period is at most a second, every rate and clock: the stamp fails to advance if and only if the clock is not ahead of it, and either the clock before read 0 or the drift from a known period is beyond 18000 |
| `SmoothClock.RegularFrame` | src/smpegts.c:747-774 | Under a constant interval the wrapping step is a step on plain integers: what period and lag become |
| `SmoothClock.RegularFrameShrinks` | src/smpegts.c:747-774 | A frame at the interval takes a sixteenth off the error of the period, and then of the lag |
| `SmoothClock.PeriodConverges` | src/smpegts.c:753-754 | After n frames the error of the period is the n-fold shrunken error, as long as the clock is never 0 |
| `SmoothClock.LagConverges` | src/smpegts.c:759-773 | Once the period is within 15 ticks, the lag after n frames is at most the n-fold worst lag |
| `SmoothClock.SettlesWithin` | src/smpegts.c:733-775 | From any known period and any lag up to 18000, with any interval in 1141..17999, the period is within 15 ticks of it and the stamp within 240 of the clock from the 401st frame on, as long as no clock reads 0 |
| `SmoothClock.SettlesAfterZero` | src/smpegts.c:738-774 | Behind a clock of 0 the timeline settles within 402 frames, for every configured rate and whatever it was before |
| `SmoothClock.EventuallySettles` | src/smpegts.c:733-775 | From any known period and any lag up to 18000 it settles at some frame of the next 803, whatever clocks read 0 on the way |
| `SmoothClock.FirstFrameSettles` | src/smpegts.c:738-775 | So does a device from its first frame on, at any clock and with or without a configured rate |
| `SmoothClock.SettledStays` | src/smpegts.c:736-775 | A settled timeline stays settled for one more frame if and only if the last clock was not 0 or the configured rate is that of the source |
| `TsPacket.NextPacketShape` | src/smpegts.c:846-953 | For any data left, with or without PCR: the pieces of a packet add up to 188 bytes, the adaptation field length is right, the payload is the next part of the data |
| `TsPacket.PacketIsFull` | src/smpegts.c:849-862 | A packet has an adaptation field exactly if it is stamped or the data left do not fill it, and takes as much of the data as the smallest such field (8 bytes with a PCR, otherwise 2) leaves room for |
| `TsPacket.PacketsOfRest` | src/smpegts.c:837-953 | How many packets any data take behind the first packet: one for each 184 bytes, and one for a rest, except that a rest of 183 bytes takes two |
| `TsPacket.PacketIsWhole` | src/smpegts.c:846-953 | Every packet is exactly 188 bytes long |
| `TsPacket.PacketAt` | src/smpegts.c:837-976 | The i-th packet of a frame is 188 bytes long, has the counter i steps on modulo 16, and the start indicator only if it is the first |
| `TsPacket.PacketParsesBack` | src/smpegts.c:846-953 | A receiver after section 2.4.3 of ISO/IEC 13818-1, which skips the adaptation field by its length byte, finds pid, counter, start indicator and exactly the PES header and data |
| `TsPacket.FrameComesBack` | src/smpegts.c:837-981 | Whatever comes before and after, the packets of any non-empty frame come back as one unit: the 19-byte PES header and every byte of the frame, once and in order |
| `TsPacket.ForeignPacketsAreSkipped` | src/smpegts.c:520-594 | Packets of other streams in between do not change what the receiver gets |
| `TsPacket.TimeStampReadsBack` | src/smpegts.c:927-940 | The 33-bit field of a PES header reads back as the stamp, for every 32-bit stamp and for the prefix of either stream |
| `TsPacket.PcrReadsBack` | src/smpegts.c:879-884 | The six bytes of the PCR read back as its 33-bit base, for every 32-bit PCR |
| `Datagrams.Transport.Send` | src/smpegts.c:859 | The transport takes a piece and returns its length, or refuses it and everything after |
| `Datagrams.TakenStep` | src/smpegts.c:900-952 | Sending goes on while pieces are accepted and stops at the first refusal: what was taken is always a prefix of what was to be sent |
| `Datagrams.PiecesArriveWhole` | src/smpegts.c:859-952 | On the wire the header, field, stuffing, PES header and payload sent one by one are the packet sent in one piece; only the last may end the datagram |
| `Datagrams.FlushCompletesGroup` | src/smpegts.c:843-845 | The test on the bytes left ends a datagram exactly at the packet that completes a group of floor(mtu/188) |
| `Datagrams.DatagramsAreGroups` | src/smpegts.c:836-961 | For any number of packets every completed datagram holds exactly floor(mtu/188) whole packets, and no byte is lost or reordered |
| `Datagrams.FillCompletesGroup` | src/smpegts.c:520-594 | How many packets the filling adds, and that it ends on a flush if and only if 188 does not divide mtu or mtu < 376 |
| `Multiplexer.Sender.PushData` | src/smpegts.c:778-1009 | One frame: the transport gets the pieces of the video packets, the KLV packet and the filling, or as many as it takes; counter, last stamp and tables move accordingly; the result is 0 or the refusal |
| `Multiplexer.Sender.PushFrame` | src/smpegts.c:837-981 | The loop over a frame terminates and sends exactly the cut of the frame; counter and stamp follow the packets that went through |
| `Multiplexer.Sender.SendNext` | src/smpegts.c:839-953 | One packet is sent in the pieces of the specification, and the bytes left of the datagram are accounted for |
| `Multiplexer.Sender.SendField` | src/smpegts.c:863-912 | The adaptation field is its length byte, flags and stuffing up to the wanted size, in one or two pieces |
| `Multiplexer.Sender.SendPayload` | src/smpegts.c:915-953 | The PES header, if any, and the part of the data that fills the packet up |
| `Multiplexer.Sender.FillData` | src/smpegts.c:520-594 | The PMT, PAT, SDT and null packets that complete the datagram, each with its counter moved on, and the returned length |
| `Multiplexer.Sender.SendTables` | src/smpegts.c:524-569 | The first three packets of a filling, as far as there is room and the transport accepts |
| `Multiplexer.Sender.SendWhole` | src/smpegts.c:717-723 | A packet in one piece ends the datagram if no other fits |
| `Multiplexer.GoingNext` | src/smpegts.c:837-976 | The loop invariant: what was sent and what is still to be sent make up the pieces of the frame, also when the transport refuses inside a packet |
| `Streams.FrameOnTheWire` | src/smpegts.c:836-997 | The pieces of a frame put on the wire are its whole packets put there one by one |
| `Streams.FrameIsGrouped` | src/smpegts.c:836-997 | From a fresh datagram, with any number of video packets and with or without KLV: all datagrams hold floor(mtu/188) packets, nothing is lost, and the frame ends on a flush if and only if 188 does not divide mtu or mtu < 376 |
| `Streams.OpenDatagramGoesOn` | src/smpegts.c:836-845 | A frame that follows an open datagram counts from a fresh one: with fewer packets than fit it flushes nothing, otherwise its first datagram is too long by all that was open |
| `Streams.FrameReachesGroup` | src/smpegts.c:984-997 | Where 188 divides mtu and mtu >= 376, a frame with its filling has as many packets as fit if and only if it brings them itself |
| `Streams.RunIsGrouped` | src/smpegts.c:778-1009 | Over any number of frames, when fillings end on a flush, all datagrams hold floor(mtu/188) packets and together they are the packets sent |
| `Streams.GroupingCondition` | src/smpegts.c:836-997 | Over any number of frames from a fresh datagram, all datagrams hold floor(mtu/188) packets if and only if 188 does not divide mtu or mtu < 376, or no frame after the first brings that many packets; in the last case nothing is sent after the first frame and the open datagram grows by every packet |
| `Streams.PushFrame` | src/smpegts.c:1201-1210 | One push of the device is a step of the run, if the transport takes all of it |
| `Streams.PushFrames` | src/smpegts.c:1201-1210 | Pushing any frames one after the other gives the transport the pieces of the run, or as many as it takes, and leaves the device in the state after the run |
| `Reception.FrameInStream` | src/smpegts.c:837-997 | The video of one frame, among tables, KLV and null packets and with anything after it, comes back as one unit |
| `Reception.RunComesBack` | src/smpegts.c:778-1009 | Over any run of frames and from any counter, when all other packets are of other pids, a receiver of the video stream gets exactly the PES header and the data of every frame, in order |
| `Reception.UnitsAreCounted` | src/smpegts.c:836-997 | A receiver that does not fail gives exactly as many units as packets of the stream start one |
| `Reception.ComesBackIfForeign` | src/smpegts.c:836-997 | Where every other packet is of another pid or starts a unit, the frames come back if and only if all of them are of other pids |
| `Reception.CreatedTablesAreHeaded` | src/smpegts.c:1050-1100 | The tables as created, with or without the KLV stream, carry the pids of PMT, PAT and SDT |
| `Reception.CreatedRunComesBack` | src/smpegts.c:1037-1100 | With the created tables, repeated any number of times: the receiver gets exactly the frames if and only if the video pid, (pid + 1) modulo 256, is neither 0x00 nor 0x11, or no filling of the run gets to the table of that pid |
| `Reception.TableIsRepeated` | src/smpegts.c:532-549 | A table sent again has the next continuity counter and is otherwise unchanged, so that its section stays sound |
| `Reception.UnitCarriesTimes` | src/smpegts.c:919-945 | The PES header starts a video stream, is as long as it says and carries the stamp plus one millisecond, and the stamp of the previous frame |
| `Reception.LowerPcrIsAnnounced` | src/smpegts.c:871-886 | Over runs: of two PCRs with none between them, away from the wrap, the second is sent as it is, and flagged if and only if it is below the first plus 90, or below 90 when a frame with data and no PCR lies between them; a lower PCR goes out unflagged exactly behind such a frame |
| `TableReception.CopiesCountOn` | src/smpegts.c:524-569 | The i-th packet of a table sent again and again has the counter i + 1 above that of the table, modulo 16, and is otherwise the table |
| `TableReception.TablesCountOn` | src/smpegts.c:524-569 | Over any run, a receiver of the pid of a table keeps exactly its copies, one for each filling that gets to it and counted on across fillings, if and only if no video, metadata or other table of the run has that pid |
| `TableReception.LowPidsApart` | src/smpegts.c:1051-1068 | That is so for every run if the low bytes of the pid and of the next one are neither 0x00 nor 0x11 and no metadata packet has the pid of the table |
| `TableReception.PmtIsAnnounced` | src/smpegts.c:1063-1082 | A receiver of the PMT, with or without the metadata stream in it, finds program 1, clock and video on the low byte of the pid plus one, and the metadata behind it |
| `TableReception.VideoIsFound` | src/smpegts.c:524-569 | From the PAT to the video: over any run without a disturbed table, every packet of pid 0 is a PAT that names one pid for program 1, every packet of that pid is a PMT that names the pid on which the video goes out, with or without metadata, and both come as often as fillings get to them |
| `Psi.StoreChecksum` | src/smpegts.c:1052-1060 | The checksum is computed over the section, whose length is read from the packet, and stored behind it; all other bytes stay |
| `Psi.StoredChecksumIsSound` | src/smpegts.c:1055-1060 | Taking the pointer byte off the section length covers exactly the bytes before the checksum, so that the section leaves residue zero |
| `Psi.CreatePat` | src/smpegts.c:1049-1061 | The PAT packet, in place from the default bytes: the pid of the PMT and the checksum; what it says to a receiver is Psi.PatParses |
| `Psi.CreatePmt` | src/smpegts.c:1063-1078 | The PMT packet of the video stream, in place from the default bytes |
| `Psi.CreateSdt` | src/smpegts.c:1084-1097 | The SDT packet with the service name, in place from the default bytes |
| `Psi.TablesAreSound` | src/smpegts.c:1049-1097 | All three tables leave residue zero over the section that their length fields describe, for every id, name and type |
| `Psi.PatHeader` | src/smpegts.c:1050-1051 | The PAT goes out on pid 0 |
| `Psi.PmtHeader` | src/smpegts.c:1064-1068 | The PMT goes out on the low eight bits of the configured pid |
| `Psi.SdtHeader` | src/smpegts.c:1085-1086 | The SDT goes out on pid 0x11 |
| `Psi.VideoPmtParses` | src/smpegts.c:1063-1078 | A receiver of the PMT finds program 1, the clock and one video stream |
| `Psi.PatParses` | src/smpegts.c:1049-1061 | A receiver after section 2.4.4, which checks table id and residue and walks the entries by the section length, finds exactly one program in the PAT: number 1, with its PMT on the low eight bits of the configured pid |
| `Psi.SdtIsShort` | src/smpegts.c:1084-1097 | A receiver of the SDT that walks the services by their lengths finds none, whatever the name: the lengths of the descriptor loop and of the service descriptor in the default bytes are one too small; with both one higher it finds the service with its type, provider and name |
| `Psi.AddKlvStream` | src/smpegts.c:605-646 | The bytes of the packet rewritten in place for a KLV stream: program info, the old stream entry, the new one, lengths, checksum, stuffing |
| `Psi.PutProgramInfo` | src/smpegts.c:612-621 | The program info loop with the metadata pointer descriptor is written behind the PCR pid, and nothing else |
| `Psi.PutKlvEntry` | src/smpegts.c:626-636 | The entry of the KLV stream with its descriptor is written behind the video entry, and nothing else |
| `Psi.KlvSectionIsSound` | src/smpegts.c:638-645 | The section length is 55 and ends with the checksum, the residue is zero and the rest of the 188 bytes is 0xff |
| `Psi.KlvStreamIsAdded` | src/smpegts.c:605-646 | A receiver that walks program info and stream loop by their lengths (section 2.4.4 of ISO/IEC 13818-1) finds the video stream unchanged and after it one stream of type 0x15 on the pid, for every 13-bit pid |
| `Psi.DescriptorsAreWellFormed` | src/smpegts.c:612-636 | Both metadata descriptors parse as one descriptor each with the content meant |
| `Klv.Metadata.Push` | src/smpegts.c:652-724 | The packet of a frame is handed to the transport whole; the continuity counter goes on if and only if it was taken, the cell number always |
| `Klv.Metadata.BuildPes` | src/smpegts.c:658-699 | The PES is written in place: header, time stamp, cell header, key and set, and at last the two lengths |
| `Klv.BuildPacket` | src/smpegts.c:701-716 | The packet around it is 188 bytes: its adaptation field takes exactly what the PES leaves |
| `Klv.PutNumber` | src/smpegts.c:686-694 | A number is written from its highest byte on |
| `Klv.OctetsReadBack` | src/smpegts.c:686-694 | Its bytes read back as the number, for every number that fits |
| `Klv.SetParses` | src/smpegts.c:683-694 | The local set walked by its lengths is the flags and the timestamp, in this order |
| `Klv.PesParses` | src/smpegts.c:658-699 | A receiver that walks the PES by its length fields finds the time stamp of the video frame, the cell number, the key and the set |
| `Klv.KlvComesBack` | src/smpegts.c:652-724 | From the packet a receiver after section 2.4.3 of ISO/IEC 13818-1 gets the pid in 13 bits, the start indicator and the counter, and from its payload the time stamp, the key and both values, for every 13-bit pid |
| `Klv.KlvIsForeign` | src/smpegts.c:703-706 | The metadata pid, two above the configured one in 13 bits, is never that of the video stream, whatever the configuration |
| `MetaReception.UnitsAreLoaded` | src/smpegts.c:836-997 | A receiver that does not fail gives exactly as many bytes as packets of the stream bring |
| `MetaReception.FrameInMetaStream` | src/smpegts.c:778-1009 | The metadata packet of one frame, among video, tables and null packets and with anything after it, comes back as one unit |
| `MetaReception.ComesBackIfNoFill` | src/smpegts.c:652-724 | The metadata of a run comes back, one PES a frame and in order, if and only if no table and no null packet of a filling belongs to the stream |
| `MetaReception.MetaRunComesBack` | src/smpegts.c:703-722 | With the created tables, repeated any number of times: the receiver of the metadata gets exactly the PES of every frame if and only if the pid, (pid + 2) in 13 bits, is none of 0x0000, 0x0011 and 0x1fff, or no filling of the run gets to a packet of that pid |
| `TcpRing.OpenedKeeps` | src/sproto_tcp.c:276-277 | Starting a buffer keeps the ring invariant: the ready buffers are the circular segment from in to out, only out is queued, lengths fit, contents match the history |
| `TcpRing.FilledKeeps` | src/sproto_tcp.c:279-280 | Copying a chunk that fits behind the queued bytes keeps the ring invariant |
| `TcpRing.PushedKeeps` | src/sproto_tcp.c:230-237 | Making the queued buffer ready keeps the ring invariant, between the push and the move of out |
| `TcpRing.AdvancedKeeps` | src/sproto_tcp.c:238 | Moving out to the next buffer restores the invariant |
| `TcpRing.DroppedKeeps` | src/sproto_tcp.c:531-535 | Throwing away the queued buffer at a close keeps the invariant |
| `TcpRing.TakenKeeps` | src/sproto_tcp.c:222-224 | Releasing the buffer that was sent keeps the invariant, and what was taken is the oldest packet pushed |
| `TcpRing.StartIsSound` | src/sproto_tcp.c:340-359 | The ring as created satisfies the invariant of the two threads |
| `TcpRing.SenderLooks` | src/sproto_tcp.c:200-219 | Each step of the sender thread up to the end of sending keeps the invariant of the two threads |
| `TcpRing.SenderFinishes` | src/sproto_tcp.c:220-224 | So does the step that reports an error and releases the buffer |
| `TcpRing.ProducerConnects` | src/sproto_tcp.c:402-457 | So do the steps that look for and install a client, after which a server in http mode sends its greeting |
| `TcpRing.WaitingClientIsInstalled` | src/sproto_tcp.c:402-423 | A call without a client is refused, unless the program is a server and a client waits: whatever the sender does meanwhile, that client is installed next, without an error, and nothing is accepted but a greeting |
| `TcpRing.ProducerChecks` | src/sproto_tcp.c:243-247 | So do the steps that look at the sender's error, and give up the call or the greeting |
| `TcpRing.ProducerCloses` | src/sproto_tcp.c:520-530 | So does the step that forgets the client |
| `TcpRing.ProducerDecides` | src/sproto_tcp.c:248-260 | So do the decisions where a chunk goes, also while the sender moves on |
| `TcpRing.ProducerLooks` | src/sproto_tcp.c:261-271 | So does the test whether the next buffer is free, which starts dropping if it is not; when it is free is TcpRing.LookCondition |
| `TcpRing.ProducerFills` | src/sproto_tcp.c:274-280 | So do starting a buffer and copying a chunk, which accept a chunk behind a gap only if it starts a frame or follows the greeting |
| `TcpRing.ProducerPushes` | src/sproto_tcp.c:230-237 | So does a push, which wakes the sender |
| `TcpRing.ProducerMoves` | src/sproto_tcp.c:238 | So do the moves of out and the end of a close |
| `TcpRing.StepKeepsSound` | src/sproto_tcp.c:200-474 | Every step of either thread, in any interleaving and with or without http mode, keeps the invariant |
| `TcpRing.RunKeepsSound` | src/sproto_tcp.c:200-474 | Hence every run does, of any length and with any outcomes of sending |
| `TcpRing.EveryRunIsSafe` | src/sproto_tcp.c:200-474 | Over every run: packets are taken once, in push order, unchanged and at most mtu long; every accepted chunk is whole in one packet, one buffer thrown away at a close or the open buffer; a packet never runs over the end of a message and says that more follows exactly when its message goes on; the first chunk accepted, and any after a refusal or a close, starts a frame, or follows the greeting of http mode, which without that mode never happens; the producer never writes the buffer being sent; the sender never waits unsignalled while a buffer is ready |
| `TcpRing.ResumeCondition` | src/sproto_tcp.c:253-260 | Behind a gap, a call of the caller that comes to start a buffer goes on if and only if it starts a frame or the greeting was accepted since the gap; any other is refused |
| `TcpRing.LookCondition` | src/sproto_tcp.c:261-271 | The next buffer is taken if and only if fewer than 64 packets are pending and the chunk fits into mtu; otherwise the call is refused, counted as lost, and frames are dropped from then on, and nothing else changes |
| `TcpRing.CallIsAccepted` | src/sproto_tcp.c:240-283 | Over any interleaving with the sender: a call with a client, no error and a start if frames are dropped, that finds place in the open buffer or a free buffer, is accepted within nine steps of the producer |
| `TcpRing.GreetingHidesGap` | src/sproto_tcp.c:426-446 | A run in http mode, for any two calls: the first is refused, the greeting is accepted in its place, and the second is accepted whether or not it starts a frame |
| `TcpRing.SenderAdvances` | src/sproto_tcp.c:204-225 | While a buffer is ready the sender has a step, and it brings it nearer to the empty ring |
| `TcpRing.SenderDrains` | src/sproto_tcp.c:204-225 | The sender alone, however sending goes, takes everything that was pushed in at most four steps a packet and one to wake up |
| `TcpRing.SenderOffers` | src/sproto_tcp.c:204-219 | With a packet waiting the sender sends to the client if and only if there is one and no error stands; otherwise it goes on to release the packet |
| `TcpRing.SendsTheOldest` | src/sproto_tcp.c:204-217 | What is being sent is the oldest packet pushed, whole and with its flag |
| `TcpRing.FailureIsReported` | src/sproto_tcp.c:220-224 | When a packet is released, a failure to send becomes the error exactly while the client it was sent to is still the client |
| `TcpRing.StepKeepsReport` | src/sproto_tcp.c:243-247 | While an error stands nothing is accepted: a call that looks at it is refused, and with another error than EAGAIN its connection is closed, which alone ends the error |
| `TcpRing.ErrorStands` | src/sproto_tcp.c:200-474 | So over any run in which the client is not forgotten |
| `TcpRing.NobodyIsStuck` | src/sproto_tcp.c:200-474 | There is no deadlock: a call in progress can go on, or the sender that holds the mutex can |
| `TcpMessages.StepKeepsMessages` | src/sproto_tcp.c:248-284 | For a caller whose chunks fit behind what is queued, no step pushes a buffer because it is full, in any interleaving |
| `TcpMessages.PacketsAreMessages` | src/sproto_tcp.c:241-284 | So over every run each packet of the ring is one whole message, its chunks joined, and says that nothing follows |
| `TcpMessages.RefusedAtStart` | src/sproto_tcp.c:253-271 | Room for a chunk is refused only where it would start a buffer |
| `MuxOverTcp.NextPieceFits` | src/smpegts.c:836-845 | The next piece of a frame always fits behind what is open of its datagram |
| `MuxOverTcp.MoveKeepsJoint` | src/sproto_tcp.c:200-474 | Every step of the multiplexer and of the two threads keeps the invariant of both: the buffer being filled holds what is open of the datagram, also when pieces are refused and connections lost |
| `MuxOverTcp.EveryPacketIsDatagram` | src/smpegts.c:836-997 | Frames pushed over the TCP sender, in any interleaving and with any refusals: when fillings end on a flush of the ring's unit, every packet of the ring is one datagram of floor(mtu/188) packets or the greeting, in the order in which the pieces taken completed them, and room is refused only to the first piece of a datagram |
| `Passthrough.LinkRing` | src/spassthrough.c:229-233 | The buffers become a ring in index order, and nothing else changes |
| `Passthrough.InputEnd.constructor` | src/spassthrough.c:482-493 | Started, all input buffers wait and the first is next |
| `Passthrough.InputEnd.Dequeue` | src/spassthrough.c:517-542 | Gives the next buffer with its flags if it is ready, and leaves the links intact |
| `Passthrough.InputEnd.Queue` | src/spassthrough.c:544-556 | Takes back a buffer that was given, refuses any other |
| `Passthrough.InputEnd.Show` | src/spassthrough.c:581-589 | Shows a frame to the input end if its next buffer waits |
| `Passthrough.OutputEnd.constructor` | src/spassthrough.c:473-506 | Started, no output buffer is in use |
| `Passthrough.OutputEnd.PassGate` | src/spassthrough.c:614-634 | The controls, the period and a shoot act on the mode bits and on nothing else |
| `Passthrough.OutputEnd.Last` | src/spassthrough.c:672-673 | The walk to the tail terminates, at the frame queued last |
| `Passthrough.OutputEnd.Append` | src/spassthrough.c:666-675 | The list from curbuffer through next, which is acyclic and exactly the fifo, grows by the buffer at its end |
| `Passthrough.OutputEnd.RemoveHead` | src/spassthrough.c:602-603 | The head leaves the list and its buffer is free |
| `Passthrough.OutputEnd.Queue` | src/spassthrough.c:612-682 | Keeps the list exactly the ready buffers in queue order; accepts a free buffer at the end and refuses any other, in both cases after the gate |
| `Passthrough.OutputEnd.Dequeue` | src/spassthrough.c:558-610 | Gives the head of the list, closing the gate after a shoot and showing the frame to the input end when the gate is open; what it does when that end has no buffer waiting |
| `Passthrough.QueueKeepsShape` | src/spassthrough.c:646-675 | The fifo stays exactly the set of ready buffers, each once |
| `Passthrough.DequeueKeepsShape` | src/spassthrough.c:558-610 | The same for dequeue; and the head of the fifo is ready |
| `Passthrough.EveryRunIsInOrder` | src/spassthrough.c:517-682 | Over any sequence of calls: output frames come back in the order accepted, with their flags; at most one input buffer is ready and it is the next; the frames shown come out there once, in order, with the flags of the output frames |
| `Passthrough.TakenInRingOrder` | src/spassthrough.c:229-233 | The k-th frame at the input end comes in buffer k modulo their number |
| `Passthrough.StepKeepsGate` | src/spassthrough.c:573-595 | Every call keeps: dry run or shooting is set, and frames shown plus the open gate do not exceed the shoots used |
| `Passthrough.FramesNeedShoots` | src/spassthrough.c:560-634 | Started in dry run, over any run the input end never sees more frames than shoots were used |
| `Passthrough.FramesArePeriodic` | src/spassthrough.c:619-634 | With a period of n and no other shoot, shoots are exactly one in n calls of queue, and frames shown are at most that |
| `Passthrough.ShootOpensGate` | src/spassthrough.c:614-634 | A call of queue uses a shoot if and only if the controls, an earlier call or the period ask for one, and then the gate is open |
| `Passthrough.ControlsAreTakenOver` | src/spassthrough.c:614-634 | A call of queue takes over all that the controls ask for and leaves nothing asked; with an input end no shoot is kept behind it |
| `Passthrough.ShootIsUsedOnce` | src/spassthrough.c:614-634 | A shoot asked for by a control is used by the next call of queue, and by no other call of any run in which the controls ask for nothing more |
| `Passthrough.EveryFramePasses` | src/spassthrough.c:558-610 | Without dry run, shoots and controls, over any run the k-th frame at the input end has the flags of the k-th frame accepted at the output end |
| `Passthrough.QueueAccepts` | src/spassthrough.c:646-675 | In terms of what was accepted and given back: a frame is accepted if and only if its buffer holds no frame that was not given back, whatever the gate does |
| `Passthrough.DequeueGives` | src/spassthrough.c:558-610 | The oldest frame held is given back unless the gate is open and the input end has no buffer waiting, and is shown exactly when it is given back through the open gate |
| `Passthrough.ShownIsTaken` | src/spassthrough.c:517-542 | A frame shown and not yet taken comes out at the input end, in its next buffer; otherwise nothing does |
| `Passthrough.AllFramesPass` | src/spassthrough.c:517-682 | With the gate open, any number of frames, each queued, dequeued, taken at the input end and its buffer given back there, are all accepted, all given back and all taken, with their flags and in order |
| `Passthrough.ShootIsUsedUp` | src/spassthrough.c:573-588 | A shoot is spent at the next dequeue of a frame, which is shown if and only if the input end has a buffer waiting; otherwise nothing is delivered |
| `Pipeline.TransferConserves` | src/fastvideo.c:148-183 | One hop between any two devices of the contract: nothing moves, or one buffer moves, or, only with a hard error of the second device, one buffer is held by neither |
| `Pipeline.TransferLeavesAlone` | src/fastvideo.c:148-183 | A hop leaves alone what all other devices hold |
| `Pipeline.Loop.TransferBuffer` | src/fastvideo.c:148-183 | The hop as programmed, with its result and error, and every buffer still held by exactly one end of its pipe, or lost |
| `Pipeline.Loop.Drain` | src/fastvideo.c:280-293 | Buffers go over one hop after the other until 16 did or a hop returns no 1, all from what the first end held; it stops exactly if that hop failed with a descriptor or an errno of 0; other pipes do not change; with a descriptor a buffer is lost only if the loop stops |
| `Pipeline.Loop.Forward` | src/fastvideo.c:269-295 | The pass from first to last pipe, up to the one that stops it: every pipe without a descriptor, or with one that is ready, is drained, every other is left as it is; every buffer stays in one place; if all ends have descriptors none is lost while the loop goes on |
| `Pipeline.Loop.Backward` | src/fastvideo.c:297-324 | The same for the pass from last to first pipe |
| `Pipeline.Loop.Run` | src/fastvideo.c:217-325 | Over any sequence of wakeups each is a pass forwards and one backwards, until one stops; no buffer is ever in two places, and while all ends have descriptors none is lost as long as the loop goes on |
| `Pipeline.Loop.ReadyPipeMoves` | src/fastvideo.c:277-292 | A buffer that can move does: when a pipe without a descriptor or with a ready one is done, the buffer that one end gave and the other took is over and stays there |
| `Pipeline.Loop.OnePipeMoves` | src/fastvideo.c:277-324 | So with one pipe in a whole pass, also in one that stops |
| `Pipeline.LostAndGoesOn` | src/fastvideo.c:284-288 | A hop loses a buffer and the loop goes on if and only if the second device fails with an error other than 0 and EAGAIN and the end looked at has no descriptor |
| `Pipeline.BufferVanishes` | src/fastvideo.c:169-175 | Two devices that keep the contract and lose a buffer this way |
| `PassthroughPipes.InputEndKeepsBooks` | src/spassthrough.c:517-556 | The input end of a passthrough keeps the contract of the transfer loop |
| `PassthroughPipes.OutputEndKeepsBooks` | src/spassthrough.c:558-682 | So does the output end, with any gate |
| `PassthroughPipes.EndsAreApart` | src/spassthrough.c:579-589 | Although the output end writes the state of the input end, neither changes what the other holds |
| `PassthroughPipes.InputEndTakesBack` | src/spassthrough.c:544-556 | A buffer just dequeued at the input end can be queued again after the other device refused it |
| `PassthroughPipes.OutputEndTakesBack` | src/spassthrough.c:612-682 | The same at the output end |
| `PassthroughPipes.PassthroughFits` | src/fastvideo.c:148-183 | For any camera and display of the contract, the two pipes over a passthrough meet all that the loop requires |
| `Agc.Controller.Agc` | utils/rpivc4_alg.c:122-214 | A frame moves counters, filter and gain as specified, and returns the command sent; the ratio must not be 0 only where the frame comes to the division |
| `Agc.Controller.Target` | utils/rpivc4_alg.c:148-178 | The measure is filtered and the target clamped; a region without pixels asks for the lowest gain and leaves the filter alone; which reading of the statistics is filtered is Agc.ReadingOfRegion |
| `Agc.ReadingOfRegion` | utils/rpivc4_alg.c:156-159 | As far as the numbers fit into 64 and 31 bits, the reading is the one number m with the sign of the ratio and |m| * |ratio| * counted <= sum < (|m| + 1) * |ratio| * counted, and for fewer than 100 pixels twice that |
| `Agc.ClampIsNearest` | utils/rpivc4_alg.c:174-178 | No gain in 13..1010 is nearer to what is clamped |
| `Agc.ZeroRatioSurvives` | utils/rpivc4_alg.c:155-157 | Over whole runs a ratio of 0 goes well if and only if, with any other ratio, no measured frame of the run has pixels in its region |
| `Agc.NextMeasureDivides` | utils/rpivc4_alg.c:122-157 | It goes well exactly until the next measure, if that frame has pixels in its region |
| `Agc.StepIsPart` | utils/rpivc4_alg.c:190-198 | A step has the sign of the error and is a third of it, towards zero, or 80 where that is more; it is at least 3 |
| `Agc.CommandApproaches` | utils/rpivc4_alg.c:174-213 | A command is sent exactly outside of the deadband; it brings the gain at least 3 nearer to its target without passing it, so that the clamps after the step do nothing; the gain stays in 13..1010 |
| `Agc.CommandsInRange` | utils/rpivc4_alg.c:183-207 | Over any run every command is in 13..1010 |
| `Agc.CommandsAreApart` | utils/rpivc4_alg.c:130-139 | Over any run two commands are at least 120 frames apart |
| `Agc.FramesAreMeasures` | utils/rpivc4_alg.c:130-139 | With constant statistics n frames are k measures, with n < 120*(k+1) |
| `Agc.OffShrinks` | utils/rpivc4_alg.c:161-169 | A measure of pixels takes exactly 15 percent off the distance of the filter from the reading, the first one all of it; one without pixels changes nothing |
| `Agc.FilterConverges` | utils/rpivc4_alg.c:161-171 | After 166 measures of one reading the filter is within half a unit of it, from any state |
| `Agc.TargetIsGoal` | utils/rpivc4_alg.c:171-178 | Then the target is the clamped reading, also below zero where the cast cuts towards zero |
| `Agc.FewCommands` | utils/rpivc4_alg.c:190-211 | Then at most 18 commands follow, and after 18 measures the error is at most 8 |
| `Agc.MeasuresSettle` | utils/rpivc4_alg.c:141-213 | After 184 measures of one region, from any state, the error is at most 8 and no command is sent |
| `Agc.ConstantReadingSettles` | utils/rpivc4_alg.c:122-214 | After 22200 frames with constant statistics, from any state, the gain is within 8 of the clamped reading and no command is sent, for good |
| `Agc.SettlesAtReading` | utils/rpivc4_alg.c:122-214 | In the statistics: that gain is within 8 of the mean of the pixels divided by the ratio, twice that for fewer than 100 pixels, clamped to 13..1010, and within 8 of 13 without pixels |
| `Tiles.Create` | src/stile.c:112-169 | The grid as computed in unsigned 32-bit arithmetic, or a rejection |
| `Tiles.GridFits` | src/stile.c:136-170 | Every accepted grid fits into the source, with margins that differ by at most one pixel per axis; its tiles have no width if and only if the source is one pixel wide and no width is asked for |
| `Tiles.GridIsFull` | src/stile.c:138-156 | No further column or row of the wanted tiles would fit, unless fewer tiles are wanted than there are in a row, which leaves one row of them |
| `Tiles.EveryPixelInOneTile` | src/stile.c:477-478 | Every pixel of the grid lies in exactly one tile: the tiles are disjoint and cover it |
| `Tiles.TileIsInside` | src/stile.c:477-478 | Every pixel of a tile lies inside the source |
| `Tiles.OffsetOfTile` | src/stile.c:477 | The byte offset of a tile, computed from a 32-bit stride and kept in 32 bits, is that of its left edge if and only if the tile is at the edge, or neither its row nor what is left of it needs more than 32 bits |
| `Tiles.RowIsInside` | src/stile.c:482-485 | No row of any tile is read outside of the frame, also where strides or offsets wrap around |
| `Tiles.RowIsOwn` | src/stile.c:429-430 | Behind the first row of the source, rows of tiles start in their own place if and only if a row of the source is shorter than 2^32 bytes |
| `Tiles.WideSource` | src/stile.c:429-430 | A source of two rows of 2^32 bytes is accepted, and its second row is copied from the first |
| `Tiles.PixelOfTile` | src/stile.c:477-487 | As far as the row of a tile reaches, each byte of a pixel is the one that far behind the start of the row; its place is the pixel's own if and only if a row of the source is shorter than 2^32 bytes, or, in the first row, the offset of the tile is right; with shorter rows every tile has all bytes of its pixels |
| `Tiles.PixelsOfTile` | src/stile.c:477-487 | With source rows shorter than 2^32 bytes a tile has height * width * bpp bytes, and byte (dy * width + dx) * bpp + b is byte ((yoff + ty * height + dy) * srcWidth + xoff + tx * width + dx) * bpp + b of the source |
| `Tiles.TileAt` | src/stile.c:482-487 | With any strides, byte k of row r of a tile is byte k from where that row starts in the source |
| `Tiles.TilesAreInOrder` | src/stile.c:466-468 | Tile ty * nx + tx of a frame is the one at (tx, ty) |
| `Tiles.Splitter.CopyTile` | src/stile.c:477-487 | A slot gets the rows of its tile one after the other; which bytes these are is Tiles.PixelsOfTile |
| `Tiles.Splitter.Store` | src/stile.c:490-501 | The next slot is filled behind the waiting tiles; the overrun clamp is never reached |
| `Tiles.Splitter.QueueFrame` | src/stile.c:460-506 | The tiles of a frame are stored in row and column order until the ring is full: all of them and success, or exactly as many as there is room for and EAGAIN |
| `Tiles.Splitter.Dequeue` | src/stile.c:536-555 | The tile that was stored first leaves first, with its bytes; what left is always a prefix of what was stored |
| `Tiles.ReadySlots` | src/stile.c:494-501 | The number of ready slots always equals the pending count |
| `RectLayout.FindSize` | utils/rectshm.c:55-77 | The size of a named control of a known type, or -1 |
| `RectLayout.SizesAgree` | src/segl_gles2.c:1051-1094 | For every entry with a name the client and the GPU process agree on the size, or that it has none |
| `RectLayout.ScanReadsNumber` | utils/rectshm.c:141 | A number written out in digits is read as that number, behind any white space and a sign, and whatever stands behind it |
| `RectLayout.RectHasIndex` | utils/rectshm.c:138-142 | The name vRects[n] gives the rectangle the index n |
| `RectLayout.InsertRect` | utils/rectshm.c:144-152 | Shifting in place inserts the rectangle behind all those of the same or a lower index |
| `RectLayout.Layout` | utils/rectshm.c:128-164 | The loop from the last entry to the first leaves the slots of the specification and the total size, or -1 if there is no slot |
| `RectLayout.SlotsAreTheFirst` | utils/rectshm.c:139-154 | The slots are a permutation of the first 32 rectangles met |
| `RectLayout.SlotsAreInPlace` | utils/rectshm.c:128-156 | They are sorted by index, then by offset, and their 16 bytes are disjoint and inside the total |
| `RectLayout.Load` | src/segl_gles2.c:1418-1432 | Each control that makes a uniform is put in front of the list: the list is the controls in reverse |
| `RectLayout.SizeOf` | src/segl_gles2.c:432-438 | The size asked for is the sum over the list |
| `RectLayout.Share` | src/segl_gles2.c:430-454 | Every uniform with a size gets a place behind those before it in the list, and is marked as shared |
| `RectLayout.PlaceInSharedMemory` | src/segl_gles2.c:443-453 | That place is the size of all entries that follow its own in the array |
| `RectLayout.RectanglesAgree` | utils/rectshm.c:129-156 | Each rectangle lies where the GPU process reads it if and only if every sized entry behind it has a string for a name |
| `RectLayout.TotalsAgree` | utils/rectshm.c:164 | Both ask for the same size if and only if every sized entry has a string for a name |
| `EntityList.Append` | src/sfastvideo.c:16-30 | A new head in front of a well-formed list gives a well-formed list, with the iterator nowhere |
| `EntityList.Insert` | src/sfastvideo.c:32-48 | A new node at the end of a well-formed list gives a well-formed list with the same head and iterator |
| `EntityList.Build` | src/sfastvideo.c:16-48 | Any sequence of both, from the empty list, gives a well-formed list of the abstract sequence |
| `EntityList.OrderOfList` | src/sfastvideo.c:16-48 | That sequence is what was appended, the last one first, followed by what was inserted |
| `EntityList.Reset` | src/sfastvideo.c:98-102 | The iterator is nowhere |
| `EntityList.First` | src/sfastvideo.c:112-117 | The iterator is at the head |
| `EntityList.Last` | src/sfastvideo.c:104-110 | The iterator is at the last node |
| `EntityList.Up` | src/sfastvideo.c:126-137 | The iterator moves one place on, as on the abstract sequence, and its node is returned |
| `EntityList.Down` | src/sfastvideo.c:139-150 | The iterator moves one place back, and its node is returned |
| `EntityList.Next` | src/sfastvideo.c:178-195 | The same place as up, and the entity there |
| `EntityList.Previous` | src/sfastvideo.c:197-214 | The same place as down, and the entity there |
| `EntityList.UpAndDown` | src/sfastvideo.c:126-150 | Down undoes up and up undoes down, also around the ends |
| `EntityList.WalkVisits` | src/sfastvideo.c:178-195 | From any place a walk visits every entity behind the iterator once and in order, then returns nothing, then is ready to start again |
| `EntityList.WalkVisitsAll` | src/sfastvideo.c:178-195 | From a reset list that is every entity |
| `EntityList.WalkAfterFirst` | src/sfastvideo.c:112-117 | After first, it leaves the first entity out |
| `EntityList.Destroy` | src/sfastvideo.c:216-229 | Each node is visited and freed exactly once, from last to first, and no node is read or freed again after it was freed |
| `BayerConvert.PortableSample` | src/sconvert_BG10toR16.c:125-127 | The 32-bit arithmetic of a sample never overflows and is min(65535, (s*c+128)/256) |
| `BayerConvert.ConvertGroup` | src/sconvert_BG10toR16.c:123-128 | Four samples of a line, with the coefficients by column parity |
| `BayerConvert.ConvertLine` | src/sconvert_BG10toR16.c:116-131 | Every sample of a line is converted by that formula with the coefficient of its column parity; nothing else is written |
| `BayerConvert.Converter.constructor` | src/sconvert_BG10toR16.c:44-79 | The coefficient of a row and column parity is 32 exactly where the pattern of the format has green |
| `BayerConvert.Converter.Convert` | src/sconvert_BG10toR16.c:81-95 | Every row of a frame is converted in place of its own, with the coefficients of its row parity, for every even stride, also where the groups of a line run into the next one |
| `BayerConvert.RowsAreWhole` | src/sconvert_BG10toR16.c:81-95 | The rows converted are all the whole rows of the frame |
| `BayerConvert.OnlyGreenIsKept` | src/sconvert_BG10toR16.c:74-77 | So the green samples are divided by eight and rounded, and all others are zero |
| `BayerConvert.BlockAt` | src/sconvert_BG10toR16_armv8.c:17-27 | Taking sixteen samples apart by four, multiplying by lanes, narrowing and putting together again gives in each place the narrowed product of that sample with the coefficient of its column |
| `BayerConvert.VectorLine` | src/sconvert_BG10toR16_armv8.c:14-32 | The vector loop does this for a whole line, sixteen samples a turn, for every size that is a positive multiple of 32 bytes |
| `BayerConvert.WordsAreExact` | src/sconvert_BG10toR16_armv8.c:23-26 | The narrowing of 32-bit elements is the portable formula |
| `BayerConvert.VectorEqualsPortable` | src/sconvert_BG10toR16_armv8.c:14-32 | The ARMv8 loop and the portable loop write the same samples |
| `BayerConvert.HalvesAreExact` | src/sconvert_BG10toR16_armv7.c:22-25 | The narrowing of 16-bit elements gives the portable result if and only if the product is below 0xff80, or saturates in both halves |
| `BayerConvert.HalvesOfGreen` | src/sconvert_BG10toR16_armv7.c:22-25 | For the coefficients of the formats that is: if and only if the green sample is below 2044 |
| `BayerConvert.HalvesEqualPortable` | src/sconvert_BG10toR16_armv7.c:13-31 | The ARMv7 loop writes the same line as the portable loop if and only if all products are of that kind |

## Left out

- Multiplexer.Sender.PushData: the KLV packet is a given value of 188 bytes, which Klv.Metadata.Push builds; random access is an input, as the keyframe flag and the period counter only decide it.
- Datagrams.Transport.Send: a piece is taken whole or refused, as the TCP and UDP transports do, and a refusal lasts for the rest of the frame; the next call of PushData may find any budget.
- Klv.Metadata.Push: the clock is an input, and the key is 16 given bytes.
- Multiplexer.Sender.FillData: null packets keep the bytes the code gives them, whose fourth one is not a legal header; nothing is claimed about it.
- TsPacket.TimeStampReadsBack: only the time stamp bits of a PES header are read back, not the prefix of PTS and DTS, which the code sets to one value.
- Reception.LowerPcrIsAnnounced: PCRs whose sum with 90 wraps around 2^32 are left out, as they are compared after the wrap.
- SmoothClock.SettlesWithin: that the timeline is settled at every frame from the 401st on needs a clock that never reads 0 (SmoothClock.SettledStays has the exact condition); that it settles does not (SmoothClock.EventuallySettles).
- SmoothClock.Smoother.Smooth: how the clock is read and turned into ticks is an input.
- TcpRing.EveryRunIsSafe: the threads are steps on values, not objects; there is one producer; the mutex is modelled by which steps it excludes; what each client receives and the sockets are not modelled; the greeting is any bytes.
- MuxOverTcp.EveryPacketIsDatagram: connections are opened and closed by the multiplexer between frames, and by the ring itself at an error; the tables, stamps and counters of each frame are arbitrary, which includes those of every run.
- TcpRing.SenderDrains: progress is claimed for the sender running alone; fairness of the scheduler is not modelled.
- Passthrough.OutputEnd.Queue: memory, sizes and the copy into the buffer of the input end are not modelled, since the copy goes to the buffer that is next when the frame is queued; the tee branch and event descriptors are left out.
- Passthrough.OutputEnd.Dequeue: the tee branch, which passes the call on to another device, and scaled sizes are left out.
- Passthrough.EveryRunIsInOrder: the device is started, and its buffers are given.
- Pipeline.Loop.Run: select is the sequence of events it reports; the frame counter, start and stop of devices are left out.
- Pipeline.Loop.TransferBuffer: frame contents, sizes and flags of the buffers are not modelled, only who holds them.
- Agc.Controller.Target: the filter is a real number, not a float; signed overflow, undefined in C, wraps around; a division by a ratio of 0 is undefined, and excluded only where it is reached.
- Tiles.Splitter.CopyTile: rows are copied unchanged, as the default converter does; the strides, which the code computes on the other half of the device, are those of the source and the tile.
- Tiles.Splitter.QueueFrame: the half of the device that gives source buffers back, and memory synchronisation, are not modelled; frames are as long as the source format says.
- RectLayout.Layout: the search for the device and the program in the configuration is left out; numbers that do not fit in an int, undefined for the scan, are not cut.
- RectLayout.Share: creating the shared memory succeeds or fails as an input.
- EntityList.Next: an entity that is a null pointer cannot be told from the end of the list in C; here it can.
- EntityList.Destroy: push, pop and poplast do not keep the list well formed and are not modelled.
- BayerConvert.Converter.Convert: strides are even, as places are samples and not bytes, and the buffers hold the last group of four samples, which the code reads and writes whole; with the converters in assembler, which return 0, all lines of a frame land on the first one, so only the portable one is put into frames.
- BayerConvert.VectorLine: sizes are positive multiples of 32 bytes below 2^32, as the loop counts on.
- Everything that is ioctl, V4L2, DRM, EGL, Wayland, X11, media libraries, JSON loading, daemons, sockets and files.
- Fourcc and bus code tables, configuration merging and logging, which would only add easy members.
