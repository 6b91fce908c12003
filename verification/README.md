# AisStore, verified

AisStore is a time-series store for AIS packets, the radio messages in which ships report who and where they are. A
stream of packets is written to several index tables, backed up to files and replayed when the database fails, and
read back by time, by ship (MMSI) or by area. This project models the parts of it whose correctness is hard to see,
and proves what they promise. `dafny verify dfyconfig.toml` checks all of it.

Instants are milliseconds since the epoch. The store is one map from primary key to raw message, written by upserts.
The code that updates fields, lists and files in place is modelled by classes and methods with loops; each is proved
against a specification function or predicate, and the properties are lemmas about that.

**Ingest** (`AisStoreSchema`, `AisPackets`, `Tables`, `PositionTracking`, `OnlineWriter`, `BulkWriters`, `FiledRows`,
`Agreement`, `Replay`). The online writer fills every table in one pass; the bulk converter makes a pass for each
table, each area pass with its own tracker. A run is a sequence of events: a packet arrives, or the tracker's cache
drops entries. The digest and the grid are parameters. Where stated, it is assumed that the digest tells the packets
of a run apart (`Faithful`) and that a reported position is valid (`ReportsValidPosition`).

**The archiver** (`Archiver`, `ArchiverSafety`, `ArchiverRuns`, `ArchiverFlow`, `ArchiverProgress`, `StagedWriter`).
Receiving threads, the batch writer, the backup service and the file importer are a state machine whose steps
interleave in any order. A packet that a full write queue turned away is held between the two offers, as other threads
may run there. The process may be shut down at any moment and started again. Of a batch that fails the database may
have written any part. `StagedWriter` has the batch code itself, and ties it to the protocol.

**Queries** (`PartitionReads`, `AisStoreQuery`, `Merging`, `AisStoreQueryResult`, `AisStoreQueryBuilder`,
`WriteThenQuery`, `ReadBack`, `CassandraStats`, `IntervalEnds`). The store is assumed to answer a select over a list
of time blocks partition by partition in list order, each sorted by time and digest, and rows to arrive in pages of
any size. `Iterators.combine` is modelled as the priority-queue merge it is said to be: it takes a row from any
sub-query whose next row is earliest, and asks that sub-query for its next one at once.

**Resumable download** (`FileExportRest`, `Resuming`, `Sessions`, `CheckpointLimits`). A run is a function of the disk
it finds and of the server's packets, which come in order of time; a crash cuts it off anywhere and keeps what was
flushed and any prefix of the rest.

**Positions** (`Decimals`, `Positions`, `PositionTexts`). Degrees and minutes are formatted and parsed character by
character, over exact numbers.

## What the code does that its documentation does not say

- Intervals of queries are documented as including the start (`AisStoreQuery.java:77-81`), but the select asks for times
  greater than it. A packet at exactly the start is never found, while `CassandraStats` counts it. The model follows the
  code; `IntervalEnds` says exactly when the documented answer is right, and by how much the two readers differ.
- The online and the bulk writers differ on packets without a positive time and on an MMSI of zero or less; `Agreement`
  has the exact condition.
- Replaying a backup is harmless to packets_time and packets_mmsi. It can file a packet without a position of its own
  under a second cell, because its ship has moved on in the tracker; `Replay.ReplayKeepsCellsIff` says exactly when.
- The switch for the 10-degree table is off, so the online writer never fills it; a query may still be told to read it.
- A query without sub-queries never completes its future, and one with a fetch size below one delivers nothing.
- A download skips a checkpoint for a packet of time zero, as zero also means that nothing was flushed yet.
- A resumed download skips the packets that share the time of its last checkpoint, also those it has not written yet;
  `CheckpointLimits.NothingIsLostExactly` says which streams lose packets by that.
- A chunk size below one makes the packet count of `CassandraStats` throw.

## Model

| member | source | states |
|---|---|---|
| AisStoreSchema.TimeBlocks | ais-store-common/src/main/java/dk/dma/ais/store/AisStoreSchema.java:122-131 | The loop lists the consecutive blocks from that of the start to that of the stop (a stop in the very last block apart, see below), and throws (None) when either does not fit an int or the list would have a negative capacity |
| AisStoreSchema.BlockMonotone | ais-store-common/src/main/java/dk/dma/ais/store/AisStoreSchema.java:104-137 | A later instant is never in an earlier block, on both sides of the epoch and across it, although the division rounds toward zero |
| AisStoreSchema.TenMinuteRange | ais-store-common/src/main/java/dk/dma/ais/store/AisStoreSchema.java:104-120 | For packets_time and the cell tables timeBlock answers exactly for the instants from -2147483649 * 600000 + 1000 up to 2147483648 * 600000, and throws for all others; the answer is the block of 600000 milliseconds that holds the instant |
| AisStoreSchema.ThirtyDayRange | ais-store-common/src/main/java/dk/dma/ais/store/AisStoreSchema.java:104-120 | The same for packets_mmsi and packets_area_unknown with 2592000000 milliseconds |
| AisStoreSchema.TenMinuteBlock | ais-store-common/src/main/java/dk/dma/ais/store/AisStoreSchema.java:135-137 | Exactly which instants make up a ten-minute block: the blocks before and after the epoch are all 600000 milliseconds wide, block zero reaches almost that far to both sides |
| AisStoreSchema.ThirtyDayBlock | ais-store-common/src/main/java/dk/dma/ais/store/AisStoreSchema.java:135-137 | The same for blocks of 2592000000 milliseconds |
| AisStoreSchema.BlockExample | ais-store-common/src/main/java/dk/dma/ais/store/AisStoreSchema.java:104-120 | The first instant of 2015 is in ten-minute block 2366784 and thirty-day block 547 |
| AisStoreSchema.BlockListCovers | ais-store-common/src/main/java/dk/dma/ais/store/AisStoreSchema.java:122-131 | For start <= stop the list starts and ends with the blocks of the two ends, has no gap, and holds the block of every instant in between |
| AisStoreSchema.ReversedBlockList | ais-store-common/src/main/java/dk/dma/ais/store/AisStoreSchema.java:122-131 | What is listed, if anything, when the start lies after the stop |
| Tables.ApplyOfTable | aisdata-schema.cql:7-79 | What a table holds after any mixed list of upserts depends on that table's own upserts alone: the tables do not interfere |
| Tables.ApplyKeys | aisdata-schema.cql:7-79 | A primary key is stored exactly when it was stored before or some insert has it |
| Tables.ApplyValue | aisdata-schema.cql:7-79 | A stored row has the text of the last insert with its key, or is untouched if there is none |
| Tables.AnySelectionCanBePicked | ais-store-common/src/main/java/dk/dma/ais/store/write/CassandraBatchedStagedWriter.java:91-110 | A batch that fails may have had any of its statements executed, in any order |
| PositionTracking.TrackerHoldsLatest | ais-store-common/src/main/java/dk/dma/ais/store/write/DefaultAisStoreWriter.java:168-188 | After any run, with or without expiry, an MMSI is tracked exactly when it has reported since its entry was last dropped, and then with the report of greatest time, the later arrival among equals |
| PositionTracking.TrackerNeverMovesBack | ais-store-common/src/main/java/dk/dma/ais/store/importer/PositionTrackingSSTableWriter.java:54-75 | Unless the entry expires, the tracked time of an MMSI never moves back, however old the replayed packets are |
| PositionTracking.TrackerIgnoresOrder | ais-store-common/src/main/java/dk/dma/ais/store/importer/PositionTrackingSSTableWriter.java:66-71 | Any permutation of a stream leaves the same tracker when the reports of an MMSI have distinct times and nothing expires |
| OnlineWriter.DefaultAisStoreWriter.HandleMessage | ais-store-common/src/main/java/dk/dma/ais/store/write/DefaultAisStoreWriter.java:81-111 | Appends the packet's rows for all tables, filed by the position the tracker gave before the packet updated it; throws exactly when a needed time block does not fit an int, and then appends nothing |
| OnlineWriter.DefaultAisStoreWriter.StoreByArea | ais-store-common/src/main/java/dk/dma/ais/store/write/DefaultAisStoreWriter.java:114-145 | Without a position the row goes to packets_area_unknown under the MMSI; with one to packets_area_cell1 and, when switched on, packets_area_cell10 |
| OnlineWriter.DefaultAisStoreWriter.Store | ais-store-common/src/main/java/dk/dma/ais/store/write/DefaultAisStoreWriter.java:148-166 | One row under the block of the packet's time, or none and an exception when that block does not fit an int |
| OnlineWriter.DefaultAisStoreWriter.GetPosition | ais-store-common/src/main/java/dk/dma/ais/store/write/DefaultAisStoreWriter.java:168-188 | The packet's own position, else the one tracked for its MMSI; the tracker keeps the better of the old and the new report |
| OnlineWriter.ShortBlocksOverflowFirst | ais-store-common/src/main/java/dk/dma/ais/store/AisStoreSchema.java:104-120 | An instant whose ten-minute block fits an int has a thirty-day block that fits, so handling a packet throws before its first row or not at all |
| FiledRows.HandledExactly | ais-store-common/src/main/java/dk/dma/ais/store/write/DefaultAisStoreWriter.java:102-110 | Handling a packet throws exactly if its time is positive and past the last ten-minute block, or its user id is positive and its time outside the thirty-day blocks |
| FiledRows.OnlineByTime | ais-store-common/src/main/java/dk/dma/ais/store/write/DefaultAisStoreWriter.java:158-166 | The one statement of a packet for packets_time, written out: for every handled packet of a positive time |
| FiledRows.OnlineByMmsi | ais-store-common/src/main/java/dk/dma/ais/store/write/DefaultAisStoreWriter.java:147-156 | The one statement of a packet for packets_mmsi, written out: under its own user id, if that is above zero |
| FiledRows.OnlineByUnknown | ais-store-common/src/main/java/dk/dma/ais/store/write/DefaultAisStoreWriter.java:115-123 | The one statement for packets_area_unknown: under the own user id, if there is no position, its own or a tracked one |
| FiledRows.OnlineByCell | ais-store-common/src/main/java/dk/dma/ais/store/write/DefaultAisStoreWriter.java:124-144 | The one statement for each cell table: under the cell of its own position, else of the one tracked for its user id |
| FiledRows.LeavesExactly | ais-store-common/src/main/java/dk/dma/ais/store/write/DefaultAisStoreWriter.java:102-110 | What a packet leaves whatever was tracked, written out as keys |
| BulkWriters.SSTableWriter.Accept | ais-store-common/src/main/java/dk/dma/ais/store/importer/PacketsAreaUnknownSSTableWriter.java:72-111 | What each of the five writers adds for a packet, which of them track positions, and exactly when one throws |
| BulkWriters.SSTableWriter.WriteByMmsi | ais-store-common/src/main/java/dk/dma/ais/store/importer/PacketsMmsiSSTableWriter.java:70-95 | A row under the MMSI of a decodable packet with a positive time and an MMSI of zero or more, and otherwise none |
| BulkWriters.SSTableWriter.WritePacket | ais-store-common/src/main/java/dk/dma/ais/store/importer/PacketsAreaCell1SSTableWriter.java:91-105 | A row for a positive time, none for another, an exception only when the block does not fit |
| BulkWriters.SSTableWriter.GetTargetPosition | ais-store-common/src/main/java/dk/dma/ais/store/importer/PositionTrackingSSTableWriter.java:54-75 | The position and the tracker are those of the online writer's lookup |
| BulkWriters.StreamAllAisPacketsTo | ais-store-cli/src/main/java/dk/dma/ais/store/FileSSTableConverter.java:119-152 | One full pass fills the writer with exactly the rows of its table, its own tracker having followed the whole stream |
| BulkWriters.Convert | ais-store-cli/src/main/java/dk/dma/ais/store/FileSSTableConverter.java:95-112 | After the five passes every table holds the rows of its own pass and nothing else |
| BulkWriters.BulkStaysInTable | ais-store-cli/src/main/java/dk/dma/ais/store/FileSSTableConverter.java:95-112 | A writer's pass yields rows of its own table only |
| FiledRows.BulkByTime | ais-store-common/src/main/java/dk/dma/ais/store/importer/PacketsTimeSSTableWriter.java:68-83 | The one row of a packet from the time writer, written out |
| FiledRows.BulkByMmsi | ais-store-common/src/main/java/dk/dma/ais/store/importer/PacketsMmsiSSTableWriter.java:70-95 | The one row of a packet from the MMSI writer: under its own user id, if that is zero or more and the time positive |
| FiledRows.BulkByUnknown | ais-store-common/src/main/java/dk/dma/ais/store/importer/PacketsAreaUnknownSSTableWriter.java:72-111 | The one row of a packet from the writer for unknown areas: if it has no valid position, its own or a tracked one |
| FiledRows.BulkByCell | ais-store-common/src/main/java/dk/dma/ais/store/importer/PacketsAreaCell1SSTableWriter.java:76-105 | The one row of a packet from either cell writer: under the cell of its valid position, its own or a tracked one |
| Agreement.SameRowsExactlyWhenGuardsAgree | ais-store-cli/src/main/java/dk/dma/ais/store/FileSSTableConverter.java:95-112 | The main result on ingest: five passes with separate trackers leave the same rows as one online pass if and only if the guards of both take every packet the same way; for all streams, with expiry, for every table both fill |
| Agreement.PassesAgree | ais-store-common/src/main/java/dk/dma/ais/store/write/DefaultAisStoreWriter.java:81-188 | Where the guards agree, the inserts are the same table by table and in the same order, so the loops may be interchanged |
| Agreement.PassesAgreeWhateverExpires | ais-store-common/src/main/java/dk/dma/ais/store/importer/PacketsMmsiSSTableWriter.java:70-95 | For packets_time and packets_mmsi the passes agree even if tracker entries expire at other moments in each pass |
| Agreement.DisagreementShows | ais-store-common/src/main/java/dk/dma/ais/store/importer/PacketsMmsiSSTableWriter.java:70-95 | Wherever the guards differ on a packet (a time at or before the epoch, an MMSI of zero or less, an overflowing block) some row is in one store and not in the other |
| Agreement.OrdinaryStreamsAgree | ais-store-common/src/main/java/dk/dma/ais/store/write/DefaultAisStoreWriter.java:81-145 | The promise on ordinary streams: positive times up to the last block and a user id above zero whenever a message decodes make packets_time, packets_mmsi, packets_area_cell1 and packets_area_unknown identical, and packets_area_cell10 if the online writer fills it |
| Agreement.StatementsOfTable | ais-store-common/src/main/java/dk/dma/ais/store/write/DefaultAisStoreWriter.java:102-110 | A packet has at most one row in each table, and none at all when its handling throws |
| Agreement.OneAreaRow | ais-store-common/src/main/java/dk/dma/ais/store/write/DefaultAisStoreWriter.java:95-145 | An eligible packet is filed under the cell of its own position, else of the position tracked for its MMSI, else as unknown, and never in both tables |
| Agreement.AreaRowsAddUp | ais-store-common/src/main/java/dk/dma/ais/store/write/DefaultAisStoreWriter.java:95-145 | Over any run, with or without expiry, the inserts into packets_area_cell1 and packets_area_unknown add up to the eligible packets |
| Agreement.TrackedPositionsAreValid | ais-store-common/src/main/java/dk/dma/ais/store/importer/PositionTrackingSSTableWriter.java:77-79 | Tracked positions are valid, so the bulk writers' extra validity check never decides |
| Replay.OnlineHolds | ais-store-common/src/main/java/dk/dma/ais/store/write/DefaultAisStoreWriter.java:148-166 | Every row has the text of a handled packet with its digest; packets_time and packets_mmsi hold a row for each handled packet that is due one, and no other row; and a packet with its own position has its row under its own cell |
| Replay.ContentsAreDetermined | aisdata-schema.cql:7-28 | Two stores that hold the rows of the same packets are equal in packets_time and packets_mmsi |
| Replay.RepetitionIsHarmless | aisdata-schema.cql:7-28 | Reordering, repeating and expiry leave packets_time and packets_mmsi unchanged |
| Replay.ReplayKeepsCellsIff | aisdata-schema.cql:36-43 | packets_area_cell1 is different: handling a packet again leaves it unchanged if and only if the packet was filed before under the cell of the position it has now |
| Replay.ReplayMovesExample | ais-store-common/src/main/java/dk/dma/ais/store/write/DefaultAisStoreWriter.java:178-184 | A run of three packets after which repeating the one without a position files it under a second cell |
| Replay.RowTextIsPackets | ais-store-common/src/main/java/dk/dma/ais/store/write/DefaultAisStoreWriter.java:114-166 | The row under a packet's key holds that packet's raw message, whatever was written later |
| StagedWriter.CassandraBatchedStagedWriter.HandleMessages | ais-store-common/src/main/java/dk/dma/ais/store/write/CassandraBatchedStagedWriter.java:72-117 | The whole effect of a batch for each outcome: all rows on success, none on a validation error, which drops the batch, and any of them on any other failure, which hands the batch to the backup queue in order; the tracker moves on in all three |
| StagedWriter.CassandraBatchedStagedWriter.PrepareBatch | ais-store-common/src/main/java/dk/dma/ais/store/write/CassandraBatchedStagedWriter.java:75-82 | The statements of all messages in order, those that throw left out, with the tracker carried from one to the next |
| StagedWriter.CassandraBatchedStagedWriter.OnFailure | ais-store-cli/src/main/java/dk/dma/ais/store/Archiver.java:88-95 | The longest prefix the backup queue has room for is saved, and exactly the rest is reported lost |
| StagedWriter.BackupQueue.Offer | ais-store-cli/src/main/java/dk/dma/ais/store/Archiver.java:91 | The offer is refused, changing nothing, exactly when the queue is full |
| StagedWriter.PrepareContinuesPass | ais-store-common/src/main/java/dk/dma/ais/store/write/CassandraBatchedStagedWriter.java:75-82 | Batch boundaries do not show: tracker and statements are those of one pass over everything that arrived |
| StagedWriter.BatchRefinesProtocol | ais-store-common/src/main/java/dk/dma/ais/store/write/CassandraBatchedStagedWriter.java:72-117 | The batch code refines the archiver protocol: from any reachable state an undisturbed batch is a run of protocol steps with the same tracker, rows and backup queue, and with exactly the messages lost that are in neither |
| ArchiverSafety.StepKeepsInv | ais-store-cli/src/main/java/dk/dma/ais/store/Archiver.java:86-109 | Every step of every thread keeps the invariant: nothing unaccounted for, restored items copied elsewhere, rows matching the stored items and otherwise those of failed batches, files and items numbered apart, queue within its capacity |
| ArchiverSafety.ItemStays | ais-store-cli/src/main/java/dk/dma/ais/store/FileImportService.java:115-143 | No step takes away the last copy of an item; a deletion is excepted only for the file being restored |
| ArchiverSafety.RunKeepsInv | ais-store-cli/src/main/java/dk/dma/ais/store/Archiver.java:86-109 | The invariant holds in every reachable state of every interleaving, shutdowns and restarts included |
| ArchiverRuns.NothingVanishes | ais-store-common/src/main/java/dk/dma/ais/store/write/CassandraBatchedStagedWriter.java:72-117 | In every interleaving a received packet is in the write queue, in the batch in flight, stored (in a batch that succeeded and without throwing; it leaves no row if it has neither a positive time nor a positive MMSI), on its way to the backup queue, in a backup or unreadable file, or in the set of losses |
| ArchiverRuns.LossHasCause | ais-store-cli/src/main/java/dk/dma/ais/store/Archiver.java:91-92 | Every loss happened at some step of the run, and that step was a refused backup offer, a validation error or a message that throws |
| ArchiverRuns.DeleteFollowsFullReplay | ais-store-cli/src/main/java/dk/dma/ais/store/FileImportService.java:115-143 | A backup file is deleted only after all its packets entered the write queue, in file order, and no other file goes with it |
| ArchiverRuns.AcceptedIsPrefix | ais-store-cli/src/main/java/dk/dma/ais/store/FileImportService.java:119-135 | At every moment of a restore the packets accepted so far are exactly the part of the file that has been read |
| ArchiverRuns.CutShortIsReadAgain | ais-store-cli/src/main/java/dk/dma/ais/store/FileImportService.java:119-134 | After a restart every backup file that a cut-short restore left behind can be opened, and is read from its beginning |
| ArchiverRuns.QueueStaysBounded | ais-store-cli/src/main/java/dk/dma/ais/store/FileImportService.java:121-131 | The write queue never exceeds 100000 packets nor a hundred batches; right after a restored packet enters it holds at most 10 * batchSize + 1 packets besides the live ones accepted since the importer looked |
| ArchiverRuns.RowsAreBetween | ais-store-cli/src/main/java/dk/dma/ais/store/FileImportService.java:54-113 | Whatever failed, was restored partly or repeatedly, or was shut down and restarted, packets_time and packets_mmsi hold what one pass over the stored packets writes, and beside that only rows of batches that failed half-written |
| ArchiverRuns.RowsAreOfStoredPackets | ais-store-common/src/main/java/dk/dma/ais/store/write/CassandraBatchedStagedWriter.java:107-110 | They hold exactly that once every half-written batch has been stored by a replay |
| ArchiverRuns.AsIfWrittenOnce | ais-store-cli/src/main/java/dk/dma/ais/store/FileImportService.java:115-143 | At rest and without a loss, the contents are those of writing each received packet once; covers restores cut short by a shutdown, restarts and full replays, and half-written batches |
| ArchiverRuns.OwnCellIsKept | ais-store-common/src/main/java/dk/dma/ais/store/write/DefaultAisStoreWriter.java:113-132 | Whatever was replayed, expired or restarted, a stored packet with its own position has its row, with its own text, in packets_area_cell1 under its own cell; at rest and without a loss so has every received one |
| ArchiverFlow.ReceptionOffers | ais-store-cli/src/main/java/dk/dma/ais/store/Archiver.java:102-109 | A live packet goes to the end of the write queue; only if that is full it is held for the backup queue |
| ArchiverFlow.OverflowHasCause | ais-store-cli/src/main/java/dk/dma/ais/store/Archiver.java:102-109 | No other step puts a packet aside for the backup queue |
| ArchiverFlow.BackupHasCause | ais-store-cli/src/main/java/dk/dma/ais/store/Archiver.java:88-109 | In every run, whatever is in the backup queue or a backup file was received at a step at which the write queue was full, or was in a batch at the step at which that failed |
| ArchiverFlow.QueueIsFifo | ais-store-common/src/main/java/dk/dma/ais/store/write/CassandraBatchedStagedWriter.java:64-76 | In every run, all that ever entered the write queue is what was taken in batches followed by what still waits: in order, nothing twice and nothing missing |
| ArchiverFlow.BackupIsFifo | ais-store-cli/src/main/java/dk/dma/ais/store/Archiver.java:78-80 | In every run, all that was ever saved is in the closed files, the open file and the backup queue, in the order of saving, nothing twice and nothing missing |
| ArchiverFlow.TrackerOfRun | ais-store-common/src/main/java/dk/dma/ais/store/write/DefaultAisStoreWriter.java:168-188 | In every run the tracker is that of one pass over the packets handled, whatever the batches and their outcomes |
| ArchiverFlow.ImporterGoesOn | ais-store-cli/src/main/java/dk/dma/ais/store/FileImportService.java:65-103 | Exactly when the importer scans, opens a file and goes on after one |
| ArchiverFlow.ImporterReads | ais-store-cli/src/main/java/dk/dma/ais/store/FileImportService.java:119-142 | Exactly when, within a file, it offers a packet, stops and deletes the file |
| ArchiverFlow.WriterGoesOn | ais-store-common/src/main/java/dk/dma/ais/store/write/CassandraBatchedStagedWriter.java:72-117 | Exactly when a batch may be taken, and sent with any of the three outcomes |
| ArchiverProgress.EverythingCanBeStored | ais-store-cli/src/main/java/dk/dma/ais/store/FileImportService.java:54-143 | Nothing gets stuck: every run can go on, through restarts and restores, without losing more than messages that throw, until each packet received in it is stored, lost, or in an unreadable file |
| ArchiverProgress.RestoreAll | ais-store-cli/src/main/java/dk/dma/ais/store/FileImportService.java:75-105 | A scanning importer can restore and delete all backup files |
| PartitionReads.OrderedIsUnique | aisdata-schema.cql:7-13 | A set of rows has only one listing by time and digest |
| PartitionReads.SelectIsOrdered | ais-store-common/src/main/java/dk/dma/ais/store/AisStoreQuery.java:199-218 | Partitions read block after block come out in time order, and hold exactly what is filed under those blocks |
| PartitionReads.SelectIsScan | ais-store-common/src/main/java/dk/dma/ais/store/AisStoreQuery.java:196-218 | The blocks of the interval are enough: the indexed read equals a scan of the whole table with start < time < stop, sorted |
| AisStoreQuery.Execute | ais-store-common/src/main/java/dk/dma/ais/store/AisStoreQuery.java:196-227 | The answer is the sorted scan with start < time < stop, both ends excluded; it throws exactly when the block list does |
| AisStoreQuery.ScanInReach | ais-store-common/src/main/java/dk/dma/ais/store/AisStoreQueryBuilder.java:99-101 | Every time in the answer lies in a block no later than the last row, so the row guard of the loop cannot end the iteration early |
| AisStoreQuery.AisStoreQuery.constructor | ais-store-common/src/main/java/dk/dma/ais/store/AisStoreQuery.java:119-135 | The iterator is registered with the context, and owes its whole answer (nothing when it takes less than one row at a time) |
| AisStoreQuery.AisStoreQuery.ComputeNext | ais-store-common/src/main/java/dk/dma/ais/store/AisStoreQuery.java:145-193 | For any page size and any schedule of fetches the next row owed is delivered, exactly once and in order; the end is reported exactly when none is owed, and completes the future if it is the last and that was not cancelled |
| AisStoreQuery.AisStoreQuery.ReceiveRows | ais-store-common/src/main/java/dk/dma/ais/store/AisStoreQuery.java:150-168 | Buffered and unread rows together stay the same sequence; rows are received if there are any and the limit allows one |
| AisStoreQuery.AisStoreQueryInnerContext.Finished | ais-store-common/src/main/java/dk/dma/ais/store/AisStoreQueryInnerContext.java:50-58 | The future completes when the last registered query reports its end, unless it was completed or cancelled before |
| Merging.MergeStep | ais-store-common/src/main/java/dk/dma/ais/store/AisStoreQueryBuilder.java:89-93 | Delivering an earliest head keeps the delivered rows sorted, complete and no later than anything still to come |
| Merging.AllDelivered | ais-store-common/src/main/java/dk/dma/ais/store/AisStoreQueryResult.java:101-105 | When nothing is pending, the delivered rows are sorted by time and are the sum of the sub-queries' rows |
| AisStoreQueryResult.AisStoreQueryResult.Iterator | ais-store-common/src/main/java/dk/dma/ais/store/AisStoreQueryResult.java:95-110 | Asking again returns the same iteration; the first time, several sub-queries are each asked for their first row, and then the future is done exactly when all have ended |
| AisStoreQueryResult.AisStoreQueryResult.HasNext | ais-store-common/src/main/java/dk/dma/ais/store/AisStoreQueryResult.java:134-136 | There is a next row exactly when some sub-query still owes one; otherwise all sub-queries have reported their end |
| AisStoreQueryResult.AisStoreQueryResult.Next | ais-store-common/src/main/java/dk/dma/ais/store/AisStoreQueryResult.java:140-144 | One row more is delivered, keeping the merge sorted and complete and the counter equal to the number delivered |
| AisStoreQueryResult.AisStoreQueryResult.ReadAll | ais-store-common/src/main/java/dk/dma/ais/store/AisStoreQueryResult.java:95-144 | The whole iteration is sorted by time and is the sum of the sub-queries; without a cancellation the future is done at the end if and only if there was a sub-query |
| AisStoreQueryResult.AisStoreQueryResult.DoneExactlyWhenAllEnded | ais-store-common/src/main/java/dk/dma/ais/store/AisStoreQueryInnerContext.java:50-58 | At every moment of an iteration that is not cancelled the future is done exactly if all sub-queries have reported their end and there was one |
| AisStoreQueryResult.AisStoreQueryResult.Cancel | ais-store-common/src/main/java/dk/dma/ais/store/AisStoreQueryResult.java:64-66 | Cancelling affects only a future that is still running, and disturbs no row |
| AisStoreQueryBuilder.SumOfScans | ais-store-common/src/main/java/dk/dma/ais/store/AisStoreQueryBuilder.java:91-97 | The sub-queries together hold each matching row once for every time its cell or MMSI was asked for |
| AisStoreQueryBuilder.AisStoreQueryBuilder.Execute | ais-store-common/src/main/java/dk/dma/ais/store/AisStoreQueryBuilder.java:68-105 | A running result over one scan for each cell, MMSI or the whole of packets_time, in the table chosen by the size rule; it is given whenever the time blocks can be computed |
| AisStoreQueryBuilder.Run | ais-store-common/src/main/java/dk/dma/ais/store/AisStoreQueryBuilder.java:68-105 | The main result on queries, over builder, iterators, paging and merge: the rows read are exactly those a scan of everything stored finds with start < time < stop, in time order, in the table and under the cells or MMSIs that were asked for: of the 10-degree table only if that is switched on and has at most a tenth of the cells |
| AisStoreQueryBuilder.AnswerIsReturned | ais-store-common/src/main/java/dk/dma/ais/store/AisStoreQueryBuilder.java:72-102 | The table read and the parts asked for, selection by selection, in terms of the settings alone |
| AisStoreQueryBuilder.OneReadInOrder | ais-store-common/src/main/java/dk/dma/ais/store/AisStoreQuery.java:199-218 | The rows of one sub-query come by time, those of one instant by digest |
| AisStoreQueryBuilder.OrdinaryIsAnswerable | ais-store-common/src/main/java/dk/dma/ais/store/AisStoreQuery.java:196-197 | A query over instants that have a ten-minute block does not throw |
| WriteThenQuery.WrittenRowsAreWellFiled | ais-store-common/src/main/java/dk/dma/ais/store/write/DefaultAisStoreWriter.java:114-166 | After any run every row is filed under the block of its time, which is what queries rely on |
| WriteThenQuery.QueryFindsExactlyHandledPackets | ais-store-common/src/main/java/dk/dma/ais/store/write/DefaultAisStoreWriter.java:102-107 | What a query by time or MMSI is due of the rows of a run: the row of a key exactly if some handled packet leaves it and its time is strictly inside the interval |
| WriteThenQuery.AskOnline | ais-store-common/src/main/java/dk/dma/ais/store/AisStoreQueryBuilder.java:94-102 | Write then query: after any run a query by time or MMSI returns, in time order, a row if and only if some handled packet leaves it and its time is strictly inside the interval, once for each time its MMSI is asked for |
| WriteThenQuery.AreaQueryFindsPosition | ais-store-common/src/main/java/dk/dma/ais/store/AisStoreQueryBuilder.java:72-93 | Of the rows of the online writer, that of a packet whose recorded position the cells cover is due to an area query if and only if the writer was told to fill the table that is read |
| WriteThenQuery.Cell10QueryNeedsCell10Rows | ais-store-common/src/main/java/dk/dma/ais/store/AisStoreSchema.java:95-96 | With the switch off, as it is, the online writer leaves the 10-degree table empty and a query that reads it finds nothing |
| WriteThenQuery.OnlineQueryFindsExactlyFiled | ais-store-common/src/main/java/dk/dma/ais/store/write/DefaultAisStoreWriter.java:113-145 | In any table, a query is due the row of a key exactly if some packet of the run is filed there and its time is strictly inside the interval |
| WriteThenQuery.AskOnlineArea | ais-store-common/src/main/java/dk/dma/ais/store/AisStoreQueryBuilder.java:72-93 | An area query after a run of the online writer returns exactly the rows filed under its cells, among them that of every packet with an MMSI above zero in the area and the interval; if it reads a 10-degree table that is not filled it returns nothing |
| ReadBack.AskTime | ais-store-common/src/main/java/dk/dma/ais/store/AisStoreQueryBuilder.java:98-102 | From packets to answer: after any run a query by time returns, once each, the keys of the handled packets of a positive time inside the interval, and no others |
| ReadBack.AskMmsi | ais-store-common/src/main/java/dk/dma/ais/store/AisStoreQueryBuilder.java:94-97 | From packets to answer: a query by MMSI returns the key of each handled packet under its own user id, as often as that is asked for, and no key of another ship |
| ReadBack.AskCells | ais-store-common/src/main/java/dk/dma/ais/store/AisStoreQueryBuilder.java:72-93 | From packets to answer with the 10-degree table switched off, as it is: the keys of the packets located in the 1-degree cells of the area at a time inside the interval, and no others |
| WriteThenQuery.BulkRowsAreWellFiled | ais-store-common/src/main/java/dk/dma/ais/store/importer/PacketsAreaCell10SSTableWriter.java:91-104 | What the bulk converter leaves can be queried: every row is filed under the block of its time |
| WriteThenQuery.BulkQueryFindsExactlyFiled | ais-store-common/src/main/java/dk/dma/ais/store/importer/PacketsAreaCell1SSTableWriter.java:76-105 | In any table the converter filled, a query is due the row of a key exactly if some packet is filed there and its time is strictly inside the interval |
| WriteThenQuery.BulkHasAreaRow | ais-store-common/src/main/java/dk/dma/ais/store/importer/PacketsAreaCell10SSTableWriter.java:75-104 | A packet with a valid position, its own or a tracked one, and a fitting positive time has its row in both cell tables, with its own text and whatever its MMSI |
| WriteThenQuery.AskBulkArea | ais-store-common/src/main/java/dk/dma/ais/store/AisStoreQueryBuilder.java:72-93 | An area query over tables filled by the converter returns exactly the rows filed under its cells, among them that of every packet with a valid position in the area and a time in the interval, whichever of the 1-degree and 10-degree tables the size rule picks |
| CassandraStats.ChunkIsExact | ais-store-cli/src/main/java/dk/dma/ais/store/CassandraStats.java:87-100 | With the lower bound on the first chunk only and the upper bound on the last only, each chunk counts exactly the rows of the interval in its blocks |
| CassandraStats.PrintPacketsTimeStats | ais-store-cli/src/main/java/dk/dma/ais/store/CassandraStats.java:68-119 | For any interval and any chunk size the chunks add up to the number of rows with from <= time < to, or the count throws; it throws exactly when a block does not fit, the interval is too far reversed, or there are blocks but no chunk size of one or more |
| IntervalEnds.DocumentedExactlyWhenNoneAtStart | ais-store-common/src/main/java/dk/dma/ais/store/AisStoreQuery.java:77-84 | The answer of a query is the documented one, start included and stop excluded, if and only if no row that it would read lies exactly at the start |
| IntervalEnds.CountExceedsAnswer | ais-store-cli/src/main/java/dk/dma/ais/store/CassandraStats.java:96-100 | On the same interval the count exceeds the answer of a query by time by exactly the number of rows at the start |
| IntervalEnds.CountAndRead | ais-store-cli/src/main/java/dk/dma/ais/store/CassandraStats.java:68-119 | The same of the two readers themselves, the chunked count and the query with its iterators |
| FileExportRest.FileExportRest.Start | ais-store-cli/src/main/java/dk/dma/ais/store/FileExportRest.java:317-357 | A run resumes where a meta file with packets left off, else it starts over from the interval start |
| FileExportRest.FileExportRest.Accept | ais-store-cli/src/main/java/dk/dma/ais/store/FileExportRest.java:639-689 | Per packet: skip, write, or write and checkpoint; the checkpoint's meta file and data are in step |
| FileExportRest.FileExportRest.Run | ais-store-cli/src/main/java/dk/dma/ais/store/FileExportRest.java:415-436 | A whole run: the data file is the old one, a line break if the run resumed, the due packets in stream order with consecutive numbers, and the footer with the last number |
| FileExportRest.CompletedFile | ais-store-cli/src/main/java/dk/dma/ais/store/FileExportRest.java:415-436 | The data and meta file after a complete run, written out from the stream and what was on disk |
| FileExportRest.CrashedFile | ais-store-cli/src/main/java/dk/dma/ais/store/FileExportRest.java:639-689 | The data file after a crash: a prefix of what the complete run writes, which keeps the old data |
| FileExportRest.StepsAppend | ais-store-cli/src/main/java/dk/dma/ais/store/FileExportRest.java:646-656 | A run appends the records of exactly the due packets, in stream order and numbered on from the loaded count |
| Resuming.StepsDeliver | ais-store-cli/src/main/java/dk/dma/ais/store/FileExportRest.java:639-689 | A run writes, on top of what is there, exactly the decodable packets later than the loaded timestamp, and counts them |
| Resuming.ResumedRunDelivers | ais-store-cli/src/main/java/dk/dma/ais/store/FileExportRest.java:317-357 | For any stream, ordered or not, exactly which packets have a record after a complete resumed run; a packet the meta file skips and the data file lacks stays missing |
| Resuming.CheckpointOk | ais-store-cli/src/main/java/dk/dma/ais/store/FileExportRest.java:658-668 | At a checkpoint on the last decodable packet of a time the new meta file counts the packets up to its timestamp, and all of them are flushed |
| Resuming.RecordOfDue | ais-store-cli/src/main/java/dk/dma/ais/store/FileExportRest.java:656 | Wherever a run resumed, the record it appends for a due packet carries the place of the packet among all that are due |
| Resuming.StepOk | ais-store-cli/src/main/java/dk/dma/ais/store/FileExportRest.java:639-689 | Each packet keeps the invariant of a run: the meta file is right, and everything due so far is written |
| Sessions.MetaIsAlwaysExact | ais-store-cli/src/main/java/dk/dma/ais/store/FileExportRest.java:603-689 | After any sequence of crashes and completed runs, each crash keeping any part of the unflushed tail, the meta count is the number of decodable packets after the start up to the meta timestamp, and all have a record |
| Sessions.AtLeastOnce | ais-store-cli/src/main/java/dk/dma/ais/store/FileExportRest.java:317-357 | After any such sequence that ends with a complete run, every decodable packet after the interval start is in the data file |
| Sessions.RerunChangesNothing | ais-store-cli/src/main/java/dk/dma/ais/store/FileExportRest.java:317-357 | Running a completed download again writes no packet and leaves the meta file as it is |
| Sessions.BufferIsBounded | ais-store-cli/src/main/java/dk/dma/ais/store/FileExportRest.java:656-668 | At every point at most 9999 written packets lie past the last checkpoint |
| Sessions.CompletedIsComplete | ais-store-cli/src/main/java/dk/dma/ais/store/FileExportRest.java:317-436 | After any history that ends with a complete run every packet that is due has a record, and there are no fewer records than such packets |
| Sessions.DuplicatesAreBounded | ais-store-cli/src/main/java/dk/dma/ais/store/FileExportRest.java:639-681 | Over any history the records exceed the meta count by at most 9999 for each crash |
| CheckpointLimits.NothingIsLostExactly | ais-store-cli/src/main/java/dk/dma/ais/store/FileExportRest.java:646-668 | For any stream in order of time: every history that ends with a complete run leaves a complete data file if and only if no decodable packet has the time of an earlier one at which a checkpoint is made |
| CheckpointLimits.TieIsLost | ais-store-cli/src/main/java/dk/dma/ais/store/FileExportRest.java:646-649 | Otherwise a crash right after that checkpoint and a resume lose the packet: a history with too few records, and without that packet unless it repeats an earlier one |
| CheckpointLimits.BoundHoldsExactly | ais-store-cli/src/main/java/dk/dma/ais/store/FileExportRest.java:658-661 | The bound of 9999 holds at every point of every run of every history if and only if no packet of time zero calls for a checkpoint: zero also stands for "not flushed yet", so such a checkpoint is skipped |
| CheckpointLimits.MissedCheckpoint | ais-store-cli/src/main/java/dk/dma/ais/store/FileExportRest.java:658-661 | For every stream with such a packet, a history and a point in the run after it at which 10000 packets lie past the last checkpoint |
| CheckpointLimits.ZeroExample | ais-store-cli/src/main/java/dk/dma/ais/store/FileExportRest.java:658-661 | Such a stream: ten thousand packets, the last of them at time zero, all still buffered at the end of the first run |
| CheckpointLimits.TieExample | ais-store-cli/src/main/java/dk/dma/ais/store/FileExportRest.java:646-649 | A stream and a history that lose a packet: the ten-thousandth and the one after it have the same time, and the download crashes between them |
| Decimals.NearestIsNear | ais-store-web/src/main/webapp/downloader/js/position.js:33-33 | toFixed is off by at most half a unit of its last place, ties going up (section 15.7.4.5 of ECMA-262 edition 5.1) |
| Decimals.ToFixedShape | ais-store-web/src/main/webapp/downloader/js/position.js:38-38 | toFixed writes the whole part without leading zeros, a point, and exactly two or three decimals |
| Decimals.NumberOfFixed | ais-store-web/src/main/webapp/downloader/js/position.js:106-106 | Reading back fixed-width digits gives the number they were written for |
| Positions.FormatMinutes | ais-store-web/src/main/webapp/downloader/js/position.js:33-36 | The padding loop ends, after at most one zero, with two digits before the point |
| Positions.Format | ais-store-web/src/main/webapp/downloader/js/position.js:24-56 | Within range the text is fixed-width degrees, minutes as two and three digits, and the hemisphere letter |
| Positions.ParseText | ais-store-web/src/main/webapp/downloader/js/position.js:62-139 | Every well-shaped text parses to exactly the number it stands for, minutes from 60.000 to 99.999 included |
| Positions.FormatThenParse | ais-store-web/src/main/webapp/downloader/js/position.js:24-139 | For every latitude below 100 and longitude below 1000 degrees in size, the formatted text parses and is within 1/120000 degree of the original |
| Positions.ParseThenFormat | ais-store-web/src/main/webapp/downloader/js/position.js:24-139 | A canonical text with minutes below 60 is formatted to itself after parsing, if and only if it is not southern or western zero |
| PositionTexts.FormattedExactly | ais-store-web/src/main/webapp/downloader/js/position.js:24-56 | Within range, character by character: two or three digits for the whole degrees, a space, the minutes rounded to thousandths around a point, and N or E from zero up, S or W below |
| PositionTexts.ShapedTextParses | ais-store-web/src/main/webapp/downloader/js/position.js:69-139 | Degrees, minutes and a letter with any number of digits: the value, negative for s, S, w and W, positive for n, N, e and E, each on its own axis, and an exception for any other letter |
| PositionTexts.PlainNumberParses | ais-store-web/src/main/webapp/downloader/js/position.js:62-68 | A plain decimal number, with a minus sign or without, is read as that number |
| PositionTexts.ExponentParses | ais-store-web/src/main/webapp/downloader/js/position.js:62-68 | A number with an exponent is read as that number |
| PositionTexts.HexZeroParses | ais-store-web/src/main/webapp/downloader/js/position.js:63-67 | A hexadecimal zero is read as zero, as the comparison with the text accepts it |
| PositionTexts.OneWordIsRejected | ais-store-web/src/main/webapp/downloader/js/position.js:84-91 | A single word that is no number throws |
| PositionTexts.ThreeWordsAreRejected | ais-store-web/src/main/webapp/downloader/js/position.js:84-91 | Three words throw |
| PositionTexts.WordsThatAreNoNumbers | ais-store-web/src/main/webapp/downloader/js/position.js:105-138 | Two words with a proper letter of which one is no number give no number |

## Left out

- BulkWriters.StreamAllAisPacketsTo: the directory reader is not part of this model; it is assumed to go on after a handler that throws, and to give every pass the same packets. Failures of the row writer itself (I/O, invalid request), which are logged and skip the row, are left out.
- BulkWriters.Convert: close, the clearing of the keyspace definition and progress output are left out.
- Agreement.SameRowsExactlyWhenGuardsAgree: expiry is a sequence of explicit events, the same for all passes; the twenty-minute wall clock of the cache, which would run differently in each pass, is not modelled. Agreement.PassesAgreeWhateverExpires lifts this for packets_time and packets_mmsi.
- Agreement.AreaRowsAddUp: a packet whose time block overflows an int is not among the eligible ones, as its handling throws.
- AisStoreSchema.TimeBlocks: instants finer than a millisecond, and lists so long that their size overflows an int, are not modelled. When the stop lies in the very last block an int can number, the loop counter of the source wraps around and its loop never ends, while the loop here ends.
- PartitionReads.SelectIsScan: that the store concatenates sorted partitions in list order is assumed of the database, not proved; consistency levels, lost writes and time-outs are left out.
- AisStoreQuery.AisStoreQuery.ComputeNext: a row is named by its primary key; parsing its text back to a packet, whose time is taken to be that of the row, is left out. So is a driver that refuses a fetch size below one, and interruption.
- AisStoreQueryResult.AisStoreQueryResult.ReadAll: the lock around the iterator, listeners, start and finish dates are left out; the caller is one thread.
- AisStoreQueryBuilder.AisStoreQueryBuilder.Execute: the grid's cells of an area are given as lists; a query by MMSI without any MMSI, which the factory method refuses, and an interval that was never set are left out.
- WriteThenQuery.AreaQueryFindsPosition: that the grid's cells cover the area, and that its cell ids are those the writers compute, is a precondition.
- CassandraStats.PrintPacketsTimeStats: progress output is left out, and so are chunk sizes so large that adding them overflows an int, and intervals across most of the range of block numbers, whose number of blocks wraps around as an int in the source.
- ArchiverSafety.StepKeepsInv: the importer is assumed to see closed backup files only, and each closed file to have a new name. Sleeping, slow-batch logging, metrics, and the size of the batches that the stage hands over (between one and batchSize) are not modelled further. A restart waits until the stages have drained their queues, with an empty tracker; a killed process, which loses what it holds in memory, is not modelled.
- ArchiverRuns.DeleteFollowsFullReplay: the importer and the receiving threads are protocol steps and not methods with loops, because other threads change the queue between any two of their statements and their waiting loops need not end; the batch writer's code is a method as well.
- ArchiverRuns.RowsAreOfStoredPackets: covers packets_time and packets_mmsi only; the area tables do depend on order and repetition (Replay.ReplayKeepsCellsIff).
- StagedWriter.CassandraBatchedStagedWriter.HandleMessages: how a batch ends is a parameter; time, logging and the pause after a failure are left out.
- FileExportRest.FileExportRest.Accept: writing the meta file and flushing the buffers are one atomic step; I/O errors, which the source prints, are left out.
- FileExportRest.FileExportRest.Run: HTTP, the request's URL, output formats, the file name kept in the meta file and an unreadable meta file are left out. The server is assumed to send the same packets to every run; emptying the file of a forced run and writing its first meta file are one step.
- Sessions.AtLeastOnce: needs packets in order of time of which none shares the time of an earlier checkpoint packet; the second condition is exact (CheckpointLimits.NothingIsLostExactly), and for streams out of order Resuming.ResumedRunDelivers gives the condition run by run.
- Sessions.MetaIsAlwaysExact: needs the same of the stream.
- Positions.FormatThenParse: numbers are exact; rounding of floating point is not modelled.
- Positions.ParseText: of parseFloat and of the comparison of a number with a text, texts that spell Infinity are left out; a hexadecimal zero is included.
- Decimals.ToFixedShape: numbers from 10^21 up, which toFixed prints in exponent form, are left out.
- QueryService (web): its clean-up walk over an expired repository would add easy members only; downloading, streaming and listing are I/O.
- FileDiff, the REST resources, JSON serializers, JMX beans, job management, progress and ETA output, and the user interface would add easy members only.
- The Cassandra driver, the SSTable writer, NMEA decoding, the grid and the digest are not part of this model.
