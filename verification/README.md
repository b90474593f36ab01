# go-goodwe, verified

A model of the long-running parts of go-goodwe (a daemon that polls a GoodWe inverter over Modbus, keeps its sensor
readings in SQLite and serves them over HTTP) and proofs of what these parts are for. `dafny verify dfyconfig.toml`
checks everything.

| file | what it is about |
|---|---|
| Rollup.dfy | hourly and daily aggregates: what a bucket holds, the bucket loop, its restart, the daily average |
| Retention.dfy | the whole pipeline as a state machine: samples stored, rolled up twice and pruned twice, with failures, cancellations and restarts anywhere |
| DailyMean.dfy | when the stored daily average is the mean of the day's samples |
| Timeliness.dfy | exactly which samples the pipeline counts |
| Store.dfy | the loops of the store itself, and one daemon cycle proved to be a run of that machine |
| VoltageDetector.dfy | one phase of the incremental voltage-event detector against a reference over the whole stream |
| VoltageAnalysis.dfy | the three-phase run over the database: cursor, ongoing events, event table, store errors |
| Crc16.dfy, ModbusRtu.dfy | the CRC loop as a linear shift register; RTU request, response parser, error detection |
| Transport.dfy | all interleavings of concurrent ReadRegisters, Connect and Close calls |
| Connection.dfy | the connection loop with backoff, and the pinning of the inverter's serial number |
| Pagination.dfy | pages of voltage events while new ones are recorded |
| RawQuery.dfy | the history of a sensor: newest rows, reversal, thinning out, differences |
| SensorReads.dfy | reading all sensors at once against reading one |
| SensorNames.dfy | the names of the program's sensors, and that no two blocks share one |
| Runs.dfy, Accesses.dfy, Options.dfy, Arithmetic.dfy | runs of a state machine and their invariants; which store accesses fail; an optional value; numbers |

## How the model is built

What the program changes in place is changed in place here: `Store.Database`, `VoltageAnalysis.VoltageDb` and
`Connection.Daemon` are classes with the source's fields and loops, and the arrays of RawQuery.dfy are reversed and
adjusted in place. Each such method is tied to a function or relation of the old and new state, and the promises of
the system are lemmas about those. Concurrency is a state machine over the accesses to shared state. Points in time are
integers in nanoseconds, buckets are their integer quotients, voltages and averages are reals, 16-bit words are lists of bits
with the lowest first. One SQL statement is one step. What the network, the inverter and the database answer is chosen by the
environment; every store operation may fail, and a loop may be cancelled where the source looks at its context. For the
two classes over the database these answers are an input, one for each access (`answers` of Accesses.dfy), so that their
methods promise success when no access fails.

Where the code and what is written about it differ, the model follows the code:

- TODO.md:244-245 wants an existing bucket to be updated when its hour is aggregated again. The code never looks at a
  bucket at or before its cursor, so running it again is harmless but a late sample is not picked up. Conservation
  therefore holds for timely samples (`Retention.Timely`): stored after both cursors and not behind the loop of a cycle
  under way, and from 1970-01-02 on, because the default of the cursors is 1970-01-01. `Timeliness.TimelyIsExact` says
  that no other samples are sure to be counted, `Timeliness.LateSampleNeverCounted` that those behind a cursor never are,
  with `Timeliness.LateHourHappens` an example, and `Timeliness.CurrentIsTimely` that samples of the current hour are timely.
- The daily `value_avg` is the mean of hourly means (pkg/db/store.go:477). `DailyMean.DayAverageIsMeanIff` says that it
  is the mean of the samples exactly when the hours have equal counts; `Rollup.DayAverageIsNotMean` is an example.
- The minimum, maximum and average of a voltage event start afresh with the first out-of-range sample of each run
  (pkg/analysis/voltage.go:134-139). `VoltageDetector.WholeEventIff` and `VoltageAnalysis.RowStatistics` say that they
  cover the whole event exactly when one run read all its out-of-range samples; `VoltageDetector.StatisticsStartAfresh` is
  an event where they do not.
- A voltage analysis that fails does not save its cursor and its successor reads the same samples again.
  `VoltageDetector.RetryAfterError` states on which samples that does no harm; `VoltageDetector.RetryCanDuplicate` is one
  where it does.
- The comment at et/dtls_transport.go:120-123 says the mutex is held across the whole of a read. It is, but not between a
  reconnect and the retry it was made for: `Transport.RetryPanicsIff` says exactly when the retry finds no connection.
- `PruneSamples` and `PruneHourly` with a batch size of zero delete nothing and report success.

## Model

| member | source | states |
|---|---|---|
| Rollup.SummariseSplit | pkg/db/store.go:388-399 | Minimum, maximum, sum and count of a sensor over adjacent bucket ranges merge to those over the whole range. |
| Rollup.HourGroupsAre | pkg/db/store.go:388-399 | The hourly statement groups exactly the sensors with a numeric sample in the hour, and each group is the aggregate of those samples. |
| Rollup.TwoLevels | pkg/db/store.go:471-481 | Hourly then daily aggregation gives the count, minimum and maximum of the raw samples of the day, and a row exactly when there is one. |
| Rollup.DayAverageBetween | pkg/db/store.go:471-481 | The daily average lies between the daily minimum and maximum. |
| Rollup.DayAverageIsMean | pkg/db/store.go:477 | When all non-empty hours of a day hold equally many samples, the whole daily row is that of the raw samples, average included. DailyMean.DayAverageIsMeanIff adds that this is the only case. |
| Rollup.DayAverageIsNotMean | pkg/db/store.go:477 | In general the daily average is not the mean of the samples: three samples with mean 2 are stored as 1.5. |
| DailyMean.DayAverageIsMeanIff | pkg/db/store.go:471-481 | For given sample counts of the 24 hours of a day, the stored daily average is the mean of the samples whatever these are, if and only if the hours that have samples have equally many. |
| DailyMean.UnevenIsWrong | pkg/db/store.go:471-481 | For any two hours with different counts there are samples with the given counts whose mean is not what is stored. |
| Rollup.FillContents | pkg/db/store.go:384-420 | A loop over buckets adds exactly the non-empty groups of those buckets and leaves everything else as it was. |
| Rollup.ClampIsInvisible | pkg/db/store.go:367-380 | Starting at the earliest source row instead of at the cursor gives the same table. |
| Rollup.WriteOnce | pkg/db/store.go:388-399 | INSERT OR REPLACE never replaces: no bucket already in the table changes. |
| Rollup.RestartIsUninterrupted | pkg/db/store.go:384-420 | Stopping after any bucket and starting again over the same samples gives the table of an uninterrupted loop; starting again after the end changes nothing. |
| Rollup.PutGrows | pkg/db/store.go:404-405 | The affected rows of a statement are the growth of the table. |
| Retention.EveryStepKeeps | pkg/daemon/daemon.go:379-458 | Every step of storing, purging, aggregating, pruning, failing and restarting keeps the invariant that ties the tables to all samples ever stored. |
| Retention.LifetimeConservation | pkg/db/store.go:342-618 | In every run from a new database to which samples are stored timely, each daily row has the count, minimum and maximum of all numeric samples ever stored for its day, and keeps them for ever, whatever is pruned. Timeliness.TimelyIsExact says which samples are timely and that no others will do. |
| Retention.AggregationComplete | pkg/daemon/daemon.go:422-436 | A cycle that gets as far as pruning has a daily row for exactly the sensors with samples, for every day before its `now`. |
| Retention.PruneSafety | pkg/daemon/daemon.go:438-458 | Every numeric raw row a cycle deletes is already counted in an hourly or daily row that is right; every hourly row it deletes is counted in its daily row. |
| Retention.RunsKeepDays | pkg/db/store.go:471-481 | Daily rows are written once: no run changes or removes one. |
| Retention.LedgerIsInserted | pkg/db/store.go:236-245 | In runs without purges the samples accounted for are exactly those inserted, in order. |
| Retention.DeleteRawKeeps | pkg/db/store.go:526-545 | Deleting raw rows older than the cutoff keeps the invariant: hours and days already aggregated stay right without them. |
| Retention.DeleteHourlyKeeps | pkg/db/store.go:583-592 | Deleting hourly rows of finished days keeps the invariant. |
| Retention.InsertKeeps | pkg/db/store.go:236-245 | Storing a timely sample keeps the invariant: its hour and day are still to come for both cursors. |
| Retention.PurgeKeeps | pkg/db/store.go:788-809 | Removing any set of raw rows keeps the invariant, with rows not yet aggregated taken off the books. |
| Timeliness.TimelyIsExact | pkg/db/store.go:342-502 | Between cycles and during an hourly loop: a numeric sample is in the daily row of its day in every continuation in which the daily cursor has got to that day, if and only if it is stored after both cursors, not on 1970-01-01, and not behind the hourly loop. |
| Timeliness.TimelyIsCounted | pkg/db/store.go:342-502 | Whatever a cycle is doing, a timely sample is counted in every continuation. |
| Timeliness.LateSampleNeverCounted | pkg/db/store.go:359-380 | Whatever a cycle is doing, a numeric sample stored behind the hourly or the daily cursor is never counted: the daily table is wrong about its day in every continuation. |
| Timeliness.LateHourHappens | pkg/db/store.go:359-365 | There is such a sample whose day is still open: one of 12:59:59, stored after hour 12 was aggregated. |
| Timeliness.PassedOverIsLost | pkg/db/store.go:384-420 | A sample stored after the cursor but behind the position of the hourly loop can be lost: it is when the next hour with samples is aggregated. |
| Timeliness.CurrentIsTimely | pkg/daemon/daemon.go:422-427 | A sample not before the hour up to which any cycle was asked to aggregate is timely. |
| Timeliness.DayCanPass | pkg/daemon/daemon.go:422-436 | From any state some continuation takes the daily cursor to any given later day. |
| Timeliness.NextAggregationVisits | pkg/db/store.go:359-384 | The hourly loop of a cycle goes through the hour of a stored sample if and only if the hour lies after the cursor and is over at the time of the cycle. |
| Timeliness.NextDailyAggregationVisits | pkg/db/store.go:437-468 | The same of the daily loop and the days of the hourly table. |
| Store.Database.AggregateHourly | pkg/db/store.go:342-421 | The hourly table becomes the old one plus the groups of the buckets gone through; a failure or cancellation leaves a prefix; success leaves the table of a loop from the cursor or `since` to the end; the result is the growth of the table. |
| Store.Database.FillHours | pkg/db/store.go:382-420 | The bucket loop: after any number of buckets the table is that of the buckets so far, and `total` its growth. |
| Store.Database.AggregateDaily | pkg/db/store.go:426-502 | The same for days from the hourly table. |
| Store.Database.FillDays | pkg/db/store.go:464-500 | The same for the daily bucket loop. |
| Store.Database.PruneSensor | pkg/db/store.go:526-562 | Batches of one sensor end when a batch deletes nothing; only that sensor's rows before the cutoff are gone, and all of them unless the batch size is zero. |
| Store.Database.PruneSamples | pkg/db/store.go:507-571 | When nothing fails, batched deletion is one DELETE of exactly the rows before the cutoff, for any batch size but zero and any choice of batches; the result counts the rows deleted. |
| Store.Database.PruneHourly | pkg/db/store.go:575-618 | The same for hourly rows. |
| Store.Database.RollUp | pkg/daemon/daemon.go:422-436 | Hours, and if they succeed days, each complete up to `now` on success; the two together are a run of the pipeline model. |
| Store.Database.PruneOldSamples | pkg/daemon/daemon.go:438-446 | Prunes raw rows older than the retention, exactly those on success, as steps of the pipeline model. |
| Store.Database.PruneOldHours | pkg/daemon/daemon.go:448-456 | Prunes hourly rows older than 365 days, exactly those on success, as steps of the pipeline model. |
| Store.Database.DoAggregate | pkg/daemon/daemon.go:422-458 | One cycle. Which store access fails or finds a cancellation is an input: when none does, hours and days are complete up to `now`, and with a retention no raw row is left that is older than that many days and no hourly row older than 365; whatever happens no younger one is gone. When one does, each part that met no fault has done all of its work, nothing is pruned unless both aggregations succeeded, and the cycle as a whole is a run of the pipeline model. |
| Store.CycleStaysReachable | pkg/daemon/daemon.go:379-416 | A cycle on a state a new installation can reach leads to another such state and keeps every daily row. |
| Store.PrunedExactly | pkg/db/store.go:507-571 | Deleting batch by batch until no sensor has an old row left leaves exactly the rows not before the cutoff. |
| VoltageDetector.RunAllTraces | pkg/analysis/voltage.go:86-178 | Any sequence of runs, each starting with fresh statistics and the saved event id, leaves the intervals of the reference detector over all samples, and the saved event id is that of the open one. |
| VoltageDetector.ChunkingIndependence | pkg/analysis/voltage.go:86-178 | Two ways of splitting one stream of samples into runs give the same events (start, end, duration) and the same open one, namely those of a single run. |
| VoltageDetector.EventsAreExactIndex | pkg/analysis/voltage.go:96-172 | With increasing times, a sample below 207 V or above 253 V is covered by exactly one event and one from 207 V to 253 V by none; only the last event can be open, and the saved event id is its. |
| VoltageDetector.DetectIndexes | pkg/analysis/voltage.go:108-160 | The same of the reference: every event starts at an out-of-range sample and ends at an in-range one. |
| VoltageDetector.AverageBetween | pkg/analysis/voltage.go:138-141 | Minimum, average and maximum of the counted values are in this order. |
| VoltageDetector.AverageIsMean | pkg/analysis/voltage.go:138-141 | The average times the number of values is their total. |
| VoltageDetector.ExtremesBound | pkg/analysis/voltage.go:119-137 | The extremes are counted values and bound them all. |
| VoltageDetector.RunAllCovered | pkg/analysis/voltage.go:119-154 | The values recorded for an event are exactly the out-of-range values of the samples it covers. |
| VoltageDetector.RecentIsLatestRun | pkg/analysis/voltage.go:119-154 | The statistics of an event are taken over exactly its out-of-range samples in the latest run that had any. |
| VoltageDetector.WholeEventIff | pkg/analysis/voltage.go:119-154 | They are taken over all of its out-of-range samples if and only if one run read them all. |
| VoltageDetector.StatisticsStartAfresh | pkg/analysis/voltage.go:134-139 | An event over two runs whose stored minimum, 205 V, is not its minimum, 200 V. |
| VoltageDetector.RetryAfterError | pkg/analysis/voltage.go:86-178 | A run that failed leaves the cursor behind: the next run ends with the rows of an undisturbed one if and only if the failed run met no out-of-range sample while no event was open; otherwise each event it inserted is there once more. |
| VoltageDetector.InsertsIff | pkg/analysis/voltage.go:111-127 | A run inserts an event if and only if some sample is out of range while none is open, which is decided by the latest numeric sample before it. |
| VoltageDetector.RetryCanDuplicate | pkg/analysis/voltage.go:111-127 | One out-of-range sample, read by a run that then fails, becomes two events. |
| VoltageAnalysis.CursorSplitsRows | pkg/db/store.go:769-787 | What one run reads and what the next reads after more rows were stored is what one run would have read: no row is skipped or read twice by any phase. |
| VoltageAnalysis.NewestIdBounds | pkg/analysis/voltage.go:85-100 | The saved cursor is at or beyond every row of the three phases, and is the id of a row or the old cursor. |
| VoltageAnalysis.VoltageDb.InsertVoltageEvent | pkg/db/store.go:691-700 | A new row at the end of the event table, with the next id; no other row changes. |
| VoltageAnalysis.VoltageDb.UpdateVoltageEvent | pkg/db/store.go:725-733 | Only the statistics of the one row change, and they are those of the samples counted. |
| VoltageAnalysis.VoltageDb.CloseVoltageEvent | pkg/db/store.go:715-723 | Only end and duration of the one row change. |
| VoltageAnalysis.VoltageDb.Resume | pkg/analysis/voltage.go:96-106 | An open event of an earlier run is picked up with nothing counted. |
| VoltageAnalysis.VoltageDb.Observe | pkg/analysis/voltage.go:108-162 | One sample takes the phase and the event table exactly one step of the detector, or a store error leaves both as they were. |
| VoltageAnalysis.VoltageDb.ScanRows | pkg/analysis/voltage.go:108-163 | The loop over samples: on an error exactly the samples before it have been taken into account. |
| VoltageAnalysis.VoltageDb.ScanPhase | pkg/analysis/voltage.go:86-170 | One phase: its events become what the detector makes of them, other phases are untouched, and the new ongoing id is that of its open event. |
| VoltageAnalysis.VoltageDb.ScanPhases | pkg/analysis/voltage.go:86-172 | All three phases over one cursor. |
| VoltageAnalysis.VoltageDb.RunVoltageAnalysis | pkg/analysis/voltage.go:70-178 | A run whose store accesses all succeed succeeds; one that succeeds takes in every new sample of every phase and moves the cursor past all of them; one that fails leaves the cursor as it was and takes in a part of each phase's samples. |
| VoltageAnalysis.VoltageDb.PollCycles | pkg/daemon/daemon.go:237-281 | Any number of poll cycles in which no store access fails, or at least no run does, reads every sample ever stored exactly once, in order, whatever rows are pruned or purged between them. |
| VoltageAnalysis.EventTableIsIndex | pkg/analysis/voltage.go:59-178 | After such cycles the rows of each phase are the reference intervals of all samples ever stored; with increasing times a sample below 207 V or above 253 V is in exactly one of them and one from 207 V to 253 V in none, and each closed row's duration is its length in whole seconds; the cursor has the row id of the last one exactly while that is open. |
| VoltageAnalysis.OngoingIsOpen | pkg/analysis/voltage.go:164-170 | The ongoing id of a phase is set exactly while the last row of the phase is open, and is that row's. |
| VoltageAnalysis.RowStatistics | pkg/analysis/voltage.go:119-154 | Each stored row: its minimum and maximum are below 207 V or above 253 V and are samples it covers, its average lies between them, and all three summarise exactly its samples in the latest run that had any, which is the whole event if and only if no other run had any. |
| Crc16.CalculateCrc16 | et/dtls_transport.go:204-217 | The loop computes the fold that the CRC lemmas are about. |
| Crc16.FeedIsClock | et/dtls_transport.go:204-217 | The byte-wise loop is the bit-serial shift register of section 6.2.2 of the Modbus over Serial Line Specification V1.02, run over the bits of the message. |
| Crc16.CrcIsTurns | et/dtls_transport.go:204-217 | For every message the CRC is sixteen ones, shifted down once for each bit sent, with the bit that falls out fed back at places 0, 13 and 15. |
| Crc16.ZerosShow | et/dtls_transport.go:206 | The CRC of a message of zeros is never zero, however long it is, and that of the empty message is all ones; with a register preset to zero neither would hold. |
| Crc16.KnownCrc | et/dtls_transport.go:204-217 | The bytes 02 07 have the CRC 0x1241. |
| Crc16.ClockReversible | et/dtls_transport.go:208-213 | Every clock of the register is a bijection. |
| Crc16.OnlyOwnBitsClear | et/dtls_transport.go:208-213 | Exactly one sequence of sixteen bits takes the register to zero: its own contents. |
| Crc16.Residue | et/dtls_transport.go:204-217 | A message followed by two bytes has CRC zero if and only if they are its CRC, low byte first. |
| Crc16.BurstChangesCrc | et/dtls_transport.go:204-217 | Different messages of one length that agree outside sixteen consecutive bits have different CRCs. |
| Crc16.OddErrorChangesCrc | et/dtls_transport.go:204-217 | Messages of one length that differ in an odd number of bits have different CRCs. |
| ModbusRtu.CrcCheckIsResidue | et/dtls_transport.go:227-233 | A response fails the CRC check if and only if the CRC of its whole body, CRC field included, is not zero. |
| ModbusRtu.ValueAppend | et/dtls_transport.go:242 | What the bits of a byte count are worth: lowest first, each twice the one before. |
| ModbusRtu.RoundTrip | et/dtls_transport.go:221-248 | Every payload of at most 255 bytes, framed, parses back to itself. |
| ModbusRtu.WellFormedParses | et/dtls_transport.go:221-248 | So does any response with a correct CRC, no exception bit and a byte count that is the payload's length, whatever its header and slave id. |
| ModbusRtu.BurstRejected | et/dtls_transport.go:227-233 | A response that passed the CRC check is rejected with a CRC mismatch after any change within sixteen consecutive bits of its body, CRC field included. |
| ModbusRtu.AdjacentBytesRejected | et/dtls_transport.go:227-233 | In particular after any change to two adjacent bytes after the header. |
| ModbusRtu.OddErrorRejected | et/dtls_transport.go:227-233 | And after any odd number of bit flips. |
| ModbusRtu.BuildRequest | et/dtls_transport.go:154-164 | The request of Read Holding Registers: its eight bytes carry register and quantity high byte first and leave CRC residue zero. |
| Transport.EveryStepKeeps | et/dtls_transport.go:68-150 | Every step of any number of concurrent calls keeps the invariant of mutex, connection and wire, and of what each call has asked of the network so far and the answers. |
| Transport.NoConnectionLeaks | et/dtls_transport.go:68-150 | Under all interleavings at most one connection is open, and when the mutex is free it is the one in the field. |
| Transport.TransactionsDoNotInterleave | et/dtls_transport.go:119-135 | Every request written is followed on the wire by its own read attempt before any other request. |
| Transport.CallsAreBounded | et/tcp_transport.go:107-133 | No call sends more than two requests or dials more than once. |
| Transport.StepsAreNoted | et/dtls_transport.go:88-178 | The history of a call is what it asked: a write or read over the connection in the field or a dial is noted with its outcome, and nothing else is. |
| Transport.StoresOrCloses | et/dtls_transport.go:68-117 | What Connect stores is the only open connection; Close, or a call that found its connection closed, leaves none open and none in the field. |
| Transport.ClosedIsReplaced | et/dtls_transport.go:119-150 | A ReadRegisters that is over and whose first attempt met a closed connection, at the write or at the read, has dialled next; if that failed it returned the error, and if it worked it sent once more or panicked; the connection it found closed is closed and out of the field. |
| Transport.OtherwiseOnce | et/dtls_transport.go:124-133 | A first attempt that did not meet a closed connection is the only one and nothing is dialled. |
| Transport.ReturnsLastAnswer | et/dtls_transport.go:125-150 | A ReadRegisters returns the outcome of the last thing it asked, and data only if that was to receive it. |
| Transport.NoDeadlock | et/dtls_transport.go:68-150 | In every reachable state with an unfinished call some call can go on. |
| Transport.CallsEnd | et/dtls_transport.go:68-150 | No call takes more than twelve steps, whatever the others do; with NoDeadlock every call ends. |
| Transport.RetryPanicsIff | et/dtls_transport.go:139-150 | A retry runs into a nil connection if and only if the last change of the field was another call clearing it. |
| Transport.RetryCanPanic | et/dtls_transport.go:139-150 | And there is such a run: a Close between a reconnect and its retry. |
| Connection.IdentityStore.GetInverterIdentity | pkg/db/store.go:199-213 | Returns a row of the identity table, none exactly when it is empty. |
| Connection.IdentityStore.SetInverterIdentity | pkg/db/store.go:216-233 | Inserts a row or updates all but firstSeen of the one with this serial. |
| Connection.Daemon.VerifyIdentity | pkg/daemon/daemon.go:311-374 | Stores the first inverter seen, refreshes a known one, and leaves the table alone with a verification error for a stranger; errors exactly when the inverter or the database cannot be asked. |
| Connection.Daemon.DoConnect | pkg/daemon/daemon.go:202-233 | Ends in Connected, Disconnected or Failed according to the attempt, with the table updated accordingly. |
| Connection.Daemon.DoPoll | pkg/daemon/daemon.go:237-281 | Stays Connected if the sensors can be read and otherwise hangs up and is Disconnected. |
| Connection.Daemon.Iterate | pkg/daemon/daemon.go:160-171 | One firing of the timer is one step of the reference machine. |
| Connection.Daemon.Turn | pkg/daemon/daemon.go:160-197 | With the wait after it. |
| Connection.Daemon.PollLoop | pkg/daemon/daemon.go:151-199 | The loop ends in the state, with the table, the waits and the inverter calls of the reference machine. |
| Connection.Daemon.Run | pkg/daemon/daemon.go:125-199 | So does Run; without an inverter or with polling disabled it does nothing. |
| Connection.ConnectedIff | pkg/daemon/daemon.go:160-184 | The daemon is connected after an iteration if and only if in some attempt to connect the inverter answered with the stored serial, or the first one, which could be stored, or there was no database, no other inverter having been met before; and no poll has failed since. |
| Connection.FailuresCounted | pkg/daemon/daemon.go:173-184 | The backoff counter k means that the last k iterations did not end connected and the one before did; the wait is then min(5 * 2^(k-1), 300) seconds. |
| Connection.BackoffDoubles | pkg/daemon/daemon.go:179-184 | The closed form of the wait is 5 seconds at first and then doubles, up to 300 seconds. |
| Connection.FailedAbsorbs | pkg/daemon/daemon.go:185-188 | After Failed, whatever comes, nothing is asked of the inverter and nothing changes. |
| Connection.NothingLeftOpen | pkg/daemon/daemon.go:149-281 | Over a whole run the inverter is dialled only when no connection is held and polled only when one is; every connection given up is hung up, and a cancelled run hangs up the last one unless it has Failed. |
| Connection.FlaggedNeverPolls | pkg/daemon/daemon.go:224-228 | A verification error from an earlier run keeps every later run from polling. |
| Connection.RowStays | pkg/db/store.go:216-233 | A stored serial and its firstSeen are the only row from then on. |
| Connection.NoRefreshNoChange | pkg/daemon/daemon.go:311-374 | The identity table changes only in iterations that connect to the stored inverter, or the first one, with the database working. |
| Connection.LatestRefresh | pkg/daemon/daemon.go:359-363 | After a run the row holds what the inverter answered in the latest such iteration, and its lastSeen is the time of it. |
| Connection.FirstSeenIsFirst | pkg/db/store.go:216-233 | On an empty database firstSeen is the time of the first such iteration. |
| Connection.PollsReadThePinnedInverter | pkg/daemon/daemon.go:202-281 | Every poll reads the inverter whose serial is in the table for good, the one reported by the latest connect. |
| Connection.OneIdentity | pkg/daemon/daemon.go:311-374 | Over any number of daemons on one initially empty database the table holds at most one row. |
| Connection.IdentityIsForEver | pkg/daemon/daemon.go:311-374 | And its serial and firstSeen never change. |
| Pagination.QueryVoltageEvents | pkg/db/store.go:735-767 | The page is the newest rows below the cursor, cut off at the limit; the total counts all rows. |
| Pagination.NewestIsPage | pkg/db/store.go:745-755 | Walking down the ids gives what the SQL statement selects, orders and limits. |
| Pagination.PageIsUnique | pkg/db/store.go:745-755 | There is only one such page. |
| Pagination.HandleGridVoltage | pkg/api/handler.go:459-512 | Limits other than 1 to 100 and then negative or malformed cursors are refused; anything else is answered with the page (20 rows if no limit is given), the number of all events, the id of its last row and whether it is full. |
| Pagination.CrawlIsComplete | pkg/api/handler.go:493-508 | Following next while has_more ends after one page per `limit` events and one more, and yields exactly the events present at the first request, each once and newest first, whatever is recorded or updated meanwhile. |
| RawQuery.ReverseInPlace | pkg/db/store.go:273-276 | Swapping from both ends reverses the slice. |
| RawQuery.QueryRawSamples | pkg/db/store.go:249-278 | The samples of the window, oldest first, as many as there are up to the limit, none left out that is newer than one returned, for any order of equal times. |
| RawQuery.ResultIsHistory | pkg/db/store.go:249-278 | That this is what ORDER BY DESC, LIMIT and the reversal amount to. |
| RawQuery.EveryCount | pkg/api/handler.go:759-769 | Thinning out n samples by a step leaves ceil(n / step) of them. |
| RawQuery.EveryAt | pkg/api/handler.go:759-769 | The k-th of them is sample k * step; the first is the first. |
| RawQuery.StepIsLeast | pkg/api/handler.go:759-769 | The chosen step leaves at most max samples, and no smaller step does. |
| RawQuery.Downsample | pkg/api/handler.go:759-769 | The stepping loop computes this. |
| RawQuery.DeltaCommutes | pkg/api/handler.go:430-442 | Taking differences from a reference before or after thinning out is the same. |
| RawQuery.AdjustInPlace | pkg/api/handler.go:434-442 | Every numeric value becomes what has to be added to the reference to get it back; samples without one, and texts, units and times are left. |
| RawQuery.GetAggregate | pkg/api/handler.go:320-455 | The answer: refused for an empty window or a missing reference, otherwise at most 2000 samples, every step-th of the differences of the newest rows of the window. |
| SensorReads.GetSensors | et/et.go:149-242 | Fails only when the main block cannot be read; otherwise every sensor of every readable block, later blocks winning, each with the value computed from its block, its unit and its name. |
| SensorReads.BlocksRead | et/registry.go:43-55 | The blocks are 125 registers from 35100, 24 from 37000, 125, else 58, else 45 from 36000 and 61 from 35301. |
| SensorReads.ReadMeter | et/et.go:198-204 | The meter answers with the first of 125, 58 and 45 registers that it does not refuse as an illegal address. |
| SensorReads.BuildLookup | et/registry.go:75-89 | Each name is looked up in the last block that has it, with that block's address and count. |
| SensorReads.ReadSensor | et/et.go:245-282 | Reads the block of the sensor, with the same fallback, and computes the one value. |
| SensorReads.SharedNameDiffers | et/et.go:245-282 | A name in two blocks is missing from single reads but not from bulk reads when the later block cannot be read. |
| SensorReads.ReadsAgreeIff | et/et.go:149-282 | Bulk and single reads agree on every name against every register image whose main block can be read, if and only if no two blocks share a name; nor would full-length blocks make a difference. |
| SensorNames.NamesTell | et/registry.go:97-416 | The names of the four tables, by block: a few letters of a name tell its block, so no two blocks share one. |
| SensorNames.ProgramReadsAgree | et/et.go:149-282 | So for the tables of the program bulk and single reads always agree. |

## Left out

- Retention.LifetimeConservation: counts the samples of the ledger, which is everything ever stored less the rows a purge removed before their hour was aggregated; PurgeBadSamples removes history on purpose, and which rows it picks (pkg/db/store.go:788-809) is not modelled, any set of rows may be removed.
- Retention.EveryStepKeeps: the query for the cursor, the query for the earliest row and the start of the loop are one step, as are one statement and the next position of its loop; a sample stored in between is not modelled.
- Store.Database.DoAggregate: no sample is stored while its loops are under way; samples stored meanwhile are covered by the state machine of Retention.dfy, whose steps are single statements.
- Timeliness.TimelyIsExact: from the end of the hourly loop to the end of its cycle, being timely is sufficient (Timeliness.TimelyIsCounted) but not necessary: a sample of a day the cycle rolls up is counted all the same if that day has no hourly rows and the sample is not pruned in this cycle, but it makes Retention.AggregationComplete untrue of this cycle.
- Retention.AggregationComplete: for the daemon's cycles, which pass the zero time as `since`; the one-shot modes `-aggregate` and `-aggregate-backfill` (cmd/goodwe-daemon/main.go:145-149) can step over hours and are not modelled.
- VoltageAnalysis.VoltageDb.RunVoltageAnalysis: no sample is stored between the queries of the three phases; start_sample_id and end_sample_id, always written as 0 by the analysis, and last_run_at are left out; the saturation of a difference of times beyond 292 years is not modelled.
- VoltageAnalysis.VoltageDb.PollCycles: states what cycles without a failed run leave; VoltageDetector.RetryAfterError covers a failed one. Rows may be deleted between cycles, not while a cycle is under way.
- Transport.EveryStepKeeps: setting deadlines, the two error texts of isConnClosed and the contents of frames are left out; a write or read ends well, with a closed connection or with another error, as the environment chooses. Neither transport checks that a response answers its request, so nothing is said about that.
- Connection.Daemon.DoPoll: the storing of samples and the voltage analysis, whose errors are only logged, are in the other files.
- Connection.Daemon.VerifyIdentity: the purge of bad samples that follows it is a step of Retention.dfy.
- Connection.Daemon.Run: the aggregation goroutine it starts is Store.Database.DoAggregate; cancellation is seen between iterations.
- SensorReads.GetSensors: cancellation between sensors, which returns an error along with a part of the map, is left out; so are the reconnects inside the transport.
- SensorNames.ProgramReadsAgree: the readers, bitmaps and label dictionaries of the tables in et/registry.go are arbitrary functions of a block's bytes; only the names are those of the program.
- RawQuery.GetAggregate: the `bucket` and `latest` forms of the request, and the texts of errors, are left out; an unreadable limit counts as none, as in the source.
- Pagination.HandleGridVoltage: the last-run information of the response is left out.
- Modbus TCP framing (et/tcp_transport.go:137-203), with transaction ids that are never compared, would only add an easy round trip.
- HTTP routing, middleware, JSON and the dashboard; discovery, UDP probes and the DTLS handshake; SQLite's own working, its timestamp texts and migrations; command-line flags; log output and progress figures.
- Rounding of floating-point numbers: averages and voltages are exact reals.
