# SBK RAM benchmark lifecycle and Ignite transactional reader — Dafny model

This project models two pieces of sequential logic of the SBK storage
benchmark, with the Java collaborators abstracted away:

- **The RAM benchmark session** (`SbkRamBenchmark`): the one-time choice of
  the latency store (dense array histogram or sparse hash-map histogram)
  and the start/shutdown/stop state machine driven by the nullable
  completion future `retFuture`. Module `LatencyStore` (`latency_store.dfy`)
  holds the selection rule. Module `Session` (`session.dfy`) holds the state
  machine: `Idle`, `Running(future, done = false)`, `Running(future, done = true)`.
  `start` and `shutdown` are pure functions. Each returns the next state and
  the ordered trace of effects it performs: logger open/close, benchmark
  start/stop, server start/shutdown, and normal or exceptional completion of
  a future. Futures are numbered in creation order, so "a fresh future" is
  "the next number".
- **The Ignite transactional reader** (`IgniteTransactionReader`). Module
  `IgniteReader` (`ignite_reader.dfy`) models the cache as `map<int, seq<Byte>>`
  and the reader as `(key, cnt)`. It covers `read`, the batch-size rule, and
  the two batch reads `recordRead` (full scan, end-of-data on zero hits,
  cursor moved by the batch size) and `recordReadTime` (scan stops at the
  first missing key, cursor moved by the hits, start time taken from the
  records). The wall clock and the embedded-time extractor `getTime` are
  parameters. The transaction is a bracket with no effect on the values read.
- `optional.dfy` holds the `Option` datatype that stands for Java's nullable
  references.

The model follows the code on two points that are easy to misread:
- at a dense footprint of exactly the array budget, the code's strict `<`
  selects the hash-map store, not the array store;
- `recordRead` moves the cursor by the full batch size, not by the number
  of records it found.

Java `long` division truncates toward zero; `LatencyStore.JavaDiv` writes
that out, because Dafny's `/` is Euclidean. `Integer.MAX_VALUE` is
`LatencyStore.INT_MAX`.

## Model

| member | source | states |
|---|---|---|
| LatencyStore.JavaDiv | sbk-ram/src/main/java/io/sbk/ram/impl/SbkRamBenchmark.java:89 | Java's truncating division: the quotient of a non-negative dividend is its floor, that of a negative one is rounded toward zero |
| LatencyStore.SelectStore | sbk-ram/src/main/java/io/sbk/ram/impl/SbkRamBenchmark.java:87-104 | for a non-negative range the array store is chosen iff range × value size is below the array budget in bytes and the range is below `Integer.MAX_VALUE`, else the hash map capped by its own budget; for a negative range (where Java's truncating division matters) the array is chosen iff the byte footprint is at most one megabyte below the budget in bytes, so always with a positive budget; both stores get the logger's latency bounds |
| LatencyStore.BelowBudgetInBytes | sbk-ram/src/main/java/io/sbk/ram/impl/SbkRamBenchmark.java:89-92 | the whole-megabyte footprint is below the budget exactly when the byte footprint is below budget × 1024 × 1024 |
| LatencyStore.ExactBudgetSelectsHashMap | sbk-ram/src/main/java/io/sbk/ram/impl/SbkRamBenchmark.java:89-92 | a footprint of exactly the budget selects the hash-map store (strict `<`) |
| LatencyStore.ByteUnderBudgetSelectsArray | sbk-ram/src/main/java/io/sbk/ram/impl/SbkRamBenchmark.java:89-92 | one byte under the budget, with an `int`-sized range, selects the array store |
| LatencyStore.MegabyteBoundary | sbk-ram/src/main/java/io/sbk/ram/impl/SbkRamBenchmark.java:89-92 | in whole megabytes: footprint == budget selects the hash map, footprint == budget − 1 selects the array |
| Session.Create | sbk-ram/src/main/java/io/sbk/ram/impl/SbkRamBenchmark.java:63-84 | construction chooses the store once by the selection rule and leaves the future field null |
| Session.Start | sbk-ram/src/main/java/io/sbk/ram/impl/SbkRamBenchmark.java:117-130 | fails iff a future is held, then with no effects and no state change; from idle with no failing collaborator it opens the logger, starts the benchmark, starts the server in that order and hands out a fresh pending future; a collaborator that throws ends the call right after that call (one, two or three effects for the logger open, benchmark start, server start) with the field still null; start never completes a future |
| Session.Teardown | sbk-ram/src/main/java/io/sbk/ram/impl/SbkRamBenchmark.java:150-156 | server shutdown, then benchmark stop, then logger close; an I/O error from the benchmark stop skips the logger close |
| Session.Completion | sbk-ram/src/main/java/io/sbk/ram/impl/SbkRamBenchmark.java:158-164 | the future completes normally iff there is no cause, exceptionally with the cause otherwise |
| Session.Shutdown | sbk-ram/src/main/java/io/sbk/ram/impl/SbkRamBenchmark.java:139-166 | always ends idle with the store unchanged; no effects when idle or when the future is already done; on a pending future the teardown calls followed by exactly one completion of that future and of no other |
| Session.Stop | sbk-ram/src/main/java/io/sbk/ram/impl/SbkRamBenchmark.java:176-179 | stop ends idle, and on an idle benchmark changes nothing and performs nothing |
| Session.HolderCompletes | sbk-ram/src/main/java/io/sbk/ram/impl/SbkRamBenchmark.java:145-148 | the caller holding the future completes it: a pending current future becomes done with one completion, anything else is unchanged |
| Session.CompletionAtMostOnce | sbk-ram/src/main/java/io/sbk/ram/impl/SbkRamBenchmark.java:121-165 | over any sequence of start/stop/shutdown calls on a new benchmark, every future is completed at most once, only futures handed out by start are completed, and the store never changes |
| Session.StopIsIdempotent | sbk-ram/src/main/java/io/sbk/ram/impl/SbkRamBenchmark.java:139-148 | a second stop after a stop performs no effect and completes nothing |
| Session.ShutdownAllowsRestart | sbk-ram/src/main/java/io/sbk/ram/impl/SbkRamBenchmark.java:121-165 | after any shutdown a start without failing collaborators succeeds |
| Session.StopCompletesPendingFutureOnce | sbk-ram/src/main/java/io/sbk/ram/impl/SbkRamBenchmark.java:150-165 | stopping a running session with a pending future shuts the server down first and completes that future normally, exactly once, as its last effect |
| IgniteReader.NewReader | driver-ignite/src/main/java/io/sbk/Ignite/IgniteTransactionReader.java:34-41 | a new reader starts at its start key with a count of zero |
| IgniteReader.Read | driver-ignite/src/main/java/io/sbk/Ignite/IgniteTransactionReader.java:43-51 | the result is the cached payload at the cursor or null; the cursor moves by one iff a payload was found; the count is untouched |
| IgniteReader.BatchSize | driver-ignite/src/main/java/io/sbk/Ignite/IgniteTransactionReader.java:61-65 | the batch is never larger than the sync size; below a positive quota it is the smaller of the sync size and what is left of the quota, so it never overshoots the quota; otherwise it is the sync size |
| IgniteReader.BatchStaysWithinQuota | driver-ignite/src/main/java/io/sbk/Ignite/IgniteTransactionReader.java:94-98 | a batch starting below a positive quota leaves the count within the quota, for the full-scan and the run-scan advance alike |
| IgniteReader.CountPresent | driver-ignite/src/main/java/io/sbk/Ignite/IgniteTransactionReader.java:68-76 | a scan of n keys finds at most n records |
| IgniteReader.CountPresentIsCardinality | driver-ignite/src/main/java/io/sbk/Ignite/IgniteTransactionReader.java:68-76 | the scan's record count equals the number of keys of the batch range present in the cache |
| IgniteReader.CountPresentZero | driver-ignite/src/main/java/io/sbk/Ignite/IgniteTransactionReader.java:78-80 | the scan finds no record exactly when no key of the batch range is present |
| IgniteReader.RecordRead | driver-ignite/src/main/java/io/sbk/Ignite/IgniteTransactionReader.java:57-87 | end-of-data iff no key of the batch range is present, then only the status start time is written and cursor and count are unchanged, with no callback; otherwise cursor and count move by the full batch size and the status and callback carry (id, start, end, bytes of the present keys, number of present keys), with 0 < records ≤ batch size |
| IgniteReader.RunLength | driver-ignite/src/main/java/io/sbk/Ignite/IgniteTransactionReader.java:102-113 | the run is no longer than the batch, every key in it is present, and it stops at the batch size or at a missing key |
| IgniteReader.RunLengthIsLongestRun | driver-ignite/src/main/java/io/sbk/Ignite/IgniteTransactionReader.java:102-113 | a count is the run length iff all keys below it are present and it ends at the batch size or at a missing key |
| IgniteReader.RunStartTimeIsFirstNonZero | driver-ignite/src/main/java/io/sbk/Ignite/IgniteTransactionReader.java:107-109 | the start time is 0 iff every record of the run has embedded time 0; otherwise it is the time of a record of the run all of whose predecessors have time 0 |
| IgniteReader.FirstRecordTimeStartsBatch | driver-ignite/src/main/java/io/sbk/Ignite/IgniteTransactionReader.java:107-109 | a first record with a non-zero embedded time gives the batch's start time |
| IgniteReader.RecordReadTime | driver-ignite/src/main/java/io/sbk/Ignite/IgniteTransactionReader.java:90-122 | never end-of-data; cursor and count move by the run length; status and callback carry (id, first non-zero embedded time, end clock, run bytes, run length); with no hit the cursor, bytes and start time stay 0/unchanged |
| IgniteReader.ReadManyFollowsRun | driver-ignite/src/main/java/io/sbk/Ignite/IgniteTransactionReader.java:43-51 | n successive reads move the cursor by exactly the run length from the cursor, which is how far a run-scan batch of n moves it |
| IgniteReader.FullRangeScansAgree | driver-ignite/src/main/java/io/sbk/Ignite/IgniteTransactionReader.java:68-113 | when every key of the batch range is present, both batch reads find all n records and the same bytes |

## Left out

- The gRPC server and service, the sample queue, and the latency recorders
  (array, hash map, percentile computation): only which store is chosen is
  modelled. Their calls appear as named effects in the trace.
- The percentile conversion `percentiles[i] / 100.0` (floating point).
- Locking (`@Synchronized`) and the threads of `CompletableFuture`: calls are
  sequential and a future is a number with a done flag. A caller completing
  a future that the benchmark no longer holds is not modelled; it cannot
  affect the benchmark.
- Exceptions other than the `IOException`s named in `StartFault` and
  `StopFault` (unchecked exceptions leave the model's domain).
- Logging (`Printer.log`) and `printStackTrace`.
- `PerlConfig.LATENCY_VALUE_SIZE_BYTES` is not part of this model: its value
  is the `latencyValueSizeBytes` field of the configuration.
- LatencyStore.SelectStore: requires the latency bounds, their difference
  and the byte footprint to fit in a Java `long`, instead of modelling
  `long` wrap-around.
- IgniteReader.Read: uses a mathematical integer for `key`; the wrap-around of
  the Java `long` in `key++` is not modelled.
- IgniteReader.RecordRead: uses mathematical integers for `key`, `cnt`,
  bytes and records; Java `long`/`int` overflow is not modelled.
- IgniteReader.RecordReadTime: uses mathematical integers for `key`, `cnt`,
  bytes and records; Java `long`/`int` overflow is not modelled.
- Ignite transactions (`txStart`/`commit`) are brackets without effect; a
  failing commit and remote-call failures are not modelled.
- `Ignite.generateStartKey` and `System.currentTimeMillis()` are parameters.
  So is `DataType.getTime`, an arbitrary function of the payload.
- Session.ShutdownAllowsRestart: covers only the benchmark's own guard on
  `retFuture`. The network server is built once, in the constructor, and a
  gRPC server cannot be started again after a shutdown; the model treats a
  failing `server.start()` as a free fault parameter, so it does not promise
  that a real restart's collaborators succeed.
- `close()` of the reader does nothing and is not modelled.
