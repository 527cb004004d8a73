/** The transactional Ignite reader: a cursor `key` into a cache of byte
    payloads and a count `cnt` of records read so far. `read` fetches one
    record; `recordRead` and `recordReadTime` fetch a batch inside one
    transaction (a bracket without effect on the values read) and report it
    to the benchmark's timing callback. */
module IgniteReader {
  import opened Optional

  newtype Byte = b: int | 0 <= b < 256

  type Bytes = seq<Byte>

  /** The Ignite cache: key to payload; a missing key reads as null. */
  type Cache = map<int, Bytes>

  /** The two benchmark parameters the reader consults. */
  datatype Params = Params(recordsPerReader: int, recordsPerSync: int)

  datatype Reader = Reader(key: int, cnt: int)

  /** The caller's status object, written by the batch reads. */
  datatype Status = Status(startTime: int, endTime: int, bytes: int, records: int)

  /** The arguments given to the timing callback. */
  datatype Report = Report(id: int, startTime: int, endTime: int, bytes: int, records: int)

  /** A batch either ends with an end-of-data exception (having already
      written the status) or is delivered to the callback. */
  datatype BatchOutcome =
    | EndOfData(status: Status)
    | Delivered(reader: Reader, status: Status, report: Report)

  /** A new reader starts at the key the driver derives from the reader id,
      with nothing read. */
  function NewReader(startKey: int): (r: Reader)
    ensures r.key == startKey && r.cnt == 0
  {
    Reader(startKey, 0)
  }

  datatype ReadResult = ReadResult(value: Option<Bytes>, reader: Reader)

  /** `read()`: the payload at the cursor, or null; the cursor moves on only
      when a payload was found. */
  function Read(cache: Cache, rd: Reader): (r: ReadResult)
    ensures r.value.Some? <==> rd.key in cache
    ensures r.value.Some? ==> r.value.value == cache[rd.key]
    ensures r.reader.key == (if r.value.Some? then rd.key + 1 else rd.key)
    ensures r.reader.cnt == rd.cnt
  {
    var ret := if rd.key in cache then Some(cache[rd.key]) else None;
    ReadResult(ret, if ret.Some? then rd.(key := rd.key + 1) else rd)
  }

  /** `n` successive calls of `read()`. */
  function ReadMany(cache: Cache, rd: Reader, n: nat): Reader
    decreases n
  {
    if n == 0 then rd else ReadMany(cache, Read(cache, rd).reader, n - 1)
  }

  /** The number of records a batch asks for: the sync size, capped by what
      is left of the per-reader quota when there is one and it is not yet
      reached. */
  function BatchSize(p: Params, cnt: int): (recs: int)
    ensures recs <= p.recordsPerSync
    ensures p.recordsPerReader > 0 && p.recordsPerReader > cnt ==>
              && cnt + recs <= p.recordsPerReader
              && (recs == p.recordsPerSync || cnt + recs == p.recordsPerReader)
    ensures !(p.recordsPerReader > 0 && p.recordsPerReader > cnt) ==> recs == p.recordsPerSync
  {
    if p.recordsPerReader > 0 && p.recordsPerReader > cnt then
      if p.recordsPerReader - cnt < p.recordsPerSync then p.recordsPerReader - cnt
      else p.recordsPerSync
    else
      p.recordsPerSync
  }

  // ---- What a full scan of `n` keys from `from` finds (used by recordRead).

  /** Number of keys of `[from, from + n)` present in the cache. */
  function CountPresent(cache: Cache, from: int, n: int): (c: nat)
    ensures c <= (if n < 0 then 0 else n)
    decreases n
  {
    if n <= 0 then 0
    else CountPresent(cache, from, n - 1) + (if from + n - 1 in cache then 1 else 0)
  }

  /** Total payload length of the keys of `[from, from + n)` present in the
      cache. */
  function BytesPresent(cache: Cache, from: int, n: int): nat
    decreases n
  {
    if n <= 0 then 0
    else BytesPresent(cache, from, n - 1)
         + (if from + n - 1 in cache then |cache[from + n - 1]| else 0)
  }

  /** The keys of `[from, from + n)` present in the cache. */
  function PresentKeys(cache: Cache, from: int, n: int): set<int>
  {
    set k | k in cache && from <= k < from + n
  }

  /** The scan's count is the number of present keys in the batch range. */
  lemma {:induction false} CountPresentIsCardinality(cache: Cache, from: int, n: int)
    ensures CountPresent(cache, from, n) == |PresentKeys(cache, from, n)|
    decreases n
  {
    if n <= 0 {
      assert PresentKeys(cache, from, n) == {};
    } else {
      CountPresentIsCardinality(cache, from, n - 1);
      var k := from + n - 1;
      if k in cache {
        assert PresentKeys(cache, from, n) == PresentKeys(cache, from, n - 1) + {k};
      } else {
        assert PresentKeys(cache, from, n) == PresentKeys(cache, from, n - 1);
      }
    }
  }

  /** A scan finds nothing exactly when no key of the range is present. */
  lemma {:induction false} CountPresentZero(cache: Cache, from: int, n: int)
    ensures CountPresent(cache, from, n) == 0 <==>
              forall k :: from <= k < from + n ==> k !in cache
    decreases n
  {
    if n > 0 {
      CountPresentZero(cache, from, n - 1);
    }
  }

  // ---- What a scan stopping at the first missing key finds (recordReadTime).

  /** Length of the run of present keys starting at `from`, at most `n`. */
  function RunLength(cache: Cache, from: int, n: int): (r: nat)
    ensures r <= (if n < 0 then 0 else n)
    ensures forall k :: from <= k < from + r ==> k in cache
    ensures r < n ==> from + r !in cache
    decreases n
  {
    if n <= 0 || from !in cache then 0 else 1 + RunLength(cache, from + 1, n - 1)
  }

  /** Total payload length of that run. */
  function RunBytes(cache: Cache, from: int, n: int): nat
    decreases n
  {
    if n <= 0 || from !in cache then 0 else |cache[from]| + RunBytes(cache, from + 1, n - 1)
  }

  /** The first non-zero embedded time along that run, or 0 when every
      record of the run carries time 0 (or the run is empty). */
  function RunStartTime(cache: Cache, getTime: Bytes -> int, from: int, n: int): int
    decreases n
  {
    if n <= 0 || from !in cache then 0
    else if getTime(cache[from]) != 0 then getTime(cache[from])
    else RunStartTime(cache, getTime, from + 1, n - 1)
  }

  /** The run length is the longest run: a count `m` is the run length iff
      every key below it is present and it stops at the batch size or at a
      missing key. */
  lemma RunLengthIsLongestRun(cache: Cache, from: int, n: int, m: nat)
    requires m <= n
    ensures m == RunLength(cache, from, n) <==>
              (forall k :: from <= k < from + m ==> k in cache) && (m == n || from + m !in cache)
  {
  }

  /** The start time is the embedded time of the first record of the run
      whose predecessors in the run all carry time 0; it is 0 exactly when
      every record of the run carries time 0. */
  lemma {:induction false} RunStartTimeIsFirstNonZero(cache: Cache, getTime: Bytes -> int, from: int, n: int)
    ensures var r := RunLength(cache, from, n);
            var t := RunStartTime(cache, getTime, from, n);
            && (t == 0 <==> forall k :: from <= k < from + r ==> getTime(cache[k]) == 0)
            && (t != 0 ==> exists j :: from <= j < from + r && getTime(cache[j]) == t
                              && forall k :: from <= k < j ==> getTime(cache[k]) == 0)
    decreases n
  {
    var r := RunLength(cache, from, n);
    var t := RunStartTime(cache, getTime, from, n);
    if n <= 0 || from !in cache {
    } else if getTime(cache[from]) != 0 {
      assert getTime(cache[from]) == t;
    } else {
      RunStartTimeIsFirstNonZero(cache, getTime, from + 1, n - 1);
      assert RunLength(cache, from + 1, n - 1) == r - 1;
    }
  }

  /** When the first record of the batch carries a non-zero time, that is
      the batch's start time. */
  lemma FirstRecordTimeStartsBatch(cache: Cache, getTime: Bytes -> int, from: int, n: int)
    requires n > 0 && from in cache && getTime(cache[from]) != 0
    ensures RunStartTime(cache, getTime, from, n) == getTime(cache[from])
  {
  }

  /** `recordReadTime` moves the cursor exactly as far as `n` successive
      `read()` calls would. */
  lemma {:induction false} ReadManyFollowsRun(cache: Cache, rd: Reader, n: nat)
    ensures ReadMany(cache, rd, n) == Reader(rd.key + RunLength(cache, rd.key, n), rd.cnt)
    decreases n
  {
    if n > 0 {
      var next := Read(cache, rd).reader;
      ReadManyFollowsRun(cache, next, n - 1);
    }
  }

  /** When every key of the batch range is present, the two scans agree. */
  lemma {:induction false} FullRangeScansAgree(cache: Cache, from: int, n: int)
    requires forall k :: from <= k < from + n ==> k in cache
    ensures RunLength(cache, from, n) == CountPresent(cache, from, n) == (if n < 0 then 0 else n)
    ensures RunBytes(cache, from, n) == BytesPresent(cache, from, n)
    decreases n
  {
    if n > 0 {
      FullRangeScansAgree(cache, from + 1, n - 1);
      ShiftedScan(cache, from, n);
    }
  }

  /** Peeling the first key off a full scan. */
  lemma {:induction false} ShiftedScan(cache: Cache, from: int, n: int)
    requires n > 0
    ensures CountPresent(cache, from, n)
            == (if from in cache then 1 else 0) + CountPresent(cache, from + 1, n - 1)
    ensures BytesPresent(cache, from, n)
            == (if from in cache then |cache[from]| else 0) + BytesPresent(cache, from + 1, n - 1)
    decreases n
  {
    if n > 1 {
      ShiftedScan(cache, from, n - 1);
      assert from + 1 + (n - 1) - 1 == from + n - 1;
    }
  }

  /** `recordRead`: scans the whole batch range in one transaction, counting
      present keys and summing their payload lengths. With no record found
      it throws end-of-data after writing only the start time; otherwise it
      moves the cursor and the count on by the batch size (not by the number
      of records found) and reports `(id, start, end, bytes, records)`.
      `clockStart` and `clockEnd` are the two wall-clock readings. */
  method RecordRead(p: Params, cache: Cache, rd: Reader, status: Status, id: int,
                    clockStart: int, clockEnd: int)
    returns (out: BatchOutcome)
    ensures var recs := BatchSize(p, rd.cnt);
            var records := CountPresent(cache, rd.key, recs);
            var bytes := BytesPresent(cache, rd.key, recs);
            && (out.EndOfData? <==> records == 0)
            && (out.EndOfData? ==> out.status == status.(startTime := clockStart))
            && (out.Delivered? ==>
                  && out.reader == Reader(rd.key + recs, rd.cnt + recs)
                  && out.status == Status(clockStart, clockEnd, bytes, records)
                  && out.report == Report(id, clockStart, clockEnd, bytes, records)
                  && 0 < records <= recs)
  {
    var recs := BatchSize(p, rd.cnt);
    var st := status.(startTime := clockStart);
    var startKey := rd.key;
    var records, bytes := 0, 0;
    var i := 0;
    while i < recs
      invariant 0 <= i && (recs >= 0 ==> i <= recs) && (recs < 0 ==> i == 0)
      invariant startKey == rd.key + i
      invariant records == CountPresent(cache, rd.key, i)
      invariant bytes == BytesPresent(cache, rd.key, i)
    {
      if startKey in cache {
        bytes := bytes + |cache[startKey]|;
        records := records + 1;
      }
      startKey := startKey + 1;
      i := i + 1;
    }
    if records == 0 {
      return EndOfData(st);
    }
    st := st.(records := records, bytes := bytes, endTime := clockEnd);
    out := Delivered(Reader(rd.key + recs, rd.cnt + recs), st,
                     Report(id, st.startTime, st.endTime, st.bytes, st.records));
  }

  /** `recordReadTime`: scans the batch range until the first missing key,
      counting and summing the run and taking as start time the embedded
      time (`getTime`) of its first record with a non-zero time. It never
      throws end-of-data: it moves the cursor and the count on by the number
      of records found (possibly zero) and reports
      `(id, start, end, bytes, records)`. `clockEnd` is the wall-clock
      reading taken after the scan. */
  method RecordReadTime(p: Params, cache: Cache, getTime: Bytes -> int, rd: Reader, id: int,
                        clockEnd: int)
    returns (out: BatchOutcome)
    ensures out.Delivered?
    ensures var recs := BatchSize(p, rd.cnt);
            var records := RunLength(cache, rd.key, recs);
            var bytes := RunBytes(cache, rd.key, recs);
            var start := RunStartTime(cache, getTime, rd.key, recs);
            && out.reader == Reader(rd.key + records, rd.cnt + records)
            && out.status == Status(start, clockEnd, bytes, records)
            && out.report == Report(id, start, clockEnd, bytes, records)
    ensures out.status.records == 0 ==>
              out.reader == rd && out.status.bytes == 0 && out.status.startTime == 0
  {
    var recs := BatchSize(p, rd.cnt);
    var startKey := rd.key;
    var records, bytes, startTime := 0, 0, 0;
    var i := 0;
    while i < recs
      invariant 0 <= i && (recs >= 0 ==> i <= recs)
      invariant startKey == rd.key + i && records == i
      invariant records + RunLength(cache, startKey, recs - i) == RunLength(cache, rd.key, recs)
      invariant bytes + RunBytes(cache, startKey, recs - i) == RunBytes(cache, rd.key, recs)
      invariant (if startTime != 0 then startTime else RunStartTime(cache, getTime, startKey, recs - i))
                == RunStartTime(cache, getTime, rd.key, recs)
    {
      if startKey in cache {
        var result := cache[startKey];
        bytes := bytes + |result|;
        records := records + 1;
        if startTime == 0 {
          startTime := getTime(result);
        }
        startKey := startKey + 1;
        i := i + 1;
      } else {
        break;
      }
    }
    var st := Status(startTime, clockEnd, bytes, records);
    out := Delivered(Reader(rd.key + records, rd.cnt + records), st,
                     Report(id, st.startTime, st.endTime, st.bytes, st.records));
  }

  /** A batch that starts below the per-reader quota never takes the count
      past it (both batch reads move the count by at most the batch size). */
  lemma BatchStaysWithinQuota(p: Params, cache: Cache, rd: Reader)
    requires 0 < p.recordsPerReader && rd.cnt < p.recordsPerReader
    ensures rd.cnt + BatchSize(p, rd.cnt) <= p.recordsPerReader
    ensures rd.cnt + RunLength(cache, rd.key, BatchSize(p, rd.cnt)) <= p.recordsPerReader
  {
  }
}
