/**
  The JSONL writer that keeps file writes off the receive path: what one batch
  does to the files, against one synchronous write for each record.
 */
module BatchWriter {
  import opened Options

  datatype Path = Path(name: string)

  /** `line` is the record's JSON text. */
  datatype Record = Record(path: Path, line: string)

  type Files = map<Path, seq<string>>

  function FileAt(files: Files, path: Path): seq<string> {
    if path in files then files[path] else []
  }

  /** `write_jsonl_sync`: one line appended. */
  function WriteSync(files: Files, record: Record): Files {
    files[record.path := FileAt(files, record.path) + [record.line]]
  }

  function WriteAll(files: Files, records: seq<Record>): Files {
    if records == [] then files
    else WriteSync(WriteAll(files, records[..|records| - 1]), records[|records| - 1])
  }

  /** The lines of one path, in order. */
  function Lines(records: seq<Record>, path: Path): seq<string> {
    if records == [] then []
    else Lines(records[..|records| - 1], path)
         + if records[|records| - 1].path == path then [records[|records| - 1].line] else []
  }

  lemma {:induction false} WriteAllAt(files: Files, records: seq<Record>, path: Path)
    ensures FileAt(WriteAll(files, records), path) == FileAt(files, path) + Lines(records, path)
    ensures path in WriteAll(files, records) <==> path in files || Lines(records, path) != []
  {
    if records != [] {
      WriteAllAt(files, records[..|records| - 1], path);
    }
  }

  lemma {:induction false} WriteAllSplits(files: Files, a: seq<Record>, b: seq<Record>)
    ensures WriteAll(files, a + b) == WriteAll(WriteAll(files, a), b)
  {
    if b == [] {
      assert a + b == a;
    } else {
      var front, last := b[..|b| - 1], b[|b| - 1];
      assert (a + b)[..|a + b| - 1] == a + front && (a + b)[|a + b| - 1] == last;
      WriteAllSplits(files, a, front);
    }
  }

  predicate SameAt(a: Files, b: Files, p: Path) {
    FileAt(a, p) == FileAt(b, p) && (p in a <==> p in b)
  }

  /** Files with the same lines everywhere and the same paths are the same files. */
  lemma SameFiles(a: Files, b: Files)
    requires forall p :: SameAt(a, b, p)
    ensures a == b
  {
    forall p | p in a ensures p in b && a[p] == b[p] {
      assert SameAt(a, b, p);
    }
    forall p ensures p in a <==> p in b { assert SameAt(a, b, p); }
  }

  /** The open handles hold the records' lines, and there is a handle exactly for each of their paths. */
  ghost predicate Buffers(handles: Files, records: seq<Record>) {
    forall p :: BuffersAt(handles, records, p)
  }

  predicate BuffersAt(handles: Files, records: seq<Record>, p: Path) {
    FileAt(handles, p) == Lines(records, p) && (p in handles <==> Lines(records, p) != [])
  }

  lemma BuffersNext(handles: Files, records: seq<Record>, record: Record)
    requires Buffers(handles, records)
    ensures Buffers(WriteSync(handles, record), records + [record])
  {
    assert (records + [record])[..|records|] == records;
    forall p ensures BuffersAt(WriteSync(handles, record), records + [record], p) {
      assert BuffersAt(handles, records, p);
    }
  }

  class JsonlBatchWriter {
    const batchSize: nat
    const queueMaxSize: nat
    var queue: seq<Record>
    var files: Files
    var droppedRecords: nat
    var errorCount: nat
    var recordsEnqueued: nat
    var recordsWritten: nat
    var flushCount: nat

    /** `max(1, ...)` of both sizes. */
    ghost predicate Valid()
      reads `queue
    {
      batchSize >= 1 && queueMaxSize >= 1 && |queue| <= queueMaxSize
    }

    constructor (batchSize: int, queueMaxSize: int, files: Files)
      ensures Valid() && queue == [] && this.files == files
      ensures this.batchSize == if batchSize > 1 then batchSize else 1
      ensures this.queueMaxSize == if queueMaxSize > 1 then queueMaxSize else 1
      ensures droppedRecords == errorCount == recordsEnqueued == recordsWritten == flushCount == 0
    {
      this.batchSize := if batchSize > 1 then batchSize else 1;
      this.queueMaxSize := if queueMaxSize > 1 then queueMaxSize else 1;
      queue := [];
      this.files := files;
      droppedRecords, errorCount, recordsEnqueued, recordsWritten, flushCount := 0, 0, 0, 0, 0;
    }

    method EnqueueJsonl(record: Record) returns (enqueued: bool)
      requires Valid()
      modifies `queue, `droppedRecords, `recordsEnqueued
      ensures Valid()
      ensures enqueued <==> |old(queue)| < queueMaxSize
      ensures queue == if enqueued then old(queue) + [record] else old(queue)
      ensures recordsEnqueued == old(recordsEnqueued) + if enqueued then 1 else 0
      ensures droppedRecords == old(droppedRecords) + if enqueued then 0 else 1
    {
      if |queue| >= queueMaxSize {
        droppedRecords := droppedRecords + 1;
        return false;
      }
      queue := queue + [record];
      recordsEnqueued := recordsEnqueued + 1;
      return true;
    }

    /** Undisturbed by producers: the oldest `batchSize` records, or all there are. */
    method NextBatch() returns (batch: seq<Record>)
      requires Valid()
      modifies `queue
      ensures Valid()
      ensures batch + queue == old(queue)
      ensures |batch| == if |old(queue)| < batchSize then |old(queue)| else batchSize
    {
      if queue == [] {
        return [];
      }
      batch := [queue[0]];
      queue := queue[1..];
      while |batch| < batchSize && queue != []
        invariant Valid()
        invariant batch + queue == old(queue)
        invariant 1 <= |batch| <= batchSize
        decreases |queue|
      {
        batch := batch + [queue[0]];
        queue := queue[1..];
      }
    }

    /**
      One handle a path, opened at its first record and closed at the end. An
      exception at record `failAt` ends the loop; closing keeps what came before.
     */
    method FlushBatch(batch: seq<Record>, failAt: Option<nat>)
      requires failAt.Some? ==> failAt.value < |batch|
      modifies `files, `errorCount, `recordsWritten, `flushCount
      ensures var count := if failAt.Some? then failAt.value else |batch|;
        files == WriteAll(old(files), batch[..count]) && recordsWritten == old(recordsWritten) + count
      ensures errorCount == old(errorCount) + if failAt.Some? then 1 else 0
      ensures flushCount == old(flushCount) + 1
    {
      var handles, written := BufferBatch(batch, failAt);
      CloseHandles(handles, batch[..written]);
      if written < |batch| {
        errorCount := errorCount + 1;
      }
      recordsWritten := recordsWritten + written;
      flushCount := flushCount + 1;
    }

    /** The record loop of a flush, up to its end or the exception. */
    method BufferBatch(batch: seq<Record>, failAt: Option<nat>) returns (handles: Files, written: nat)
      requires failAt.Some? ==> failAt.value < |batch|
      ensures written == if failAt.Some? then failAt.value else |batch|
      ensures Buffers(handles, batch[..written])
    {
      handles := map[];
      written := 0;
      while written < |batch| && failAt != Some(written)
        invariant written <= if failAt.Some? then failAt.value else |batch|
        invariant Buffers(handles, batch[..written])
      {
        var record := batch[written];
        ghost var before := handles;
        BuffersNext(handles, batch[..written], record);
        assert batch[..written + 1] == batch[..written] + [record];
        if record.path !in handles {
          handles := handles[record.path := []];
        }
        handles := handles[record.path := handles[record.path] + [record.line]];
        assert handles == WriteSync(before, record);
        written := written + 1;
      }
    }

    /** Closing a handle appends its buffered lines to its file. */
    method CloseHandles(handles: Files, ghost written: seq<Record>)
      requires Buffers(handles, written)
      modifies `files
      ensures files == WriteAll(old(files), written)
    {
      var open := handles.Keys;
      while open != {}
        invariant open <= handles.Keys
        invariant forall p :: FileAt(files, p) == FileAt(old(files), p) + (if p in open then [] else FileAt(handles, p))
        invariant forall p :: p in files <==> p in old(files) || (p in handles && p !in open)
        decreases open
      {
        var p :| p in open;
        files := files[p := FileAt(files, p) + handles[p]];
        open := open - {p};
      }
      forall p ensures SameAt(files, WriteAll(old(files), written), p) {
        WriteAllAt(old(files), written, p);
        assert BuffersAt(handles, written, p);
      }
      SameFiles(files, WriteAll(old(files), written));
    }
  }
}
