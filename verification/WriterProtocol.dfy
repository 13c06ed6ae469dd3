/**
  The batch writer as a protocol: any number of producers, the draining thread
  and one closer, interleaved one queue operation or flag test at a time.
 */
module WriterProtocol {
  import opened BatchWriter

  /** Where the draining thread stands. `Writing(k)`: `k` records of the batch handled. */
  datatype ThreadPc =
    | NotStarted | TestStop | TestEmpty | Getting | Filling | Writing(k: nat) | Counting(k: nat) | Exited

  datatype Thread = Thread(pc: ThreadPc, batch: seq<Record>)

  /** Calls of `enqueue_jsonl` under way: before the put, after a put, after a refusal. */
  datatype Callers = Callers(trying: multiset<Record>, stored: nat, refused: nat)

  datatype CloserPc = Open | Joining | Deciding(threadDead: bool) | Decided(completed: bool, acceptedThen: nat)

  datatype Tally = Tally(enqueued: nat, dropped: nat, written: nat, errors: nat, flushes: nat)

  /** What happened so far; only the proof reads it. */
  datatype Past = Past(attempts: nat, accepted: seq<Record>, finished: seq<Record>, filed: seq<Record>)

  datatype Writer = Writer(
    queue: seq<Record>,
    thread: Thread,
    callers: Callers,
    closer: CloserPc,
    stop: bool,
    tally: Tally,
    files: Files,
    past: Past)

  datatype Sizes = Sizes(batchSize: nat, queueMaxSize: nat)

  datatype WriterStep =
    | BeginEnqueue(record: Record)
    | Put(record: Record)
    | CountStored
    | CountRefused
    | BeginClose
    | JoinReturns(timedOut: bool)
    | Decide
    | ThreadMoves
    | WriteFails

  function Initial(files: Files): Writer {
    Writer([], Thread(NotStarted, []), Callers(multiset{}, 0, 0), Open, false, Tally(0, 0, 0, 0, 0), files,
           Past(0, [], [], []))
  }

  function AfterBegin(w: Writer, record: Record): Writer {
    w.(callers := w.callers.(trying := w.callers.trying + multiset{record}),
       thread := if w.thread.pc == NotStarted then Thread(TestStop, []) else w.thread,
       past := w.past.(attempts := w.past.attempts + 1))
  }

  function AfterPut(z: Sizes, w: Writer, record: Record): Writer {
    if record !in w.callers.trying then w
    else
      var rest := w.callers.(trying := w.callers.trying - multiset{record});
      if |w.queue| < z.queueMaxSize
      then w.(queue := w.queue + [record],
              callers := rest.(stored := rest.stored + 1),
              past := w.past.(accepted := w.past.accepted + [record]))
      else w.(callers := rest.(refused := rest.refused + 1))
  }

  /** One move of the thread's loop: test, get, fill, write, count. */
  function AfterThread(z: Sizes, w: Writer): Writer {
    var t := w.thread;
    match t.pc
    case NotStarted => w
    case Exited => w
    case TestStop => w.(thread := t.(pc := if w.stop then TestEmpty else Getting))
    case TestEmpty => w.(thread := t.(pc := if w.queue == [] then Exited else Getting))
    case Getting =>
      if w.queue == [] then w.(thread := t.(pc := TestStop))
      else w.(thread := Thread(Filling, [w.queue[0]]), queue := w.queue[1..])
    case Filling =>
      if |t.batch| < z.batchSize && w.queue != []
      then w.(thread := Thread(Filling, t.batch + [w.queue[0]]), queue := w.queue[1..])
      else w.(thread := t.(pc := Writing(0)))
    case Writing(k) =>
      if k < |t.batch| then w.(thread := t.(pc := Writing(k + 1)))
      else Closed(w, |t.batch|)
    case Counting(k) =>
      w.(thread := Thread(TestStop, []),
         tally := w.tally.(written := w.tally.written + k, flushes := w.tally.flushes + 1),
         past := w.past.(finished := w.past.finished + t.batch))
  }

  /** The handles closed after `k` records: that much of the batch is in the files. */
  function Closed(w: Writer, k: nat): Writer
    requires k <= |w.thread.batch|
  {
    w.(thread := w.thread.(pc := Counting(k)),
       files := WriteAll(w.files, w.thread.batch[..k]),
       past := w.past.(filed := w.past.filed + w.thread.batch[..k]))
  }

  function AfterFailure(w: Writer): Writer {
    if w.thread.pc.Writing? && w.thread.pc.k < |w.thread.batch|
    then Closed(w, w.thread.pc.k).(tally := w.tally.(errors := w.tally.errors + 1))
    else w
  }

  function AfterClose(w: Writer): Writer {
    if w.closer != Open then w
    else if w.thread.pc == NotStarted then w.(closer := Decided(true, |w.past.accepted|))
    else w.(closer := Joining, stop := true)
  }

  function AfterJoin(w: Writer, timedOut: bool): Writer {
    if w.closer == Joining && (w.thread.pc == Exited || timedOut) then w.(closer := Deciding(w.thread.pc == Exited)) else w
  }

  function AfterDecide(w: Writer): Writer {
    if w.closer.Deciding?
    then w.(closer := Decided(w.closer.threadDead && w.queue == [], |w.past.accepted|))
    else w
  }

  function NextWriter(z: Sizes, w: Writer, step: WriterStep): Writer {
    match step
    case BeginEnqueue(record) => AfterBegin(w, record)
    case Put(record) => AfterPut(z, w, record)
    case CountStored =>
      if w.callers.stored == 0 then w
      else w.(callers := w.callers.(stored := w.callers.stored - 1), tally := w.tally.(enqueued := w.tally.enqueued + 1))
    case CountRefused =>
      if w.callers.refused == 0 then w
      else w.(callers := w.callers.(refused := w.callers.refused - 1), tally := w.tally.(dropped := w.tally.dropped + 1))
    case BeginClose => AfterClose(w)
    case JoinReturns(timedOut) => AfterJoin(w, timedOut)
    case Decide => AfterDecide(w)
    case ThreadMoves => AfterThread(z, w)
    case WriteFails => AfterFailure(w)
  }

  function RunWriter(z: Sizes, w: Writer, steps: seq<WriterStep>): Writer {
    if steps == [] then w
    else NextWriter(z, RunWriter(z, w, steps[..|steps| - 1]), steps[|steps| - 1])
  }

  // ---- What every reachable state keeps ----

  /** Accepted records are finished, in the thread's hands or queued, in that order. */
  ghost predicate NothingLost(w: Writer) {
    w.past.accepted == w.past.finished + w.thread.batch + w.queue
  }

  ghost predicate CountsAgree(w: Writer) {
    && w.past.attempts == w.tally.enqueued + w.tally.dropped + |w.callers.trying| + w.callers.stored + w.callers.refused
    && |w.past.accepted| == w.tally.enqueued + w.callers.stored
    && |w.past.filed| == w.tally.written + (if w.thread.pc.Counting? then w.thread.pc.k else 0)
    && w.tally.written <= |w.past.finished|
  }

  ghost predicate ThreadSound(z: Sizes, w: Writer) {
    var t := w.thread;
    && |w.queue| <= z.queueMaxSize
    && |t.batch| <= z.batchSize
    && (t.batch != [] <==> t.pc.Filling? || t.pc.Writing? || t.pc.Counting?)
    && (t.pc.Writing? ==> t.pc.k <= |t.batch|)
    && (t.pc.Counting? ==> t.pc.k <= |t.batch|)
    && (t.pc == NotStarted ==> w.callers.trying == multiset{} && w.past.accepted == [])
    && (t.pc == TestEmpty || t.pc == Exited ==> w.stop)
  }

  /** Without write errors the files hold the finished records, and a counted batch. */
  ghost predicate FilesSound(files0: Files, w: Writer) {
    && w.files == WriteAll(files0, w.past.filed)
    && (w.tally.errors == 0 ==>
          w.past.filed == if w.thread.pc.Counting? then w.past.finished + w.thread.batch else w.past.finished)
    && (w.tally.errors == 0 && w.thread.pc.Counting? ==> w.thread.pc.k == |w.thread.batch|)
  }

  ghost predicate CloserSound(w: Writer) {
    && (w.stop ==> w.closer != Open && w.thread.pc != NotStarted)
    && (w.closer.Joining? || w.closer.Deciding? ==> w.stop)
    && (w.closer.Deciding? && w.closer.threadDead ==> w.thread.pc == Exited)
    && (w.closer.Decided? ==> w.closer.acceptedThen <= |w.past.accepted|)
    && (w.closer.Decided? && !w.stop ==> w.closer.acceptedThen == 0)
    && (w.closer.Decided? && w.closer.completed && w.stop ==>
          w.thread.pc == Exited && |w.past.finished| == w.closer.acceptedThen)
  }

  ghost predicate WriterInv(z: Sizes, files0: Files, w: Writer) {
    NothingLost(w) && CountsAgree(w) && ThreadSound(z, w) && FilesSound(files0, w) && CloserSound(w)
  }

  lemma InitialInv(z: Sizes, files0: Files)
    ensures WriterInv(z, files0, Initial(files0))
  {}

  lemma BatchGrowsFromQueue(accepted: seq<Record>, finished: seq<Record>, batch: seq<Record>, queue: seq<Record>)
    requires accepted == finished + batch + queue && queue != []
    ensures accepted == finished + (batch + [queue[0]]) + queue[1..]
  {
    assert queue == [queue[0]] + queue[1..];
  }

  lemma ThreadLosesNothing(z: Sizes, w: Writer)
    requires NothingLost(w)
    requires w.thread.batch != [] ==> w.thread.pc.Filling? || w.thread.pc.Writing? || w.thread.pc.Counting?
    ensures NothingLost(AfterThread(z, w))
  {
    if w.queue != [] {
      BatchGrowsFromQueue(w.past.accepted, w.past.finished, w.thread.batch, w.queue);
    }
  }

  lemma PutLosesNothing(z: Sizes, w: Writer, record: Record)
    requires NothingLost(w)
    ensures NothingLost(AfterPut(z, w, record))
  {}

  lemma NothingLostNext(z: Sizes, w: Writer, step: WriterStep)
    requires NothingLost(w)
    requires w.thread.batch != [] ==> w.thread.pc.Filling? || w.thread.pc.Writing? || w.thread.pc.Counting?
    ensures NothingLost(NextWriter(z, w, step))
  {
    match step
    case ThreadMoves => ThreadLosesNothing(z, w);
    case Put(record) => PutLosesNothing(z, w, record);
    case _ =>
  }

  lemma ThreadKeepsCounts(z: Sizes, w: Writer)
    requires CountsAgree(w)
    requires w.thread.pc.Writing? ==> w.thread.pc.k <= |w.thread.batch|
    requires w.thread.pc.Counting? ==> w.thread.pc.k <= |w.thread.batch|
    ensures CountsAgree(AfterThread(z, w))
  {}

  lemma PutKeepsCounts(z: Sizes, w: Writer, record: Record)
    requires CountsAgree(w)
    ensures CountsAgree(AfterPut(z, w, record))
  {}

  lemma CountsAgreeNext(z: Sizes, w: Writer, step: WriterStep)
    requires CountsAgree(w)
    requires w.thread.pc.Writing? ==> w.thread.pc.k <= |w.thread.batch|
    requires w.thread.pc.Counting? ==> w.thread.pc.k <= |w.thread.batch|
    ensures CountsAgree(NextWriter(z, w, step))
  {
    match step
    case ThreadMoves => ThreadKeepsCounts(z, w);
    case Put(record) => PutKeepsCounts(z, w, record);
    case _ =>
  }

  lemma ThreadSoundNext(z: Sizes, files0: Files, w: Writer, step: WriterStep)
    requires WriterInv(z, files0, w) && z.batchSize >= 1
    ensures ThreadSound(z, NextWriter(z, w, step))
  {}

  lemma ClosingFiles(files0: Files, w: Writer, k: nat)
    requires w.files == WriteAll(files0, w.past.filed) && k <= |w.thread.batch|
    ensures Closed(w, k).files == WriteAll(files0, Closed(w, k).past.filed)
  {
    WriteAllSplits(files0, w.past.filed, w.thread.batch[..k]);
  }

  /** The whole batch is in the files. */
  lemma WrittenFilesSound(files0: Files, w: Writer)
    requires FilesSound(files0, w) && w.thread.pc == Writing(|w.thread.batch|)
    ensures FilesSound(files0, Closed(w, |w.thread.batch|))
  {
    ClosingFiles(files0, w, |w.thread.batch|);
    assert w.thread.batch[..|w.thread.batch|] == w.thread.batch;
  }

  lemma CountedFilesSound(z: Sizes, files0: Files, w: Writer)
    requires FilesSound(files0, w) && w.thread.pc.Counting?
    ensures FilesSound(files0, AfterThread(z, w))
  {}

  /** A step that leaves the thread, the files and what they stand for alone. */
  predicate SameFiling(w: Writer, v: Writer) {
    && v.files == w.files && v.past.filed == w.past.filed && v.past.finished == w.past.finished
    && v.tally.errors == w.tally.errors && v.thread.pc.Counting? == w.thread.pc.Counting?
    && (w.thread.pc.Counting? ==> v.thread == w.thread)
  }

  lemma ThreadKeepsFiling(z: Sizes, w: Writer)
    requires !w.thread.pc.Counting?
    requires w.thread.pc.Writing? ==> w.thread.pc.k < |w.thread.batch|
    ensures SameFiling(w, AfterThread(z, w))
  {}

  lemma ThreadFilesSound(z: Sizes, files0: Files, w: Writer)
    requires FilesSound(files0, w)
    requires w.thread.pc.Writing? ==> w.thread.pc.k <= |w.thread.batch|
    ensures FilesSound(files0, AfterThread(z, w))
  {
    if w.thread.pc == Writing(|w.thread.batch|) {
      WrittenFilesSound(files0, w);
    } else if w.thread.pc.Counting? {
      CountedFilesSound(z, files0, w);
    } else {
      ThreadKeepsFiling(z, w);
    }
  }

  lemma FailureFilesSound(files0: Files, w: Writer)
    requires FilesSound(files0, w)
    ensures FilesSound(files0, AfterFailure(w))
  {
    if w.thread.pc.Writing? && w.thread.pc.k < |w.thread.batch| {
      ClosingFiles(files0, w, w.thread.pc.k);
    }
  }

  lemma OthersKeepFiling(z: Sizes, w: Writer, step: WriterStep)
    requires !step.ThreadMoves? && !step.WriteFails?
    ensures SameFiling(w, NextWriter(z, w, step))
  {}

  lemma FilesSoundNext(z: Sizes, files0: Files, w: Writer, step: WriterStep)
    requires FilesSound(files0, w)
    requires w.thread.pc.Writing? ==> w.thread.pc.k <= |w.thread.batch|
    ensures FilesSound(files0, NextWriter(z, w, step))
  {
    match step
    case ThreadMoves => ThreadFilesSound(z, files0, w);
    case WriteFails => FailureFilesSound(files0, w);
    case _ => OthersKeepFiling(z, w, step);
  }

  lemma CloserSoundNext(z: Sizes, files0: Files, w: Writer, step: WriterStep)
    requires WriterInv(z, files0, w)
    ensures CloserSound(NextWriter(z, w, step))
  {}

  lemma WriterInvNext(z: Sizes, files0: Files, w: Writer, step: WriterStep)
    requires WriterInv(z, files0, w) && z.batchSize >= 1
    ensures WriterInv(z, files0, NextWriter(z, w, step))
  {
    NothingLostNext(z, w, step);
    CountsAgreeNext(z, w, step);
    ThreadSoundNext(z, files0, w, step);
    FilesSoundNext(z, files0, w, step);
    CloserSoundNext(z, files0, w, step);
  }

  lemma {:induction false} WriterInvKept(z: Sizes, files0: Files, w: Writer, steps: seq<WriterStep>)
    requires WriterInv(z, files0, w) && z.batchSize >= 1
    ensures WriterInv(z, files0, RunWriter(z, w, steps))
  {
    if steps != [] {
      WriterInvKept(z, files0, w, steps[..|steps| - 1]);
      WriterInvNext(z, files0, RunWriter(z, w, steps[..|steps| - 1]), steps[|steps| - 1]);
    }
  }

  lemma WriterInvAlways(z: Sizes, files0: Files, steps: seq<WriterStep>)
    requires z.batchSize >= 1
    ensures WriterInv(z, files0, RunWriter(z, Initial(files0), steps))
  {
    InitialInv(z, files0);
    WriterInvKept(z, files0, Initial(files0), steps);
  }

  // ---- What it promises ----

  /**
    Counts over every run: attempts and accepted records are all accounted for,
    handled records are written unless a write failed, and the queue never
    passes its bound.
   */
  lemma {:induction false} RecordsConserved(z: Sizes, files0: Files, steps: seq<WriterStep>)
    requires z.batchSize >= 1
    ensures var w := RunWriter(z, Initial(files0), steps);
      && w.past.accepted == w.past.finished + w.thread.batch + w.queue
      && w.past.attempts == |w.past.accepted| + w.tally.dropped + |w.callers.trying| + w.callers.refused
      && w.tally.written <= |w.past.finished| && (w.tally.errors == 0 ==> w.tally.written == |w.past.finished|)
      && |w.queue| <= z.queueMaxSize
  {
    WriterInvAlways(z, files0, steps);
  }

  lemma FinishedAreFiled(files0: Files, w: Writer, path: Path)
    requires NothingLost(w) && FilesSound(files0, w) && w.tally.errors == 0 && !w.thread.pc.Counting?
    ensures w.files == WriteAll(files0, w.past.finished) && w.past.finished <= w.past.accepted
    ensures FileAt(w.files, path) == FileAt(files0, path) + Lines(w.past.finished, path)
  {
    WriteAllAt(files0, w.past.finished, path);
    assert w.past.accepted[..|w.past.finished|] == w.past.finished;
  }

  /**
    Batching is transparent: without write errors, and with no batch half
    counted, the files are what one synchronous write for each finished record
    leaves, whatever the batch size and the interleaving; each path holds its
    accepted lines in enqueue order.
   */
  lemma {:induction false} BatchingIsTransparent(z: Sizes, files0: Files, steps: seq<WriterStep>, path: Path)
    requires z.batchSize >= 1
    requires RunWriter(z, Initial(files0), steps).tally.errors == 0
    requires !RunWriter(z, Initial(files0), steps).thread.pc.Counting?
    ensures var w := RunWriter(z, Initial(files0), steps);
      && w.files == WriteAll(files0, w.past.finished)
      && w.past.finished <= w.past.accepted
      && FileAt(w.files, path) == FileAt(files0, path) + Lines(w.past.finished, path)
  {
    WriterInvAlways(z, files0, steps);
    FinishedAreFiled(files0, RunWriter(z, Initial(files0), steps), path);
  }

  /** A completed close without write errors has written everything accepted when it was decided. */
  lemma {:induction false} CompletedCloseWroteAll(z: Sizes, files0: Files, steps: seq<WriterStep>)
    requires z.batchSize >= 1
    ensures var w := RunWriter(z, Initial(files0), steps);
      w.closer.Decided? && w.closer.completed && w.stop && w.tally.errors == 0 ==>
        && w.closer.acceptedThen <= |w.past.accepted|
        && w.files == WriteAll(files0, w.past.accepted[..w.closer.acceptedThen])
        && w.queue == w.past.accepted[w.closer.acceptedThen..]
  {
    WriterInvAlways(z, files0, steps);
    var w := RunWriter(z, Initial(files0), steps);
    assert w.past.finished + w.thread.batch + w.queue == w.past.finished + (w.thread.batch + w.queue);
  }

  // ---- Write errors ----

  /** A write that fails at a record leaves the batch's records before it in the files, and no other. */
  lemma FailureWritesPrefix(z: Sizes, w: Writer, k: nat)
    requires w.thread.pc == Writing(k) && k < |w.thread.batch|
    ensures var v := NextWriter(z, w, WriteFails);
      && v.files == WriteAll(w.files, w.thread.batch[..k]) && v.tally.errors == w.tally.errors + 1
      && v.past.filed == w.past.filed + w.thread.batch[..k] && v.past.accepted == w.past.accepted
  {}

  /** The records handled that did not reach the files. */
  function Lost(w: Writer): int {
    |w.past.finished| + (if w.thread.pc.Counting? then |w.thread.batch| else 0) - |w.past.filed|
  }

  /** The records lost number at most one batch for each write error. */
  predicate LossBounded(z: Sizes, w: Writer) {
    Lost(w) <= w.tally.errors * z.batchSize
  }

  lemma OneErrorMore(errors: nat, lost: int, batchSize: nat)
    requires lost <= errors * batchSize
    ensures lost + batchSize <= (errors + 1) * batchSize
  {}

  lemma FailureLosesABatch(z: Sizes, w: Writer)
    requires ThreadSound(z, w)
    ensures var v := AfterFailure(w);
      v == w || (v.tally.errors == w.tally.errors + 1 && Lost(v) <= Lost(w) + z.batchSize)
  {}

  lemma ThreadLosesNone(z: Sizes, w: Writer)
    requires ThreadSound(z, w)
    ensures Lost(AfterThread(z, w)) == Lost(w) && AfterThread(z, w).tally.errors == w.tally.errors
  {}

  lemma LossNext(z: Sizes, w: Writer, step: WriterStep)
    requires ThreadSound(z, w) && LossBounded(z, w)
    ensures LossBounded(z, NextWriter(z, w, step))
  {
    match step
    case ThreadMoves => ThreadLosesNone(z, w);
    case WriteFails =>
      FailureLosesABatch(z, w);
      OneErrorMore(w.tally.errors, Lost(w), z.batchSize);
    case _ => OthersKeepFiling(z, w, step);
  }

  /** Over every run a write error loses the rest of its batch at most. */
  lemma {:induction false} ErrorsLoseABatchAtMost(z: Sizes, files0: Files, steps: seq<WriterStep>)
    requires z.batchSize >= 1
    ensures LossBounded(z, RunWriter(z, Initial(files0), steps))
  {
    if steps != [] {
      var front := steps[..|steps| - 1];
      ErrorsLoseABatchAtMost(z, files0, front);
      WriterInvAlways(z, files0, front);
      LossNext(z, RunWriter(z, Initial(files0), front), steps[|steps| - 1]);
    }
  }

  // ---- Closing among calls under way ----

  ghost predicate NoCallBegins(steps: seq<WriterStep>) {
    forall i :: 0 <= i < |steps| ==> !steps[i].BeginEnqueue?
  }

  /** A close that reports a completed flush, of a writer that was started and met no write error. */
  predicate ClosedWell(w: Writer) {
    w.closer.Decided? && w.closer.completed && w.stop && w.tally.errors == 0
  }

  /** No call is about to put, and nothing was put since the close was decided. */
  predicate Quiet(w: Writer) {
    w.callers.trying == multiset{} && (w.closer.Decided? ==> w.closer.acceptedThen == |w.past.accepted|)
  }

  lemma QuietNext(z: Sizes, w: Writer, step: WriterStep)
    requires Quiet(w) && !step.BeginEnqueue?
    ensures Quiet(NextWriter(z, w, step))
  {
    if step.ThreadMoves? { ThreadLeavesCallers(z, w); }
  }

  lemma ThreadLeavesCallers(z: Sizes, w: Writer)
    ensures var v := AfterThread(z, w);
      v.callers == w.callers && v.closer == w.closer && v.past.accepted == w.past.accepted && v.stop == w.stop
  {}

  lemma {:induction false} QuietKept(z: Sizes, w: Writer, steps: seq<WriterStep>)
    requires Quiet(w) && NoCallBegins(steps)
    ensures Quiet(RunWriter(z, w, steps))
  {
    if steps != [] {
      QuietKept(z, w, steps[..|steps| - 1]);
      QuietNext(z, RunWriter(z, w, steps[..|steps| - 1]), steps[|steps| - 1]);
    }
  }

  lemma ClosedWellFiled(z: Sizes, files0: Files, w: Writer)
    requires WriterInv(z, files0, w) && ClosedWell(w)
    ensures w.past.filed == w.past.finished && |w.past.finished| == w.closer.acceptedThen
    ensures w.past.filed == w.past.accepted <==> |w.past.accepted| == w.closer.acceptedThen
  {
    assert w.past.accepted == w.past.finished + (w.thread.batch + w.queue);
  }

  /** However the writer goes on, without new calls, a close that reports completion has lost nothing. */
  ghost predicate NeverLoses(z: Sizes, w: Writer) {
    forall steps :: NoCallBegins(steps) && ClosedWell(RunWriter(z, w, steps)) ==>
      RunWriter(z, w, steps).past.filed == RunWriter(z, w, steps).past.accepted
  }

  lemma QuietNeverLoses(z: Sizes, files0: Files, w: Writer)
    requires WriterInv(z, files0, w) && z.batchSize >= 1 && Quiet(w)
    ensures NeverLoses(z, w)
  {
    forall steps | NoCallBegins(steps) && ClosedWell(RunWriter(z, w, steps))
      ensures RunWriter(z, w, steps).past.filed == RunWriter(z, w, steps).past.accepted {
      WriterInvKept(z, files0, w, steps);
      QuietKept(z, w, steps);
      ClosedWellFiled(z, files0, RunWriter(z, w, steps));
    }
  }

  /** A call under way puts after a well-ended close: its record is accepted and not in the files. */
  lemma LatePutLoses(z: Sizes, files0: Files, w: Writer, record: Record)
    requires WriterInv(z, files0, w) && ClosedWell(w) && z.queueMaxSize >= 1
    requires w.past.filed == w.past.accepted && record in w.callers.trying
    ensures var v := NextWriter(z, w, Put(record)); ClosedWell(v) && v.past.filed != v.past.accepted
  {
    assert w.queue == [] by {
      assert |w.past.accepted| == |w.past.finished| + |w.thread.batch| + |w.queue|;
    }
    assert NextWriter(z, w, Put(record)).past.accepted == w.past.accepted + [record];
  }

  /**
    At a close that ended well and has lost nothing, later loss is ruled out
    exactly when no call is about to put.
   */
  lemma {:induction false} NothingLostLaterIff(z: Sizes, files0: Files, w: Writer)
    requires WriterInv(z, files0, w) && z.batchSize >= 1 && z.queueMaxSize >= 1
    requires ClosedWell(w) && w.past.filed == w.past.accepted
    ensures NeverLoses(z, w) <==> w.callers.trying == multiset{}
  {
    ClosedWellFiled(z, files0, w);
    if record :| record in w.callers.trying {
      LatePutLoses(z, files0, w, record);
      OneStep(z, w, Put(record));
      assert NoCallBegins([Put(record)]);
    } else {
      QuietNeverLoses(z, files0, w);
    }
  }

  lemma OneStep(z: Sizes, w: Writer, step: WriterStep)
    ensures RunWriter(z, w, [step]) == NextWriter(z, w, step)
  {
    assert [step][..0] == [];
    assert RunWriter(z, w, []) == w;
  }

  lemma {:induction false} RunsJoin(z: Sizes, w: Writer, a: seq<WriterStep>, b: seq<WriterStep>)
    ensures RunWriter(z, w, a + b) == RunWriter(z, RunWriter(z, w, a), b)
    ensures NoCallBegins(a) && NoCallBegins(b) ==> NoCallBegins(a + b)
  {
    if b == [] {
      assert a + b == a;
    } else {
      assert (a + b)[..|a + b| - 1] == a + b[..|b| - 1];
      RunsJoin(z, w, a, b[..|b| - 1]);
    }
  }

  // ---- A stopped thread comes to its end ----

  /** What the stopped thread still has to do. */
  function Work(w: Writer): nat
    requires w.thread.pc.Writing? ==> w.thread.pc.k <= |w.thread.batch|
  {
    10 * |w.queue| +
    match w.thread.pc
    case NotStarted => 0
    case Exited => 0
    case TestEmpty => 2
    case TestStop => 3
    case Getting => if w.queue == [] then 4 else 1
    case Counting(k) => 4
    case Writing(k) => 5 + 2 * |w.thread.batch| - k
    case Filling => 6 + 2 * |w.thread.batch|
  }

  lemma ThreadWorks(z: Sizes, w: Writer)
    requires ThreadSound(z, w) && w.stop && w.thread.pc != NotStarted && w.thread.pc != Exited
    requires ThreadSound(z, AfterThread(z, w))
    ensures Work(AfterThread(z, w)) < Work(w)
    ensures AfterThread(z, w).thread.pc != NotStarted && AfterThread(z, w).tally.errors == w.tally.errors
    ensures AfterThread(z, w).thread.pc == Exited ==> AfterThread(z, w).queue == []
  {}

  /** The thread on its own reaches its end, without an error and without touching a call. */
  lemma {:induction false} ThreadEnds(z: Sizes, files0: Files, w: Writer) returns (steps: seq<WriterStep>)
    requires WriterInv(z, files0, w) && z.batchSize >= 1 && w.stop && w.thread.pc != NotStarted
    ensures NoCallBegins(steps) && Ended(w, RunWriter(z, w, steps))
    decreases Work(w)
  {
    if w.thread.pc == Exited {
      steps := [];
    } else {
      var next := AfterThread(z, w);
      WriterInvNext(z, files0, w, ThreadMoves);
      assert NextWriter(z, w, ThreadMoves) == next;
      ThreadWorks(z, w);
      ThreadLeavesCallers(z, w);
      var rest := ThreadEnds(z, files0, next);
      OneStep(z, w, ThreadMoves);
      RunsJoin(z, w, [ThreadMoves], rest);
      steps := [ThreadMoves] + rest;
    }
  }

  /** `v` is `w` after its thread has come to an end by itself. */
  predicate Ended(w: Writer, v: Writer) {
    && v.thread.pc == Exited && v.callers == w.callers && v.closer == w.closer && v.stop == w.stop
    && v.tally.errors == w.tally.errors && (if w.thread.pc == Exited then v == w else v.queue == [])
  }

  lemma JoinThenDecide(z: Sizes, w: Writer)
    requires w.closer == Joining && w.thread.pc == Exited && w.queue == []
    ensures RunWriter(z, w, [JoinReturns(false), Decide]) == w.(closer := Decided(true, |w.past.accepted|))
  {
    var steps: seq<WriterStep> := [JoinReturns(false), Decide];
    assert steps[..1] == [JoinReturns(false)];
    OneStep(z, w, JoinReturns(false));
  }

  /** Closing an open writer, with no put on the way, can end well. */
  lemma CloseCanEndWell(z: Sizes, files0: Files, w: Writer) returns (steps: seq<WriterStep>)
    requires WriterInv(z, files0, w) && z.batchSize >= 1
    requires w.closer == Open && w.thread.pc != NotStarted && w.tally.errors == 0
    ensures NoCallBegins(steps)
    ensures var v := RunWriter(z, w, steps);
      WriterInv(z, files0, v) && ClosedWell(v) && v.past.filed == v.past.accepted && v.callers == w.callers
  {
    var closing := NextWriter(z, w, BeginClose);
    WriterInvNext(z, files0, w, BeginClose);
    OneStep(z, w, BeginClose);
    var run := ThreadEnds(z, files0, closing);
    var ended := RunWriter(z, closing, run);
    JoinThenDecide(z, ended);
    RunsJoin(z, w, [BeginClose], run);
    RunsJoin(z, w, [BeginClose] + run, [JoinReturns(false), Decide]);
    steps := [BeginClose] + run + [JoinReturns(false), Decide];
    WriterInvKept(z, files0, w, steps);
    ClosedWellFiled(z, files0, RunWriter(z, w, steps));
  }

  /**
    No loss at shutdown, by the calls: for an open, started writer without a
    write error, and no call begun from here on, a close that ends well loses
    nothing, then or later, exactly when no call is about to put.
   */
  lemma {:induction false} CloseLosesNothingIff(z: Sizes, files0: Files, w: Writer)
    requires WriterInv(z, files0, w) && z.batchSize >= 1 && z.queueMaxSize >= 1
    requires w.closer == Open && w.thread.pc != NotStarted && w.tally.errors == 0
    ensures NeverLoses(z, w) <==> w.callers.trying == multiset{}
  {
    if record :| record in w.callers.trying {
      var steps := CloseCanEndWell(z, files0, w);
      LatePutLoses(z, files0, RunWriter(z, w, steps), record);
      OneStep(z, RunWriter(z, w, steps), Put(record));
      RunsJoin(z, w, steps, [Put(record)]);
      assert ClosedWell(RunWriter(z, w, steps + [Put(record)]));
    } else {
      QuietNeverLoses(z, files0, w);
    }
  }

  /** The thread never comes back: once it has left, the files stay as they are. */
  lemma {:induction false} NothingWrittenAfterExit(z: Sizes, w: Writer, steps: seq<WriterStep>)
    requires w.thread.pc == Exited
    ensures RunWriter(z, w, steps).thread.pc == Exited && RunWriter(z, w, steps).files == w.files
  {
    if steps != [] {
      NothingWrittenAfterExit(z, w, steps[..|steps| - 1]);
    }
  }

  lemma RunStep(z: Sizes, w: Writer, steps: seq<WriterStep>, i: nat)
    requires i < |steps|
    ensures RunWriter(z, w, steps[..i + 1]) == NextWriter(z, RunWriter(z, w, steps[..i]), steps[i])
  {
    assert steps[..i + 1][..i] == steps[..i];
  }

  ghost const LATE_RECORD := BatchWriter.Record(Path("a"), "x")

  ghost const LATE_PUT: seq<WriterStep> :=
    [BeginEnqueue(LATE_RECORD), BeginClose, ThreadMoves, ThreadMoves, JoinReturns(false), Decide, Put(LATE_RECORD)]

  ghost const LATE_RUN := RunWriter(Sizes(1, 1), Initial(map[]), LATE_PUT)

  lemma ThreadLeavesFirst()
    ensures RunWriter(Sizes(1, 1), Initial(map[]), LATE_PUT[..4]) ==
      Writer([], Thread(Exited, []), Callers(multiset{LATE_RECORD}, 0, 0), Joining, true, Tally(0, 0, 0, 0, 0), map[],
             Past(1, [], [], []))
  {
    var z, w0 := Sizes(1, 1), Initial(map[]);
    assert LATE_PUT[..0] == [];
    RunStep(z, w0, LATE_PUT, 0);
    RunStep(z, w0, LATE_PUT, 1);
    RunStep(z, w0, LATE_PUT, 2);
    RunStep(z, w0, LATE_PUT, 3);
    var w2 := AfterClose(AfterBegin(w0, LATE_RECORD));
    assert w2 == Writer([], Thread(TestStop, []), Callers(multiset{LATE_RECORD}, 0, 0), Joining, true,
                        Tally(0, 0, 0, 0, 0), map[], Past(1, [], [], []));
  }

  lemma ThenTheCallPuts()
    ensures LATE_RUN == Writer([LATE_RECORD], Thread(Exited, []), Callers(multiset{}, 1, 0), Decided(true, 0), true,
                              Tally(0, 0, 0, 0, 0), map[], Past(1, [LATE_RECORD], [], []))
  {
    var z, w0 := Sizes(1, 1), Initial(map[]);
    ThreadLeavesFirst();
    RunStep(z, w0, LATE_PUT, 4);
    RunStep(z, w0, LATE_PUT, 5);
    RunStep(z, w0, LATE_PUT, 6);
    assert LATE_PUT[..7] == LATE_PUT;
    assert multiset{LATE_RECORD} - multiset{LATE_RECORD} == multiset{};
  }

  /**
    A call begun before the close can still lose its record: it puts after the
    close was decided, and the close reports a completed flush.
   */
  lemma CallBegunBeforeCloseCanLose(more: seq<WriterStep>)
    ensures LATE_RUN.closer.Decided? && LATE_RUN.closer.completed
    ensures LATE_RUN.past.accepted == [LATE_RECORD]
    ensures RunWriter(Sizes(1, 1), LATE_RUN, more).files == map[]
  {
    ThenTheCallPuts();
    NothingWrittenAfterExit(Sizes(1, 1), LATE_RUN, more);
  }
}
