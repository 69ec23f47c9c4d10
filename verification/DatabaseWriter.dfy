/**
 The asynchronous database writer as a state machine: any number of producers, the one writer
 thread that swaps its batch with the queue, and the thread that starts and stops it.
 */
module DatabaseWriter {

  datatype Record =
    | GpsUpdate(gps: int)
    | LinearAcceleration(la: int)
    | RotationVector(rv: int)
    | EkfOutput(ekf: int)

  /** Where the writer thread stands between two critical sections or calls. */
  datatype Writer = Absent | Testing | Waiting | Writing | Flushing | FinalWriting | Finished

  datatype Stats = Stats(gpsQueued: nat, ekfQueued: nat, gpsWritten: nat, ekfWritten: nat, failedWrites: nat, depth: nat)

  /** A batch the writer is done with: committed, or rolled back after some insertions. */
  datatype Batch = Batch(records: seq<Record>, inserted: nat, committed: bool)

  datatype State = State(
    running: bool, stopRequested: bool, joining: bool, writer: Writer,
    queue: seq<Record>, batch: seq<Record>, rows: seq<Record>, stats: Stats,
    // history: everything ever queued, the batches done, and how much was queued at the stop request
    enqueued: seq<Record>, done: seq<Batch>, mark: nat)

  function Initial(): State {
    State(false, false, false, Absent, [], [], [], Stats(0, 0, 0, 0, 0, 0), [], [], 0)
  }

  datatype Step =
    | EnqueueGpsUpdate(gps: int)
    | EnqueueLinearAcceleration(la: int)
    | EnqueueRotationVector(rv: int)
    | EnqueueEkfOutput(ekf: int)
    | Start
    | Stop
    | Joined
    | TestStop
    | Swap
    | Write(inserted: nat, committed: bool)
    | FlushSwap
    | FinalWrite(inserted: nat, committed: bool)

  predicate Enabled(s: State, step: Step) {
    match step
    case Start => !s.joining
    case Stop => !s.joining
    case Joined => s.joining && s.writer.Finished?
    case TestStop => s.writer.Testing?
    case Swap => s.writer.Waiting?
    case Write(n, ok) => s.writer.Writing? && n <= |s.batch| && (ok ==> n == |s.batch|)
    case FlushSwap => s.writer.Flushing?
    case FinalWrite(n, ok) => s.writer.FinalWriting? && n <= |s.batch| && (ok ==> n == |s.batch|)
    case _ => true
  }

  function Queued(s: State, r: Record): State {
    var q := s.queue + [r];
    s.(queue := q, enqueued := s.enqueued + [r],
       stats := s.stats.(depth := |q|,
                         gpsQueued := s.stats.gpsQueued + (if r.GpsUpdate? then 1 else 0),
                         ekfQueued := s.stats.ekfQueued + (if r.EkfOutput? then 1 else 0)))
  }

  function CountGps(rs: seq<Record>): nat {
    if rs == [] then 0 else CountGps(rs[..|rs| - 1]) + if rs[|rs| - 1].GpsUpdate? then 1 else 0
  }

  function CountEkf(rs: seq<Record>): nat {
    if rs == [] then 0 else CountEkf(rs[..|rs| - 1]) + if rs[|rs| - 1].EkfOutput? then 1 else 0
  }

  /** The counters after the insertion of the records. */
  function Inserted(t: Stats, rs: seq<Record>): Stats {
    t.(gpsWritten := t.gpsWritten + CountGps(rs), ekfWritten := t.ekfWritten + CountEkf(rs))
  }

  /** WriteBatch: the counters of written records move with every insertion, the rows only at the commit. */
  function Written(s: State, n: nat, ok: bool): State
    requires n <= |s.batch|
  {
    s.(rows := if ok then s.rows + s.batch else s.rows,
       done := s.done + [Batch(s.batch, n, ok)],
       batch := [],
       stats := Inserted(s.stats, s.batch[..n]).(failedWrites := s.stats.failedWrites + if ok then 0 else 1))
  }

  /** A step that is not enabled does nothing; the two kinds of inertial records are accepted and dropped. */
  function Apply(s: State, step: Step): State {
    if !Enabled(s, step) then s
    else match step
      case EnqueueGpsUpdate(u) => Queued(s, GpsUpdate(u))
      case EnqueueEkfOutput(o) => Queued(s, EkfOutput(o))
      case EnqueueLinearAcceleration(_) => s
      case EnqueueRotationVector(_) => s
      case Start =>
        if s.running then s else s.(running := true, stopRequested := false, writer := Testing)
      case Stop =>
        if !s.running then s else s.(running := false, stopRequested := true, joining := true, mark := |s.enqueued|)
      case Joined => s.(joining := false, writer := Absent)
      case TestStop => s.(writer := if s.stopRequested then Flushing else Waiting)
      case Swap => s.(batch := s.queue, queue := s.batch, writer := if s.queue == [] then Testing else Writing)
      case Write(n, ok) => Written(s, n, ok).(writer := Testing)
      case FlushSwap => s.(batch := s.queue, queue := s.batch, writer := if s.queue == [] then Finished else FinalWriting)
      case FinalWrite(n, ok) => Written(s, n, ok).(writer := Finished)
  }

  function After(s: State, schedule: seq<Step>): State {
    if schedule == [] then s else Apply(After(s, schedule[..|schedule| - 1]), schedule[|schedule| - 1])
  }

  // ---------- what every step keeps ----------

  function Records(bs: seq<Batch>): seq<Record> {
    if bs == [] then [] else Records(bs[..|bs| - 1]) + bs[|bs| - 1].records
  }

  function Committed(bs: seq<Batch>): seq<Record> {
    if bs == [] then []
    else Committed(bs[..|bs| - 1]) + if bs[|bs| - 1].committed then bs[|bs| - 1].records else []
  }

  function Failures(bs: seq<Batch>): nat {
    if bs == [] then 0 else Failures(bs[..|bs| - 1]) + if bs[|bs| - 1].committed then 0 else 1
  }

  /** The records of either kind in batches that were rolled back after they had been inserted. */
  function GpsLost(bs: seq<Batch>): nat {
    if bs == [] then 0
    else
      var b := bs[|bs| - 1];
      GpsLost(bs[..|bs| - 1]) + if b.committed || b.inserted > |b.records| then 0 else CountGps(b.records[..b.inserted])
  }

  function EkfLost(bs: seq<Batch>): nat {
    if bs == [] then 0
    else
      var b := bs[|bs| - 1];
      EkfLost(bs[..|bs| - 1]) + if b.committed || b.inserted > |b.records| then 0 else CountEkf(b.records[..b.inserted])
  }

  predicate Ordered(s: State) {
    && s.enqueued == Records(s.done) + s.batch + s.queue
    && s.rows == Committed(s.done)
    && s.stats.failedWrites == Failures(s.done)
  }

  predicate Phases(s: State) {
    && (s.batch != [] ==> s.writer.Writing? || s.writer.FinalWriting?)
    && (s.running == !(s.joining || s.writer.Absent?))
    && (s.joining ==> !s.writer.Absent?)
    && (s.writer.Flushing? || s.writer.FinalWriting? || s.writer.Finished? ==> s.joining)
    && (s.stopRequested && !s.writer.Absent? ==> s.joining)
    && s.mark <= |s.enqueued|
    && (s.writer.FinalWriting? || s.writer.Finished? ==> |s.queue| + s.mark <= |s.enqueued|)
  }

  predicate Counted(s: State) {
    && s.stats.gpsWritten == CountGps(s.rows) + GpsLost(s.done)
    && s.stats.ekfWritten == CountEkf(s.rows) + EkfLost(s.done)
    && s.stats.gpsQueued == CountGps(s.enqueued)
    && s.stats.ekfQueued == CountEkf(s.enqueued)
    && s.stats.gpsQueued + s.stats.ekfQueued == |s.enqueued|
  }

  predicate Inv(s: State) {
    Ordered(s) && Phases(s) && Counted(s)
  }

  lemma {:induction false} CountsConcat(a: seq<Record>, b: seq<Record>)
    ensures CountGps(a + b) == CountGps(a) + CountGps(b)
    ensures CountEkf(a + b) == CountEkf(a) + CountEkf(b)
  {
    if b == [] {
      assert a + b == a;
    } else {
      var n := |b| - 1;
      CountsConcat(a, b[..n]);
      assert (a + b)[..|a| + n] == a + b[..n];
    }
  }

  lemma QueuedKeeps(s: State, r: Record)
    requires Inv(s) && (r.GpsUpdate? || r.EkfOutput?)
    ensures Inv(Queued(s, r))
  {
    var t := Queued(s, r);
    assert t.enqueued[..|s.enqueued|] == s.enqueued;
    assert Records(s.done) + s.batch + (s.queue + [r]) == (Records(s.done) + s.batch + s.queue) + [r];
  }

  lemma DoneAppend(bs: seq<Batch>, b: Batch)
    requires b.inserted <= |b.records|
    ensures var c := bs + [b];
      && Records(c) == Records(bs) + b.records
      && Committed(c) == Committed(bs) + (if b.committed then b.records else [])
      && Failures(c) == Failures(bs) + (if b.committed then 0 else 1)
      && GpsLost(c) == GpsLost(bs) + (if b.committed then 0 else CountGps(b.records[..b.inserted]))
      && EkfLost(c) == EkfLost(bs) + (if b.committed then 0 else CountEkf(b.records[..b.inserted]))
  {
    assert (bs + [b])[..|bs|] == bs;
  }

  lemma WrittenKeeps(s: State, n: nat, ok: bool, w: Writer)
    requires Inv(s) && n <= |s.batch| && (ok ==> n == |s.batch|)
    requires (s.writer.Writing? && w.Testing?) || (s.writer.FinalWriting? && w.Finished?)
    ensures Inv(Written(s, n, ok).(writer := w))
  {
    hide CountGps, CountEkf, Records, Committed, Failures, GpsLost, EkfLost;
    var b := Batch(s.batch, n, ok);
    DoneAppend(s.done, b);
    assert ok ==> s.batch[..n] == s.batch;
    WrittenOrdered(s, n, ok, w, b);
    WrittenCounted(s, n, ok, w, b);
  }

  lemma WrittenOrdered(s: State, n: nat, ok: bool, w: Writer, b: Batch)
    requires Ordered(s) && n <= |s.batch| && b == Batch(s.batch, n, ok)
    ensures Ordered(Written(s, n, ok).(writer := w))
  {
    hide CountGps, CountEkf, Records, Committed, Failures, GpsLost, EkfLost;
    DoneAppend(s.done, b);
    var r := Records(s.done) + s.batch;
    assert r + [] == r && s.rows + [] == s.rows;
  }

  lemma WrittenCounted(s: State, n: nat, ok: bool, w: Writer, b: Batch)
    requires Counted(s) && n <= |s.batch| && (ok ==> n == |s.batch|) && b == Batch(s.batch, n, ok)
    ensures Counted(Written(s, n, ok).(writer := w))
  {
    hide CountGps, CountEkf, Records, Committed, Failures, GpsLost, EkfLost;
    DoneAppend(s.done, b);
    CountsConcat(s.rows, s.batch);
    assert ok ==> s.batch[..n] == s.batch;
  }

  lemma ApplyKeeps(s: State, step: Step)
    requires Inv(s)
    ensures Inv(Apply(s, step))
  {
    hide CountGps, CountEkf, Records, Committed, Failures, GpsLost, EkfLost, Queued, Written;
    if Enabled(s, step) {
      match step
      case EnqueueGpsUpdate(u) => QueuedKeeps(s, GpsUpdate(u));
      case EnqueueEkfOutput(o) => QueuedKeeps(s, EkfOutput(o));
      case Write(n, ok) => WrittenKeeps(s, n, ok, Testing);
      case FinalWrite(n, ok) => WrittenKeeps(s, n, ok, Finished);
      case Swap => SwapKeeps(s);
      case FlushSwap => SwapKeeps(s);
      case _ =>
    }
  }

  lemma SwapKeeps(s: State)
    requires Inv(s) && s.batch == []
    ensures Records(s.done) + s.queue + s.batch == s.enqueued
  {
  }

  lemma {:induction false} Reachable(schedule: seq<Step>)
    ensures Inv(After(Initial(), schedule))
  {
    hide Apply;
    if schedule != [] {
      var n := |schedule| - 1;
      Reachable(schedule[..n]);
      ApplyKeeps(After(Initial(), schedule[..n]), schedule[n]);
    }
  }

  lemma {:induction false} AfterConcat(s: State, a: seq<Step>, b: seq<Step>)
    ensures After(s, a + b) == After(After(s, a), b)
  {
    hide Apply;
    if b == [] {
      assert a + b == a;
    } else {
      var n := |b| - 1;
      AfterConcat(s, a, b[..n]);
      assert (a + b)[..|a| + n] == a + b[..n];
    }
  }

  // ---------- what a schedule has asked for ----------

  predicate IsWrite(step: Step) {
    step.Write? || step.FinalWrite?
  }

  /** The record a step queues. */
  function SubmittedBy(step: Step): seq<Record> {
    match step
    case EnqueueGpsUpdate(u) => [GpsUpdate(u)]
    case EnqueueEkfOutput(o) => [EkfOutput(o)]
    case _ => []
  }

  /** The records queued in the course of a schedule. */
  function Submitted(schedule: seq<Step>): seq<Record> {
    if schedule == [] then [] else SubmittedBy(schedule[0]) + Submitted(schedule[1..])
  }

  /** The batch a step writes in state s: if it commits, or in any case. */
  function WrittenBy(s: State, step: Step, committedOnly: bool): seq<Record> {
    if IsWrite(step) && Enabled(s, step) && (committedOnly ==> step.committed) then s.batch else []
  }

  /** The batches written in the course of a schedule from s, joined: those committed only, or all. */
  function Transactions(s: State, schedule: seq<Step>, committedOnly: bool): seq<Record>
    decreases |schedule|
  {
    if schedule == [] then []
    else WrittenBy(s, schedule[0], committedOnly) + Transactions(Apply(s, schedule[0]), schedule[1..], committedOnly)
  }

  /** Whether a step is a transaction that fails in state s. */
  predicate RollsBack(s: State, step: Step) {
    IsWrite(step) && Enabled(s, step) && !step.committed
  }

  /** The transactions that fail in the course of a schedule from s. */
  function Rollbacks(s: State, schedule: seq<Step>): nat
    decreases |schedule|
  {
    if schedule == [] then 0
    else (if RollsBack(s, schedule[0]) then 1 else 0) + Rollbacks(Apply(s, schedule[0]), schedule[1..])
  }

  lemma RowsOfWrite(s: State, step: Step)
    requires IsWrite(step) && Enabled(s, step)
    ensures var t := Apply(s, step);
      && t.enqueued == s.enqueued + SubmittedBy(step)
      && t.rows == s.rows + WrittenBy(s, step, true)
      && t.stats.failedWrites == s.stats.failedWrites + (if RollsBack(s, step) then 1 else 0)
      && Records(t.done) == Records(s.done) + WrittenBy(s, step, false)
  {
    hide Records, Inserted;
    assert s.rows + [] == s.rows && s.enqueued + [] == s.enqueued;
    RecordsAppend(s.done, Batch(s.batch, step.inserted, step.committed));
  }

  lemma RecordsAppend(bs: seq<Batch>, b: Batch)
    ensures Records(bs + [b]) == Records(bs) + b.records
  {
    assert (bs + [b])[..|bs|] == bs;
  }

  lemma RowsOfOther(s: State, step: Step)
    requires !(IsWrite(step) && Enabled(s, step))
    ensures var t := Apply(s, step);
      && t.enqueued == s.enqueued + SubmittedBy(step)
      && t.rows == s.rows + WrittenBy(s, step, true)
      && t.stats.failedWrites == s.stats.failedWrites + (if RollsBack(s, step) then 1 else 0)
      && Records(t.done) == Records(s.done) + WrittenBy(s, step, false)
  {
    hide Records, Written;
    assert s.rows + [] == s.rows && s.enqueued + [] == s.enqueued && Records(s.done) + [] == Records(s.done);
  }

  lemma RowsStep(s: State, step: Step)
    ensures var t := Apply(s, step);
      && t.enqueued == s.enqueued + SubmittedBy(step)
      && t.rows == s.rows + WrittenBy(s, step, true)
      && t.stats.failedWrites == s.stats.failedWrites + (if RollsBack(s, step) then 1 else 0)
      && Records(t.done) == Records(s.done) + WrittenBy(s, step, false)
  {
    hide Apply, Records, SubmittedBy, WrittenBy, RollsBack;
    if IsWrite(step) && Enabled(s, step) {
      RowsOfWrite(s, step);
    } else {
      RowsOfOther(s, step);
    }
  }

  lemma AfterFront(s: State, schedule: seq<Step>)
    requires schedule != []
    ensures After(s, schedule) == After(Apply(s, schedule[0]), schedule[1..])
  {
    hide Apply;
    AfterConcat(s, schedule[..1], schedule[1..]);
    assert schedule[..1] + schedule[1..] == schedule && schedule[..1][..0] == [];
  }

  lemma Joined3(a: seq<Record>, b: seq<Record>, c: seq<Record>)
    ensures (a + b) + c == a + (b + c)
  {
  }

  /** From s on, the schedule adds to the rows, the failures, the records queued and the batches done what it asks for. */
  lemma {:induction false} RowsFollow(s: State, schedule: seq<Step>)
    requires Inv(s)
    ensures var t := After(s, schedule);
      && Inv(t)
      && t.rows == s.rows + Transactions(s, schedule, true)
      && t.stats.failedWrites == s.stats.failedWrites + Rollbacks(s, schedule)
      && t.enqueued == s.enqueued + Submitted(schedule)
      && Records(t.done) == Records(s.done) + Transactions(s, schedule, false)
    decreases |schedule|
  {
    hide Apply, Inv, SubmittedBy, WrittenBy, RollsBack;
    if schedule == [] {
      assert s.rows + [] == s.rows && s.enqueued + [] == s.enqueued && Records(s.done) + [] == Records(s.done);
    } else {
      var step, rest := schedule[0], schedule[1..];
      var u := Apply(s, step);
      ApplyKeeps(s, step);
      RowsStep(s, step);
      AfterFront(s, schedule);
      RowsFollow(u, rest);
      Joined3(s.rows, WrittenBy(s, step, true), Transactions(u, rest, true));
      Joined3(s.enqueued, SubmittedBy(step), Submitted(rest));
      Joined3(Records(s.done), WrittenBy(s, step, false), Transactions(u, rest, false));
    }
  }

  lemma InvOrder(s: State)
    requires Inv(s)
    ensures s.enqueued == Records(s.done) + s.batch + s.queue && s.mark <= |s.enqueued|
    ensures s.writer.Finished? ==> s.batch == [] && |s.queue| + s.mark <= |s.enqueued|
  {
    hide Records;
  }

  /**
   The database holds exactly the batches at hand at the steps that commit, in order; every step that
   fails is counted, and no other.  What has been queued is what was written, is being written, or waits.
   */
  lemma DatabaseIsSchedule(schedule: seq<Step>)
    ensures var s := After(Initial(), schedule);
      && s.rows == Transactions(Initial(), schedule, true)
      && s.stats.failedWrites == Rollbacks(Initial(), schedule)
      && s.enqueued == Submitted(schedule)
      && Submitted(schedule) == Transactions(Initial(), schedule, false) + s.batch + s.queue
  {
    hide Inv;
    Reachable([]);
    RowsFollow(Initial(), schedule);
    var s := After(Initial(), schedule);
    InvOrder(s);
    assert Records(Initial().done) == [];
    assert [] + Transactions(Initial(), schedule, false) == Transactions(Initial(), schedule, false);
    assert [] + Transactions(Initial(), schedule, true) == Transactions(Initial(), schedule, true);
    assert [] + Submitted(schedule) == Submitted(schedule);
  }

  lemma {:induction false} WithoutRollbacks(s: State, schedule: seq<Step>)
    ensures Rollbacks(s, schedule) == 0 ==> Transactions(s, schedule, true) == Transactions(s, schedule, false)
    decreases |schedule|
  {
    if schedule != [] {
      hide Apply, Enabled;
      WithoutRollbacks(Apply(s, schedule[0]), schedule[1..]);
    }
  }

  /** Without a failing transaction everything queued is in the database, in the batch or in the queue. */
  lemma NothingIsLost(schedule: seq<Step>)
    requires Rollbacks(Initial(), schedule) == 0
    ensures var s := After(Initial(), schedule);
      s.stats.failedWrites == 0 && Submitted(schedule) == s.rows + s.batch + s.queue
  {
    DatabaseIsSchedule(schedule);
    WithoutRollbacks(Initial(), schedule);
  }

  /** Step k of the schedule is a call of Stop that finds the writer running. */
  ghost predicate StopsAt(schedule: seq<Step>, k: nat) {
    k < |schedule| && schedule[k].Stop? && After(Initial(), schedule[..k]).running
  }

  lemma MarkStep(s: State, step: Step)
    requires Inv(s)
    ensures Apply(s, step).mark == if step.Stop? && s.running then |s.enqueued| else s.mark
  {
    hide CountGps, CountEkf, Records, Committed, Failures, GpsLost, EkfLost, Ordered, Counted;
  }

  lemma StopsInPrefix(schedule: seq<Step>, n: nat, j: nat)
    requires j < n <= |schedule|
    ensures StopsAt(schedule[..n], j) == StopsAt(schedule, j)
  {
    hide After;
    assert schedule[..n][..j] == schedule[..j];
  }

  /** Step k is the last call of Stop that found the writer running. */
  ghost predicate LastStopAt(schedule: seq<Step>, k: nat) {
    StopsAt(schedule, k) && forall j: nat :: k < j < |schedule| ==> !StopsAt(schedule, j)
  }

  lemma {:induction false} MarkIsLastStop(schedule: seq<Step>, k: nat)
    requires LastStopAt(schedule, k)
    ensures After(Initial(), schedule).mark == |Submitted(schedule[..k])|
  {
    var n := |schedule| - 1;
    var p := schedule[..n];
    if k < n {
      MarkKept(schedule, k);
      MarkIsLastStop(p, k);
      assert p[..k] == schedule[..k];
    } else {
      MarkSet(p, schedule[n], After(Initial(), p));
    }
  }

  lemma MarkSet(p: seq<Step>, step: Step, s: State)
    requires s == After(Initial(), p) && step.Stop? && s.running
    ensures Apply(s, step).mark == |Submitted(p)|
  {
    hide After, Inv, Apply, Submitted;
    Reachable(p);
    DatabaseIsSchedule(p);
    MarkStep(s, step);
  }

  lemma MarkKept(schedule: seq<Step>, k: nat)
    requires LastStopAt(schedule, k) && k < |schedule| - 1
    ensures var p := schedule[..|schedule| - 1];
      LastStopAt(p, k) && After(Initial(), schedule).mark == After(Initial(), p).mark
  {
    var n := |schedule| - 1;
    var p := schedule[..n];
    forall j: nat | j < n ensures StopsAt(p, j) == StopsAt(schedule, j) {
      StopsInPrefix(schedule, n, j);
    }
    assert !StopsAt(schedule, n);
    Reachable(p);
    hide Inv, Apply;
    MarkStep(After(Initial(), p), schedule[n]);
  }

  /** When the last Stop returns, all that was queued before its request has been through a transaction, in order. */
  lemma DrainedOnStop(schedule: seq<Step>, k: nat)
    requires LastStopAt(schedule, k) && Enabled(After(Initial(), schedule), Joined)
    ensures var s := Apply(After(Initial(), schedule), Joined);
      && Submitted(schedule[..k]) <= Transactions(Initial(), schedule, false)
      && Submitted(schedule) == Transactions(Initial(), schedule, false) + s.queue
      && s.rows == Transactions(Initial(), schedule, true) && s.stats.failedWrites == Rollbacks(Initial(), schedule)
  {
    var s := After(Initial(), schedule);
    hide After, Transactions, Inv, Submitted, Rollbacks;
    Reachable(schedule);
    InvOrder(s);
    DatabaseIsSchedule(schedule);
    MarkIsLastStop(schedule, k);
    SubmittedPrefix(schedule, k);
    ShorterPrefix(Submitted(schedule[..k]), Transactions(Initial(), schedule, false), s.queue, Submitted(schedule));
  }

  lemma ShorterPrefix(a: seq<Record>, b: seq<Record>, c: seq<Record>, all: seq<Record>)
    requires a <= all && all == b + [] + c && |a| <= |b|
    ensures a <= b && all == b + c
  {
    assert b + [] == b;
  }

  lemma {:induction false} SubmittedPrefix(schedule: seq<Step>, k: nat)
    requires k <= |schedule|
    ensures Submitted(schedule[..k]) <= Submitted(schedule)
  {
    if k > 0 {
      hide SubmittedBy;
      SubmittedPrefix(schedule[1..], k - 1);
      assert schedule[..k][1..] == schedule[1..][..k - 1];
    }
  }

  // ---------- the reported depth of the queue ----------

  /** A swap has emptied the queue since the last record was queued. */
  ghost predicate Stale(schedule: seq<Step>) {
    if schedule == [] then false
    else
      var s, step := After(Initial(), schedule[..|schedule| - 1]), schedule[|schedule| - 1];
      SubmittedBy(step) == []
      && (((step.Swap? || step.FlushSwap?) && Enabled(s, step) && s.queue != []) || Stale(schedule[..|schedule| - 1]))
  }

  lemma DepthStep(s: State, step: Step)
    requires Phases(s)
    ensures var t := Apply(s, step);
      && (SubmittedBy(step) != [] ==> t.stats.depth == |t.queue| > 0)
      && (SubmittedBy(step) == [] ==> t.stats.depth == s.stats.depth)
      && (SubmittedBy(step) == [] ==>
            t.queue == if (step.Swap? || step.FlushSwap?) && Enabled(s, step) then [] else s.queue)
  {
    hide CountGps, CountEkf;
  }

  /** The depth that the statistics report is that of the queue exactly while no swap has emptied it since. */
  lemma {:induction false} DepthIsStale(schedule: seq<Step>)
    ensures var s := After(Initial(), schedule);
      if Stale(schedule) then s.queue == [] && s.stats.depth > 0 else s.stats.depth == |s.queue|
  {
    if schedule != [] {
      var n := |schedule| - 1;
      DepthIsStale(schedule[..n]);
      Reachable(schedule[..n]);
      hide Apply, Ordered, Counted, Enabled, SubmittedBy;
      DepthStep(After(Initial(), schedule[..n]), schedule[n]);
    }
  }

  // ---------- the properties of every run ----------

  /** Nothing is lost, repeated or reordered between the producers, the queue, the batch and the batches done. */
  lemma Conserved(schedule: seq<Step>)
    ensures var s := After(Initial(), schedule);
      s.enqueued == Records(s.done) + s.batch + s.queue
  {
    hide After;
    Reachable(schedule);
  }

  /** The database holds exactly the batches committed, in the order in which they were queued. */
  lemma DatabaseIsCommitted(schedule: seq<Step>)
    ensures var s := After(Initial(), schedule);
      && s.rows == Committed(s.done)
      && s.stats.failedWrites == Failures(s.done)
      && (s.stats.failedWrites == 0 ==> s.enqueued == s.rows + s.batch + s.queue)
  {
    hide After;
    Reachable(schedule);
    NoFailure(After(Initial(), schedule).done);
  }

  lemma {:induction false} NoFailure(bs: seq<Batch>)
    ensures Failures(bs) == 0 ==> Committed(bs) == Records(bs)
  {
    if bs != [] {
      NoFailure(bs[..|bs| - 1]);
    }
  }

  /** Whenever the writer swaps its batch with the queue, the batch is empty. */
  lemma BatchEmptyAtSwap(schedule: seq<Step>, step: Step)
    requires step.Swap? || step.FlushSwap?
    requires Enabled(After(Initial(), schedule), step)
    ensures After(Initial(), schedule).batch == [] && Apply(After(Initial(), schedule), step).queue == []
  {
    hide After;
    Reachable(schedule);
  }

  /**
   The counters of written records run ahead of the database by the insertions that were rolled
   back: they agree with it exactly when no failed batch had got as far as inserting one.
   */
  lemma WrittenCounters(schedule: seq<Step>)
    ensures var s := After(Initial(), schedule);
      && s.stats.gpsWritten >= CountGps(s.rows) && s.stats.ekfWritten >= CountEkf(s.rows)
      && (s.stats.gpsWritten == CountGps(s.rows) <==> GpsLost(s.done) == 0)
      && (s.stats.ekfWritten == CountEkf(s.rows) <==> EkfLost(s.done) == 0)
      && (s.stats.failedWrites == 0 ==> s.stats.gpsWritten + s.stats.ekfWritten == |s.rows|)
  {
    hide After;
    Reachable(schedule);
    var s := After(Initial(), schedule);
    NothingLost(s.done);
    if s.stats.failedWrites == 0 {
      NoFailure(s.done);
      CountsConcat(s.rows + s.batch, s.queue);
      CountsConcat(s.rows, s.batch);
      OnlyTwoKinds(s.rows);
      OnlyTwoKinds(s.batch);
      OnlyTwoKinds(s.queue);
    }
  }

  lemma Then(p: seq<Step>, s: State, step: Step) returns (q: seq<Step>, t: State)
    requires After(Initial(), p) == s
    ensures q == p + [step] && t == Apply(s, step) && After(Initial(), q) == t
  {
    q, t := p + [step], Apply(s, step);
    assert q[..|p|] == p;
  }

  lemma UpToWriting() returns (p: seq<Step>, s: State)
    ensures p == [Start, EnqueueGpsUpdate(0), TestStop, Swap] && After(Initial(), p) == s
    ensures s.writer.Writing? && s.batch == [GpsUpdate(0)] && s.rows == [] && s.stats.gpsWritten == 0
  {
    p, s := [], Initial();
    assert After(Initial(), p) == s;
    hide After, Written;
    p, s := Then(p, s, Start);
    p, s := Then(p, s, EnqueueGpsUpdate(0));
    p, s := Then(p, s, TestStop);
    p, s := Then(p, s, Swap);
  }

  /** One fix is queued, inserted and rolled back: the counter says that it was written, and the database is empty. */
  lemma RolledBackIsCounted()
    ensures var s := After(Initial(), [Start, EnqueueGpsUpdate(0), TestStop, Swap, Write(1, false)]);
      s.stats.gpsWritten == 1 && s.rows == []
  {
    hide After;
    var p, s := UpToWriting();
    var b := s.batch[..1];
    assert b == s.batch && b[..0] == [] && CountGps(b) == 1;
    p, s := Then(p, s, Write(1, false));
    assert p == [Start, EnqueueGpsUpdate(0), TestStop, Swap, Write(1, false)];
  }

  lemma {:induction false} NothingLost(bs: seq<Batch>)
    ensures Failures(bs) == 0 ==> GpsLost(bs) == 0 && EkfLost(bs) == 0
  {
    if bs != [] {
      NothingLost(bs[..|bs| - 1]);
    }
  }

  lemma {:induction false} OnlyTwoKinds(rs: seq<Record>)
    ensures CountGps(rs) + CountEkf(rs) <= |rs|
  {
    if rs != [] {
      OnlyTwoKinds(rs[..|rs| - 1]);
    }
  }

  /** Inertial records are never stored: their producers do nothing. */
  lemma InertialNeverStored(schedule: seq<Step>)
    ensures var s := After(Initial(), schedule);
      forall r :: r in s.rows + s.batch + s.queue ==> r.GpsUpdate? || r.EkfOutput?
  {
    hide After;
    Reachable(schedule);
    var s := After(Initial(), schedule);
    AllOfTwoKinds(s.enqueued);
    CommittedWasDone(s.done);
  }

  lemma {:induction false} AllOfTwoKinds(rs: seq<Record>)
    ensures CountGps(rs) + CountEkf(rs) == |rs| <==> forall r :: r in rs ==> r.GpsUpdate? || r.EkfOutput?
  {
    if rs != [] {
      var n := |rs| - 1;
      AllOfTwoKinds(rs[..n]);
      OnlyTwoKinds(rs[..n]);
      assert rs == rs[..n] + [rs[n]];
    }
  }

  lemma {:induction false} CommittedWasDone(bs: seq<Batch>)
    ensures forall r :: r in Committed(bs) ==> r in Records(bs)
  {
    if bs != [] {
      CommittedWasDone(bs[..|bs| - 1]);
    }
  }

  // ---------- the threads beside the writer ----------

  /** A step of a producer, or of the thread that starts and stops the writer. */
  predicate OfOthers(step: Step) {
    step.EnqueueGpsUpdate? || step.EnqueueLinearAcceleration? || step.EnqueueRotationVector? || step.EnqueueEkfOutput?
    || step.Start? || step.Stop?
  }

  predicate AllOfOthers(steps: seq<Step>) {
    forall k :: 0 <= k < |steps| ==> OfOthers(steps[k])
  }

  /** What the other threads do in the course of one pass of the writer's loop. */
  datatype Pass = Pass(beforeTest: seq<Step>, beforeSwap: seq<Step>, beforeWrite: seq<Step>)

  predicate PassOfOthers(p: Pass) {
    AllOfOthers(p.beforeTest) && AllOfOthers(p.beforeSwap) && AllOfOthers(p.beforeWrite)
  }

  /** The others leave a live writer, its batch and a request to stop alone. */
  lemma OthersLeaveWriter(s: State, step: Step)
    requires Phases(s) && !s.writer.Absent? && OfOthers(step)
    ensures var t := Apply(s, step);
      t.writer == s.writer && t.batch == s.batch && (s.stopRequested ==> t.stopRequested)
  {
  }

  lemma AfterNext(s: State, steps: seq<Step>, k: nat)
    requires k < |steps|
    ensures After(s, steps[..k + 1]) == Apply(After(s, steps[..k]), steps[k])
  {
    assert steps[..k + 1] == steps[..k] + [steps[k]];
    AfterOne(s, steps[..k], steps[k]);
  }

  /** The step a finished transaction is. */
  function WriteStep(w: Writer, n: nat, ok: bool): Step {
    if w.Writing? then Write(n, ok) else FinalWrite(n, ok)
  }

  lemma WriteStepIs(s: State, n: nat, ok: bool)
    requires s.writer.Writing? || s.writer.FinalWriting?
    requires n <= |s.batch| && (ok ==> n == |s.batch|)
    ensures Enabled(s, WriteStep(s.writer, n, ok))
    ensures Apply(s, WriteStep(s.writer, n, ok))
         == Written(s, n, ok).(writer := if s.writer.Writing? then Testing else Finished)
  {
    hide CountGps, CountEkf, Written;
  }

  lemma AfterOne(s: State, a: seq<Step>, step: Step)
    ensures After(s, a + [step]) == Apply(After(s, a), step)
  {
    assert (a + [step])[..|a|] == a;
  }

  // ---------- the object ----------

  class DatabaseManager {
    var running: bool
    var stopRequested: bool
    var recordQueue: seq<Record>
    var batch: seq<Record>
    var rows: seq<Record>
    var stats: Stats
    var joining: bool
    var writer: Writer
    ghost var enqueued: seq<Record>
    ghost var done: seq<Batch>
    ghost var mark: nat

    ghost function Model(): State
      reads this
    {
      State(running, stopRequested, joining, writer, recordQueue, batch, rows, stats, enqueued, done, mark)
    }

    constructor ()
      ensures Model() == Initial()
    {
      running, stopRequested, recordQueue, batch, rows := false, false, [], [], [];
      stats := Stats(0, 0, 0, 0, 0, 0);
      joining, writer, enqueued, done, mark := false, Absent, [], [], 0;
    }

    method Start()
      requires !joining
      modifies this
      ensures Model() == Apply(old(Model()), Step.Start)
    {
      if running {
        return;
      }
      running, stopRequested := true, false;
      writer := Testing;
    }

    /** Stop, up to the point where it waits for the writer. */
    method RequestStop()
      requires !joining
      modifies this
      ensures Model() == Apply(old(Model()), Step.Stop)
    {
      if !running {
        return;
      }
      running, stopRequested, joining := false, true, true;
      mark := |enqueued|;
    }

    method EnqueueGps(u: int)
      modifies this
      ensures Model() == Apply(old(Model()), EnqueueGpsUpdate(u))
    {
      recordQueue := recordQueue + [GpsUpdate(u)];
      stats := stats.(depth := |recordQueue|, gpsQueued := stats.gpsQueued + 1);
      enqueued := enqueued + [GpsUpdate(u)];
    }

    method EnqueueEkf(o: int)
      modifies this
      ensures Model() == Apply(old(Model()), EnqueueEkfOutput(o))
    {
      recordQueue := recordQueue + [EkfOutput(o)];
      stats := stats.(depth := |recordQueue|, ekfQueued := stats.ekfQueued + 1);
      enqueued := enqueued + [EkfOutput(o)];
    }

    /** The critical section of the writer loop: the wait is over, by a record or by its timeout. */
    method SwapBatch()
      requires writer.Waiting?
      modifies this
      ensures Model() == Apply(old(Model()), Swap)
      ensures writer == if batch == [] then Testing else Writing
    {
      batch, recordQueue := recordQueue, batch;
      writer := if batch == [] then Testing else Writing;
    }

    /** The insertions of one transaction, until all are done or one fails. */
    method InsertRecords() returns (inserted: nat, failed: bool)
      modifies this`stats
      ensures inserted <= |batch| && (!failed ==> inserted == |batch|)
      ensures stats == Inserted(old(stats), batch[..inserted])
    {
      inserted := 0;
      failed :| true;
      while !failed && inserted < |batch|
        invariant inserted <= |batch|
        invariant stats == Inserted(old(stats), batch[..inserted])
        decreases if failed then 0 else 1, |batch| - inserted
      {
        failed :| true;
        if !failed {
          match batch[inserted] {
            case GpsUpdate(_) => stats := stats.(gpsWritten := stats.gpsWritten + 1);
            case EkfOutput(_) => stats := stats.(ekfWritten := stats.ekfWritten + 1);
            case _ =>
          }
          assert batch[..inserted + 1][..inserted] == batch[..inserted];
          inserted := inserted + 1;
        }
      }
    }

    /** One transaction, committed or rolled back; in the loop or after it. */
    method WriteBatch() returns (committed: bool, ghost step: Step)
      requires writer.Writing? || writer.FinalWriting?
      modifies this
      ensures if old(writer).Writing? then step.Write? else step.FinalWrite?
      ensures step.committed == committed
      ensures rows == old(rows) + if committed then old(batch) else []
      ensures stats.failedWrites == old(stats).failedWrites + if committed then 0 else 1
      ensures batch == [] && recordQueue == old(recordQueue)
      ensures Enabled(old(Model()), step) && Model() == Apply(old(Model()), step)
      ensures writer == if old(writer).Writing? then Testing else Finished
    {
      hide Apply, Enabled, CountGps, CountEkf;
      ghost var before := Model();
      var inserted, failed := InsertRecords();
      committed :| committed ==> !failed;
      if committed {
        rows := rows + batch;
      } else {
        stats := stats.(failedWrites := stats.failedWrites + 1);
      }
      done := done + [Batch(batch, inserted, committed)];
      batch := [];
      step := WriteStep(writer, inserted, committed);
      WriteStepIs(before, inserted, committed);
      writer := if writer.Writing? then Testing else Finished;
      assert Model() == Written(before, inserted, committed).(writer := writer);
    }

    /** The critical section after the loop. */
    method SwapLast()
      requires writer.Flushing?
      modifies this
      ensures Model() == Apply(old(Model()), FlushSwap)
      ensures writer == if batch == [] then Finished else FinalWriting
    {
      batch, recordQueue := recordQueue, batch;
      writer := if batch == [] then Finished else FinalWriting;
    }

    /** The other threads get their turn. */
    method Others(steps: seq<Step>)
      requires Inv(Model()) && !writer.Absent? && AllOfOthers(steps)
      modifies this
      ensures Inv(Model()) && Model() == After(old(Model()), steps)
      ensures writer == old(writer) && batch == old(batch) && (old(stopRequested) ==> stopRequested)
    {
      assert steps[..0] == [];
      hide Inv, Apply;
      for k := 0 to |steps|
        invariant Inv(Model()) && Model() == After(old(Model()), steps[..k])
        invariant writer == old(writer) && batch == old(batch) && (old(stopRequested) ==> stopRequested)
      {
        AfterNext(old(Model()), steps, k);
        OtherStep(steps[k]);
      }
      assert steps[..|steps|] == steps;
    }

    method OtherStep(step: Step)
      requires Inv(Model()) && !writer.Absent? && OfOthers(step)
      modifies this
      ensures Inv(Model()) && Model() == Apply(old(Model()), step)
      ensures writer == old(writer) && batch == old(batch) && (old(stopRequested) ==> stopRequested)
    {
      ApplyKeeps(Model(), step);
      OthersLeaveWriter(Model(), step);
      hide Ordered, Counted;
      match step
      case EnqueueGpsUpdate(u) => EnqueueGps(u);
      case EnqueueEkfOutput(o) => EnqueueEkf(o);
      case Start => if !joining { Start(); }
      case Stop => if !joining { RequestStop(); }
      case _ =>
    }

    /** The loop, as far as it is left or the passes go, with the other threads at work in between. */
    method Loop(passes: seq<Pass>) returns (ghost schedule: seq<Step>)
      requires writer.Testing? && Inv(Model()) && forall k :: 0 <= k < |passes| ==> PassOfOthers(passes[k])
      modifies this
      ensures Inv(Model()) && Model() == After(old(Model()), schedule)
      ensures writer.Testing? || writer.Flushing?
      ensures old(stopRequested) && passes != [] ==> writer.Flushing?
    {
      hide Inv, Apply;
      schedule := [];
      var k := 0;
      while k < |passes| && !writer.Flushing?
        invariant k <= |passes|
        invariant Inv(Model()) && Model() == After(old(Model()), schedule)
        invariant writer.Testing? || writer.Flushing?
        invariant old(stopRequested) ==> stopRequested
        invariant old(stopRequested) && k > 0 ==> writer.Flushing?
      {
        ghost var steps := OnePass(passes[k]);
        AfterConcat(old(Model()), schedule, steps);
        schedule := schedule + steps;
        k := k + 1;
      }
    }

    /** One pass: the test, the critical section, and the transaction if there is something to write. */
    method OnePass(p: Pass) returns (ghost steps: seq<Step>)
      requires writer.Testing? && Inv(Model()) && PassOfOthers(p)
      modifies this
      ensures Inv(Model()) && Model() == After(old(Model()), steps)
      ensures writer.Testing? || writer.Flushing?
      ensures old(stopRequested) ==> stopRequested && writer.Flushing?
    {
      hide Inv;
      Others(p.beforeTest);
      ghost var s := Model();
      ApplyKeeps(s, TestStop);
      AfterOne(old(Model()), p.beforeTest, TestStop);
      steps := p.beforeTest + [TestStop];
      if stopRequested {
        writer := Flushing;
        return;
      }
      writer := Waiting;
      ghost var more := SwapAndWrite(p);
      AfterConcat(old(Model()), steps, more);
      steps := steps + more;
    }

    method SwapAndWrite(p: Pass) returns (ghost steps: seq<Step>)
      requires writer.Waiting? && Inv(Model()) && PassOfOthers(p)
      modifies this
      ensures Inv(Model()) && Model() == After(old(Model()), steps) && writer.Testing?
    {
      hide Inv, Apply, Enabled;
      Others(p.beforeSwap);
      ghost var s := Model();
      ApplyKeeps(s, Swap);
      AfterOne(old(Model()), p.beforeSwap, Swap);
      SwapBatch();
      steps := p.beforeSwap + [Swap];
      if batch != [] {
        AfterConcat(old(Model()), steps, p.beforeWrite);
        Others(p.beforeWrite);
        steps := steps + p.beforeWrite;
        s := Model();
        var committed;
        ghost var step;
        committed, step := WriteBatch();
        ApplyKeeps(s, step);
        AfterOne(old(Model()), steps, step);
        steps := steps + [step];
      }
    }

    /**
     WriterLoop, whatever the other threads do in between, is a schedule of the state machine; and
     once the passes outlast the request to stop it has flushed the queue and come to its end.
     */
    method WriterLoop(passes: seq<Pass>, beforeFlush: seq<Step>, beforeWrite: seq<Step>) returns (ghost schedule: seq<Step>)
      requires writer.Testing? && Inv(Model()) && forall k :: 0 <= k < |passes| ==> PassOfOthers(passes[k])
      requires AllOfOthers(beforeFlush) && AllOfOthers(beforeWrite)
      modifies this
      ensures Inv(Model()) && Model() == After(old(Model()), schedule)
      ensures writer.Testing? || writer.Finished?
      ensures old(stopRequested) && passes != [] ==> writer.Finished?
    {
      schedule := Loop(passes);
      if !writer.Flushing? {
        return;
      }
      ghost var steps := Flush(beforeFlush, beforeWrite);
      AfterConcat(old(Model()), schedule, steps);
      schedule := schedule + steps;
    }

    method Flush(beforeFlush: seq<Step>, beforeWrite: seq<Step>) returns (ghost steps: seq<Step>)
      requires writer.Flushing? && Inv(Model()) && AllOfOthers(beforeFlush) && AllOfOthers(beforeWrite)
      modifies this
      ensures Inv(Model()) && Model() == After(old(Model()), steps) && writer.Finished?
    {
      hide Inv, Apply, Enabled;
      Others(beforeFlush);
      ghost var s := Model();
      ApplyKeeps(s, FlushSwap);
      AfterOne(old(Model()), beforeFlush, FlushSwap);
      SwapLast();
      steps := beforeFlush + [FlushSwap];
      if batch != [] {
        AfterConcat(old(Model()), steps, beforeWrite);
        Others(beforeWrite);
        steps := steps + beforeWrite;
        s := Model();
        var committed;
        ghost var step;
        committed, step := WriteBatch();
        ApplyKeeps(s, step);
        AfterOne(old(Model()), steps, step);
        steps := steps + [step];
      }
    }
  }
}
