/** The control plane's job and log tables as values, the journal messages that mirror them, and replay. */
module JobTables {
  import opened Seqs
  import opened Bytes
  import opened Wrappers

  datatype JobRef = JobRef(tenantId: string, jobId: string)

  /** compoundKey */
  function Key(ref: JobRef): string {
    ref.tenantId + ":" + ref.jobId
  }

  datatype JobState = Accepted | Running | Succeeded | Failed | OtherState(code: int)

  /** A job; `spec` stands for the workload, environment and policies, which no operation changes. */
  datatype Job = Job(ref: JobRef, spec: string, state: JobState, exitCode: int, statusMessage: string)

  datatype LogChunk = LogChunk(offset: nat, stream: string, data: seq<byte>)

  /** A Go map read: a missing counter reads as zero. */
  function Count(m: map<string, nat>, key: string): nat {
    if key in m then m[key] else 0
  }

  function LogOf(m: map<string, seq<LogChunk>>, key: string): seq<LogChunk> {
    if key in m then m[key] else []
  }

  /** `chunks`, numbered on from `from`. */
  function Stamp(chunks: seq<LogChunk>, from: nat): (stamped: seq<LogChunk>)
    ensures |stamped| == |chunks|
    ensures forall i | 0 <= i < |chunks| :: stamped[i] == chunks[i].(offset := from + 1 + i)
  {
    if chunks == [] then [] else [chunks[0].(offset := from + 1)] + Stamp(chunks[1..], from + 1)
  }

  /** A message of the jobs stream, and one of the logs stream. */
  datatype JobMsg = JobMsg(job: Job, version: nat)
  datatype LogMsg = LogMsg(ref: JobRef, chunk: LogChunk, offset: nat)

  datatype JobTable = JobTable(jobs: map<string, Job>, versions: map<string, nat>) {
    /** Put */
    function Put(job: Job): JobTable {
      var key := Key(job.ref);
      JobTable(jobs[key := job], versions[key := Count(versions, key) + 1])
    }

    /** What Put publishes. */
    function PutMsg(job: Job): JobMsg {
      JobMsg(job, Count(versions, Key(job.ref)) + 1)
    }

    /** applyReplayedJob */
    function Apply(m: JobMsg): JobTable {
      var key := Key(m.job.ref);
      JobTable(jobs[key := m.job], if m.version > Count(versions, key) then versions[key := m.version] else versions)
    }

    function ApplyAll(ms: seq<JobMsg>): JobTable {
      if ms == [] then this else ApplyAll(ms[..|ms| - 1]).Apply(ms[|ms| - 1])
    }
  }

  datatype LogTable = LogTable(logs: map<string, seq<LogChunk>>, offsets: map<string, nat>) {
    /** AppendLogs */
    function Append(ref: JobRef, chunks: seq<LogChunk>): LogTable {
      var key := Key(ref);
      if chunks == [] then this
      else LogTable(logs[key := LogOf(logs, key) + Stamp(chunks, Count(offsets, key))],
                    offsets[key := Count(offsets, key) + |chunks|])
    }

    /** What AppendLogs publishes. */
    function AppendMsgs(ref: JobRef, chunks: seq<LogChunk>): seq<LogMsg> {
      var stamped := Stamp(chunks, Count(offsets, Key(ref)));
      seq(|stamped|, i requires 0 <= i < |stamped| => LogMsg(ref, stamped[i], stamped[i].offset))
    }

    /** applyReplayedLog */
    function Apply(m: LogMsg): LogTable {
      var key := Key(m.ref);
      LogTable(logs[key := LogOf(logs, key) + [m.chunk.(offset := m.offset)]],
               if m.offset > Count(offsets, key) then offsets[key := m.offset] else offsets)
    }

    function ApplyAll(ms: seq<LogMsg>): LogTable {
      if ms == [] then this else ApplyAll(ms[..|ms| - 1]).Apply(ms[|ms| - 1])
    }
  }

  const NoJobs := JobTable(map[], map[])
  const NoLogs := LogTable(map[], map[])

  lemma {:induction false} Snoc<T>(ms: seq<T>, m: T)
    ensures (ms + [m])[..|ms|] == ms && (ms + [m])[|ms|] == m
  {
  }

  lemma {:induction false} ApplyAllLogsConcat(t: LogTable, a: seq<LogMsg>, b: seq<LogMsg>)
    ensures t.ApplyAll(a + b) == t.ApplyAll(a).ApplyAll(b)
    decreases |b|
  {
    if b == [] {
      assert a + b == a;
    } else {
      assert (a + b)[..|a + b| - 1] == a + b[..|b| - 1];
      ApplyAllLogsConcat(t, a, b[..|b| - 1]);
    }
  }

  /** Replaying the message a Put published does what the Put did. */
  lemma {:induction false} ReplayPut(t: JobTable, job: Job)
    ensures t.Apply(t.PutMsg(job)) == t.Put(job)
  {
  }

  lemma {:induction false} StampSnoc(chunks: seq<LogChunk>, from: nat)
    requires chunks != []
    ensures var n := |chunks| - 1;
            Stamp(chunks, from) == Stamp(chunks[..n], from) + [chunks[n].(offset := from + 1 + n)]
  {
    hide Stamp;
  }

  /** Appending a batch is appending all but its last chunk, and then replaying the message of that one. */
  lemma {:induction false} AppendSnoc(t: LogTable, ref: JobRef, chunks: seq<LogChunk>)
    requires chunks != []
    ensures var n := |chunks| - 1;
            var offset := Count(t.offsets, Key(ref)) + 1 + n;
            var m := LogMsg(ref, chunks[n].(offset := offset), offset);
            && t.AppendMsgs(ref, chunks) == t.AppendMsgs(ref, chunks[..n]) + [m]
            && t.Append(ref, chunks) == t.Append(ref, chunks[..n]).Apply(m)
  {
    hide Stamp;
    var key, n := Key(ref), |chunks| - 1;
    var from := Count(t.offsets, key);
    var m := LogMsg(ref, chunks[n].(offset := from + 1 + n), from + 1 + n);
    StampSnoc(chunks, from);
    assert t.AppendMsgs(ref, chunks) == t.AppendMsgs(ref, chunks[..n]) + [m];
    var before := t.Append(ref, chunks[..n]);
    assert chunks[..n] == [] ==> Stamp(chunks[..n], from) == [];
    assert Count(before.offsets, key) == from + n
      && LogOf(before.logs, key) == LogOf(t.logs, key) + Stamp(chunks[..n], from);
    Associates(LogOf(t.logs, key), Stamp(chunks[..n], from), [m.chunk]);
  }

  /** Replaying the messages an AppendLogs published, one by one, does what the AppendLogs did. */
  lemma {:induction false} ReplayAppend(t: LogTable, ref: JobRef, chunks: seq<LogChunk>)
    ensures t.ApplyAll(t.AppendMsgs(ref, chunks)) == t.Append(ref, chunks)
    decreases |chunks|
  {
    hide LogTable.Append, LogTable.Apply, LogTable.AppendMsgs;
    if chunks == [] {
      NothingAppended(t, ref);
    } else {
      var ms := t.AppendMsgs(ref, chunks);
      AppendSnoc(t, ref, chunks);
      ReplayAppend(t, ref, chunks[..|chunks| - 1]);
      assert ms[..|ms| - 1] == t.AppendMsgs(ref, chunks[..|chunks| - 1]);
    }
  }

  lemma {:induction false} NothingAppended(t: LogTable, ref: JobRef)
    ensures t.Append(ref, []) == t && t.AppendMsgs(ref, []) == []
  {
  }

  /** The control plane with its journal. */
  datatype Plane = Plane(jobs: JobTable, logs: LogTable, jobStream: seq<JobMsg>, logStream: seq<LogMsg>) {
    function Step(op: Op): Plane {
      match op
      case PutJob(job) => this.(jobs := jobs.Put(job), jobStream := jobStream + [jobs.PutMsg(job)])
      case AppendLogs(ref, chunks) =>
        this.(logs := logs.Append(ref, chunks), logStream := logStream + logs.AppendMsgs(ref, chunks))
      case Restart => this.(jobs := NoJobs.ApplyAll(jobStream), logs := NoLogs.ApplyAll(logStream))
    }

    function Run(ops: seq<Op>): Plane {
      if ops == [] then this else Run(ops[..|ops| - 1]).Step(ops[|ops| - 1])
    }
  }

  /** A restart empties the tables and hydrates them from the journal. */
  datatype Op = PutJob(job: Job) | AppendLogs(ref: JobRef, chunks: seq<LogChunk>) | Restart

  const Fresh := Plane(NoJobs, NoLogs, [], [])

  /** The journal always holds enough to rebuild the tables exactly. */
  ghost predicate Recoverable(p: Plane) {
    p.jobs == NoJobs.ApplyAll(p.jobStream) && p.logs == NoLogs.ApplyAll(p.logStream)
  }

  lemma {:induction false} StepRecoverable(p: Plane, op: Op)
    requires Recoverable(p)
    ensures Recoverable(p.Step(op))
    ensures op.Restart? ==> p.Step(op) == p
  {
    match op
    case PutJob(job) =>
      Snoc(p.jobStream, p.jobs.PutMsg(job));
      ReplayPut(p.jobs, job);
    case AppendLogs(ref, chunks) =>
      ApplyAllLogsConcat(NoLogs, p.logStream, p.logs.AppendMsgs(ref, chunks));
      ReplayAppend(p.logs, ref, chunks);
    case Restart =>
  }

  function WithoutRestarts(ops: seq<Op>): seq<Op> {
    if ops == [] then []
    else WithoutRestarts(ops[..|ops| - 1]) + if ops[|ops| - 1].Restart? then [] else [ops[|ops| - 1]]
  }

  /** Over any run, the journal rebuilds the tables, and restarts make no difference to what is stored. */
  lemma {:induction false} RestartsAreInvisible(ops: seq<Op>)
    ensures Recoverable(Fresh.Run(ops))
    ensures Fresh.Run(ops) == Fresh.Run(WithoutRestarts(ops))
    decreases |ops|
  {
    if ops != [] {
      var last := ops[|ops| - 1];
      var init := ops[..|ops| - 1];
      RestartsAreInvisible(init);
      StepRecoverable(Fresh.Run(init), last);
      if last.Restart? {
        assert WithoutRestarts(ops) == WithoutRestarts(init);
      } else {
        Snoc(WithoutRestarts(init), last);
      }
    }
  }

  /** `versions` holds, for every key, the largest version among `ms`. */
  ghost predicate LatestVersions(versions: map<string, nat>, ms: seq<JobMsg>) {
    && (forall m | m in ms :: m.version <= Count(versions, Key(m.job.ref)))
    && (forall k | k in versions :: exists m :: m in ms && Key(m.job.ref) == k && m.version == versions[k] > 0)
  }

  ghost predicate LatestOffsets(offsets: map<string, nat>, ms: seq<LogMsg>) {
    && (forall m | m in ms :: m.offset <= Count(offsets, Key(m.ref)))
    && (forall k | k in offsets :: exists m :: m in ms && Key(m.ref) == k && m.offset == offsets[k] > 0)
  }

  lemma {:induction false} ReplayedVersions(ms: seq<JobMsg>)
    ensures LatestVersions(NoJobs.ApplyAll(ms).versions, ms)
    decreases |ms|
  {
    if ms != [] {
      var init, last := ms[..|ms| - 1], ms[|ms| - 1];
      ReplayedVersions(init);
      var before, after := NoJobs.ApplyAll(init).versions, NoJobs.ApplyAll(ms).versions;
      forall m | m in ms ensures m.version <= Count(after, Key(m.job.ref)) { assert m in init || m == last; }
      forall k | k in after ensures exists m :: m in ms && Key(m.job.ref) == k && m.version == after[k] > 0 {
        if k in before && before[k] == after[k] {
          var m :| m in init && Key(m.job.ref) == k && m.version == before[k] > 0;
          assert m in ms;
        } else {
          assert last in ms;
        }
      }
    }
  }

  lemma {:induction false} ReplayedOffsets(ms: seq<LogMsg>)
    ensures LatestOffsets(NoLogs.ApplyAll(ms).offsets, ms)
    decreases |ms|
  {
    if ms != [] {
      var init, last := ms[..|ms| - 1], ms[|ms| - 1];
      ReplayedOffsets(init);
      var before, after := NoLogs.ApplyAll(init).offsets, NoLogs.ApplyAll(ms).offsets;
      forall m | m in ms ensures m.offset <= Count(after, Key(m.ref)) { assert m in init || m == last; }
      forall k | k in after ensures exists m :: m in ms && Key(m.ref) == k && m.offset == after[k] > 0 {
        if k in before && before[k] == after[k] {
          var m :| m in init && Key(m.ref) == k && m.offset == before[k] > 0;
          assert m in ms;
        } else {
          assert last in ms;
        }
      }
    }
  }

  lemma {:induction false} SameVersions(a: map<string, nat>, b: map<string, nat>, ms: seq<JobMsg>, ns: seq<JobMsg>)
    requires LatestVersions(a, ms) && LatestVersions(b, ns) && forall m: JobMsg :: m in ms <==> m in ns
    ensures a == b
  {
    forall k ensures Count(a, k) == Count(b, k) && (k in a <==> k in b) {
      if k in a { var m :| m in ms && Key(m.job.ref) == k && m.version == a[k] > 0; assert m in ns; }
      if k in b { var m :| m in ns && Key(m.job.ref) == k && m.version == b[k] > 0; assert m in ms; }
    }
  }

  lemma {:induction false} SameOffsets(a: map<string, nat>, b: map<string, nat>, ms: seq<LogMsg>, ns: seq<LogMsg>)
    requires LatestOffsets(a, ms) && LatestOffsets(b, ns) && forall m: LogMsg :: m in ms <==> m in ns
    ensures a == b
  {
    forall k ensures Count(a, k) == Count(b, k) && (k in a <==> k in b) {
      if k in a { var m :| m in ms && Key(m.ref) == k && m.offset == a[k] > 0; assert m in ns; }
      if k in b { var m :| m in ns && Key(m.ref) == k && m.offset == b[k] > 0; assert m in ms; }
    }
  }

  /**
   * Whatever order the journal is delivered in, and however often a message is repeated, the counters come back
   * as they were, so the next version and the next offset have never been issued.
   */
  lemma {:induction false} CountersSurviveReordering(ops: seq<Op>, jobMsgs: seq<JobMsg>, logMsgs: seq<LogMsg>)
    requires var p := Fresh.Run(ops);
             && (forall m: JobMsg :: m in jobMsgs <==> m in p.jobStream)
             && (forall m: LogMsg :: m in logMsgs <==> m in p.logStream)
    ensures var p := Fresh.Run(ops);
            var jobs, logs := NoJobs.ApplyAll(jobMsgs), NoLogs.ApplyAll(logMsgs);
            && jobs.versions == p.jobs.versions && logs.offsets == p.logs.offsets
            && (forall job: Job, m | m in p.jobStream && Key(m.job.ref) == Key(job.ref) ::
                  m.version < jobs.PutMsg(job).version)
            && (forall ref: JobRef, chunks: seq<LogChunk>, n, m
                  | n in logs.AppendMsgs(ref, chunks) && m in p.logStream && Key(m.ref) == Key(ref) ::
                  m.offset < n.offset)
  {
    var p := Fresh.Run(ops);
    RestartsAreInvisible(ops);
    ReplayedVersions(p.jobStream);
    ReplayedVersions(jobMsgs);
    ReplayedOffsets(p.logStream);
    ReplayedOffsets(logMsgs);
    SameVersions(NoJobs.ApplyAll(jobMsgs).versions, p.jobs.versions, jobMsgs, p.jobStream);
    SameOffsets(NoLogs.ApplyAll(logMsgs).offsets, p.logs.offsets, logMsgs, p.logStream);
  }

  /** The chunks a delivery holds for one key, in delivery order. */
  function ChunksFor(ms: seq<LogMsg>, key: string): seq<LogChunk> {
    if ms == [] then []
    else
      var last := ms[|ms| - 1];
      ChunksFor(ms[..|ms| - 1], key) + if Key(last.ref) == key then [last.chunk.(offset := last.offset)] else []
  }

  /** The job in the last message a delivery holds for one key. */
  function LastJobFor(ms: seq<JobMsg>, key: string): Option<Job> {
    if ms == [] then None
    else if Key(ms[|ms| - 1].job.ref) == key then Some(ms[|ms| - 1].job)
    else LastJobFor(ms[..|ms| - 1], key)
  }

  lemma {:induction false} ReplayedLog(ms: seq<LogMsg>, key: string)
    ensures var t := NoLogs.ApplyAll(ms);
            LogOf(t.logs, key) == ChunksFor(ms, key) && (key in t.logs <==> ChunksFor(ms, key) != [])
    decreases |ms|
  {
    if ms != [] { ReplayedLog(ms[..|ms| - 1], key); }
  }

  lemma {:induction false} ReplayedJob(ms: seq<JobMsg>, key: string)
    ensures var t := NoJobs.ApplyAll(ms);
            LastJobFor(ms, key) == if key in t.jobs then Some(t.jobs[key]) else None
    decreases |ms|
  {
    if ms != [] { ReplayedJob(ms[..|ms| - 1], key); }
  }

  /** The two deliveries hold the same chunks, in the same order, for every key. */
  ghost predicate SameChunks(ms: seq<LogMsg>, ns: seq<LogMsg>) {
    forall k :: ChunksFor(ms, k) == ChunksFor(ns, k)
  }

  /** The last messages the two deliveries hold for a key carry the same job, whatever the key. */
  ghost predicate SameLastJobs(ms: seq<JobMsg>, ns: seq<JobMsg>) {
    forall k :: LastJobFor(ms, k) == LastJobFor(ns, k)
  }

  lemma {:induction false} SameLogs(ms: seq<LogMsg>, ns: seq<LogMsg>)
    ensures NoLogs.ApplyAll(ms).logs == NoLogs.ApplyAll(ns).logs <==> SameChunks(ms, ns)
  {
    var a, b := NoLogs.ApplyAll(ms).logs, NoLogs.ApplyAll(ns).logs;
    forall k
      ensures LogOf(a, k) == ChunksFor(ms, k) && (k in a <==> ChunksFor(ms, k) != [])
      ensures LogOf(b, k) == ChunksFor(ns, k) && (k in b <==> ChunksFor(ns, k) != [])
    {
      ReplayedLog(ms, k);
      ReplayedLog(ns, k);
    }
    if SameChunks(ms, ns) {
      forall k ensures (k in a <==> k in b) && LogOf(a, k) == LogOf(b, k) {
        assert ChunksFor(ms, k) == ChunksFor(ns, k);
      }
      SameMap(a, b);
    }
  }

  lemma {:induction false} SameMap(a: map<string, seq<LogChunk>>, b: map<string, seq<LogChunk>>)
    requires forall k :: (k in a <==> k in b) && LogOf(a, k) == LogOf(b, k)
    ensures a == b
  {
    forall k | k in a ensures k in b && a[k] == b[k] { assert LogOf(a, k) == LogOf(b, k); }
    forall k | k in b ensures k in a { assert LogOf(a, k) == LogOf(b, k); }
  }

  lemma {:induction false} SameJobs(ms: seq<JobMsg>, ns: seq<JobMsg>)
    ensures NoJobs.ApplyAll(ms).jobs == NoJobs.ApplyAll(ns).jobs <==> SameLastJobs(ms, ns)
  {
    var a, b := NoJobs.ApplyAll(ms).jobs, NoJobs.ApplyAll(ns).jobs;
    forall k
      ensures LastJobFor(ms, k) == if k in a then Some(a[k]) else None
      ensures LastJobFor(ns, k) == if k in b then Some(b[k]) else None
    {
      ReplayedJob(ms, k);
      ReplayedJob(ns, k);
    }
    if SameLastJobs(ms, ns) {
      forall k | k in a || k in b ensures k in a && k in b && a[k] == b[k] {
        assert LastJobFor(ms, k) == LastJobFor(ns, k);
      }
    }
  }

  ghost predicate NumberedFrom1(log: seq<LogChunk>) {
    forall i | 0 <= i < |log| :: log[i].offset == i + 1
  }

  /** Every stored log is numbered 1, 2, 3, ... */
  ghost predicate Numbered(t: LogTable) {
    forall k :: NumberedFrom1(LogOf(t.logs, k)) && Count(t.offsets, k) == |LogOf(t.logs, k)|
  }

  lemma {:induction false} AppendKeepsNumbered(t: LogTable, ref: JobRef, chunks: seq<LogChunk>)
    requires Numbered(t)
    ensures Numbered(t.Append(ref, chunks))
  {
    hide Stamp;
    var after := t.Append(ref, chunks);
    forall k ensures NumberedFrom1(LogOf(after.logs, k)) && Count(after.offsets, k) == |LogOf(after.logs, k)| {
      assert NumberedFrom1(LogOf(t.logs, k)) && Count(t.offsets, k) == |LogOf(t.logs, k)|;
    }
  }

  lemma {:induction false} LogsAreNumbered(ops: seq<Op>)
    ensures Numbered(Fresh.Run(ops).logs)
    decreases |ops|
  {
    if ops != [] {
      var init, last := ops[..|ops| - 1], ops[|ops| - 1];
      LogsAreNumbered(init);
      RestartsAreInvisible(init);
      StepRecoverable(Fresh.Run(init), last);
      if last.AppendLogs? { AppendKeepsNumbered(Fresh.Run(init).logs, last.ref, last.chunks); }
    }
  }

  /** The offsets a delivery holds for one key, in delivery order. */
  function OffsetsFor(ms: seq<LogMsg>, key: string): seq<nat> {
    if ms == [] then []
    else
      var last := ms[|ms| - 1];
      OffsetsFor(ms[..|ms| - 1], key) + if Key(last.ref) == key then [last.offset] else []
  }

  function UpTo(n: nat): (offsets: seq<nat>)
    ensures |offsets| == n && forall i | 0 <= i < n :: offsets[i] == i + 1
  {
    seq(n, i => i + 1)
  }

  /** The message says what the log holds at its offset. */
  ghost predicate Quotes(log: seq<LogChunk>, m: LogMsg) {
    1 <= m.offset <= |log| && log[m.offset - 1] == m.chunk.(offset := m.offset)
  }

  ghost predicate AllQuote(p: Plane) {
    forall m | m in p.logStream :: Quotes(LogOf(p.logs.logs, Key(m.ref)), m)
  }

  lemma {:induction false} AppendQuotes(p: Plane, ref: JobRef, chunks: seq<LogChunk>)
    requires AllQuote(p) && Numbered(p.logs)
    ensures AllQuote(p.Step(AppendLogs(ref, chunks)))
  {
    hide Stamp;
    var q := p.Step(AppendLogs(ref, chunks));
    var old', stamped := LogOf(p.logs.logs, Key(ref)), Stamp(chunks, Count(p.logs.offsets, Key(ref)));
    assert Count(p.logs.offsets, Key(ref)) == |old'|;
    forall m | m in q.logStream ensures Quotes(LogOf(q.logs.logs, Key(m.ref)), m) {
      if m in p.logStream {
        assert Quotes(LogOf(p.logs.logs, Key(m.ref)), m);
      } else {
        var ms := p.logs.AppendMsgs(ref, chunks);
        var i :| 0 <= i < |ms| && ms[i] == m;
        assert m == LogMsg(ref, stamped[i], stamped[i].offset) && (old' + stamped)[m.offset - 1] == stamped[i];
      }
    }
  }

  lemma {:induction false} JournalQuotes(ops: seq<Op>)
    ensures AllQuote(Fresh.Run(ops))
    decreases |ops|
  {
    if ops != [] {
      var init, last := ops[..|ops| - 1], ops[|ops| - 1];
      JournalQuotes(init);
      LogsAreNumbered(init);
      RestartsAreInvisible(init);
      StepRecoverable(Fresh.Run(init), last);
      if last.AppendLogs? { AppendQuotes(Fresh.Run(init), last.ref, last.chunks); }
    }
  }

  /** Messages that quote a log deliver its chunks at their offsets. */
  lemma {:induction false} QuotedChunks(log: seq<LogChunk>, ms: seq<LogMsg>, key: string)
    requires forall m | m in ms && Key(m.ref) == key :: Quotes(log, m)
    ensures |ChunksFor(ms, key)| == |OffsetsFor(ms, key)|
    ensures forall i | 0 <= i < |OffsetsFor(ms, key)| ::
              1 <= OffsetsFor(ms, key)[i] <= |log| && ChunksFor(ms, key)[i] == log[OffsetsFor(ms, key)[i] - 1]
    decreases |ms|
  {
    if ms != [] {
      var n := |ms| - 1;
      QuotedChunks(log, ms[..n], key);
      assert ms[n] in ms;
    }
  }

  /** The delivery brings every key's messages once each and in order. */
  ghost predicate InOrderOnce(ms: seq<LogMsg>, offsets: map<string, nat>) {
    forall k :: OffsetsFor(ms, k) == UpTo(Count(offsets, k))
  }

  /** The logs come back from a delivery of the journal's messages exactly if each key's offsets read 1, 2, ..., n. */
  lemma {:induction false} LogsComeBack(ops: seq<Op>, logMsgs: seq<LogMsg>)
    requires forall m | m in logMsgs :: m in Fresh.Run(ops).logStream
    ensures NoLogs.ApplyAll(logMsgs).logs == Fresh.Run(ops).logs.logs
            <==> InOrderOnce(logMsgs, Fresh.Run(ops).logs.offsets)
  {
    hide Plane.Run, LogTable.ApplyAll, ChunksFor, OffsetsFor;
    var p := Fresh.Run(ops);
    JournalQuotes(ops);
    LogsAreNumbered(ops);
    RestartsAreInvisible(ops);
    SameLogs(logMsgs, p.logStream);
    forall k ensures ChunksFor(logMsgs, k) == ChunksFor(p.logStream, k)
                     <==> OffsetsFor(logMsgs, k) == UpTo(Count(p.logs.offsets, k))
    {
      var log := LogOf(p.logs.logs, k);
      ReplayedLog(p.logStream, k);
      QuotedChunks(log, logMsgs, k);
      assert NumberedFrom1(log) && Count(p.logs.offsets, k) == |log|;
      SameOffsetsSameChunks(log, ChunksFor(logMsgs, k), OffsetsFor(logMsgs, k));
    }
  }

  lemma {:induction false} SameOffsetsSameChunks(log: seq<LogChunk>, cs: seq<LogChunk>, offsets: seq<nat>)
    requires NumberedFrom1(log) && |cs| == |offsets|
    requires forall i | 0 <= i < |offsets| :: 1 <= offsets[i] <= |log| && cs[i] == log[offsets[i] - 1]
    ensures cs == log <==> offsets == UpTo(|log|)
  {
    if cs == log {
      forall i | 0 <= i < |log|
        ensures offsets[i] == i + 1
      {
        assert log[i].offset == i + 1 && cs[i].offset == offsets[i];
      }
    }
  }

  /** No message of the journal for the same key has a higher version. */
  ghost predicate Newest(journal: seq<JobMsg>, m: JobMsg) {
    m in journal && forall n | n in journal && Key(n.job.ref) == Key(m.job.ref) :: n.version <= m.version
  }

  /** The newest message of each key carries the stored job. */
  ghost predicate NewestStored(journal: seq<JobMsg>, jobs: map<string, Job>) {
    forall m | Newest(journal, m) :: Key(m.job.ref) in jobs && jobs[Key(m.job.ref)] == m.job
  }

  ghost predicate EachHasNewest(journal: seq<JobMsg>, jobs: map<string, Job>) {
    forall k | k in jobs :: exists m :: Newest(journal, m) && Key(m.job.ref) == k
  }

  /** Each job is the one of its newest message, and has one. */
  ghost predicate JobsAreNewest(p: Plane) {
    && NewestStored(p.jobStream, p.jobs.jobs) && EachHasNewest(p.jobStream, p.jobs.jobs)
    && (forall m | m in p.jobStream :: m.version <= Count(p.jobs.versions, Key(m.job.ref)))
  }

  lemma {:induction false} NewestAfter(journal: seq<JobMsg>, put: JobMsg, m: JobMsg)
    requires forall n | n in journal && Key(n.job.ref) == Key(put.job.ref) :: n.version < put.version
    ensures Newest(journal + [put], m)
            <==> m == put || (Newest(journal, m) && Key(m.job.ref) != Key(put.job.ref))
  {
    var after := journal + [put];
    forall n ensures n in after <==> n in journal || n == put {}
  }

  lemma {:induction false} StoredAfter(journal: seq<JobMsg>, put: JobMsg, jobs: map<string, Job>)
    requires NewestStored(journal, jobs) && EachHasNewest(journal, jobs)
    requires forall n | n in journal && Key(n.job.ref) == Key(put.job.ref) :: n.version < put.version
    ensures NewestStored(journal + [put], jobs[Key(put.job.ref) := put.job])
    ensures EachHasNewest(journal + [put], jobs[Key(put.job.ref) := put.job])
  {
    hide Newest;
    var key := Key(put.job.ref);
    var after := jobs[key := put.job];
    forall m | Newest(journal + [put], m) ensures Key(m.job.ref) in after && after[Key(m.job.ref)] == m.job {
      NewestAfter(journal, put, m);
    }
    forall k | k in after ensures exists m :: Newest(journal + [put], m) && Key(m.job.ref) == k {
      if k == key {
        NewestAfter(journal, put, put);
      } else {
        var m :| Newest(journal, m) && Key(m.job.ref) == k;
        NewestAfter(journal, put, m);
      }
    }
  }

  lemma {:induction false} PutIsNewest(p: Plane, job: Job)
    requires JobsAreNewest(p)
    ensures JobsAreNewest(p.Step(PutJob(job)))
  {
    hide NewestStored, EachHasNewest;
    StoredAfter(p.jobStream, p.jobs.PutMsg(job), p.jobs.jobs);
  }

  lemma {:induction false} JournalIsNewest(ops: seq<Op>)
    ensures JobsAreNewest(Fresh.Run(ops))
    decreases |ops|
  {
    if ops != [] {
      var init, last := ops[..|ops| - 1], ops[|ops| - 1];
      JournalIsNewest(init);
      RestartsAreInvisible(init);
      StepRecoverable(Fresh.Run(init), last);
      if last.PutJob? { PutIsNewest(Fresh.Run(init), last.job); }
    }
  }

  /** What a delivery brings last for a key carries the job of the key's newest message. */
  ghost predicate NewestLast(ms: seq<JobMsg>, journal: seq<JobMsg>) {
    forall m | Newest(journal, m) :: LastJobFor(ms, Key(m.job.ref)) == Some(m.job)
  }

  lemma {:induction false} LastIsDelivered(ms: seq<JobMsg>, key: string)
    ensures LastJobFor(ms, key).Some? ==> exists m :: m in ms && Key(m.job.ref) == key
    decreases |ms|
  {
    if ms != [] {
      LastIsDelivered(ms[..|ms| - 1], key);
      assert ms[|ms| - 1] in ms;
    }
  }

  /** The jobs come back from a delivery of the journal's messages exactly if each key's newest job comes last. */
  lemma {:induction false} JobsComeBack(ops: seq<Op>, jobMsgs: seq<JobMsg>)
    requires forall m | m in jobMsgs :: m in Fresh.Run(ops).jobStream
    ensures NoJobs.ApplyAll(jobMsgs).jobs == Fresh.Run(ops).jobs.jobs <==> NewestLast(jobMsgs, Fresh.Run(ops).jobStream)
  {
    hide Plane.Run, JobTable.ApplyAll, LastJobFor;
    var p := Fresh.Run(ops);
    JournalIsNewest(ops);
    var back := NoJobs.ApplyAll(jobMsgs).jobs;
    forall k ensures LastJobFor(jobMsgs, k) == if k in back then Some(back[k]) else None { ReplayedJob(jobMsgs, k); }
    if NewestLast(jobMsgs, p.jobStream) {
      forall k | k in p.jobs.jobs ensures k in back && back[k] == p.jobs.jobs[k] {
        var m :| Newest(p.jobStream, m) && Key(m.job.ref) == k;
      }
      forall k | k in back ensures k in p.jobs.jobs {
        LastIsDelivered(jobMsgs, k);
        var m :| m in jobMsgs && Key(m.job.ref) == k;
        InJobs(ops, m);
      }
      assert back == p.jobs.jobs;
    }
  }

  lemma {:induction false} InJobs(ops: seq<Op>, m: JobMsg)
    requires m in Fresh.Run(ops).jobStream
    ensures Key(m.job.ref) in Fresh.Run(ops).jobs.jobs
    decreases |ops|
  {
    if ops != [] {
      var init := ops[..|ops| - 1];
      RestartsAreInvisible(init);
      StepRecoverable(Fresh.Run(init), ops[|ops| - 1]);
      if m in Fresh.Run(init).jobStream { InJobs(init, m); }
    }
  }
}
