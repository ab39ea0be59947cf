/** The tables of the control plane against the calls that were made, over any run, restarts among it. */
module JobHistory {
  import opened JobTables

  /** Keys tell jobs apart, for tenants without a colon in their name. */
  lemma {:induction false} KeysDiffer(a: JobRef, b: JobRef)
    requires ':' !in a.tenantId && ':' !in b.tenantId
    ensures Key(a) == Key(b) ==> a == b
  {
    if Key(a) == Key(b) {
      var k := Key(a);
      assert forall i | 0 <= i < |a.tenantId| :: k[i] == a.tenantId[i] && a.tenantId[i] in a.tenantId;
      assert forall i | 0 <= i < |b.tenantId| :: k[i] == b.tenantId[i] && b.tenantId[i] in b.tenantId;
      assert k[|a.tenantId|] == ':' == k[|b.tenantId|];
      assert a.tenantId == k[..|a.tenantId|] && b.tenantId == k[..|b.tenantId|];
      assert a.jobId == k[|a.tenantId| + 1..] && b.jobId == k[|b.tenantId| + 1..];
    }
  }

  /** The jobs that were put under one key, in order. */
  function PutsFor(ops: seq<Op>, key: string): seq<Job> {
    if ops == [] then []
    else
      var last := ops[|ops| - 1];
      PutsFor(ops[..|ops| - 1], key) + if last.PutJob? && Key(last.job.ref) == key then [last.job] else []
  }

  /** The chunks that were appended under one key, in order. */
  function AppendedFor(ops: seq<Op>, key: string): seq<LogChunk> {
    if ops == [] then []
    else
      var last := ops[|ops| - 1];
      AppendedFor(ops[..|ops| - 1], key) + if last.AppendLogs? && Key(last.ref) == key then last.chunks else []
  }

  /** What was published for one key. */
  function PublishedFor(stream: seq<JobMsg>, key: string): seq<JobMsg> {
    if stream == [] then []
    else
      var last := stream[|stream| - 1];
      PublishedFor(stream[..|stream| - 1], key) + if Key(last.job.ref) == key then [last] else []
  }

  lemma {:induction false} PublishedSnoc(stream: seq<JobMsg>, m: JobMsg, key: string)
    ensures PublishedFor(stream + [m], key)
         == PublishedFor(stream, key) + if Key(m.job.ref) == key then [m] else []
  {
    assert (stream + [m])[..|stream|] == stream;
  }

  /** What is stored and published of one key, when `puts` were put under it. */
  ghost predicate Holds(p: Plane, key: string, puts: seq<Job>) {
    && (key in p.jobs.jobs <==> puts != []) && Count(p.jobs.versions, key) == |puts|
    && (puts != [] ==> p.jobs.jobs[key] == puts[|puts| - 1])
    && |PublishedFor(p.jobStream, key)| == |puts|
    && forall i | 0 <= i < |puts| :: PublishedFor(p.jobStream, key)[i] == JobMsg(puts[i], i + 1)
  }

  lemma {:induction false} RestartStays(ops: seq<Op>)
    ensures Fresh.Run(ops).Step(Restart) == Fresh.Run(ops)
  {
    RestartsAreInvisible(ops);
  }

  /**
   * After any run, the stored job of a key is the one last put, its version is the number of puts, and each put was
   * published once, with its number.
   */
  lemma {:induction false} StoredJob(ops: seq<Op>, key: string)
    ensures Holds(Fresh.Run(ops), key, PutsFor(ops, key))
    decreases |ops|
  {
    hide Holds, Plane.Step;
    if ops == [] {
      NothingHeld(key);
    } else {
      var init, last := ops[..|ops| - 1], ops[|ops| - 1];
      StoredJob(init, key);
      RestartStays(init);
      assert PutsFor(init, key) + [] == PutsFor(init, key);
      match last
      case PutJob(job) => PutHeld(Fresh.Run(init), job, key, PutsFor(init, key));
      case AppendLogs(ref, chunks) => AppendHeld(Fresh.Run(init), ref, chunks, key, PutsFor(init, key));
      case Restart =>
    }
  }

  lemma {:induction false} NothingHeld(key: string)
    ensures Holds(Fresh, key, [])
  {
  }

  lemma {:induction false} PutHeld(p: Plane, job: Job, key: string, puts: seq<Job>)
    requires Holds(p, key, puts)
    ensures Holds(p.Step(PutJob(job)), key, puts + if Key(job.ref) == key then [job] else [])
  {
    hide PublishedFor;
    PublishedSnoc(p.jobStream, p.jobs.PutMsg(job), key);
    assert PublishedFor(p.jobStream, key) + [] == PublishedFor(p.jobStream, key) && puts + [] == puts;
  }

  lemma {:induction false} AppendHeld(p: Plane, ref: JobRef, chunks: seq<LogChunk>, key: string, puts: seq<Job>)
    requires Holds(p, key, puts)
    ensures Holds(p.Step(AppendLogs(ref, chunks)), key, puts)
  {
    hide PublishedFor, LogTable.Append, LogTable.AppendMsgs;
  }

  /** After any run, the stored log of a key is what was appended to it, in order and numbered from 1. */
  lemma {:induction false} StoredLog(ops: seq<Op>, key: string)
    ensures var log, appended := LogOf(Fresh.Run(ops).logs.logs, key), AppendedFor(ops, key);
            && |log| == |appended| == Count(Fresh.Run(ops).logs.offsets, key)
            && forall i | 0 <= i < |log| :: log[i] == LogChunk(i + 1, appended[i].stream, appended[i].data)
    decreases |ops|
  {
    hide Stamp;
    if ops != [] {
      var init, last := ops[..|ops| - 1], ops[|ops| - 1];
      StoredLog(init, key);
      RestartStays(init);
    }
  }
}
