/** Submitting a job and following one worker run to its end. */
module JobDispatch {
  import opened Wrappers
  import opened JobTables
  import opened JobStore

  /** What a Recv on the worker stream yields; the end of the sequence is the end of the stream. */
  datatype Recv =
    | Response(
        ref: JobRef, logs: seq<LogChunk>, terminal: bool, finalState: JobState, exitCode: int, statusMessage: string)
    | StreamError(message: string)

  /** RunJob is refused, or opens a stream. */
  datatype WorkerRun = Refused(message: string) | Stream(msgs: seq<Recv>)

  datatype Ending = Failure(message: string) | Completion(resp: Recv)

  /** How a stream ends for the dispatcher: with its first error or terminal response, or by closing. */
  function EndingOf(msgs: seq<Recv>): (e: Ending)
    ensures e.Completion? ==> e.resp in msgs && e.resp.Response? && e.resp.terminal
  {
    if msgs == [] then Failure("worker stream closed unexpectedly")
    else if msgs[0].StreamError? then Failure(msgs[0].message)
    else if msgs[0].terminal then Completion(msgs[0])
    else EndingOf(msgs[1..])
  }

  function RunEnding(run: WorkerRun): (e: Ending)
    ensures e.Completion? ==> e.resp.Response?
  {
    match run
    case Refused(message) => Failure(message)
    case Stream(msgs) => EndingOf(msgs)
  }

  /** The log table after the dispatcher has followed a stream; logs are kept up to and with the terminal response. */
  function Logged(t: LogTable, ref: JobRef, msgs: seq<Recv>): LogTable
    decreases |msgs|
  {
    if msgs == [] || msgs[0].StreamError? then t
    else if msgs[0].terminal then t.Append(ref, msgs[0].logs)
    else Logged(t.Append(ref, msgs[0].logs), ref, msgs[1..])
  }

  function RunMessages(run: WorkerRun): seq<Recv> {
    if run.Stream? then run.msgs else []
  }

  function Started(job: Job): Job {
    job.(state := Running)
  }

  /** The job that an ending turns `job` into. */
  function Ended(job: Job, ending: Ending): Job
    requires ending.Completion? ==> ending.resp.Response?
  {
    match ending
    case Failure(message) => job.(state := Failed, statusMessage := message)
    case Completion(resp) =>
      job.(state := resp.finalState, exitCode := resp.exitCode, statusMessage := resp.statusMessage)
  }

  /** applyFailure ends the dispatched job, applyCompletion the job the response names. */
  function EndedRef(ref: JobRef, ending: Ending): JobRef
    requires ending.Completion? ==> ending.resp.Response?
  {
    if ending.Completion? then ending.resp.ref else ref
  }

  /** The job table once `ending` has been applied; an unknown job is left alone. */
  function Conclude(t: JobTable, ref: JobRef, ending: Ending): JobTable
    requires ending.Completion? ==> ending.resp.Response?
  {
    var key := Key(EndedRef(ref, ending));
    if key in t.jobs then t.Put(Ended(t.jobs[key], ending)) else t
  }

  /** Stored jobs are filed under their own keys. */
  ghost predicate Filed(jobs: map<string, Job>) {
    forall k | k in jobs :: Key(jobs[k].ref) == k
  }

  /** buildJobFromRequest, with the fresh id as a parameter. */
  function NewJob(tenantId: string, jobId: string, spec: string): Job {
    Job(JobRef(tenantId, jobId), spec, Accepted, 0, "")
  }

  /** What a job holds once its run has ended: its reference and its spec stay, the rest comes from the ending. */
  predicate EndedBy(was: Job, job: Job, ending: Ending)
    requires ending.Completion? ==> ending.resp.Response?
  {
    && job.ref == was.ref && job.spec == was.spec
    && (ending.Completion? ==>
          && job.state == ending.resp.finalState && job.exitCode == ending.resp.exitCode
          && job.statusMessage == ending.resp.statusMessage)
    && (ending.Failure? ==>
          job.state == Failed && job.statusMessage == ending.message && job.exitCode == was.exitCode)
  }

  /** The message that ends a stream. */
  predicate Ends(m: Recv) {
    m.StreamError? || m.terminal
  }

  /** All logs of some messages, in order. */
  function LogsIn(msgs: seq<Recv>): seq<LogChunk> {
    if msgs == [] then [] else (if msgs[0].Response? then msgs[0].logs else []) + LogsIn(msgs[1..])
  }

  lemma {:induction false} AppendTwice(t: LogTable, ref: JobRef, a: seq<LogChunk>, b: seq<LogChunk>)
    ensures t.Append(ref, a).Append(ref, b) == t.Append(ref, a + b)
  {
    hide Stamp;
    var key := Key(ref);
    var from := Count(t.offsets, key);
    if a == [] {
      assert a + b == b;
    } else if b == [] {
      assert a + b == a;
    } else {
      assert Stamp(a + b, from) == Stamp(a, from) + Stamp(b, from + |a|);
      assert LogOf(t.logs, key) + (Stamp(a, from) + Stamp(b, from + |a|))
          == LogOf(t.logs, key) + Stamp(a, from) + Stamp(b, from + |a|);
    }
  }

  lemma {:induction false} LoggedFirst(t: LogTable, ref: JobRef, msgs: seq<Recv>)
    ensures Logged(t, ref, msgs)
         == if msgs == [] || msgs[0].StreamError? then t
            else if msgs[0].terminal then t.Append(ref, msgs[0].logs)
            else Logged(t.Append(ref, msgs[0].logs), ref, msgs[1..])
    ensures EndingOf(msgs)
         == if msgs == [] then Failure("worker stream closed unexpectedly")
            else if msgs[0].StreamError? then Failure(msgs[0].message)
            else if msgs[0].terminal then Completion(msgs[0])
            else EndingOf(msgs[1..])
  {
  }

  /**
   * A stream is followed to its end: what it logs is everything up to and with the message that ends it, in order,
   * and that message says how it ends. A stream that no message ends was closed.
   */
  lemma {:induction false} FollowedToTheEnd(t: LogTable, ref: JobRef, before: seq<Recv>, rest: seq<Recv>)
    requires forall i | 0 <= i < |before| :: !Ends(before[i])
    requires rest != [] ==> Ends(rest[0])
    ensures Logged(t, ref, before + rest)
         == t.Append(ref, LogsIn(before) + if rest != [] && rest[0].Response? then rest[0].logs else [])
    ensures if rest == [] then EndingOf(before + rest) == Failure("worker stream closed unexpectedly")
            else if rest[0].StreamError? then EndingOf(before + rest) == Failure(rest[0].message)
            else EndingOf(before + rest) == Completion(rest[0])
    decreases |before|
  {
    hide Logged, EndingOf, LogTable.Append;
    var last := if rest != [] && rest[0].Response? then rest[0].logs else [];
    if before == [] {
      assert before + rest == rest;
      LoggedFirst(t, ref, rest);
      NothingAppended(t, ref);
      assert LogsIn(before) + last == last;
    } else {
      var all := before + rest;
      assert !Ends(before[0]) && all[0] == before[0] && all[1..] == before[1..] + rest;
      assert forall i | 0 <= i < |before[1..]| :: before[1..][i] == before[i + 1];
      LoggedFirst(t, ref, all);
      FollowedToTheEnd(t.Append(ref, before[0].logs), ref, before[1..], rest);
      AppendTwice(t, ref, before[0].logs, LogsIn(before[1..]) + last);
      assert before[0].logs + (LogsIn(before[1..]) + last) == LogsIn(before) + last;
    }
  }

  /** What a dispatcher that finds its job makes of it, if the ending is for that job. */
  lemma {:induction false} DispatchEnds(t: JobTable, ref: JobRef, run: WorkerRun)
    requires Filed(t.jobs) && Key(ref) in t.jobs && Key(EndedRef(ref, RunEnding(run))) == Key(ref)
    ensures var end := Conclude(t.Put(Started(t.jobs[Key(ref)])), ref, RunEnding(run));
            Key(ref) in end.jobs && EndedBy(t.jobs[Key(ref)], end.jobs[Key(ref)], RunEnding(run))
  {
    hide RunEnding;
  }

  class Service {
    const store: Store

    constructor (store: Store)
      ensures this.store == store
    {
      this.store := store;
    }

    /** SubmitJob, up to handing the job to dispatch; None stands for the two InvalidArgument errors. */
    method SubmitJob(tenantId: string, jobId: string, spec: Option<string>) returns (job: Option<Job>)
      modifies store`jobs, store`jobVersions, store`jobStream
      ensures job == if tenantId == "" || spec == None then None
                     else Some(Job(JobRef(tenantId, jobId), spec.value, Accepted, 0, ""))
      ensures store.Jobs() == if job.Some? then old(store.Jobs()).Put(job.value) else old(store.Jobs())
      ensures store.jobStream == old(store.jobStream)
                + if job.Some? && store.mirrored then [old(store.Jobs()).PutMsg(job.value)] else []
      ensures old(store.JobsRecoverable()) ==> store.JobsRecoverable()
    {
      if tenantId == "" { return None; }
      if spec == None { return None; }
      var j := NewJob(tenantId, jobId, spec.value);
      store.Put(j);
      job := Some(j);
    }

    /** dispatch */
    method Dispatch(ref: JobRef, run: WorkerRun)
      requires store.Valid() && Filed(store.jobs)
      modifies store`jobs, store`jobVersions, store`jobStream, store`logs, store`logOffsets, store`logStream,
               store`logSubs
      modifies store.SubsOf(Key(ref)) + store.SubsOf(Key(EndedRef(ref, RunEnding(run))))
      ensures store.Valid() && Filed(store.jobs)
      ensures Key(ref) !in old(store.jobs) ==>
                && store.Jobs() == old(store.Jobs()) && store.Logs() == old(store.Logs())
                && store.logSubs == old(store.logSubs)
      ensures Key(ref) in old(store.jobs) ==>
                var running := old(store.Jobs()).Put(Started(old(store.jobs)[Key(ref)]));
                && store.Jobs() == Conclude(running, ref, RunEnding(run))
                && (Key(EndedRef(ref, RunEnding(run))) == Key(ref) ==>
                      && Key(ref) in store.jobs
                      && EndedBy(old(store.jobs)[Key(ref)], store.jobs[Key(ref)], RunEnding(run)))
                && store.Logs() == Logged(old(store.Logs()), ref, RunMessages(run))
                && store.logSubs == (var key := Key(EndedRef(ref, RunEnding(run)));
                                     if key in running.jobs then old(store.logSubs) - {key} else old(store.logSubs))
      ensures old(store.JobsRecoverable()) ==> store.JobsRecoverable()
      ensures old(store.LogsRecoverable()) ==> store.LogsRecoverable()
    {
      hide Logged, EndingOf, JobTable.Put, Conclude, Ended, EndedBy;
      var got := store.Get(ref);
      if got == None { return; }
      if Key(EndedRef(ref, RunEnding(run))) == Key(ref) { DispatchEnds(store.Jobs(), ref, run); }
      var job := Started(got.value);
      store.Put(job);
      FiledPut(old(store.Jobs()), job);
      RunJob(ref, run);
    }

    /** The rest of dispatch, from the call of RunJob on. */
    method RunJob(ref: JobRef, run: WorkerRun)
      requires store.Valid() && Filed(store.jobs)
      modifies store`jobs, store`jobVersions, store`jobStream, store`logs, store`logOffsets, store`logStream,
               store`logSubs
      modifies store.SubsOf(Key(ref)) + store.SubsOf(Key(EndedRef(ref, RunEnding(run))))
      ensures store.Valid() && Filed(store.jobs)
      ensures store.Jobs() == Conclude(old(store.Jobs()), ref, RunEnding(run))
      ensures store.Logs() == Logged(old(store.Logs()), ref, RunMessages(run))
      ensures var key := Key(EndedRef(ref, RunEnding(run)));
              store.logSubs == if key in old(store.jobs) then old(store.logSubs) - {key} else old(store.logSubs)
      ensures old(store.JobsRecoverable()) ==> store.JobsRecoverable()
      ensures old(store.LogsRecoverable()) ==> store.LogsRecoverable()
    {
      hide Logged, EndingOf, JobTable.Put, Conclude, Ended, EndedBy;
      if run.Refused? {
        NothingLogged(store.Logs(), ref);
        Finish(ref, Failure(run.message));
        return;
      }
      var ending := Follow(ref, run.msgs);
      Finish(ref, ending);
    }

    /** The receive loop of dispatch. */
    method Follow(ref: JobRef, msgs: seq<Recv>) returns (ending: Ending)
      requires store.Valid()
      modifies store`logs, store`logOffsets, store`logStream, store.SubsOf(Key(ref))
      ensures store.Valid()
      ensures ending == EndingOf(msgs) && store.Logs() == Logged(old(store.Logs()), ref, msgs)
      ensures old(store.LogsRecoverable()) ==> store.LogsRecoverable()
    {
      hide LogTable.Append, LogTable.AppendMsgs;
      var i := 0;
      assert msgs[0..] == msgs;
      while i < |msgs|
        invariant 0 <= i <= |msgs| && store.Valid()
        invariant old(store.LogsRecoverable()) ==> store.LogsRecoverable()
        invariant EndingOf(msgs[i..]) == EndingOf(msgs)
        invariant Logged(store.Logs(), ref, msgs[i..]) == Logged(old(store.Logs()), ref, msgs)
      {
        assert msgs[i..][0] == msgs[i] && msgs[i..][1..] == msgs[i + 1..];
        if msgs[i].StreamError? { return Failure(msgs[i].message); }
        if |msgs[i].logs| > 0 {
          store.AppendLogs(ref, msgs[i].logs);
        } else {
          NothingAppended(store.Logs(), ref);
        }
        if msgs[i].terminal { return Completion(msgs[i]); }
        i := i + 1;
      }
      ending := Failure("worker stream closed unexpectedly");
    }

    /** applyFailure and applyCompletion. */
    method Finish(ref: JobRef, ending: Ending)
      requires store.Valid() && Filed(store.jobs) && (ending.Completion? ==> ending.resp.Response?)
      modifies store`jobs, store`jobVersions, store`jobStream, store`logSubs, store.SubsOf(Key(EndedRef(ref, ending)))
      ensures store.Valid() && Filed(store.jobs)
      ensures store.Jobs() == Conclude(old(store.Jobs()), ref, ending)
      ensures var key := Key(if ending.Completion? then ending.resp.ref else ref);
              && (key in old(store.jobs) <==> key in store.jobs)
              && (key in store.jobs ==>
                    && EndedBy(old(store.jobs)[key], store.jobs[key], ending)
                    && Count(store.jobVersions, key) == Count(old(store.jobVersions), key) + 1)
              && forall k | k != key ::
                   && (k in store.jobs <==> k in old(store.jobs))
                   && (k in store.jobs ==> store.jobs[k] == old(store.jobs)[k])
      ensures var key := Key(EndedRef(ref, ending));
              store.logSubs == if key in old(store.jobs) then old(store.logSubs) - {key} else old(store.logSubs)
      ensures old(store.JobsRecoverable()) ==> store.JobsRecoverable()
    {
      var target := EndedRef(ref, ending);
      var got := store.Get(target);
      if got == None { return; }
      store.Put(Ended(got.value, ending));
      store.CloseLogStreams(target);
    }
  }

  lemma {:induction false} FiledPut(t: JobTable, job: Job)
    requires Filed(t.jobs)
    ensures Filed(t.Put(job).jobs)
  {
  }

  lemma {:induction false} NothingLogged(t: LogTable, ref: JobRef)
    ensures Logged(t, ref, []) == t
  {
  }

  /** What follows the first terminal response, or the first error, is never looked at. */
  lemma {:induction false} NothingAfterTheEnd(
    t: LogTable, ref: JobRef, before: seq<Recv>, last: Recv, unread: seq<Recv>)
    requires last.StreamError? || last.terminal
    ensures EndingOf(before + [last] + unread) == EndingOf(before + [last])
    ensures Logged(t, ref, before + [last] + unread) == Logged(t, ref, before + [last])
    decreases |before|
  {
    if before == [] {
      assert [last] + unread == [] + [last] + unread;
    } else {
      var all := before + [last];
      assert (all + unread)[0] == before[0] && all[0] == before[0];
      assert (all + unread)[1..] == before[1..] + [last] + unread && all[1..] == before[1..] + [last];
      if before[0].Response? && !before[0].terminal {
        NothingAfterTheEnd(t.Append(ref, before[0].logs), ref, before[1..], last, unread);
      }
    }
  }

  /** The worker's finalizeState. */
  function FinalizeState(exitCode: int): JobState {
    if exitCode == 0 then Succeeded else Failed
  }

  /** The tables after SubmitJob and the whole of dispatch. */
  function Lifetime(t: JobTable, job: Job, run: WorkerRun): JobTable {
    var submitted := t.Put(job);
    var running := submitted.Put(Started(job));
    Conclude(running, job.ref, RunEnding(run))
  }

  /** A job is stranded, RUNNING at version 2, exactly when a terminal response names another job. */
  lemma {:induction false} StrayResponseStrandsJob(
    t: JobTable, tenantId: string, jobId: string, spec: string, run: WorkerRun)
    requires Filed(t.jobs) && Key(JobRef(tenantId, jobId)) !in t.versions
    ensures var key := Key(JobRef(tenantId, jobId));
            var end := Lifetime(t, NewJob(tenantId, jobId, spec), run);
            var ending := RunEnding(run);
            && key in end.jobs && key in end.versions
            && (end.jobs[key].state == Running && end.versions[key] == 2
                <==> ending.Completion? && Key(ending.resp.ref) != key)
  {
    var key := Key(JobRef(tenantId, jobId));
    var job := NewJob(tenantId, jobId, spec);
    var running := t.Put(job).Put(Started(job));
    var ending := RunEnding(run);
    assert running.jobs[key] == Started(job) && running.versions[key] == 2;
    var target := Key(EndedRef(job.ref, ending));
    if target == key {
      assert Lifetime(t, job, run) == running.Put(Ended(Started(job), ending));
    }
  }
}
