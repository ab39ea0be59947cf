/** Many jobs at once: their dispatchers share the tables and the journal, and interleave in any way. */
module JobFleet {
  import opened Wrappers
  import opened JobTables
  import opened JobDispatch

  /**
   * Where a dispatcher stands: about to read its job, about to store it as RUNNING, waiting for the worker to take
   * it, following the stream, about to read the job its ending is for, about to store that, or done. One that does
   * not find its job is skipped.
   */
  datatype Pc =
    | Queued
    | Loaded(job: Job)
    | Dispatched
    | Following
    | Ending(e: JobDispatch.Ending)
    | Applying(e: JobDispatch.Ending, job: Job)
    | Done(e: JobDispatch.Ending)
    | Skipped

  datatype Task = Task(ref: JobRef, spec: string, pc: Pc)

  datatype Fleet = Fleet(jobs: JobTable, logs: LogTable, jobStream: seq<JobMsg>, tasks: seq<Task>)

  /** What the worker does; Own stands for a step of the dispatcher's own. */
  datatype Input = Own | Accept | Refuse(message: string) | Message(r: Recv) | Close

  datatype Step = Submit(tenantId: string, jobId: string, spec: string) | Advance(i: nat, input: Input)

  function Publish(s: Fleet, job: Job): Fleet {
    s.(jobs := s.jobs.Put(job), jobStream := s.jobStream + [s.jobs.PutMsg(job)])
  }

  function At(s: Fleet, i: nat, pc: Pc): Fleet
    requires i < |s.tasks|
  {
    s.(tasks := s.tasks[i := s.tasks[i].(pc := pc)])
  }

  /** The key of the job that an ending of task `t` is for. */
  function Target(t: Task, e: JobDispatch.Ending): string {
    if e.Completion? && e.resp.Response? then Key(e.resp.ref) else Key(t.ref)
  }

  function Concluded(job: Job, e: JobDispatch.Ending): Job {
    if e.Completion? && !e.resp.Response? then job else Ended(job, e)
  }

  /** One step of dispatch. */
  function AdvanceTask(s: Fleet, i: nat, input: Input): (after: Fleet)
    requires i < |s.tasks|
    ensures |after.tasks| == |s.tasks|
  {
    var t := s.tasks[i];
    match t.pc
    case Queued => At(s, i, if Key(t.ref) in s.jobs.jobs then Loaded(s.jobs.jobs[Key(t.ref)]) else Skipped)
    case Loaded(job) => At(Publish(s, Started(job)), i, Dispatched)
    case Dispatched =>
      (match input
       case Accept => At(s, i, Following)
       case Refuse(message) => At(s, i, Ending(Failure(message)))
       case _ => s)
    case Following =>
      (match input
       case Message(r) =>
         if r.StreamError? then At(s, i, Ending(Failure(r.message)))
         else
           var s := s.(logs := s.logs.Append(t.ref, r.logs));
           if r.terminal then At(s, i, Ending(Completion(r))) else s
       case Close => At(s, i, Ending(Failure("worker stream closed unexpectedly")))
       case _ => s)
    case Ending(e) =>
      At(s, i, if Target(t, e) in s.jobs.jobs then Applying(e, s.jobs.jobs[Target(t, e)]) else Done(e))
    case Applying(e, job) => At(Publish(s, Concluded(job, e)), i, Done(e))
    case Done(_) => s
    case Skipped => s
  }

  /** A job id is a fresh UUID: a key that was used before is not submitted. */
  function Apply(s: Fleet, step: Step): Fleet {
    match step
    case Submit(tenantId, jobId, spec) =>
      var job := NewJob(tenantId, jobId, spec);
      if tenantId == "" || Key(job.ref) in s.jobs.versions then s
      else var s := Publish(s, job); s.(tasks := s.tasks + [Task(job.ref, spec, Queued)])
    case Advance(i, input) => if i < |s.tasks| then AdvanceTask(s, i, input) else s
  }

  function Run(s: Fleet, steps: seq<Step>): Fleet {
    if steps == [] then s else Apply(Run(s, steps[..|steps| - 1]), steps[|steps| - 1])
  }

  /** No dispatchers yet; every stored or published job has a version. */
  ghost predicate Init(s: Fleet) {
    && s.tasks == [] && Filed(s.jobs.jobs)
    && (forall k | k in s.jobs.jobs :: k in s.jobs.versions)
    && (forall m | m in s.jobStream :: Key(m.job.ref) in s.jobs.versions)
  }

  /** What was published for one key. */
  function Story(stream: seq<JobMsg>, key: string): seq<JobMsg> {
    if stream == [] then []
    else
      var last := stream[|stream| - 1];
      Story(stream[..|stream| - 1], key) + if Key(last.job.ref) == key then [last] else []
  }

  lemma {:induction false} StorySnoc(stream: seq<JobMsg>, m: JobMsg, key: string)
    ensures Story(stream + [m], key) == if Key(m.job.ref) == key then Story(stream, key) + [m] else Story(stream, key)
  {
    assert (stream + [m])[..|stream|] == stream;
  }

  lemma {:induction false} NoStory(stream: seq<JobMsg>, key: string)
    requires forall m | m in stream :: Key(m.job.ref) != key
    ensures Story(stream, key) == []
    decreases |stream|
  {
    if stream != [] {
      assert stream[|stream| - 1] in stream;
      NoStory(stream[..|stream| - 1], key);
    }
  }

  /** A response in form: its ending state follows from its exit code. */
  predicate Formed(e: JobDispatch.Ending) {
    e.Completion? ==> e.resp.Response? && e.resp.finalState == FinalizeState(e.resp.exitCode)
  }

  /** The worker of task `i` answers for the job it was given, and derives the final state from the exit code. */
  predicate Behaves(s: Fleet, step: Step) {
    step.Advance? && step.i < |s.tasks| && step.input.Message? && step.input.r.Response? && step.input.r.terminal ==>
      step.input.r.ref == s.tasks[step.i].ref && step.input.r.finalState == FinalizeState(step.input.r.exitCode)
  }

  predicate WellBehaved(s: Fleet, steps: seq<Step>) {
    steps != [] ==> WellBehaved(s, steps[..|steps| - 1]) && Behaves(Run(s, steps[..|steps| - 1]), steps[|steps| - 1])
  }

  function JobOf(t: Task): Job {
    Job(t.ref, t.spec, Accepted, 0, "")
  }

  /** The three versions of a job: ACCEPTED, RUNNING, and the one its ending makes. */
  function Life(t: Task, e: JobDispatch.Ending): (life: seq<JobMsg>)
    requires Formed(e)
    ensures |life| == 3
  {
    [JobMsg(JobOf(t), 1), JobMsg(Started(JobOf(t)), 2), JobMsg(Ended(Started(JobOf(t)), e), 3)]
  }

  /** The dispatcher knows how its stream ended. */
  predicate Decided(pc: Pc) {
    pc.Ending? || pc.Applying? || pc.Done?
  }

  /** How much of its life a task has published. */
  function Published(t: Task): nat {
    match t.pc
    case Queued => 1
    case Loaded(_) => 1
    case Done(_) => 3
    case Skipped => 0
    case _ => 2
  }

  /** The story of a task's job, while all workers behave. */
  ghost predicate OnTrack(t: Task, jobs: JobTable, story: seq<JobMsg>) {
    && !t.pc.Skipped?
    && Key(t.ref) in jobs.jobs && Key(t.ref) in jobs.versions && jobs.versions[Key(t.ref)] == Published(t)
    && (exists e :: Formed(e) && (Decided(t.pc) ==> e == t.pc.e) && story == Life(t, e)[..Published(t)])
    && jobs.jobs[Key(t.ref)] == story[|story| - 1].job
    && (t.pc.Loaded? || t.pc.Applying? ==> t.pc.job == jobs.jobs[Key(t.ref)])
    && (t.pc.Applying? || t.pc.Ending? ==> Target(t, t.pc.e) == Key(t.ref))
  }

  ghost predicate AllOnTrack(s: Fleet) {
    && (forall i | 0 <= i < |s.tasks| :: OnTrack(s.tasks[i], s.jobs, Story(s.jobStream, Key(s.tasks[i].ref))))
    && (forall i, j | 0 <= i < j < |s.tasks| :: Key(s.tasks[i].ref) != Key(s.tasks[j].ref))
    && (forall m | m in s.jobStream :: Key(m.job.ref) in s.jobs.versions)
  }

  lemma {:induction false} LifePrefix(t: Task, e: JobDispatch.Ending, e': JobDispatch.Ending, n: nat)
    requires Formed(e) && Formed(e') && n <= 2
    ensures Life(t, e)[..n] == Life(t, e')[..n]
  {
  }

  /** A step that publishes nothing moves a task along its life. */
  lemma {:induction false} QuietOnTrack(t: Task, u: Task, jobs: JobTable, story: seq<JobMsg>)
    requires OnTrack(t, jobs, story) && Published(t) == Published(u) <= 2 && !u.pc.Skipped? && u == t.(pc := u.pc)
    requires u.pc.Loaded? || u.pc.Applying? ==> u.pc.job == jobs.jobs[Key(t.ref)]
    requires u.pc.Applying? || u.pc.Ending? ==> Formed(u.pc.e) && Target(u, u.pc.e) == Key(t.ref)
    ensures OnTrack(u, jobs, story)
  {
    hide Life;
    var n := Published(t);
    var e :| Formed(e) && (Decided(t.pc) ==> e == t.pc.e) && story == Life(t, e)[..n];
    var e' := if Decided(u.pc) then u.pc.e else e;
    LifePrefix(t, e, e', n);
    LifeOfSame(t, u, e');
  }

  lemma {:induction false} LifeOfSame(t: Task, u: Task, e: JobDispatch.Ending)
    requires Formed(e) && u == t.(pc := u.pc)
    ensures Life(u, e) == Life(t, e)
  {
  }

  /** A step that publishes the next version. */
  lemma {:induction false} PublishOnTrack(t: Task, u: Task, jobs: JobTable, story: seq<JobMsg>, job: Job)
    requires OnTrack(t, jobs, story) && u == t.(pc := u.pc)
    requires (t.pc.Loaded? && u.pc.Dispatched? && job == Started(t.pc.job))
          || (t.pc.Applying? && u.pc == Done(t.pc.e) && Formed(t.pc.e) && job == Ended(t.pc.job, t.pc.e))
    ensures Key(job.ref) == Key(t.ref) && OnTrack(u, jobs.Put(job), story + [jobs.PutMsg(job)])
  {
    var n := Published(t);
    var e :| Formed(e) && (Decided(t.pc) ==> e == t.pc.e) && story == Life(t, e)[..n];
    var life := Life(t, e);
    assert story[n - 1] == life[n - 1] && life[..n] + [life[n]] == life[..n + 1];
    assert jobs.PutMsg(job) == life[n];
    LifeOfSame(t, u, e);
  }

  /** The step of a well-behaved task keeps it on track, and publishes under its own key only. */
  lemma {:induction false} OwnStep(s: Fleet, i: nat, input: Input)
    requires AllOnTrack(s) && i < |s.tasks| && Behaves(s, Advance(i, input))
    ensures var u, key := Apply(s, Advance(i, input)), Key(s.tasks[i].ref);
            && |u.tasks| == |s.tasks| && u.tasks == s.tasks[i := s.tasks[i].(pc := u.tasks[i].pc)]
            && ((u.jobs == s.jobs && u.jobStream == s.jobStream)
                || exists job: Job ::
                     && Key(job.ref) == key && u.jobs == s.jobs.Put(job)
                     && u.jobStream == s.jobStream + [s.jobs.PutMsg(job)])
            && OnTrack(u.tasks[i], u.jobs, Story(u.jobStream, key))
  {
    hide Story;
    var t, u := s.tasks[i], Apply(s, Advance(i, input));
    var story := Story(s.jobStream, Key(t.ref));
    assert OnTrack(t, s.jobs, story);
    match t.pc {
      case Loaded(job) =>
        hide OnTrack;
        PublishOnTrack(t, u.tasks[i], s.jobs, story, Started(job));
        StorySnoc(s.jobStream, s.jobs.PutMsg(Started(job)), Key(t.ref));
      case Applying(e, job) =>
        hide OnTrack;
        PublishOnTrack(t, u.tasks[i], s.jobs, story, Ended(job, e));
        StorySnoc(s.jobStream, s.jobs.PutMsg(Ended(job, e)), Key(t.ref));
      case Done(_) =>
      case Skipped => assert false;
      case _ =>
        if u.tasks[i] != t { QuietOnTrack(t, u.tasks[i], s.jobs, story); }
    }
  }

  /** What is published under another key leaves a task where it is. */
  lemma {:induction false} OthersOnTrack(t: Task, jobs: JobTable, stream: seq<JobMsg>, job: Job)
    requires OnTrack(t, jobs, Story(stream, Key(t.ref))) && Key(job.ref) != Key(t.ref)
    ensures OnTrack(t, jobs.Put(job), Story(stream + [jobs.PutMsg(job)], Key(t.ref)))
  {
    hide Story, Life;
    StorySnoc(stream, jobs.PutMsg(job), Key(t.ref));
  }

  lemma {:induction false} AdvanceOnTrack(s: Fleet, i: nat, input: Input)
    requires AllOnTrack(s) && Behaves(s, Advance(i, input))
    ensures AllOnTrack(Apply(s, Advance(i, input)))
  {
    if i < |s.tasks| {
      OwnStep(s, i, input);
      var u, key := Apply(s, Advance(i, input)), Key(s.tasks[i].ref);
      hide OnTrack, Story, AdvanceTask, Behaves;
      forall j | 0 <= j < |u.tasks| ensures OnTrack(u.tasks[j], u.jobs, Story(u.jobStream, Key(u.tasks[j].ref))) {
        if j != i && !(u.jobs == s.jobs && u.jobStream == s.jobStream) {
          var job: Job :|
            Key(job.ref) == key && u.jobs == s.jobs.Put(job) && u.jobStream == s.jobStream + [s.jobs.PutMsg(job)];
          OthersOnTrack(s.tasks[j], s.jobs, s.jobStream, job);
        }
      }
    }
  }

  lemma {:induction false} OldOnTrack(s: Fleet, job: Job)
    requires AllOnTrack(s) && Key(job.ref) !in s.jobs.versions
    ensures forall j | 0 <= j < |s.tasks| ::
              && Key(s.tasks[j].ref) != Key(job.ref)
              && OnTrack(s.tasks[j], s.jobs.Put(job), Story(s.jobStream + [s.jobs.PutMsg(job)], Key(s.tasks[j].ref)))
  {
    hide OnTrack, Story;
    forall j | 0 <= j < |s.tasks|
      ensures Key(s.tasks[j].ref) != Key(job.ref)
      ensures OnTrack(s.tasks[j], s.jobs.Put(job), Story(s.jobStream + [s.jobs.PutMsg(job)], Key(s.tasks[j].ref)))
    {
      HasVersion(s.tasks[j], s.jobs, Story(s.jobStream, Key(s.tasks[j].ref)));
      OthersOnTrack(s.tasks[j], s.jobs, s.jobStream, job);
    }
  }

  lemma {:induction false} SubmitOnTrack(s: Fleet, tenantId: string, jobId: string, spec: string)
    requires AllOnTrack(s)
    ensures AllOnTrack(Apply(s, Submit(tenantId, jobId, spec)))
  {
    hide OnTrack, Story;
    var job := NewJob(tenantId, jobId, spec);
    var key := Key(job.ref);
    if tenantId != "" && key !in s.jobs.versions {
      NoStory(s.jobStream, key);
      StorySnoc(s.jobStream, s.jobs.PutMsg(job), key);
      assert [] + [s.jobs.PutMsg(job)] == [s.jobs.PutMsg(job)];
      NewOnTrack(Task(job.ref, spec, Queued), s.jobs.Put(job));
      OldOnTrack(s, job);
    }
  }

  lemma {:induction false} HasVersion(t: Task, jobs: JobTable, story: seq<JobMsg>)
    requires OnTrack(t, jobs, story)
    ensures Key(t.ref) in jobs.versions
  {
  }

  lemma {:induction false} NewOnTrack(t: Task, jobs: JobTable)
    requires t.pc.Queued? && Key(t.ref) in jobs.jobs && Key(t.ref) in jobs.versions
    requires jobs.jobs[Key(t.ref)] == JobOf(t) && jobs.versions[Key(t.ref)] == 1
    ensures OnTrack(t, jobs, [JobMsg(JobOf(t), 1)])
  {
    assert Formed(Failure("")) && Life(t, Failure(""))[..1] == [JobMsg(JobOf(t), 1)];
  }

  lemma {:induction false} RunOnTrack(s: Fleet, steps: seq<Step>)
    requires Init(s) && WellBehaved(s, steps)
    ensures AllOnTrack(Run(s, steps))
    decreases |steps|
  {
    hide AllOnTrack, Apply, Behaves;
    if steps == [] {
      InitOnTrack(s);
    } else {
      RunOnTrack(s, steps[..|steps| - 1]);
      match steps[|steps| - 1]
      case Submit(tenantId, jobId, spec) => SubmitOnTrack(Run(s, steps[..|steps| - 1]), tenantId, jobId, spec);
      case Advance(i, input) => AdvanceOnTrack(Run(s, steps[..|steps| - 1]), i, input);
    }
  }

  lemma {:induction false} InitOnTrack(s: Fleet)
    requires Init(s)
    ensures AllOnTrack(s)
  {
  }

  /** Whether a dispatcher is waiting for the worker, and takes in what it does. */
  predicate Takes(pc: Pc, input: Input) {
    (pc.Dispatched? && (input.Accept? || input.Refuse?)) || (pc.Following? && (input.Message? || input.Close?))
  }

  function HeardIn(s: Fleet, step: Step, i: nat): seq<Input> {
    if step.Advance? && step.i == i < |s.tasks| && Takes(s.tasks[i].pc, step.input) then [step.input] else []
  }

  /** What dispatcher `i` has taken in from its worker. */
  function Heard(s: Fleet, steps: seq<Step>, i: nat): seq<Input> {
    if steps == [] then []
    else
      var init := steps[..|steps| - 1];
      Heard(s, init, i) + HeardIn(Run(s, init), steps[|steps| - 1], i)
  }

  function MessagesIn(heard: seq<Input>): seq<Recv> {
    if heard == [] then []
    else
      var last := heard[|heard| - 1];
      MessagesIn(heard[..|heard| - 1]) + if last.Message? then [last.r] else []
  }

  /** The worker run that a dispatcher has seen. */
  function RunSeen(heard: seq<Input>): WorkerRun {
    if heard != [] && heard[0].Refuse? then Refused(heard[0].message) else Stream(MessagesIn(heard))
  }

  predicate Ongoing(msgs: seq<Recv>) {
    forall i | 0 <= i < |msgs| :: msgs[i].Response? && !msgs[i].terminal
  }

  /** A dispatcher stands where what it has heard takes it. */
  predicate Listened(pc: Pc, heard: seq<Input>) {
    if Decided(pc) then pc.e == RunEnding(RunSeen(heard))
    else if pc.Following? then heard != [] && heard[0] == Accept && Ongoing(MessagesIn(heard))
    else heard == []
  }

  /** An input that ends a run: a refusal, the end of the stream, an error or a terminal response. */
  predicate EndsRun(input: Input) {
    input.Refuse? || input.Close? || (input.Message? && (input.r.StreamError? || input.r.terminal))
  }

  /** Only the last input can have ended the run, and then it says how. */
  predicate Told(pc: Pc, heard: seq<Input>) {
    && (forall k | 0 <= k < |heard| - 1 :: !EndsRun(heard[k]))
    && (Decided(pc) <==> heard != [] && EndsRun(heard[|heard| - 1]))
    && (Decided(pc) ==>
          match heard[|heard| - 1]
          case Refuse(message) => pc.e == Failure(message)
          case Message(r) => pc.e == if r.StreamError? then Failure(r.message) else Completion(r)
          case _ => pc.e == Failure("worker stream closed unexpectedly"))
  }

  lemma {:induction false} ToldStep(s: Fleet, i: nat, input: Input, heard: seq<Input>)
    requires i < |s.tasks| && Told(s.tasks[i].pc, heard)
    ensures Told(AdvanceTask(s, i, input).tasks[i].pc, heard + HeardIn(s, Advance(i, input), i))
  {
    assert heard + [] == heard;
  }

  lemma {:induction false} EndingAfter(msgs: seq<Recv>, m: Recv)
    requires Ongoing(msgs)
    ensures EndingOf(msgs) == Failure("worker stream closed unexpectedly")
    ensures EndingOf(msgs + [m]) == EndingOf([m])
    decreases |msgs|
  {
    if msgs == [] {
      assert msgs + [m] == [m];
    } else {
      assert msgs[0].Response? && !msgs[0].terminal;
      assert forall i | 0 <= i < |msgs[1..]| :: msgs[1..][i] == msgs[i + 1];
      assert (msgs + [m])[1..] == msgs[1..] + [m];
      EndingAfter(msgs[1..], m);
    }
  }

  lemma {:induction false} MessagesSnoc(heard: seq<Input>, input: Input)
    ensures MessagesIn(heard + [input])
         == if input.Message? then MessagesIn(heard) + [input.r] else MessagesIn(heard)
  {
    assert (heard + [input])[..|heard|] == heard;
  }

  /** A dispatcher that follows its stream hears it close, or hears one more message. */
  lemma {:induction false} CloseHeard(heard: seq<Input>)
    requires heard != [] && heard[0] == Accept && Ongoing(MessagesIn(heard))
    ensures RunEnding(RunSeen(heard + [Close])) == Failure("worker stream closed unexpectedly")
  {
    MessagesSnoc(heard, Close);
    EndingAfter(MessagesIn(heard), StreamError(""));
  }

  lemma {:induction false} MessageHeard(heard: seq<Input>, m: Recv)
    requires heard != [] && heard[0] == Accept && Ongoing(MessagesIn(heard))
    ensures if m.StreamError? then RunEnding(RunSeen(heard + [Message(m)])) == Failure(m.message)
            else if m.terminal then RunEnding(RunSeen(heard + [Message(m)])) == Completion(m)
            else Ongoing(MessagesIn(heard + [Message(m)]))
  {
    MessagesSnoc(heard, Message(m));
    EndingAfter(MessagesIn(heard), m);
    assert [m][1..] == [];
  }

  lemma {:induction false} RefusalHeard(input: Input)
    requires input.Refuse?
    ensures RunEnding(RunSeen([input])) == Failure(input.message)
  {
  }

  /** One step of a dispatcher that has listened. */
  lemma {:induction false} ListenedStep(s: Fleet, i: nat, input: Input, heard: seq<Input>)
    requires i < |s.tasks| && Listened(s.tasks[i].pc, heard)
    ensures Listened(AdvanceTask(s, i, input).tasks[i].pc, heard + HeardIn(s, Advance(i, input), i))
  {
    hide RunSeen, RunEnding, Ongoing, MessagesIn, EndingOf, LogTable.Append;
    var pc := s.tasks[i].pc;
    assert heard + [] == heard;
    if pc.Following? {
      if input.Close? { CloseHeard(heard); }
      if input.Message? { MessageHeard(heard, input.r); }
    } else if pc.Dispatched? {
      assert heard + [input] == [input];
      if input.Refuse? { RefusalHeard(input); }
      if input.Accept? { NothingYetSaid(); }
    }
  }

  lemma {:induction false} NothingYetSaid()
    ensures Ongoing(MessagesIn([Accept]))
  {
    assert [Accept][..0] == [];
  }

  lemma {:induction false} OthersStand(s: Fleet, step: Step, i: nat)
    requires i < |s.tasks| && !(step.Advance? && step.i == i)
    ensures i < |Apply(s, step).tasks| && Apply(s, step).tasks[i] == s.tasks[i] && HeardIn(s, step, i) == []
  {
  }

  /** Whatever all workers do: how a dispatcher's stream ended is how what it heard ends, which its last input says. */
  lemma {:induction false} EndingIsHeard(s: Fleet, steps: seq<Step>, i: nat)
    requires Init(s)
    ensures if i < |Run(s, steps).tasks|
            then var pc, heard := Run(s, steps).tasks[i].pc, Heard(s, steps, i); Listened(pc, heard) && Told(pc, heard)
            else Heard(s, steps, i) == []
    decreases |steps|
  {
    hide Listened, Told, AdvanceTask;
    if steps != [] {
      var init, last := steps[..|steps| - 1], steps[|steps| - 1];
      var u, heard := Run(s, init), Heard(s, init, i);
      EndingIsHeard(s, init, i);
      assert heard + [] == heard;
      if i < |u.tasks| {
        if last.Advance? && last.i == i {
          ListenedStep(u, i, last.input, heard);
          ToldStep(u, i, last.input, heard);
        } else {
          OthersStand(u, last, i);
        }
      } else if i < |Run(s, steps).tasks| {
        NothingHeard(Run(s, steps).tasks[i].pc);
      }
    }
  }

  lemma {:induction false} NothingHeard(pc: Pc)
    requires pc.Queued?
    ensures Listened(pc, []) && Told(pc, [])
  {
  }

  /** Until the stream has ended, what was heard reads as a stream that was closed. */
  lemma {:induction false} UndecidedFails(pc: Pc, heard: seq<Input>)
    requires Listened(pc, heard) && !Decided(pc)
    ensures RunEnding(RunSeen(heard)).Failure?
  {
    EndingAfter(MessagesIn(heard), StreamError(""));
  }

  /** The finished job of task `t`, by the last input that its dispatcher took in. */
  predicate OutcomeOf(job: Job, t: Task, heard: seq<Input>) {
    && heard != [] && job.ref == t.ref && job.spec == t.spec
    && match heard[|heard| - 1]
       case Refuse(message) => job.state == Failed && job.exitCode == 0 && job.statusMessage == message
       case Close =>
         job.state == Failed && job.exitCode == 0 && job.statusMessage == "worker stream closed unexpectedly"
       case Message(StreamError(message)) =>
         job.state == Failed && job.exitCode == 0 && job.statusMessage == message
       case Message(r) =>
         r.terminal && job.state == r.finalState && job.exitCode == r.exitCode && job.statusMessage == r.statusMessage
       case _ => false
  }

  /**
   * Whatever the dispatchers of all jobs do in between, and as long as workers answer for the job they were given:
   * what has been published of a job is a prefix of 1 ACCEPTED, 2 RUNNING, 3 terminal, where the third is made by the
   * ending of what its dispatcher heard from its worker; the stored job is the last of it. A finished job has what
   * was submitted and what the input that ended its run says, and is SUCCEEDED exactly if that was a terminal
   * response with exit code 0.
   */
  lemma {:induction false} JobLifecycle(s: Fleet, steps: seq<Step>, i: nat)
    requires Init(s) && WellBehaved(s, steps) && i < |Run(s, steps).tasks|
    ensures var u := Run(s, steps);
            var t := u.tasks[i];
            var key, e := Key(t.ref), RunEnding(RunSeen(Heard(s, steps, i)));
            var story := Story(u.jobStream, key);
            && Formed(e) && (Decided(t.pc) ==> t.pc.e == e)
            && story == Life(t, e)[..Published(t)] && story != []
            && key in u.jobs.jobs && key in u.jobs.versions
            && u.jobs.versions[key] == |story| && u.jobs.jobs[key] == story[|story| - 1].job
            && story[0].job == Job(t.ref, t.spec, Accepted, 0, "")
            && (|story| > 1 ==> story[1].job == Job(t.ref, t.spec, Running, 0, ""))
            && (t.pc.Done? ==> OutcomeOf(u.jobs.jobs[key], t, Heard(s, steps, i)))
            && (u.jobs.jobs[key].state == Succeeded
                <==> t.pc.Done? && Heard(s, steps, i) != []
                     && var last := Heard(s, steps, i)[|Heard(s, steps, i)| - 1];
                        last.Message? && last.r.Response? && last.r.terminal && last.r.exitCode == 0)
  {
    hide Run, Story, Init, RunSeen, RunEnding, Heard;
    RunOnTrack(s, steps);
    EndingIsHeard(s, steps, i);
    var u := Run(s, steps);
    var t := u.tasks[i];
    var e := RunEnding(RunSeen(Heard(s, steps, i)));
    var story := Story(u.jobStream, Key(t.ref));
    assert OnTrack(t, u.jobs, story);
    if !Decided(t.pc) { UndecidedFails(t.pc, Heard(s, steps, i)); }
    var e' :| Formed(e') && (Decided(t.pc) ==> e' == t.pc.e) && story == Life(t, e')[..Published(t)];
    if !Decided(t.pc) { LifePrefix(t, e, e', Published(t)); }
  }

  /** A task keeps the reference and the spec that were submitted, and its job starts as they say. */
  lemma {:induction false} SubmitStarts(s: Fleet, steps: seq<Step>, tenantId: string, jobId: string, spec: string)
    ensures var u, ref := Run(s, steps), JobRef(tenantId, jobId);
            var v := Run(s, steps + [Submit(tenantId, jobId, spec)]);
            if tenantId == "" || Key(ref) in u.jobs.versions then v == u
            else
              && v.tasks == u.tasks + [Task(ref, spec, Queued)] && v.logs == u.logs
              && Key(ref) in v.jobs.jobs && v.jobs.jobs[Key(ref)] == Job(ref, spec, Accepted, 0, "")
              && v.jobStream == u.jobStream + [JobMsg(Job(ref, spec, Accepted, 0, ""), 1)]
  {
    hide Run;
    RunSnoc(s, steps, Submit(tenantId, jobId, spec));
  }

  lemma {:induction false} RunSnoc(s: Fleet, steps: seq<Step>, step: Step)
    ensures Run(s, steps + [step]) == Apply(Run(s, steps), step)
  {
    assert (steps + [step])[..|steps|] == steps;
  }

  /** A job that has reached a terminal state is never touched again, whatever other jobs go on to do. */
  lemma {:induction false} TerminalStays(s: Fleet, steps: seq<Step>, more: seq<Step>, i: nat)
    requires Init(s) && WellBehaved(s, steps + more)
    requires i < |Run(s, steps).tasks| && Key(Run(s, steps).tasks[i].ref) in Run(s, steps).jobs.jobs
    requires Run(s, steps).jobs.jobs[Key(Run(s, steps).tasks[i].ref)].state in {Succeeded, Failed}
    ensures var u, v := Run(s, steps), Run(s, steps + more);
            var key := Key(u.tasks[i].ref);
            && i < |v.tasks| && v.tasks[i] == u.tasks[i]
            && key in v.jobs.jobs && v.jobs.jobs[key] == u.jobs.jobs[key]
            && Story(v.jobStream, key) == Story(u.jobStream, key)
    decreases |more|
  {
    hide Story, Init, Apply, Behaves, AllOnTrack;
    BehavedBefore(s, steps, more);
    TerminalIsDone(s, steps, i);
    if more == [] {
      assert steps + more == steps;
    } else {
      var n := |more| - 1;
      var all := steps + more;
      assert all[..|all| - 1] == steps + more[..n] && all[|all| - 1] == more[n];
      TerminalStays(s, steps, more[..n], i);
      RunOnTrack(s, steps + more[..n]);
      DoneStays(Run(s, steps + more[..n]), more[n], i);
    }
  }

  lemma {:induction false} BehavedBefore(s: Fleet, steps: seq<Step>, more: seq<Step>)
    requires WellBehaved(s, steps + more)
    ensures WellBehaved(s, steps)
    decreases |more|
  {
    if more == [] {
      assert steps + more == steps;
    } else {
      var n := |more| - 1;
      assert (steps + more)[..|steps| + n] == steps + more[..n];
      BehavedBefore(s, steps, more[..n]);
    }
  }

  lemma {:induction false} TerminalIsDone(s: Fleet, steps: seq<Step>, i: nat)
    requires Init(s) && WellBehaved(s, steps) && i < |Run(s, steps).tasks|
    requires Key(Run(s, steps).tasks[i].ref) in Run(s, steps).jobs.jobs
    requires Run(s, steps).jobs.jobs[Key(Run(s, steps).tasks[i].ref)].state in {Succeeded, Failed}
    ensures Run(s, steps).tasks[i].pc.Done?
  {
    hide Run, Story, Init;
    RunOnTrack(s, steps);
    var u := Run(s, steps);
    var t := u.tasks[i];
    assert OnTrack(t, u.jobs, Story(u.jobStream, Key(t.ref)));
  }

  /** Publishing under one key leaves the others alone. */
  lemma {:induction false} PublishLeaves(jobs: JobTable, stream: seq<JobMsg>, job: Job, key: string)
    requires Key(job.ref) != key && key in jobs.jobs
    ensures key in jobs.Put(job).jobs && jobs.Put(job).jobs[key] == jobs.jobs[key]
    ensures Story(stream + [jobs.PutMsg(job)], key) == Story(stream, key)
  {
    hide Story;
    StorySnoc(stream, jobs.PutMsg(job), key);
  }

  lemma {:induction false} DoneStays(s: Fleet, step: Step, i: nat)
    requires AllOnTrack(s) && Behaves(s, step) && i < |s.tasks| && s.tasks[i].pc.Done?
    ensures var u, key := Apply(s, step), Key(s.tasks[i].ref);
            && i < |u.tasks| && u.tasks[i] == s.tasks[i] && key in s.jobs.jobs
            && key in u.jobs.jobs && u.jobs.jobs[key] == s.jobs.jobs[key]
            && Story(u.jobStream, key) == Story(s.jobStream, key)
  {
    var key := Key(s.tasks[i].ref);
    assert OnTrack(s.tasks[i], s.jobs, Story(s.jobStream, key));
    hide Story;
    match step {
      case Submit(tenantId, jobId, spec) =>
        hide AllOnTrack, OnTrack;
        var job := NewJob(tenantId, jobId, spec);
        if Key(job.ref) !in s.jobs.versions { PublishLeaves(s.jobs, s.jobStream, job, key); }
      case Advance(j, input) =>
        if j < |s.tasks| && j != i { OtherLeaves(s, i, j, input); }
    }
  }

  lemma {:induction false} OtherLeaves(s: Fleet, i: nat, j: nat, input: Input)
    requires AllOnTrack(s) && Behaves(s, Advance(j, input)) && i < |s.tasks| && j < |s.tasks| && i != j
    requires Key(s.tasks[i].ref) in s.jobs.jobs
    ensures var u, key := Apply(s, Advance(j, input)), Key(s.tasks[i].ref);
            && i < |u.tasks| && u.tasks[i] == s.tasks[i]
            && key in u.jobs.jobs && u.jobs.jobs[key] == s.jobs.jobs[key]
            && Story(u.jobStream, key) == Story(s.jobStream, key)
  {
    OwnStep(s, j, input);
    hide Story, OnTrack, AdvanceTask, Behaves;
    var u := Apply(s, Advance(j, input));
    if !(u.jobs == s.jobs && u.jobStream == s.jobStream) {
      var job: Job :| Key(job.ref) == Key(s.tasks[j].ref) && u.jobs == s.jobs.Put(job)
                      && u.jobStream == s.jobStream + [s.jobs.PutMsg(job)];
      PublishLeaves(s.jobs, s.jobStream, job, Key(s.tasks[i].ref));
    }
  }

  /** What happens to one job, whoever does it. */
  datatype Act = Submitted | Began | Finished

  /** What a step does to the job of a key: an ending counts for the job its response names. */
  function ActOn(s: Fleet, step: Step, key: string): seq<Act> {
    match step
    case Submit(tenantId, jobId, spec) =>
      var k := Key(JobRef(tenantId, jobId));
      if tenantId != "" && k !in s.jobs.versions && k == key then [Submitted] else []
    case Advance(i, _) =>
      if i >= |s.tasks| then []
      else
        match s.tasks[i].pc
        case Loaded(_) => if Key(s.tasks[i].ref) == key then [Began] else []
        case Applying(e, _) => if Target(s.tasks[i], e) == key then [Finished] else []
        case _ => []
  }

  function ActsOn(s: Fleet, steps: seq<Step>, key: string): seq<Act> {
    if steps == [] then []
    else
      var init := steps[..|steps| - 1];
      ActsOn(s, init, key) + ActOn(Run(s, init), steps[|steps| - 1], key)
  }

  function StateAct(job: Job): Act {
    match job.state
    case Accepted => Submitted
    case Running => Began
    case _ => Finished
  }

  function States(story: seq<JobMsg>): (acts: seq<Act>)
    ensures |acts| == |story|
  {
    seq(|story|, i requires 0 <= i < |story| => StateAct(story[i].job))
  }

  /** Workers may answer for any job, but a final state is SUCCEEDED or FAILED. */
  predicate Final(e: JobDispatch.Ending) {
    e.Completion? ==> e.resp.Response? && e.resp.finalState in {Succeeded, Failed}
  }

  predicate Ends(step: Step) {
    step.Advance? && step.input.Message? && step.input.r.Response? && step.input.r.terminal ==>
      step.input.r.finalState in {Succeeded, Failed}
  }

  predicate AllEnd(steps: seq<Step>) {
    forall i | 0 <= i < |steps| :: Ends(steps[i])
  }

  /** Jobs are filed under their keys, and dispatchers hold the jobs they mean to. */
  ghost predicate Sound(s: Fleet, t: Task) {
    && Key(t.ref) in s.jobs.jobs && Key(t.ref) in s.jobs.versions
    && (t.pc.Loaded? ==> Key(t.pc.job.ref) == Key(t.ref))
    && (t.pc.Ending? || t.pc.Applying? ==> Final(t.pc.e))
    && (t.pc.Applying? ==> Key(t.pc.job.ref) == Target(t, t.pc.e))
  }

  ghost predicate AllSound(s: Fleet) {
    && Filed(s.jobs.jobs)
    && (forall i | 0 <= i < |s.tasks| :: Sound(s, s.tasks[i]))
    && (forall i, j | 0 <= i < j < |s.tasks| :: Key(s.tasks[i].ref) != Key(s.tasks[j].ref))
  }

  lemma {:induction false} PublishSound(s: Fleet, job: Job)
    requires AllSound(s)
    ensures AllSound(Publish(s, job)) && Key(job.ref) in Publish(s, job).jobs.jobs
            && Key(job.ref) in Publish(s, job).jobs.versions
  {
    var u := Publish(s, job);
    forall i | 0 <= i < |s.tasks| ensures Sound(u, u.tasks[i]) { assert Sound(s, s.tasks[i]); }
  }

  lemma {:induction false} MoveSound(s: Fleet, i: nat, pc: Pc)
    requires AllSound(s) && i < |s.tasks|
    requires pc.Loaded? ==> Key(pc.job.ref) == Key(s.tasks[i].ref)
    requires pc.Ending? || pc.Applying? ==> Final(pc.e)
    requires pc.Applying? ==> Key(pc.job.ref) == Target(s.tasks[i], pc.e)
    ensures AllSound(At(s, i, pc))
  {
    var u := At(s, i, pc);
    assert Sound(s, s.tasks[i]);
    assert Sound(u, u.tasks[i]);
    forall j | 0 <= j < |s.tasks| && j != i ensures Sound(u, u.tasks[j]) { assert Sound(s, s.tasks[j]); }
  }

  lemma {:induction false} LogSound(s: Fleet, logs: LogTable)
    requires AllSound(s)
    ensures AllSound(s.(logs := logs))
  {
    var u := s.(logs := logs);
    forall i | 0 <= i < |s.tasks| ensures Sound(u, u.tasks[i]) { assert Sound(s, s.tasks[i]); }
  }

  lemma {:induction false} AdvanceSound(s: Fleet, i: nat, input: Input)
    requires AllSound(s) && i < |s.tasks| && Ends(Advance(i, input))
    ensures AllSound(AdvanceTask(s, i, input))
  {
    var t, u := s.tasks[i], AdvanceTask(s, i, input);
    assert Sound(s, t) && Filed(s.jobs.jobs);
    hide AllSound;
    match t.pc {
      case Loaded(job) =>
        PublishSound(s, Started(job));
        MoveSound(Publish(s, Started(job)), i, Dispatched);
      case Applying(e, job) =>
        PublishSound(s, Concluded(job, e));
        MoveSound(Publish(s, Concluded(job, e)), i, Done(e));
      case Following =>
        if input.Message? && input.r.Response? {
          var s' := s.(logs := s.logs.Append(t.ref, input.r.logs));
          LogSound(s, s'.logs);
          if input.r.terminal { MoveSound(s', i, Ending(Completion(input.r))); }
        } else if u != s {
          MoveSound(s, i, u.tasks[i].pc);
        }
      case Queued => MoveSound(s, i, u.tasks[i].pc);
      case Ending(e) => MoveSound(s, i, u.tasks[i].pc);
      case Dispatched =>
        if u != s { MoveSound(s, i, u.tasks[i].pc); }
      case Done(_) =>
      case Skipped =>
    }
  }

  lemma {:induction false} SubmitSound(s: Fleet, tenantId: string, jobId: string, spec: string)
    requires AllSound(s)
    ensures AllSound(Apply(s, Submit(tenantId, jobId, spec)))
  {
    var job, u := NewJob(tenantId, jobId, spec), Apply(s, Submit(tenantId, jobId, spec));
    if u != s {
      forall i | 0 <= i < |s.tasks| ensures Key(s.tasks[i].ref) != Key(job.ref) { assert Sound(s, s.tasks[i]); }
      PublishSound(s, job);
      var p := Publish(s, job);
      forall i | 0 <= i < |u.tasks| ensures Sound(u, u.tasks[i]) {
        if i < |s.tasks| { assert Sound(p, p.tasks[i]); }
      }
    }
  }

  lemma {:induction false} AdvanceActs(s: Fleet, i: nat, input: Input, key: string)
    requires i < |s.tasks| && Sound(s, s.tasks[i]) && Ends(Advance(i, input))
    ensures States(Story(AdvanceTask(s, i, input).jobStream, key))
         == States(Story(s.jobStream, key)) + ActOn(s, Advance(i, input), key)
    ensures Count(AdvanceTask(s, i, input).jobs.versions, key)
         == Count(s.jobs.versions, key) + |ActOn(s, Advance(i, input), key)|
  {
    hide Story, States;
    NoAct(Story(s.jobStream, key));
    match s.tasks[i].pc
    case Loaded(job) => PublishActs(s.jobs, s.jobStream, Started(job), key);
    case Applying(e, job) => PublishActs(s.jobs, s.jobStream, Concluded(job, e), key);
    case _ =>
  }

  lemma {:induction false} NoAct(story: seq<JobMsg>)
    ensures States(story) + [] == States(story)
  {
  }

  lemma {:induction false} SubmitActs(s: Fleet, tenantId: string, jobId: string, spec: string, key: string)
    ensures var step := Submit(tenantId, jobId, spec);
            && States(Story(Apply(s, step).jobStream, key)) == States(Story(s.jobStream, key)) + ActOn(s, step, key)
            && Count(Apply(s, step).jobs.versions, key) == Count(s.jobs.versions, key) + |ActOn(s, step, key)|
  {
    hide Story, States;
    NoAct(Story(s.jobStream, key));
    PublishActs(s.jobs, s.jobStream, NewJob(tenantId, jobId, spec), key);
  }

  /** Each step publishes what it does to a job, and nothing else. */
  lemma {:induction false} StepActs(s: Fleet, step: Step, key: string)
    requires AllSound(s) && Ends(step)
    ensures AllSound(Apply(s, step))
    ensures States(Story(Apply(s, step).jobStream, key)) == States(Story(s.jobStream, key)) + ActOn(s, step, key)
    ensures Count(Apply(s, step).jobs.versions, key) == Count(s.jobs.versions, key) + |ActOn(s, step, key)|
  {
    hide Story, States, AdvanceTask, Sound;
    match step {
      case Submit(tenantId, jobId, spec) =>
        SubmitSound(s, tenantId, jobId, spec);
        hide AllSound, Apply;
        SubmitActs(s, tenantId, jobId, spec, key);
      case Advance(i, input) =>
        if i < |s.tasks| {
          assert Sound(s, s.tasks[i]);
          hide AllSound, ActOn;
          AdvanceSound(s, i, input);
          AdvanceActs(s, i, input, key);
        } else {
          NoAct(Story(s.jobStream, key));
        }
    }
  }

  lemma {:induction false} PublishActs(jobs: JobTable, stream: seq<JobMsg>, job: Job, key: string)
    ensures States(Story(stream + [jobs.PutMsg(job)], key))
         == States(Story(stream, key)) + if Key(job.ref) == key then [StateAct(job)] else []
    ensures Count(jobs.Put(job).versions, key) == Count(jobs.versions, key) + if Key(job.ref) == key then 1 else 0
  {
    StorySnoc(stream, jobs.PutMsg(job), key);
    hide Story;
    assert States(Story(stream, key)) + [] == States(Story(stream, key));
  }

  /** Over any run, what is published of a job is what was done to it, and its versions count that. */
  lemma {:induction false} RunActs(s: Fleet, steps: seq<Step>, key: string)
    requires Init(s) && AllEnd(steps)
    ensures AllSound(Run(s, steps))
    ensures States(Story(Run(s, steps).jobStream, key)) == States(Story(s.jobStream, key)) + ActsOn(s, steps, key)
    ensures Count(Run(s, steps).jobs.versions, key) == Count(s.jobs.versions, key) + |ActsOn(s, steps, key)|
    decreases |steps|
  {
    hide AllSound, Apply, ActOn, Story, States, Ends;
    if steps == [] {
      InitSound(s);
      NoAct(Story(s.jobStream, key));
    } else {
      var init, last := steps[..|steps| - 1], steps[|steps| - 1];
      RunActs(s, init, key);
      StepActs(Run(s, init), last, key);
      MoreActs(States(Story(s.jobStream, key)), ActsOn(s, init, key), ActOn(Run(s, init), last, key));
    }
  }

  lemma {:induction false} InitSound(s: Fleet)
    requires Init(s)
    ensures AllSound(s)
  {
  }

  lemma {:induction false} MoreActs(a: seq<Act>, b: seq<Act>, c: seq<Act>)
    ensures a + (b + c) == a + b + c
  {
  }

  /** A submission comes first and once, a start at most once. */
  predicate Shaped(acts: seq<Act>) {
    && acts != [] && acts[0] == Submitted
    && (forall i | 0 < i < |acts| :: acts[i] != Submitted)
    && (forall i, j | 0 <= i < j < |acts| :: !(acts[i] == Began && acts[j] == Began))
  }

  predicate HasBegun(t: Task) {
    !t.pc.Queued? && !t.pc.Loaded?
  }

  ghost predicate ShapedSoFar(s: Fleet, steps: seq<Step>, i: nat)
    requires i < |Run(s, steps).tasks|
  {
    var t := Run(s, steps).tasks[i];
    var acts := ActsOn(s, steps, Key(t.ref));
    Key(t.ref) !in s.jobs.versions && Shaped(acts) && (Began in acts <==> HasBegun(t))
  }

  lemma {:induction false} MoreShaped(acts: seq<Act>, more: seq<Act>)
    requires Shaped(acts) && (more == [] || more == [Finished] || (more == [Began] && Began !in acts))
    ensures Shaped(acts + more)
    ensures Began in acts + more <==> Began in acts || more == [Began]
  {
    assert acts + [] == acts;
  }

  /** What one step does to the job of an existing task. */
  lemma {:induction false} OneMoreAct(u: Fleet, step: Step, i: nat)
    requires AllSound(u) && i < |u.tasks|
    ensures var v, key := Apply(u, step), Key(u.tasks[i].ref);
            var more := ActOn(u, step, key);
            && i < |v.tasks| && v.tasks[i].ref == u.tasks[i].ref
            && (more == [] || more == [Finished] || (more == [Began] && !HasBegun(u.tasks[i])))
            && (HasBegun(v.tasks[i]) <==> HasBegun(u.tasks[i]) || more == [Began])
  {
    assert Sound(u, u.tasks[i]);
    match step
    case Submit(_, _, _) =>
    case Advance(j, _) =>
      if j < |u.tasks| && j != i { assert Key(u.tasks[j].ref) != Key(u.tasks[i].ref); }
  }

  lemma {:induction false} RunShaped(s: Fleet, steps: seq<Step>)
    requires Init(s) && AllEnd(steps)
    ensures forall i | 0 <= i < |Run(s, steps).tasks| :: ShapedSoFar(s, steps, i)
    decreases |steps|
  {
    if steps != [] {
      var init, last := steps[..|steps| - 1], steps[|steps| - 1];
      var u := Run(s, init);
      RunShaped(s, init);
      forall i | 0 <= i < |Run(s, steps).tasks| ensures ShapedSoFar(s, steps, i) {
        if i < |u.tasks| {
          assert ShapedSoFar(s, init, i);
          ShapedStep(s, steps, i);
        } else {
          NewShaped(s, steps, i);
        }
      }
    }
  }

  lemma {:induction false} ShapedStep(s: Fleet, steps: seq<Step>, i: nat)
    requires Init(s) && AllEnd(steps) && steps != []
    requires i < |Run(s, steps[..|steps| - 1]).tasks| && ShapedSoFar(s, steps[..|steps| - 1], i)
    ensures i < |Run(s, steps).tasks| && ShapedSoFar(s, steps, i)
  {
    hide Apply, ActOn, AllSound, Shaped;
    var init, last := steps[..|steps| - 1], steps[|steps| - 1];
    var u := Run(s, init);
    var key := Key(u.tasks[i].ref);
    RunActs(s, init, key);
    OneMoreAct(u, last, i);
    MoreShaped(ActsOn(s, init, key), ActOn(u, last, key));
  }

  lemma {:induction false} NewShaped(s: Fleet, steps: seq<Step>, i: nat)
    requires Init(s) && AllEnd(steps) && steps != []
    requires |Run(s, steps[..|steps| - 1]).tasks| <= i < |Run(s, steps).tasks|
    ensures ShapedSoFar(s, steps, i)
  {
    hide ActsOn, Story, States, AllSound;
    var init, last := steps[..|steps| - 1], steps[|steps| - 1];
    var u := Run(s, init);
    assert last.Submit?;
    var key := Key(JobRef(last.tenantId, last.jobId));
    RunActs(s, init, key);
    if key in s.jobs.versions { VersionsStay(s, init, key); }
    FirstAct(s, steps, key);
  }

  lemma {:induction false} VersionsStay(s: Fleet, steps: seq<Step>, key: string)
    requires key in s.jobs.versions
    ensures key in Run(s, steps).jobs.versions
    decreases |steps|
  {
    if steps != [] { VersionsStay(s, steps[..|steps| - 1], key); }
  }

  lemma {:induction false} FirstAct(s: Fleet, steps: seq<Step>, key: string)
    requires steps != [] && ActsOn(s, steps[..|steps| - 1], key) == []
    ensures ActsOn(s, steps, key) == ActOn(Run(s, steps[..|steps| - 1]), steps[|steps| - 1], key)
  {
  }

  /** The endings stored for a job before its own dispatcher started it, and those stored after. */
  function Early(acts: seq<Act>): nat {
    if acts == [] then 0
    else
      var n := |acts| - 1;
      Early(acts[..n]) + if acts[n] == Finished && Began !in acts[..n] then 1 else 0
  }

  function Late(acts: seq<Act>): nat {
    if acts == [] then 0
    else
      var n := |acts| - 1;
      Late(acts[..n]) + if acts[n] == Finished && Began in acts[..n] then 1 else 0
  }

  const LIFE: seq<Act> := [Submitted, Began, Finished]

  lemma {:induction false} RegularIff(acts: seq<Act>)
    requires Shaped(acts)
    ensures acts <= LIFE <==> Early(acts) == 0 && Late(acts) <= 1
    decreases |acts|
  {
    var n := |acts| - 1;
    var init := acts[..n];
    if n == 0 {
      assert acts == [Submitted] && init == [];
    } else {
      RegularIff(init);
      if init <= LIFE {
        NextOfLife(acts);
      } else {
        assert !(acts <= LIFE);
      }
    }
  }

  /** After a regular beginning, the next act goes on regularly or counts as irregular. */
  lemma {:induction false} NextOfLife(acts: seq<Act>)
    requires Shaped(acts) && |acts| > 1 && acts[..|acts| - 1] <= LIFE
    ensures acts <= LIFE <==> Early(acts) == 0 && Late(acts) <= 1
  {
    var n := |acts| - 1;
    var init := acts[..n];
    assert acts == init + [acts[n]] && acts[n] != Submitted;
    ShortLives();
    if n == 1 {
      assert init == [Submitted];
    } else if n == 2 {
      assert init == [Submitted, Began] && acts[1] == Began;
    } else {
      assert init == LIFE && acts[1] == Began;
    }
  }

  lemma {:induction false} ShortLives()
    ensures Early([Submitted]) == 0 && Late([Submitted]) == 0
    ensures Early([Submitted, Began]) == 0 && Late([Submitted, Began]) == 0
    ensures Early(LIFE) == 0 && Late(LIFE) == 1
  {
    assert [Submitted, Began][..1] == [Submitted] && [Submitted][..0] == [];
    assert LIFE[..2] == [Submitted, Began] && Began in LIFE[..2];
  }

  /** The step stores the ending of a dispatcher for the job of dispatcher `i`. */
  predicate Applies(s: Fleet, step: Step, i: nat) {
    && i < |s.tasks| && step.Advance? && step.i < |s.tasks| && s.tasks[step.i].pc.Applying?
    && Target(s.tasks[step.i], s.tasks[step.i].pc.e) == Key(s.tasks[i].ref)
  }

  /** The dispatchers that stored their endings for the job of dispatcher `i`, before that began or after. */
  function Appliers(s: Fleet, steps: seq<Step>, i: nat, begun: bool): seq<nat> {
    if steps == [] then []
    else
      var init, last := steps[..|steps| - 1], steps[|steps| - 1];
      var u := Run(s, init);
      Appliers(s, init, i, begun) + if Applies(u, last, i) && HasBegun(u.tasks[i]) == begun then [last.i] else []
  }

  lemma {:induction false} EarlyAndLateSnoc(acts: seq<Act>, a: Act)
    ensures Early(acts + [a]) == Early(acts) + if a == Finished && Began !in acts then 1 else 0
    ensures Late(acts + [a]) == Late(acts) + if a == Finished && Began in acts then 1 else 0
  {
    assert (acts + [a])[..|acts|] == acts;
  }

  lemma {:induction false} FinishedIffApplies(u: Fleet, step: Step, i: nat)
    requires i < |u.tasks|
    ensures ActOn(u, step, Key(u.tasks[i].ref)) == [Finished] <==> Applies(u, step, i)
  {
  }

  lemma {:induction false} AppliersCount(s: Fleet, steps: seq<Step>, i: nat)
    requires Init(s) && AllEnd(steps)
    ensures if i < |Run(s, steps).tasks|
            then var acts := ActsOn(s, steps, Key(Run(s, steps).tasks[i].ref));
                 Early(acts) == |Appliers(s, steps, i, false)| && Late(acts) == |Appliers(s, steps, i, true)|
            else Appliers(s, steps, i, false) == Appliers(s, steps, i, true) == []
    decreases |steps|
  {
    hide Apply, ActOn, AllSound, Shaped, Applies, Early, Late;
    if steps == [] {
      assert Run(s, steps) == s;
    } else {
      var init, last := steps[..|steps| - 1], steps[|steps| - 1];
      AppliersCount(s, init, i);
      if i < |Run(s, init).tasks| {
        OneMoreApplier(s, steps, i);
      } else {
        NoAppliersYet(s, steps, i);
      }
    }
  }

  lemma {:induction false} OneMoreApplier(s: Fleet, steps: seq<Step>, i: nat)
    requires Init(s) && AllEnd(steps) && steps != [] && i < |Run(s, steps[..|steps| - 1]).tasks|
    requires var init := steps[..|steps| - 1];
             var acts := ActsOn(s, init, Key(Run(s, init).tasks[i].ref));
             Early(acts) == |Appliers(s, init, i, false)| && Late(acts) == |Appliers(s, init, i, true)|
    ensures i < |Run(s, steps).tasks|
    ensures var acts := ActsOn(s, steps, Key(Run(s, steps).tasks[i].ref));
            Early(acts) == |Appliers(s, steps, i, false)| && Late(acts) == |Appliers(s, steps, i, true)|
  {
    hide Apply, ActOn, AllSound, Shaped, Applies, Early, Late;
    var init, last := steps[..|steps| - 1], steps[|steps| - 1];
    var u := Run(s, init);
    var key := Key(u.tasks[i].ref);
    var acts, more := ActsOn(s, init, key), ActOn(u, last, key);
    RunActs(s, init, key);
    RunShaped(s, init);
    assert ShapedSoFar(s, init, i);
    OneMoreAct(u, last, i);
    FinishedIffApplies(u, last, i);
    EarlyAndLateSnoc(acts, Began);
    EarlyAndLateSnoc(acts, Finished);
    assert acts + [] == acts;
  }

  lemma {:induction false} NoAppliersYet(s: Fleet, steps: seq<Step>, i: nat)
    requires Init(s) && AllEnd(steps) && steps != [] && i >= |Run(s, steps[..|steps| - 1]).tasks|
    requires var init := steps[..|steps| - 1]; Appliers(s, init, i, false) == Appliers(s, init, i, true) == []
    ensures Appliers(s, steps, i, false) == Appliers(s, steps, i, true) == []
    ensures i < |Run(s, steps).tasks| ==>
              var acts := ActsOn(s, steps, Key(Run(s, steps).tasks[i].ref)); Early(acts) == Late(acts) == 0
  {
    if i < |Run(s, steps).tasks| {
      hide ActsOn, Story, States, AllSound, Early, Late, Appliers;
      var init, last := steps[..|steps| - 1], steps[|steps| - 1];
      var key := Key(JobRef(last.tenantId, last.jobId));
      RunActs(s, init, key);
      FirstAct(s, steps, key);
      ShortLives();
    }
  }

  /** A dispatcher that has stored its ending is done with it, for good. */
  lemma {:induction false} AppliersAreDone(s: Fleet, steps: seq<Step>, i: nat, begun: bool)
    ensures i < |Run(s, steps).tasks| || Appliers(s, steps, i, begun) == []
    ensures forall j | j in Appliers(s, steps, i, begun) ::
              var u := Run(s, steps);
              && j < |u.tasks| && u.tasks[j].pc.Done? && i < |u.tasks|
              && Target(u.tasks[j], u.tasks[j].pc.e) == Key(u.tasks[i].ref)
    decreases |steps|
  {
    if steps != [] {
      var init, last := steps[..|steps| - 1], steps[|steps| - 1];
      AppliersAreDone(s, init, i, begun);
      RefsStay(Run(s, init), last);
    }
  }

  lemma {:induction false} RefsStay(u: Fleet, step: Step)
    ensures |u.tasks| <= |Apply(u, step).tasks|
    ensures forall j | 0 <= j < |u.tasks| ::
              && Apply(u, step).tasks[j].ref == u.tasks[j].ref && Apply(u, step).tasks[j].spec == u.tasks[j].spec
              && (u.tasks[j].pc.Done? ==> Apply(u, step).tasks[j] == u.tasks[j])
    ensures step.Advance? && step.i < |u.tasks| && u.tasks[step.i].pc.Applying? ==>
              Apply(u, step).tasks[step.i].pc == Done(u.tasks[step.i].pc.e)
  {
  }

  /**
   * The exact condition, when workers may answer for other jobs: what is published of a job is a prefix of ACCEPTED,
   * RUNNING, terminal if and only if no dispatcher stored an ending for it before it began, and at most one has
   * since, whoever's it was. Each of those dispatchers is done, with an ending that names the job.
   */
  lemma {:induction false} LifeIsRegularIff(s: Fleet, steps: seq<Step>, i: nat)
    requires Init(s) && AllEnd(steps) && i < |Run(s, steps).tasks|
    ensures var u, key := Run(s, steps), Key(Run(s, steps).tasks[i].ref);
            var early, late := Appliers(s, steps, i, false), Appliers(s, steps, i, true);
            && (States(Story(u.jobStream, key)) <= LIFE <==> early == [] && |late| <= 1)
            && Count(u.jobs.versions, key) == |Story(u.jobStream, key)|
            && forall j | j in early || j in late ::
                 j < |u.tasks| && u.tasks[j].pc.Done? && Target(u.tasks[j], u.tasks[j].pc.e) == key
  {
    hide Run, ActsOn, Story, Shaped, AllSound, Appliers, Early, Late;
    var u, key := Run(s, steps), Key(Run(s, steps).tasks[i].ref);
    RunActs(s, steps, key);
    RunShaped(s, steps);
    assert ShapedSoFar(s, steps, i);
    NoStory(s.jobStream, key);
    assert States([]) + ActsOn(s, steps, key) == ActsOn(s, steps, key);
    RegularIff(ActsOn(s, steps, key));
    AppliersCount(s, steps, i);
    AppliersAreDone(s, steps, i, false);
    AppliersAreDone(s, steps, i, true);
  }

  /**
   * A job whose own dispatcher is done gets a new version by a step if and only if the step stores another
   * dispatcher's ending for it; a finished job is overwritten by exactly those.
   */
  lemma {:induction false} FinishedIsOverwrittenIff(s: Fleet, steps: seq<Step>, step: Step, i: nat)
    requires Init(s) && AllEnd(steps + [step]) && i < |Run(s, steps).tasks| && Run(s, steps).tasks[i].pc.Done?
    ensures var u, key := Run(s, steps), Key(Run(s, steps).tasks[i].ref);
            var strays := step.Advance? && step.i < |u.tasks| && u.tasks[step.i].pc.Applying?
                          && Target(u.tasks[step.i], u.tasks[step.i].pc.e) == key;
            && (Count(Apply(u, step).jobs.versions, key) != Count(u.jobs.versions, key) <==> strays)
            && (strays ==>
                  && step.i != i && key in Apply(u, step).jobs.jobs
                  && Apply(u, step).jobs.jobs[key] == Concluded(u.tasks[step.i].pc.job, u.tasks[step.i].pc.e))
  {
    hide Run, Story, States;
    var u, key := Run(s, steps), Key(Run(s, steps).tasks[i].ref);
    assert forall j | 0 <= j < |steps| :: (steps + [step])[j] == steps[j];
    assert (steps + [step])[|steps|] == step;
    RunActs(s, steps, key);
    StepActs(u, step, key);
    OneMoreAct(u, step, i);
    if step.Advance? && step.i < |u.tasks| { assert Sound(u, u.tasks[step.i]); }
  }

  /** The steps of one dispatcher, alone, on a worker run: reading the job, storing it, the stream, and the ending. */
  function Inputs(msgs: seq<Recv>): seq<Input> {
    if msgs == [] then [Close]
    else if msgs[0].StreamError? || msgs[0].terminal then [Message(msgs[0])]
    else [Message(msgs[0])] + Inputs(msgs[1..])
  }

  function RunInputs(run: WorkerRun): seq<Input> {
    [Own, Own] + (if run.Refused? then [Refuse(run.message)] else [Accept] + Inputs(run.msgs)) + [Own, Own]
  }

  function Alone(s: Fleet, i: nat, inputs: seq<Input>): (after: Fleet)
    requires i < |s.tasks|
    ensures |after.tasks| == |s.tasks|
    decreases |inputs|
  {
    if inputs == [] then s else Alone(AdvanceTask(s, i, inputs[0]), i, inputs[1..])
  }

  lemma {:induction false} AloneThen(s: Fleet, i: nat, a: seq<Input>, b: seq<Input>)
    requires i < |s.tasks|
    ensures Alone(s, i, a + b) == Alone(Alone(s, i, a), i, b)
    decreases |a|
  {
    hide AdvanceTask;
    if a == [] {
      assert a + b == b;
    } else {
      assert (a + b)[0] == a[0] && (a + b)[1..] == a[1..] + b;
      AloneThen(AdvanceTask(s, i, a[0]), i, a[1..], b);
    }
  }

  /** Following a stream leaves the logs and the ending that the receive loop of dispatch finds. */
  lemma {:induction false} AloneFollows(s: Fleet, i: nat, msgs: seq<Recv>)
    requires i < |s.tasks| && s.tasks[i].pc.Following?
    ensures Alone(s, i, Inputs(msgs))
         == At(s, i, Ending(EndingOf(msgs))).(logs := Logged(s.logs, s.tasks[i].ref, msgs))
    decreases |msgs|
  {
    var rest := Inputs(msgs)[1..];
    if msgs == [] || msgs[0].StreamError? || msgs[0].terminal {
      assert rest == [];
    } else {
      assert rest == Inputs(msgs[1..]);
      var t := AdvanceTask(s, i, Message(msgs[0]));
      AloneFollows(t, i, msgs[1..]);
    }
  }

  lemma {:induction false} AloneTwo(s: Fleet, i: nat, a: Input, b: Input)
    requires i < |s.tasks|
    ensures Alone(s, i, [a, b]) == AdvanceTask(AdvanceTask(s, i, a), i, b)
  {
    hide AdvanceTask;
    assert [a, b][1..] == [b] && [b][1..] == [];
    var t := AdvanceTask(s, i, a);
    assert Alone(t, i, [b]) == AdvanceTask(t, i, b);
  }

  lemma {:induction false} AloneOpens(s: Fleet, i: nat)
    requires i < |s.tasks| && s.tasks[i].pc.Queued? && Key(s.tasks[i].ref) in s.jobs.jobs
    ensures Alone(s, i, [Own, Own]) == At(Publish(s, Started(s.jobs.jobs[Key(s.tasks[i].ref)])), i, Dispatched)
  {
    AloneTwo(s, i, Own, Own);
  }

  lemma {:induction false} AloneRuns(s: Fleet, i: nat, run: WorkerRun)
    requires i < |s.tasks| && s.tasks[i].pc.Dispatched?
    ensures Alone(s, i, if run.Refused? then [Refuse(run.message)] else [Accept] + Inputs(run.msgs))
         == At(s, i, Ending(RunEnding(run))).(logs := Logged(s.logs, s.tasks[i].ref, RunMessages(run)))
  {
    if run.Refused? {
      assert [Refuse(run.message)][1..] == [];
    } else {
      AloneThen(s, i, [Accept], Inputs(run.msgs));
      assert [Accept][1..] == [];
      AloneFollows(At(s, i, Following), i, run.msgs);
    }
  }

  lemma {:induction false} AloneEnds(s: Fleet, i: nat, e: JobDispatch.Ending)
    requires i < |s.tasks| && s.tasks[i].pc == Ending(e) && (e.Completion? ==> e.resp.Response?) && Filed(s.jobs.jobs)
    ensures var u := Alone(s, i, [Own, Own]);
            u.tasks[i].pc.Done? && u.jobs == Conclude(s.jobs, s.tasks[i].ref, e) && u.logs == s.logs
  {
    AloneTwo(s, i, Own, Own);
  }

  /** Taken alone, a dispatcher of the fleet does to the tables what Dispatch does. */
  lemma {:induction false} DispatchIsAlone(s: Fleet, i: nat, run: WorkerRun)
    requires i < |s.tasks| && s.tasks[i].pc.Queued? && Key(s.tasks[i].ref) in s.jobs.jobs && Filed(s.jobs.jobs)
    ensures var u, ref := Alone(s, i, RunInputs(run)), s.tasks[i].ref;
            var running := s.jobs.Put(Started(s.jobs.jobs[Key(ref)]));
            && u.tasks[i].pc.Done?
            && u.jobs == Conclude(running, ref, RunEnding(run))
            && u.logs == Logged(s.logs, ref, RunMessages(run))
  {
    hide Alone, Inputs, Logged, EndingOf, Conclude, AdvanceTask;
    var middle := if run.Refused? then [Refuse(run.message)] else [Accept] + Inputs(run.msgs);
    assert RunInputs(run) == [Own, Own] + (middle + [Own, Own]);
    AloneThen(s, i, [Own, Own], middle + [Own, Own]);
    AloneOpens(s, i);
    var s2 := Alone(s, i, [Own, Own]);
    AloneThen(s2, i, middle, [Own, Own]);
    AloneRuns(s2, i, run);
    AloneEnds(Alone(s2, i, middle), i, RunEnding(run));
  }
}
