/** The control plane's store: its maps, its journal, and the bounded channels of its log subscribers. */
module JobStore {
  import opened Seqs
  import opened Wrappers
  import opened JobTables

  const CHANNEL_CAP := 128

  /** A chunk offered to a channel, and how many chunks the channel held at that moment. */
  datatype Arrival = Arrival(chunk: LogChunk, queued: nat)

  /** The chunks that found room. */
  function Kept(arrivals: seq<Arrival>): seq<LogChunk> {
    if arrivals == [] then []
    else
      var last := arrivals[|arrivals| - 1];
      Kept(arrivals[..|arrivals| - 1]) + if last.queued < CHANNEL_CAP then [last.chunk] else []
  }

  /** A queue after offering it `chunks` one by one, with nobody receiving in between. */
  function Offer(queue: seq<LogChunk>, chunks: seq<LogChunk>): (after: seq<LogChunk>)
    ensures queue <= after
    decreases |chunks|
  {
    if chunks == [] then queue
    else Offer(if |queue| < CHANNEL_CAP then queue + [chunks[0]] else queue, chunks[1..])
  }

  /** The arrivals that such an offering makes. */
  function ArrivalsOf(queue: seq<LogChunk>, chunks: seq<LogChunk>): (arrivals: seq<Arrival>)
    ensures |arrivals| == |chunks|
    decreases |chunks|
  {
    if chunks == [] then []
    else
      [Arrival(chunks[0], |queue|)]
      + ArrivalsOf(if |queue| < CHANNEL_CAP then queue + [chunks[0]] else queue, chunks[1..])
  }

  lemma {:induction false} OfferUnrolled(queue: seq<LogChunk>, chunks: seq<LogChunk>, i: nat)
    requires i < |chunks|
    ensures var queue' := if |queue| < CHANNEL_CAP then queue + [chunks[i]] else queue;
            && Offer(queue, chunks[i..]) == Offer(queue', chunks[i + 1..])
            && ArrivalsOf(queue, chunks[i..]) == [Arrival(chunks[i], |queue|)] + ArrivalsOf(queue', chunks[i + 1..])
  {
    assert chunks[i..][1..] == chunks[i + 1..];
  }

  lemma {:induction false} OfferNone(queue: seq<LogChunk>, chunks: seq<LogChunk>)
    requires chunks == []
    ensures Offer(queue, chunks) == queue && ArrivalsOf(queue, chunks) == []
  {
  }

  /** A Go channel of log chunks with room for CHANNEL_CAP of them. */
  class LogChannel {
    /** Where the channel is registered while it is open. */
    ghost const key: string
    ghost const id: int
    var queue: seq<LogChunk>
    var open: bool
    /** Everything offered since the channel was made, and everything received from it. */
    ghost var arrivals: seq<Arrival>
    ghost var received: seq<LogChunk>

    /** The receiver gets the offered chunks in order, save those that arrived at a full queue. */
    ghost predicate Valid()
      reads this`queue, this`arrivals, this`received
    {
      |queue| <= CHANNEL_CAP && received + queue == Kept(arrivals)
    }

    constructor (ghost key: string, ghost id: int)
      ensures Valid() && open && queue == [] && arrivals == [] && received == []
      ensures this.key == key && this.id == id
    {
      this.key, this.id := key, id;
      queue, open := [], true;
      arrivals, received := [], [];
    }

    /** A send that gives up at a full queue. Sending on a closed channel panics in Go. */
    method TrySend(chunk: LogChunk)
      requires Valid() && open
      modifies this
      ensures Valid() && open && received == old(received)
      ensures arrivals == old(arrivals) + [Arrival(chunk, |old(queue)|)]
      ensures queue == if |old(queue)| < CHANNEL_CAP then old(queue) + [chunk] else old(queue)
    {
      arrivals := arrivals + [Arrival(chunk, |queue|)];
      assert arrivals[..|arrivals| - 1] == old(arrivals);
      if |queue| < CHANNEL_CAP {
        queue := queue + [chunk];
      }
    }

    /** All of `chunks` were offered, in order, while nobody received. */
    twostate predicate Offered(chunks: seq<LogChunk>)
      reads this
    {
      && arrivals == old(arrivals) + ArrivalsOf(old(queue), chunks)
      && queue == Offer(old(queue), chunks)
      && received == old(received)
    }

    /** The inner loop of broadcastLocked. */
    method OfferAll(chunks: seq<LogChunk>)
      requires Valid() && open
      modifies this
      ensures Valid() && open && Offered(chunks)
    {
      hide Offer, ArrivalsOf, Kept;
      var i := 0;
      assert chunks[0..] == chunks;
      while i < |chunks|
        invariant 0 <= i <= |chunks|
        invariant Valid() && open && received == old(received)
        invariant arrivals + ArrivalsOf(queue, chunks[i..]) == old(arrivals) + ArrivalsOf(old(queue), chunks)
        invariant Offer(queue, chunks[i..]) == Offer(old(queue), chunks)
      {
        OfferUnrolled(queue, chunks, i);
        ghost var after := if |queue| < CHANNEL_CAP then queue + [chunks[i]] else queue;
        Associates(arrivals, [Arrival(chunks[i], |queue|)], ArrivalsOf(after, chunks[i + 1..]));
        TrySend(chunks[i]);
        i := i + 1;
      }
      assert arrivals + [] == arrivals;
      OfferNone(queue, chunks[i..]);
    }

    /** Closing twice panics in Go. */
    method Close()
      requires open
      modifies this`open
      ensures !open
    {
      open := false;
    }

    /** A receive that does not have to wait: a queued chunk, or the end once the channel is closed and drained. */
    method Receive() returns (chunk: Option<LogChunk>)
      requires Valid() && (queue != [] || !open)
      modifies this`queue, this`received
      ensures Valid()
      ensures if old(queue) != []
              then chunk == Some(old(queue)[0]) && queue == old(queue)[1..]
                   && received == old(received) + [old(queue)[0]]
              else chunk == None && queue == [] && received == old(received)
    {
      if queue == [] { return None; }
      chunk := Some(queue[0]);
      received := received + [queue[0]];
      queue := queue[1..];
    }
  }

  class Store {
    var jobs: map<string, Job>
    var logs: map<string, seq<LogChunk>>
    var logSubs: map<string, map<int, LogChannel>>
    var nextSubID: int
    var jobVersions: map<string, nat>
    var logOffsets: map<string, nat>

    /** Whether changes are mirrored, and the messages published so far. */
    const mirrored: bool
    var jobStream: seq<JobMsg>
    var logStream: seq<LogMsg>

    ghost function Jobs(): JobTable
      reads this`jobs, this`jobVersions
    {
      JobTable(jobs, jobVersions)
    }

    ghost function Logs(): LogTable
      reads this`logs, this`logOffsets
    {
      LogTable(logs, logOffsets)
    }

    /** Replaying the jobs stream would rebuild the job table. */
    ghost predicate JobsRecoverable()
      reads this`jobs, this`jobVersions, this`jobStream
    {
      mirrored ==> Jobs() == NoJobs.ApplyAll(jobStream)
    }

    /** Replaying the logs stream would rebuild the log table. */
    ghost predicate LogsRecoverable()
      reads this`logs, this`logOffsets, this`logStream
    {
      mirrored ==> Logs() == NoLogs.ApplyAll(logStream)
    }

    ghost function SubsOf(key: string): set<LogChannel>
      reads this`logSubs
    {
      if key in logSubs then ChannelsIn(logSubs[key]) else {}
    }

    ghost function Channels(): set<LogChannel>
      reads this`logSubs
    {
      set key, id | key in logSubs && id in logSubs[key] :: logSubs[key][id]
    }

    ghost predicate Registered(key: string, id: int)
      reads this`logSubs
    {
      key in logSubs && id in logSubs[key]
    }

    ghost predicate Sound(key: string, id: int, ch: LogChannel)
      reads this`nextSubID, ch
    {
      id < nextSubID && ch.open && ch.Valid() && ch.key == key && ch.id == id
    }

    /** Every registered channel is open, and registered in one place only; no key keeps an empty set of subscribers. */
    ghost predicate Valid()
      reads this`logSubs, this`nextSubID, Channels()
    {
      && (forall key, id: int | Registered(key, id) :: Sound(key, id, logSubs[key][id]))
      && (forall key | key in logSubs :: logSubs[key] != map[])
    }

    constructor (mirrored: bool)
      ensures Valid() && Jobs() == NoJobs && Logs() == NoLogs && logSubs == map[] && nextSubID == 0
      ensures this.mirrored == mirrored && jobStream == [] && logStream == []
      ensures JobsRecoverable() && LogsRecoverable()
    {
      jobs, logs, logSubs, nextSubID := map[], map[], map[], 0;
      jobVersions, logOffsets := map[], map[];
      this.mirrored, jobStream, logStream := mirrored, [], [];
    }

    method Put(job: Job)
      modifies this`jobs, this`jobVersions, this`jobStream
      ensures Jobs() == old(Jobs()).Put(job)
      ensures jobStream == old(jobStream) + if mirrored then [old(Jobs()).PutMsg(job)] else []
      ensures old(JobsRecoverable()) ==> JobsRecoverable()
    {
      ReplayPut(Jobs(), job);
      Snoc(jobStream, Jobs().PutMsg(job));
      var key := Key(job.ref);
      var version := BumpJobVersion(key);
      jobs := jobs[key := job];
      if mirrored { jobStream := jobStream + [JobMsg(job, version)]; }
    }

    method BumpJobVersion(key: string) returns (version: nat)
      modifies this`jobVersions
      ensures version == Count(old(jobVersions), key) + 1 && jobVersions == old(jobVersions)[key := version]
    {
      version := Count(jobVersions, key) + 1;
      jobVersions := jobVersions[key := version];
    }

    method BumpLogOffset(key: string) returns (offset: nat)
      modifies this`logOffsets
      ensures offset == Count(old(logOffsets), key) + 1 && logOffsets == old(logOffsets)[key := offset]
    {
      offset := Count(logOffsets, key) + 1;
      logOffsets := logOffsets[key := offset];
    }

    method Get(ref: JobRef) returns (job: Option<Job>)
      ensures job == if Key(ref) in jobs then Some(jobs[Key(ref)]) else None
    {
      job := if Key(ref) in jobs then Some(jobs[Key(ref)]) else None;
    }

    method AppendLogs(ref: JobRef, chunks: seq<LogChunk>)
      requires Valid()
      modifies this`logs, this`logOffsets, this`logStream, SubsOf(Key(ref))
      ensures Valid()
      ensures Logs() == old(Logs()).Append(ref, chunks)
      ensures logStream == old(logStream) + if mirrored then old(Logs()).AppendMsgs(ref, chunks) else []
      ensures forall ch | ch in SubsOf(Key(ref)) :: ch.Offered(Stamp(chunks, Count(old(logOffsets), Key(ref))))
      ensures old(LogsRecoverable()) ==> LogsRecoverable()
    {
      hide Stamp, Offer, ArrivalsOf, LogTable.ApplyAll;
      ReplayAppend(Logs(), ref, chunks);
      ApplyAllLogsConcat(NoLogs, logStream, Logs().AppendMsgs(ref, chunks));
      if |chunks| == 0 {
        NothingAppended(Logs(), ref);
        forall ch | ch in SubsOf(Key(ref)) ensures ch.Offered(Stamp(chunks, Count(logOffsets, Key(ref)))) {
          NothingOffered(Count(logOffsets, Key(ref)), ch.queue, ch.arrivals);
        }
      } else {
        AppendSome(ref, chunks);
      }
    }

    method AppendSome(ref: JobRef, chunks: seq<LogChunk>)
      requires Valid() && chunks != []
      modifies this`logs, this`logOffsets, this`logStream, SubsOf(Key(ref))
      ensures Valid()
      ensures Logs() == old(Logs()).Append(ref, chunks)
      ensures logStream == old(logStream) + if mirrored then old(Logs()).AppendMsgs(ref, chunks) else []
      ensures forall ch | ch in SubsOf(Key(ref)) :: ch.Offered(Stamp(chunks, Count(old(logOffsets), Key(ref))))
    {
      hide Stamp, Offer, ArrivalsOf, LogTable.Append, LogTable.AppendMsgs;
      var copied := RecordLogs(ref, chunks);
      Broadcast(Key(ref), copied);
    }

    /** Numbers the chunks, and puts them in the log and in the journal. */
    method RecordLogs(ref: JobRef, chunks: seq<LogChunk>) returns (copied: seq<LogChunk>)
      requires chunks != []
      modifies this`logs, this`logOffsets, this`logStream
      ensures copied == Stamp(chunks, Count(old(logOffsets), Key(ref)))
      ensures Logs() == old(Logs()).Append(ref, chunks)
      ensures logStream == old(logStream) + if mirrored then old(Logs()).AppendMsgs(ref, chunks) else []
    {
      hide Stamp;
      var key := Key(ref);
      copied := StampChunks(key, chunks);
      logs := logs[key := LogOf(logs, key) + copied];
      if mirrored {
        logStream := logStream
          + seq(|copied|, i requires 0 <= i < |copied| => LogMsg(ref, copied[i], copied[i].offset));
      }
    }

    /** The loop of AppendLogs that numbers the chunks. */
    method StampChunks(key: string, chunks: seq<LogChunk>) returns (copied: seq<LogChunk>)
      requires chunks != []
      modifies this`logOffsets
      ensures copied == Stamp(chunks, Count(old(logOffsets), key))
      ensures logOffsets == old(logOffsets)[key := Count(old(logOffsets), key) + |chunks|]
    {
      ghost var from := Count(logOffsets, key);
      copied := [];
      var i := 0;
      while i < |chunks|
        invariant 0 <= i <= |chunks| && |copied| == i
        invariant forall j | 0 <= j < i :: copied[j] == chunks[j].(offset := from + 1 + j)
        invariant Count(logOffsets, key) == from + i
        invariant logOffsets == if i == 0 then old(logOffsets) else old(logOffsets)[key := from + i]
      {
        var offset := BumpLogOffset(key);
        copied := copied + [chunks[i].(offset := offset)];
        i := i + 1;
      }
      assert copied == Stamp(chunks, from);
    }

    /** broadcastLocked */
    method Broadcast(key: string, chunks: seq<LogChunk>)
      requires Valid()
      modifies SubsOf(key)
      ensures Valid()
      ensures forall ch | ch in SubsOf(key) :: ch.Offered(chunks)
    {
      if key !in logSubs { return; }
      SubsSound(key);
      OfferToAll(ChannelsIn(logSubs[key]), chunks);
    }

    method ApplyReplayedJob(m: JobMsg)
      modifies this`jobs, this`jobVersions
      ensures Jobs() == old(Jobs()).Apply(m)
    {
      var key := Key(m.job.ref);
      jobs := jobs[key := m.job];
      if m.version > Count(jobVersions, key) { jobVersions := jobVersions[key := m.version]; }
    }

    method ApplyReplayedLog(m: LogMsg)
      requires Valid()
      modifies this`logs, this`logOffsets, SubsOf(Key(m.ref))
      ensures Valid() && Logs() == old(Logs()).Apply(m)
      ensures forall ch | ch in SubsOf(Key(m.ref)) :: ch.Offered([m.chunk.(offset := m.offset)])
    {
      hide Offer, ArrivalsOf;
      var key := Key(m.ref);
      if m.offset > Count(logOffsets, key) { logOffsets := logOffsets[key := m.offset]; }
      var copy := m.chunk.(offset := m.offset);
      logs := logs[key := LogOf(logs, key) + [copy]];
      Broadcast(key, [copy]);
    }

    /** hydrate: replays the jobs stream and then the logs stream, before there are any subscribers. */
    method Hydrate(jobMsgs: seq<JobMsg>, logMsgs: seq<LogMsg>)
      requires Valid() && logSubs == map[]
      modifies this`jobs, this`jobVersions, this`logs, this`logOffsets
      ensures Valid() && logSubs == map[]
      ensures Jobs() == old(Jobs()).ApplyAll(jobMsgs) && Logs() == old(Logs()).ApplyAll(logMsgs)
    {
      ReplayJobs(jobMsgs);
      ReplayLogs(logMsgs);
    }

    method ReplayJobs(msgs: seq<JobMsg>)
      modifies this`jobs, this`jobVersions
      ensures Jobs() == old(Jobs()).ApplyAll(msgs)
    {
      var i := 0;
      while i < |msgs|
        invariant 0 <= i <= |msgs| && Jobs() == old(Jobs()).ApplyAll(msgs[..i])
      {
        assert msgs[..i + 1][..i] == msgs[..i];
        ApplyReplayedJob(msgs[i]);
        i := i + 1;
      }
      assert msgs[..i] == msgs;
    }

    method ReplayLogs(msgs: seq<LogMsg>)
      requires Valid() && logSubs == map[]
      modifies this`logs, this`logOffsets
      ensures Valid() && Logs() == old(Logs()).ApplyAll(msgs)
    {
      var i := 0;
      while i < |msgs|
        invariant 0 <= i <= |msgs| && Logs() == old(Logs()).ApplyAll(msgs[..i])
      {
        assert msgs[..i + 1][..i] == msgs[..i];
        ApplyReplayedLog(msgs[i]);
        i := i + 1;
      }
      assert msgs[..i] == msgs;
    }

    method SubscribeLogs(ref: JobRef) returns (id: int, ch: LogChannel)
      requires Valid()
      modifies this`logSubs, this`nextSubID
      ensures Valid() && fresh(ch) && ch.Valid() && ch.queue == [] && ch.arrivals == [] && ch.received == []
      ensures id == old(nextSubID) && nextSubID == id + 1
      ensures logSubs == old(logSubs)[Key(ref) := SubscribersOf(old(logSubs), Key(ref))[id := ch]]
    {
      var key := Key(ref);
      id := nextSubID;
      ch := new LogChannel(key, id);
      nextSubID := nextSubID + 1;
      var subs: map<int, LogChannel> := SubscribersOf(logSubs, key);
      subs := subs[id := ch];
      assert id in subs;
      logSubs := logSubs[key := subs];
    }

    /** The channels registered under a key are open, and registered under no other key. */
    lemma {:induction false} SubsSound(key: string)
      requires Valid()
      ensures forall ch | ch in SubsOf(key) :: ch.open && ch.Valid() && ch.key == key
    {
      forall ch | ch in SubsOf(key) ensures ch.open && ch.Valid() && ch.key == key {
        var id :| id in logSubs[key] && logSubs[key][id] == ch;
        assert Registered(key, id);
      }
    }

    ghost function ChannelAt(key: string, id: int): set<LogChannel>
      reads this`logSubs
    {
      if Registered(key, id) then {logSubs[key][id]} else {}
    }

    /** unsubscribeLocked: the subscriber leaves the map, and its channel is closed. */
    method UnsubscribeLogs(ref: JobRef, id: int)
      requires Valid()
      modifies this`logSubs, ChannelAt(Key(ref), id)`open
      ensures Valid() && logSubs == Without(old(logSubs), Key(ref), id)
      ensures forall ch | ch in old(ChannelAt(Key(ref), id)) :: !ch.open
    {
      var key := Key(ref);
      if !(key in logSubs && id in logSubs[key]) {
        NothingToRemove(logSubs, key, id);
        return;
      }
      assert Registered(key, id);
      logSubs[key][id].Close();
      RemoveSub(key, id);
    }

    /** The map part of unsubscribeLocked, after the channel has been closed. */
    method RemoveSub(key: string, id: int)
      requires Registered(key, id) && forall k | k in logSubs :: logSubs[k] != map[]
      requires forall k, i: int | Registered(k, i) && (k != key || i != id) :: Sound(k, i, logSubs[k][i])
      modifies this`logSubs
      ensures Valid() && logSubs == Without(old(logSubs), key, id)
    {
      WithoutOne(logSubs, key, id);
      DeleteSub(key, id);
      hide Without;
      forall k, i: int | Registered(k, i) ensures Sound(k, i, logSubs[k][i]) {
        assert old(Registered(k, i)) && (k != key || i != id);
      }
    }

    method DeleteSub(key: string, id: int)
      requires Registered(key, id)
      modifies this`logSubs
      ensures logSubs == Without(old(logSubs), key, id)
    {
      var subs: map<int, LogChannel> := logSubs[key] - {id};
      logSubs := logSubs[key := subs];
      if |subs| == 0 { logSubs := logSubs - {key}; }
    }

    /** Ends every log stream of a job: its subscribers leave the map, and their channels are closed. */
    method CloseLogStreams(ref: JobRef)
      requires Valid()
      modifies this`logSubs, SubsOf(Key(ref))`open
      ensures Valid() && logSubs == old(logSubs) - {Key(ref)}
      ensures forall ch | ch in old(SubsOf(Key(ref))) :: !ch.open
    {
      var key := Key(ref);
      if key !in logSubs { return; }
      var subs: map<int, LogChannel> := logSubs[key];
      SubsSound(key);
      logSubs := logSubs - {key};
      forall k, id: int | Registered(k, id)
        ensures logSubs[k][id] !in ChannelsIn(subs) && Sound(k, id, logSubs[k][id])
      {
        assert old(Registered(k, id));
      }
      CloseAll(ChannelsIn(subs));
    }
  }

  /** The subscribers are served in no particular order. */
  method OfferToAll(subs: set<LogChannel>, chunks: seq<LogChunk>)
    requires forall ch | ch in subs :: ch.open && ch.Valid()
    modifies subs
    ensures forall ch | ch in subs :: ch.open && ch.Valid() && ch.Offered(chunks)
  {
    hide Offer, Kept, ArrivalsOf;
    var todo := subs;
    while todo != {}
      invariant todo <= subs
      invariant forall ch | ch in subs :: ch.open && ch.Valid()
      invariant forall ch | ch in subs - todo :: ch.Offered(chunks)
      invariant forall ch | ch in todo :: unchanged(ch)
      decreases |todo|
    {
      var ch :| ch in todo;
      ch.OfferAll(chunks);
      todo := todo - {ch};
    }
  }

  method CloseAll(subs: set<LogChannel>)
    requires forall ch | ch in subs :: ch.open
    modifies subs`open
    ensures forall ch | ch in subs :: !ch.open
  {
    var todo := subs;
    while todo != {}
      invariant todo <= subs
      invariant forall ch | ch in subs - todo :: !ch.open
      invariant forall ch | ch in todo :: ch.open
      decreases |todo|
    {
      var ch :| ch in todo;
      ch.Close();
      todo := todo - {ch};
    }
  }

  /** The subscriber map after one subscriber has left; a key without subscribers goes too. */
  function Without(subs: map<string, map<int, LogChannel>>, key: string, id: int): map<string, map<int, LogChannel>> {
    var rest := SubscribersOf(subs, key) - {id};
    if key in subs && rest == map[] then subs - {key}
    else if key in subs then subs[key := rest]
    else subs
  }

  lemma {:induction false} WithoutOne(subs: map<string, map<int, LogChannel>>, key: string, id: int)
    requires forall k | k in subs :: subs[k] != map[]
    ensures var rest := Without(subs, key, id);
            && (forall k | k in rest :: k in subs && rest[k] != map[])
            && (forall k, i | k in rest && i in rest[k] ::
                  i in subs[k] && rest[k][i] == subs[k][i] && (k != key || i != id))
  {
  }

  lemma {:induction false} NothingToRemove(subs: map<string, map<int, LogChannel>>, key: string, id: int)
    requires id !in SubscribersOf(subs, key) && (key in subs ==> subs[key] != map[])
    ensures Without(subs, key, id) == subs
  {
    assert SubscribersOf(subs, key) - {id} == SubscribersOf(subs, key);
  }

  function ChannelsIn(subs: map<int, LogChannel>): set<LogChannel> {
    set id | id in subs :: subs[id]
  }

  function SubscribersOf(subs: map<string, map<int, LogChannel>>, key: string): map<int, LogChannel> {
    if key in subs then subs[key] else map[]
  }

  lemma {:induction false} NothingOffered(from: nat, queue: seq<LogChunk>, arrivals: seq<Arrival>)
    ensures Stamp([], from) == [] && Offer(queue, []) == queue && arrivals + ArrivalsOf(queue, []) == arrivals
  {
  }
}
