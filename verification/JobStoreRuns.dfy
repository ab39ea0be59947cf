/** The store under any sequence of calls: what its subscribers see, and what restarts leave behind. */
module JobStoreRuns {
  import opened Seqs
  import opened Wrappers
  import opened JobTables
  import opened JobStore
  import opened JobStream

  /** Receive is a subscriber's, all others are the store's callers'. */
  datatype Call =
    | PutJob(job: Job)
    | AppendLogs(ref: JobRef, chunks: seq<LogChunk>)
    | Restart
    | Subscribe(ref: JobRef)
    | Unsubscribe(ref: JobRef, id: int)
    | CloseStreams(ref: JobRef)
    | Receive(id: int)

  /**
   * A subscriber: the key it is for, how long the log was when it came, whether its channel is open, what the
   * channel was offered, and how many chunks it has received.
   */
  datatype Sub = Sub(key: string, start: nat, open: bool, arrivals: seq<Arrival>, received: nat) {
    function Queue(): seq<LogChunk> {
      var kept := Kept(arrivals);
      if received <= |kept| then kept[received..] else []
    }
  }

  /** The tables with their journal, and the subscribers since the last start, by id. */
  datatype Model = Model(plane: Plane, subs: seq<Sub>)

  const NoCalls := Model(Fresh, [])

  function Offered(sub: Sub, key: string, chunks: seq<LogChunk>): Sub {
    if sub.open && sub.key == key then sub.(arrivals := sub.arrivals + ArrivalsOf(sub.Queue(), chunks)) else sub
  }

  function Received(sub: Sub): Sub {
    if sub.received < |Kept(sub.arrivals)| then sub.(received := sub.received + 1) else sub
  }

  function Closed(sub: Sub, key: string): Sub {
    if sub.key == key then sub.(open := false) else sub
  }

  function Each(subs: seq<Sub>, f: Sub -> Sub): (after: seq<Sub>)
    ensures |after| == |subs| && forall i | 0 <= i < |subs| :: after[i] == f(subs[i])
  {
    seq(|subs|, i requires 0 <= i < |subs| => f(subs[i]))
  }

  function After(m: Model, call: Call): Model {
    match call
    case PutJob(job) => m.(plane := m.plane.Step(Op.PutJob(job)))
    case AppendLogs(ref, chunks) =>
      var stamped := Stamp(chunks, Count(m.plane.logs.offsets, Key(ref)));
      Model(m.plane.Step(Op.AppendLogs(ref, chunks)), Each(m.subs, sub => Offered(sub, Key(ref), stamped)))
    case Restart => Model(m.plane.Step(Op.Restart), [])
    case Subscribe(ref) => m.(subs := m.subs + [Sub(Key(ref), |LogOf(m.plane.logs.logs, Key(ref))|, true, [], 0)])
    case Unsubscribe(ref, id) =>
      if 0 <= id < |m.subs| then m.(subs := m.subs[id := Closed(m.subs[id], Key(ref))]) else m
    case CloseStreams(ref) => m.(subs := Each(m.subs, sub => Closed(sub, Key(ref))))
    case Receive(id) => if 0 <= id < |m.subs| then m.(subs := m.subs[id := Received(m.subs[id])]) else m
  }

  function Calls(calls: seq<Call>): Model {
    if calls == [] then NoCalls else After(Calls(calls[..|calls| - 1]), calls[|calls| - 1])
  }

  lemma {:induction false} CallsSnoc(calls: seq<Call>, n: nat)
    requires n < |calls|
    ensures Calls(calls[..n + 1]) == After(Calls(calls[..n]), calls[n])
  {
    assert calls[..n + 1][..n] == calls[..n];
  }

  /** Channel number `i` holds what subscriber `sub` was offered, and has given it what it received. */
  ghost predicate Is(ch: LogChannel, i: nat, sub: Sub)
    reads ch`queue, ch`arrivals, ch`received
  {
    && ch.id == i && ch.key == sub.key && ch.Valid()
    && ch.arrivals == sub.arrivals && |ch.received| == sub.received && ch.queue == sub.Queue()
  }

  /** The store's tables and journal are those of the plain model. */
  ghost predicate Mirrors(s: Store, p: Plane)
    reads s`jobs, s`jobVersions, s`logs, s`logOffsets, s`jobStream, s`logStream
  {
    && s.mirrored && s.Jobs() == p.jobs && s.Logs() == p.logs
    && s.jobStream == p.jobStream && s.logStream == p.logStream
  }

  /** The channels made since the last start are those of the subscribers, and the open ones are those registered. */
  ghost predicate Tracks(s: Store, chans: seq<LogChannel>, subs: seq<Sub>)
    reads s`logSubs, s`nextSubID, chans
  {
    && |chans| == |subs| == s.nextSubID
    && (forall i | 0 <= i < |chans| :: Is(chans[i], i, subs[i]))
    && (forall i | 0 <= i < |chans| :: chans[i].open == subs[i].open)
    && (forall i | 0 <= i < |subs| :: subs[i].open <==> s.Registered(subs[i].key, i))
    && (forall key, id: int | s.Registered(key, id) :: 0 <= id < |chans| && s.logSubs[key][id] == chans[id])
  }

  lemma {:induction false} QueueIs(ch: LogChannel, sub: Sub)
    requires ch.Valid() && ch.arrivals == sub.arrivals && |ch.received| == sub.received
    ensures ch.queue == sub.Queue() && |ch.received| + |ch.queue| == |Kept(sub.arrivals)|
  {
    assert (ch.received + ch.queue)[|ch.received|..] == ch.queue;
  }

  /** The channels registered under a key are the open ones that were made for it. */
  lemma {:induction false} InSubs(s: Store, chans: seq<LogChannel>, subs: seq<Sub>, key: string)
    requires s.Valid() && Tracks(s, chans, subs)
    ensures forall i | 0 <= i < |chans| :: chans[i] in s.SubsOf(key) <==> subs[i].open && subs[i].key == key
  {
    s.SubsSound(key);
    hide Kept, Sub.Queue;
    forall i | 0 <= i < |chans| ensures chans[i] in s.SubsOf(key) <==> subs[i].open && subs[i].key == key {
      assert Is(chans[i], i, subs[i]);
    }
  }

  /** A channel after an append. */
  lemma {:induction false} OneOffered(ch: LogChannel, i: nat, sub: Sub, key: string, chunks: seq<LogChunk>)
    requires ch.id == i && ch.key == sub.key && ch.Valid()
    requires |ch.received| == sub.received && ch.arrivals == Offered(sub, key, chunks).arrivals
    ensures Is(ch, i, Offered(sub, key, chunks))
  {
    hide ArrivalsOf, Kept, Sub.Queue;
    QueueIs(ch, Offered(sub, key, chunks));
  }

  method Append(s: Store, chans: seq<LogChannel>, ghost subs: seq<Sub>, ref: JobRef, chunks: seq<LogChunk>)
    requires s.Valid() && s.LogsRecoverable() && Tracks(s, chans, subs)
    modifies s`logs, s`logOffsets, s`logStream, s.SubsOf(Key(ref))
    ensures s.Valid() && s.LogsRecoverable()
    ensures Tracks(
              s, chans,
              Each(subs, sub => Offered(sub, Key(ref), Stamp(chunks, Count(old(s.logOffsets), Key(ref))))))
    ensures s.Logs() == old(s.Logs()).Append(ref, chunks)
    ensures s.logStream == old(s.logStream) + if s.mirrored then old(s.Logs()).AppendMsgs(ref, chunks) else []
  {
    hide Stamp, Offer, ArrivalsOf, Kept, Sub.Queue, LogTable.ApplyAll, LogTable.Append, LogTable.AppendMsgs;
    ghost var key, stamped := Key(ref), Stamp(chunks, Count(s.logOffsets, Key(ref)));
    InSubs(s, chans, subs, key);
    s.AppendLogs(ref, chunks);
    s.SubsSound(key);
    forall i | 0 <= i < |chans| ensures Is(chans[i], i, Offered(subs[i], key, stamped)) {
      assert old(Is(chans[i], i, subs[i]));
      if subs[i].open && subs[i].key == key {
        assert chans[i].Offered(stamped);
        OneOffered(chans[i], i, subs[i], key, stamped);
      }
    }
  }

  method Join(s: Store, chans: seq<LogChannel>, ghost subs: seq<Sub>, ref: JobRef) returns (ch: LogChannel)
    requires s.Valid() && Tracks(s, chans, subs)
    modifies s`logSubs, s`nextSubID
    ensures s.Valid() && fresh(ch)
    ensures Tracks(s, chans + [ch], subs + [Sub(Key(ref), |LogOf(s.logs, Key(ref))|, true, [], 0)])
  {
    var id;
    id, ch := s.SubscribeLogs(ref);
    assert s.Registered(Key(ref), id) && s.Sound(Key(ref), id, ch);
    hide Is, Kept, Store.Valid, Store.Sound, LogOf;
    assert forall key, k: int :: s.Registered(key, k) <==> old(s.Registered(key, k)) || (key == Key(ref) && k == id);
    hide Store.Registered;
    TrackingNew(s, chans, ch, subs, Sub(Key(ref), |LogOf(s.logs, Key(ref))|, true, [], 0));
  }

  lemma {:induction false} TrackingNew(s: Store, chans: seq<LogChannel>, ch: LogChannel, subs: seq<Sub>, sub: Sub)
    requires |chans| == |subs| && s.nextSubID == |subs| + 1
    requires forall i | 0 <= i < |chans| :: Is(chans[i], i, subs[i]) && chans[i].open == subs[i].open
    requires forall i | 0 <= i < |subs| :: subs[i].open <==> s.Registered(subs[i].key, i)
    requires ch.id == |subs| && ch.key == sub.key && ch.open && sub.open && s.Registered(sub.key, |subs|)
    requires ch.Valid() && ch.queue == ch.received == sub.Queue() == [] && ch.arrivals == sub.arrivals
             && sub.received == 0
    requires forall key, id: int | s.Registered(key, id) ::
               0 <= id <= |chans| && s.logSubs[key][id] == (chans + [ch])[id]
    ensures Tracks(s, chans + [ch], subs + [sub])
  {
    hide Kept, Sub.Queue;
  }

  lemma {:induction false} WithoutMembers(subs: map<string, map<int, LogChannel>>, key: string, id: int)
    ensures var rest := Without(subs, key, id);
            forall k, i: int :: (k in rest && i in rest[k] <==> k in subs && i in subs[k] && (k != key || i != id))
                           && (k in rest && i in rest[k] ==> rest[k][i] == subs[k][i])
  {
    var left := SubscribersOf(subs, key) - {id};
    forall i: int ensures i in left <==> key in subs && i in subs[key] && i != id {}
  }

  /** The tracking of channels that stand for `after`, put together from its parts. */
  lemma {:induction false} Tracking(s: Store, chans: seq<LogChannel>, subs: seq<Sub>, after: seq<Sub>)
    requires |chans| == |subs| == |after| == s.nextSubID
    requires forall i | 0 <= i < |chans| :: Is(chans[i], i, subs[i]) && after[i] == subs[i].(open := chans[i].open)
    requires forall i | 0 <= i < |chans| :: chans[i].open <==> s.Registered(subs[i].key, i)
    requires forall key, id: int | s.Registered(key, id) :: 0 <= id < |chans| && s.logSubs[key][id] == chans[id]
    ensures Tracks(s, chans, after)
  {
    hide Kept;
  }

  /** The channel registered in one place is the open one that was made for it. */
  lemma {:induction false} InPlace(s: Store, chans: seq<LogChannel>, subs: seq<Sub>, key: string, id: int)
    requires s.Valid() && Tracks(s, chans, subs)
    ensures forall i | 0 <= i < |chans| && i != id :: chans[i] !in s.ChannelAt(key, id)
    ensures 0 <= id < |chans| ==> (chans[id] in s.ChannelAt(key, id) <==> subs[id].open && subs[id].key == key)
  {
    hide Kept, Sub.Queue;
    forall i | 0 <= i < |chans| && i != id ensures chans[i] !in s.ChannelAt(key, id) {
      assert Is(chans[i], i, subs[i]);
      if s.Registered(key, id) { assert Is(chans[id], id, subs[id]); }
    }
    if 0 <= id < |chans| {
      assert Is(chans[id], id, subs[id]) && (subs[id].open <==> s.Registered(subs[id].key, id));
      if s.Registered(key, id) { assert s.Sound(key, id, s.logSubs[key][id]) && s.logSubs[key][id] == chans[id]; }
    }
  }

  method Leave(s: Store, chans: seq<LogChannel>, ghost subs: seq<Sub>, ref: JobRef, id: int)
    requires s.Valid() && Tracks(s, chans, subs)
    modifies s`logSubs, s.ChannelAt(Key(ref), id)`open
    ensures s.Valid()
    ensures Tracks(s, chans, if 0 <= id < |subs| then subs[id := Closed(subs[id], Key(ref))] else subs)
  {
    hide Is, Store.Valid, Store.Registered, Store.ChannelAt;
    CloseOne(s, chans, subs, ref, id);
    Tracking(s, chans, subs, if 0 <= id < |subs| then subs[id := Closed(subs[id], Key(ref))] else subs);
  }

  method CloseOne(s: Store, chans: seq<LogChannel>, ghost subs: seq<Sub>, ref: JobRef, id: int)
    requires s.Valid() && Tracks(s, chans, subs)
    modifies s`logSubs, s.ChannelAt(Key(ref), id)`open
    ensures s.Valid()
    ensures forall i | 0 <= i < |chans| ::
              Is(chans[i], i, subs[i]) && chans[i].open == (subs[i].open && (i != id || subs[i].key != Key(ref)))
    ensures forall i | 0 <= i < |subs| ::
              subs[i].open && (i != id || subs[i].key != Key(ref)) <==> s.Registered(subs[i].key, i)
    ensures forall key, k: int | s.Registered(key, k) :: 0 <= k < |chans| && s.logSubs[key][k] == chans[k]
  {
    WithoutMembers(s.logSubs, Key(ref), id);
    InPlace(s, chans, subs, Key(ref), id);
    hide Without, Is, Store.Valid, Store.ChannelAt;
    s.UnsubscribeLogs(ref, id);
    assert forall key, k: int :: s.Registered(key, k) <==> old(s.Registered(key, k)) && (key != Key(ref) || k != id);
  }

  method EndAll(s: Store, chans: seq<LogChannel>, ghost subs: seq<Sub>, ref: JobRef)
    requires s.Valid() && Tracks(s, chans, subs)
    modifies s`logSubs, s.SubsOf(Key(ref))`open
    ensures s.Valid() && Tracks(s, chans, Each(subs, sub => Closed(sub, Key(ref))))
  {
    hide Is, Store.Valid, Store.Registered, Store.SubsOf;
    CloseThem(s, chans, subs, ref);
    Tracking(s, chans, subs, Each(subs, sub => Closed(sub, Key(ref))));
  }

  method CloseThem(s: Store, chans: seq<LogChannel>, ghost subs: seq<Sub>, ref: JobRef)
    requires s.Valid() && Tracks(s, chans, subs)
    modifies s`logSubs, s.SubsOf(Key(ref))`open
    ensures s.Valid()
    ensures forall i | 0 <= i < |chans| ::
              Is(chans[i], i, subs[i]) && chans[i].open == (subs[i].open && subs[i].key != Key(ref))
    ensures forall i | 0 <= i < |subs| :: subs[i].open && subs[i].key != Key(ref) <==> s.Registered(subs[i].key, i)
    ensures forall key, id: int | s.Registered(key, id) :: 0 <= id < |chans| && s.logSubs[key][id] == chans[id]
  {
    InSubs(s, chans, subs, Key(ref));
    hide Is, Store.Valid, Store.SubsOf;
    s.CloseLogStreams(ref);
    assert forall key, k: int :: s.Registered(key, k) <==> old(s.Registered(key, k)) && key != Key(ref);
  }

  method Take(s: Store, chans: seq<LogChannel>, ghost subs: seq<Sub>, id: int)
    requires s.Valid() && Tracks(s, chans, subs)
    modifies chans
    ensures s.Valid()
    ensures Tracks(s, chans, if 0 <= id < |subs| then subs[id := Received(subs[id])] else subs)
  {
    hide Kept, Sub.Queue;
    if 0 <= id < |chans| {
      var ch := chans[id];
      assert Is(ch, id, subs[id]);
      QueueIs(ch, subs[id]);
      if ch.queue != [] {
        var _ := ch.Receive();
        QueueIs(ch, Received(subs[id]));
        forall i | 0 <= i < |chans| ensures Is(chans[i], i, subs[id := Received(subs[id])][i]) {
          assert old(Is(chans[i], i, subs[i]));
        }
        forall key, k: int | s.Registered(key, k) ensures s.Sound(key, k, s.logSubs[key][k]) {
          assert old(s.Sound(key, k, s.logSubs[key][k]));
          assert Is(chans[k], k, subs[id := Received(subs[id])][k]);
        }
      }
    }
  }

  /** The process starts again: an empty store, hydrated from the journal, and no subscribers. */
  method StartAgain(s: Store) returns (t: Store)
    requires s.mirrored
    ensures fresh(t) && t.Valid() && t.mirrored && t.logSubs == map[] && t.nextSubID == 0
    ensures t.Jobs() == NoJobs.ApplyAll(s.jobStream) && t.Logs() == NoLogs.ApplyAll(s.logStream)
    ensures t.jobStream == s.jobStream && t.logStream == s.logStream
  {
    t := new Store(true);
    t.Hydrate(s.jobStream, s.logStream);
    t.jobStream, t.logStream := s.jobStream, s.logStream;
  }

  /** The store and its channels stand for the model `m`. */
  ghost predicate Represents(s: Store, chans: seq<LogChannel>, m: Model)
    reads s, s.Channels(), chans
  {
    s.Valid() && Mirrors(s, m.plane) && Tracks(s, chans, m.subs)
  }

  lemma {:induction false} OnlyTracked(s: Store, chans: seq<LogChannel>, subs: seq<Sub>)
    requires Tracks(s, chans, subs)
    ensures forall key :: s.SubsOf(key) <= set ch | ch in chans
    ensures forall key, id :: s.ChannelAt(key, id) <= set ch | ch in chans
  {
    forall key, id: int | s.Registered(key, id) ensures s.logSubs[key][id] in chans {}
  }

  method Do(s: Store, chans: seq<LogChannel>, call: Call, ghost m: Model)
    returns (s': Store, chans': seq<LogChannel>)
    requires Represents(s, chans, m) && Recoverable(m.plane)
    modifies s, set ch | ch in chans
    ensures Represents(s', chans', After(m, call))
    ensures s' == s || fresh(s')
    ensures forall ch | ch in chans' :: ch in chans || fresh(ch)
  {
    OnlyTracked(s, chans, m.subs);
    if call.Subscribe? { assert LogOf(s.logs, Key(call.ref)) == LogOf(m.plane.logs.logs, Key(call.ref)); }
    hide Tracks, Received, Closed, Store.Valid, Mirrors, LogOf;
    s', chans' := s, chans;
    match call {
      case Subscribe(ref) =>
        var ch := Join(s, chans, m.subs, ref);
        chans' := chans + [ch];
      case Unsubscribe(ref, id) => Leave(s, chans, m.subs, ref, id);
      case CloseStreams(ref) => EndAll(s, chans, m.subs, ref);
      case Receive(id) => Take(s, chans, m.subs, id);
      case _ => s', chans' := DoPlane(s, chans, call, m);
    }
  }

  /** The calls that change the tables. */
  method DoPlane(s: Store, chans: seq<LogChannel>, call: Call, ghost m: Model)
    returns (s': Store, chans': seq<LogChannel>)
    requires Represents(s, chans, m) && Recoverable(m.plane) && (call.PutJob? || call.AppendLogs? || call.Restart?)
    modifies s, set ch | ch in chans
    ensures Represents(s', chans', After(m, call))
    ensures s' == s || fresh(s')
    ensures chans' == chans || chans' == []
  {
    OnlyTracked(s, chans, m.subs);
    hide Tracks, Offered, Store.Valid, JobTable.Put, LogTable.Append, LogTable.AppendMsgs, Stamp;
    s', chans' := s, chans;
    match call {
      case PutJob(job) => s.Put(job);
      case AppendLogs(ref, chunks) => Append(s, chans, m.subs, ref, chunks);
      case Restart =>
        s' := StartAgain(s);
        chans' := [];
        NothingYet(s');
    }
  }

  lemma {:induction false} NothingYet(s: Store)
    requires s.logSubs == map[] && s.nextSubID == 0
    ensures Tracks(s, [], [])
  {
  }

  /** The calls that concern the tables and the journal. */
  function OpsOf(call: Call): seq<Op> {
    match call
    case PutJob(job) => [Op.PutJob(job)]
    case AppendLogs(ref, chunks) => [Op.AppendLogs(ref, chunks)]
    case Restart => [Op.Restart]
    case _ => []
  }

  function AllOps(calls: seq<Call>): seq<Op> {
    if calls == [] then [] else AllOps(calls[..|calls| - 1]) + OpsOf(calls[|calls| - 1])
  }

  lemma {:induction false} PlaneAfter(m: Model, call: Call)
    ensures After(m, call).plane == if OpsOf(call) == [] then m.plane else m.plane.Step(OpsOf(call)[0])
    ensures |OpsOf(call)| <= 1
  {
    hide Plane.Step, Stamp;
  }

  /** Subscribers make no difference to the tables and the journal. */
  lemma {:induction false} PlaneOfCalls(calls: seq<Call>)
    ensures Calls(calls).plane == Fresh.Run(AllOps(calls))
    decreases |calls|
  {
    hide Plane.Step, After, OpsOf;
    if calls != [] {
      var init, last := calls[..|calls| - 1], calls[|calls| - 1];
      PlaneOfCalls(init);
      PlaneAfter(Calls(init), last);
      if OpsOf(last) == [] {
        assert AllOps(init) + [] == AllOps(init);
      } else {
        assert OpsOf(last) == [OpsOf(last)[0]];
        Snoc(AllOps(init), OpsOf(last)[0]);
      }
    }
  }

  /**
   * Any sequence of calls, restarts among them: the store ends up as the model runs to, down to what every
   * subscriber was offered and has received. Its tables do not notice the restarts.
   */
  method Serve(calls: seq<Call>) returns (s: Store, chans: seq<LogChannel>)
    ensures Represents(s, chans, Calls(calls))
    ensures Mirrors(s, Fresh.Run(WithoutRestarts(AllOps(calls))))
  {
    hide After, Tracks, Mirrors, Plane.Run, WithoutRestarts, AllOps;
    s := new Store(true);
    chans := [];
    NothingYet(s);
    NothingCalled(s);
    var i := 0;
    while i < |calls|
      invariant 0 <= i <= |calls| && fresh(s) && Represents(s, chans, Calls(calls[..i]))
      invariant forall ch | ch in chans :: fresh(ch)
    {
      CallsSnoc(calls, i);
      PlaneOfCalls(calls[..i]);
      RestartsAreInvisible(AllOps(calls[..i]));
      s, chans := Do(s, chans, calls[i], Calls(calls[..i]));
      i := i + 1;
    }
    assert calls[..i] == calls;
    PlaneOfCalls(calls);
    RestartsAreInvisible(AllOps(calls));
  }

  lemma {:induction false} NothingCalled(s: Store)
    requires s.mirrored && s.Jobs() == NoJobs && s.Logs() == NoLogs && s.jobStream == [] && s.logStream == []
    ensures Mirrors(s, Calls([]).plane) && Calls([]).subs == []
  {
  }

  function ChunksOf(arrivals: seq<Arrival>): (chunks: seq<LogChunk>)
    ensures |chunks| == |arrivals|
  {
    seq(|arrivals|, i requires 0 <= i < |arrivals| => arrivals[i].chunk)
  }

  lemma {:induction false} OfferedChunks(queue: seq<LogChunk>, chunks: seq<LogChunk>)
    ensures ChunksOf(ArrivalsOf(queue, chunks)) == chunks
    decreases |chunks|
  {
    if chunks != [] {
      var after := if |queue| < CHANNEL_CAP then queue + [chunks[0]] else queue;
      OfferedChunks(after, chunks[1..]);
      var rest := ArrivalsOf(after, chunks[1..]);
      assert ArrivalsOf(queue, chunks) == [Arrival(chunks[0], |queue|)] + rest;
      assert ChunksOf(ArrivalsOf(queue, chunks)) == [chunks[0]] + ChunksOf(rest);
    }
  }

  /**
   * A subscriber has been offered a gapless stretch of its job's log from where the log stood when it came; an open
   * one, all of the log since. It has received no more than there was room for.
   */
  ghost predicate UpToDate(sub: Sub, logs: map<string, seq<LogChunk>>) {
    var log := LogOf(logs, sub.key);
    var n := |sub.arrivals|;
    && sub.start + n <= |log| && ChunksOf(sub.arrivals) == log[sub.start..sub.start + n]
    && (sub.open ==> sub.start + n == |log|)
    && sub.received <= |Kept(sub.arrivals)|
  }

  ghost predicate AllUpToDate(m: Model) {
    forall i | 0 <= i < |m.subs| :: UpToDate(m.subs[i], m.plane.logs.logs)
  }

  lemma {:induction false} KeptGrows(arrivals: seq<Arrival>, more: seq<Arrival>)
    ensures |Kept(arrivals)| <= |Kept(arrivals + more)|
    decreases |more|
  {
    if more == [] {
      assert arrivals + more == arrivals;
    } else {
      var n := |more| - 1;
      assert (arrivals + more)[..|arrivals| + n] == arrivals + more[..n];
      KeptGrows(arrivals, more[..n]);
    }
  }

  lemma {:induction false} LogAfter(t: LogTable, ref: JobRef, chunks: seq<LogChunk>, key: string)
    ensures var before := LogOf(t.logs, key);
            LogOf(t.Append(ref, chunks).logs, key)
            == if key == Key(ref) then before + Stamp(chunks, Count(t.offsets, Key(ref))) else before
  {
    if chunks == [] { assert LogOf(t.logs, key) + [] == LogOf(t.logs, key); }
  }

  lemma {:induction false} OfferedUpToDate(sub: Sub, t: LogTable, ref: JobRef, chunks: seq<LogChunk>)
    requires UpToDate(sub, t.logs)
    ensures UpToDate(Offered(sub, Key(ref), Stamp(chunks, Count(t.offsets, Key(ref)))), t.Append(ref, chunks).logs)
  {
    hide Stamp, LogTable.Append, Kept, ArrivalsOf, Sub.Queue;
    var stamped := Stamp(chunks, Count(t.offsets, Key(ref)));
    LogAfter(t, ref, chunks, sub.key);
    if sub.open && sub.key == Key(ref) {
      var more := ArrivalsOf(sub.Queue(), stamped);
      OfferedChunks(sub.Queue(), stamped);
      KeptGrows(sub.arrivals, more);
      assert ChunksOf(sub.arrivals + more) == ChunksOf(sub.arrivals) + stamped;
    }
  }

  lemma {:induction false} CallUpToDate(m: Model, call: Call)
    requires AllUpToDate(m) && Recoverable(m.plane)
    ensures AllUpToDate(After(m, call))
  {
    hide UpToDate, Stamp, LogTable.Append;
    var after := After(m, call);
    forall i | 0 <= i < |after.subs| ensures UpToDate(after.subs[i], after.plane.logs.logs) {
      match call
      case AppendLogs(ref, chunks) => OfferedUpToDate(m.subs[i], m.plane.logs, ref, chunks);
      case Subscribe(ref) => if i == |m.subs| { NewUpToDate(ref, m.plane.logs.logs); }
      case PutJob(_) =>
      case Restart =>
      case _ => MovedUpToDate(m.subs[i], after.subs[i], m.plane.logs.logs);
    }
  }

  lemma {:induction false} NewUpToDate(ref: JobRef, logs: map<string, seq<LogChunk>>)
    ensures UpToDate(Sub(Key(ref), |LogOf(logs, Key(ref))|, true, [], 0), logs)
  {
  }

  lemma {:induction false} MovedUpToDate(sub: Sub, after: Sub, logs: map<string, seq<LogChunk>>)
    requires UpToDate(sub, logs) && (after == sub || after == sub.(open := false) || after == Received(sub))
    ensures UpToDate(after, logs)
  {
    hide Kept;
  }

  lemma {:induction false} CallsUpToDate(calls: seq<Call>)
    ensures AllUpToDate(Calls(calls))
    decreases |calls|
  {
    hide After, UpToDate, Plane.Run;
    if calls != [] {
      var init := calls[..|calls| - 1];
      CallsUpToDate(init);
      PlaneOfCalls(init);
      RestartsAreInvisible(AllOps(init));
      CallUpToDate(Calls(init), calls[|calls| - 1]);
    }
  }

  predicate NeverFull(arrivals: seq<Arrival>) {
    forall i | 0 <= i < |arrivals| :: arrivals[i].queued < 128
  }

  lemma {:induction false} KeptAll(arrivals: seq<Arrival>)
    ensures |Kept(arrivals)| <= |arrivals|
    ensures if NeverFull(arrivals) then Kept(arrivals) == ChunksOf(arrivals) else |Kept(arrivals)| < |arrivals|
    decreases |arrivals|
  {
    if arrivals != [] {
      var n := |arrivals| - 1;
      KeptAll(arrivals[..n]);
      hide Kept;
      LastKept(arrivals);
      assert ChunksOf(arrivals) == ChunksOf(arrivals[..n]) + [arrivals[n].chunk];
      assert NeverFull(arrivals) <==> NeverFull(arrivals[..n]) && arrivals[n].queued < CHANNEL_CAP;
    }
  }

  lemma {:induction false} LastKept(arrivals: seq<Arrival>)
    requires arrivals != []
    ensures var n := |arrivals| - 1;
            Kept(arrivals)
            == if arrivals[n].queued < CHANNEL_CAP then Kept(arrivals[..n]) + [arrivals[n].chunk]
               else Kept(arrivals[..n])
  {
  }

  lemma {:induction false} LastChunk(log: seq<LogChunk>, arrivals: seq<Arrival>, start: nat)
    requires arrivals != [] && start + |arrivals| <= |log|
    requires ChunksOf(arrivals) == log[start..start + |arrivals|]
    ensures var n := |arrivals| - 1;
            arrivals[n].chunk == log[start + n] && ChunksOf(arrivals[..n]) == log[start..start + n]
  {
    var n := |arrivals| - 1;
    assert ChunksOf(arrivals)[n] == log[start + n];
    assert forall i | 0 <= i < n :: ChunksOf(arrivals[..n])[i] == ChunksOf(arrivals)[i] == log[start + i];
  }

  /** What is kept of a stretch of a numbered log rises strictly. */
  lemma {:induction false} KeptRises(log: seq<LogChunk>, arrivals: seq<Arrival>, start: nat)
    requires NumberedFrom1(log) && start + |arrivals| <= |log|
    requires ChunksOf(arrivals) == log[start..start + |arrivals|]
    ensures Rising(log, Kept(arrivals), start)
    ensures Kept(arrivals) != [] ==> Kept(arrivals)[|Kept(arrivals)| - 1].offset <= start + |arrivals|
    decreases |arrivals|
  {
    hide Kept, ChunksOf, Rising, NumberedFrom1;
    if arrivals == [] {
      KeptAll(arrivals);
      NothingUnderWay(log, start);
    } else {
      var n := |arrivals| - 1;
      LastKept(arrivals);
      LastChunk(log, arrivals, start);
      KeptRises(log, arrivals[..n], start);
      NextRises(log, Kept(arrivals[..n]), start, start + n);
    }
  }

  lemma {:induction false} NextRises(log: seq<LogChunk>, kept: seq<LogChunk>, low: nat, at: nat)
    requires NumberedFrom1(log) && low <= at < |log| && Rising(log, kept, low)
    requires kept != [] ==> kept[|kept| - 1].offset <= at
    ensures log[at].offset == at + 1 && Rising(log, kept + [log[at]], low)
  {
    assert Stored(log, log[at]);
    RisingSnoc(log, kept, low, log[at]);
  }

  /** A call that ends subscription `i`, which is for `key`: its own unsubscription, or the end of the job's streams. */
  predicate EndsSub(call: Call, i: nat, key: string) {
    match call
    case Unsubscribe(ref, id) => id == i && Key(ref) == key
    case CloseStreams(ref) => Key(ref) == key
    case _ => false
  }

  predicate NoRestart(calls: seq<Call>) {
    forall k | 0 <= k < |calls| :: !calls[k].Restart?
  }

  /** A subscription starts open, at the end of the job's log, with nothing offered or received. */
  lemma {:induction false} SubscriptionStarts(calls: seq<Call>, ref: JobRef)
    ensures var m, n := Calls(calls + [Call.Subscribe(ref)]), Calls(calls);
            && |m.subs| == |n.subs| + 1 && m.subs[..|n.subs|] == n.subs && m.plane == n.plane
            && m.subs[|n.subs|] == Sub(Key(ref), |LogOf(n.plane.logs.logs, Key(ref))|, true, [], 0)
  {
    OneMoreCall(calls, Call.Subscribe(ref));
  }

  lemma {:induction false} OneMoreCall(calls: seq<Call>, call: Call)
    ensures Calls(calls + [call]) == After(Calls(calls), call)
  {
    assert (calls + [call])[..|calls|] == calls;
  }

  /**
   * Until the next restart a subscription keeps its job and its start, what it was offered and has received only
   * grows, and it stays open exactly as long as no call ends it.
   */
  lemma {:induction false} OpenUntilEnded(calls: seq<Call>, more: seq<Call>, i: nat)
    requires i < |Calls(calls).subs| && NoRestart(more)
    ensures i < |Calls(calls + more).subs|
    ensures var before, after := Calls(calls).subs[i], Calls(calls + more).subs[i];
            && after.key == before.key && after.start == before.start
            && before.arrivals <= after.arrivals && before.received <= after.received
            && (after.open <==> before.open && forall k | 0 <= k < |more| :: !EndsSub(more[k], i, before.key))
    decreases |more|
  {
    hide Calls, After, EndsSub;
    if more == [] {
      assert calls + more == calls;
    } else {
      var n := |more| - 1;
      OpenUntilEnded(calls, more[..n], i);
      assert calls + more == calls + more[..n] + [more[n]];
      OneMoreCall(calls + more[..n], more[n]);
      CallOnSub(Calls(calls + more[..n]), more[n], i);
      assert forall k | 0 <= k < n :: more[..n][k] == more[k];
    }
  }

  lemma {:induction false} CallOnSub(m: Model, call: Call, i: nat)
    requires i < |m.subs| && !call.Restart?
    ensures i < |After(m, call).subs|
    ensures var before, after := m.subs[i], After(m, call).subs[i];
            && after.key == before.key && after.start == before.start
            && before.arrivals <= after.arrivals && before.received <= after.received
            && (after.open <==> before.open && !EndsSub(call, i, before.key))
  {
    hide ArrivalsOf, Kept, Stamp;
  }

  /**
   * What any subscriber, past or present, has got or still has queued after any sequence of calls: stored chunks
   * in strictly rising order from where the log stood when it came, and all of the log since, as long as its
   * channel is open, exactly when no chunk ever found its queue full.
   */
  lemma {:induction false} SubscriberSees(calls: seq<Call>, i: nat)
    requires i < |Calls(calls).subs|
    ensures var m := Calls(calls);
            var sub, log := m.subs[i], LogOf(m.plane.logs.logs, m.subs[i].key);
            && UpToDate(sub, m.plane.logs.logs)
            && Rising(log, Kept(sub.arrivals), sub.start)
            && (Kept(sub.arrivals) == log[sub.start..sub.start + |sub.arrivals|] <==> NeverFull(sub.arrivals))
  {
    hide Calls, Kept, Rising;
    CallsUpToDate(calls);
    PlaneOfCalls(calls);
    LogsAreNumbered(AllOps(calls));
    var m := Calls(calls);
    var sub, log := m.subs[i], LogOf(m.plane.logs.logs, m.subs[i].key);
    assert UpToDate(sub, m.plane.logs.logs) && NumberedFrom1(log);
    KeptAll(sub.arrivals);
    KeptRises(log, sub.arrivals, sub.start);
  }
}
