/**
 * One job's log, one StreamJobLogs call at a time, and the client that reconnects: every interleaving of the
 * appends, the server's steps, the network and the client.
 */
module JobStream {
  import opened JobTables
  import opened JobStore

  /** What the server sends: a stored chunk, or a heartbeat that carries an offset. */
  datatype Packet = Data(chunk: LogChunk) | Beat(at: nat) {
    function Offset(): nat { if Data? then chunk.offset else at }
  }

  datatype Pc = Idle | Replaying | CheckingState | Subscribing | Live | Returned

  datatype System = System(
    /* the store, and whether the dispatcher has closed the job's streams */
    log: seq<LogChunk>, ended: bool, terminal: bool, closed: bool,
    /* StreamJobLogs */
    pc: Pc, after: nat, lastOffset: nat, snapshot: nat, rest: seq<LogChunk>, queue: seq<LogChunk>, open: bool,
    /* the network */
    wire: seq<Packet>,
    /* the client */
    cursor: nat, accepted: seq<LogChunk>, done: bool,
    /* chunks of the log that the current connection cannot bring */
    missed: int)

  /**
   * Append and End are the dispatcher's; End stores the final state, which the server recognises as terminal
   * when it is SUCCEEDED or FAILED; CloseStreams follows End, once.
   */
  datatype Step =
    | Append(chunks: seq<LogChunk>) | End(recognised: bool) | CloseStreams
    | Connect | SendStored | SnapshotSent | CheckState | Subscribe | SendQueued | Heartbeat | ChannelEnd
    | Receive | ReceiveEof | Disconnect

  function MaxOf(a: nat, b: nat): nat { if a < b then b else a }

  /** Sending one stored chunk, unless the client already has it. */
  function Send(s: System, chunk: LogChunk): System {
    if chunk.offset <= s.after then s
    else s.(lastOffset := MaxOf(s.lastOffset, chunk.offset), wire := s.wire + [Data(chunk)])
  }

  /** A step that is not possible leaves everything as it is. */
  function Apply(s: System, step: Step): System {
    match step
    case Append(chunks) =>
      if s.ended then s
      else
        var stamped := Stamp(chunks, |s.log|);
        var s := s.(log := s.log + stamped);
        if s.pc == Live && s.open then
          var queue := Offer(s.queue, stamped);
          s.(queue := queue, missed := s.missed + |stamped| - (|queue| - |s.queue|))
        else if s.pc in {Replaying, CheckingState, Subscribing} then s.(missed := s.missed + |stamped|)
        else s
    case End(recognised) => if s.ended then s else s.(ended := true, terminal := recognised)
    case CloseStreams =>
      if s.ended && !s.closed then s.(closed := true, open := s.open && s.pc != Live) else s
    case Connect =>
      if s.pc != Idle || s.done then s
      else s.(pc := Replaying, after := s.cursor, lastOffset := s.cursor, snapshot := |s.log|, rest := s.log,
              queue := [], open := false, wire := [], missed := s.cursor - |s.accepted|)
    case SendStored => if s.pc == Replaying && s.rest != [] then Send(s.(rest := s.rest[1..]), s.rest[0]) else s
    case SnapshotSent => if s.pc == Replaying && s.rest == [] then s.(pc := CheckingState) else s
    case CheckState => if s.pc == CheckingState then s.(pc := if s.terminal then Returned else Subscribing) else s
    case Subscribe => if s.pc == Subscribing then s.(pc := Live, queue := [], open := true) else s
    case SendQueued => if s.pc == Live && s.queue != [] then Send(s.(queue := s.queue[1..]), s.queue[0]) else s
    case Heartbeat => if s.pc == Live then s.(wire := s.wire + [Beat(s.lastOffset)]) else s
    case ChannelEnd => if s.pc == Live && !s.open && s.queue == [] then s.(pc := Returned) else s
    case Receive =>
      if s.pc == Idle || s.wire == [] then s
      else
        var p := s.wire[0];
        var s := s.(wire := s.wire[1..]);
        if p.Offset() <= s.cursor then s
        else s.(cursor := p.Offset(), accepted := if p.Data? then s.accepted + [p.chunk] else s.accepted)
    case ReceiveEof => if s.pc == Returned && s.wire == [] then s.(pc := Idle, done := true) else s
    case Disconnect => if s.pc == Idle then s else s.(pc := Idle, rest := [], queue := [], open := false, wire := [])
  }

  function Run(s: System, steps: seq<Step>): System {
    if steps == [] then s else Apply(Run(s, steps[..|steps| - 1]), steps[|steps| - 1])
  }

  /** A client that starts with `cursor`; a stored log that may already hold chunks. */
  ghost predicate Init(s: System) {
    && NumberedFrom1(s.log) && !s.ended && !s.terminal && !s.closed && s.pc == Idle
    && s.wire == [] && s.accepted == [] && !s.done
  }

  ghost predicate Stored(log: seq<LogChunk>, c: LogChunk) {
    1 <= c.offset <= |log| && log[c.offset - 1] == c
  }

  /** Stored chunks in strictly rising order, all above `low`. */
  ghost predicate Rising(log: seq<LogChunk>, cs: seq<LogChunk>, low: nat) {
    && (forall i | 0 <= i < |cs| :: Stored(log, cs[i]) && cs[i].offset > low)
    && (forall i, j | 0 <= i < j < |cs| :: cs[i].offset < cs[j].offset)
  }

  /**
   * From `low` on, the data packets are stored chunks in strictly rising order, the last of them at `high`, and
   * every heartbeat carries the offset of the data packet before it.
   */
  ghost predicate InOrder(log: seq<LogChunk>, wire: seq<Packet>, low: nat, high: nat) {
    if wire == [] then low == high
    else if wire[0].Beat? then wire[0].at == low && InOrder(log, wire[1..], low, high)
    else Stored(log, wire[0].chunk) && wire[0].chunk.offset > low && InOrder(log, wire[1..], wire[0].chunk.offset, high)
  }

  function Chunks(wire: seq<Packet>): nat {
    if wire == [] then 0 else (if wire[0].Data? then 1 else 0) + Chunks(wire[1..])
  }

  /** The client's side: a rising subsequence of the log, up to its cursor. */
  ghost predicate ClientOk(s: System, start: nat) {
    && start <= s.cursor
    && Rising(s.log, s.accepted, start)
    && s.cursor == if s.accepted == [] then start else s.accepted[|s.accepted| - 1].offset
  }

  ghost predicate ServerOk(s: System, start: nat) {
    && start <= s.after <= s.lastOffset && s.after <= s.cursor
    && s.snapshot <= |s.log|
    && InOrder(s.log, s.wire, s.cursor, s.lastOffset)
    && (s.pc == Replaying ==>
          && |s.rest| <= s.snapshot && s.rest == s.log[s.snapshot - |s.rest|..s.snapshot]
          && s.lastOffset == MaxOf(s.after, s.snapshot - |s.rest|))
    && (s.pc in {CheckingState, Subscribing} ==> s.lastOffset == MaxOf(s.after, s.snapshot))
    && (s.pc == Live ==>
          && Rising(s.log, s.queue, 0)
          && (forall i | 0 <= i < |s.queue| :: s.queue[i].offset > s.lastOffset || s.queue[i].offset <= s.after)
          && |s.queue| <= CHANNEL_CAP
          && (!s.open ==> s.closed))
    && (s.pc == Returned ==> s.ended)
  }

  ghost predicate Inv(s: System, start: nat) {
    && NumberedFrom1(s.log)
    && (s.terminal ==> s.ended) && (s.closed ==> s.ended)
    && ClientOk(s, start)
    && (s.pc != Idle ==> ServerOk(s, start))
  }

  lemma {:induction false} InOrderSnoc(log: seq<LogChunk>, wire: seq<Packet>, low: nat, high: nat, p: Packet)
    requires InOrder(log, wire, low, high)
    requires if p.Data? then Stored(log, p.chunk) && p.chunk.offset > high else p.at == high
    ensures InOrder(log, wire + [p], low, p.Offset())
    ensures Chunks(wire + [p]) == Chunks(wire) + if p.Data? then 1 else 0
    decreases |wire|
  {
    if wire == [] {
      assert [p][1..] == [];
      assert wire + [p] == [p];
    } else {
      assert (wire + [p])[1..] == wire[1..] + [p];
      InOrderSnoc(log, wire[1..], if wire[0].Beat? then low else wire[0].chunk.offset, high, p);
    }
  }

  /** A longer log changes nothing for the packets under way. */
  lemma {:induction false} InOrderGrows(log: seq<LogChunk>, more: seq<LogChunk>, wire: seq<Packet>, low: nat, high: nat)
    requires InOrder(log, wire, low, high)
    ensures InOrder(log + more, wire, low, high)
    decreases |wire|
  {
    if wire != [] {
      InOrderGrows(log, more, wire[1..], if wire[0].Beat? then low else wire[0].chunk.offset, high);
    }
  }

  /** There is room on the wire for at most the offsets between the two ends. */
  lemma {:induction false} ChunksFit(log: seq<LogChunk>, wire: seq<Packet>, low: nat, high: nat)
    requires InOrder(log, wire, low, high)
    ensures Chunks(wire) <= high - low
    ensures low <= high && (high == low || high <= |log|)
    decreases |wire|
  {
    if wire != [] {
      ChunksFit(log, wire[1..], if wire[0].Beat? then low else wire[0].chunk.offset, high);
    }
  }

  lemma {:induction false} RisingFits(log: seq<LogChunk>, cs: seq<LogChunk>, low: nat)
    requires Rising(log, cs, low)
    ensures cs != [] ==> low + |cs| <= cs[|cs| - 1].offset <= |log|
    decreases |cs|
  {
    if cs != [] {
      var init := cs[..|cs| - 1];
      assert forall i | 0 <= i < |init| :: init[i] == cs[i];
      RisingFits(log, init, low);
    }
  }

  /** Offering numbered chunks to a queue keeps it rising; what does not fit is dropped. */
  lemma {:induction false} OfferRising(log: seq<LogChunk>, queue: seq<LogChunk>, lo: nat, hi: nat)
    requires NumberedFrom1(log) && lo <= hi <= |log|
    requires Rising(log, queue, 0) && (queue != [] ==> queue[|queue| - 1].offset <= lo) && |queue| <= CHANNEL_CAP
    ensures Rising(log, Offer(queue, log[lo..hi]), 0)
    ensures |queue| <= |Offer(queue, log[lo..hi])| <= CHANNEL_CAP
    ensures |Offer(queue, log[lo..hi])| <= |queue| + hi - lo
    ensures forall i | |queue| <= i < |Offer(queue, log[lo..hi])| :: Offer(queue, log[lo..hi])[i].offset > lo
    decreases hi - lo
  {
    hide Rising, NumberedFrom1, Offer;
    if lo == hi {
      OfferNone(queue, log[lo..hi]);
    } else {
      var c := log[lo];
      assert log[lo..hi][0] == c && log[lo..hi][1..] == log[lo + 1..hi];
      OfferFirst(queue, log[lo..hi]);
      NextIsStored(log, queue, lo);
      OfferRising(log, if |queue| < CHANNEL_CAP then queue + [c] else queue, lo + 1, hi);
    }
  }

  lemma {:induction false} OfferFirst(queue: seq<LogChunk>, chunks: seq<LogChunk>)
    requires chunks != []
    ensures Offer(queue, chunks) == Offer(if |queue| < CHANNEL_CAP then queue + [chunks[0]] else queue, chunks[1..])
  {
  }

  lemma {:induction false} NextIsStored(log: seq<LogChunk>, queue: seq<LogChunk>, lo: nat)
    requires NumberedFrom1(log) && lo < |log|
    requires Rising(log, queue, 0) && (queue != [] ==> queue[|queue| - 1].offset <= lo)
    ensures log[lo].offset == lo + 1 && Rising(log, queue + [log[lo]], 0)
  {
    assert Stored(log, log[lo]);
    RisingSnoc(log, queue, 0, log[lo]);
  }

  lemma {:induction false} SendOk(s: System, chunk: LogChunk, start: nat)
    requires NumberedFrom1(s.log) && ClientOk(s, start) && Stored(s.log, chunk)
    requires InOrder(s.log, s.wire, s.cursor, s.lastOffset)
    requires s.after <= s.lastOffset && (chunk.offset > s.lastOffset || chunk.offset <= s.after)
    ensures var t := Send(s, chunk);
            && InOrder(s.log, t.wire, s.cursor, t.lastOffset) && t.lastOffset == MaxOf(s.lastOffset, chunk.offset)
            && t == s.(wire := t.wire, lastOffset := t.lastOffset)
            && Chunks(t.wire) == Chunks(s.wire) + if chunk.offset <= s.after then 0 else 1
  {
    if chunk.offset > s.after { InOrderSnoc(s.log, s.wire, s.cursor, s.lastOffset, Data(chunk)); }
  }

  lemma {:induction false} RisingGrows(log: seq<LogChunk>, more: seq<LogChunk>, cs: seq<LogChunk>, low: nat)
    requires Rising(log, cs, low)
    ensures Rising(log + more, cs, low)
  {
    forall i | 0 <= i < |cs| ensures Stored(log + more, cs[i]) { assert Stored(log, cs[i]); }
  }

  lemma {:induction false} StampContinues(log: seq<LogChunk>, chunks: seq<LogChunk>)
    requires NumberedFrom1(log)
    ensures NumberedFrom1(log + Stamp(chunks, |log|))
  {
    hide Stamp;
  }

  lemma {:induction false} AppendOk(s: System, chunks: seq<LogChunk>, start: nat)
    requires Inv(s, start) && !s.ended
    ensures Inv(Apply(s, Append(chunks)), start)
  {
    hide Stamp, Offer, Rising, InOrder, NumberedFrom1;
    var stamped := Stamp(chunks, |s.log|);
    var log := s.log + stamped;
    StampContinues(s.log, chunks);
    RisingGrows(s.log, stamped, s.accepted, start);
    if s.pc != Idle { InOrderGrows(s.log, stamped, s.wire, s.cursor, s.lastOffset); }
    if s.pc == Replaying {
      assert log[s.snapshot - |s.rest|..s.snapshot] == s.log[s.snapshot - |s.rest|..s.snapshot];
    }
    if s.pc == Live {
      RisingGrows(s.log, stamped, s.queue, 0);
      if s.open { OfferOk(s, chunks, start); }
    }
  }

  /** What Append does to the queue of a live subscriber. */
  lemma {:induction false} OfferOk(s: System, chunks: seq<LogChunk>, start: nat)
    requires Inv(s, start) && s.pc == Live
    ensures var stamped := Stamp(chunks, |s.log|);
            var queue := Offer(s.queue, stamped);
            && Rising(s.log + stamped, queue, 0) && |s.queue| <= |queue| <= CHANNEL_CAP
            && |queue| <= |s.queue| + |stamped|
            && (forall i | 0 <= i < |queue| :: queue[i].offset > s.lastOffset || queue[i].offset <= s.after)
            && (forall i | |s.queue| <= i < |queue| :: queue[i].offset > |s.log|)
  {
    hide Stamp, Offer, InOrder;
    var stamped := Stamp(chunks, |s.log|);
    var log := s.log + stamped;
    StampContinues(s.log, chunks);
    RisingGrows(s.log, stamped, s.queue, 0);
    ChunksFit(s.log, s.wire, s.cursor, s.lastOffset);
    if s.queue != [] { RisingFits(s.log, s.queue, 0); }
    if s.accepted != [] { RisingFits(s.log, s.accepted, start); }
    assert stamped == log[|s.log|..|log|];
    OfferRising(log, s.queue, |s.log|, |log|);
    var queue := Offer(s.queue, stamped);
    assert forall i | 0 <= i < |s.queue| :: queue[i] == s.queue[i];
  }

  lemma {:induction false} ReceiveOk(s: System, start: nat)
    requires Inv(s, start) && s.pc != Idle && s.wire != []
    ensures Inv(Apply(s, Receive), start)
    ensures var t := Apply(s, Receive);
            t.accepted == if s.wire[0].Data? then s.accepted + [s.wire[0].chunk] else s.accepted
  {
    hide Rising, NumberedFrom1, InOrder;
    FirstPacket(s.log, s.wire, s.cursor, s.lastOffset);
    if s.wire[0].Data? {
      RisingSnoc(s.log, s.accepted, start, s.wire[0].chunk);
    }
  }

  lemma {:induction false} FirstPacket(log: seq<LogChunk>, wire: seq<Packet>, low: nat, high: nat)
    requires InOrder(log, wire, low, high) && wire != []
    ensures if wire[0].Beat? then wire[0].at == low && InOrder(log, wire[1..], low, high)
            else Stored(log, wire[0].chunk) && wire[0].chunk.offset > low
                 && InOrder(log, wire[1..], wire[0].chunk.offset, high)
  {
  }

  lemma {:induction false} RisingSnoc(log: seq<LogChunk>, cs: seq<LogChunk>, low: nat, c: LogChunk)
    requires Rising(log, cs, low) && Stored(log, c)
    requires c.offset > if cs == [] then low else cs[|cs| - 1].offset
    ensures Rising(log, cs + [c], low)
  {
  }

  lemma {:induction false} NextStored(log: seq<LogChunk>, snapshot: nat, rest: seq<LogChunk>)
    requires NumberedFrom1(log) && |rest| <= snapshot <= |log| && rest != []
    requires rest == log[snapshot - |rest|..snapshot]
    ensures Stored(log, rest[0]) && rest[0].offset == snapshot - |rest| + 1
    ensures rest[1..] == log[snapshot - |rest[1..]|..snapshot]
  {
  }

  lemma {:induction false} StoredSent(s: System)
    requires s.pc == Replaying && s.rest != []
    ensures Apply(s, SendStored) == Send(s.(rest := s.rest[1..]), s.rest[0])
  {
  }

  lemma {:induction false} StoredServer(s: System, t: System, start: nat)
    requires ServerOk(s, start) && s.pc == Replaying && s.rest != []
    requires t == s.(rest := s.rest[1..], wire := t.wire, lastOffset := t.lastOffset)
    requires InOrder(s.log, t.wire, s.cursor, t.lastOffset)
    requires t.lastOffset == MaxOf(s.lastOffset, s.snapshot - |s.rest| + 1)
    requires t.rest == s.log[s.snapshot - |t.rest|..s.snapshot]
    ensures ServerOk(t, start)
  {
    hide InOrder;
  }

  lemma {:induction false} SendStoredOk(s: System, start: nat)
    requires Inv(s, start) && s.pc == Replaying && s.rest != []
    ensures Inv(Apply(s, SendStored), start)
  {
    hide Rising, InOrder, NumberedFrom1, Stored, Chunks, Send, Apply;
    NextStored(s.log, s.snapshot, s.rest);
    SendOk(s.(rest := s.rest[1..]), s.rest[0], start);
    StoredSent(s);
    StoredServer(s, Apply(s, SendStored), start);
  }

  lemma {:induction false} SendQueuedOk(s: System, start: nat)
    requires Inv(s, start) && s.pc == Live && s.queue != []
    ensures Inv(Apply(s, SendQueued), start)
  {
    hide InOrder, Rising, NumberedFrom1;
    RisingTail(s.log, s.queue, 0);
    SendOk(s.(queue := s.queue[1..]), s.queue[0], start);
  }

  lemma {:induction false} RisingTail(log: seq<LogChunk>, cs: seq<LogChunk>, low: nat)
    requires Rising(log, cs, low) && cs != []
    ensures Stored(log, cs[0]) && Rising(log, cs[1..], low)
    ensures forall i | 0 <= i < |cs[1..]| :: cs[1..][i] == cs[i + 1] && cs[0].offset < cs[1..][i].offset
  {
  }

  lemma {:induction false} StepOk(s: System, step: Step, start: nat)
    requires Inv(s, start)
    ensures Inv(Apply(s, step), start)
  {
    match step
    case Append(chunks) => if !s.ended { AppendOk(s, chunks, start); }
    case SendStored => if s.pc == Replaying && s.rest != [] { SendStoredOk(s, start); }
    case SendQueued => if s.pc == Live && s.queue != [] { SendQueuedOk(s, start); }
    case Heartbeat => if s.pc == Live { InOrderSnoc(s.log, s.wire, s.cursor, s.lastOffset, Beat(s.lastOffset)); }
    case Receive => if s.pc != Idle && s.wire != [] { ReceiveOk(s, start); }
    case _ => OtherStepOk(s, step, start);
  }

  lemma {:induction false} OtherStepOk(s: System, step: Step, start: nat)
    requires Inv(s, start)
    requires step in {CloseStreams, Connect, SnapshotSent, CheckState, Subscribe, ChannelEnd, ReceiveEof, Disconnect}
             || step.End?
    ensures Inv(Apply(s, step), start)
  {
    hide Inv;
    match step
    case Connect => ConnectOk(s, start);
    case Subscribe => SubscribeOk(s, start);
    case ReceiveEof => HangUpOk(s, step, start);
    case Disconnect => HangUpOk(s, step, start);
    case CloseStreams => EndOk(s, step, start);
    case End(_) => EndOk(s, step, start);
    case _ => MoveOn(s, step, start);
  }

  lemma {:induction false} HangUpOk(s: System, step: Step, start: nat)
    requires Inv(s, start) && (step.ReceiveEof? || step.Disconnect?)
    ensures Inv(Apply(s, step), start)
  {
    hide Rising, NumberedFrom1, ServerOk;
  }

  lemma {:induction false} EndOk(s: System, step: Step, start: nat)
    requires Inv(s, start) && (step.CloseStreams? || step.End?)
    ensures Inv(Apply(s, step), start)
  {
    hide Rising, NumberedFrom1, InOrder;
  }

  lemma {:induction false} MoveOn(s: System, step: Step, start: nat)
    requires Inv(s, start) && (step.SnapshotSent? || step.CheckState? || step.ChannelEnd?)
    ensures Inv(Apply(s, step), start)
  {
    hide Rising, NumberedFrom1, InOrder;
  }

  lemma {:induction false} ConnectOk(s: System, start: nat)
    requires Inv(s, start)
    ensures Inv(Apply(s, Connect), start)
  {
    hide Rising, NumberedFrom1, InOrder;
    NothingUnderWay(s.log, s.cursor);
    assert s.log == s.log[|s.log| - |s.log|..|s.log|];
  }

  lemma {:induction false} SubscribeOk(s: System, start: nat)
    requires Inv(s, start)
    ensures Inv(Apply(s, Subscribe), start)
  {
    hide Rising, NumberedFrom1, InOrder;
    NothingUnderWay(s.log, s.cursor);
  }

  lemma {:induction false} NothingUnderWay(log: seq<LogChunk>, at: nat)
    ensures InOrder(log, [], at, at) && Rising(log, [], 0) && Rising(log, [], at)
  {
  }

  /** Safety over every run, whatever offset the client starts from. */
  lemma {:induction false} RunOk(s: System, steps: seq<Step>)
    requires Init(s)
    ensures Inv(Run(s, steps), s.cursor)
    decreases |steps|
  {
    hide Inv, Apply, Init;
    if steps == [] {
      InitOk(s);
    } else {
      RunOk(s, steps[..|steps| - 1]);
      StepOk(Run(s, steps[..|steps| - 1]), steps[|steps| - 1], s.cursor);
    }
  }

  lemma {:induction false} InitOk(s: System)
    requires Init(s)
    ensures Inv(s, s.cursor)
  {
  }

  /**
   * In every reachable state, what the client accepted is a strictly rising subsequence of the stored log above
   * its starting offset, ending at its cursor; and the packets under way continue it in strictly rising order,
   * with every heartbeat at the offset of the data before it.
   */
  lemma {:induction false} StreamOrder(s: System, steps: seq<Step>)
    requires Init(s)
    ensures var t := Run(s, steps);
            && Rising(t.log, t.accepted, s.cursor)
            && t.cursor == (if t.accepted == [] then s.cursor else t.accepted[|t.accepted| - 1].offset)
            && (t.pc != Idle ==> InOrder(t.log, t.wire, t.cursor, t.lastOffset))
  {
    hide Run;
    RunOk(s, steps);
  }

  /** A heartbeat goes out on a live connection at any time, with the offset of the last data sent, or the client's. */
  lemma {:induction false} HeartbeatGoes(s: System, steps: seq<Step>)
    requires Init(s)
    ensures var t, u := Run(s, steps), Run(s, steps + [Heartbeat]);
            if t.pc == Live
            then u.wire == t.wire + [Beat(t.lastOffset)] && InOrder(t.log, t.wire, t.cursor, t.lastOffset)
            else u == t
  {
    RunOk(s, steps);
    hide Run;
    var u := Then(s, steps, Heartbeat);
  }

  /** The chunks the current connection can still bring. */
  function Coming(s: System): int {
    match s.pc
    case Idle => 0
    case Live => |s.queue|
    case Returned => 0
    case _ => s.snapshot - s.lastOffset
  }

  /** For a client that starts at 0: accepted, under way, still coming and missed make up the log. */
  ghost predicate Balanced(s: System) {
    && |s.accepted| + Chunks(s.wire) + Coming(s) + s.missed == |s.log|
    && (s.pc in {Replaying, CheckingState, Subscribing} ==> s.after <= s.snapshot)
    && (s.pc == Live ==> s.after <= |s.log| && forall i | 0 <= i < |s.queue| :: s.queue[i].offset > s.after)
  }

  ghost predicate Accounts(s: System) {
    && (s.pc != Idle ==> Balanced(s))
    && (s.done ==> |s.accepted| + s.missed == |s.log| && s.pc == Idle && s.ended)
    && (s.missed == 0 ==> |s.accepted| == s.cursor)
  }

  /** A connection that has missed nothing has left no gap behind the cursor. */
  lemma {:induction false} NothingMissed(s: System)
    requires Inv(s, 0) && s.pc != Idle && s.missed == 0 && Balanced(s)
    ensures |s.accepted| == s.cursor
  {
    ChunksFit(s.log, s.wire, s.cursor, s.lastOffset);
    if s.accepted != [] { RisingFits(s.log, s.accepted, 0); }
    if s.pc == Live {
      assert Rising(s.log, s.queue, s.lastOffset);
      if s.queue != [] { RisingFits(s.log, s.queue, s.lastOffset); }
    }
  }

  lemma {:induction false} StepAccounts(s: System, step: Step)
    requires Inv(s, 0) && Accounts(s)
    ensures Accounts(Apply(s, step))
  {
    hide Inv, Balanced;
    var t := Apply(s, step);
    StepOk(s, step, 0);
    if t.pc != Idle {
      StepBalanced(s, step);
      if t.missed == 0 { NothingMissed(t); }
    } else {
      IdleAccounts(s, step);
    }
  }

  lemma {:induction false} IdleAccounts(s: System, step: Step)
    requires Inv(s, 0) && Accounts(s) && Apply(s, step).pc == Idle
    ensures Accounts(Apply(s, step))
  {
    hide Inv, Balanced;
    if step.ReceiveEof? && s.pc == Returned && s.wire == [] { EofCounts(s); }
  }

  lemma {:induction false} EofCounts(s: System)
    requires Inv(s, 0) && s.pc == Returned && s.wire == [] && Balanced(s)
    ensures |s.accepted| + s.missed == |s.log| && s.ended
  {
  }

  lemma {:induction false} StepBalanced(s: System, step: Step)
    requires Inv(s, 0) && Accounts(s) && Apply(s, step).pc != Idle
    ensures Balanced(Apply(s, step))
  {
    hide Inv, Stamp, Offer, InOrder, Rising, Balanced;
    match step
    case Append(chunks) => if !s.ended { AppendBalanced(s, chunks); }
    case SendStored => if s.pc == Replaying && s.rest != [] { SendStoredBalanced(s); }
    case SendQueued => if s.pc == Live && s.queue != [] { SendQueuedBalanced(s); }
    case Heartbeat => HeartbeatBalanced(s);
    case Receive => if s.wire != [] { ReceiveBalanced(s); }
    case Connect => if s.pc == Idle { ConnectBalanced(s); }
    case _ => OtherBalanced(s, step);
  }

  lemma {:induction false} HeartbeatBalanced(s: System)
    requires Inv(s, 0) && s.pc != Idle && Balanced(s)
    ensures Balanced(Apply(s, Heartbeat))
  {
    hide InOrder, Rising;
    if s.pc == Live { InOrderSnoc(s.log, s.wire, s.cursor, s.lastOffset, Beat(s.lastOffset)); }
  }

  lemma {:induction false} OtherBalanced(s: System, step: Step)
    requires Inv(s, 0) && s.pc != Idle && Balanced(s) && Apply(s, step).pc != Idle
    requires step in {CloseStreams, SnapshotSent, CheckState, Subscribe, ChannelEnd, ReceiveEof, Disconnect}
             || step.End?
    ensures Balanced(Apply(s, step))
  {
  }

  lemma {:induction false} ConnectBalanced(s: System)
    requires Inv(s, 0) && s.pc == Idle && !s.done
    ensures Balanced(Apply(s, Connect))
  {
    if s.accepted != [] { RisingFits(s.log, s.accepted, 0); }
  }

  lemma {:induction false} ReceiveBalanced(s: System)
    requires Inv(s, 0) && s.pc != Idle && s.wire != [] && Balanced(s)
    ensures Balanced(Apply(s, Receive))
  {
    hide Rising;
    ReceiveOk(s, 0);
  }

  lemma {:induction false} SendStoredBalanced(s: System)
    requires Inv(s, 0) && s.pc == Replaying && s.rest != [] && Balanced(s)
    ensures Balanced(Apply(s, SendStored))
  {
    hide Rising, InOrder;
    assert Stored(s.log, s.rest[0]);
    SendOk(s.(rest := s.rest[1..]), s.rest[0], 0);
  }

  lemma {:induction false} SendQueuedBalanced(s: System)
    requires Inv(s, 0) && s.pc == Live && s.queue != [] && Balanced(s)
    ensures Balanced(Apply(s, SendQueued))
  {
    hide InOrder;
    SendOk(s.(queue := s.queue[1..]), s.queue[0], 0);
  }

  lemma {:induction false} AppendBalanced(s: System, chunks: seq<LogChunk>)
    requires Inv(s, 0) && s.pc != Idle && Balanced(s) && !s.ended
    ensures Balanced(Apply(s, Append(chunks)))
  {
    hide Stamp, Offer, InOrder, Rising;
    if s.pc == Live {
      OfferOk(s, chunks, 0);
      var stamped := Stamp(chunks, |s.log|);
      assert forall i | 0 <= i < |s.queue| :: Offer(s.queue, stamped)[i] == s.queue[i];
    }
  }

  lemma {:induction false} RunAccounts(s: System, steps: seq<Step>)
    requires Init(s) && s.cursor == 0 && s.missed == 0
    ensures Inv(Run(s, steps), 0) && Accounts(Run(s, steps))
    decreases |steps|
  {
    hide Inv, Apply, Accounts;
    RunOk(s, steps);
    if steps == [] {
      InitAccounts(s);
    } else {
      RunAccounts(s, steps[..|steps| - 1]);
      StepAccounts(Run(s, steps[..|steps| - 1]), steps[|steps| - 1]);
    }
  }

  lemma {:induction false} InitAccounts(s: System)
    requires Init(s) && s.cursor == 0 && s.missed == 0
    ensures Accounts(s)
  {
  }

  /** A rising sequence that fills its range is the log itself. */
  lemma {:induction false} RisingAndFull(log: seq<LogChunk>, cs: seq<LogChunk>)
    requires Rising(log, cs, 0) && (cs != [] ==> cs[|cs| - 1].offset == |cs|)
    ensures |cs| <= |log| && cs == log[..|cs|]
    decreases |cs|
  {
    if cs != [] {
      hide Rising;
      var init := cs[..|cs| - 1];
      RisingInit(log, cs);
      RisingFits(log, init, 0);
      if init != [] { RisingAndFull(log, init); }
      assert cs == init + [log[|cs| - 1]];
    }
  }

  lemma {:induction false} RisingInit(log: seq<LogChunk>, cs: seq<LogChunk>)
    requires Rising(log, cs, 0) && cs != []
    ensures var init := cs[..|cs| - 1];
            && Rising(log, init, 0) && Stored(log, cs[|cs| - 1])
            && (init != [] ==> init[|init| - 1].offset < cs[|cs| - 1].offset)
  {
    var init := cs[..|cs| - 1];
    assert forall i | 0 <= i < |init| :: init[i] == cs[i];
  }

  /** A step that loses chunks: an append before the subscription, or one the queue has no room for. */
  predicate Loses(s: System, step: Step) {
    step.Append? && step.chunks != [] && !s.ended &&
    (s.pc in {Replaying, CheckingState, Subscribing}
      || (s.pc == Live && s.open && |s.queue| + |step.chunks| > 128))
  }

  predicate LosslessRun(s: System, steps: seq<Step>) {
    steps != [] ==>
      LosslessRun(s, steps[..|steps| - 1]) && !Loses(Run(s, steps[..|steps| - 1]), steps[|steps| - 1])
  }

  lemma {:induction false} OfferWithRoom(queue: seq<LogChunk>, chunks: seq<LogChunk>)
    requires |queue| + |chunks| <= CHANNEL_CAP
    ensures Offer(queue, chunks) == queue + chunks
    decreases |chunks|
  {
    if chunks == [] {
      assert queue + chunks == queue;
    } else {
      OfferWithRoom(queue + [chunks[0]], chunks[1..]);
      assert queue + [chunks[0]] + chunks[1..] == queue + chunks;
    }
  }

  lemma {:induction false} OfferBounded(queue: seq<LogChunk>, chunks: seq<LogChunk>)
    ensures |Offer(queue, chunks)| <= MaxOf(|queue|, CHANNEL_CAP)
    decreases |chunks|
  {
    if chunks != [] {
      OfferBounded(if |queue| < CHANNEL_CAP then queue + [chunks[0]] else queue, chunks[1..]);
    }
  }

  /** A step that begins a connection. */
  predicate Begins(s: System, step: Step) {
    step.Connect? && s.pc == Idle && !s.done
  }

  /** Whether a step since the last connection began lost chunks. */
  predicate LostSome(s: System, steps: seq<Step>) {
    steps != [] &&
    var t, step := Run(s, steps[..|steps| - 1]), steps[|steps| - 1];
    !Begins(t, step) && (LostSome(s, steps[..|steps| - 1]) || Loses(t, step))
  }

  /** Whether the last connection began with a gap behind the cursor. */
  predicate BeganWithGap(s: System, steps: seq<Step>) {
    steps != [] &&
    var t, step := Run(s, steps[..|steps| - 1]), steps[|steps| - 1];
    if Begins(t, step) then t.cursor != |t.accepted| else BeganWithGap(s, steps[..|steps| - 1])
  }

  /** How a step changes the count of what is missed. */
  lemma {:induction false} MissedStep(s: System, step: Step)
    requires Inv(s, 0)
    ensures var t := Apply(s, step);
            if Begins(s, step) then 0 <= t.missed == s.cursor - |s.accepted|
            else if Loses(s, step) then t.missed > s.missed
            else t.missed == s.missed
  {
    hide Offer, Stamp, InOrder, Rising, NumberedFrom1;
    if Begins(s, step) {
      if s.accepted != [] { RisingFits(s.log, s.accepted, 0); }
    } else if step.Append? && s.pc == Live && !s.ended {
      var stamped := Stamp(step.chunks, |s.log|);
      OfferBounded(s.queue, stamped);
      if !Loses(s, step) { OfferWithRoom(s.queue, stamped); }
    }
  }

  lemma {:induction false} MissedCounts(s: System, steps: seq<Step>)
    requires Init(s) && s.cursor == 0 && s.missed == 0
    ensures var t := Run(s, steps);
            t.missed >= 0 && (t.missed == 0 <==> !LostSome(s, steps) && !BeganWithGap(s, steps))
    decreases |steps|
  {
    hide Apply, Inv, Loses, Init;
    if steps != [] {
      MissedCounts(s, steps[..|steps| - 1]);
      RunOk(s, steps[..|steps| - 1]);
      MissedStep(Run(s, steps[..|steps| - 1]), steps[|steps| - 1]);
    }
  }

  /**
   * End-to-end delivery, over any number of disconnects and resumes. A client that starts from the beginning and
   * reaches a clean end of stream holds all of the final log but the chunks its last connection missed. It holds
   * the whole log exactly when that connection took no step that loses chunks and began without a gap behind the
   * cursor. While a connection has missed nothing, the client holds every chunk up to its cursor.
   */
  lemma {:induction false} EndToEndDelivery(s: System, steps: seq<Step>)
    requires Init(s) && s.cursor == 0 && s.missed == 0
    ensures var t := Run(s, steps);
            && (t.done ==>
                  && |t.log| == |t.accepted| + t.missed
                  && (t.accepted == t.log <==> !LostSome(s, steps) && !BeganWithGap(s, steps)))
            && (!LostSome(s, steps) && !BeganWithGap(s, steps) ==>
                  t.cursor <= |t.log| && t.accepted == t.log[..t.cursor])
  {
    hide Run, LostSome, BeganWithGap;
    RunAccounts(s, steps);
    MissedCounts(s, steps);
    var t := Run(s, steps);
    if t.missed == 0 {
      RisingAndFull(t.log, t.accepted);
      assert t.log[..|t.log|] == t.log;
    }
  }

  lemma {:induction false} LosslessKeeps(s: System, steps: seq<Step>)
    requires Init(s) && s.cursor == 0 && s.missed == 0 && LosslessRun(s, steps)
    ensures Run(s, steps).missed == 0 && !LostSome(s, steps) && !BeganWithGap(s, steps)
    decreases |steps|
  {
    hide Apply, Inv, Loses, Init;
    if steps != [] {
      LosslessKeeps(s, steps[..|steps| - 1]);
      RunAccounts(s, steps[..|steps| - 1]);
      MissedStep(Run(s, steps[..|steps| - 1]), steps[|steps| - 1]);
    }
  }

  /**
   * If nothing is ever appended between a snapshot and its subscription, and no queue ever fills, the client's
   * chunks are at all times exactly the log up to its cursor, and the whole log at a clean end of stream.
   */
  lemma {:induction false} LosslessDelivery(s: System, steps: seq<Step>)
    requires Init(s) && s.cursor == 0 && s.missed == 0 && LosslessRun(s, steps)
    ensures var t := Run(s, steps);
            && t.cursor <= |t.log| && t.accepted == t.log[..t.cursor]
            && (t.done ==> t.accepted == t.log)
  {
    hide Run, Init;
    LosslessKeeps(s, steps);
    EndToEndDelivery(s, steps);
  }

  /** A connection that finds an empty log and an unfinished job, an append that slips in, and a later one. */
  const SLIP_IN: seq<Step> := [Connect, SnapshotSent, CheckState]
  const END_CLEANLY: seq<Step> := [SendQueued, Receive, End(true), CloseStreams, ChannelEnd, ReceiveEof]

  /** The state of a live subscriber with one queued chunk, after it has missed another. */
  function AfterSlip(s: System, a: LogChunk, b: LogChunk): System {
    s.(log := [a.(offset := 1), b.(offset := 2)], pc := Live, after := 0, lastOffset := 0, snapshot := 0, rest := [],
       queue := [b.(offset := 2)], open := true, wire := [], missed := 1)
  }

  lemma {:induction false} FindsNothing(s: System)
    requires Init(s) && s.log == [] && s.cursor == 0 && s.missed == 0
    ensures Run(s, SLIP_IN) == s.(pc := Subscribing, after := 0, lastOffset := 0, snapshot := 0,
                                  rest := [], queue := [],
                                  open := false, wire := [], missed := 0)
  {
    hide Run;
    RunNothing(s);
    var s1 := Then(s, [], Connect);
    var s2 := Then(s, [] + [Connect], SnapshotSent);
    var s3 := Then(s, [] + [Connect] + [SnapshotSent], CheckState);
    assert [] + [Connect] + [SnapshotSent] + [CheckState] == SLIP_IN;
  }

  lemma {:induction false} SlipIn(s: System, a: LogChunk, b: LogChunk)
    requires Init(s) && s.log == [] && s.cursor == 0 && s.missed == 0
    ensures Run(s, SLIP_IN + [Append([a]), Subscribe, Append([b])]) == AfterSlip(s, a, b)
  {
    hide Run, Stamp, Offer;
    FindsNothing(s);
    OneChunk(a, 0);
    OneChunk(b, 1);
    var s4 := Then(s, SLIP_IN, Append([a]));
    assert s4.log == [a.(offset := 1)] && s4.pc == Subscribing;
    var s5 := Then(s, SLIP_IN + [Append([a])], Subscribe);
    var s6 := Then(s, SLIP_IN + [Append([a])] + [Subscribe], Append([b]));
    assert s6.log == [a.(offset := 1), b.(offset := 2)];
    assert SLIP_IN + [Append([a])] + [Subscribe] + [Append([b])] == SLIP_IN + [Append([a]), Subscribe, Append([b])];
  }

  lemma {:induction false} OneChunk(c: LogChunk, at: nat)
    ensures Stamp([c], at) == [c.(offset := at + 1)] && Offer([], Stamp([c], at)) == Stamp([c], at)
  {
  }

  /** The client has the queued chunk, and the job has ended. */
  function AfterEnd(s: System, a: LogChunk, b: LogChunk): System {
    AfterSlip(s, a, b).(
      queue := [], lastOffset := 2, cursor := 2, accepted := [b.(offset := 2)], ended := true, terminal := true)
  }

  lemma {:induction false} GetAndEnd(s: System, before: seq<Step>, a: LogChunk, b: LogChunk)
    requires Init(s) && s.cursor == 0 && Run(s, before) == AfterSlip(s, a, b)
    ensures Run(s, before + [SendQueued, Receive, End(true)]) == AfterEnd(s, a, b)
  {
    hide Run;
    var t1 := Then(s, before, SendQueued);
    var t2 := Then(s, before + [SendQueued], Receive);
    var t3 := Then(s, before + [SendQueued] + [Receive], End(true));
    assert before + [SendQueued] + [Receive] + [End(true)] == before + [SendQueued, Receive, End(true)];
  }

  lemma {:induction false} EndCleanly(s: System, before: seq<Step>, a: LogChunk, b: LogChunk)
    requires Init(s) && s.cursor == 0 && Run(s, before) == AfterSlip(s, a, b)
    ensures var t := Run(s, before + END_CLEANLY);
            t.done && t.missed == 1 && t.log == [a.(offset := 1), b.(offset := 2)] && t.accepted == [b.(offset := 2)]
  {
    hide Run;
    GetAndEnd(s, before, a, b);
    var so := before + [SendQueued, Receive, End(true)];
    var t4 := Then(s, so, CloseStreams);
    var t5 := Then(s, so + [CloseStreams], ChannelEnd);
    var t6 := Then(s, so + [CloseStreams] + [ChannelEnd], ReceiveEof);
    assert so + [CloseStreams] + [ChannelEnd] + [ReceiveEof] == before + END_CLEANLY;
  }

  /**
   * The condition is needed: a chunk appended between the state check and the subscription never reaches the
   * client, although the stream ends cleanly.
   */
  lemma {:induction false} AppendBeforeSubscribeIsLost(s: System, a: LogChunk, b: LogChunk)
    requires Init(s) && s.log == [] && s.cursor == 0 && s.missed == 0
    ensures var t := Run(s, SLIP_IN + [Append([a]), Subscribe, Append([b])] + END_CLEANLY);
            t.done && t.log == [a.(offset := 1), b.(offset := 2)] && t.accepted == [b.(offset := 2)]
  {
    hide Run;
    SlipIn(s, a, b);
    EndCleanly(s, SLIP_IN + [Append([a]), Subscribe, Append([b])], a, b);
  }

  /**
   * Whether a connection can still return by itself: a live one while its channel is closed or yet to be closed, one
   * before its subscription while the streams are yet to be closed, and one before the state check also if it will
   * find a state it recognises.
   */
  predicate CanReturn(s: System) {
    match s.pc
    case Idle => false
    case Returned => true
    case Live => !s.open || !s.closed
    case Subscribing => !s.closed
    case _ => s.terminal || !s.closed
  }

  predicate StaysConnected(steps: seq<Step>) {
    forall i | 0 <= i < |steps| :: !steps[i].Disconnect?
  }

  ghost predicate Returns(s: System) {
    exists steps :: StaysConnected(steps) && Run(s, steps).pc == Returned
  }

  lemma {:induction false} StuckStays(s: System, step: Step)
    requires s.pc != Idle && !CanReturn(s) && !step.Disconnect? && (s.closed ==> s.ended)
    ensures var t := Apply(s, step); t.pc != Idle && !CanReturn(t) && (t.closed ==> t.ended)
  {
  }

  lemma {:induction false} StuckForever(s: System, steps: seq<Step>)
    requires s.pc != Idle && !CanReturn(s) && StaysConnected(steps) && (s.closed ==> s.ended)
    ensures var t := Run(s, steps); t.pc != Idle && !CanReturn(t) && (t.closed ==> t.ended)
    decreases |steps|
  {
    hide Apply;
    if steps != [] {
      var init := steps[..|steps| - 1];
      assert forall i | 0 <= i < |init| :: init[i] == steps[i];
      StuckForever(s, init);
      StuckStays(Run(s, init), steps[|steps| - 1]);
    }
  }

  /** A step towards the end of the connection. */
  function Onward(s: System): Step {
    match s.pc
    case Replaying => if s.rest != [] then SendStored else SnapshotSent
    case CheckingState => CheckState
    case Subscribing => Subscribe
    case Live =>
      if !s.ended then End(true)
      else if !s.closed then CloseStreams
      else if s.queue != [] then SendQueued
      else ChannelEnd
    case _ => Heartbeat
  }

  function Stage(pc: Pc): nat {
    match pc
    case Replaying => 4
    case CheckingState => 3
    case Subscribing => 2
    case Live => 1
    case _ => 0
  }

  /** A connection on its way to its end. */
  predicate Nearer(s: System, t: System) {
    && CanReturn(t) && (t.closed ==> t.ended) && (t.pc == Live && !t.open ==> t.closed)
    && (Stage(t.pc) < Stage(s.pc)
        || (t.pc == s.pc == Replaying && |t.rest| < |s.rest|)
        || (t.pc == s.pc == Live && t.rest == s.rest
            && (|t.queue| < |s.queue|
                || (t.queue == s.queue && ((!s.ended && t.ended) || (s.ended && t.ended && !s.closed && t.closed))))))
  }

  lemma {:induction false} OnwardComes(s: System)
    requires CanReturn(s) && s.pc != Returned && (s.closed ==> s.ended) && (s.pc == Live && !s.open ==> s.closed)
    ensures Nearer(s, Apply(s, Onward(s))) && !Onward(s).Disconnect?
  {
  }

  lemma {:induction false} ReturnsFrom(s: System)
    requires CanReturn(s) && (s.closed ==> s.ended) && (s.pc == Live && !s.open ==> s.closed)
    ensures Returns(s)
    decreases Stage(s.pc), |s.rest|, |s.queue|, if s.ended then 0 else 1, if s.closed then 0 else 1
  {
    if s.pc == Returned {
      assert StaysConnected([]) && Run(s, []) == s;
    } else {
      hide Apply, Onward, CanReturn;
      OnwardComes(s);
      var x := Onward(s);
      var t := Apply(s, x);
      ReturnsFrom(t);
      var steps :| StaysConnected(steps) && Run(t, steps).pc == Returned;
      RunCons(s, x, steps);
      assert StaysConnected([x] + steps);
    }
  }

  lemma {:induction false} RunCons(s: System, x: Step, steps: seq<Step>)
    ensures Run(s, [x] + steps) == Run(Apply(s, x), steps)
    decreases |steps|
  {
    hide Apply;
    if steps == [] {
      assert [x] + steps == [x] && [x][..0] == [];
      assert Run(s, []) == s;
    } else {
      var n := |steps| - 1;
      assert ([x] + steps)[..1 + n] == [x] + steps[..n];
      RunCons(s, x, steps[..n]);
    }
  }

  /**
   * In every reachable state of a connection, it can still return exactly under that condition. Otherwise it sends
   * heartbeats until the client hangs up: a subscription made after the dispatcher has closed the streams is never
   * closed, whether the final state was missed by the check or is one that it does not recognise.
   */
  lemma {:induction false} ReturnsIff(s: System, steps: seq<Step>)
    requires Init(s) && Run(s, steps).pc != Idle
    ensures Returns(Run(s, steps)) <==> CanReturn(Run(s, steps))
  {
    hide Run, CanReturn, StaysConnected;
    RunOk(s, steps);
    var t := Run(s, steps);
    if CanReturn(t) {
      ReturnsFrom(t);
    } else {
      forall more | StaysConnected(more) ensures Run(t, more).pc != Returned {
        StuckForever(t, more);
        ReturnedCan(Run(t, more));
      }
    }
  }

  lemma {:induction false} ReturnedCan(s: System)
    ensures s.pc == Returned ==> CanReturn(s)
  {
  }

  lemma {:induction false} RunNothing(s: System)
    ensures Run(s, []) == s
  {
  }

  lemma {:induction false} Then(s: System, steps: seq<Step>, step: Step) returns (t: System)
    ensures t == Apply(Run(s, steps), step) == Run(s, steps + [step])
  {
    t := Apply(Run(s, steps), step);
    assert (steps + [step])[..|steps|] == steps;
  }
}
