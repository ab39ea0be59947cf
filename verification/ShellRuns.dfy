/** A shell session under any sequence of steps: what each attachment sends, and what a client that resumes gets. */
module ShellRuns {
  import opened Seqs
  import opened Bytes
  import opened Framing
  import opened XrMarkers
  import opened XrStreaming
  import opened ShellCommands
  import opened ShellTimeline
  import opened ShellSession

  /** The flushes whose chunk `send` accepted: all but a refused last one. */
  function AcceptedFlushes(a: Attachment): (fs: seq<nat>)
    ensures fs <= a.flushes
  {
    if a.refused && a.flushes != [] then a.flushes[..|a.flushes| - 1] else a.flushes
  }

  /** The flushes follow a schedule from `start`, and `sent` and the command events are what that schedule gives. */
  ghost predicate Follows(a: Attachment, file: seq<byte>) {
    && a.start <= |file| && Schedule(file, a.start, a.flushes)
    && a.sent == SentTo(file, a.start, a.flushes) && a.sent <= a.offset <= |file|
    && a.commands == NoCommands.OnAll(Delivered(file, a.start, a.flushes).markers)
    && (a.refused ==> !a.alive && a.flushes != [])
  }

  /** The accepted chunks tile the log from `start`, and each is rewritten by itself. */
  ghost predicate Accepts(a: Attachment, file: seq<byte>) {
    var fs := AcceptedFlushes(a);
    && a.start <= |file| && Schedule(file, a.start, fs)
    && Tiles(a.accepted, a.start, SentTo(file, a.start, fs))
    && DataOf(a.accepted) == Delivered(file, a.start, fs).clean
  }

  ghost predicate Kept(a: Attachment, file: seq<byte>) {
    Follows(a, file) && Accepts(a, file)
  }

  lemma {:induction false} KeptUnderOutput(a: Attachment, file: seq<byte>, more: seq<byte>)
    requires Kept(a, file)
    ensures Kept(a, file + more)
  {
    hide Schedule, SentTo, Delivered, Tiles, DataOf, Commands.OnAll;
    DeliveredSurvivesOutput(file, more, a.start, a.flushes);
    DeliveredSurvivesOutput(file, more, a.start, AcceptedFlushes(a));
  }

  lemma {:induction false} KeptUnderFlush(a: Attachment, file: seq<byte>, sendOk: bool)
    requires Kept(a, file)
    ensures Kept(Flushed(a, file, sendOk), file)
  {
    hide Schedule, SentTo, Delivered, Tiles, DataOf, Commands.OnAll, Rewrite, FlushPoint;
    var p := FlushPoint(file, a.sent, a.offset);
    if a.alive && p > a.sent {
      var before := Delivered(file, a.start, a.flushes);
      var r := Sending(a, file);
      DeliveredSnoc(file, a.start, a.flushes, a.offset);
      ChunksSnoc(a.accepted, Chunk(a.sent, r.clean, p - a.sent), a.start);
      OnAllInBatches(NoCommands, before.markers, r.markers);
      assert (a.flushes + [a.offset])[..|a.flushes|] == a.flushes;
    }
  }

  lemma {:induction false} KeptAtStart(client: ClientId, start: nat, file: seq<byte>)
    requires start <= |file|
    ensures Kept(Attached(client, start), file)
  {
    NothingDelivered(file, start);
  }

  ghost predicate AllKept(st: ShellState) {
    forall i | 0 <= i < |st.attachments| :: Kept(st.attachments[i], st.file)
  }

  lemma {:induction false} StepKeeps(st: ShellState, step: Step)
    requires AllKept(st)
    ensures AllKept(Apply(st, step))
  {
    hide Kept, Flushed, Appended, AckedByFlush, StartFor, Attached;
    var t := Apply(st, step);
    forall i | 0 <= i < |t.attachments| ensures Kept(t.attachments[i], t.file) {
      match step
      case Output(more) => KeptUnderOutput(st.attachments[i], st.file, more);
      case Attach(client, afterOffset, resume) =>
        if i == |st.attachments| {
          KeptAtStart(client, StartFor(st.file, st.lastAck, client, afterOffset, resume), st.file);
        }
      case Flush(j, sendOk) => KeptUnderFlush(st.attachments[i], st.file, sendOk);
      case Read(j, n) =>
        if i == j && t != st { KeptUnderMove(st.attachments[i], t.attachments[i], st.file); }
      case Detach(j) =>
        if i == j { KeptUnderMove(st.attachments[i], t.attachments[i], st.file); }
      case _ =>
    }
  }

  lemma {:induction false} KeptUnderMove(a: Attachment, b: Attachment, file: seq<byte>)
    requires Kept(a, file)
    requires b == a.(alive := false) || (a.alive && a.offset <= b.offset <= |file| && b == a.(offset := b.offset))
    ensures Kept(b, file)
  {
  }

  lemma {:induction false} RunKeeps(steps: seq<Step>)
    ensures AllKept(Run(steps))
    decreases |steps|
  {
    hide Kept, Apply;
    if steps != [] {
      RunKeeps(steps[..|steps| - 1]);
      StepKeeps(Run(steps[..|steps| - 1]), steps[|steps| - 1]);
    }
  }

  /**
   * In every reachable state, whatever the other attachments and clients do: an attachment's accepted chunks tile
   * the log from its start, and carry the one-pass rewriting of what they tile if and only if no flush of theirs
   * caught the reader inside an introducer.
   */
  lemma {:induction false} AttachmentsTile(steps: seq<Step>, i: nat)
    requires i < |Run(steps).attachments|
    ensures var st := Run(steps);
            var a, fs := st.attachments[i], AcceptedFlushes(st.attachments[i]);
            && a.start <= |st.file| && Schedule(st.file, a.start, fs)
            && Tiles(a.accepted, a.start, SentTo(st.file, a.start, fs))
            && (WellFramed(st.file, a.start) ==>
                  (DataOf(a.accepted) == Rewrite(st.file, a.start, SentTo(st.file, a.start, fs), 0).clean
                   <==> !SomeFlushCutsIntro(st.file, a.start, fs)))
  {
    hide Run, Rewrite, SentTo, Delivered, Schedule, Tiles, DataOf, WellFramed, SomeFlushCutsIntro;
    RunKeeps(steps);
    var st := Run(steps);
    var a := st.attachments[i];
    assert Kept(a, st.file);
    if WellFramed(st.file, a.start) { DeliveredAgainstWhole(st.file, a.start, AcceptedFlushes(a)); }
  }

  /** What one client was sent, over all of its attachments. */
  function ClientChunks(attachments: seq<Attachment>, me: ClientId): seq<Chunk> {
    if attachments == [] then []
    else
      var last := attachments[|attachments| - 1];
      ClientChunks(attachments[..|attachments| - 1], me) + if last.client == me then last.accepted else []
  }

  function ClientFlushes(attachments: seq<Attachment>, me: ClientId): seq<nat> {
    if attachments == [] then []
    else
      var last := attachments[|attachments| - 1];
      ClientFlushes(attachments[..|attachments| - 1], me) + if last.client == me then AcceptedFlushes(last) else []
  }

  function EndOf(chunks: seq<Chunk>): nat {
    if chunks == [] then 0 else chunks[|chunks| - 1].offset + chunks[|chunks| - 1].uncompressedLen
  }

  predicate Away(attachments: seq<Attachment>, me: ClientId) {
    forall i | 0 <= i < |attachments| && attachments[i].client == me :: !attachments[i].alive
  }

  /** A client that attaches only while its last attachment is over, to resume, and acks nothing it was not sent. */
  predicate Honest(st: ShellState, me: ClientId, step: Step) {
    match step
    case Attach(client, afterOffset, resume) => client == me ==> afterOffset == 0 && resume && Away(st.attachments, me)
    case Ack(client, off) => client == me ==> off <= EndOf(ClientChunks(st.attachments, me))
    case _ => true
  }

  predicate Resumes(me: ClientId, steps: seq<Step>) {
    steps != [] ==>
      Resumes(me, steps[..|steps| - 1]) && Honest(Run(steps[..|steps| - 1]), me, steps[|steps| - 1])
  }

  /** The client's stream so far, from the log's first byte to its resume point. */
  ghost predicate Streamed(st: ShellState, me: ClientId) {
    var cs, fs := ClientChunks(st.attachments, me), ClientFlushes(st.attachments, me);
    && Schedule(st.file, 0, fs) && SentTo(st.file, 0, fs) == AckOf(st.lastAck, me)
    && Tiles(cs, 0, AckOf(st.lastAck, me))
    && DataOf(cs) == Delivered(st.file, 0, fs).clean
  }

  /** Only the client's last attachment may be alive, and it stands at the resume point. */
  ghost predicate Current(st: ShellState, me: ClientId) {
    forall i | 0 <= i < |st.attachments| && st.attachments[i].client == me && st.attachments[i].alive ::
      && st.attachments[i].sent == AckOf(st.lastAck, me)
      && (forall j | i < j < |st.attachments| :: st.attachments[j].client != me)
  }

  ghost predicate InStep(st: ShellState, me: ClientId) {
    me != "" && AllKept(st) && Streamed(st, me) && Current(st, me)
  }

  /** What one attachment adds to its client's stream. */
  function Part(a: Attachment): (seq<Chunk>, seq<nat>) {
    (a.accepted, AcceptedFlushes(a))
  }

  /** Replacing an attachment by one that adds the same, or that is somebody else's, changes nothing for `me`. */
  lemma {:induction false} SamePart(attachments: seq<Attachment>, i: nat, a: Attachment, me: ClientId)
    requires i < |attachments| && a.client == attachments[i].client
    requires a.client == me ==> Part(a) == Part(attachments[i])
    ensures ClientChunks(attachments[i := a], me) == ClientChunks(attachments, me)
    ensures ClientFlushes(attachments[i := a], me) == ClientFlushes(attachments, me)
    decreases |attachments|
  {
    hide AcceptedFlushes;
    var n := |attachments| - 1;
    if i < n {
      assert attachments[i := a][..n] == attachments[..n][i := a];
      SamePart(attachments[..n], i, a, me);
    } else {
      assert attachments[i := a][..n] == attachments[..n];
    }
  }

  /** The stream of a client ends with its last attachment. */
  lemma {:induction false} LastPart(attachments: seq<Attachment>, i: nat, me: ClientId)
    requires i < |attachments| && attachments[i].client == me
    requires forall j | i < j < |attachments| :: attachments[j].client != me
    ensures ClientChunks(attachments, me) == ClientChunks(attachments[..i], me) + attachments[i].accepted
    ensures ClientFlushes(attachments, me) == ClientFlushes(attachments[..i], me) + AcceptedFlushes(attachments[i])
    decreases |attachments|
  {
    hide AcceptedFlushes;
    var n := |attachments| - 1;
    if i < n {
      assert attachments[..n][..i] == attachments[..i];
      LastPart(attachments[..n], i, me);
    }
  }

  lemma {:induction false} AttachPart(attachments: seq<Attachment>, client: ClientId, start: nat, me: ClientId)
    ensures ClientChunks(attachments + [Attached(client, start)], me) == ClientChunks(attachments, me)
    ensures ClientFlushes(attachments + [Attached(client, start)], me) == ClientFlushes(attachments, me)
  {
    assert (attachments + [Attached(client, start)])[..|attachments|] == attachments;
  }

  lemma {:induction false} TilesEnd(chunks: seq<Chunk>, to: nat)
    requires Tiles(chunks, 0, to)
    ensures EndOf(chunks) == to
  {
  }

  lemma {:induction false} AckInStep(st: ShellState, me: ClientId, client: ClientId, off: nat)
    requires InStep(st, me) && Honest(st, me, Ack(client, off))
    ensures InStep(Apply(st, Ack(client, off)), me)
  {
    StepKeeps(st, Ack(client, off));
    StreamEnd(st, me);
    hide AllKept, Streamed, Current, ClientChunks;
    SameForClient(st, Apply(st, Ack(client, off)), me);
  }

  lemma {:induction false} StreamEnd(st: ShellState, me: ClientId)
    requires Streamed(st, me)
    ensures EndOf(ClientChunks(st.attachments, me)) == AckOf(st.lastAck, me) <= |st.file|
  {
    hide Schedule, Delivered, Tiles, DataOf, ClientChunks, ClientFlushes;
    TilesEnd(ClientChunks(st.attachments, me), AckOf(st.lastAck, me));
  }

  lemma {:induction false} SameForClient(st: ShellState, t: ShellState, me: ClientId)
    requires Streamed(st, me) && Current(st, me)
    requires t.file == st.file && t.attachments == st.attachments && AckOf(t.lastAck, me) == AckOf(st.lastAck, me)
    ensures Streamed(t, me) && Current(t, me)
  {
    hide Schedule, SentTo, Delivered, Tiles, DataOf, ClientChunks, ClientFlushes;
  }

  lemma {:induction false} ResumeStart(st: ShellState, me: ClientId)
    requires InStep(st, me)
    ensures StartFor(st.file, st.lastAck, me, 0, true) == AckOf(st.lastAck, me)
  {
    StreamEnd(st, me);
    hide AllKept, Streamed, Current;
  }

  lemma {:induction false} AttachInStep(st: ShellState, me: ClientId, client: ClientId, afterOffset: nat, resume: bool)
    requires InStep(st, me) && Honest(st, me, Attach(client, afterOffset, resume))
    ensures InStep(Apply(st, Attach(client, afterOffset, resume)), me)
  {
    StepKeeps(st, Attach(client, afterOffset, resume));
    var start := StartFor(st.file, st.lastAck, client, afterOffset, resume);
    if client == me { ResumeStart(st, me); }
    hide AllKept, StartFor;
    AttachStreamed(st, me, client, start);
    AttachCurrent(st, me, client, start);
  }

  lemma {:induction false} AttachStreamed(st: ShellState, me: ClientId, client: ClientId, start: nat)
    requires Streamed(st, me)
    ensures Streamed(st.(attachments := st.attachments + [Attached(client, start)]), me)
  {
    hide Schedule, SentTo, Delivered, Tiles, DataOf, ClientChunks, ClientFlushes;
    AttachPart(st.attachments, client, start, me);
  }

  lemma {:induction false} AttachCurrent(st: ShellState, me: ClientId, client: ClientId, start: nat)
    requires Current(st, me) && (client == me ==> Away(st.attachments, me) && start == AckOf(st.lastAck, me))
    ensures Current(st.(attachments := st.attachments + [Attached(client, start)]), me)
  {
  }

  lemma {:induction false} OutputInStep(st: ShellState, me: ClientId, more: seq<byte>)
    requires InStep(st, me)
    ensures InStep(Apply(st, Output(more)), me)
  {
    StepKeeps(st, Output(more));
    hide AllKept, Schedule, SentTo, Delivered, Tiles, DataOf, ClientChunks, ClientFlushes;
    DeliveredSurvivesOutput(st.file, more, 0, ClientFlushes(st.attachments, me));
  }

  /** A step that replaces one attachment and adds nothing to the client's stream. */
  lemma {:induction false} ReplaceInStep(st: ShellState, t: ShellState, me: ClientId, i: nat, a: Attachment)
    requires InStep(st, me) && AllKept(t) && i < |st.attachments|
    requires t.file == st.file && t.attachments == st.attachments[i := a]
             && AckOf(t.lastAck, me) == AckOf(st.lastAck, me)
    requires a.client == st.attachments[i].client && (a.client == me ==> Part(a) == Part(st.attachments[i]))
    requires a.client == me && a.alive ==> st.attachments[i].alive && a.sent == st.attachments[i].sent
    ensures InStep(t, me)
  {
    hide AllKept, Schedule, SentTo, Delivered, Tiles, DataOf, ClientChunks, ClientFlushes, AcceptedFlushes;
    SamePart(st.attachments, i, a, me);
  }

  lemma {:induction false} FlushedShape(a: Attachment, file: seq<byte>)
    requires a.alive && InFile(a, file) && FlushPoint(file, a.sent, a.offset) > a.sent
    ensures var b := Flushed(a, file, true);
            && b.client == a.client && !b.refused
            && b.flushes == a.flushes + [a.offset] && b.flushes[..|b.flushes| - 1] == a.flushes
            && b.accepted
               == a.accepted + [Chunk(a.sent, Sending(a, file).clean, FlushPoint(file, a.sent, a.offset) - a.sent)]
            && b.accepted[..|b.accepted| - 1] == a.accepted
  {
    hide Rewrite, FlushPoint;
  }

  lemma {:induction false} SendStreamed(st: ShellState, t: ShellState, me: ClientId, i: nat)
    requires Streamed(st, me) && i < |st.attachments| && st.attachments[i].client == me
    requires forall j | i < j < |st.attachments| :: st.attachments[j].client != me
    requires var a := st.attachments[i]; a.alive && !a.refused && a.sent == AckOf(st.lastAck, me) && InFile(a, st.file)
    requires var a := st.attachments[i]; FlushPoint(st.file, a.sent, a.offset) > a.sent
    requires t.file == st.file && t.attachments == st.attachments[i := Flushed(st.attachments[i], st.file, true)]
    requires AckOf(t.lastAck, me) == FlushPoint(st.file, st.attachments[i].sent, st.attachments[i].offset)
    ensures Streamed(t, me)
  {
    hide Schedule, SentTo, Delivered, Tiles, DataOf, ClientChunks, ClientFlushes, Rewrite, FlushPoint, Flushed;
    var a := st.attachments[i];
    FlushedShape(a, st.file);
    OneMoreChunk(st.attachments, i, Flushed(a, st.file, true), me);
    StreamGrows(st.file, ClientChunks(st.attachments, me), ClientFlushes(st.attachments, me), a.offset);
  }

  /** A chunk of the client's own that is accepted. */
  lemma {:induction false} SendInStep(st: ShellState, me: ClientId, i: nat)
    requires InStep(st, me) && i < |st.attachments| && st.attachments[i].client == me && st.attachments[i].alive
    requires InFile(st.attachments[i], st.file)
    requires FlushPoint(st.file, st.attachments[i].sent, st.attachments[i].offset) > st.attachments[i].sent
    ensures InStep(Apply(st, Flush(i, true)), me)
  {
    StepKeeps(st, Flush(i, true));
    assert Kept(st.attachments[i], st.file) && !st.attachments[i].refused;
    SendMoves(st, me, i);
    hide AllKept, Kept, Streamed, Flushed, FlushPoint, Apply;
    SendStreamed(st, Apply(st, Flush(i, true)), me, i);
  }

  lemma {:induction false} SendMoves(st: ShellState, me: ClientId, i: nat)
    requires me != "" && Current(st, me) && i < |st.attachments|
    requires st.attachments[i].client == me && st.attachments[i].alive && InFile(st.attachments[i], st.file)
    requires FlushPoint(st.file, st.attachments[i].sent, st.attachments[i].offset) > st.attachments[i].sent
    ensures var t := Apply(st, Flush(i, true));
            var p := FlushPoint(st.file, st.attachments[i].sent, st.attachments[i].offset);
            && t.file == st.file && t.attachments == st.attachments[i := Flushed(st.attachments[i], st.file, true)]
            && AckOf(st.lastAck, me) == st.attachments[i].sent && AckOf(t.lastAck, me) == p && Current(t, me)
  {
    hide Rewrite, FlushPoint, Commands.OnAll;
  }

  /** The chunk that a client's last attachment adds to its stream. */
  lemma {:induction false} OneMoreChunk(attachments: seq<Attachment>, i: nat, b: Attachment, me: ClientId)
    requires i < |attachments| && attachments[i].client == me == b.client && !attachments[i].refused && !b.refused
    requires forall j | i < j < |attachments| :: attachments[j].client != me
    requires |b.flushes| > 0 && b.flushes[..|b.flushes| - 1] == attachments[i].flushes
    requires |b.accepted| > 0 && b.accepted[..|b.accepted| - 1] == attachments[i].accepted
    ensures ClientChunks(attachments[i := b], me) == ClientChunks(attachments, me) + [b.accepted[|b.accepted| - 1]]
    ensures ClientFlushes(attachments[i := b], me) == ClientFlushes(attachments, me) + [b.flushes[|b.flushes| - 1]]
  {
    hide ClientChunks, ClientFlushes;
    var after := attachments[i := b];
    LastPart(attachments, i, me);
    LastPart(after, i, me);
    assert after[..i] == attachments[..i];
    assert b.accepted == attachments[i].accepted + [b.accepted[|b.accepted| - 1]];
    assert b.flushes == attachments[i].flushes + [b.flushes[|b.flushes| - 1]];
  }

  lemma {:induction false} StreamGrows(file: seq<byte>, cs: seq<Chunk>, fs: seq<nat>, r: nat)
    requires Schedule(file, 0, fs) && SentTo(file, 0, fs) <= r <= |file|
    requires Tiles(cs, 0, SentTo(file, 0, fs)) && DataOf(cs) == Delivered(file, 0, fs).clean
    requires FlushPoint(file, SentTo(file, 0, fs), r) > SentTo(file, 0, fs)
    ensures var e := SentTo(file, 0, fs);
            var p := FlushPoint(file, e, r);
            var c := Chunk(e, Rewrite(file, e, p, 0).clean, p - e);
            && Schedule(file, 0, fs + [r]) && SentTo(file, 0, fs + [r]) == p
            && Tiles(cs + [c], 0, p) && DataOf(cs + [c]) == Delivered(file, 0, fs + [r]).clean
  {
    hide Schedule, SentTo, Delivered, Tiles, DataOf, Rewrite, FlushPoint;
    var e := SentTo(file, 0, fs);
    var p := FlushPoint(file, e, r);
    DeliveredSnoc(file, 0, fs, r);
    ChunksSnoc(cs, Chunk(e, Rewrite(file, e, p, 0).clean, p - e), 0);
  }

  /** A flush that sends nothing of the client's. */
  lemma {:induction false} NoPart(
    a: Attachment, file: seq<byte>, lastAck: map<ClientId, nat>, me: ClientId, sendOk: bool)
    requires Kept(a, file)
    requires !(a.client == me && a.alive && FlushPoint(file, a.sent, a.offset) > a.sent && sendOk)
    ensures var b := Flushed(a, file, sendOk);
            && b.client == a.client
            && (a.client == me ==> Part(b) == Part(a) && (b.alive ==> a.alive && b.sent == a.sent))
            && AckOf(AckedByFlush(lastAck, a, file, sendOk), me) == AckOf(lastAck, me)
  {
    hide Schedule, SentTo, Delivered, Tiles, DataOf, Rewrite, FlushPoint, Commands.OnAll;
    assert (a.flushes + [a.offset])[..|a.flushes|] == a.flushes;
  }

  lemma {:induction false} FlushInStep(st: ShellState, me: ClientId, i: nat, sendOk: bool)
    requires InStep(st, me)
    ensures InStep(Apply(st, Flush(i, sendOk)), me)
  {
    if i < |st.attachments| && InFile(st.attachments[i], st.file) {
      var a := st.attachments[i];
      if a.client == me && a.alive && FlushPoint(st.file, a.sent, a.offset) > a.sent && sendOk {
        SendInStep(st, me, i);
      } else {
        StepKeeps(st, Flush(i, sendOk));
        NoPart(a, st.file, st.lastAck, me, sendOk);
        hide AllKept, Kept, Streamed, Current, Flushed, Appended, AckedByFlush;
        ReplaceInStep(st, Apply(st, Flush(i, sendOk)), me, i, Flushed(a, st.file, sendOk));
      }
    }
  }

  lemma {:induction false} StepInStep(st: ShellState, me: ClientId, step: Step)
    requires InStep(st, me) && Honest(st, me, step)
    ensures InStep(Apply(st, step), me)
  {
    assert AllKept(st);
    hide InStep, Honest, Apply, AllKept;
    StepKeeps(st, step);
    match step
    case Output(more) => OutputInStep(st, me, more);
    case Ran(rec) => RanInStep(st, me, rec);
    case Attach(client, afterOffset, resume) => AttachInStep(st, me, client, afterOffset, resume);
    case Read(i, n) => ReadInStep(st, me, i, n);
    case Flush(i, sendOk) => FlushInStep(st, me, i, sendOk);
    case Ack(client, off) => AckInStep(st, me, client, off);
    case Detach(i) => DetachInStep(st, me, i);
  }

  lemma {:induction false} ReadInStep(st: ShellState, me: ClientId, i: nat, n: nat)
    requires InStep(st, me) && AllKept(Apply(st, Read(i, n)))
    ensures InStep(Apply(st, Read(i, n)), me)
  {
    hide InStep, AllKept;
    if i < |st.attachments| && CanRead(st.attachments[i], st.file, n) {
      var a := st.attachments[i].(offset := st.attachments[i].offset + n);
      assert Apply(st, Read(i, n)) == st.(attachments := st.attachments[i := a]);
      hide Apply;
      MoveInStep(st, Apply(st, Read(i, n)), me, i, a);
    }
  }

  lemma {:induction false} DetachInStep(st: ShellState, me: ClientId, i: nat)
    requires InStep(st, me) && AllKept(Apply(st, Detach(i)))
    ensures InStep(Apply(st, Detach(i)), me)
  {
    hide InStep, AllKept;
    if i < |st.attachments| {
      var a := st.attachments[i].(alive := false);
      assert Apply(st, Detach(i)) == st.(attachments := st.attachments[i := a]);
      hide Apply;
      MoveInStep(st, Apply(st, Detach(i)), me, i, a);
    }
  }

  lemma {:induction false} RanInStep(st: ShellState, me: ClientId, rec: CommandRecord)
    requires InStep(st, me)
    ensures InStep(Apply(st, Ran(rec)), me)
  {
    hide Kept, Schedule, SentTo, Delivered, Tiles, DataOf, ClientChunks, ClientFlushes;
  }

  lemma {:induction false} MoveInStep(st: ShellState, t: ShellState, me: ClientId, i: nat, a: Attachment)
    requires InStep(st, me) && AllKept(t) && i < |st.attachments|
    requires t == st.(attachments := st.attachments[i := a])
    requires var b := st.attachments[i]; a == b.(offset := a.offset) || a == b.(alive := false)
    ensures InStep(t, me)
  {
    hide InStep, AllKept;
    ReplaceInStep(st, t, me, i, a);
  }

  lemma {:induction false} RunInStep(me: ClientId, steps: seq<Step>)
    requires me != "" && Resumes(me, steps)
    ensures InStep(Run(steps), me)
    decreases |steps|
  {
    hide Apply, Honest, AllKept, Streamed, Current;
    if steps == [] {
      NothingStreamed(me);
    } else {
      RunInStep(me, steps[..|steps| - 1]);
      StepInStep(Run(steps[..|steps| - 1]), me, steps[|steps| - 1]);
    }
  }

  lemma {:induction false} NothingStreamed(me: ClientId)
    requires me != ""
    ensures InStep(NoShell, me)
  {
    NothingDelivered([], 0);
  }

  /**
   * A client that always resumes from its last ack, over any number of attachments and whatever other clients do
   * in between: its chunks tile the log from the first byte to its resume point, and carry the one-pass rewriting
   * of it if and only if no flush caught the reader inside an introducer.
   */
  lemma {:induction false} ResumingTiles(me: ClientId, steps: seq<Step>)
    requires me != "" && Resumes(me, steps)
    ensures var st := Run(steps);
            var cs, fs, e := ClientChunks(st.attachments, me), ClientFlushes(st.attachments, me), AckOf(st.lastAck, me);
            && Schedule(st.file, 0, fs) && SentTo(st.file, 0, fs) == e && Tiles(cs, 0, e)
            && (WellFramed(st.file, 0) ==>
                  (DataOf(cs) == Rewrite(st.file, 0, e, 0).clean <==> !SomeFlushCutsIntro(st.file, 0, fs)))
  {
    hide Run, Resumes, Rewrite, SentTo, Delivered, Schedule, Tiles, DataOf, WellFramed, SomeFlushCutsIntro;
    hide AllKept, Current;
    RunInStep(me, steps);
    var st := Run(steps);
    if WellFramed(st.file, 0) { DeliveredAgainstWhole(st.file, 0, ClientFlushes(st.attachments, me)); }
  }

  /**
   * An ack beyond what the client was sent moves its resume point, and only such an ack does. The next
   * attachment that resumes starts there, or at the end of the log.
   */
  lemma {:induction false} ForeignAckSkips(me: ClientId, steps: seq<Step>, off: nat)
    requires me != "" && Resumes(me, steps)
    ensures var st := Run(steps);
            var e := EndOf(ClientChunks(st.attachments, me));
            var acked := Run(steps + [Ack(me, off)]);
            var next := Run(steps + [Ack(me, off)] + [Attach(me, 0, true)]);
            && (AckOf(acked.lastAck, me) == e <==> off <= e)
            && next.attachments[|next.attachments| - 1].start
               == (if off <= e then e else if off <= |st.file| then off else |st.file|)
  {
    hide Run, AllKept, Current, Schedule, SentTo, Delivered, Tiles, DataOf;
    RunInStep(me, steps);
    var st := Run(steps);
    TilesEnd(ClientChunks(st.attachments, me), AckOf(st.lastAck, me));
    RunThen(steps, Ack(me, off));
    RunThen(steps + [Ack(me, off)], Attach(me, 0, true));
  }

  lemma {:induction false} RunThen(steps: seq<Step>, step: Step)
    ensures Run(steps + [step]) == Apply(Run(steps), step)
  {
    assert (steps + [step])[..|steps|] == steps;
  }

  /** The objects of a session stand for the plain state `st`. */
  ghost predicate Refines(shell: Shell, loops: seq<SendLoop>, st: ShellState)
    reads shell, shell.timeline, loops
  {
    && shell.file == st.file && shell.lastAck == st.lastAck
    && shell.timeline.Whole() && shell.timeline.Records() == st.timeline
    && |loops| == |st.attachments|
    && (forall i | 0 <= i < |loops| ::
          loops[i].shell == shell && loops[i].Valid() && loops[i].View() == st.attachments[i])
    && (forall i, j | 0 <= i < j < |loops| :: loops[i] != loops[j])
  }

  lemma {:induction false} NothingToFlush(a: Attachment, file: seq<byte>, lastAck: map<ClientId, nat>, sendOk: bool)
    requires InFile(a, file) && !a.alive
    ensures Flushed(a, file, sendOk) == a && Appended(a, file) == []
            && AckedByFlush(lastAck, a, file, sendOk) == lastAck
  {
  }

  method Do(shell: Shell, loops: seq<SendLoop>, step: Step, ghost st: ShellState) returns (loops': seq<SendLoop>)
    requires Refines(shell, loops, st)
    modifies shell, shell.timeline, loops
    ensures Refines(shell, loops', Apply(st, step))
    ensures forall l | l in loops' :: l in loops || fresh(l)
  {
    hide Attached, StartFor, Acked, Timeline.Valid, Timeline.Records, Paired;
    loops' := loops;
    match step {
      case Output(more) =>
        shell.Output(more);
      case Ran(rec) =>
        shell.timeline.Append(rec);
      case Attach(client, afterOffset, resume) =>
        var loop := new SendLoop(shell, client, afterOffset, resume);
        loops' := loops + [loop];
      case Ack(client, off) =>
        shell.SetLastAck(client, off);
      case _ =>
        DoLoop(shell, loops, step, st);
    }
  }

  /** The steps of one send loop. */
  method DoLoop(shell: Shell, loops: seq<SendLoop>, step: Step, ghost st: ShellState)
    requires Refines(shell, loops, st) && (step.Read? || step.Flush? || step.Detach?)
    modifies shell, shell.timeline, loops
    ensures Refines(shell, loops, Apply(st, step))
  {
    hide Flushed, Appended, AckedByFlush, Timeline.Whole, Timeline.Records;
    if step.i >= |loops| { return; }
    var loop := loops[step.i];
    ghost var a := st.attachments[step.i];
    assert loop.View() == a;
    match step {
      case Read(i, n) =>
        if loop.alive && 0 < n <= READ_BUFFER && loop.offset + n <= |shell.file| { loop.Read(n); }
      case Flush(i, sendOk) =>
        if loop.alive {
          var _ := loop.Flush(sendOk);
        } else {
          NothingToFlush(a, st.file, st.lastAck, sendOk);
        }
      case Detach(i) =>
        loop.Detach();
    }
  }

  /** Any sequence of steps, taken by the objects: they end up in the state that the plain machine runs to. */
  method Follow(codec: Codec<CommandRecord>, steps: seq<Step>) returns (shell: Shell, loops: seq<SendLoop>)
    requires codec.Faithful() && codec.Sized()
    ensures Refines(shell, loops, Run(steps))
  {
    hide Run, Apply;
    shell := new Shell(codec);
    loops := [];
    RunNothing();
    var i := 0;
    while i < |steps|
      invariant 0 <= i <= |steps| && Refines(shell, loops, Run(steps[..i]))
      invariant fresh(shell) && fresh(shell.timeline) && forall l | l in loops :: fresh(l)
    {
      RunSnoc(steps, i);
      loops := Do(shell, loops, steps[i], Run(steps[..i]));
      i := i + 1;
    }
    assert steps[..i] == steps;
  }

  lemma {:induction false} RunNothing()
    ensures Run([]) == NoShell
  {
  }
}
