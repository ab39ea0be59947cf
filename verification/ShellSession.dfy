/**
 * A durable shell session: its append-only log, the resume points of its clients, its timeline, and any number of
 * attachments, as a machine of plain values and as the objects that refine it.
 */
module ShellSession {
  import opened Seqs
  import opened Bytes
  import opened XrMarkers
  import opened XrStreaming
  import opened ShellCommands
  import opened ShellTimeline
  import opened Framing

  type ClientId = string

  const READ_BUFFER := 256 * 1024

  datatype Chunk = Chunk(offset: nat, data: seq<byte>, uncompressedLen: nat)

  /** The intervals [offset, offset + uncompressedLen) cover [from, to) with no gap and no overlap. */
  ghost predicate Tiles(chunks: seq<Chunk>, from: nat, to: nat) {
    if chunks == [] then from == to
    else
      var last := chunks[|chunks| - 1];
      last.uncompressedLen > 0 && last.offset + last.uncompressedLen == to
      && Tiles(chunks[..|chunks| - 1], from, last.offset)
  }

  function DataOf(chunks: seq<Chunk>): seq<byte> {
    if chunks == [] then [] else DataOf(chunks[..|chunks| - 1]) + chunks[|chunks| - 1].data
  }

  /** `s` holds the bytes of `b` from `off` on. */
  ghost predicate Window(s: seq<byte>, b: seq<byte>, off: nat) {
    off + |s| <= |b| && forall i | 0 <= i < |s| :: s[i] == b[off + i]
  }

  lemma {:induction false} SameIntros(s: seq<byte>, b: seq<byte>, off: nat, j: int)
    requires Window(s, b, off) && 0 <= j <= |s| - INTRO_LEN
    ensures IntroAt(s, j) <==> IntroAt(b, off + j)
  {
    assert s[j] == b[off + j];
  }

  lemma {:induction false} SameSearches(s: seq<byte>, b: seq<byte>, off: nat, lo: nat, hi: nat)
    requires Window(s, b, off) && lo <= hi <= |s|
    ensures IndexIntro(b, off + lo, off + hi) == var j := IndexIntro(s, lo, hi); if j == -1 then -1 else off + j
    ensures LastIntro(b, off + lo, off + hi) == var j := LastIntro(s, lo, hi); if j == -1 then -1 else off + j
    ensures IndexBel(b, off + lo, off + hi) == var k := IndexBel(s, lo, hi); if k == -1 then -1 else off + k
  {
    hide IntroAt, IndexIntro, LastIntro, IndexBel;
    forall j | lo <= j <= hi - INTRO_LEN ensures IntroAt(s, j) <==> IntroAt(b, off + j) { SameIntros(s, b, off, j); }
    var j, j' := IndexIntro(s, lo, hi), IndexIntro(b, off + lo, off + hi);
    if j' != -1 { assert IntroAt(s, j' - off); }
    var l, l' := LastIntro(s, lo, hi), LastIntro(b, off + lo, off + hi);
    if l' != -1 { assert IntroAt(s, l' - off); }
    var k, k' := IndexBel(s, lo, hi), IndexBel(b, off + lo, off + hi);
    if k' != -1 { assert s[k' - off] == BEL; }
  }

  lemma {:induction false} SameFrameMarkers(s: seq<byte>, b: seq<byte>, off: nat, j: nat, k: nat, base: nat)
    requires Window(s, b, off) && j + INTRO_LEN <= k < |s|
    ensures FrameMarkers(s, j, k, base + off) == FrameMarkers(b, off + j, off + k, base)
  {
    hide ParsePayload;
    assert s[j + INTRO_LEN..k] == b[off + j + INTRO_LEN..off + k];
  }

  lemma {:induction false} SameBytes(s: seq<byte>, b: seq<byte>, off: nat, lo: nat, hi: nat)
    requires Window(s, b, off) && lo <= hi <= |s|
    ensures off + |s| <= |b| && s[lo..hi] == b[off + lo..off + hi]
  {
  }

  /** Rewriting a buffer that holds a stretch of the log is rewriting that stretch of the log. */
  lemma {:induction false} SameRewrite(s: seq<byte>, b: seq<byte>, off: nat, lo: nat, hi: nat, base: nat)
    requires Window(s, b, off) && lo <= hi <= |s|
    ensures Rewrite(s, lo, hi, base + off) == Rewrite(b, off + lo, off + hi, base)
    decreases hi - lo
  {
    hide Rewrite, FrameMarkers, IntroAt, IndexIntro, LastIntro, IndexBel;
    assert off + |s| <= |b|;
    hide Window;
    RewriteUnrolled(s, lo, hi, base + off);
    RewriteUnrolled(b, off + lo, off + hi, base);
    SameBytes(s, b, off, lo, hi);
    SameSearches(s, b, off, lo, hi);
    var j := IndexIntro(s, lo, hi);
    if j != -1 {
      SameSearches(s, b, off, j, hi);
      var k := IndexBel(s, j, hi);
      if k != -1 {
        SameBytes(s, b, off, lo, j);
        SameFrameMarkers(s, b, off, j, k, base);
        SameRewrite(s, b, off, k + 1, hi, base);
      }
    }
  }

  lemma {:induction false} SameFlushPoint(s: seq<byte>, b: seq<byte>, off: nat, lo: nat, hi: nat)
    requires Window(s, b, off) && lo <= hi <= |s|
    ensures FlushPoint(b, off + lo, off + hi) == off + FlushPoint(s, lo, hi)
  {
    hide IntroAt, IndexIntro, LastIntro, IndexBel;
    SameSearches(s, b, off, lo, hi);
    var last := LastIntro(s, lo, hi);
    if last != -1 { SameSearches(s, b, off, last, hi); }
  }

  /** Output that arrives later does not change what has been sent. */
  lemma {:induction false} DeliveredSurvivesOutput(b: seq<byte>, more: seq<byte>, lo: nat, flushes: seq<nat>)
    requires lo <= |b| && Schedule(b, lo, flushes)
    ensures Schedule(b + more, lo, flushes)
    ensures SentTo(b + more, lo, flushes) == SentTo(b, lo, flushes)
    ensures Delivered(b + more, lo, flushes) == Delivered(b, lo, flushes)
    decreases |flushes|
  {
    hide Rewrite, FlushPoint;
    if flushes != [] {
      var p := FlushPoint(b, lo, flushes[0]);
      SameFlushPoint(b, b + more, 0, lo, flushes[0]);
      SameRewrite(b, b + more, 0, lo, p, 0);
      DeliveredSurvivesOutput(b, more, p, flushes[1..]);
    }
  }

  lemma {:induction false} NothingDelivered(b: seq<byte>, lo: nat)
    requires lo <= |b|
    ensures Schedule(b, lo, []) && SentTo(b, lo, []) == lo && Delivered(b, lo, []) == Rewritten([], [])
    ensures Tiles([], lo, lo) && DataOf([]) == []
  {
  }

  /** The first flush of a stream, and the rest of it. */
  lemma {:induction false} DeliveredCons(b: seq<byte>, lo: nat, flushes: seq<nat>)
    requires flushes != [] && lo <= flushes[0] <= |b|
    ensures var p := FlushPoint(b, lo, flushes[0]);
            && (Schedule(b, lo, flushes) <==> Schedule(b, p, flushes[1..]))
            && (Schedule(b, lo, flushes) ==>
                  && SentTo(b, lo, flushes) == SentTo(b, p, flushes[1..])
                  && Delivered(b, lo, flushes) == Rewrite(b, lo, p, 0).Then(Delivered(b, p, flushes[1..])))
  {
    hide Rewrite, FlushPoint;
  }

  /** One more flush sends one more chunk. */
  lemma {:induction false} DeliveredSnoc(b: seq<byte>, lo: nat, flushes: seq<nat>, r: nat)
    requires lo <= |b| && Schedule(b, lo, flushes) && SentTo(b, lo, flushes) <= r <= |b|
    ensures Schedule(b, lo, flushes + [r])
    ensures var e := SentTo(b, lo, flushes);
            var p := FlushPoint(b, e, r);
            && SentTo(b, lo, flushes + [r]) == p
            && Delivered(b, lo, flushes + [r]) == Delivered(b, lo, flushes).Then(Rewrite(b, e, p, 0))
    decreases |flushes|
  {
    hide Rewrite, FlushPoint, SentTo, Delivered;
    var all := flushes + [r];
    if flushes == [] {
      assert all[1..] == [];
      NothingDelivered(b, lo);
      var p := FlushPoint(b, lo, r);
      NothingDelivered(b, p);
      DeliveredCons(b, lo, all);
      var only := Rewrite(b, lo, p, 0);
      assert only.Then(Rewritten([], [])) == only == Rewritten([], []).Then(only);
    } else {
      var p0 := FlushPoint(b, lo, flushes[0]);
      var rest := flushes[1..];
      DeliveredCons(b, lo, flushes);
      assert all[0] == flushes[0] && all[1..] == rest + [r];
      DeliveredSnoc(b, p0, rest, r);
      DeliveredCons(b, lo, all);
      var e := SentTo(b, p0, rest);
      Rewrite(b, lo, p0, 0).ThenAssociates(Delivered(b, p0, rest), Rewrite(b, e, FlushPoint(b, e, r), 0));
    }
  }

  lemma {:induction false} ChunksSnoc(chunks: seq<Chunk>, c: Chunk, from: nat)
    requires c.uncompressedLen > 0 && Tiles(chunks, from, c.offset)
    ensures Tiles(chunks + [c], from, c.offset + c.uncompressedLen)
    ensures DataOf(chunks + [c]) == DataOf(chunks) + c.data
  {
    assert (chunks + [c])[..|chunks|] == chunks;
  }

  /** One AttachShell call: where it started, what its send loop has sent and read, and what `send` accepted of it. */
  datatype Attachment = Attachment(
    client: ClientId, start: nat, alive: bool, sent: nat, offset: nat, commands: Commands,
    /* the read positions of the flushes that had something to send, and whether the last of them was refused */
    flushes: seq<nat>, refused: bool,
    accepted: seq<Chunk>)

  datatype ShellState = ShellState(
    file: seq<byte>, lastAck: map<ClientId, nat>, timeline: seq<CommandRecord>, attachments: seq<Attachment>)

  const NoShell := ShellState([], map[], [], [])

  /**
   * Output is the shell's, Ran a run request's own record, Read and Flush a send loop's. `sendOk` is the answer of
   * `send` to the chunk.
   */
  datatype Step =
    | Output(more: seq<byte>)
    | Ran(rec: CommandRecord)
    | Attach(client: ClientId, afterOffset: nat, resume: bool)
    | Read(i: nat, n: nat)
    | Flush(i: nat, sendOk: bool)
    | Ack(client: ClientId, off: nat)
    | Detach(i: nat)

  function AckOf(lastAck: map<ClientId, nat>, client: ClientId): nat {
    if client in lastAck then lastAck[client] else 0
  }

  /** A resume point never moves back, and the empty client has none. */
  function Acked(lastAck: map<ClientId, nat>, client: ClientId, off: nat): map<ClientId, nat> {
    if client != "" && off > AckOf(lastAck, client) then lastAck[client := off] else lastAck
  }

  /** Where an attachment starts: a client that asks to resume gets its last ack; nobody starts past the end. */
  function StartFor(
    file: seq<byte>, lastAck: map<ClientId, nat>, client: ClientId, afterOffset: nat, resume: bool): (start: nat)
    ensures start <= |file|
  {
    var resumes := afterOffset == 0 && resume && client != "" && client in lastAck;
    var wanted := if resumes then lastAck[client] else afterOffset;
    if wanted > |file| then |file| else wanted
  }

  function Attached(client: ClientId, start: nat): Attachment {
    Attachment(client, start, true, start, start, NoCommands, [], false, [])
  }

  predicate InFile(a: Attachment, file: seq<byte>) {
    a.sent <= a.offset <= |file|
  }

  function CanRead(a: Attachment, file: seq<byte>, n: nat): bool {
    a.alive && 0 < n <= READ_BUFFER && a.offset + n <= |file|
  }

  /** The rewriting of what a flush of `a` sends. */
  function Sending(a: Attachment, file: seq<byte>): Rewritten
    requires InFile(a, file)
  {
    Rewrite(file, a.sent, FlushPoint(file, a.sent, a.offset), 0)
  }

  /** An attachment after a flush. Command events go out before the chunk, whether or not `send` then accepts it. */
  function Flushed(a: Attachment, file: seq<byte>, sendOk: bool): Attachment
    requires InFile(a, file)
  {
    var p := FlushPoint(file, a.sent, a.offset);
    if !a.alive || p == a.sent then a
    else
      var r := Sending(a, file);
      a.(alive := sendOk, refused := !sendOk, sent := p, commands := a.commands.OnAll(r.markers),
         flushes := a.flushes + [a.offset],
         accepted := if sendOk then a.accepted + [Chunk(a.sent, r.clean, p - a.sent)] else a.accepted)
  }

  /** The records that the markers of one flush complete. */
  function Completing(c: Commands, ms: seq<Marker>): seq<CommandRecord>
    decreases |ms|
  {
    if ms == [] then [] else CompletedOf(c.On(ms[0]).events[|c.events|]) + Completing(c.On(ms[0]), ms[1..])
  }

  lemma {:induction false} OneMarker(c: Commands, ms: seq<Marker>, i: nat)
    requires i < |ms|
    ensures var d := c.On(ms[i]);
            && d.events == c.events + [d.events[|c.events|]]
            && c.OnAll(ms[i..]) == d.OnAll(ms[i + 1..])
            && Completing(c, ms[i..]) == CompletedOf(d.events[|c.events|]) + Completing(d, ms[i + 1..])
  {
    assert ms[i..][0] == ms[i] && ms[i..][1..] == ms[i + 1..];
  }

  lemma {:induction false} NoMarkers(c: Commands, ms: seq<Marker>)
    requires ms == []
    ensures c.OnAll(ms) == c && Completing(c, ms) == []
  {
  }

  function Appended(a: Attachment, file: seq<byte>): seq<CommandRecord>
    requires InFile(a, file)
  {
    if a.alive && FlushPoint(file, a.sent, a.offset) > a.sent
    then Completing(a.commands, Sending(a, file).markers)
    else []
  }

  function AckedByFlush(lastAck: map<ClientId, nat>, a: Attachment, file: seq<byte>, sendOk: bool): map<ClientId, nat>
    requires InFile(a, file)
  {
    var p := FlushPoint(file, a.sent, a.offset);
    if a.alive && p > a.sent && sendOk then Acked(lastAck, a.client, p) else lastAck
  }

  /** A step that is not possible leaves everything as it is. */
  function Apply(st: ShellState, step: Step): ShellState {
    match step
    case Output(more) => st.(file := st.file + more)
    case Ran(rec) => st.(timeline := st.timeline + [rec])
    case Attach(client, afterOffset, resume) =>
      var start := StartFor(st.file, st.lastAck, client, afterOffset, resume);
      st.(attachments := st.attachments + [Attached(client, start)])
    case Read(i, n) =>
      if i < |st.attachments| && CanRead(st.attachments[i], st.file, n)
      then st.(attachments := st.attachments[i := st.attachments[i].(offset := st.attachments[i].offset + n)])
      else st
    case Flush(i, sendOk) =>
      if i < |st.attachments| && InFile(st.attachments[i], st.file) then
        var a := st.attachments[i];
        st.(attachments := st.attachments[i := Flushed(a, st.file, sendOk)],
            timeline := st.timeline + Appended(a, st.file),
            lastAck := AckedByFlush(st.lastAck, a, st.file, sendOk))
      else st
    case Ack(client, off) => st.(lastAck := Acked(st.lastAck, client, off))
    case Detach(i) =>
      if i < |st.attachments| then st.(attachments := st.attachments[i := st.attachments[i].(alive := false)]) else st
  }

  function Run(steps: seq<Step>): ShellState {
    if steps == [] then NoShell else Apply(Run(steps[..|steps| - 1]), steps[|steps| - 1])
  }

  lemma {:induction false} RunSnoc(steps: seq<Step>, n: nat)
    requires n < |steps|
    ensures Run(steps[..n + 1]) == Apply(Run(steps[..n]), steps[n])
  {
    assert steps[..n + 1][..n] == steps[..n];
  }

  /** What the attachments of a session share. */
  class Shell {
    var file: seq<byte>
    /** lastAckBy, for this session. */
    var lastAck: map<ClientId, nat>
    const timeline: Timeline

    constructor (codec: Codec<CommandRecord>)
      requires codec.Faithful() && codec.Sized()
      ensures file == [] && lastAck == map[] && fresh(timeline) && timeline.Whole() && timeline.Records() == []
    {
      file, lastAck := [], map[];
      timeline := new Timeline(codec);
    }

    /** The shell writes to its log. */
    method Output(more: seq<byte>)
      modifies this`file
      ensures file == old(file) + more
    {
      file := file + more;
    }

    /** getLastAck */
    method GetLastAck(client: ClientId) returns (v: nat, ok: bool)
      ensures ok == (client in lastAck)
      ensures v == if ok then lastAck[client] else 0
    {
      ok := client in lastAck;
      v := if ok then lastAck[client] else 0;
    }

    /** setLastAck, for acks and for accepted chunks. */
    method SetLastAck(client: ClientId, off: nat)
      modifies this`lastAck
      ensures lastAck == Acked(old(lastAck), client, off)
    {
      if client == "" { return; }
      var current := if client in lastAck then lastAck[client] else 0;
      if off > current {
        lastAck := lastAck[client := off];
      }
    }
  }

  /** The send loop of one attachment. */
  class SendLoop {
    const shell: Shell
    const client: ClientId
    const start: nat
    var alive: bool
    var pending: seq<byte>
    var pendingStart: nat
    var offset: nat
    var commands: Commands
    ghost var sent: nat
    ghost var flushes: seq<nat>
    ghost var refused: bool
    ghost var accepted: seq<Chunk>

    ghost function View(): Attachment
      reads this
    {
      Attachment(client, start, alive, sent, offset, commands, flushes, refused, accepted)
    }

    /** Pending is what has been read and not sent, and `pendingStart` is where it starts. */
    ghost predicate Valid()
      reads this, shell`file
    {
      && offset <= |shell.file| && sent + |pending| == offset
      && pending == shell.file[sent..offset]
      && (pending != [] ==> pendingStart == sent)
    }

    /** AttachShell, up to the start of its loops. */
    constructor (shell: Shell, client: ClientId, afterOffset: nat, resume: bool)
      ensures Valid() && this.shell == shell
      ensures View() == Attached(client, StartFor(shell.file, shell.lastAck, client, afterOffset, resume))
      ensures afterOffset == 0 && resume && client != "" && client in shell.lastAck ==>
                start == if shell.lastAck[client] <= |shell.file| then shell.lastAck[client] else |shell.file|
      ensures afterOffset != 0 || !resume || client == "" || client !in shell.lastAck ==>
                start == if afterOffset <= |shell.file| then afterOffset else |shell.file|
    {
      var startOffset := afterOffset;
      if startOffset == 0 && resume && client != "" {
        var v, ok := shell.GetLastAck(client);
        if ok { startOffset := v; }
      }
      if startOffset > |shell.file| { startOffset := |shell.file|; }
      this.shell, this.client, this.start := shell, client, startOffset;
      alive, pending, pendingStart, offset, commands := true, [], 0, startOffset, NoCommands;
      sent, flushes, refused, accepted := startOffset, [], false, [];
    }

    /** One f.Read of the loop, returning n bytes. */
    method Read(n: nat)
      requires Valid() && CanRead(View(), shell.file, n)
      modifies this`pending, this`pendingStart, this`offset
      ensures Valid() && View() == old(View()).(offset := old(offset) + n)
    {
      if |pending| == 0 { pendingStart := offset; }
      pending := pending + shell.file[offset..offset + n];
      offset := offset + n;
    }

    /** flush: what it sends, records and acknowledges; at most MAX_WITHHELD bytes stay pending. */
    method Flush(sendOk: bool) returns (eof: bool)
      requires Valid() && alive && shell.timeline.Whole()
      modifies this`alive, this`pending, this`pendingStart, this`commands, this`sent, this`flushes, this`refused,
               this`accepted
      modifies shell`lastAck, shell.timeline
      ensures Valid() && shell.timeline.Whole() && |pending| <= MAX_WITHHELD && alive == !eof
      ensures View() == Flushed(old(View()), shell.file, sendOk)
      ensures shell.timeline.Records() == old(shell.timeline.Records()) + Appended(old(View()), shell.file)
      ensures shell.lastAck == AckedByFlush(old(shell.lastAck), old(View()), shell.file, sendOk)
    {
      hide Rewrite, FlushPoint, Completing, Commands.OnAll, Timeline.Valid, Timeline.Records, Paired;
      if |pending| == 0 { return false; }
      var sendLen := FlushablePrefixLen(pending);
      SameFlushPoint(pending, shell.file, sent, 0, |pending|);
      if sendLen == 0 { return false; }
      var uncompressed := pending[..sendLen];
      var clean, markers := StripXRMarkers(uncompressed, pendingStart);
      SameRewrite(uncompressed, shell.file, sent, 0, sendLen, 0);
      eof := SendChunk(sendLen, clean, markers, sendOk);
    }

    /** The part of flush that follows the rewriting: command events, the chunk itself, and the resume point. */
    method SendChunk(sendLen: nat, clean: seq<byte>, markers: seq<Marker>, sendOk: bool) returns (eof: bool)
      requires Valid() && alive && 0 < sendLen <= |pending| && shell.timeline.Whole()
      requires FlushPoint(shell.file, sent, offset) == sent + sendLen
      requires Rewritten(clean, markers) == Rewrite(shell.file, sent, sent + sendLen, 0)
      modifies this`alive, this`pending, this`pendingStart, this`commands, this`sent, this`flushes, this`refused,
               this`accepted
      modifies shell`lastAck, shell.timeline
      ensures Valid() && shell.timeline.Whole() && pending == old(pending)[sendLen..] && alive == !eof
      ensures View() == Flushed(old(View()), shell.file, sendOk)
      ensures shell.timeline.Records() == old(shell.timeline.Records()) + Appended(old(View()), shell.file)
      ensures shell.lastAck == AckedByFlush(old(shell.lastAck), old(View()), shell.file, sendOk)
    {
      hide Rewrite, FlushPoint, Completing, Commands.OnAll, Timeline.Valid, Timeline.Records, Paired;
      RecordCommands(markers);
      ghost var chunk := Chunk(pendingStart, clean, sendLen);
      pending := pending[sendLen..];
      pendingStart := pendingStart + sendLen;
      sent, flushes, refused := sent + sendLen, flushes + [offset], !sendOk;
      if !sendOk {
        alive := false;
        return true;
      }
      accepted := accepted + [chunk];
      if client != "" { shell.SetLastAck(client, pendingStart); }
      eof := false;
    }

    /** The loop over the markers of one flush, which appends what they complete to the timeline. */
    method RecordCommands(markers: seq<Marker>)
      requires shell.timeline.Whole()
      modifies this`commands, shell.timeline
      ensures commands == old(commands).OnAll(markers) && shell.timeline.Whole()
      ensures shell.timeline.Records() == old(shell.timeline.Records()) + Completing(old(commands), markers)
    {
      hide Timeline.Valid, Timeline.Records, Paired, Commands.OnAll, Completing;
      var i := 0;
      assert markers[0..] == markers;
      while i < |markers|
        invariant 0 <= i <= |markers| && shell.timeline.Whole()
        invariant commands.OnAll(markers[i..]) == old(commands).OnAll(markers)
        invariant shell.timeline.Records() + Completing(commands, markers[i..])
               == old(shell.timeline.Records()) + Completing(old(commands), markers)
        decreases |markers| - i
      {
        OneMarker(commands, markers, i);
        ghost var before := shell.timeline.Records();
        var c := commands.On(markers[i]);
        var e := c.events[|commands.events|];
        if e.Completed? { shell.timeline.Append(e.record); }
        Associates(before, CompletedOf(e), Completing(c, markers[i + 1..]));
        commands := c;
        i := i + 1;
      }
      NoMarkers(commands, markers[i..]);
    }

    /** The attachment ends. */
    method Detach()
      requires Valid()
      modifies this`alive
      ensures Valid() && View() == old(View()).(alive := false)
    {
      alive := false;
    }
  }
}
