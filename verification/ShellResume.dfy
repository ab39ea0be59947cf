/** Where attachments start, over any run of a shell session: what the resume point of a client is, and who gets it. */
module ShellResume {
  import opened XrMarkers
  import opened XrStreaming
  import opened ShellCommands
  import opened ShellSession
  import opened ShellRuns

  /** What a step tells about how far a client has come: an ack of its own, or the end of a chunk accepted for it. */
  function Mark(st: ShellState, step: Step, c: ClientId): seq<nat> {
    match step
    case Ack(client, off) => if client == c then [off] else []
    case Flush(i, _) =>
      if i < |st.attachments| && i < |Apply(st, step).attachments| && st.attachments[i].client == c then
        var before, after := st.attachments[i].accepted, Apply(st, step).attachments[i].accepted;
        if |after| > |before| then [EndOf(after)] else []
      else []
    case _ => []
  }

  function Marks(steps: seq<Step>, c: ClientId): seq<nat> {
    if steps == [] then []
    else
      var init := steps[..|steps| - 1];
      Marks(init, c) + Mark(Run(init), steps[|steps| - 1], c)
  }

  /** The resume points are the greatest marks; a client without a mark above zero has none, nor has the empty one. */
  ghost predicate IsGreatest(lastAck: map<ClientId, nat>, c: ClientId, marks: seq<nat>) {
    && "" !in lastAck
    && (c in lastAck ==> c != "" && lastAck[c] > 0 && lastAck[c] in marks)
    && (c != "" ==> forall m | m in marks :: m == 0 || (c in lastAck && m <= lastAck[c]))
  }

  lemma {:induction false} AckedIsGreatest(
    lastAck: map<ClientId, nat>, client: ClientId, off: nat, c: ClientId, marks: seq<nat>)
    requires IsGreatest(lastAck, c, marks)
    ensures IsGreatest(Acked(lastAck, client, off), c, if client == c then marks + [off] else marks)
  {
    assert forall m :: m in marks ==> m in marks + [off];
    assert off in marks + [off];
  }

  lemma {:induction false} FlushMark(st: ShellState, i: nat, sendOk: bool, c: ClientId)
    requires i < |st.attachments| && InFile(st.attachments[i], st.file)
    ensures var a := st.attachments[i];
            var p := FlushPoint(st.file, a.sent, a.offset);
            Mark(st, Flush(i, sendOk), c) == if a.client == c && a.alive && p > a.sent && sendOk then [p] else []
  {
    hide FlushPoint, XrMarkers.Rewrite, Commands.OnAll;
  }

  lemma {:induction false} StepGreatest(st: ShellState, step: Step, c: ClientId, marks: seq<nat>)
    requires IsGreatest(st.lastAck, c, marks)
    ensures IsGreatest(Apply(st, step).lastAck, c, marks + Mark(st, step, c))
  {
    hide IsGreatest, Acked, Mark, Flushed, Appended;
    assert marks + [] == marks;
    match step
    case Ack(client, off) =>
      AckedIsGreatest(st.lastAck, client, off, c, marks);
      AckMark(st, client, off, c);
    case Flush(i, sendOk) =>
      if i < |st.attachments| && InFile(st.attachments[i], st.file) {
        var a := st.attachments[i];
        FlushMark(st, i, sendOk, c);
        AckedIsGreatest(st.lastAck, a.client, FlushPoint(st.file, a.sent, a.offset), c, marks);
      } else {
        NoMark(st, step, c);
      }
    case _ => NoMark(st, step, c);
  }

  lemma {:induction false} AckMark(st: ShellState, client: ClientId, off: nat, c: ClientId)
    ensures Mark(st, Ack(client, off), c) == if client == c then [off] else []
  {
  }

  lemma {:induction false} NoMark(st: ShellState, step: Step, c: ClientId)
    requires !step.Ack? && (step.Flush? ==> Apply(st, step) == st)
    ensures Mark(st, step, c) == []
  {
  }

  /**
   * Over any run: a client's resume point is the greatest of the offsets it has acked and the ends of the chunks
   * that were accepted for it, whichever of its attachments they belong to.
   */
  lemma {:induction false} ResumePointIsGreatest(steps: seq<Step>, c: ClientId)
    ensures IsGreatest(Run(steps).lastAck, c, Marks(steps, c))
    decreases |steps|
  {
    hide Apply, Mark;
    if steps != [] {
      ResumePointIsGreatest(steps[..|steps| - 1], c);
      hide IsGreatest;
      StepGreatest(Run(steps[..|steps| - 1]), steps[|steps| - 1], c, Marks(steps[..|steps| - 1], c));
    }
  }

  /**
   * After any run, a new attachment starts at the client's resume point if the client asked to resume, named no
   * offset, and has one, and at the offset that it named otherwise; in both cases not behind the end of the log.
   */
  lemma {:induction false} AttachStarts(steps: seq<Step>, c: ClientId, off: nat, resume: bool)
    ensures var st, n := Run(steps), |Run(steps).attachments|;
            var t := Run(steps + [Attach(c, off, resume)]);
            && |t.attachments| == n + 1 && t.attachments[..n] == st.attachments
            && t.attachments[n].client == c && t.attachments[n].accepted == [] && t.attachments[n].alive
            && t.attachments[n].sent == t.attachments[n].offset == t.attachments[n].start
            && (off == 0 && resume && c != "" && c in st.lastAck ==>
                  t.attachments[n].start == if st.lastAck[c] <= |st.file| then st.lastAck[c] else |st.file|)
            && (off != 0 || !resume || c == "" || c !in st.lastAck ==>
                  t.attachments[n].start == if off <= |st.file| then off else |st.file|)
  {
    hide Run;
    RunThen(steps, Attach(c, off, resume));
  }

  /**
   * After any run, a flush of a live attachment leaves at most MAX_WITHHELD of the bytes read unsent, and keeps the
   * attachment alive if and only if nothing had to be sent or the chunk was accepted.
   */
  lemma {:induction false} FlushCatchesUp(steps: seq<Step>, i: nat, sendOk: bool)
    requires i < |Run(steps).attachments| && Run(steps).attachments[i].alive
    ensures var a, t := Run(steps).attachments[i], Run(steps + [Flush(i, sendOk)]);
            && i < |t.attachments| && t.attachments[i].offset == a.offset
            && a.sent <= t.attachments[i].sent <= a.offset <= t.attachments[i].sent + 4096
            && (t.attachments[i].alive <==> t.attachments[i].sent == a.sent || sendOk)
  {
    hide Run, XrMarkers.Rewrite, FlushPoint, Commands.OnAll, SentTo, Delivered, Schedule, Accepts;
    RunKeeps(steps);
    assert Kept(Run(steps).attachments[i], Run(steps).file);
    RunThen(steps, Flush(i, sendOk));
  }
}
