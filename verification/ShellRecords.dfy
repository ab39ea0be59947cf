/** The timeline of a shell session: how often each command gets onto it, and with what record. */
module ShellRecords {
  import opened Seqs
  import opened Wrappers
  import opened Bytes
  import opened XrMarkers
  import opened XrStreaming
  import opened XrLog
  import opened ShellCommands
  import opened ShellTimeline
  import opened ShellSession
  import opened ShellRuns

  /** The frame at [j, k] lies in b[lo..hi], and `m` is the marker it carries. */
  ghost predicate Carries(b: seq<byte>, lo: nat, hi: nat, j: nat, k: nat, m: Marker) {
    lo <= j && k < hi && FrameAt(b, j, k) && m in FrameMarkers(b, j, k, 0)
  }

  ghost predicate InFrame(b: seq<byte>, lo: nat, hi: nat, m: Marker) {
    exists j: nat, k: nat :: Carries(b, lo, hi, j, k, m)
  }

  /** On a well-framed log, one pass reports the markers of the frames in its range, and nothing else. */
  lemma {:induction false} RewriteReports(b: seq<byte>, lo: nat, hi: nat, m: Marker)
    requires lo <= hi <= |b| && WellFramed(b, lo)
    ensures m in Rewrite(b, lo, hi, 0).markers <==> InFrame(b, lo, hi, m)
    decreases hi - lo
  {
    hide Rewrite, FrameMarkers, IntroAt;
    RewriteUnrolled(b, lo, hi, 0);
    FirstFrame(b, lo, hi);
    var j := IndexIntro(b, lo, hi);
    var k := if j == -1 then -1 else IndexBel(b, j, hi);
    if k == -1 {
      forall j': nat, k': nat ensures !Carries(b, lo, hi, j', k', m) {
        if lo <= j' && k' < hi && FrameAt(b, j', k') { FrameBehind(b, lo, hi, j', k'); }
      }
    } else {
      FrameEnd(b, j, k);
      RewriteReports(b, k + 1, hi, m);
      forall j': nat, k': nat | Carries(b, lo, hi, j', k', m)
        ensures Carries(b, k + 1, hi, j', k', m) || m in FrameMarkers(b, j, k, 0)
      {
        FrameBehind(b, lo, hi, j', k');
      }
      if m in FrameMarkers(b, j, k, 0) { assert Carries(b, lo, hi, j, k, m); }
      if InFrame(b, k + 1, hi, m) {
        var j': nat, k': nat :| Carries(b, k + 1, hi, j', k', m);
        assert Carries(b, lo, hi, j', k', m);
      }
    }
  }

  /** Any frame in the range is the first one, or lies behind it. */
  lemma {:induction false} FrameBehind(b: seq<byte>, lo: nat, hi: nat, j': nat, k': nat)
    requires lo <= j' && k' < hi <= |b| && FrameAt(b, j', k') && WellFramed(b, lo)
    ensures var j := IndexIntro(b, lo, hi);
            j != -1 && var k := IndexBel(b, j, hi); k != -1 && ((j' == j && k' == k) || k < j')
  {
    IntroFits(b, j');
    var j := IndexIntro(b, lo, hi);
    assert lo <= j <= j';
    var k := IndexBel(b, j, hi);
    IntroShape(b, j');
    FirstFrame(b, lo, hi);
    FrameEnd(b, j, k);
  }

  /** A frame that the stream from `lo` has sent whole, in one chunk. */
  ghost predicate SentWhole(b: seq<byte>, lo: nat, flushes: seq<nat>, j: nat, k: nat, m: Marker)
    requires lo <= |b| && Schedule(b, lo, flushes)
  {
    Carries(b, lo, SentTo(b, lo, flushes), j, k, m) && NoFlushIn(flushes, j)
  }

  /** No flush catches the reader inside the introducer at `j`. */
  predicate NoFlushIn(flushes: seq<nat>, j: nat) {
    forall i | 0 <= i < |flushes| :: !(j < flushes[i] < j + INTRO_LEN)
  }

  /** What a stream reports: the markers of the frames it has sent, but for those whose introducer a flush cut. */
  lemma {:induction false} DeliveredReports(b: seq<byte>, lo: nat, flushes: seq<nat>, m: Marker)
    requires lo <= |b| && Schedule(b, lo, flushes) && WellFramed(b, lo)
    ensures m in Delivered(b, lo, flushes).markers
            <==> exists j: nat, k: nat :: SentWhole(b, lo, flushes, j, k, m)
    decreases |flushes|
  {
    hide Rewrite, FlushPoint, FrameMarkers, IntroAt;
    if flushes == [] {
      forall j: nat, k: nat ensures !SentWhole(b, lo, flushes, j, k, m) {
        if FrameAt(b, j, k) { IntroFits(b, j); }
      }
    } else {
      var r, rest := flushes[0], flushes[1..];
      var p := FlushPoint(b, lo, r);
      RewriteReports(b, lo, p, m);
      DeliveredReports(b, p, rest, m);
      ScheduleBounds(b, p, rest);
      forall j: nat, k: nat
        ensures SentWhole(b, lo, flushes, j, k, m) <==> Carries(b, lo, p, j, k, m) || SentWhole(b, p, rest, j, k, m)
      {
        if lo <= j && FrameAt(b, j, k) { OneChunkOrLater(b, lo, flushes, j, k); }
      }
    }
  }

  lemma {:induction false} OneChunkOrLater(b: seq<byte>, lo: nat, flushes: seq<nat>, j: nat, k: nat)
    requires lo <= |b| && flushes != [] && Schedule(b, lo, flushes) && WellFramed(b, lo) && lo <= j && FrameAt(b, j, k)
    ensures var p := FlushPoint(b, lo, flushes[0]);
            NoFlushIn(flushes, j) && k < SentTo(b, lo, flushes)
            <==> k < p || (p <= j && NoFlushIn(flushes[1..], j) && k < SentTo(b, p, flushes[1..]))
  {
    hide FlushPoint;
    var p := FlushPoint(b, lo, flushes[0]);
    FrameCut(b, lo, flushes[0], j, k);
    FrameEnd(b, j, k);
    IntroShape(b, j);
    ScheduleBounds(b, p, flushes[1..]);
    assert flushes == [flushes[0]] + flushes[1..];
    assert NoFlushIn(flushes, j) <==> !(j < flushes[0] < j + INTRO_LEN) && NoFlushIn(flushes[1..], j);
    if k < p { assert NoFlushIn(flushes[1..], j); }
  }

  lemma {:induction false} OrderedConcat(ms: seq<Marker>, ns: seq<Marker>, from: nat, mid: nat, to: nat)
    requires from <= mid <= to && Ordered(ms, from, mid) && Ordered(ns, mid, to)
    ensures Ordered(ms + ns, from, to)
  {
  }

  lemma {:induction false} DeliveredOrdered(b: seq<byte>, lo: nat, flushes: seq<nat>)
    requires lo <= |b| && Schedule(b, lo, flushes)
    ensures Ordered(Delivered(b, lo, flushes).markers, lo, SentTo(b, lo, flushes))
    decreases |flushes|
  {
    hide Rewrite, FlushPoint, Ordered;
    if flushes == [] {
      NothingOrdered(lo);
    } else {
      var p := FlushPoint(b, lo, flushes[0]);
      DeliveredOrdered(b, p, flushes[1..]);
      RewriteOrdered(b, lo, p, 0);
      OrderedConcat(Rewrite(b, lo, p, 0).markers, Delivered(b, p, flushes[1..]).markers, lo, p, SentTo(b, lo, flushes));
    }
  }

  lemma {:induction false} NothingOrdered(at: nat)
    ensures Ordered([], at, at)
  {
  }

  lemma {:induction false} MarkersForMembers(ms: seq<Marker>, id: seq<byte>, m: Marker)
    ensures m in MarkersFor(ms, id) <==> m in ms && m.id == id
    decreases |ms|
  {
    if ms != [] {
      MarkersForMembers(ms[1..], id, m);
      assert m in ms <==> m == ms[0] || m in ms[1..];
    }
  }

  /** The send loop of `a` has handled the frame of `m` in one flush, even if `send` then refused the chunk. */
  predicate Sees(a: Attachment, m: Marker) {
    a.start <= m.startOffset && m.endOffset <= a.sent && NoFlushIn(a.flushes, m.startOffset)
  }

  /** All markers of the log. */
  function LogMarkers(file: seq<byte>): seq<Marker> {
    Rewrite(file, 0, |file|, 0).markers
  }

  /** An attachment reports exactly those markers of the log that it sees. */
  lemma {:induction false} SeenMarkers(a: Attachment, file: seq<byte>, m: Marker)
    requires Follows(a, file) && WellFramed(file, 0)
    ensures m in Delivered(file, a.start, a.flushes).markers <==> m in LogMarkers(file) && Sees(a, m)
  {
    hide Rewrite, Delivered, Commands.OnAll, WellFramed, IntroAt, FrameAt;
    LaterFramed(file, a.start);
    DeliveredReports(file, a.start, a.flushes, m);
    RewriteReports(file, 0, |file|, m);
    forall j: nat, k: nat | Carries(file, 0, |file|, j, k, m)
      ensures m.startOffset == j && m.endOffset == k + 1
    {
      FrameFits(file, j, k);
      FrameMarkerPlace(file, j, k, 0);
    }
    if m in LogMarkers(file) && Sees(a, m) {
      var j: nat, k: nat :| Carries(file, 0, |file|, j, k, m);
      assert SentWhole(file, a.start, a.flushes, j, k, m);
    }
    if m in Delivered(file, a.start, a.flushes).markers {
      var j: nat, k: nat :| SentWhole(file, a.start, a.flushes, j, k, m);
      assert Carries(file, 0, |file|, j, k, m);
      assert Sees(a, m);
    }
  }

  lemma {:induction false} LaterFramed(b: seq<byte>, lo: nat)
    requires WellFramed(b, 0)
    ensures WellFramed(b, lo)
  {
  }

  lemma {:induction false} FrameFits(b: seq<byte>, j: nat, k: nat)
    requires FrameAt(b, j, k)
    ensures j + INTRO_LEN <= k < |b|
  {
  }

  /** The log starts and ends the command once, and carries no other marker of its id. */
  ghost predicate RunsOnce(file: seq<byte>, s: Marker, e: Marker) {
    s.CmdStart? && e.CmdEnd? && MarkersFor(LogMarkers(file), s.id) == [s, e]
  }

  function One<T>(b: bool, x: T): seq<T> {
    if b then [x] else []
  }

  /** The markers of a command that an attachment reports. */
  lemma {:induction false} SeenOfCommand(a: Attachment, file: seq<byte>, s: Marker, e: Marker)
    requires Follows(a, file) && WellFramed(file, 0) && RunsOnce(file, s, e)
    ensures MarkersFor(Delivered(file, a.start, a.flushes).markers, s.id) == One(Sees(a, s), s) + One(Sees(a, e), e)
    ensures 0 < s.endOffset <= e.startOffset && e.id == s.id
  {
    hide Rewrite, Delivered, SentTo, Schedule, Commands.OnAll, WellFramed, MarkersFor, Sees;
    var all, seen := LogMarkers(file), Delivered(file, a.start, a.flushes).markers;
    var own := MarkersFor(seen, s.id);
    RewriteOrdered(file, 0, |file|, 0);
    OwnMarkersOrdered(all, s.id, 0, |file|);
    assert [s, e][0] == s && [s, e][1] == e;
    DeliveredOrdered(file, a.start, a.flushes);
    OwnMarkersOrdered(seen, s.id, a.start, a.sent);
    forall m ensures m in own <==> (m == s && Sees(a, s)) || (m == e && Sees(a, e)) {
      MarkersForMembers(seen, s.id, m);
      MarkersForMembers(all, s.id, m);
      SeenMarkers(a, file, m);
      assert m in [s, e] <==> m == s || m == e;
    }
    MarkersForMembers(all, s.id, e);
    assert e in [s, e];
    AtMostTwo(own, s, e, Sees(a, s), Sees(a, e), a.start, a.sent);
  }

  lemma {:induction false} AtMostTwo(own: seq<Marker>, s: Marker, e: Marker, hasS: bool, hasE: bool, from: nat, to: nat)
    requires Ordered(own, from, to) && s.startOffset < s.endOffset <= e.startOffset < e.endOffset
    requires forall m :: m in own <==> (m == s && hasS) || (m == e && hasE)
    ensures own == One(hasS, s) + One(hasE, e)
  {
    if |own| >= 2 { InTurn(own, s, e, from, to, 0, 1); }
    if |own| >= 3 { InTurn(own, s, e, from, to, 1, 2); }
    if hasS { assert s in own; }
    if hasE { assert e in own; }
    if |own| == 1 { assert own == [own[0]] && own[0] in own; }
    if |own| == 2 { assert own == [own[0], own[1]] && own[0] in own && own[1] in own; }
  }

  lemma {:induction false} InTurn(own: seq<Marker>, s: Marker, e: Marker, from: nat, to: nat, i: nat, j: nat)
    requires Ordered(own, from, to) && s.startOffset < s.endOffset <= e.startOffset < e.endOffset
    requires (forall m | m in own :: m == s || m == e) && i < j < |own|
    ensures own[i] == s && own[j] == e
  {
    assert own[i] in own && own[j] in own;
    assert own[i].endOffset <= own[j].startOffset;
  }

  function HowMany<T(==)>(xs: seq<T>, x: T): nat {
    multiset(xs)[x]
  }

  lemma {:induction false} HowManyConcat<T>(xs: seq<T>, ys: seq<T>, x: T)
    ensures HowMany(xs + ys, x) == HowMany(xs, x) + HowMany(ys, x)
  {
  }

  lemma {:induction false} HowManyOne<T>(y: T, x: T)
    ensures HowMany([y], x) == (if x == y then 1 else 0) && HowMany([], x) == 0
  {
  }

  /** The completed records of one command are its completed events. */
  lemma {:induction false} CompletedFor(events: seq<CommandEvent>, id: seq<byte>, r: CommandRecord)
    requires r.id == id
    ensures HowMany(CompletedIn(events), r) == HowMany(EventsFor(events, id), Completed(r))
    decreases |events|
  {
    hide HowMany;
    if events == [] {
      HowManyOne(r, r);
      HowManyOne(Completed(r), Completed(r));
    } else {
      var init, e := events[..|events| - 1], events[|events| - 1];
      assert events == init + [e];
      CompletedFor(init, id, r);
      EventsForSnoc(init, e, id);
      hide EventsFor;
      HowManyConcat(CompletedIn(init), CompletedOf(e), r);
      HowManyOne(e.record, r);
      HowManyConcat(EventsFor(init, id), if e.record.id == id then [e] else [], Completed(r));
      HowManyOne(e, Completed(r));
    }
  }

  /** The record that the end frame alone gives, to a send loop that started behind the start frame. */
  function EndOnly(e: Marker): CommandRecord
    requires e.CmdEnd?
  {
    CommandRecord(e.id, [], e.exitCode, 0, e.startOffset, 0, [], e.ts)
  }

  /** The events of a command whose start, end, both or neither an attachment sees. */
  lemma {:induction false} CommandEvents(ms: seq<Marker>, s: Marker, e: Marker, hasS: bool, hasE: bool)
    requires s.CmdStart? && e.CmdEnd? && e.id == s.id && 0 < s.endOffset <= e.startOffset
    requires MarkersFor(ms, s.id) == One(hasS, s) + One(hasE, e)
    ensures EventsFor(NoCommands.OnAll(ms).events, s.id)
         == One(hasS, Started(StartRecordOf(s))) + One(hasE, Completed(if hasS then RecordOf(s, e) else EndOnly(e)))
  {
    OnlyOwnMarkersMatter(NoCommands, NoCommands, ms, s.id);
    hide MarkersFor;
    if hasS && hasE {
      assert One(hasS, s) + One(hasE, e) == [s, e];
      OwnRecords(s, e);
    } else if hasS || hasE {
      var m := if hasS then s else e;
      assert One(hasS, s) + One(hasE, e) == [m] && [m][1..] == [];
      var c := NoCommands.On(m);
      assert NoCommands.OnAll([m]) == c && |c.events| == 1;
      EventsForUnrolled(c.events, s.id);
    }
  }

  /** The records an attachment has put on the timeline for a command. */
  lemma {:induction false} RecordsOf(a: Attachment, file: seq<byte>, s: Marker, e: Marker, r: CommandRecord)
    requires Follows(a, file) && WellFramed(file, 0) && RunsOnce(file, s, e) && r.id == s.id
    ensures s.endOffset <= e.startOffset
    ensures HowMany(CompletedIn(a.commands.events), r)
         == if Sees(a, e) && r == (if Sees(a, s) then RecordOf(s, e) else EndOnly(e)) then 1 else 0
  {
    hide Sees, HowMany, WellFramed;
    SeenOfCommand(a, file, s, e);
    var ms := Delivered(file, a.start, a.flushes).markers;
    CommandEvents(ms, s, e, Sees(a, s), Sees(a, e));
    CompletedFor(a.commands.events, s.id, r);
    hide Delivered, Commands.OnAll, MarkersFor, EventsFor, CompletedIn;
    var started, completed := Started(StartRecordOf(s)), Completed(if Sees(a, s) then RecordOf(s, e) else EndOnly(e));
    HowManyConcat(One(Sees(a, s), started), One(Sees(a, e), completed), Completed(r));
    HowManyOne(started, Completed(r));
    HowManyOne(completed, Completed(r));
  }

  lemma {:induction false} CompletingIs(c: Commands, ms: seq<Marker>)
    ensures CompletedIn(c.OnAll(ms).events) == CompletedIn(c.events) + Completing(c, ms)
    decreases |ms|
  {
    if ms == [] {
      assert CompletedIn(c.events) + [] == CompletedIn(c.events);
    } else {
      var d := c.On(ms[0]);
      var e := d.events[|c.events|];
      assert d.events[..|c.events|] == c.events && d.events == c.events + [e];
      CompletingIs(d, ms[1..]);
      Associates(CompletedIn(c.events), CompletedOf(e), Completing(d, ms[1..]));
    }
  }

  function RanIn(steps: seq<Step>): seq<CommandRecord> {
    if steps == [] then []
    else
      var last := steps[|steps| - 1];
      RanIn(steps[..|steps| - 1]) + if last.Ran? then [last.rec] else []
  }

  /** How often the attachments have completed `r`. */
  function Completions(attachments: seq<Attachment>, r: CommandRecord): nat {
    if attachments == [] then 0
    else
      var n := |attachments| - 1;
      Completions(attachments[..n], r) + HowMany(CompletedIn(attachments[n].commands.events), r)
  }

  lemma {:induction false} CompletionsUpdate(attachments: seq<Attachment>, i: nat, a: Attachment, r: CommandRecord)
    requires i < |attachments|
    ensures Completions(attachments[i := a], r) + HowMany(CompletedIn(attachments[i].commands.events), r)
         == Completions(attachments, r) + HowMany(CompletedIn(a.commands.events), r)
    decreases |attachments|
  {
    hide HowMany, CompletedIn;
    var n := |attachments| - 1;
    if i < n {
      assert attachments[i := a][..n] == attachments[..n][i := a];
      CompletionsUpdate(attachments[..n], i, a, r);
    } else {
      assert attachments[i := a][..n] == attachments[..n];
    }
  }

  /** The timeline holds what run requests recorded and what send loops completed. */
  ghost predicate Tallies(st: ShellState, ran: seq<CommandRecord>) {
    forall r :: HowMany(st.timeline, r) == HowMany(ran, r) + Completions(st.attachments, r)
  }

  lemma {:induction false} FlushCompletes(a: Attachment, file: seq<byte>, sendOk: bool)
    requires InFile(a, file)
    ensures CompletedIn(Flushed(a, file, sendOk).commands.events) == CompletedIn(a.commands.events) + Appended(a, file)
  {
    CompletingIs(a.commands, Sending(a, file).markers);
    hide Sending, Completing, CompletedIn, Commands.OnAll, FlushPoint;
    assert CompletedIn(a.commands.events) + [] == CompletedIn(a.commands.events);
  }

  lemma {:induction false} FlushTallies(st: ShellState, ran: seq<CommandRecord>, i: nat, sendOk: bool)
    requires Tallies(st, ran) && i < |st.attachments| && InFile(st.attachments[i], st.file)
    ensures Tallies(Apply(st, Flush(i, sendOk)), ran)
  {
    hide HowMany, CompletedIn, Completions, Flushed, Appended, AckedByFlush;
    var a, t := st.attachments[i], Apply(st, Flush(i, sendOk));
    FlushCompletes(a, st.file, sendOk);
    forall r ensures HowMany(t.timeline, r) == HowMany(ran, r) + Completions(t.attachments, r) {
      HowManyConcat(st.timeline, Appended(a, st.file), r);
      HowManyConcat(CompletedIn(a.commands.events), Appended(a, st.file), r);
      CompletionsUpdate(st.attachments, i, Flushed(a, st.file, sendOk), r);
    }
  }

  lemma {:induction false} StepTallies(st: ShellState, ran: seq<CommandRecord>, step: Step)
    requires Tallies(st, ran) && AllKept(st)
    ensures Tallies(Apply(st, step), if step.Ran? then ran + [step.rec] else ran)
  {
    hide HowMany, Kept, StartFor, Flushed, Appended, AckedByFlush;
    var t := Apply(st, step);
    match step {
      case Ran(rec) =>
        forall r ensures HowMany(t.timeline, r) == HowMany(ran + [rec], r) + Completions(t.attachments, r) {
          HowManyConcat(st.timeline, [rec], r);
          HowManyConcat(ran, [rec], r);
        }
      case Attach(client, afterOffset, resume) =>
        forall r ensures Completions(t.attachments, r) == Completions(st.attachments, r) {
          assert t.attachments[..|st.attachments|] == st.attachments;
          HowManyOne(r, r);
        }
      case Flush(i, sendOk) =>
        if i < |st.attachments| && InFile(st.attachments[i], st.file) { FlushTallies(st, ran, i, sendOk); }
      case Read(i, n) =>
        if t != st { SameCommandsTally(st, i, t.attachments[i]); }
      case Detach(i) =>
        if i < |st.attachments| { SameCommandsTally(st, i, t.attachments[i]); }
      case _ =>
    }
  }

  lemma {:induction false} SameCommandsTally(st: ShellState, i: nat, a: Attachment)
    requires i < |st.attachments| && a.commands == st.attachments[i].commands
    ensures forall r :: Completions(st.attachments[i := a], r) == Completions(st.attachments, r)
  {
    forall r ensures Completions(st.attachments[i := a], r) == Completions(st.attachments, r) {
      CompletionsUpdate(st.attachments, i, a, r);
    }
  }

  lemma {:induction false} RunTallies(steps: seq<Step>)
    ensures Tallies(Run(steps), RanIn(steps))
    decreases |steps|
  {
    hide Apply, HowMany, Kept;
    if steps == [] {
      NothingTallied();
    } else {
      var init := steps[..|steps| - 1];
      RunTallies(init);
      RunKeeps(init);
      StepTallies(Run(init), RanIn(init), steps[|steps| - 1]);
      assert RanIn(init) + [] == RanIn(init);
    }
  }

  lemma {:induction false} NothingTallied()
    ensures Tallies(NoShell, [])
  {
  }

  /** How many attachments see the end of a command, and see (or do not see) its start as well. */
  function Seeing(attachments: seq<Attachment>, s: Marker, e: Marker, start: bool): nat {
    if attachments == [] then 0
    else
      var n := |attachments| - 1;
      Seeing(attachments[..n], s, e, start) + if SeesEnd(attachments[n], s, e, start) then 1 else 0
  }

  predicate SeesEnd(a: Attachment, s: Marker, e: Marker, start: bool) {
    Sees(a, e) && Sees(a, s) == start
  }

  lemma {:induction false} CompletionsSeen(
    attachments: seq<Attachment>, file: seq<byte>, s: Marker, e: Marker, r: CommandRecord)
    requires forall i | 0 <= i < |attachments| :: Follows(attachments[i], file)
    requires WellFramed(file, 0) && RunsOnce(file, s, e) && r.id == s.id && s.endOffset <= e.startOffset
             && 0 < s.endOffset
    ensures Completions(attachments, r)
         == if r == RecordOf(s, e) then Seeing(attachments, s, e, true)
            else if r == EndOnly(e) then Seeing(attachments, s, e, false) else 0
    decreases |attachments|
  {
    hide HowMany, CompletedIn, Sees, WellFramed, RunsOnce, Follows;
    if attachments != [] {
      var n := |attachments| - 1;
      CompletionsSeen(attachments[..n], file, s, e, r);
      assert Follows(attachments[n], file);
      RecordsOf(attachments[n], file, s, e, r);
    }
  }

  /** The two records that a command can leave, field by field. */
  lemma {:induction false} RecordFields(file: seq<byte>, s: Marker, e: Marker)
    requires RunsOnce(file, s, e)
    ensures 0 < s.endOffset <= e.startOffset
    ensures RecordOf(s, e)
         == CommandRecord(s.id, s.command, e.exitCode, s.endOffset, e.startOffset, e.startOffset - s.endOffset,
                          s.ts, e.ts)
    ensures EndOnly(e) == CommandRecord(s.id, [], e.exitCode, 0, e.startOffset, 0, [], e.ts)
  {
    hide Rewrite, MarkersFor, Ordered;
    var all := LogMarkers(file);
    MarkersForMembers(all, s.id, e);
    assert e in [s, e];
    RewriteOrdered(file, 0, |file|, 0);
    OwnMarkersOrdered(all, s.id, 0, |file|);
    TwoOrdered(s, e, |file|);
  }

  lemma {:induction false} TwoOrdered(s: Marker, e: Marker, to: nat)
    requires Ordered([s, e], 0, to)
    ensures 0 < s.endOffset <= e.startOffset
  {
    assert [s, e][0] == s && [s, e][1] == e;
  }

  /**
   * How often a command is on the timeline, over any run: once, with the offsets of its output, for every
   * attachment that has handled both of its frames, and once without its start for every attachment that has
   * handled the end frame only. Refused sends count, and nothing is written once only.
   */
  lemma {:induction false} TimelineCounts(steps: seq<Step>, s: Marker, e: Marker, r: CommandRecord)
    requires WellFramed(Run(steps).file, 0) && RunsOnce(Run(steps).file, s, e) && r.id == s.id
    ensures s.endOffset <= e.startOffset
    ensures var st := Run(steps);
            HowMany(st.timeline, r)
            == HowMany(RanIn(steps), r)
               + (if r == RecordOf(s, e) then Seeing(st.attachments, s, e, true)
                  else if r == EndOnly(e) then Seeing(st.attachments, s, e, false) else 0)
  {
    hide Run, RanIn, HowMany, WellFramed, Rewrite;
    RunTallies(steps);
    RunKeeps(steps);
    var st := Run(steps);
    RewriteOrdered(st.file, 0, |st.file|, 0);
    OwnMarkersOrdered(LogMarkers(st.file), s.id, 0, |st.file|);
    assert [s, e][0] == s && [s, e][1] == e;
    hide RunsOnce, Follows;
    CompletionsSeen(st.attachments, st.file, s, e, r);
  }

  /** The log ends at a frame boundary: every introducer in it opens a complete frame. */
  ghost predicate AllClosed(b: seq<byte>) {
    forall j | 0 <= j && IntroAt(b, j) :: FrameAt(b, j, BelOrEnd(b, j))
  }

  /** An attachment that reads the rest of the log at once, and flushes it. */
  function Pass(
    i: nat, client: ClientId, afterOffset: nat, resume: bool, start: nat, size: nat, sendOk: bool): seq<Step>
    requires start <= size
  {
    [Attach(client, afterOffset, resume), Read(i, size - start), Flush(i, sendOk)]
  }

  /** The attachment that such a pass leaves behind. */
  ghost predicate Passed(a: Attachment, start: nat, size: nat) {
    a.start == start && a.sent == size && a.flushes == [size]
  }

  lemma {:induction false} PassApplied(st: ShellState, client: ClientId, afterOffset: nat, resume: bool, sendOk: bool)
    requires var start := StartFor(st.file, st.lastAck, client, afterOffset, resume);
             0 < |st.file| - start <= READ_BUFFER && FlushPoint(st.file, start, |st.file|) == |st.file|
    ensures var n, start := |st.attachments|, StartFor(st.file, st.lastAck, client, afterOffset, resume);
            var read := Apply(Apply(st, Attach(client, afterOffset, resume)), Read(n, |st.file| - start));
            var t := Apply(read, Flush(n, sendOk));
            && t.file == st.file && |t.attachments| == n + 1 && t.attachments[..n] == st.attachments
            && Passed(t.attachments[n], start, |st.file|)
            && t.lastAck == if sendOk then Acked(st.lastAck, client, |st.file|) else st.lastAck
  {
    hide Rewrite, FlushPoint, Commands.OnAll, Completing, Acked;
    var n, start := |st.attachments|, StartFor(st.file, st.lastAck, client, afterOffset, resume);
    hide StartFor;
    var t1 := Apply(st, Attach(client, afterOffset, resume));
    assert t1 == st.(attachments := st.attachments + [Attached(client, start)]);
    var t2 := Apply(t1, Read(n, |st.file| - start));
    assert t2 == st.(attachments := st.attachments + [Attached(client, start).(offset := |st.file|)]);
  }

  lemma {:induction false} PassRuns(steps: seq<Step>, client: ClientId, afterOffset: nat, resume: bool, sendOk: bool)
    requires var st := Run(steps);
             var start := StartFor(st.file, st.lastAck, client, afterOffset, resume);
             WellFramed(st.file, 0) && AllClosed(st.file) && 0 < |st.file| - start <= READ_BUFFER
    ensures var st := Run(steps);
            var n, start := |st.attachments|, StartFor(st.file, st.lastAck, client, afterOffset, resume);
            var t := Run(steps + Pass(n, client, afterOffset, resume, start, |st.file|, sendOk));
            && t.file == st.file && |t.attachments| == n + 1 && t.attachments[..n] == st.attachments
            && Passed(t.attachments[n], start, |st.file|)
            && t.lastAck == if sendOk then Acked(st.lastAck, client, |st.file|) else st.lastAck
  {
    hide Run, Apply, FlushPoint, WellFramed, AllClosed, StartFor, Acked, Passed;
    var st := Run(steps);
    var n, size, start := |st.attachments|, |st.file|, StartFor(st.file, st.lastAck, client, afterOffset, resume);
    RunThen(steps, Attach(client, afterOffset, resume));
    RunThen(steps + [Attach(client, afterOffset, resume)], Read(n, size - start));
    RunThen(steps + [Attach(client, afterOffset, resume)] + [Read(n, size - start)], Flush(n, sendOk));
    assert steps + [Attach(client, afterOffset, resume)] + [Read(n, size - start)] + [Flush(n, sendOk)]
        == steps + Pass(n, client, afterOffset, resume, start, size, sendOk);
    FlushesAll(st.file, start);
    PassApplied(st, client, afterOffset, resume, sendOk);
  }

  lemma {:induction false} FlushesAll(b: seq<byte>, start: nat)
    requires WellFramed(b, 0) && AllClosed(b) && start <= |b|
    ensures FlushPoint(b, start, |b|) == |b|
  {
    hide FlushPoint;
    LaterFramed(b, start);
    FlushPointShape(b, start, |b|);
  }

  lemma {:induction false} PassSees(a: Attachment, file: seq<byte>, m: Marker)
    requires Passed(a, a.start, |file|) && m in LogMarkers(file) && WellFramed(file, 0)
    ensures Sees(a, m) <==> a.start <= m.startOffset
    ensures m.startOffset + INTRO_LEN < m.endOffset <= |file|
  {
    hide WellFramed, Rewrite;
    RewriteReports(file, 0, |file|, m);
    var j: nat, k: nat :| Carries(file, 0, |file|, j, k, m);
    FrameFits(file, j, k);
    FrameMarkerPlace(file, j, k, 0);
  }

  lemma {:induction false} OutputRuns(b: seq<byte>)
    ensures Run([Output(b)]) == NoShell.(file := b)
  {
    RunThen([], Output(b));
    assert [] + [Output(b)] == [Output(b)];
  }

  lemma {:induction false} SeeingTwo(attachments: seq<Attachment>, s: Marker, e: Marker, start: bool)
    requires |attachments| == 2
    ensures Seeing(attachments, s, e, start)
         == (if SeesEnd(attachments[0], s, e, start) then 1 else 0)
            + (if SeesEnd(attachments[1], s, e, start) then 1 else 0)
  {
    hide SeesEnd;
    var one := attachments[..1];
    assert one[0] == attachments[0] && one[..0] == [];
    assert Seeing(one, s, e, start) == if SeesEnd(attachments[0], s, e, start) then 1 else 0;
  }

  lemma {:induction false} NothingRan(steps: seq<Step>, r: CommandRecord)
    requires forall i | 0 <= i < |steps| :: !steps[i].Ran?
    ensures HowMany(RanIn(steps), r) == 0
  {
    if steps != [] {
      assert !steps[|steps| - 1].Ran?;
      NothingRan(steps[..|steps| - 1], r);
      assert RanIn(steps) == RanIn(steps[..|steps| - 1]);
    }
  }

  /**
   * A refused chunk is recorded, and recorded again when the client resumes; a client that replays a command from
   * its BeginOffset adds a record that has lost the start.
   */
  lemma {:induction false} RecordedTwice(b: seq<byte>, s: Marker, e: Marker, me: ClientId, replay: bool)
    requires WellFramed(b, 0) && AllClosed(b) && RunsOnce(b, s, e) && |b| <= READ_BUFFER
    ensures 0 < s.endOffset <= e.startOffset < |b|
    ensures var first := [Output(b)] + Pass(0, me, 0, false, 0, |b|, replay);
            var steps := if replay then first + Pass(1, "", s.endOffset, false, s.endOffset, |b|, true)
                         else first + Pass(1, me, 0, true, 0, |b|, true);
            var st := Run(steps);
            && HowMany(st.timeline, RecordOf(s, e)) == (if replay then 1 else 2)
            && HowMany(st.timeline, EndOnly(e)) == (if replay then 1 else 0)
  {
    hide Run, Rewrite, WellFramed, AllClosed, Sees, Seeing, HowMany, RanIn, MarkersFor;
    RewriteOrdered(b, 0, |b|, 0);
    OwnMarkersOrdered(LogMarkers(b), s.id, 0, |b|);
    MarkersForMembers(LogMarkers(b), s.id, s);
    MarkersForMembers(LogMarkers(b), s.id, e);
    assert [s, e][0] == s && [s, e][1] == e && s in [s, e] && e in [s, e];
    OutputRuns(b);
    var first := [Output(b)] + Pass(0, me, 0, false, 0, |b|, replay);
    PassRuns([Output(b)], me, 0, false, replay);
    var start := if replay then s.endOffset else 0;
    var second := if replay then Pass(1, "", start, false, start, |b|, true) else Pass(1, me, 0, true, 0, |b|, true);
    if replay { PassRuns(first, "", start, false, true); } else { PassRuns(first, me, 0, true, true); }
    var st := Run(first + second);
    assert st.attachments[0] == st.attachments[..1][0] == Run(first).attachments[0];
    forall m | m == s || m == e
      ensures Sees(st.attachments[0], m) && (Sees(st.attachments[1], m) <==> start <= m.startOffset)
    {
      PassSees(st.attachments[0], b, m);
      PassSees(st.attachments[1], b, m);
    }
    SeeingTwo(st.attachments, s, e, true);
    SeeingTwo(st.attachments, s, e, false);
    NothingRan(first + second, RecordOf(s, e));
    NothingRan(first + second, EndOnly(e));
    TimelineCounts(first + second, s, e, RecordOf(s, e));
    TimelineCounts(first + second, s, e, EndOnly(e));
  }

  /** What the hook scripts print around the output of one command is such a log. */
  lemma {:induction false} HookedCommand(
    id: seq<byte>, ts: seq<byte>, command: seq<byte>, out: seq<byte>, ts2: seq<byte>, code: seq<byte>)
    returns (s: Marker, e: Marker)
    requires SEMI !in id && SEMI !in ts && SEMI !in command && SEMI !in ts2 && SEMI !in code
    requires var log := Hooked(id, ts, command, out, ts2, code); XrLog.Valid(log) && Tame(log)
    ensures var b := Render(Hooked(id, ts, command, out, ts2, code));
            && WellFramed(b, 0) && AllClosed(b) && RunsOnce(b, s, e)
            && s.command == command && e.exitCode == code && |out| == e.startOffset - s.endOffset
  {
    hide Rewrite, Render, ParsePayload, IntroAt, WellFramed;
    var log := Hooked(id, ts, command, out, ts2, code);
    var b := Render(log);
    assert b[0..] == b;
    RewriteRendered(b, 0, log);
    RenderedWellFramed(b, 0, log);
    var p, q := Join([CMD_START, id, ts, command], SEMI), Join([CMD_END, id, ts2, code], SEMI);
    var n1 := INTRO_LEN + |p| + 1;
    var n2 := n1 + |out| + INTRO_LEN + |q| + 1;
    s, e := CmdStart(id, ts, command, 0, n1), CmdEnd(id, ts2, code, n1 + |out|, n2);
    HookPayloadParses(CMD_START, id, ts, command, 0, n1);
    HookPayloadParses(CMD_END, id, ts2, code, n1 + |out|, n2);
    HookedMarkers(log, s, e);
    assert [s, e][1..] == [e] && [e][1..] == [];
    assert MarkersFor([e], id) == [e] + MarkersFor([], id);
    assert MarkersFor([s, e], id) == [s] + MarkersFor([e], id);
  }

  lemma {:induction false} HookedMarkers(log: Log, s: Marker, e: Marker)
    requires log.Frame? && log.rest.Frame? && log.rest.rest.Text?
    requires var k := |log.text| + INTRO_LEN + |log.payload| + 1;
             var j := k + |log.rest.text|;
             && ParsePayload(log.payload, |log.text|, k) == Some(s)
             && ParsePayload(log.rest.payload, j, j + INTRO_LEN + |log.rest.payload| + 1) == Some(e)
    ensures MarkersIn(log, 0) == [s, e]
  {
    hide ParsePayload;
    var k := |log.text| + INTRO_LEN + |log.payload| + 1;
    var k2 := k + |log.rest.text| + INTRO_LEN + |log.rest.payload| + 1;
    assert MarkersIn(log.rest.rest, k2) == [];
    assert MarkersIn(log.rest, k) == [e] + [];
  }

  function Hooked(
    id: seq<byte>, ts: seq<byte>, command: seq<byte>, out: seq<byte>, ts2: seq<byte>, code: seq<byte>): Log {
    Frame([], Join([CMD_START, id, ts, command], SEMI), Frame(out, Join([CMD_END, id, ts2, code], SEMI), Text([])))
  }
}
