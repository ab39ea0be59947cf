/** Command records built from the markers of a shell log. */
module ShellCommands {
  import opened Bytes
  import opened XrMarkers
  import opened XrStreaming

  datatype CommandRecord = CommandRecord(
    id: seq<byte>, command: seq<byte>, exitCode: seq<byte>,
    beginOffset: nat, endOffset: nat, outputBytes: nat,
    startedAt: seq<byte>, completedAt: seq<byte>)

  datatype CommandEvent =
    | Started(record: CommandRecord)
    | Completed(record: CommandRecord)

  /** The commands whose end has not been seen (cmdByID), and the events sent so far. */
  datatype Commands = Commands(open: map<seq<byte>, CommandRecord>, events: seq<CommandEvent>) {
    function On(m: Marker): Commands {
      match m
      case CmdStart(id, ts, command, _, endOffset) =>
        var rec := CommandRecord(id, command, [], endOffset, 0, 0, ts, []);
        Commands(open[id := rec], events + [Started(rec)])
      case CmdEnd(id, ts, exitCode, startOffset, _) =>
        var rec := if id in open then open[id] else CommandRecord(id, [], [], 0, 0, 0, [], []);
        var rec := rec.(exitCode := exitCode, completedAt := ts, endOffset := startOffset);
        var rec := if rec.beginOffset > 0 && rec.endOffset > rec.beginOffset
                   then rec.(outputBytes := rec.endOffset - rec.beginOffset) else rec;
        Commands(open - {id}, events + [Completed(rec)])
    }

    function OnAll(ms: seq<Marker>): Commands
      decreases |ms|
    {
      if ms == [] then this else On(ms[0]).OnAll(ms[1..])
    }
  }

  const NoCommands := Commands(map[], [])

  /** Markers arriving in two batches leave the same state as markers arriving together. */
  lemma {:induction false} OnAllInBatches(c: Commands, a: seq<Marker>, b: seq<Marker>)
    ensures c.OnAll(a + b) == c.OnAll(a).OnAll(b)
    decreases |a|
  {
    if a == [] {
      assert a + b == b;
    } else {
      assert (a + b)[1..] == a[1..] + b;
      OnAllInBatches(c.On(a[0]), a[1..], b);
    }
  }

  /** The last marker of command `id`, or -1. */
  function LastOf(ms: seq<Marker>, id: seq<byte>): (r: int)
    ensures -1 <= r < |ms| && (r >= 0 ==> ms[r].id == id)
    ensures forall i | r < i < |ms| :: ms[i].id != id
  {
    if ms == [] then -1
    else if ms[|ms| - 1].id == id then |ms| - 1
    else
      var init := ms[..|ms| - 1];
      assert forall i | 0 <= i < |init| :: init[i] == ms[i];
      LastOf(init, id)
  }

  /** A command is open if its last marker was a start. */
  predicate OpenAfter(ms: seq<Marker>, id: seq<byte>) {
    LastOf(ms, id) >= 0 && ms[LastOf(ms, id)].CmdStart?
  }

  /** The open records are those of the starts that no marker of the same command has followed. */
  ghost predicate OpenAre(c: Commands, ms: seq<Marker>) {
    forall id ::
      && (id in c.open <==> OpenAfter(ms, id))
      && (id in c.open ==>
            var s := ms[LastOf(ms, id)];
            c.open[id] == CommandRecord(id, s.command, [], s.endOffset, 0, 0, s.ts, []))
  }

  lemma {:induction false} OnAllSnoc(ms: seq<Marker>, m: Marker)
    ensures NoCommands.OnAll(ms + [m]) == NoCommands.OnAll(ms).On(m)
  {
    OnAllInBatches(NoCommands, ms, [m]);
    var c := NoCommands.OnAll(ms);
    assert [m][1..] == [];
    assert c.OnAll([m]) == c.On(m).OnAll([]);
  }

  lemma {:induction false} OpenStep(c: Commands, ms: seq<Marker>, m: Marker)
    requires OpenAre(c, ms)
    ensures OpenAre(c.On(m), ms + [m])
  {
    var all := ms + [m];
    assert all[..|ms|] == ms && all[|ms|] == m;
    forall id
      ensures LastOf(all, id) == if m.id == id then |ms| else LastOf(ms, id)
    {
    }
  }

  lemma {:induction false} OpenAlways(ms: seq<Marker>)
    ensures OpenAre(NoCommands.OnAll(ms), ms)
    decreases |ms|
  {
    hide OpenAre, Commands.On;
    if ms == [] {
      NoneOpen();
    } else {
      var init, m := ms[..|ms| - 1], ms[|ms| - 1];
      assert ms == init + [m];
      OpenAlways(init);
      OnAllSnoc(init, m);
      OpenStep(NoCommands.OnAll(init), init, m);
    }
  }

  lemma {:induction false} NoneOpen()
    ensures OpenAre(NoCommands.OnAll([]), []) && NoCommands.OnAll([]).events == []
  {
  }

  /** What marker `m` gives behind `before`: a start, an end with what its start said, or an end alone. */
  function EventOf(before: seq<Marker>, m: Marker): CommandEvent {
    match m
    case CmdStart(id, ts, command, _, endOffset) =>
      Started(CommandRecord(id, command, [], endOffset, 0, 0, ts, []))
    case CmdEnd(id, ts, exitCode, at, _) =>
      if OpenAfter(before, id) then
        var s := before[LastOf(before, id)];
        var output := if 0 < s.endOffset < at then at - s.endOffset else 0;
        Completed(CommandRecord(id, s.command, exitCode, s.endOffset, at, output, s.ts, ts))
      else Completed(CommandRecord(id, [], exitCode, 0, at, 0, [], ts))
  }

  lemma {:induction false} OnGives(c: Commands, before: seq<Marker>, m: Marker)
    requires OpenAre(c, before)
    ensures c.On(m).events == c.events + [EventOf(before, m)]
  {
  }

  /** For any markers: one event each, in order, which tells of that marker and of the last one of its command. */
  lemma {:induction false} EventsOfMarkers(ms: seq<Marker>)
    ensures |NoCommands.OnAll(ms).events| == |ms|
    ensures forall k | 0 <= k < |ms| :: NoCommands.OnAll(ms).events[k] == EventOf(ms[..k], ms[k])
    decreases |ms|
  {
    hide EventOf, Commands.On;
    if ms == [] {
      NoneOpen();
    } else {
      var n := |ms| - 1;
      var init := ms[..n];
      assert ms == init + [ms[n]];
      EventsOfMarkers(init);
      OnAllSnoc(init, ms[n]);
      OpenAlways(init);
      OnGives(NoCommands.OnAll(init), init, ms[n]);
      assert forall k | 0 <= k < n :: init[..k] == ms[..k];
    }
  }

  function MarkersFor(ms: seq<Marker>, id: seq<byte>): seq<Marker> {
    if ms == [] then [] else (if ms[0].id == id then [ms[0]] else []) + MarkersFor(ms[1..], id)
  }

  function EventsFor(es: seq<CommandEvent>, id: seq<byte>): seq<CommandEvent> {
    if es == [] then [] else (if es[0].record.id == id then [es[0]] else []) + EventsFor(es[1..], id)
  }

  lemma {:induction false} EventsForUnrolled(es: seq<CommandEvent>, id: seq<byte>)
    requires es != []
    ensures EventsFor(es, id)
         == if es[0].record.id == id then [es[0]] + EventsFor(es[1..], id) else EventsFor(es[1..], id)
  {
  }

  lemma {:induction false} EventsForSnoc(es: seq<CommandEvent>, e: CommandEvent, id: seq<byte>)
    ensures EventsFor(es + [e], id) == EventsFor(es, id) + (if e.record.id == id then [e] else [])
  {
    if es == [] {
      assert es + [e] == [e];
    } else {
      assert (es + [e])[1..] == es[1..] + [e];
      EventsForSnoc(es[1..], e, id);
      hide EventsFor;
      EventsForUnrolled(es, id);
      EventsForUnrolled(es + [e], id);
    }
  }

  /** Every open record is filed under its own id. */
  ghost predicate Filed(c: Commands) {
    forall id | id in c.open :: c.open[id].id == id
  }

  /** Two states look the same to command `id`. */
  ghost predicate SameFor(c: Commands, d: Commands, id: seq<byte>) {
    && (id in c.open <==> id in d.open)
    && (id in c.open ==> c.open[id] == d.open[id])
    && EventsFor(c.events, id) == EventsFor(d.events, id)
  }

  /** A marker of command `id` acts alike on states that look the same to it. */
  lemma {:induction false} OwnMarker(c: Commands, d: Commands, m: Marker)
    requires Filed(c) && Filed(d) && SameFor(c, d, m.id)
    ensures Filed(c.On(m)) && Filed(d.On(m)) && SameFor(c.On(m), d.On(m), m.id)
  {
    EventsForSnoc(c.events, c.On(m).events[|c.events|], m.id);
    EventsForSnoc(d.events, d.On(m).events[|d.events|], m.id);
  }

  /** A marker of another command changes nothing for command `id`. */
  lemma {:induction false} OtherMarker(c: Commands, m: Marker, id: seq<byte>)
    requires Filed(c) && m.id != id
    ensures Filed(c.On(m)) && SameFor(c.On(m), c, id)
  {
    EventsForSnoc(c.events, c.On(m).events[|c.events|], id);
  }

  /** The markers of other commands make no difference to command `id`. */
  lemma {:induction false} OnlyOwnMarkersMatter(c: Commands, d: Commands, ms: seq<Marker>, id: seq<byte>)
    requires Filed(c) && Filed(d) && SameFor(c, d, id)
    ensures SameFor(c.OnAll(ms), d.OnAll(MarkersFor(ms, id)), id)
    decreases |ms|
  {
    hide Commands.On, Filed;
    if ms != [] {
      var m, own := ms[0], MarkersFor(ms[1..], id);
      if m.id == id {
        OwnMarker(c, d, m);
        assert MarkersFor(ms, id)[0] == m && MarkersFor(ms, id)[1..] == own;
        OnlyOwnMarkersMatter(c.On(m), d.On(m), ms[1..], id);
      } else {
        OtherMarker(c, m, id);
        assert MarkersFor(ms, id) == own;
        OnlyOwnMarkersMatter(c.On(m), d, ms[1..], id);
      }
    }
  }

  /** Markers come in log order and do not overlap; all of them lie in [from, to). */
  ghost predicate Ordered(ms: seq<Marker>, from: nat, to: nat) {
    && (forall i | 0 <= i < |ms| :: from <= ms[i].startOffset < ms[i].endOffset <= to)
    && (forall i, j | 0 <= i < j < |ms| :: ms[i].endOffset <= ms[j].startOffset)
  }

  lemma {:induction false} RewriteOrdered(b: seq<byte>, lo: nat, hi: nat, base: nat)
    requires lo <= hi <= |b|
    ensures Ordered(Rewrite(b, lo, hi, base).markers, base + lo, base + hi)
    decreases hi - lo
  {
    hide Rewrite, ParsePayload;
    RewriteUnrolled(b, lo, hi, base);
    var j := IndexIntro(b, lo, hi);
    if j != -1 {
      var k := IndexBel(b, j, hi);
      if k != -1 {
        RewriteOrdered(b, k + 1, hi, base);
        FrameMarkerPlace(b, j, k, base);
      }
    }
  }

  lemma {:induction false} FrameMarkerPlace(b: seq<byte>, j: nat, k: nat, base: nat)
    requires j + INTRO_LEN <= k < |b|
    ensures |FrameMarkers(b, j, k, base)| <= 1
    ensures forall m | m in FrameMarkers(b, j, k, base) :: m.startOffset == base + j && m.endOffset == base + k + 1
  {
  }

  lemma {:induction false} OwnMarkersOrdered(ms: seq<Marker>, id: seq<byte>, from: nat, to: nat)
    requires Ordered(ms, from, to)
    ensures Ordered(MarkersFor(ms, id), from, to)
    decreases |ms|
  {
    if ms != [] {
      var rest := ms[1..];
      assert forall i | 0 <= i < |rest| :: rest[i] == ms[i + 1];
      assert Ordered(rest, ms[0].endOffset, to);
      OwnMarkersOrdered(rest, id, ms[0].endOffset, to);
      hide MarkersFor;
      OrderedCons(ms[0], MarkersFor(rest, id), from, to);
      MarkersForUnrolled(ms, id);
    }
  }

  lemma {:induction false} MarkersForUnrolled(ms: seq<Marker>, id: seq<byte>)
    requires ms != []
    ensures MarkersFor(ms, id) == if ms[0].id == id then [ms[0]] + MarkersFor(ms[1..], id) else MarkersFor(ms[1..], id)
  {
  }

  lemma {:induction false} OrderedCons(m: Marker, rest: seq<Marker>, from: nat, to: nat)
    requires from <= m.startOffset < m.endOffset <= to && Ordered(rest, m.endOffset, to)
    ensures Ordered([m] + rest, from, to) && Ordered(rest, from, to)
  {
    var ms := [m] + rest;
    assert forall i | 0 < i < |ms| :: ms[i] == rest[i - 1];
  }

  function StartRecordOf(s: Marker): CommandRecord
    requires s.CmdStart?
  {
    CommandRecord(s.id, s.command, [], s.endOffset, 0, 0, s.ts, [])
  }

  /** The one record of a command that starts once and then ends once. */
  function RecordOf(s: Marker, e: Marker): CommandRecord
    requires s.CmdStart? && e.CmdEnd? && s.endOffset <= e.startOffset
  {
    CommandRecord(s.id, s.command, e.exitCode, s.endOffset, e.startOffset, e.startOffset - s.endOffset, s.ts, e.ts)
  }

  lemma {:induction false} RecordsFromMarkers(ms: seq<Marker>, from: nat, to: nat, s: Marker, e: Marker)
    requires Ordered(ms, from, to)
    requires s.CmdStart? && e.CmdEnd? && MarkersFor(ms, s.id) == [s, e]
    ensures s.endOffset <= e.startOffset
    ensures EventsFor(NoCommands.OnAll(ms).events, s.id) == [Started(StartRecordOf(s)), Completed(RecordOf(s, e))]
    ensures s.id !in NoCommands.OnAll(ms).open
  {
    var own := MarkersFor(ms, s.id);
    OwnMarkersOrdered(ms, s.id, from, to);
    assert own[0] == s && own[1] == e && s.endOffset > 0;
    assert own[0].endOffset <= own[1].startOffset;
    OnlyOwnMarkersMatter(NoCommands, NoCommands, ms, s.id);
    OwnMarkersIds(ms, s.id);
    assert own[1].id == s.id;
    hide MarkersFor, Ordered;
    OwnRecords(s, e);
  }

  /** A command's own two markers, taken alone. */
  lemma {:induction false} OwnRecords(s: Marker, e: Marker)
    requires s.CmdStart? && e.CmdEnd? && e.id == s.id && 0 < s.endOffset <= e.startOffset
    ensures var c := NoCommands.OnAll([s, e]);
            s.id !in c.open && EventsFor(c.events, s.id) == [Started(StartRecordOf(s)), Completed(RecordOf(s, e))]
  {
    var c1 := NoCommands.On(s);
    var c2 := c1.On(e);
    assert [s, e][1..] == [e] && [e][1..] == [];
    assert NoCommands.OnAll([s, e]) == c1.OnAll([e]) == c2;
    assert c2.events == [Started(StartRecordOf(s)), Completed(RecordOf(s, e))];
    assert c2.events[1..] == [Completed(RecordOf(s, e))] && c2.events[1..][1..] == [];
    EventsForUnrolled(c2.events, s.id);
    EventsForUnrolled(c2.events[1..], s.id);
  }

  lemma {:induction false} OwnMarkersIds(ms: seq<Marker>, id: seq<byte>)
    ensures forall m | m in MarkersFor(ms, id) :: m.id == id
  {
    if ms != [] { OwnMarkersIds(ms[1..], id); }
  }

  /**
   * However a log's frames are spread over flushes, a command whose id starts once and then ends once gets one
   * start event and one completed record, which spans exactly the output between the two frames.
   */
  lemma {:induction false} CommandRecordsAcrossFlushes(b: seq<byte>, lo: nat, flushes: seq<nat>, s: Marker, e: Marker)
    requires lo <= |b| && Schedule(b, lo, flushes) && WellFramed(b, lo)
    requires !SomeFlushCutsIntro(b, lo, flushes)
    requires s.CmdStart? && e.CmdEnd?
    requires MarkersFor(Rewrite(b, lo, SentTo(b, lo, flushes), 0).markers, s.id) == [s, e]
    ensures s.endOffset <= e.startOffset
    ensures EventsFor(NoCommands.OnAll(Delivered(b, lo, flushes).markers).events, s.id)
         == [Started(CommandRecord(s.id, s.command, [], s.endOffset, 0, 0, s.ts, [])),
             Completed(CommandRecord(s.id, s.command, e.exitCode, s.endOffset, e.startOffset,
                                     e.startOffset - s.endOffset, s.ts, e.ts))]
  {
    hide Rewrite;
    ChunkedEqualsWhole(b, lo, flushes);
    RewriteOrdered(b, lo, SentTo(b, lo, flushes), 0);
    RecordsFromMarkers(Rewrite(b, lo, SentTo(b, lo, flushes), 0).markers, lo, SentTo(b, lo, flushes), s, e);
  }
}
