/**
 * Shell logs as the hooks write them: text, with XR frames in between. This gives the rewriting a meaning
 * that does not mention searching, and states the streaming result for a log built from its parts.
 */
module XrLog {
  import opened Wrappers
  import opened Bytes
  import opened XrMarkers
  import opened XrStreaming

  const INTRODUCER: seq<byte> := [0x1b, 0x5d, 0x37, 0x37, 0x37, 0x3b, 0x58, 0x52, 0x3b]

  datatype Log =
    | Text(text: seq<byte>)
    | Frame(text: seq<byte>, payload: seq<byte>, rest: Log)

  /** The bytes of a log; a frame is printed as the introducer, the payload and a BEL. */
  function Render(log: Log): seq<byte> {
    match log
    case Text(text) => text
    case Frame(text, payload, rest) => text + INTRODUCER + payload + [BEL] + Render(rest)
  }

  function TextOf(log: Log): seq<byte> {
    match log
    case Text(text) => text
    case Frame(text, _, rest) => text + TextOf(rest)
  }

  function MarkersIn(log: Log, base: nat): seq<Marker> {
    match log
    case Text(_) => []
    case Frame(text, payload, rest) =>
      var start := base + |text|;
      var end := start + INTRO_LEN + |payload| + 1;
      var m := ParsePayload(payload, start, end);
      (if m.Some? then [m.value] else []) + MarkersIn(rest, end)
  }

  ghost predicate NoIntro(s: seq<byte>) {
    forall i :: !IntroAt(s, i)
  }

  /** No introducer in the text, no BEL in a payload. */
  ghost predicate Valid(log: Log) {
    && NoIntro(log.text)
    && (log.Frame? ==> BEL !in log.payload && Valid(log.rest))
  }

  /** Payloads also hold no introducer, and leave a frame within what a flush may hold back. */
  ghost predicate Tame(log: Log) {
    log.Frame? ==> NoIntro(log.payload) && INTRO_LEN + |log.payload| <= MAX_WITHHELD && Tame(log.rest)
  }

  /** A payload of four fields, and whatever more of them follow. */
  function Fields(kind: seq<byte>, id: seq<byte>, ts: seq<byte>, arg: seq<byte>, more: seq<byte>): seq<byte> {
    kind + [SEMI] + (id + [SEMI] + (ts + [SEMI] + (arg + more)))
  }

  lemma {:induction false} SplitFirst(a: seq<byte>, rest: seq<byte>)
    requires SEMI !in a
    ensures Split(a + [SEMI] + rest, SEMI) == [a] + Split(rest, SEMI)
  {
    var s := a + [SEMI] + rest;
    assert forall i | 0 <= i < |a| :: s[i] == a[i] && a[i] in a;
    assert s[|a|] == SEMI && IndexByte(s, SEMI, 0) == |a|;
    assert s[..|a|] == a && s[|a| + 1..] == rest;
  }

  lemma {:induction false} SplitHead(s: seq<byte>)
    ensures var parts := Split(s, SEMI);
            && SEMI !in parts[0]
            && if |parts| == 1 then parts == [s]
               else exists rest :: s == parts[0] + [SEMI] + rest && parts[1..] == Split(rest, SEMI)
  {
    var k := IndexByte(s, SEMI, 0);
    if k != -1 {
      var rest := s[k + 1..];
      assert s == s[..k] + [SEMI] + rest;
      assert Split(s, SEMI)[1..] == Split(rest, SEMI);
    }
  }

  /** What parses: four fields, the first of them one of the two kinds. */
  lemma {:induction false} FieldsParse(
    kind: seq<byte>, id: seq<byte>, ts: seq<byte>, arg: seq<byte>, more: seq<byte>, startOff: nat, endOff: nat)
    requires SEMI !in kind && SEMI !in id && SEMI !in ts && SEMI !in arg && (more == [] || more[0] == SEMI)
    ensures ParsePayload(Fields(kind, id, ts, arg, more), startOff, endOff)
         == if kind == [0x63, 0x6d, 0x64, 0x5f, 0x73, 0x74, 0x61, 0x72, 0x74]
            then Some(CmdStart(id, ts, arg, startOff, endOff))
            else if kind == [0x63, 0x6d, 0x64, 0x5f, 0x65, 0x6e, 0x64]
            then Some(CmdEnd(id, ts, arg, startOff, endOff))
            else None
  {
    hide Split;
    SplitFirst(kind, id + [SEMI] + (ts + [SEMI] + (arg + more)));
    SplitFirst(id, ts + [SEMI] + (arg + more));
    SplitFirst(ts, arg + more);
    if more == [] {
      assert arg + more == arg;
      SplitHead(arg);
      assert Split(arg, SEMI)[0] == arg;
    } else {
      assert arg + more == arg + [SEMI] + more[1..];
      SplitFirst(arg, more[1..]);
    }
  }

  /** Nothing else parses. */
  lemma {:induction false} ParsedFields(payload: seq<byte>, startOff: nat, endOff: nat)
    requires ParsePayload(payload, startOff, endOff).Some?
    ensures exists kind, id, ts, arg, more ::
              && payload == Fields(kind, id, ts, arg, more) && SEMI !in kind + id + ts + arg
              && (more == [] || more[0] == SEMI)
  {
    hide Split;
    var parts := Split(payload, SEMI);
    SplitHead(payload);
    var rest1 :| payload == parts[0] + [SEMI] + rest1 && parts[1..] == Split(rest1, SEMI);
    SplitHead(rest1);
    var rest2 :| rest1 == parts[1] + [SEMI] + rest2 && parts[1..][1..] == Split(rest2, SEMI);
    SplitHead(rest2);
    var rest3 :| rest2 == parts[2] + [SEMI] + rest3 && parts[1..][1..][1..] == Split(rest3, SEMI);
    SplitHead(rest3);
    var last := Split(rest3, SEMI);
    if |last| == 1 {
      assert rest3 == last[0] + [];
      assert payload == Fields(parts[0], parts[1], parts[2], last[0], []);
    } else {
      var rest4 :| rest3 == last[0] + [SEMI] + rest4 && last[1..] == Split(rest4, SEMI);
      assert rest3 == last[0] + ([SEMI] + rest4);
      assert payload == Fields(parts[0], parts[1], parts[2], last[0], [SEMI] + rest4);
    }
  }

  /** The payload the hook scripts print parses to the marker it describes. */
  lemma {:induction false} HookPayloadParses(
    kind: seq<byte>, id: seq<byte>, ts: seq<byte>, arg: seq<byte>, startOff: nat, endOff: nat)
    requires kind == CMD_START || kind == CMD_END
    requires SEMI !in id && SEMI !in ts && SEMI !in arg
    ensures ParsePayload(Join([kind, id, ts, arg], SEMI), startOff, endOff)
         == Some(if kind == CMD_START then CmdStart(id, ts, arg, startOff, endOff)
                 else CmdEnd(id, ts, arg, startOff, endOff))
  {
    SplitJoin([kind, id, ts, arg], SEMI);
  }

  lemma {:induction false} RenderedParts(b: seq<byte>, lo: nat, log: Log)
    requires log.Frame? && lo <= |b| && b[lo..] == Render(log)
    ensures var j := lo + |log.text|;
            var k := j + INTRO_LEN + |log.payload|;
            && k < |b| && b[lo..j] == log.text && b[j..j + INTRO_LEN] == INTRODUCER
            && b[j + INTRO_LEN..k] == log.payload && b[k..k + 1] == [BEL] && b[k + 1..] == Render(log.rest)
  {
    var j := lo + |log.text|;
    var tail := [BEL] + Render(log.rest);
    RenderUnrolled(log);
    hide Render;
    Peel(b, lo, log.text, INTRODUCER + (log.payload + tail));
    Peel(b, j, INTRODUCER, log.payload + tail);
    Peel(b, j + INTRO_LEN, log.payload, tail);
    Peel(b, j + INTRO_LEN + |log.payload|, [BEL], Render(log.rest));
  }

  /** Where the first frame of a rendered log lies. */
  lemma {:induction false} RenderedFrame(b: seq<byte>, lo: nat, log: Log)
    requires log.Frame? && NoIntro(log.text) && BEL !in log.payload && lo <= |b| && b[lo..] == Render(log)
    ensures var j := lo + |log.text|;
            var k := j + INTRO_LEN + |log.payload|;
            && FrameAt(b, j, k) && b[lo..j] == log.text && b[j + INTRO_LEN..k] == log.payload
            && b[k + 1..] == Render(log.rest)
            && (forall i | lo <= i < j :: !IntroAt(b, i))
  {
    var j := lo + |log.text|;
    var k := j + INTRO_LEN + |log.payload|;
    hide Render, IntroAt, FrameAt, INTRODUCER;
    RenderedParts(b, lo, log);
    FrameFromBytes(b, j, k, log.payload);
    forall i | lo <= i < j ensures !IntroAt(b, i) {
      if IntroAt(b, i) { IntroInText(b, lo, j, i, log.text); }
    }
  }

  lemma {:induction false} FrameFromBytes(b: seq<byte>, j: nat, k: nat, payload: seq<byte>)
    requires j + INTRO_LEN <= k < |b| && b[j..j + INTRO_LEN] == INTRODUCER
    requires b[j + INTRO_LEN..k] == payload && BEL !in payload && b[k..k + 1] == [BEL]
    ensures FrameAt(b, j, k) && IntroAt(b, j)
  {
    IntroFromBytes(b, j);
    IntroShape(b, j);
    hide IntroAt;
    assert b[k] == b[k..k + 1][0];
    assert forall i | j + INTRO_LEN <= i < k :: b[i] == payload[i - j - INTRO_LEN];
  }

  lemma {:induction false} RenderUnrolled(log: Log)
    requires log.Frame?
    ensures Render(log) == log.text + (INTRODUCER + (log.payload + ([BEL] + Render(log.rest))))
  {
  }

  lemma {:induction false} Peel(b: seq<byte>, lo: nat, part: seq<byte>, rest: seq<byte>)
    requires lo <= |b| && b[lo..] == part + rest
    ensures lo + |part| <= |b| && b[lo..lo + |part|] == part && b[lo + |part|..] == rest
  {
    assert |b| - lo == |part| + |rest|;
    assert b[lo..lo + |part|] == b[lo..][..|part|];
    assert b[lo + |part|..] == b[lo..][|part|..];
  }

  lemma {:induction false} IntroFromBytes(b: seq<byte>, j: nat)
    requires j + INTRO_LEN <= |b| && b[j..j + INTRO_LEN] == INTRODUCER
    ensures IntroAt(b, j)
  {
    forall i | 0 <= i < INTRO_LEN ensures b[j + i] == INTRODUCER[i] { assert b[j..j + INTRO_LEN][i] == b[j + i]; }
    assert b[j + 0] == ESC;
  }

  /** An introducer that starts in the text would lie in it, since the next one starts with an ESC behind it. */
  lemma {:induction false} IntroInText(b: seq<byte>, lo: nat, j: nat, i: nat, text: seq<byte>)
    requires lo <= i < j <= |b| && b[lo..j] == text && IntroAt(b, j) && IntroAt(b, i)
    ensures IntroAt(text, i - lo)
  {
    IntroShape(b, i);
    IntroShape(b, j);
    assert i + INTRO_LEN <= j;
    assert forall x | 0 <= x < |text| :: text[x] == b[lo + x];
  }

  /** One pass over a rendered log takes out exactly its frames, and reports them where they lie. */
  lemma {:induction false} RewriteRendered(b: seq<byte>, lo: nat, log: Log)
    requires Valid(log) && lo <= |b| && b[lo..] == Render(log)
    ensures Rewrite(b, lo, |b|, 0) == Rewritten(TextOf(log), MarkersIn(log, lo))
    decreases log
  {
    hide Rewrite, IntroAt, IndexIntro, IndexBel, NoIntro, ParsePayload;
    RewriteUnrolled(b, lo, |b|, 0);
    if log.Text? {
      forall i | lo <= i ensures !IntroAt(b, i) { TextHasNoIntro(b, lo, log.text, i); }
    } else {
      RenderedFrame(b, lo, log);
      var j := lo + |log.text|;
      var k := j + INTRO_LEN + |log.payload|;
      FrameFound(b, lo, j, k);
      RewriteRendered(b, k + 1, log.rest);
      assert FrameMarkers(b, j, k, 0) + MarkersIn(log.rest, k + 1) == MarkersIn(log, lo);
    }
  }

  lemma {:induction false} FrameFound(b: seq<byte>, lo: nat, j: nat, k: nat)
    requires lo <= j && FrameAt(b, j, k) && forall i | lo <= i < j :: !IntroAt(b, i)
    ensures IndexIntro(b, lo, |b|) == j && IndexBel(b, j, |b|) == k
  {
    hide IntroAt;
    IntroFits(b, j);
    var x := IndexIntro(b, lo, |b|);
    assert x == j;
  }

  lemma {:induction false} IntroFits(b: seq<byte>, j: int)
    requires IntroAt(b, j)
    ensures 0 <= j && j + INTRO_LEN <= |b|
  {
  }

  lemma {:induction false} TextHasNoIntro(b: seq<byte>, lo: nat, text: seq<byte>, i: nat)
    requires lo <= |b| && b[lo..] == text && NoIntro(text) && lo <= i
    ensures !IntroAt(b, i)
  {
    if IntroAt(b, i) {
      assert IntroAt(b[lo..], i - lo);
    }
  }

  /** A tame log is well framed, and each of its introducers opens a complete frame. */
  lemma {:induction false} RenderedWellFramed(b: seq<byte>, lo: nat, log: Log)
    requires Valid(log) && Tame(log) && lo <= |b| && b[lo..] == Render(log)
    ensures WellFramed(b, lo)
    ensures forall j | lo <= j && IntroAt(b, j) :: FrameAt(b, j, BelOrEnd(b, j))
    decreases log
  {
    hide IntroAt;
    if log.Text? {
      forall i | lo <= i ensures !IntroAt(b, i) { TextHasNoIntro(b, lo, log.text, i); }
    } else {
      RenderedFrame(b, lo, log);
      var j := lo + |log.text|;
      var k := j + INTRO_LEN + |log.payload|;
      FrameEnd(b, j, k);
      IntroShape(b, j);
      forall i | j < i <= k ensures !IntroAt(b, i) { PayloadHasNoIntro(b, j, k, log.payload, i); }
      RenderedWellFramed(b, k + 1, log.rest);
    }
  }

  lemma {:induction false} PayloadHasNoIntro(b: seq<byte>, j: nat, k: nat, payload: seq<byte>, i: nat)
    requires FrameAt(b, j, k) && b[j + INTRO_LEN..k] == payload && NoIntro(payload) && j < i <= k
    ensures !IntroAt(b, i)
  {
    IntroShape(b, j);
    if IntroAt(b, i) {
      IntroShape(b, i);
      assert i + INTRO_LEN <= k;
      assert IntroAt(b[j + INTRO_LEN..k], i - j - INTRO_LEN);
    }
  }

  /** The read position lies inside an introducer. */
  ghost predicate InsideIntro(b: seq<byte>, p: nat) {
    exists j :: j < p < j + INTRO_LEN && IntroAt(b, j)
  }

  lemma {:induction false} InsideIsCut(b: seq<byte>, p: nat)
    requires forall j | 0 <= j && IntroAt(b, j) :: FrameAt(b, j, BelOrEnd(b, j))
    ensures InsideIntro(b, p) <==> CutsIntro(b, 0, |b|, p)
  {
  }

  /** Once everything has been read, nothing of a tame log stays pending. */
  lemma {:induction false} AllSent(b: seq<byte>, lo: nat, flushes: seq<nat>)
    requires lo <= |b| && Schedule(b, lo, flushes) && WellFramed(b, lo)
    requires forall j | lo <= j && IntroAt(b, j) :: FrameAt(b, j, BelOrEnd(b, j))
    requires flushes != [] && flushes[|flushes| - 1] == |b|
    ensures SentTo(b, lo, flushes) == |b|
    decreases |flushes|
  {
    hide FlushPoint, IntroAt;
    var p := FlushPoint(b, lo, flushes[0]);
    FlushPointShape(b, lo, flushes[0]);
    if |flushes| == 1 {
      assert flushes[1..] == [];
    } else {
      AllSent(b, p, flushes[1..]);
    }
  }

  /**
   * The stream delivers the log's text and its markers, at their absolute offsets, if and only if no flush
   * found the read position inside an introducer.
   */
  lemma {:induction false} StreamDeliversLog(log: Log, flushes: seq<nat>)
    requires Valid(log) && Tame(log)
    requires Schedule(Render(log), 0, flushes) && flushes != [] && flushes[|flushes| - 1] == |Render(log)|
    ensures Delivered(Render(log), 0, flushes) == Rewritten(TextOf(log), MarkersIn(log, 0))
            <==> forall i | 0 <= i < |flushes| :: !InsideIntro(Render(log), flushes[i])
  {
    hide Rewrite, FlushPoint, IntroAt;
    var b := Render(log);
    assert b[0..] == b;
    RenderedWellFramed(b, 0, log);
    RewriteRendered(b, 0, log);
    AllSent(b, 0, flushes);
    ChunkedEqualsWhole(b, 0, flushes);
    forall i | 0 <= i < |flushes| ensures InsideIntro(b, flushes[i]) <==> CutsIntro(b, 0, |b|, flushes[i]) {
      InsideIsCut(b, flushes[i]);
    }
  }
}
