/** XR control frames in a shell log: finding them, removing them, and holding back an incomplete one. */
module XrMarkers {
  import opened Seqs
  import opened Wrappers
  import opened Bytes

  const BEL: byte := 0x07
  const ESC: byte := 0x1b
  const SEMI: byte := 0x3b
  /** The length of the introducer ESC ] 7 7 7 ; X R ; */
  const INTRO_LEN := 9
  /** "cmd_start" */
  const CMD_START: seq<byte> := [0x63, 0x6d, 0x64, 0x5f, 0x73, 0x74, 0x61, 0x72, 0x74]
  /** "cmd_end" */
  const CMD_END: seq<byte> := [0x63, 0x6d, 0x64, 0x5f, 0x65, 0x6e, 0x64]
  const MAX_WITHHELD := 4096

  /**
   * A recognised frame, with the log offsets of its first byte and of the byte after its BEL.
   * The timestamp, command and exit-code fields are kept as the bytes that were sent.
   */
  datatype Marker =
    | CmdStart(id: seq<byte>, ts: seq<byte>, command: seq<byte>, startOffset: nat, endOffset: nat)
    | CmdEnd(id: seq<byte>, ts: seq<byte>, exitCode: seq<byte>, startOffset: nat, endOffset: nat)

  /** What rewriting a stretch of log yields: the bytes left over, and the frames taken out. */
  datatype Rewritten = Rewritten(clean: seq<byte>, markers: seq<Marker>) {
    function Then(next: Rewritten): Rewritten {
      Rewritten(clean + next.clean, markers + next.markers)
    }

    lemma {:induction false} ThenAssociates(next: Rewritten, last: Rewritten)
      ensures Then(next).Then(last) == Then(next.Then(last))
    {
      assert clean + next.clean + last.clean == clean + (next.clean + last.clean);
      assert markers + next.markers + last.markers == markers + (next.markers + last.markers);
    }
  }

  function ParsePayload(payload: seq<byte>, startOff: nat, endOff: nat): Option<Marker> {
    var parts := Split(payload, SEMI);
    if |parts| < 4 then None
    else if parts[0] == CMD_START then Some(CmdStart(parts[1], parts[2], parts[3], startOff, endOff))
    else if parts[0] == CMD_END then Some(CmdEnd(parts[1], parts[2], parts[3], startOff, endOff))
    else None
  }

  /** The markers contributed by the frame b[j..k+1], whose first byte has offset base + j. */
  function FrameMarkers(b: seq<byte>, j: nat, k: nat, base: nat): seq<Marker>
    requires j + INTRO_LEN <= k < |b|
  {
    var m := ParsePayload(b[j + INTRO_LEN..k], base + j, base + k + 1);
    if m.Some? then [m.value] else []
  }

  /** The introducer ESC ] 7 7 7 ; X R ; starts at position `j`. */
  predicate IntroAt(b: seq<byte>, j: int) {
    && 0 <= j <= |b| - INTRO_LEN
    && b[j] == ESC && b[j + 1] == 0x5d && b[j + 2] == 0x37 && b[j + 3] == 0x37 && b[j + 4] == 0x37
    && b[j + 5] == SEMI && b[j + 6] == 0x58 && b[j + 7] == 0x52 && b[j + 8] == SEMI
  }

  /** bytes.Index(b[lo:hi], xrOscPrefix), given as a position in `b`. */
  function IndexIntro(b: seq<byte>, lo: nat, hi: nat): (r: int)
    requires lo <= hi <= |b|
    ensures r == -1 || (lo <= r <= hi - INTRO_LEN && IntroAt(b, r))
    ensures forall i | lo <= i <= hi - INTRO_LEN && (r == -1 || i < r) :: !IntroAt(b, i)
    decreases hi - lo
  {
    if lo > hi - INTRO_LEN then -1
    else if IntroAt(b, lo) then lo
    else IndexIntro(b, lo + 1, hi)
  }

  /** bytes.LastIndex(b[lo:hi], xrOscPrefix), given as a position in `b`. */
  function LastIntro(b: seq<byte>, lo: nat, hi: nat): (r: int)
    requires lo <= hi <= |b|
    ensures r == -1 || (lo <= r <= hi - INTRO_LEN && IntroAt(b, r))
    ensures forall i | lo <= i <= hi - INTRO_LEN && r < i :: !IntroAt(b, i)
    decreases hi - lo
  {
    if lo > hi - INTRO_LEN then -1
    else if IntroAt(b, hi - INTRO_LEN) then hi - INTRO_LEN
    else LastIntro(b, lo, hi - 1)
  }

  /** bytes.IndexByte(b[lo:hi], BEL), given as a position in `b`. */
  function IndexBel(b: seq<byte>, lo: nat, hi: nat): (r: int)
    requires lo <= hi <= |b|
    ensures r == -1 || (lo <= r < hi && b[r] == BEL)
    ensures forall i | lo <= i < hi && (r == -1 || i < r) :: b[i] != BEL
    decreases hi - lo
  {
    if lo == hi then -1
    else if b[lo] == BEL then lo
    else IndexBel(b, lo + 1, hi)
  }

  /** b[j..k+1] is one complete frame: an introducer and everything up to the first BEL after it. */
  ghost predicate FrameAt(b: seq<byte>, j: int, k: int) {
    IntroAt(b, j) && j + INTRO_LEN <= k < |b| && b[k] == BEL && forall i | j <= i < k :: b[i] != BEL
  }

  /** flushablePrefixLen(b[lo:hi]), given as the position in `b` up to which the stretch may be sent. */
  function FlushPoint(b: seq<byte>, lo: nat, hi: nat): (p: nat)
    requires lo <= hi <= |b|
    ensures lo <= p <= hi <= p + 4096
  {
    var last := LastIntro(b, lo, hi);
    if last == -1 then hi
    else if IndexBel(b, last, hi) != -1 then hi
    else if hi - last > MAX_WITHHELD then hi
    else last
  }

  /** An introducer at `j` is the last of the stretch, and has no BEL behind it. */
  ghost predicate StillOpen(b: seq<byte>, j: int, hi: nat)
    requires hi <= |b|
  {
    && IntroAt(b, j) && j + INTRO_LEN <= hi
    && (forall i | j < i <= hi - INTRO_LEN :: !IntroAt(b, i)) && (forall i | j <= i < hi :: b[i] != BEL)
  }

  /** All is flushed, unless a frame is still open at its last introducer; what is more than 4096 bytes goes too. */
  lemma {:induction false} FlushPointIs(b: seq<byte>, lo: nat, hi: nat)
    requires lo <= hi <= |b|
    ensures (forall j | lo <= j && hi - j <= 4096 :: !StillOpen(b, j, hi)) ==> FlushPoint(b, lo, hi) == hi
    ensures forall j | lo <= j && hi - j <= 4096 && StillOpen(b, j, hi) :: FlushPoint(b, lo, hi) == j
    ensures forall j | lo <= j && hi - j > 4096 && StillOpen(b, j, hi) :: FlushPoint(b, lo, hi) == hi
  {
    hide IntroAt;
    var last := LastIntro(b, lo, hi);
    if last != -1 && IndexBel(b, last, hi) == -1 {
      assert StillOpen(b, last, hi);
    }
    forall j | lo <= j && StillOpen(b, j, hi) ensures j == last && IndexBel(b, last, hi) == -1 {
    }
  }

  function FlushablePrefixLen(pending: seq<byte>): (n: nat)
    ensures n <= |pending| <= n + MAX_WITHHELD
  {
    FlushPoint(pending, 0, |pending|)
  }

  lemma {:induction false} IntroShape(b: seq<byte>, j: int)
    requires IntroAt(b, j)
    ensures forall i | j < i < j + INTRO_LEN :: b[i] != ESC && b[i] != BEL
    ensures b[j] == ESC
  {
  }

  /**
   * Rewriting b[lo..hi] in one pass: every complete frame goes, and is reported where its payload parses.
   * Position `i` of `b` has log offset base + i.
   */
  function Rewrite(b: seq<byte>, lo: nat, hi: nat, base: nat): Rewritten
    requires lo <= hi <= |b|
    decreases hi - lo
  {
    var j := IndexIntro(b, lo, hi);
    if j == -1 then Rewritten(b[lo..hi], [])
    else
      var k := IndexBel(b, j, hi);
      if k == -1 then Rewritten(b[lo..hi], [])
      else Rewritten(b[lo..j], FrameMarkers(b, j, k, base)).Then(Rewrite(b, k + 1, hi, base))
  }

  /** Rewrite, unrolled once: nothing to take out, or one frame and then the rest. */
  lemma {:induction false} RewriteUnrolled(b: seq<byte>, lo: nat, hi: nat, base: nat)
    requires lo <= hi <= |b|
    ensures var j := IndexIntro(b, lo, hi);
            var r := Rewrite(b, lo, hi, base);
            if j == -1 || IndexBel(b, j, hi) == -1 then r == Rewritten(b[lo..hi], [])
            else
              var k := IndexBel(b, j, hi);
              && j + INTRO_LEN <= k
              && r.clean == b[lo..j] + Rewrite(b, k + 1, hi, base).clean
              && r.markers == FrameMarkers(b, j, k, base) + Rewrite(b, k + 1, hi, base).markers
  {
    var j := IndexIntro(b, lo, hi);
    if j != -1 { IntroShape(b, j); }
  }

  /** stripXRMarkers: the loop over `i` and `out`. */
  method StripXRMarkers(b: seq<byte>, baseOffset: nat) returns (out: seq<byte>, markers: seq<Marker>)
    ensures Rewritten(out, markers) == Rewrite(b, 0, |b|, baseOffset)
  {
    hide Rewrite, IntroAt, FrameMarkers;
    out, markers := [], [];
    var i := 0;
    ghost var todo := Rewrite(b, 0, |b|, baseOffset);
    while i < |b|
      invariant 0 <= i <= |b|
      invariant todo == Rewrite(b, i, |b|, baseOffset)
      invariant Rewrite(b, 0, |b|, baseOffset) == Rewritten(out + todo.clean, markers + todo.markers)
    {
      RewriteUnrolled(b, i, |b|, baseOffset);
      var j := IndexIntro(b, i, |b|);
      if j == -1 {
        out := out + b[i..];
        return;
      }
      ghost var was, had, before := out, markers, b[i..j];
      out := out + b[i..j];
      var k := IndexBel(b, j, |b|);
      if k == -1 {
        out := out + b[j..];
        assert b[i..] == b[i..j] + b[j..];
        return;
      }
      markers := markers + FrameMarkers(b, j, k, baseOffset);
      i := k + 1;
      todo := Rewrite(b, i, |b|, baseOffset);
      Associates(was, before, todo.clean);
      Associates(had, FrameMarkers(b, j, k, baseOffset), todo.markers);
    }
    RewriteUnrolled(b, i, |b|, baseOffset);
  }
}
