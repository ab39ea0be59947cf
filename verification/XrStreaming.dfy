/** Rewriting a log piece by piece, as it is read, against rewriting it in one go. */
module XrStreaming {
  import opened Seqs
  import opened Bytes
  import opened XrMarkers

  /** Where the frame that opens at `j` stops: its BEL, or the end of the log while the BEL is missing. */
  function BelOrEnd(b: seq<byte>, j: nat): (e: nat)
    requires j <= |b|
    ensures j <= e <= |b|
    ensures forall i | j <= i < e :: b[i] != BEL
    ensures e < |b| ==> b[e] == BEL
  {
    var k := IndexBel(b, j, |b|);
    if k == -1 then |b| else k
  }

  /**
   * The shape of log the stream promises to rewrite faithfully: from `lo` on, no frame holds another
   * introducer, and no frame spans more than MAX_WITHHELD bytes before its BEL.
   */
  ghost predicate WellFramed(b: seq<byte>, lo: nat) {
    forall j | lo <= j && IntroAt(b, j) ::
      && BelOrEnd(b, j) - j <= MAX_WITHHELD
      && forall i | j < i < BelOrEnd(b, j) :: !IntroAt(b, i)
  }

  /** Position `p` falls inside a frame that lies wholly in b[lo..hi]. */
  ghost predicate CutsFrame(b: seq<byte>, lo: nat, hi: nat, p: nat) {
    exists j, k :: lo <= j < p <= k < hi && FrameAt(b, j, k)
  }

  /** Position `p` falls inside the introducer of a frame that lies wholly in b[lo..hi]. */
  ghost predicate CutsIntro(b: seq<byte>, lo: nat, hi: nat, p: nat) {
    exists j, k :: lo <= j < p < j + INTRO_LEN && k < hi && FrameAt(b, j, k)
  }

  lemma {:induction false} FrameEnd(b: seq<byte>, j: nat, k: int)
    requires FrameAt(b, j, k)
    ensures BelOrEnd(b, j) == k
  {
  }

  lemma {:induction false} FirstFrame(b: seq<byte>, lo: nat, hi: nat)
    requires lo <= hi <= |b|
    ensures var j := IndexIntro(b, lo, hi);
            j != -1 ==> var k := IndexBel(b, j, hi); k != -1 ==> FrameAt(b, j, k)
  {
    var j := IndexIntro(b, lo, hi);
    if j != -1 { IntroShape(b, j); }
  }

  /** A stretch with no complete frame in it is left alone. */
  lemma {:induction false} RewritePlain(b: seq<byte>, lo: nat, hi: nat, base: nat)
    requires lo <= hi <= |b|
    requires forall j, k | lo <= j && k < hi :: !FrameAt(b, j, k)
    ensures Rewrite(b, lo, hi, base) == Rewritten(b[lo..hi], [])
  {
    hide Rewrite;
    RewriteUnrolled(b, lo, hi, base);
    FirstFrame(b, lo, hi);
  }

  lemma {:induction false} NoEarlierIntro(b: seq<byte>, lo: nat, mid: nat, hi: nat)
    requires lo <= mid <= hi <= |b|
    requires forall i | lo <= i < mid :: !IntroAt(b, i)
    ensures IndexIntro(b, lo, hi) == IndexIntro(b, mid, hi)
  {
    hide IntroAt, IndexIntro;
    var j, j' := IndexIntro(b, lo, hi), IndexIntro(b, mid, hi);
    if j != -1 { assert mid <= j; }
    if j' != -1 { assert lo <= j'; }
  }

  /** Text in front of the first introducer is copied. */
  lemma {:induction false} RewriteSkipsText(b: seq<byte>, lo: nat, mid: nat, hi: nat, base: nat)
    requires lo <= mid <= hi <= |b|
    requires forall i | lo <= i < mid :: !IntroAt(b, i)
    ensures Rewrite(b, lo, hi, base).clean == b[lo..mid] + Rewrite(b, mid, hi, base).clean
    ensures Rewrite(b, lo, hi, base).markers == Rewrite(b, mid, hi, base).markers
  {
    hide Rewrite, IntroAt, FrameMarkers, IndexIntro, IndexBel;
    RewriteUnrolled(b, lo, hi, base);
    RewriteUnrolled(b, mid, hi, base);
    var j := IndexIntro(b, mid, hi);
    NoEarlierIntro(b, lo, mid, hi);
    if j == -1 || IndexBel(b, j, hi) == -1 {
      assert b[lo..hi] == b[lo..mid] + b[mid..hi];
    } else {
      assert b[lo..j] == b[lo..mid] + b[mid..j];
      Associates(b[lo..mid], b[mid..j], Rewrite(b, IndexBel(b, j, hi) + 1, hi, base).clean);
    }
  }

  /** Rewriting the two sides of `p` apart agrees with rewriting across `p`, or leaves more bytes in. */
  ghost predicate SplitsWell(b: seq<byte>, lo: nat, p: nat, hi: nat, base: nat)
    requires lo <= p <= hi <= |b|
  {
    var apart := Rewrite(b, lo, p, base).Then(Rewrite(b, p, hi, base));
    if CutsFrame(b, lo, hi, p)
    then |apart.clean| > |Rewrite(b, lo, hi, base).clean|
    else apart == Rewrite(b, lo, hi, base)
  }

  lemma {:induction false} RewriteSplit(b: seq<byte>, lo: nat, p: nat, hi: nat, base: nat)
    requires lo <= p <= hi <= |b| && WellFramed(b, lo)
    ensures SplitsWell(b, lo, p, hi, base)
    decreases hi - lo
  {
    hide Rewrite;
    RewriteUnrolled(b, lo, hi, base);
    FirstFrame(b, lo, hi);
    var j := IndexIntro(b, lo, hi);
    var k := if j == -1 then -1 else IndexBel(b, j, hi);
    if k == -1 {
      RewritePlain(b, lo, p, base);
      RewritePlain(b, p, hi, base);
      assert b[lo..hi] == b[lo..p] + b[p..hi];
    } else if p <= j {
      SplitInText(b, lo, p, hi, base, j, k);
    } else if p <= k {
      SplitInFrame(b, lo, p, hi, base, j, k);
    } else {
      FrameEnd(b, j, k);
      RewriteSplit(b, k + 1, p, hi, base);
      SplitAfterFrame(b, lo, p, hi, base, j, k);
    }
  }

  lemma {:induction false} SplitInText(b: seq<byte>, lo: nat, p: nat, hi: nat, base: nat, j: nat, k: int)
    requires lo <= p <= j < k < hi <= |b| && WellFramed(b, lo)
    requires j == IndexIntro(b, lo, hi) && FrameAt(b, j, k)
    ensures SplitsWell(b, lo, p, hi, base)
  {
    hide Rewrite;
    RewritePlain(b, lo, p, base);
    RewriteSkipsText(b, lo, p, hi, base);
  }

  lemma {:induction false} SplitInFrame(b: seq<byte>, lo: nat, p: nat, hi: nat, base: nat, j: nat, k: int)
    requires lo <= j < p <= k < hi <= |b| && WellFramed(b, lo)
    requires j == IndexIntro(b, lo, hi) && FrameAt(b, j, k)
    ensures SplitsWell(b, lo, p, hi, base)
  {
    hide Rewrite;
    FrameEnd(b, j, k);
    RewriteUnrolled(b, lo, hi, base);
    RewritePlain(b, lo, p, base);
    RewriteSkipsText(b, p, k + 1, hi, base);
  }

  lemma {:induction false} SplitAfterFrame(b: seq<byte>, lo: nat, p: nat, hi: nat, base: nat, j: nat, k: int)
    requires lo <= j < k < p <= hi <= |b| && WellFramed(b, lo)
    requires j == IndexIntro(b, lo, hi) && FrameAt(b, j, k)
    requires SplitsWell(b, k + 1, p, hi, base)
    ensures SplitsWell(b, lo, p, hi, base)
  {
    hide Rewrite;
    FrameEnd(b, j, k);
    RewriteUnrolled(b, lo, hi, base);
    RewriteUnrolled(b, lo, p, base);
    assert IndexIntro(b, lo, p) == j;
    assert IndexBel(b, j, p) == k == IndexBel(b, j, hi);
    var fm := FrameMarkers(b, j, k, base);
    var left, right := Rewrite(b, k + 1, p, base), Rewrite(b, p, hi, base);
    Associates(b[lo..j], left.clean, right.clean);
    Associates(fm, left.markers, right.markers);
    assert CutsFrame(b, lo, hi, p) <==> CutsFrame(b, k + 1, hi, p);
  }

  /**
   * Each flush happens with the read position somewhere from what has been sent to the end of the log. A reader
   * that starts again from what has been sent may flush at an earlier position than the reader before it.
   */
  ghost predicate Schedule(b: seq<byte>, lo: nat, flushes: seq<nat>)
    decreases |flushes|
  {
    flushes != [] ==> lo <= flushes[0] <= |b| && Schedule(b, FlushPoint(b, lo, flushes[0]), flushes[1..])
  }

  lemma {:induction false} ScheduleBounds(b: seq<byte>, lo: nat, flushes: seq<nat>)
    requires Schedule(b, lo, flushes)
    ensures forall i | 0 <= i < |flushes| :: lo <= flushes[i] <= |b|
    decreases |flushes|
  {
    hide FlushPoint;
    if flushes != [] { ScheduleBounds(b, FlushPoint(b, lo, flushes[0]), flushes[1..]); }
  }

  /** How far a stream that starts at `lo` has been sent, after flushing with the read position at each of `flushes`. */
  function SentTo(b: seq<byte>, lo: nat, flushes: seq<nat>): (e: nat)
    requires lo <= |b| && Schedule(b, lo, flushes)
    ensures lo <= e <= |b|
    ensures if flushes == [] then e == lo else e <= flushes[|flushes| - 1] <= e + MAX_WITHHELD
    decreases |flushes|
  {
    if flushes == [] then lo else SentTo(b, FlushPoint(b, lo, flushes[0]), flushes[1..])
  }

  /** What that stream has sent: each chunk rewritten by itself, one after the other. */
  function Delivered(b: seq<byte>, lo: nat, flushes: seq<nat>): Rewritten
    requires lo <= |b| && Schedule(b, lo, flushes)
    decreases |flushes|
  {
    if flushes == [] then Rewritten([], [])
    else
      var p := FlushPoint(b, lo, flushes[0]);
      Rewrite(b, lo, p, 0).Then(Delivered(b, p, flushes[1..]))
  }

  /** Some flush catches the reader inside an introducer whose frame has been sent in full. */
  ghost predicate SomeFlushCutsIntro(b: seq<byte>, lo: nat, flushes: seq<nat>)
    requires lo <= |b| && Schedule(b, lo, flushes)
  {
    exists i :: 0 <= i < |flushes| && CutsIntro(b, lo, SentTo(b, lo, flushes), flushes[i])
  }

  /** A flush stops at the read position or at an introducer still open there; frames before that are closed. */
  lemma {:induction false} FlushPointShape(b: seq<byte>, lo: nat, r: nat)
    requires lo <= r <= |b| && WellFramed(b, lo)
    ensures var p := FlushPoint(b, lo, r);
            && (p == r || (IntroAt(b, p) && p + INTRO_LEN <= r <= BelOrEnd(b, p)))
            && (forall j | lo <= j < p && j + INTRO_LEN <= r && IntroAt(b, j) :: BelOrEnd(b, j) < p)
  {
    var last := LastIntro(b, lo, r);
    if last != -1 { IntroShape(b, last); }
  }

  /** Holding back keeps chunk ends out of frames, except when the reader is caught inside an introducer. */
  lemma {:induction false} FlushCutsOnlyIntros(b: seq<byte>, lo: nat, r: nat, e: nat)
    requires lo <= r <= |b| && WellFramed(b, lo)
    requires FlushPoint(b, lo, r) <= e <= |b|
    ensures CutsFrame(b, lo, e, FlushPoint(b, lo, r)) <==> CutsIntro(b, lo, e, r)
  {
    hide FlushPoint;
    forall j, k | lo <= j && FrameAt(b, j, k)
      ensures j < FlushPoint(b, lo, r) <= k <==> j < r < j + INTRO_LEN
    {
      FrameCut(b, lo, r, j, k);
    }
  }

  lemma {:induction false} FrameCut(b: seq<byte>, lo: nat, r: nat, j: nat, k: nat)
    requires lo <= r <= |b| && WellFramed(b, lo) && lo <= j && FrameAt(b, j, k)
    ensures j < FlushPoint(b, lo, r) <= k <==> j < r < j + INTRO_LEN
  {
    hide FlushPoint;
    FlushPointShape(b, lo, r);
    FrameEnd(b, j, k);
    IntroShape(b, j);
  }

  /** Frames cut by later flushes are the same, whether one looks from `lo` or from the end of the first chunk. */
  lemma {:induction false} LaterCuts(b: seq<byte>, lo: nat, p: nat, e: nat, r: nat)
    requires lo <= p <= r && WellFramed(b, lo) && !CutsFrame(b, lo, e, p)
    ensures CutsIntro(b, lo, e, r) <==> CutsIntro(b, p, e, r)
  {
  }

  lemma {:induction false} DeliveredAgainstWhole(b: seq<byte>, lo: nat, flushes: seq<nat>)
    requires lo <= |b| && Schedule(b, lo, flushes) && WellFramed(b, lo)
    ensures var whole := Rewrite(b, lo, SentTo(b, lo, flushes), 0);
            if SomeFlushCutsIntro(b, lo, flushes)
            then |Delivered(b, lo, flushes).clean| > |whole.clean|
            else Delivered(b, lo, flushes) == whole
    decreases |flushes|
  {
    hide Rewrite, FlushPoint;
    var e := SentTo(b, lo, flushes);
    if flushes == [] {
      RewriteUnrolled(b, lo, lo, 0);
    } else {
      var r, rest := flushes[0], flushes[1..];
      var p := FlushPoint(b, lo, r);
      DeliveredAgainstWhole(b, p, rest);
      ScheduleBounds(b, p, rest);
      RewriteSplit(b, lo, p, e, 0);
      FlushCutsOnlyIntros(b, lo, r, e);
      if !CutsFrame(b, lo, e, p) {
        forall i | 0 <= i < |rest|
          ensures CutsIntro(b, lo, e, rest[i]) <==> CutsIntro(b, p, e, rest[i])
        {
          LaterCuts(b, lo, p, e, rest[i]);
        }
        assert SomeFlushCutsIntro(b, lo, flushes) <==> SomeFlushCutsIntro(b, p, rest) by {
          assert flushes == [r] + rest;
        }
      } else {
        assert CutsIntro(b, lo, e, flushes[0]);
      }
    }
  }

  /**
   * Chunked equals whole, exactly: on a well-framed log, rewriting chunk by chunk gives the text and the
   * markers that one pass over everything sent gives, if and only if no flush caught the reader inside an
   * introducer.
   */
  lemma {:induction false} ChunkedEqualsWhole(b: seq<byte>, lo: nat, flushes: seq<nat>)
    requires lo <= |b| && Schedule(b, lo, flushes) && WellFramed(b, lo)
    ensures Delivered(b, lo, flushes) == Rewrite(b, lo, SentTo(b, lo, flushes), 0)
            <==> !SomeFlushCutsIntro(b, lo, flushes)
  {
    hide Rewrite;
    DeliveredAgainstWhole(b, lo, flushes);
  }
}
