/** The windowed substring search over a log file, against the plain meaning of an occurrence. */
module ShellSearch {
  import opened Bytes

  const SEARCH_CHUNK: nat := 256 * 1024

  /** A reported match: its offset in the file, and the bytes around it. */
  datatype Match = Match(offset: nat, snippet: seq<byte>)

  /** What a search is asked for. */
  datatype Search = Search(
    file: seq<byte>, query: seq<byte>, start: nat, end: nat, maxMatches: int, contextBytes: nat)
  {
    /** The bytes carried from one window to the next. */
    function Overlap(): int {
      |query| - 1 + contextBytes
    }

    /** A whole occurrence of the query in the searched range. */
    predicate Occurs(off: nat) {
      start <= off && off + |query| <= end && OccursAt(file, query, off)
    }

    /** Where window `k` begins: with the carry, which is everything before its chunk while that is short. */
    function WindowStart(k: nat): nat {
      if 0 < Overlap() < k * SEARCH_CHUNK then start + k * SEARCH_CHUNK - Overlap() else start
    }

    /** Where window `k` ends: with its chunk, the range or the file. */
    function WindowEnd(k: nat): int {
      Min(start + (k + 1) * SEARCH_CHUNK, Min(end, |file|))
    }

    /**
     * An occurrence of window `k` that lies wholly in its carry, and so in the window before as well. The carry is
     * one byte less than the query and the context, but without context a query of one byte carries everything.
     */
    predicate InCarry(off: nat, k: nat) {
      && k >= 1 && off + |query| <= start + k * SEARCH_CHUNK
      && (|query| + contextBytes > 1 ==> start + k * SEARCH_CHUNK <= off + |query| - 1 + contextBytes)
    }

    predicate SnippetAt(m: Match, left: int, right: int) {
      && 0 <= left <= m.offset && 0 <= right && m.offset + |query| + right <= |file|
      && m.snippet == file[m.offset - left..m.offset + |query| + right]
    }

    /**
     * A report of window `k`: a true occurrence inside the window, with its surroundings as far as the window has
     * them. On the left that is the whole context, unless the occurrence lies in the carry.
     */
    predicate Good(m: Match, k: nat) {
      && Occurs(m.offset) && WindowStart(k) <= m.offset && m.offset + |query| <= WindowEnd(k)
      && SnippetAt(
           m, Min(contextBytes, m.offset - WindowStart(k)), Min(contextBytes, WindowEnd(k) - m.offset - |query|))
      && (!InCarry(m.offset, k) ==>
            Min(contextBytes, m.offset - WindowStart(k)) == Min(contextBytes, m.offset - start))
    }

    /** The occurrence at `off` was reported, or starts inside a reported one. */
    ghost predicate Covered(off: nat, matches: seq<Match>) {
      exists m :: m in matches && m.offset <= off < m.offset + |query|
    }

    /** `at` gives the window of each report. */
    predicate AllGood(matches: seq<Match>, at: seq<nat>) {
      |at| == |matches| && forall i | 0 <= i < |matches| :: Good(matches[i], at[i])
    }

    /**
     * Windows report in order, and each without overlaps. A report that does not move on from all before it comes
     * from a later window than those, and lies in the carry of that window.
     */
    predicate InTurn(matches: seq<Match>, at: seq<nat>)
      requires |at| == |matches|
    {
      forall i, j | 0 <= i < j < |matches| ::
        && at[i] <= at[j]
        && (at[i] == at[j] ==> matches[i].offset + |query| <= matches[j].offset)
        && (matches[i].offset < matches[j].offset || (at[i] < at[j] && InCarry(matches[j].offset, at[j])))
    }

    predicate EndBy(matches: seq<Match>, upTo: nat) {
      forall m | m in matches :: m.offset + |query| <= upTo
    }

    /** Every occurrence that starts in [from, before) and ends by `upTo` is covered. */
    ghost predicate AllCovered(matches: seq<Match>, from: nat, before: nat, upTo: nat) {
      forall off: nat | Occurs(off) && from <= off < before && off + |query| <= upTo :: Covered(off, matches)
    }

    /** The window holds the file's bytes from `windowBase` to `windowBase + |window|`, within the range. */
    ghost predicate IsWindow(window: seq<byte>, windowBase: nat) {
      && start <= windowBase
      && (window != [] ==>
            && windowBase + |window| <= |file| && windowBase + |window| <= end
            && window == file[windowBase..windowBase + |window|])
    }

    lemma {:induction false} OccursInWindow(window: seq<byte>, windowBase: nat, pos: nat)
      requires |query| > 0 && IsWindow(window, windowBase) && pos + |query| <= |window|
      ensures OccursAt(window, query, pos) <==> Occurs(windowBase + pos)
    {
      assert window[pos..pos + |query|] == file[windowBase + pos..windowBase + pos + |query|];
    }
  }

  function Min(a: int, b: int): int { if a < b then a else b }
  function Max(a: int, b: int): int { if a > b then a else b }

  lemma {:induction false} SliceOfSlice(file: seq<byte>, from: nat, len: nat, i: nat, j: nat)
    requires from + len <= |file| && i <= j <= len
    ensures file[from..from + len][i..j] == file[from + i..from + j]
  {
    var whole := file[from..from + len];
    var a, b := whole[i..j], file[from + i..from + j];
    forall x | 0 <= x < j - i ensures a[x] == b[x] {
      assert a[x] == whole[i + x] == file[from + (i + x)] == b[x];
    }
    assert a == b;
  }

  lemma {:induction false} WindowSlice(s: Search, window: seq<byte>, windowBase: nat, i: nat, j: nat)
    requires s.IsWindow(window, windowBase) && window != [] && i <= j <= |window|
    ensures s.start <= windowBase && windowBase + j <= |s.file|
            && window[i..j] == s.file[windowBase + i..windowBase + j]
  {
    SliceOfSlice(s.file, windowBase, |window|, i, j);
  }

  lemma {:induction false} WindowSnippet(s: Search, window: seq<byte>, windowBase: nat, pos: nat, left: nat, right: nat)
    requires |s.query| > 0 && s.IsWindow(window, windowBase) && left <= pos && pos + |s.query| + right <= |window|
    ensures s.SnippetAt(Match(windowBase + pos, window[pos - left..pos + |s.query| + right]), left, right)
  {
    WindowSlice(s, window, windowBase, pos - left, pos + |s.query| + right);
  }

  lemma {:induction false} SnippetBounds(pos: nat, len: nat, size: nat, context: nat)
    requires pos + len <= size
    ensures Max(0, pos - context) == pos - Min(context, pos)
    ensures Min(size, pos + len + context) == pos + len + Min(context, size - pos - len)
    ensures 0 <= Min(context, pos) <= pos && 0 <= Min(context, size - pos - len) <= size - pos - len
  {
  }

  lemma {:induction false} GoodParts(s: Search, m: Match, k: nat)
    requires |s.query| > 0 && s.Occurs(m.offset) && s.WindowStart(k) <= m.offset
             && m.offset + |s.query| <= s.WindowEnd(k)
    requires s.SnippetAt(m, Min(s.contextBytes, m.offset - s.WindowStart(k)),
                         Min(s.contextBytes, s.WindowEnd(k) - m.offset - |s.query|))
    ensures s.Good(m, k)
  {
    hide Search.Occurs, Search.SnippetAt, Search.WindowStart, Search.WindowEnd, Search.InCarry;
    if !s.InCarry(m.offset, k) { LeftContextIsWhole(s, m.offset, k); }
  }

  lemma {:induction false} MatchIsGood(
    s: Search, window: seq<byte>, windowBase: nat, pos: nat, s0: int, s1: int, k: nat)
    requires |s.query| > 0 && s.IsWindow(window, windowBase) && pos + |s.query| <= |window|
             && OccursAt(window, s.query, pos)
    requires windowBase == s.WindowStart(k) && windowBase + |window| == s.WindowEnd(k)
    requires s0 == Max(0, pos - s.contextBytes) && s1 == Min(|window|, pos + |s.query| + s.contextBytes)
    ensures 0 <= s0 <= s1 <= |window| && s.Good(Match(windowBase + pos, window[s0..s1]), k)
  {
    hide Search.IsWindow, Search.Occurs, OccursAt, Search.SnippetAt, Search.WindowStart, Search.WindowEnd, Min, Max;
    hide Search.Good;
    s.OccursInWindow(window, windowBase, pos);
    SnippetBounds(pos, |s.query|, |window|, s.contextBytes);
    WindowSnippet(
      s, window, windowBase, pos, Min(s.contextBytes, pos), Min(s.contextBytes, |window| - pos - |s.query|));
    GoodParts(s, Match(windowBase + pos, window[s0..s1]), k);
  }

  lemma {:induction false} LeftContextIsWhole(s: Search, off: nat, k: nat)
    requires |s.query| > 0 && s.WindowStart(k) <= off && !s.InCarry(off, k)
    ensures Min(s.contextBytes, off - s.WindowStart(k)) == Min(s.contextBytes, off - s.start)
  {
  }

  /** Reporting the next match covers everything that starts before the place the scan goes on from. */
  lemma {:induction false} ReportCovers(s: Search, before: seq<Match>, m: Match, from: nat, upTo: nat)
    requires s.AllCovered(before, from, m.offset, upTo)
    ensures s.AllCovered(before + [m], from, m.offset + |s.query|, upTo)
  {
    var after := before + [m];
    assert m in after;
    forall off: nat | s.Occurs(off) && from <= off < m.offset + |s.query| && off + |s.query| <= upTo
      ensures s.Covered(off, after)
    {
      if off < m.offset {
        var w :| w in before && w.offset <= off < w.offset + |s.query|;
        assert w in after;
      }
    }
  }

  /** No occurrence starts between the place the scan goes on from and the next one bytes.Index finds. */
  lemma {:induction false} NothingSkipped(s: Search, window: seq<byte>, windowBase: nat, matches: seq<Match>, idx: nat)
    requires |s.query| > 0 && s.IsWindow(window, windowBase) && idx <= |window|
    requires s.AllCovered(matches, windowBase, windowBase + idx, windowBase + |window|)
    ensures var pos := Index(window, s.query, idx);
            s.AllCovered(matches, windowBase, windowBase + (if pos == -1 then |window| else pos), windowBase + |window|)
  {
    var pos := Index(window, s.query, idx);
    forall off: nat | s.Occurs(off) && windowBase <= off && off + |s.query| <= windowBase + |window|
                      && (pos == -1 || off < windowBase + pos)
      ensures s.Covered(off, matches)
    {
      s.OccursInWindow(window, windowBase, off - windowBase);
    }
  }

  /** One more report from window `k`, behind all earlier reports of the same window. */
  lemma {:induction false} NextInTurn(s: Search, sofar: seq<Match>, matches: seq<Match>, at: seq<nat>, m: Match, k: nat)
    requires |s.query| > 0 && sofar <= matches && |at| == |matches| && s.InTurn(matches, at)
    requires s.WindowStart(k) <= m.offset
    requires s.EndBy(sofar, s.start + k * SEARCH_CHUNK) && (k == 0 ==> sofar == [])
    requires forall i | 0 <= i < |sofar| :: at[i] < k
    requires forall i | |sofar| <= i < |matches| :: at[i] == k && matches[i].offset + |s.query| <= m.offset
    ensures s.InTurn(matches + [m], at + [k])
  {
    var base := s.start + k * SEARCH_CHUNK;
    forall i | 0 <= i < |matches|
      ensures at[i] <= k && (matches[i].offset < m.offset || (at[i] < k && s.InCarry(m.offset, k)))
    {
      if i < |sofar| { assert matches[i] == sofar[i] && sofar[i] in sofar; }
    }
  }

  lemma {:induction false} OneMoreMatch(s: Search, matches: seq<Match>, at: seq<nat>, m: Match, k: nat, upTo: nat)
    requires s.AllGood(matches, at) && s.Good(m, k) && s.EndBy(matches, upTo) && m.offset + |s.query| <= upTo
    ensures s.AllGood(matches + [m], at + [k]) && s.EndBy(matches + [m], upTo)
  {
    hide Search.Good;
  }

  lemma {:induction false} AsMany(s: Search, matches: seq<Match>, at: seq<nat>)
    requires s.AllGood(matches, at)
    ensures |at| == |matches|
  {
  }

  lemma {:induction false} EndByLater(s: Search, matches: seq<Match>, upTo: nat, later: nat)
    requires s.EndBy(matches, upTo) && upTo <= later
    ensures s.EndBy(matches, later)
  {
  }

  /** The inner loop: non-overlapping matches of one window, left to right. */
  method ScanWindow(s: Search, window: seq<byte>, windowBase: nat, sofar: seq<Match>, ghost at: seq<nat>, ghost k: nat)
    returns (matches: seq<Match>, ghost at': seq<nat>)
    requires |s.query| > 0 && |sofar| < s.maxMatches && s.IsWindow(window, windowBase)
    requires windowBase == s.WindowStart(k) && s.start + k * SEARCH_CHUNK <= windowBase + |window|
    requires window != [] ==> windowBase + |window| == s.WindowEnd(k)
    requires s.AllGood(sofar, at) && s.InTurn(sofar, at) && s.EndBy(sofar, s.start + k * SEARCH_CHUNK)
    requires (forall i | 0 <= i < |at| :: at[i] < k) && (k == 0 ==> sofar == [])
    ensures sofar <= matches && |matches| <= s.maxMatches && at <= at' && |at'| == |matches|
    ensures s.AllGood(matches, at') && s.InTurn(matches, at') && s.EndBy(matches, windowBase + |window|)
    ensures forall i | |at| <= i < |at'| :: at'[i] == k
    ensures |matches| < s.maxMatches ==>
              s.AllCovered(matches, windowBase, windowBase + |window|, windowBase + |window|)
    ensures |sofar| < |matches| ==>
              s.AllCovered(matches, windowBase, matches[|matches| - 1].offset, windowBase + |window|)
  {
    hide Search.Good, Search.AllGood, Search.AllCovered, Search.Occurs, Search.InTurn, Search.EndBy, Search.IsWindow;
    hide Search.WindowEnd, Search.WindowStart;
    AsMany(s, sofar, at);
    matches, at' := sofar, at;
    EndByLater(s, sofar, s.start + k * SEARCH_CHUNK, windowBase + |window|);
    var idx := 0;
    NothingYet(s, matches, windowBase, windowBase + |window|);
    while true
      invariant 0 <= idx <= |window|
      invariant sofar <= matches && |matches| < s.maxMatches && at <= at' && |at'| == |matches|
      invariant s.AllGood(matches, at') && s.InTurn(matches, at') && s.EndBy(matches, windowBase + |window|)
      invariant s.AllCovered(matches, windowBase, windowBase + idx, windowBase + |window|)
      invariant forall i | |sofar| <= i < |matches| :: at'[i] == k && matches[i].offset + |s.query| <= windowBase + idx
      invariant |sofar| < |matches| ==>
                  s.AllCovered(matches, windowBase, matches[|matches| - 1].offset, windowBase + |window|)
      decreases |window| - idx
    {
      NothingSkipped(s, window, windowBase, matches, idx);
      var pos := Index(window, s.query, idx);
      if pos < 0 { break; }
      var off := windowBase + pos;
      // The window lies in [start, end), so the source's range test never skips a match.
      var s0 := Max(0, pos - s.contextBytes);
      var s1 := Min(|window|, pos + |s.query| + s.contextBytes);
      MatchIsGood(s, window, windowBase, pos, s0, s1, k);
      var m := Match(off, window[s0..s1]);
      ReportCovers(s, matches, m, windowBase, windowBase + |window|);
      CoveredBefore(s, matches + [m], windowBase, m.offset, m.offset + |s.query|, windowBase + |window|);
      NextInTurn(s, sofar, matches, at', m, k);
      OneMoreMatch(s, matches, at', m, k, windowBase + |window|);
      matches, at' := matches + [m], at' + [k];
      if |matches| >= s.maxMatches { return; }
      idx := pos + Max(1, |s.query|);
    }
  }

  lemma {:induction false} CoveredBefore(s: Search, matches: seq<Match>, from: nat, before: nat, later: nat, upTo: nat)
    requires s.AllCovered(matches, from, later, upTo) && before <= later
    ensures s.AllCovered(matches, from, before, upTo)
  {
  }

  lemma {:induction false} NothingYet(s: Search, matches: seq<Match>, from: nat, upTo: nat)
    ensures s.AllCovered(matches, from, from, upTo)
  {
  }

  /** What one more window adds: together with the carry, it holds every occurrence that ends in its new bytes. */
  lemma {:induction false} NextCovered(
    s: Search, before: seq<Match>, after: seq<Match>, windowBase: nat, base: nat, next: nat)
    requires |s.query| > 0 && s.start <= windowBase <= base <= next && before <= after
    requires windowBase == s.start || windowBase <= base - s.Overlap()
    requires s.AllCovered(before, s.start, base, base)
    requires s.AllCovered(after, windowBase, next, next)
    ensures s.AllCovered(after, s.start, next, next)
  {
    forall off: nat | s.Occurs(off) && off + |s.query| <= next
      ensures s.Covered(off, after)
    {
      if off + |s.query| <= base {
        var m :| m in before && m.offset <= off < m.offset + |s.query|;
        assert m in after;
      }
    }
  }

  /** With the windows before it, the window of the last report covers what starts before that report. */
  lemma {:induction false} LastCovered(
    s: Search, before: seq<Match>, after: seq<Match>, windowBase: nat, base: nat, upTo: nat, k: nat)
    requires |s.query| > 0 && s.start <= windowBase <= base <= upTo && |before| < |after| && before <= after
    requires windowBase == s.start || windowBase <= base - s.Overlap()
    requires s.start + k * SEARCH_CHUNK <= base && s.EndBy(after, upTo)
    requires s.AllCovered(before, s.start, base, base)
    requires s.AllCovered(after, windowBase, after[|after| - 1].offset, upTo)
    ensures forall off: nat |
              && s.Occurs(off)
              && (off < after[|after| - 1].offset || off + |s.query| <= s.start + k * SEARCH_CHUNK) ::
              s.Covered(off, after)
  {
    var last := after[|after| - 1];
    assert last in after;
    forall off: nat | s.Occurs(off) && (off < last.offset || off + |s.query| <= s.start + k * SEARCH_CHUNK)
      ensures s.Covered(off, after)
    {
      if off + |s.query| <= base {
        var m :| m in before && m.offset <= off < m.offset + |s.query|;
        assert m in after;
      }
    }
  }

  /** Past the end of the file, or of the range, there is nothing left to find. */
  lemma {:induction false} AllFound(s: Search, matches: seq<Match>, base: nat)
    requires |s.query| > 0 && s.AllCovered(matches, s.start, base, base) && base >= Min(s.end, |s.file|)
    ensures forall off: nat | s.Occurs(off) :: s.Covered(off, matches)
  {
  }

  /**
   * searchLogRange, with io.ReadFull reading what the file has of the bytes asked for. Every report is a true
   * occurrence with the surroundings its window has; windows report in turn, and repeat only what lies in their
   * carry; and unless the limit is reached, no occurrence in the range is missed. Whatever the limit, none is missed
   * that starts before the last report, or that ends before the chunk in which that was made. `at` is the window of
   * each report.
   */
  method SearchLogRange(s: Search) returns (matches: seq<Match>, ghost at: seq<nat>)
    requires |s.query| > 0
    ensures |matches| <= Max(0, s.maxMatches)
    ensures s.AllGood(matches, at) && s.InTurn(matches, at)
    ensures |matches| < s.maxMatches ==> forall off: nat | s.Occurs(off) :: s.Covered(off, matches)
    ensures matches != [] ==>
              forall off: nat |
                && s.Occurs(off)
                && (off < matches[|matches| - 1].offset
                    || off + |s.query| <= s.start + at[|at| - 1] * SEARCH_CHUNK) ::
                s.Covered(off, matches)
  {
    hide Search.Good, Search.AllCovered, Search.Occurs, Search.IsWindow, Search.InTurn, Search.EndBy, NextCarry;
    matches, at := [], [];
    NothingYetFound(s);
    if s.maxMatches <= 0 { return; }
    var overlap := s.Overlap();
    var carry: seq<byte> := [];
    var base := s.start;
    ghost var k := 0;
    while base < s.end
      invariant base == s.start + k * SEARCH_CHUNK || base >= s.end
      invariant |carry| == if 0 < overlap < base - s.start then overlap else base - s.start
      invariant s.IsWindow(carry, base - |carry|)
      invariant base == s.start || base <= |s.file|
      invariant |matches| < s.maxMatches && s.AllGood(matches, at) && s.AllCovered(matches, s.start, base, base)
      invariant s.InTurn(matches, at) && s.EndBy(matches, base)
      invariant (forall i | 0 <= i < |at| :: at[i] < k) && (k == 0 ==> matches == [])
    {
      var toRead := Min(SEARCH_CHUNK, s.end - base);
      var n := Max(0, Min(toRead, |s.file| - base));
      var windowBase := base - |carry|;
      var window := carry + if n == 0 then [] else s.file[base..base + n];
      WindowGrows(s, carry, base, n);
      ghost var before := matches;
      matches, at := ScanWindow(s, window, windowBase, matches, at, k);
      if |matches| >= s.maxMatches {
        LastCovered(s, before, matches, windowBase, base, base + n, k);
        return;
      }
      NextCovered(s, before, matches, windowBase, base, base + n);
      if n == 0 { break; }
      carry := NextCarry(s, window, windowBase);
      base := base + n;
      k := k + 1;
      if n < toRead { break; }
    }
    AllFound(s, matches, base);
  }

  lemma {:induction false} NothingYetFound(s: Search)
    requires |s.query| > 0
    ensures s.AllCovered([], s.start, s.start, s.start) && s.IsWindow([], s.start)
    ensures s.AllGood([], []) && s.InTurn([], []) && s.EndBy([], s.start)
  {
  }

  lemma {:induction false} WindowGrows(s: Search, carry: seq<byte>, base: nat, n: nat)
    requires |carry| <= base && s.IsWindow(carry, base - |carry|)
    requires n > 0 ==> base + n <= |s.file| && base + n <= s.end
    ensures s.IsWindow(carry + if n == 0 then [] else s.file[base..base + n], base - |carry|)
  {
    if n > 0 && carry != [] {
      assert carry + s.file[base..base + n] == s.file[base - |carry|..base + n];
    }
  }

  /** The bytes kept for the next window: the last `overlap` of this one, or all of it while it is shorter. */
  function NextCarry(s: Search, window: seq<byte>, windowBase: nat): (carry: seq<byte>)
    requires |s.query| > 0 && s.IsWindow(window, windowBase)
    ensures if 0 < s.Overlap() < |window| then |carry| == s.Overlap() else |carry| == |window|
    ensures s.IsWindow(carry, windowBase + |window| - |carry|)
  {
    var overlap := s.Overlap();
    if overlap > 0 && |window| > overlap then window[|window| - overlap..] else window
  }
}
