/** Byte strings, and the searches of Go's bytes package that the shell code relies on. */
module Bytes {
  newtype byte = b: int | 0 <= b < 0x100

  /** True when `pat` starts at position `i` of `s`. */
  predicate OccursAt(s: seq<byte>, pat: seq<byte>, i: int) {
    0 <= i <= |s| - |pat| && s[i..i + |pat|] == pat
  }

  /** bytes.Index(s[from:], pat), given as a position in `s`. */
  function Index(s: seq<byte>, pat: seq<byte>, from: nat): (r: int)
    requires from <= |s|
    ensures r == -1 || (from <= r && OccursAt(s, pat, r))
    ensures forall i | from <= i && (r == -1 || i < r) :: !OccursAt(s, pat, i)
    decreases |s| - from
  {
    if OccursAt(s, pat, from) then from
    else if from == |s| then -1
    else Index(s, pat, from + 1)
  }

  /** bytes.IndexByte(s[from:], c), given as a position in `s`. */
  function IndexByte(s: seq<byte>, c: byte, from: nat): (r: int)
    requires from <= |s|
    ensures r == -1 || (from <= r < |s| && s[r] == c)
    ensures forall i | from <= i < |s| && (r == -1 || i < r) :: s[i] != c
    decreases |s| - from
  {
    if from == |s| then -1
    else if s[from] == c then from
    else IndexByte(s, c, from + 1)
  }

  /** bytes.Split(s, []byte{sep}). */
  function Split(s: seq<byte>, sep: byte): (parts: seq<seq<byte>>)
    ensures |parts| >= 1
  {
    var k := IndexByte(s, sep, 0);
    if k == -1 then [s] else [s[..k]] + Split(s[k + 1..], sep)
  }

  /** bytes.Join(parts, []byte{sep}). */
  function Join(parts: seq<seq<byte>>, sep: byte): seq<byte> {
    if |parts| == 0 then []
    else if |parts| == 1 then parts[0]
    else parts[0] + [sep] + Join(parts[1..], sep)
  }

  /** Splitting undoes joining, when no part holds the separator. */
  lemma {:induction false} SplitJoin(parts: seq<seq<byte>>, sep: byte)
    requires |parts| >= 1
    requires forall i | 0 <= i < |parts| :: sep !in parts[i]
    ensures Split(Join(parts, sep), sep) == parts
  {
    var s := Join(parts, sep);
    if |parts| == 1 {
      assert IndexByte(s, sep, 0) == -1;
    } else {
      var n := |parts[0]|;
      assert s[n] == sep;
      assert forall i | 0 <= i < n :: s[i] == parts[0][i];
      assert IndexByte(s, sep, 0) == n;
      assert s[..n] == parts[0] && s[n + 1..] == Join(parts[1..], sep);
      SplitJoin(parts[1..], sep);
    }
  }
}
