/** Bounded captures of command output: the last bytes of it, and the first. */
module Buffers {
  import opened Seqs
  import opened Bytes

  lemma {:induction false} LastNAbsorbs<T>(s: seq<T>, p: seq<T>, n: nat)
    ensures LastN(LastN(s, n) + p, n) == LastN(s + p, n)
  {
    if |s| > n { assert s + p == s[..|s| - n] + (s[|s| - n..] + p); }
  }

  /** copy(a, a[overflow:len]): the regions overlap, and copying upwards is right for that. */
  method ShiftDown(a: array<byte>, overflow: nat, len: nat)
    requires overflow <= len <= a.Length
    modifies a
    ensures a[..len - overflow] == old(a[overflow..len])
  {
    var i := 0;
    while i < len - overflow
      invariant 0 <= i <= len - overflow
      invariant forall k | 0 <= k < i :: a[k] == old(a[overflow + k])
      invariant forall k | i <= k < a.Length :: a[k] == old(a[k])
    {
      a[i] := a[overflow + i];
      i := i + 1;
    }
  }

  /** append(a[:at], p...), with room enough. */
  method CopyIn(a: array<byte>, at: nat, p: seq<byte>)
    requires at + |p| <= a.Length
    modifies a
    ensures a[..at + |p|] == old(a[..at]) + p
  {
    var i := 0;
    while i < |p|
      invariant 0 <= i <= |p|
      invariant a[..at] == old(a[..at])
      invariant forall k | 0 <= k < i :: a[at + k] == p[k]
    {
      a[at + i] := p[i];
      i := i + 1;
    }
    assert a[..at + |p|] == a[..at] + a[at..at + |p|];
  }

  /** tailBuffer: keeps the last `max` bytes. */
  class TailBuffer {
    const max: int
    const b: array<byte>
    var len: nat
    ghost var written: seq<byte>

    ghost predicate Valid()
      reads this, b
    {
      && b.Length == (if max > 0 then max else 0) && len <= b.Length
      && b[..len] == LastN(written, b.Length)
    }

    constructor (max: int)
      ensures Valid() && fresh(b) && this.max == max && written == []
    {
      this.max := max;
      b := new byte[if max > 0 then max else 0];
      len, written := 0, [];
    }

    /** A write that fills the buffer replaces what it holds. */
    method Replace(p: seq<byte>)
      requires Valid() && 0 < max <= |p|
      modifies this, b
      ensures Valid() && written == old(written) + p
    {
      written := written + p;
      CopyIn(b, 0, p[|p| - max..]);
      len := max;
    }

    /** A shorter write pushes out the oldest bytes, as many as it needs. */
    method Push(p: seq<byte>)
      requires Valid() && |p| < max
      modifies this, b
      ensures Valid() && written == old(written) + p
    {
      hide LastN;
      ghost var was := b[..len];
      LastNAbsorbs(written, p, max);
      written := written + p;
      LastNOf(was + p, max);
      if len + |p| > max {
        var overflow := len + |p| - max;
        ShiftDown(b, overflow, len);
        len := len - overflow;
        assert b[..len] == was[overflow..];
        assert (was + p)[overflow..] == was[overflow..] + p;
      }
      CopyIn(b, len, p);
      len := len + |p|;
    }

    method Write(p: seq<byte>) returns (n: nat)
      requires Valid()
      modifies this, b
      ensures Valid() && n == |p| && written == old(written) + p
    {
      n := |p|;
      if max <= 0 {
        written := written + p;
      } else if |p| >= max {
        Replace(p);
      } else {
        Push(p);
      }
    }

    method String() returns (s: seq<byte>)
      requires Valid()
      ensures max <= 0 ==> s == []
      ensures max > 0 ==> s == if |written| <= max then written else written[|written| - max..]
    {
      s := b[..len];
    }
  }

  const DEFAULT_LIMIT := 64 * 1024
  /** "\n[truncated]\n" */
  const NOTICE: seq<byte> := [0x0a, 0x5b, 0x74, 0x72, 0x75, 0x6e, 0x63, 0x61, 0x74, 0x65, 0x64, 0x5d, 0x0a]

  /** The bytes that fit in `max`. */
  function FirstN(s: seq<byte>, max: nat): seq<byte> {
    if |s| <= max then s else s[..max]
  }

  /** Whether `writes` make a limited buffer say that it cut something: a full one says so of an empty write as well. */
  predicate SaysTruncated(writes: seq<seq<byte>>, max: nat) {
    var total := |Flatten(writes)|;
    total > max || (total == max && writes != [] && writes[|writes| - 1] == [])
  }

  /** limitedBuffer: keeps the first `max` bytes. */
  class LimitedBuffer {
    const max: nat
    var n: nat
    var truncated: bool
    var b: seq<byte>
    ghost var writes: seq<seq<byte>>

    ghost predicate Valid()
      reads this
    {
      && max > 0 && n == |b|
      && b == FirstN(Flatten(writes), max)
      && truncated == SaysTruncated(writes, max)
    }

    constructor (max: int)
      ensures Valid() && writes == []
      ensures this.max == if max <= 0 then DEFAULT_LIMIT else max
    {
      this.max := if max <= 0 then DEFAULT_LIMIT else max;
      n, truncated, b, writes := 0, false, [], [];
    }

    method Write(p: seq<byte>) returns (accepted: nat)
      requires Valid()
      modifies this
      ensures Valid() && accepted == |p| && writes == old(writes) + [p]
    {
      FlattenSnoc(writes, p);
      assert truncated ==> n >= max;
      writes := writes + [p];
      accepted := |p|;
      if n >= max {
        truncated := true;
        return;
      }
      var remain := max - n;
      if |p| > remain {
        b, n, truncated := b + p[..remain], n + remain, true;
        return;
      }
      b, n := b + p, n + |p|;
    }

    method String() returns (s: seq<byte>)
      requires Valid()
      ensures var all := Flatten(writes);
              var cut := |all| > max || (|all| == max && writes != [] && writes[|writes| - 1] == []);
              s == (if |all| <= max then all else all[..max]) + if cut then NOTICE else []
    {
      s := if truncated then b + NOTICE else b;
    }
  }

  method WriteAll(tail: TailBuffer, limited: LimitedBuffer, writes: seq<seq<byte>>)
    requires tail.Valid() && limited.Valid() && tail.written == [] && limited.writes == []
    modifies tail, tail.b, limited
    ensures tail.Valid() && limited.Valid() && tail.written == Flatten(writes) && limited.writes == writes
  {
    assert Flatten(writes[..0]) == [];
    hide Flatten, TailBuffer.Valid, LimitedBuffer.Valid;
    var i := 0;
    while i < |writes|
      invariant 0 <= i <= |writes| && tail.Valid() && limited.Valid()
      invariant tail.written == Flatten(writes[..i]) && limited.writes == writes[..i]
    {
      FlattenSnoc(writes[..i], writes[i]);
      assert writes[..i + 1] == writes[..i] + [writes[i]];
      var _ := tail.Write(writes[i]);
      var _ := limited.Write(writes[i]);
      i := i + 1;
    }
    assert writes[..i] == writes;
  }

  /** Every sequence of writes, kept from both ends. */
  method Capture(writes: seq<seq<byte>>, max: int) returns (first: seq<byte>, last: seq<byte>)
    ensures var all := Flatten(writes);
            && (max <= 0 ==> last == [])
            && (max > 0 ==> last == if |all| <= max then all else all[|all| - max..])
    ensures var all, limit := Flatten(writes), if max > 0 then max else 65536;
            var cut := |all| > limit || (|all| == limit && writes != [] && writes[|writes| - 1] == []);
            first == (if |all| <= limit then all else all[..limit]) + if cut then NOTICE else []
  {
    hide Flatten, LastN, FirstN, SaysTruncated, TailBuffer.Valid, LimitedBuffer.Valid;
    var tail := new TailBuffer(max);
    var limited := new LimitedBuffer(max);
    WriteAll(tail, limited, writes);
    last := tail.String();
    first := limited.String();
  }
}
