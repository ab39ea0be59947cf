/** Length-delimited records: a Base 128 varint (Protocol Buffers Encoding, "Base 128 Varints") and then the bytes. */
module Framing {
  import opened Seqs
  import opened Bytes
  import opened Wrappers

  const MAX_VARINT_LEN := 10

  /** The record lengths a reader takes. */
  datatype Range = Range(min: nat, max: nat)
  type Bounds = r: Range | r.max < 0x1_0000_0000_0000_0000 witness Range(0, 0)

  /** The session log refuses empty records and those over 64 MiB, the command timeline none. */
  const SESSION: Bounds := Range(1, 64 * 1024 * 1024)
  const TIMELINE: Bounds := Range(0, 0xFFFF_FFFF_FFFF_FFFF)

  datatype VarintRead = Value(n: nat, len: nat) | NoByte | CutShort | Overflow

  /** binary.PutUvarint */
  function PutUvarint(n: nat): (bs: seq<byte>)
    ensures bs != []
  {
    if n < 0x80 then [n as byte] else [(n % 0x80 + 0x80) as byte] + PutUvarint(n / 0x80)
  }

  /** binary.ReadUvarint, with `i` bytes already taken; the value is that of the remaining bytes. */
  function ReadUvarint(s: seq<byte>, i: nat): (r: VarintRead)
    requires i <= MAX_VARINT_LEN
    ensures r.Value? ==> 0 < r.len <= |s|
    decreases MAX_VARINT_LEN - i
  {
    if i == MAX_VARINT_LEN then Overflow
    else if s == [] then (if i > 0 then CutShort else NoByte)
    else if s[0] < 0x80 then (if i == MAX_VARINT_LEN - 1 && s[0] > 1 then Overflow else Value(s[0] as nat, 1))
    else
      match ReadUvarint(s[1..], i + 1)
      case Value(n, len) => Value((s[0] - 0x80) as nat + 0x80 * n, len + 1)
      case other => other
  }

  /** One more than the largest value that fits after `i` bytes: 2 to the power 64 - 7i. */
  function Limit(i: nat): nat
    requires i < MAX_VARINT_LEN
    decreases MAX_VARINT_LEN - i
  {
    if i == MAX_VARINT_LEN - 1 then 2 else 0x80 * Limit(i + 1)
  }

  /** Every 64-bit value reads back, whatever follows it. */
  lemma {:induction false} VarintRoundTrip(n: nat, rest: seq<byte>, i: nat)
    requires i < MAX_VARINT_LEN && n < Limit(i)
    ensures ReadUvarint(PutUvarint(n) + rest, i) == Value(n, |PutUvarint(n)|)
    decreases MAX_VARINT_LEN - i
  {
    var s := PutUvarint(n) + rest;
    if n >= 0x80 {
      assert s[1..] == PutUvarint(n / 0x80) + rest;
      assert n / 0x80 < Limit(i + 1);
      VarintRoundTrip(n / 0x80, rest, i + 1);
    }
  }

  lemma {:induction false} LimitIs64Bits()
    ensures Limit(0) == 0x1_0000_0000_0000_0000
  {
    assert Limit(7) == 0x80 * Limit(8) == 0x80 * (0x80 * Limit(9)) == 0x8000;
    assert Limit(5) == 0x80 * Limit(6) == 0x80 * (0x80 * Limit(7));
    assert Limit(3) == 0x80 * Limit(4) == 0x80 * (0x80 * Limit(5));
    assert Limit(1) == 0x80 * Limit(2) == 0x80 * (0x80 * Limit(3));
  }

  /** A varint that stops early is told apart from one that has not begun. */
  lemma {:induction false} VarintCutShort(n: nat, k: nat, i: nat)
    requires i < MAX_VARINT_LEN && n < Limit(i) && k < |PutUvarint(n)|
    ensures ReadUvarint(PutUvarint(n)[..k], i) == if k == 0 && i == 0 then NoByte else CutShort
    decreases MAX_VARINT_LEN - i
  {
    if k > 0 {
      assert n >= 0x80;
      assert PutUvarint(n)[..k][1..] == PutUvarint(n / 0x80)[..k - 1];
      assert n / 0x80 < Limit(i + 1);
      VarintCutShort(n / 0x80, k - 1, i + 1);
    }
  }

  lemma {:induction false} DigitOf(low: nat, high: nat)
    requires low < 0x80
    ensures (low + 0x80 * high) / 0x80 == high && (low + 0x80 * high) % 0x80 == low
  {
  }

  /** A varint takes at least the bytes that PutUvarint writes, and with as many it is what PutUvarint writes. */
  lemma {:induction false} VarintCanonical(s: seq<byte>, i: nat)
    requires i <= MAX_VARINT_LEN && ReadUvarint(s, i).Value?
    ensures var r := ReadUvarint(s, i);
            |PutUvarint(r.n)| <= r.len && (|PutUvarint(r.n)| == r.len ==> s[..r.len] == PutUvarint(r.n))
    decreases MAX_VARINT_LEN - i
  {
    if s[0] >= 0x80 {
      ReadMore(s, i);
      hide ReadUvarint, PutUvarint;
      VarintCanonical(s[1..], i + 1);
      var r, more := ReadUvarint(s, i), ReadUvarint(s[1..], i + 1);
      PutMore(r.n);
      DigitOf(s[0] as nat - 0x80, more.n);
      assert s[..r.len] == [s[0]] + s[1..][..more.len];
    }
  }

  lemma {:induction false} ReadMore(s: seq<byte>, i: nat)
    requires i < MAX_VARINT_LEN && s != [] && s[0] >= 0x80 && ReadUvarint(s, i).Value?
    ensures var more := ReadUvarint(s[1..], i + 1);
            more.Value? && ReadUvarint(s, i) == Value((s[0] - 0x80) as nat + 0x80 * more.n, more.len + 1)
  {
  }

  lemma {:induction false} PutMore(n: nat)
    ensures if n < 0x80 then |PutUvarint(n)| == 1
            else PutUvarint(n) == [(n % 0x80 + 0x80) as byte] + PutUvarint(n / 0x80)
  {
  }

  /** How many bytes at the beginning say that another one follows. */
  function Continued(s: seq<byte>): (c: nat)
    ensures c <= |s| && (forall i | 0 <= i < c :: s[i] >= 0x80) && (c < |s| ==> s[c] < 0x80)
  {
    if s == [] || s[0] < 0x80 then 0 else Continued(s[1..]) + 1
  }

  /**
   * When a varint reads, with `i` bytes already taken: it must stop within ten bytes, the tenth of which holds one
   * bit only, and before the input does.
   */
  lemma {:induction false} VarintReads(s: seq<byte>, i: nat)
    requires i < 10
    ensures var c, r := Continued(s), ReadUvarint(s, i);
            if c >= 10 - i then r == Overflow
            else if c == |s| then r == if c == 0 && i == 0 then NoByte else CutShort
            else if c == 9 - i && s[c] > 1 then r == Overflow
            else r.Value? && r.len == c + 1
    decreases 10 - i
  {
    if s != [] && s[0] >= 0x80 && i < 9 {
      VarintReads(s[1..], i + 1);
      assert Continued(s[1..]) < |s[1..]| ==> s[1..][Continued(s[1..])] == s[Continued(s)];
    }
  }

  /** writeDelimited */
  function Frame(msg: seq<byte>): seq<byte> {
    PutUvarint(|msg|) + msg
  }

  datatype RecordRead = Record(msg: seq<byte>, rest: seq<byte>) | EndOfFile | Malformed

  /**
   * readDelimited, of either file. io.ReadFull reports a plain end of file when not one payload byte is there, so
   * a lone header reads like the end of the file.
   */
  function ReadDelimited(s: seq<byte>, b: Bounds): (r: RecordRead)
    ensures r.Record? ==> |r.rest| < |s|
  {
    match ReadUvarint(s, 0)
    case NoByte => EndOfFile
    case CutShort => Malformed
    case Overflow => Malformed
    case Value(n, len) =>
      if n < b.min || n > b.max then Malformed
      else if n <= |s| - len then Record(s[len..len + n], s[len + n..])
      else if |s| == len then EndOfFile
      else Malformed
  }

  predicate Sized(msg: seq<byte>, b: Bounds) {
    b.min <= |msg| <= b.max
  }

  /** A frame reads back, and leaves what follows it, exactly when the reader takes its length. */
  lemma {:induction false} FrameRoundTrip(msg: seq<byte>, rest: seq<byte>, b: Bounds)
    requires |msg| < Limit(0)
    ensures ReadDelimited(Frame(msg) + rest, b) == (if Sized(msg, b) then Record(msg, rest) else Malformed)
  {
    hide PutUvarint, ReadUvarint, Limit;
    VarintRoundTrip(|msg|, msg + rest, 0);
    var s := Frame(msg) + rest;
    assert s == PutUvarint(|msg|) + (msg + rest);
    var len := |PutUvarint(|msg|)|;
    assert s[len..] == msg + rest;
    if Sized(msg, b) {
      assert s[len..len + |msg|] == msg && s[len + |msg|..] == rest;
    }
  }

  /** A frame cut short is noticed, except when nothing of it, or nothing but its whole header, is there. */
  lemma {:induction false} TornFrame(msg: seq<byte>, k: nat, b: Bounds)
    requires Sized(msg, b) && k < |Frame(msg)|
    ensures ReadDelimited(Frame(msg)[..k], b) == if k == 0 || k == |PutUvarint(|msg|)| then EndOfFile else Malformed
  {
    hide PutUvarint, ReadUvarint, Limit;
    var hdr := PutUvarint(|msg|);
    LimitIs64Bits();
    if k < |hdr| {
      VarintCutShort(|msg|, k, 0);
      assert Frame(msg)[..k] == hdr[..k];
    } else {
      VarintRoundTrip(|msg|, msg[..k - |hdr|], 0);
      assert Frame(msg)[..k] == hdr + msg[..k - |hdr|];
    }
  }

  function Frames(msgs: seq<seq<byte>>): seq<byte> {
    if msgs == [] then [] else Frames(msgs[..|msgs| - 1]) + Frame(msgs[|msgs| - 1])
  }

  /** Reading records until there is none: the messages, and whether the end was a plain end of file. */
  datatype Scan = Scan(msgs: seq<seq<byte>>, clean: bool)

  function ReadAll(s: seq<byte>, b: Bounds): Scan
    decreases |s|
  {
    match ReadDelimited(s, b)
    case EndOfFile => Scan([], true)
    case Malformed => Scan([], false)
    case Record(msg, rest) => var more := ReadAll(rest, b); Scan([msg] + more.msgs, more.clean)
  }

  predicate AllSized(msgs: seq<seq<byte>>, b: Bounds) {
    forall i | 0 <= i < |msgs| :: Sized(msgs[i], b)
  }

  /** Reading a run of frames gives its messages, and then whatever the bytes after it give. */
  lemma {:induction false} ReadFrames(msgs: seq<seq<byte>>, tail: seq<byte>, b: Bounds)
    requires AllSized(msgs, b)
    ensures ReadAll(Frames(msgs) + tail, b) == Scan(msgs + ReadAll(tail, b).msgs, ReadAll(tail, b).clean)
    decreases |msgs|
  {
    hide ReadDelimited, Frame, Limit;
    if msgs == [] {
      assert Frames(msgs) + tail == tail;
    } else {
      var init, last := msgs[..|msgs| - 1], msgs[|msgs| - 1];
      LimitIs64Bits();
      FrameRoundTrip(last, tail, b);
      ReadFrames(init, Frame(last) + tail, b);
      Associates(Frames(init), Frame(last), tail);
      Associates(init, [last], ReadAll(tail, b).msgs);
      assert msgs == init + [last];
    }
  }

  /** What a header left behind by a torn frame makes of the bytes after it. */
  lemma {:induction false} StrayHeader(n: nat, rest: seq<byte>, b: Bounds)
    requires n < Limit(0)
    ensures ReadAll(PutUvarint(n) + rest, b)
         == if n < b.min || n > b.max then Scan([], false)
            else if n <= |rest| then Scan([rest[..n]] + ReadAll(rest[n..], b).msgs, ReadAll(rest[n..], b).clean)
            else Scan([], rest == [])
  {
    hide ReadDelimited, PutUvarint, Limit;
    HeaderRead(n, rest, b);
    ReadAllUnrolled(PutUvarint(n) + rest, b);
  }

  lemma {:induction false} HeaderRead(n: nat, rest: seq<byte>, b: Bounds)
    requires n < Limit(0)
    ensures ReadDelimited(PutUvarint(n) + rest, b)
         == if n < b.min || n > b.max then Malformed
            else if n <= |rest| then Record(rest[..n], rest[n..])
            else if rest == [] then EndOfFile else Malformed
  {
    hide PutUvarint, ReadUvarint, Limit;
    VarintRoundTrip(n, rest, 0);
    var s, len := PutUvarint(n) + rest, |PutUvarint(n)|;
    assert s[len..] == rest;
    if n <= |rest| { assert s[len..len + n] == rest[..n] && s[len + n..] == rest[n..]; }
  }

  lemma {:induction false} ReadAllUnrolled(s: seq<byte>, b: Bounds)
    ensures ReadAll(s, b)
         == match ReadDelimited(s, b)
            case EndOfFile => Scan([], true)
            case Malformed => Scan([], false)
            case Record(msg, rest) => Scan([msg] + ReadAll(rest, b).msgs, ReadAll(rest, b).clean)
  {
    hide ReadDelimited;
  }

  /**
   * Frames written behind a lone header: until `n` bytes are there, none of them is read, and the file reads as
   * damaged; after that, their first `n` bytes are read as one record, and the rest as it comes.
   */
  lemma {:induction false} FramesBehindHeader(before: seq<seq<byte>>, n: nat, after: seq<seq<byte>>, b: Bounds)
    requires AllSized(before, b) && 0 < n && b.min <= n <= b.max && after != []
    ensures var tail := Frames(after);
            ReadAll(Frames(before) + (PutUvarint(n) + tail), b)
            == if |tail| < n then Scan(before, false)
               else Scan(before + ([tail[..n]] + ReadAll(tail[n..], b).msgs), ReadAll(tail[n..], b).clean)
  {
    hide ReadAll, PutUvarint, Limit;
    var tail := Frames(after);
    LimitIs64Bits();
    ReadFrames(before, PutUvarint(n) + tail, b);
    StrayHeader(n, tail, b);
    assert before + [] == before;
    assert tail != [];
  }

  /**
   * Two records whose headers were both written before either body. They read back as the two records, in the
   * order of the headers, if and only if the second header could as well stand behind the first record.
   */
  lemma {:induction false} InterleavedFrames(ma: seq<byte>, mb: seq<byte>, b: Bounds)
    requires Sized(ma, b) && Sized(mb, b)
    ensures var hdr := PutUvarint(|mb|);
            var scan := ReadAll(PutUvarint(|ma|) + (hdr + (ma + mb)), b);
            && scan.msgs != [] && scan.msgs[0] == (hdr + ma)[..|ma|]
            && (scan == Scan([ma, mb], true) <==> hdr + ma == ma + hdr)
  {
    hide PutUvarint, Limit, ReadAll;
    var hdr := PutUvarint(|mb|);
    var rest := hdr + (ma + mb);
    var scan := ReadAll(PutUvarint(|ma|) + rest, b);
    LimitIs64Bits();
    StrayHeader(|ma|, rest, b);
    assert rest == hdr + ma + mb && rest[..|ma|] == (hdr + ma)[..|ma|];
    var behind := rest[|ma|..];
    if hdr + ma == ma + hdr {
      assert rest == ma + hdr + mb;
      assert behind == Frame(mb) + [];
      FrameRoundTrip(mb, [], b);
      ReadAllUnrolled(behind, b);
      NothingToRead(b);
    }
    if scan == Scan([ma, mb], true) {
      assert scan.msgs[1..] == [mb] && scan.msgs == [rest[..|ma|]] + ReadAll(behind, b).msgs;
      assert ReadAll(behind, b) == Scan([mb], true);
      OneRecord(behind, mb, b);
      assert rest == ma + (hdr + mb);
      assert hdr + ma == rest[..|hdr + ma|] == ma + hdr;
    }
  }

  /** Bytes that read as one record, and are no longer than its frame, are its frame. */
  lemma {:induction false} OneRecord(s: seq<byte>, msg: seq<byte>, b: Bounds)
    requires ReadAll(s, b) == Scan([msg], true) && |s| == |Frame(msg)|
    ensures s == Frame(msg)
  {
    hide PutUvarint, ReadUvarint, ReadAll;
    ReadAllUnrolled(s, b);
    var r := ReadDelimited(s, b);
    assert r.Record? && ([r.msg] + ReadAll(r.rest, b).msgs)[0] == r.msg == msg;
    VarintCanonical(s, 0);
    var len := ReadUvarint(s, 0).len;
    assert s == s[..len] + s[len..len + |msg|] + s[len + |msg|..];
  }

  /** A header of one byte commutes with a record exactly when the record repeats that byte. */
  lemma {:induction false} OneByteCommutes(x: byte, s: seq<byte>)
    ensures [x] + s == s + [x] <==> forall i | 0 <= i < |s| :: s[i] == x
    decreases |s|
  {
    if s != [] {
      var init, last := s[..|s| - 1], s[|s| - 1];
      OneByteCommutes(x, init);
      assert s == init + [last];
      if [x] + s == s + [x] {
        assert ([x] + s)[|s|] == last && (s + [x])[|s|] == x;
        assert ([x] + init) + [last] == (init + [last]) + [x];
        assert [x] + init == (([x] + init) + [last])[..|s|] == ((init + [last]) + [x])[..|s|] == init + [x];
      }
      if forall i | 0 <= i < |s| :: s[i] == x {
        forall i | 0 <= i < |init| ensures init[i] == x { assert s[i] == x; }
        assert s[|s| - 1] == x;
        assert [x] + s == ([x] + init) + [x];
      }
    }
  }

  /** How many whole frames the first `n` bytes of Frames(msgs) hold. */
  function WholeFrames(msgs: seq<seq<byte>>, n: nat): (k: nat)
    ensures k <= |msgs| && |Frames(msgs[..k])| <= n
    ensures k < |msgs| ==> n < |Frames(msgs[..k + 1])|
    decreases |msgs|
  {
    if |Frames(msgs)| <= n then
      assert msgs[..|msgs|] == msgs;
      |msgs|
    else
      var init := msgs[..|msgs| - 1];
      var k := WholeFrames(init, n);
      assert init[..k] == msgs[..k];
      assert k < |init| ==> init[..k + 1] == msgs[..k + 1];
      assert k == |init| ==> msgs[..k + 1] == msgs;
      k
  }

  /** Frames of a longer run begin with the frames of a shorter one. */
  lemma {:induction false} FramesPrefix(msgs: seq<seq<byte>>, k: nat)
    requires k <= |msgs|
    ensures Frames(msgs[..k]) <= Frames(msgs)
    decreases |msgs|
  {
    if k == |msgs| {
      assert msgs[..k] == msgs;
    } else {
      FramesPrefix(msgs[..|msgs| - 1], k);
      assert msgs[..|msgs| - 1][..k] == msgs[..k];
    }
  }

  /**
   * Reading any prefix of a framed file gives exactly the messages whose frames are whole; the end is a plain
   * end of file only if the prefix stops at a frame boundary, or right after the header of the next frame.
   */
  lemma {:induction false} ReadPrefix(msgs: seq<seq<byte>>, n: nat, b: Bounds)
    requires AllSized(msgs, b) && n <= |Frames(msgs)|
    ensures var k := WholeFrames(msgs, n);
            var torn := n - |Frames(msgs[..k])|;
            ReadAll(Frames(msgs)[..n], b)
            == Scan(msgs[..k], torn == 0 || (k < |msgs| && torn == |PutUvarint(|msgs[k]|)|))
  {
    hide ReadDelimited, Frame, PutUvarint, Limit, WholeFrames;
    var k := WholeFrames(msgs, n);
    var whole := Frames(msgs[..k]);
    var file := Frames(msgs)[..n];
    FramesPrefix(msgs, k);
    if k == |msgs| {
      assert msgs[..k] == msgs;
      ReadFrames(msgs, [], b);
      assert file == Frames(msgs) + [];
      NothingToRead(b);
      assert msgs + [] == msgs;
    } else {
      var torn := n - |whole|;
      FramesPrefix(msgs, k + 1);
      assert msgs[..k + 1][..k] == msgs[..k];
      assert Frames(msgs[..k + 1]) == whole + Frame(msgs[k]);
      assert file == whole + Frame(msgs[k])[..torn];
      TornFrame(msgs[k], torn, b);
      ReadFrames(msgs[..k], Frame(msgs[k])[..torn], b);
      assert msgs[..k] + [] == msgs[..k];
    }
  }

  lemma {:induction false} NothingToRead(b: Bounds)
    ensures ReadAll([], b) == Scan([], true)
  {
  }

  /** Protobuf marshalling, of which only that decoding undoes encoding is used. */
  datatype Codec<!R(!new)> = Codec(marshal: R -> seq<byte>, unmarshal: seq<byte> -> Option<R>) {
    ghost predicate Faithful() {
      forall r :: unmarshal(marshal(r)) == Some(r)
    }

    /** Go's lengths are below 2 to the power 64. */
    ghost predicate Sized() {
      forall r :: |marshal(r)| < 0x1_0000_0000_0000_0000
    }
  }

  function Marshalled<R(!new)>(codec: Codec<R>, records: seq<R>): (msgs: seq<seq<byte>>)
    ensures |msgs| == |records|
  {
    seq(|records|, i requires 0 <= i < |records| => codec.marshal(records[i]))
  }
}
