/** The session event log: framed records behind a write buffer, ids recovered by scanning, replay with a cursor. */
module SessionLog {
  import opened Seqs
  import opened Wrappers
  import opened Bytes
  import opened Framing

  const WRITER_SIZE := 256 * 1024

  datatype Lane = High | Medium | Low

  datatype Event = Event(id: int, lane: Lane, body: string)

  function Encoded(codec: Codec<Event>, events: seq<Event>): seq<byte> {
    Frames(Marshalled(codec, events))
  }

  function After(events: seq<Event>, cursor: int): seq<Event> {
    if events == [] then []
    else
      After(events[..|events| - 1], cursor)
      + if events[|events| - 1].id <= cursor then [] else [events[|events| - 1]]
  }

  /** Ids 1, 2, 3, ... */
  ghost predicate Consecutive(events: seq<Event>) {
    forall i | 0 <= i < |events| :: events[i].id == i + 1
  }

  lemma {:induction false} EncodedSnoc(codec: Codec<Event>, events: seq<Event>, e: Event)
    ensures Encoded(codec, events + [e]) == Encoded(codec, events) + Frame(codec.marshal(e))
  {
    var msgs := Marshalled(codec, events + [e]);
    assert msgs[..|msgs| - 1] == Marshalled(codec, events);
  }

  /** A bufio.Writer over an append-only file. */
  class Writer {
    var file: seq<byte>
    var buf: seq<byte>

    ghost predicate Valid()
      reads this
    {
      |buf| <= WRITER_SIZE
    }

    constructor (file: seq<byte>)
      ensures Valid() && this.file == file && buf == []
    {
      this.file, buf := file, [];
    }

    method Flush()
      requires Valid()
      modifies this
      ensures Valid() && buf == [] && file == old(file + buf)
    {
      file := file + buf;
      buf := [];
    }

    /** Fills and flushes the buffer as it goes; what does not fit an empty buffer goes straight to the file. */
    method Write(p: seq<byte>)
      requires Valid()
      modifies this
      ensures Valid() && file + buf == old(file + buf) + p && old(file) <= file
      ensures |old(buf)| + |p| <= 256 * 1024 ==> file == old(file)
    {
      var todo := p;
      while |todo| > WRITER_SIZE - |buf|
        invariant Valid() && file + buf + todo == old(file + buf) + p && old(file) <= file
        invariant |old(buf)| + |p| <= 256 * 1024 ==> file == old(file) && buf == old(buf) && todo == p
        decreases |todo|, |buf|
      {
        ghost var before := file + buf + todo;
        if |buf| == 0 {
          file := file + todo;
          todo := [];
        } else {
          var n := WRITER_SIZE - |buf|;
          buf := buf + todo[..n];
          Flush();
          todo := todo[n..];
        }
        assert file + buf + todo == before;
      }
      Associates(file, buf, todo);
      buf := buf + todo;
    }
  }

  /** What a scan of the file makes of its records: the decoded events, and whether it ended without an error. */
  datatype Decoded = Decoded(events: seq<Event>, clean: bool)

  function DecodeAll(codec: Codec<Event>, s: seq<byte>): Decoded
    decreases |s|
  {
    match ReadDelimited(s, SESSION)
    case EndOfFile => Decoded([], true)
    case Malformed => Decoded([], false)
    case Record(msg, rest) =>
      match codec.unmarshal(msg)
      case None => Decoded([], false)
      case Some(e) => var more := DecodeAll(codec, rest); Decoded([e] + more.events, more.clean)
  }

  /** Decoding goes up to the first record that does not decode, which ends it with an error. */
  lemma {:induction false} DecodedUpTo(codec: Codec<Event>, s: seq<byte>, k: nat)
    requires k <= |ReadAll(s, SESSION).msgs|
    requires forall i | 0 <= i < k :: codec.unmarshal(ReadAll(s, SESSION).msgs[i]).Some?
    requires k < |ReadAll(s, SESSION).msgs| ==> codec.unmarshal(ReadAll(s, SESSION).msgs[k]).None?
    ensures var scan, got := ReadAll(s, SESSION), DecodeAll(codec, s);
            && |got.events| == k && (forall i | 0 <= i < k :: Some(got.events[i]) == codec.unmarshal(scan.msgs[i]))
            && got.clean == (k == |scan.msgs| && scan.clean)
    decreases |s|
  {
    hide ReadDelimited;
    var r := ReadDelimited(s, SESSION);
    if r.Record? {
      var scan, more := ReadAll(s, SESSION), ReadAll(r.rest, SESSION);
      assert scan.msgs == [r.msg] + more.msgs;
      if k > 0 {
        assert codec.unmarshal(scan.msgs[0]).Some?;
        assert forall i | 0 <= i < |more.msgs| :: more.msgs[i] == scan.msgs[i + 1];
        DecodedUpTo(codec, r.rest, k - 1);
      }
    }
  }

  /** Which records the session log reads back: those of 1 byte to 64 MiB. */
  lemma {:induction false} SessionReads(msg: seq<byte>, rest: seq<byte>)
    requires |msg| < 0x1_0000_0000_0000_0000
    ensures ReadDelimited(Frame(msg) + rest, SESSION)
         == if 1 <= |msg| <= 67_108_864 then Record(msg, rest) else Malformed
  {
    hide ReadDelimited, Frame, Limit;
    LimitIs64Bits();
    FrameRoundTrip(msg, rest, SESSION);
  }

  /** Records that were marshalled decode to their events. */
  lemma {:induction false} DecodeMarshalled(codec: Codec<Event>, s: seq<byte>, events: seq<Event>)
    requires codec.Faithful() && ReadAll(s, SESSION).msgs == Marshalled(codec, events)
    ensures DecodeAll(codec, s) == Decoded(events, ReadAll(s, SESSION).clean)
    decreases |s|
  {
    hide ReadDelimited;
    var r := ReadDelimited(s, SESSION);
    if r.Record? {
      assert ReadAll(s, SESSION).msgs[0] == r.msg && Marshalled(codec, events)[0] == codec.marshal(events[0]);
      assert ReadAll(s, SESSION).msgs[1..] == ReadAll(r.rest, SESSION).msgs
        && Marshalled(codec, events)[1..] == Marshalled(codec, events[1..]);
      DecodeMarshalled(codec, r.rest, events[1..]);
      assert events == [events[0]] + events[1..];
    } else {
      assert events == [];
    }
  }

  lemma {:induction false} AfterConcat(a: seq<Event>, b: seq<Event>, cursor: int)
    ensures After(a + b, cursor) == After(a, cursor) + After(b, cursor)
    decreases |b|
  {
    if b == [] {
      assert a + b == a;
    } else {
      assert (a + b)[..|a + b| - 1] == a + b[..|b| - 1];
      AfterConcat(a, b[..|b| - 1], cursor);
    }
  }

  lemma {:induction false} AfterUnrolled(events: seq<Event>, cursor: int)
    requires events != []
    ensures var n := |events| - 1;
            After(events, cursor) == After(events[..n], cursor) + if events[n].id <= cursor then [] else [events[n]]
  {
  }

  /** With consecutive ids, what comes after a cursor is a suffix. */
  lemma {:induction false} AfterIsSuffix(events: seq<Event>, cursor: nat)
    requires Consecutive(events)
    ensures After(events, cursor) == if cursor < |events| then events[cursor..] else []
    decreases |events|
  {
    if events != [] {
      var n := |events| - 1;
      AfterIsSuffix(events[..n], cursor);
      hide After;
      AfterUnrolled(events, cursor);
      if cursor < n {
        assert events[cursor..] == events[..n][cursor..] + [events[n]];
      } else if cursor == n {
        assert events[cursor..] == [events[n]];
      }
    }
  }

  /** Replay: the loop that sends the events after the cursor, until the end of the file or an error. */
  method Replay(codec: Codec<Event>, file: seq<byte>, cursor: int) returns (sent: seq<Event>, ok: bool)
    ensures sent == After(DecodeAll(codec, file).events, cursor) && ok == DecodeAll(codec, file).clean
  {
    hide ReadDelimited;
    sent := [];
    var rest := file;
    ghost var read: seq<Event> := [];
    while true
      invariant sent == After(read, cursor)
      invariant DecodeAll(codec, file).events == read + DecodeAll(codec, rest).events
      invariant DecodeAll(codec, file).clean == DecodeAll(codec, rest).clean
      decreases |rest|
    {
      var r := ReadDelimited(rest, SESSION);
      if r == EndOfFile { ok := true; break; }
      if r == Malformed { ok := false; break; }
      var e := codec.unmarshal(r.msg);
      if e == None { ok := false; break; }
      Associates(read, [e.value], DecodeAll(codec, r.rest).events);
      AfterConcat(read, [e.value], cursor);
      assert After([e.value], cursor) == if e.value.id <= cursor then [] else [e.value]
        by { assert [e.value][..0] == []; }
      read := read + [e.value];
      if e.value.id > cursor { sent := sent + [e.value]; }
      rest := r.rest;
    }
    assert read + [] == read;
  }

  function MaxId(events: seq<Event>): (m: int)
    ensures m >= 0 && forall i | 0 <= i < |events| :: events[i].id <= m
    ensures m == 0 || exists i :: 0 <= i < |events| && events[i].id == m
  {
    if events == [] then 0
    else var m := MaxId(events[..|events| - 1]); if events[|events| - 1].id > m then events[|events| - 1].id else m
  }

  lemma {:induction false} MaxIdNone()
    ensures MaxId([]) == 0
  {
  }

  lemma {:induction false} MaxIdSnoc(events: seq<Event>, e: Event)
    ensures MaxId(events + [e]) == if e.id > MaxId(events) then e.id else MaxId(events)
  {
    assert (events + [e])[..|events|] == events;
  }

  lemma {:induction false} MaxIdOfConsecutive(events: seq<Event>)
    requires Consecutive(events)
    ensures MaxId(events) == |events|
    decreases |events|
  {
    if events != [] { MaxIdOfConsecutive(events[..|events| - 1]); }
  }

  /** scanNextID: None stands for the error that keeps a session from opening. */
  method ScanNextID(codec: Codec<Event>, file: seq<byte>) returns (next: Option<int>)
    ensures next == if DecodeAll(codec, file).clean then Some(MaxId(DecodeAll(codec, file).events) + 1) else None
  {
    hide ReadDelimited, MaxId;
    MaxIdNone();
    var last := 0;
    var rest := file;
    ghost var read: seq<Event> := [];
    while true
      invariant last == MaxId(read)
      invariant DecodeAll(codec, file).events == read + DecodeAll(codec, rest).events
      invariant DecodeAll(codec, file).clean == DecodeAll(codec, rest).clean
      decreases |rest|
    {
      var r := ReadDelimited(rest, SESSION);
      if r == EndOfFile { break; }
      if r == Malformed { return None; }
      var e := codec.unmarshal(r.msg);
      if e == None { return None; }
      Associates(read, [e.value], DecodeAll(codec, r.rest).events);
      MaxIdSnoc(read, e.value);
      read := read + [e.value];
      if e.value.id > last { last := e.value.id; }
      rest := r.rest;
    }
    assert read + [] == read;
    next := Some(last + 1);
  }

  class Session {
    const codec: Codec<Event>
    var w: Writer
    var nextID: int
    /** Every event appended, as far as it has not been lost. */
    ghost var history: seq<Event>

    /** File and buffer together are the framed history, whose ids are 1, 2, 3, ... */
    ghost predicate Valid()
      reads this, w
    {
      && w.Valid()
      && w.file + w.buf == Encoded(codec, history)
      && Consecutive(history) && nextID == |history| + 1
    }

    /** Every record in the history is one that readDelimited accepts. */
    ghost predicate Readable()
      reads this
    {
      codec.Faithful() && AllSized(Marshalled(codec, history), SESSION)
    }

    /** How many events are on file in full, and how many bytes of the next one. */
    ghost function OnFile(): nat
      reads this, w
    {
      WholeFrames(Marshalled(codec, history), |w.file|)
    }

    ghost function Torn(): int
      reads this, w
    {
      |w.file| - |Encoded(codec, history[..OnFile()])|
    }

    /** The file stops right after the header of an event. */
    ghost predicate EndsWithHeader()
      reads this, w
    {
      OnFile() < |history| && Torn() == |PutUvarint(|codec.marshal(history[OnFile()])|)|
    }

    constructor (codec: Codec<Event>)
      ensures Valid() && history == [] && this.codec == codec && fresh(w) && w.file == []
    {
      this.codec := codec;
      w := new Writer([]);
      nextID, history := 1, [];
    }

    /** Append, with `due` telling whether the last sync is more than 200 ms ago. */
    method Append(evt: Event, due: bool) returns (copy: Event)
      requires Valid()
      modifies this`nextID, this`history, w
      ensures Valid() && copy == evt.(id := old(nextID)) && history == old(history) + [copy]
      ensures old(w.file) <= w.file
      ensures evt.lane != Low || due ==> w.buf == [] && w.file == Encoded(codec, history)
      ensures evt.lane == Low && !due && |old(w.buf)| + |Frame(codec.marshal(copy))| <= 256 * 1024 ==>
                w.file == old(w.file)
    {
      copy := evt.(id := nextID);
      var syncNow := copy.lane != Low;
      nextID := nextID + 1;
      EncodedSnoc(codec, history, copy);
      history := history + [copy];
      var msg := codec.marshal(copy);
      ghost var before := w.file + w.buf;
      w.Write(PutUvarint(|msg|));
      w.Write(msg);
      Associates(before, PutUvarint(|msg|), msg);
      if syncNow || due {
        w.Flush();
        assert w.file + [] == w.file;
      }
      // The buffer holds at most WRITER_SIZE bytes, so the source's last test never asks for a flush.
      assert |w.buf| <= WRITER_SIZE;
    }

    /** The file holds a prefix of the history, and reading it gives exactly the events that are there in full. */
    lemma {:induction false} FileIsPrefix()
      requires Valid() && Readable()
      ensures OnFile() <= |history| && Torn() >= 0
      ensures DecodeAll(codec, w.file) == Decoded(history[..OnFile()], Torn() == 0 || EndsWithHeader())
      ensures w.buf == [] ==> OnFile() == |history| && Torn() == 0
    {
      hide ReadDelimited, WholeFrames;
      var msgs := Marshalled(codec, history);
      var k := OnFile();
      assert w.file == Frames(msgs)[..|w.file|];
      assert msgs[..k] == Marshalled(codec, history[..k]);
      ReadPrefix(msgs, |w.file|, SESSION);
      DecodeMarshalled(codec, w.file, history[..k]);
      if w.buf == [] {
        assert w.file == Frames(msgs);
        if k < |msgs| { FramesPrefix(msgs, k + 1); }
        assert msgs[..|msgs|] == msgs;
      }
    }

    /** What a file that stops behind a header looks like. */
    lemma {:induction false} LoneHeader()
      requires Valid() && EndsWithHeader()
      ensures w.file == Encoded(codec, history[..OnFile()]) + PutUvarint(|codec.marshal(history[OnFile()])|)
    {
      hide WholeFrames, PutUvarint;
      var msgs, k := Marshalled(codec, history), OnFile();
      assert w.file == Frames(msgs)[..|w.file|];
      assert msgs[..k] == Marshalled(codec, history[..k]);
      FramesPrefix(msgs, k + 1);
      assert msgs[..k + 1][..k] == msgs[..k];
      var frame := Frame(msgs[k]);
      assert Frames(msgs[..k + 1]) == Frames(msgs[..k]) + frame;
      assert w.file == (Frames(msgs[..k]) + frame)[..|w.file|];
      assert frame[..|PutUvarint(|msgs[k]|)|] == PutUvarint(|msgs[k]|);
    }

    /**
     * Replay sends the events after the cursor among those on file in full. Once nothing is buffered, as after
     * any append that is not LOW, that is the whole history after the cursor.
     */
    method ReplayFrom(cursor: nat) returns (sent: seq<Event>, ok: bool)
      requires Valid() && Readable()
      ensures OnFile() <= |history|
      ensures sent == if cursor < OnFile() then history[cursor..OnFile()] else []
      ensures ok == (Torn() == 0 || EndsWithHeader())
      ensures w.buf == [] ==> ok && sent == if cursor < |history| then history[cursor..] else []
    {
      hide DecodeAll, WholeFrames;
      FileIsPrefix();
      sent, ok := Replay(codec, w.file, cursor);
      AfterIsSuffix(history[..OnFile()], cursor);
    }

    /**
     * The process stops, cleanly (close) or not, and the session is opened again. It opens exactly when the
     * file stops at a frame boundary or after a lone header; ids go on from what is on file.
     */
    method Reopen(closed: bool) returns (ok: bool)
      requires Valid() && Readable()
      modifies this, w
      ensures closed ==> ok && Valid() && history == old(history) && w.file == old(w.file + w.buf)
      ensures !closed ==> w.file == old(w.file) && w.buf == []
      ensures !closed ==> ok == (old(Torn()) == 0 || old(EndsWithHeader()))
      ensures !closed && ok ==> nextID == old(OnFile()) + 1
      ensures !closed && ok && old(Torn()) != 0 ==>
                old(OnFile() < |history|)
                && w.file == old(Encoded(codec, history[..OnFile()]) + PutUvarint(|codec.marshal(history[OnFile()])|))
      ensures !closed && old(Torn()) == 0 ==>
              Valid() && history == old(history[..OnFile()]) && nextID == old(OnFile()) + 1
    {
      hide DecodeAll, WholeFrames, Frames, ReadDelimited;
      if closed {
        w.Flush();
        assert w.file + [] == w.file;
      }
      FileIsPrefix();
      if EndsWithHeader() { LoneHeader(); }
      ghost var k := OnFile();
      ghost var msgs := Marshalled(codec, history);
      assert history[..|history|] == history;
      FramesPrefix(msgs, k);
      assert msgs[..k] == Marshalled(codec, history[..k]);
      MaxIdOfConsecutive(history[..k]);
      if Torn() == 0 {
        assert w.file == Encoded(codec, history[..k]);
        history := history[..k];
      }
      w := new Writer(w.file);
      assert w.file + [] == w.file;
      var next := ScanNextID(codec, w.file);
      ok := next.Some?;
      if ok { nextID := next.value; }
    }
  }

  /**
   * What a session that opened behind a lone header reads back of what it appends: nothing, and it does not open
   * again, until it has written as many bytes as the header announces; after that, one record made of those bytes.
   */
  lemma {:induction false} BehindLoneHeader(codec: Codec<Event>, before: seq<Event>, n: nat, after: seq<Event>)
    requires codec.Faithful() && AllSized(Marshalled(codec, before), SESSION) && 0 < n <= SESSION.max && after != []
    ensures var tail := Encoded(codec, after);
            var file := Encoded(codec, before) + (PutUvarint(n) + tail);
            var msgs := ReadAll(file, SESSION).msgs;
            if |tail| < n then DecodeAll(codec, file) == Decoded(before, false)
            else before <= DecodeAll(codec, file).events && |before| < |msgs| && msgs[|before|] == tail[..n]
  {
    hide ReadAll, DecodeAll, Frames, PutUvarint;
    var tail := Encoded(codec, after);
    var file := Encoded(codec, before) + (PutUvarint(n) + tail);
    FramesBehindHeader(Marshalled(codec, before), n, Marshalled(codec, after), SESSION);
    if |tail| < n {
      DecodeMarshalled(codec, file, before);
    } else {
      DecodeBefore(codec, file, before);
    }
  }

  /** Records that were marshalled decode to their events, whatever comes after them. */
  lemma {:induction false} DecodeBefore(codec: Codec<Event>, s: seq<byte>, events: seq<Event>)
    requires codec.Faithful() && Marshalled(codec, events) <= ReadAll(s, SESSION).msgs
    ensures events <= DecodeAll(codec, s).events
    decreases |s|
  {
    hide ReadDelimited;
    var r := ReadDelimited(s, SESSION);
    if r.Record? && events != [] {
      assert ReadAll(s, SESSION).msgs[0] == r.msg && Marshalled(codec, events)[0] == codec.marshal(events[0]);
      assert ReadAll(s, SESSION).msgs[1..] == ReadAll(r.rest, SESSION).msgs;
      assert Marshalled(codec, events)[1..] == Marshalled(codec, events[1..]);
      DecodeBefore(codec, r.rest, events[1..]);
      assert events == [events[0]] + events[1..];
    }
  }
}
