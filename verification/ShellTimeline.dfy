/** The timeline file of a shell session: the records of its completed commands, appended and read back. */
module ShellTimeline {
  import opened Seqs
  import opened Bytes
  import opened Wrappers
  import opened Framing
  import opened ShellCommands

  /** The messages that decode; the others are skipped. */
  function Decodable(codec: Codec<CommandRecord>, msgs: seq<seq<byte>>): seq<CommandRecord> {
    if msgs == [] then []
    else
      var r := codec.unmarshal(msgs[|msgs| - 1]);
      Decodable(codec, msgs[..|msgs| - 1]) + if r.Some? then [r.value] else []
  }

  /** The last `limit` records, or all of them without a limit. */
  function Limited(records: seq<CommandRecord>, limit: int): seq<CommandRecord> {
    if limit <= 0 then records else LastN(records, limit)
  }

  /** readLastCommandRecords; None stands for the error of a torn record, which hides the whole records as well. */
  method ReadLastCommandRecords(codec: Codec<CommandRecord>, file: seq<byte>, limit: int)
    returns (records: Option<seq<CommandRecord>>)
    ensures var scan := ReadAll(file, TIMELINE);
            records == if scan.clean then Some(Limited(Decodable(codec, scan.msgs), limit)) else None
    ensures var all := Decodable(codec, ReadAll(file, TIMELINE).msgs);
            records.Some? ==>
              records.value == if 0 < limit < |all| then all[|all| - limit..] else all
  {
    hide ReadDelimited;
    var all: seq<CommandRecord> := [];
    var rest := file;
    ghost var read: seq<seq<byte>> := [];
    ghost var scan := ReadAll(file, TIMELINE);
    while true
      invariant all == Decodable(codec, read)
      invariant scan.msgs == read + ReadAll(rest, TIMELINE).msgs && scan.clean == ReadAll(rest, TIMELINE).clean
      decreases |rest|
    {
      var r := ReadDelimited(rest, TIMELINE);
      if r == EndOfFile { break; }
      if r == Malformed { return None; }
      Associates(read, [r.msg], ReadAll(r.rest, TIMELINE).msgs);
      assert (read + [r.msg])[..|read|] == read;
      read := read + [r.msg];
      rest := r.rest;
      var rec := codec.unmarshal(r.msg);
      if rec == None { continue; }
      all := all + [rec.value];
    }
    assert read + [] == read;
    if limit <= 0 || |all| <= limit { return Some(all); }
    records := Some(all[|all| - limit..]);
  }

  /** Message by message, in order: its record, or nothing. */
  lemma {:induction false} DecodableConcat(codec: Codec<CommandRecord>, a: seq<seq<byte>>, b: seq<seq<byte>>)
    ensures Decodable(codec, a + b) == Decodable(codec, a) + Decodable(codec, b)
    decreases |b|
  {
    if b == [] {
      assert a + b == a;
    } else {
      var n := |b| - 1;
      DecodableConcat(codec, a, b[..n]);
      assert (a + b)[..|a| + n] == a + b[..n];
      var r := codec.unmarshal(b[n]);
      Associates(Decodable(codec, a), Decodable(codec, b[..n]), if r.Some? then [r.value] else []);
    }
  }

  lemma {:induction false} DecodableOne(codec: Codec<CommandRecord>, msg: seq<byte>)
    ensures Decodable(codec, [msg]) == match codec.unmarshal(msg) case None => [] case Some(r) => [r]
  {
    assert [msg][..0] == [];
  }

  lemma {:induction false} DecodableMarshalled(codec: Codec<CommandRecord>, records: seq<CommandRecord>)
    requires codec.Faithful()
    ensures Decodable(codec, Marshalled(codec, records)) == records
    decreases |records|
  {
    if records != [] {
      var n := |records| - 1;
      DecodableMarshalled(codec, records[..n]);
      assert Marshalled(codec, records)[..n] == Marshalled(codec, records[..n]);
      assert records == records[..n] + [records[n]];
    }
  }

  /** appendCommandRecord writes a record with two calls, its length and then its bytes, and takes no lock. */
  datatype Half = Header(rec: CommandRecord) | Body(rec: CommandRecord)

  function BytesOf(codec: Codec<CommandRecord>, h: Half): seq<byte> {
    var msg := codec.marshal(h.rec);
    if h.Header? then PutUvarint(|msg|) else msg
  }

  /** The file that some writes leave behind, whoever made them and in whatever order. */
  function Written(codec: Codec<CommandRecord>, halves: seq<Half>): seq<byte> {
    if halves == [] then []
    else Written(codec, halves[..|halves| - 1]) + BytesOf(codec, halves[|halves| - 1])
  }

  /** The records whose bytes are there. */
  function Recorded(halves: seq<Half>): seq<CommandRecord> {
    if halves == [] then []
    else
      var last := halves[|halves| - 1];
      Recorded(halves[..|halves| - 1]) + if last.Body? then [last.rec] else []
  }

  /** The writes of one writer. */
  function Halves(records: seq<CommandRecord>): seq<Half> {
    if records == [] then []
    else Halves(records[..|records| - 1]) + [Header(records[|records| - 1]), Body(records[|records| - 1])]
  }

  /** Every header has its own record behind it, and every record its own header before it. */
  predicate Paired(halves: seq<Half>) {
    halves == Halves(Recorded(halves))
  }

  lemma {:induction false} WrittenSnoc(codec: Codec<CommandRecord>, halves: seq<Half>, h: Half)
    ensures Written(codec, halves + [h]) == Written(codec, halves) + BytesOf(codec, h)
  {
    assert (halves + [h])[..|halves|] == halves;
  }

  lemma {:induction false} RecordedSnoc(halves: seq<Half>, h: Half)
    ensures Recorded(halves + [h]) == Recorded(halves) + if h.Body? then [h.rec] else []
  {
    assert (halves + [h])[..|halves|] == halves;
  }

  lemma {:induction false} HalvesSnoc(records: seq<CommandRecord>, rec: CommandRecord)
    ensures Halves(records + [rec]) == Halves(records) + [Header(rec), Body(rec)]
  {
    assert (records + [rec])[..|records|] == records;
  }

  lemma {:induction false} PairedSnoc(halves: seq<Half>, rec: CommandRecord)
    ensures var more := halves + [Header(rec)] + [Body(rec)];
            && Recorded(more) == Recorded(halves) + [rec]
            && (Paired(halves) ==> Paired(more))
  {
    hide Halves, Recorded;
    RecordedSnoc(halves, Header(rec));
    RecordedSnoc(halves + [Header(rec)], Body(rec));
    HalvesSnoc(Recorded(halves), rec);
    assert halves + [Header(rec)] + [Body(rec)] == halves + [Header(rec), Body(rec)];
  }

  lemma {:induction false} RecordedHalves(records: seq<CommandRecord>)
    ensures Recorded(Halves(records)) == records
    decreases |records|
  {
    if records != [] {
      var init, rec := records[..|records| - 1], records[|records| - 1];
      RecordedHalves(init);
      PairedSnoc(Halves(init), rec);
      assert Halves(init) + [Header(rec)] + [Body(rec)] == Halves(records);
    }
  }

  /** Paired writes leave the frames of their records. */
  lemma {:induction false} PairsAreFrames(codec: Codec<CommandRecord>, records: seq<CommandRecord>)
    ensures Written(codec, Halves(records)) == Frames(Marshalled(codec, records))
    decreases |records|
  {
    hide Written, PutUvarint;
    if records == [] {
      NothingWritten(codec);
    } else {
      var init, rec := records[..|records| - 1], records[|records| - 1];
      PairsAreFrames(codec, init);
      WrittenSnoc(codec, Halves(init), Header(rec));
      WrittenSnoc(codec, Halves(init) + [Header(rec)], Body(rec));
      assert Halves(init) + [Header(rec)] + [Body(rec)] == Halves(records);
      assert Marshalled(codec, records)[..|init|] == Marshalled(codec, init);
      Associates(Written(codec, Halves(init)), PutUvarint(|codec.marshal(rec)|), codec.marshal(rec));
    }
  }

  lemma {:induction false} NothingWritten(codec: Codec<CommandRecord>)
    ensures Written(codec, []) == []
  {
  }

  /** The bytes of paired writes list as their records. */
  lemma {:induction false} PairsRead(codec: Codec<CommandRecord>, halves: seq<Half>)
    requires codec.Faithful() && codec.Sized() && Paired(halves)
    ensures var scan := ReadAll(Written(codec, halves), TIMELINE);
            scan.clean && Decodable(codec, scan.msgs) == Recorded(halves)
  {
    hide ReadAll, Frames, Written, Halves, Decodable;
    var msgs := Marshalled(codec, Recorded(halves));
    PairsAreFrames(codec, Recorded(halves));
    ReadFrames(msgs, [], TIMELINE);
    NothingToRead(TIMELINE);
    assert Frames(msgs) + [] == Frames(msgs) && msgs + [] == msgs;
    DecodableMarshalled(codec, Recorded(halves));
  }

  /** The timeline file, open for appending by any number of writers. */
  class Timeline {
    const codec: Codec<CommandRecord>
    var file: seq<byte>
    ghost var halves: seq<Half>

    ghost predicate Valid()
      reads this
    {
      && codec.Faithful() && codec.Sized() && file == Written(codec, halves)
    }

    /** So far, no write has come between a header and its record. */
    ghost predicate Whole()
      reads this
    {
      Valid() && Paired(halves)
    }

    ghost function Records(): seq<CommandRecord>
      reads this
    {
      Recorded(halves)
    }

    constructor (codec: Codec<CommandRecord>)
      requires codec.Faithful() && codec.Sized()
      ensures Whole() && this.codec == codec && halves == []
    {
      this.codec, file, halves := codec, [], [];
    }

    /** The first write of a record. */
    method WriteHeader(rec: CommandRecord)
      requires Valid()
      modifies this
      ensures Valid() && halves == old(halves) + [Header(rec)]
    {
      hide PutUvarint;
      WrittenSnoc(codec, halves, Header(rec));
      file := file + PutUvarint(|codec.marshal(rec)|);
      halves := halves + [Header(rec)];
    }

    /** The second write of a record. */
    method WriteBody(rec: CommandRecord)
      requires Valid()
      modifies this
      ensures Valid() && halves == old(halves) + [Body(rec)]
    {
      WrittenSnoc(codec, halves, Body(rec));
      file := file + codec.marshal(rec);
      halves := halves + [Body(rec)];
    }

    /** Both writes of one record, with no other write between them. */
    method Append(rec: CommandRecord)
      requires Valid()
      modifies this
      ensures Valid() && halves == old(halves) + [Header(rec)] + [Body(rec)]
      ensures Records() == old(Records()) + [rec] && (old(Whole()) ==> Whole())
    {
      hide Written, Halves, Recorded;
      PairedSnoc(halves, rec);
      WriteHeader(rec);
      WriteBody(rec);
    }

    /** If no write came between a header and its record, all records come back, or the last of them. */
    method List(limit: int) returns (last: Option<seq<CommandRecord>>)
      requires Valid()
      ensures Whole() ==> last == Some(Limited(Records(), limit))
      ensures var scan := ReadAll(file, TIMELINE);
              last == if scan.clean then Some(Limited(Decodable(codec, scan.msgs), limit)) else None
    {
      hide ReadAll, Written, Halves, Recorded, Decodable;
      if Paired(halves) { PairsRead(codec, halves); }
      last := ReadLastCommandRecords(codec, file, limit);
    }

    /**
     * If the process dies while it writes, the file holds a prefix of the frames. It lists the records that are
     * there in full if the prefix ends at a frame boundary or behind a lone header, and fails otherwise.
     */
    method ListAfterCrash(n: nat, limit: int) returns (last: Option<seq<CommandRecord>>)
      requires Whole() && n <= |file|
      ensures var records, msgs := Records(), Marshalled(codec, Records());
              var k := WholeFrames(msgs, n);
              var torn := n - |Frames(msgs[..k])|;
              last == if torn == 0 || (k < |msgs| && torn == |PutUvarint(|msgs[k]|)|)
                      then Some(Limited(records[..k], limit)) else None
    {
      hide ReadAll, Frames, WholeFrames, PutUvarint, Written, Halves, Recorded;
      ghost var records := Records();
      ghost var msgs := Marshalled(codec, records);
      PairsAreFrames(codec, records);
      ReadPrefix(msgs, n, TIMELINE);
      ghost var k := WholeFrames(msgs, n);
      DecodableMarshalled(codec, records[..k]);
      assert msgs[..k] == Marshalled(codec, records[..k]);
      last := ReadLastCommandRecords(codec, file[..n], limit);
    }
  }

  /** The records of the completed commands among some events. */
  function CompletedIn(events: seq<CommandEvent>): seq<CommandRecord> {
    if events == [] then [] else CompletedIn(events[..|events| - 1]) + CompletedOf(events[|events| - 1])
  }

  function CompletedOf(e: CommandEvent): seq<CommandRecord> {
    if e.Completed? then [e.record] else []
  }
}
