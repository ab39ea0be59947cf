/**
 * The timeline file under many writers. Every attachment's send loop and every run request writes its records with
 * two calls each and no lock, so the calls of different writers may come in any order.
 */
module ShellWriters {
  import opened Seqs
  import opened Bytes
  import opened Wrappers
  import opened Framing
  import opened XrMarkers
  import opened XrStreaming
  import opened ShellCommands
  import opened ShellTimeline
  import opened ShellSession
  import opened ShellRecords

  datatype Writer = Loop(i: nat) | Request(k: nat)

  datatype Write = Write(who: Writer, half: Half)

  function Plain(ws: seq<Write>): seq<Half> {
    if ws == [] then [] else Plain(ws[..|ws| - 1]) + [ws[|ws| - 1].half]
  }

  /** What one writer wrote, in its own order. */
  function Of(ws: seq<Write>, w: Writer): seq<Half> {
    if ws == [] then []
    else Of(ws[..|ws| - 1], w) + OneOf(ws[|ws| - 1], w)
  }

  function OneOf(x: Write, u: Writer): seq<Half> {
    if x.who == u then [x.half] else []
  }

  /** The records that a writer has to write: what its send loop completed, or its one run request. */
  function Due(attachments: seq<Attachment>, ran: seq<CommandRecord>, w: Writer): seq<CommandRecord> {
    match w
    case Loop(i) => if i < |attachments| then CompletedIn(attachments[i].commands.events) else []
    case Request(k) => if k < |ran| then [ran[k]] else []
  }

  /** Every writer has written all of its records, header before body, one after the other. */
  ghost predicate AllWrote(ws: seq<Write>, due: Writer -> seq<CommandRecord>) {
    forall w :: Of(ws, w) == Halves(due(w))
  }

  ghost predicate DueWritten(ws: seq<Write>, attachments: seq<Attachment>, ran: seq<CommandRecord>) {
    AllWrote(ws, w => Due(attachments, ran, w))
  }

  /** No other writer's call falls between the header of a record and its body. */
  predicate Undisturbed(ws: seq<Write>) {
    forall p | 0 <= p < |ws| && ws[p].half.Body? :: p > 0 && ws[p - 1].who == ws[p].who
  }

  lemma {:induction false} WriteSnoc(ws: seq<Write>, x: Write, w: Writer)
    ensures Plain(ws + [x]) == Plain(ws) + [x.half]
    ensures Of(ws + [x], w) == Of(ws, w) + OneOf(x, w)
  {
    assert (ws + [x])[..|ws|] == ws;
  }

  /** The last two calls are the two halves of one writer's last record. */
  lemma {:induction false} LastPair(ws: seq<Write>, due: Writer -> seq<CommandRecord>)
    requires ws != [] && AllWrote(ws, due) && Undisturbed(ws)
    ensures |ws| >= 2
    ensures var n := |ws| - 2;
            var w := ws[n].who;
            && due(w) != []
            && var k := |due(w)| - 1;
            && ws == ws[..n] + [Write(w, Header(due(w)[k]))] + [Write(w, Body(due(w)[k]))]
            && AllWrote(ws[..n], v => if v == w then due(v)[..|due(v)| - 1] else due(v))
  {
    hide Of, Halves;
    var m := |ws| - 1;
    var w := ws[m].who;
    assert ws == ws[..m] + [ws[m]];
    WriteSnoc(ws[..m], ws[m], w);
    assert Of(ws, w) == Halves(due(w)) && Of(ws, w) != [];
    var k := LastHalves(due(w));
    assert Of(ws, w)[|Of(ws, w)| - 1] == ws[m].half;
    assert Of(ws[..m], w) == Of(ws, w)[..|Of(ws, w)| - 1] == Halves(due(w)[..k]) + [Header(due(w)[k])];
    var n := m - 1;
    assert ws[n].who == w;
    assert ws[..m] == ws[..n] + [ws[n]];
    WriteSnoc(ws[..n], ws[n], w);
    assert Of(ws[..m], w)[|Of(ws[..m], w)| - 1] == ws[n].half == Header(due(w)[k]);
    assert Of(ws[..n], w) == Of(ws[..m], w)[..|Of(ws[..m], w)| - 1] == Halves(due(w)[..k]);
    var less: Writer -> seq<CommandRecord> := v => if v == w then due(v)[..|due(v)| - 1] else due(v);
    forall v ensures Of(ws[..n], v) == Halves(less(v)) {
      WriteSnoc(ws[..m], ws[m], v);
      WriteSnoc(ws[..n], ws[n], v);
    }
  }

  lemma {:induction false} LastHalves(records: seq<CommandRecord>) returns (k: nat)
    requires Halves(records) != []
    ensures |records| == k + 1
    ensures Halves(records) == Halves(records[..k]) + [Header(records[k]), Body(records[k])]
  {
    k := |records| - 1;
  }

  /** Undisturbed writers leave paired writes. */
  lemma {:induction false} UndisturbedIsPaired(ws: seq<Write>, due: Writer -> seq<CommandRecord>)
    requires AllWrote(ws, due) && Undisturbed(ws)
    ensures Paired(Plain(ws))
    decreases |ws|
  {
    hide Paired, AllWrote, Plain;
    if ws == [] {
      NothingPaired();
    } else {
      LastPair(ws, due);
      var n := |ws| - 2;
      var w, rec := ws[n].who, ws[n].half.rec;
      UndisturbedIsPaired(ws[..n], v => if v == w then due(v)[..|due(v)| - 1] else due(v));
      WriteSnoc(ws[..n], Write(w, Header(rec)), w);
      WriteSnoc(ws[..n] + [Write(w, Header(rec))], Write(w, Body(rec)), w);
      PairedSnoc(Plain(ws[..n]), rec);
    }
  }

  lemma {:induction false} NothingPaired()
    ensures Plain([]) == [] && Paired([])
  {
  }

  /** How often the writers below `n` wrote the bytes of `r`. */
  function LoopTotal(ws: seq<Write>, n: nat, r: CommandRecord): nat {
    if n == 0 then 0 else LoopTotal(ws, n - 1, r) + HowMany(Recorded(Of(ws, Loop(n - 1))), r)
  }

  function RequestTotal(ws: seq<Write>, n: nat, r: CommandRecord): nat {
    if n == 0 then 0 else RequestTotal(ws, n - 1, r) + HowMany(Recorded(Of(ws, Request(n - 1))), r)
  }

  function OneIf(b: bool): nat {
    if b then 1 else 0
  }

  lemma {:induction false} RecordedOfSnoc(ws: seq<Write>, x: Write, w: Writer, r: CommandRecord)
    ensures HowMany(Recorded(Of(ws + [x], w)), r)
         == HowMany(Recorded(Of(ws, w)), r) + OneIf(x.who == w && x.half == Body(r))
  {
    hide HowMany, Recorded, Of;
    WriteSnoc(ws, x, w);
    if x.who == w { RecordedMore(Of(ws, w), x.half, r); } else { assert Of(ws, w) + [] == Of(ws, w); }
  }

  lemma {:induction false} RecordedMore(hs: seq<Half>, h: Half, r: CommandRecord)
    ensures HowMany(Recorded(hs + [h]), r) == HowMany(Recorded(hs), r) + OneIf(h == Body(r))
  {
    hide HowMany, Recorded;
    RecordedSnoc(hs, h);
    HowManyConcat(Recorded(hs), if h.Body? then [h.rec] else [], r);
    HowManyOne(h.rec, r);
  }

  lemma {:induction false} TotalsSnoc(ws: seq<Write>, x: Write, n: nat, r: CommandRecord)
    ensures LoopTotal(ws + [x], n, r) == LoopTotal(ws, n, r) + OneIf(x.who.Loop? && x.who.i < n && x.half == Body(r))
    ensures RequestTotal(ws + [x], n, r)
         == RequestTotal(ws, n, r) + OneIf(x.who.Request? && x.who.k < n && x.half == Body(r))
    decreases n
  {
    hide HowMany, Recorded, Of;
    if n > 0 {
      TotalsSnoc(ws, x, n - 1, r);
      RecordedOfSnoc(ws, x, Loop(n - 1), r);
      RecordedOfSnoc(ws, x, Request(n - 1), r);
    }
  }

  lemma {:induction false} NoTotals(n: nat, r: CommandRecord)
    ensures LoopTotal([], n, r) == 0 == RequestTotal([], n, r)
    decreases n
  {
    if n > 0 { NoTotals(n - 1, r); }
  }

  /** One of `loops` send loops or `requests` run requests. */
  predicate Among(w: Writer, loops: nat, requests: nat) {
    match w
    case Loop(i) => i < loops
    case Request(k) => k < requests
  }

  /** Every record whose bytes are there was written by one of the writers. */
  lemma {:induction false} ByWriter(ws: seq<Write>, n: nat, m: nat, r: CommandRecord)
    requires forall p | 0 <= p < |ws| :: Among(ws[p].who, n, m)
    ensures HowMany(Recorded(Plain(ws)), r) == LoopTotal(ws, n, r) + RequestTotal(ws, m, r)
    decreases |ws|
  {
    hide HowMany, Recorded, LoopTotal, RequestTotal, Plain;
    if ws == [] {
      NoTotals(n, r);
      NoTotals(m, r);
      NothingRecorded(r);
    } else {
      var init, x := ws[..|ws| - 1], ws[|ws| - 1];
      assert ws == init + [x];
      ByWriter(init, n, m, r);
      WriteSnoc(init, x, x.who);
      RecordedMore(Plain(init), x.half, r);
      TotalsSnoc(init, x, n, r);
      TotalsSnoc(init, x, m, r);
    }
  }

  lemma {:induction false} NothingRecorded(r: CommandRecord)
    ensures Recorded(Plain([])) == [] && HowMany<CommandRecord>([], r) == 0
  {
  }

  lemma {:induction false} LoopsWrote(
    ws: seq<Write>, attachments: seq<Attachment>, ran: seq<CommandRecord>, n: nat, r: CommandRecord)
    requires DueWritten(ws, attachments, ran) && n <= |attachments|
    ensures LoopTotal(ws, n, r) == Completions(attachments[..n], r)
    decreases n
  {
    hide HowMany, Recorded, Of, Halves, CompletedIn;
    if n > 0 {
      LoopsWrote(ws, attachments, ran, n - 1, r);
      assert Of(ws, Loop(n - 1)) == Halves(Due(attachments, ran, Loop(n - 1)));
      RecordedHalves(Due(attachments, ran, Loop(n - 1)));
      assert attachments[..n][..n - 1] == attachments[..n - 1];
    }
  }

  lemma {:induction false} RequestsWrote(
    ws: seq<Write>, attachments: seq<Attachment>, ran: seq<CommandRecord>, n: nat, r: CommandRecord)
    requires DueWritten(ws, attachments, ran) && n <= |ran|
    ensures RequestTotal(ws, n, r) == HowMany(ran[..n], r)
    decreases n
  {
    hide HowMany, Recorded, Of, Halves, CompletedIn;
    if n == 0 {
      HowManyOne(r, r);
    } else {
      RequestsWrote(ws, attachments, ran, n - 1, r);
      assert Of(ws, Request(n - 1)) == Halves(Due(attachments, ran, Request(n - 1)));
      RecordedHalves([ran[n - 1]]);
      assert ran[..n] == ran[..n - 1] + [ran[n - 1]];
      HowManyConcat(ran[..n - 1], [ran[n - 1]], r);
    }
  }

  /** Nobody else writes. */
  lemma {:induction false} WritersKnown(ws: seq<Write>, attachments: seq<Attachment>, ran: seq<CommandRecord>, p: nat)
    requires DueWritten(ws, attachments, ran) && p < |ws|
    ensures Among(ws[p].who, |attachments|, |ran|)
  {
    hide Halves, CompletedIn;
    var w := ws[p].who;
    OfSome(ws, p);
    assert Of(ws, w) == Halves(Due(attachments, ran, w));
    NoHalves();
  }

  lemma {:induction false} OfSome(ws: seq<Write>, p: nat)
    requires p < |ws|
    ensures Of(ws, ws[p].who) != []
    decreases |ws|
  {
    if p < |ws| - 1 { OfSome(ws[..|ws| - 1], p); }
  }

  lemma {:induction false} NoHalves()
    ensures Halves([]) == []
  {
  }

  /**
   * What the timeline file lists after any run, when all writers have written their records in any order of their
   * calls, and no call of another writer fell between a header and its body: exactly the records that run requests
   * and send loops recorded, each as often.
   */
  lemma {:induction false} ListsTheTimeline(codec: Codec<CommandRecord>, steps: seq<Step>, ws: seq<Write>)
    requires codec.Faithful() && codec.Sized()
    requires DueWritten(ws, Run(steps).attachments, RanIn(steps)) && Undisturbed(ws)
    ensures var scan := ReadAll(Written(codec, Plain(ws)), TIMELINE);
            scan.clean && multiset(Decodable(codec, scan.msgs)) == multiset(Run(steps).timeline)
  {
    hide Run, RanIn, HowMany, AllWrote, Undisturbed, Written, ReadAll, Decodable, Paired, Plain, Recorded;
    hide LoopTotal, RequestTotal, Completions;
    var attachments, ran := Run(steps).attachments, RanIn(steps);
    UndisturbedIsPaired(ws, w => Due(attachments, ran, w));
    PairsRead(codec, Plain(ws));
    forall p | 0 <= p < |ws| ensures Among(ws[p].who, |attachments|, |ran|) {
      WritersKnown(ws, attachments, ran, p);
    }
    RunTallies(steps);
    assert attachments[..|attachments|] == attachments && ran[..|ran|] == ran;
    var listed := Decodable(codec, ReadAll(Written(codec, Plain(ws)), TIMELINE).msgs);
    forall r: CommandRecord ensures multiset(listed)[r] == multiset(Run(steps).timeline)[r] {
      ByWriter(ws, |attachments|, |ran|, r);
      LoopsWrote(ws, attachments, ran, |attachments|, r);
      RequestsWrote(ws, attachments, ran, |ran|, r);
      assert HowMany(Run(steps).timeline, r) == HowMany(ran, r) + Completions(attachments, r);
      CountIs(listed, r);
      CountIs(Run(steps).timeline, r);
    }
  }

  lemma {:induction false} CountIs(rs: seq<CommandRecord>, r: CommandRecord)
    ensures HowMany(rs, r) == multiset(rs)[r]
  {
  }

  /** How often the file then lists one command: as `TimelineCounts` has it recorded. */
  lemma {:induction false} ListedCounts(
    codec: Codec<CommandRecord>, steps: seq<Step>, ws: seq<Write>, s: Marker, e: Marker, r: CommandRecord)
    requires codec.Faithful() && codec.Sized()
    requires DueWritten(ws, Run(steps).attachments, RanIn(steps)) && Undisturbed(ws)
    requires WellFramed(Run(steps).file, 0) && RunsOnce(Run(steps).file, s, e) && r.id == s.id
    ensures s.endOffset <= e.startOffset
    ensures var st, scan := Run(steps), ReadAll(Written(codec, Plain(ws)), TIMELINE);
            && scan.clean
            && HowMany(Decodable(codec, scan.msgs), r)
               == HowMany(RanIn(steps), r)
                  + (if r == RecordOf(s, e) then Seeing(st.attachments, s, e, true)
                     else if r == EndOnly(e) then Seeing(st.attachments, s, e, false) else 0)
  {
    hide Run, RanIn, WellFramed, AllWrote, Undisturbed, Written, ReadAll, Decodable, Plain, RunsOnce;
    ListsTheTimeline(codec, steps, ws);
    TimelineCounts(steps, s, e, r);
  }

  /**
   * Without that condition: two writers that each have one record to write, and both write their headers first.
   * The first record read is then cut from the second header on, and the two records come back if and only if that
   * header commutes with the first record, which for a header of one byte means a record of nothing but that byte.
   */
  lemma {:induction false} TwoWriters(
    codec: Codec<CommandRecord>, a: CommandRecord, b: CommandRecord, v: Writer, w: Writer)
    requires codec.Sized() && v != w
    ensures var ws := HeadersFirst(a, b, v, w);
            && (forall u :: Of(ws, u) == Halves(if u == v then [a] else if u == w then [b] else []))
            && !Undisturbed(ws)
            && var ma, mb := codec.marshal(a), codec.marshal(b);
            var hdr := PutUvarint(|mb|);
            var scan := ReadAll(Written(codec, Plain(ws)), TIMELINE);
            && scan.msgs != [] && scan.msgs[0] == (hdr + ma)[..|ma|]
            && (scan == Scan([ma, mb], true) <==> hdr + ma == ma + hdr)
            && (|mb| < 0x80 ==> (hdr + ma == ma + hdr <==> forall i | 0 <= i < |ma| :: ma[i] == |mb| as byte))
  {
    hide PutUvarint, ReadAll, Written, Plain, Of, Halves;
    var ws := HeadersFirst(a, b, v, w);
    var ma, mb := codec.marshal(a), codec.marshal(b);
    forall u ensures Of(ws, u) == Halves(if u == v then [a] else if u == w then [b] else []) {
      FourWrites(ws, u);
      OneHalves(a);
      OneHalves(b);
    }
    FourWrites(ws, v);
    FourWritten(codec, Header(a), Header(b), Body(a), Body(b));
    InterleavedFrames(ma, mb, TIMELINE);
    if |mb| < 0x80 {
      OneByte(|mb|);
      OneByteCommutes(|mb| as byte, ma);
    }
  }

  function HeadersFirst(a: CommandRecord, b: CommandRecord, v: Writer, w: Writer): seq<Write> {
    [Write(v, Header(a)), Write(w, Header(b)), Write(v, Body(a)), Write(w, Body(b))]
  }

  lemma {:induction false} OneByte(n: nat)
    requires n < 0x80
    ensures PutUvarint(n) == [n as byte]
  {
  }

  lemma {:induction false} OneHalves(rec: CommandRecord)
    ensures Halves([rec]) == [Header(rec), Body(rec)] && Halves([]) == []
  {
    HalvesSnoc([], rec);
    assert [] + [rec] == [rec];
  }

  lemma {:induction false} FourWrites(ws: seq<Write>, u: Writer)
    requires |ws| == 4
    ensures Plain(ws) == [ws[0].half, ws[1].half, ws[2].half, ws[3].half]
    ensures Of(ws, u) == OneOf(ws[0], u) + OneOf(ws[1], u) + OneOf(ws[2], u) + OneOf(ws[3], u)
  {
    hide Plain, Of, OneOf;
    NothingWrote(u);
    WriteSnoc(ws[..0], ws[0], u);
    WriteSnoc(ws[..1], ws[1], u);
    WriteSnoc(ws[..2], ws[2], u);
    WriteSnoc(ws[..3], ws[3], u);
    assert ws[..0] == [] && ws[..1] == ws[..0] + [ws[0]] && ws[..2] == ws[..1] + [ws[1]];
    assert ws[..3] == ws[..2] + [ws[2]] && ws == ws[..3] + [ws[3]];
  }

  lemma {:induction false} NothingWrote(u: Writer)
    ensures Plain([]) == [] && Of([], u) == []
  {
  }

  lemma {:induction false} FourWritten(codec: Codec<CommandRecord>, h0: Half, h1: Half, h2: Half, h3: Half)
    ensures Written(codec, [h0, h1, h2, h3])
         == BytesOf(codec, h0) + (BytesOf(codec, h1) + (BytesOf(codec, h2) + BytesOf(codec, h3)))
  {
    hide BytesOf;
    NothingWritten(codec);
    WrittenSnoc(codec, [], h0);
    WrittenSnoc(codec, [h0], h1);
    WrittenSnoc(codec, [h0, h1], h2);
    WrittenSnoc(codec, [h0, h1, h2], h3);
    assert [] + [h0] == [h0] && [h0] + [h1] == [h0, h1];
    assert [h0, h1] + [h2] == [h0, h1, h2] && [h0, h1, h2] + [h3] == [h0, h1, h2, h3];
  }
}
