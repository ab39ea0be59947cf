/**
 * The outgoing queue of one attachment: `send`, which its goroutines call, `stopSend`, and the goroutine that
 * hands queued messages to the stream. Every interleaving is a sequence of acts.
 */
module ShellOutbox {
  import opened Seqs
  import opened Wrappers
  import opened ShellCommands
  import opened ShellSession
  import ShellRuns

  const OUT_CAP := 256

  datatype Msg = Hello(start: nat) | Event(event: CommandEvent) | Data(chunk: Chunk)

  /** The cases of the select in `send`: two that refuse the message, and one that queues it. */
  datatype Case = Cancelled | Stopped | Queue

  datatype Outbox = Outbox(
    /* the context is done; `sendStop` is closed; `outCh` is closed */
    cancelled: bool, stopped: bool, closed: bool,
    queue: seq<Msg>,
    /* messages whose `send` waits in its select */
    waiting: seq<Msg>,
    /* the message that is being sent, and whether the sending goroutine has returned */
    sending: Option<Msg>, gone: bool,
    /* what `send` returned true for, what the stream took, and what it refused */
    accepted: seq<Msg>, delivered: seq<Msg>, refused: seq<Msg>,
    panicked: bool)

  const NewOutbox := Outbox(false, false, false, [], [], None, false, [], [], [], false)

  /**
   * Send enters `send`; of the cases that are ready, the runtime takes any. stopSend closes `sendStop` and then
   * `outCh`, once; any goroutine may call it at any time. The sending goroutine takes a message, sends it, and
   * returns after a failure or when it sees `sendStop` closed.
   */
  datatype Act = Cancel | Send(m: Msg, pick: Case) | CloseStop | CloseOut | Take | Sent(ok: bool) | Leave

  predicate Ready(o: Outbox, pick: Case) {
    match pick
    case Cancelled => o.cancelled
    case Stopped => o.stopped
    case Queue => o.closed || |o.queue| < OUT_CAP
  }

  /** An act that is not possible leaves everything as it is, and so does every act after a panic. */
  function Do(o: Outbox, act: Act): Outbox {
    if o.panicked then o
    else
      match act
      case Cancel => o.(cancelled := true, waiting := [])
      case Send(m, pick) =>
        if Ready(o, pick) then
          if pick != Queue then o
          else if o.closed then o.(panicked := true)
          else o.(queue := o.queue + [m], accepted := o.accepted + [m])
        else if Ready(o, Cancelled) || Ready(o, Stopped) || Ready(o, Queue) then o
        else o.(waiting := o.waiting + [m])
      case CloseStop => if o.stopped then o else o.(stopped := true, waiting := [])
      case CloseOut => if o.stopped && !o.closed then o.(closed := true, panicked := o.waiting != []) else o
      case Take =>
        if o.gone || o.sending.Some? || o.queue == [] then o
        else Refilled(o.(sending := Some(o.queue[0]), queue := o.queue[1..]))
      case Sent(ok) =>
        if o.sending.None? then o
        else if ok then o.(sending := None, delivered := o.delivered + [o.sending.value])
        else o.(sending := None, refused := o.refused + [o.sending.value], gone := true)
      case Leave => if o.stopped && o.sending.None? then o.(gone := true) else o
  }

  /** Room in the queue goes to the `send` that has waited longest. */
  function Refilled(o: Outbox): Outbox {
    if o.waiting == [] then o
    else o.(queue := o.queue + [o.waiting[0]], accepted := o.accepted + [o.waiting[0]], waiting := o.waiting[1..])
  }

  function After(acts: seq<Act>): Outbox {
    if acts == [] then NewOutbox else Do(After(acts[..|acts| - 1]), acts[|acts| - 1])
  }

  lemma {:induction false} AfterSnoc(acts: seq<Act>, act: Act)
    ensures After(acts + [act]) == Do(After(acts), act)
  {
    assert (acts + [act])[..|acts|] == acts;
  }

  /** What `send` accepted and the stream has not taken. */
  function Left(o: Outbox): seq<Msg> {
    Rest(o.refused, o.sending, o.queue)
  }

  function Rest<T>(refused: seq<T>, sending: Option<T>, queue: seq<T>): seq<T> {
    refused + One(sending) + queue
  }

  function One<T>(m: Option<T>): seq<T> {
    if m.Some? then [m.value] else []
  }

  ghost predicate Sound(o: Outbox) {
    && |o.queue| <= OUT_CAP && (o.closed ==> o.stopped)
    && o.accepted == o.delivered + Left(o)
    && (o.refused != [] ==> o.gone) && (o.gone ==> o.sending.None?)
    && (o.waiting != [] ==> !o.cancelled && !o.stopped && |o.queue| == OUT_CAP)
  }

  lemma {:induction false} QueueGrows<T>(delivered: seq<T>, refused: seq<T>, sending: Option<T>, queue: seq<T>, m: T)
    ensures delivered + Rest(refused, sending, queue + [m]) == delivered + Rest(refused, sending, queue) + [m]
  {
    Associates(refused + One(sending), queue, [m]);
    Associates(delivered, Rest(refused, sending, queue), [m]);
  }

  lemma {:induction false} HeadMoves<T>(m: T, queue: seq<T>)
    ensures Rest([], Some(m), queue) == [m] + queue == Rest([m], None, queue)
    ensures Rest([], None, queue) == queue
  {
  }

  lemma {:induction false} TakeSound(o: Outbox)
    requires Sound(o)
    ensures Sound(Do(o, Take))
  {
    if !o.gone && o.sending.None? && o.queue != [] {
      HeadMoves(o.queue[0], o.queue[1..]);
      HeadMoves(o.queue[0], o.queue);
      assert [o.queue[0]] + o.queue[1..] == o.queue;
      if o.waiting != [] { QueueGrows(o.delivered, [], Some(o.queue[0]), o.queue[1..], o.waiting[0]); }
      hide Rest;
    }
  }

  lemma {:induction false} SendSound(o: Outbox, m: Msg, pick: Case)
    requires Sound(o)
    ensures Sound(Do(o, Send(m, pick)))
  {
    QueueGrows(o.delivered, o.refused, o.sending, o.queue, m);
    hide Rest;
  }

  lemma {:induction false} SentSound(o: Outbox, ok: bool)
    requires Sound(o)
    ensures Sound(Do(o, Sent(ok)))
  {
    hide Rest, One;
    if o.sending.Some? {
      HeadMoves(o.sending.value, o.queue);
      Associates(o.delivered, [o.sending.value], o.queue);
      assert o.sending == Some(o.sending.value) && o.refused + [o.sending.value] == [o.sending.value];
    }
  }

  lemma {:induction false} DoSound(o: Outbox, act: Act)
    requires Sound(o)
    ensures Sound(Do(o, act))
  {
    match act
    case Take => TakeSound(o);
    case Send(m, pick) => SendSound(o, m, pick);
    case Sent(ok) => SentSound(o, ok);
    case _ =>
  }

  lemma {:induction false} AfterSound(acts: seq<Act>)
    ensures Sound(After(acts))
    decreases |acts|
  {
    hide Do, Sound;
    if acts == [] {
      NewSound();
    } else {
      AfterSound(acts[..|acts| - 1]);
      DoSound(After(acts[..|acts| - 1]), acts[|acts| - 1]);
    }
  }

  lemma {:induction false} NewSound()
    ensures Sound(NewOutbox)
  {
  }

  /**
   * For any interleaving: what the stream took is a prefix, in order, of what `send` accepted; the rest is one
   * message that the stream refused, one that is being sent, and what is queued.
   */
  lemma {:induction false} DeliveredIsPrefix(acts: seq<Act>)
    ensures var o := After(acts);
            && o.accepted == o.delivered + Left(o)
            && |o.refused + One(o.sending)| <= 1 && |o.queue| <= OUT_CAP
    decreases |acts|
  {
    hide Do;
    AfterSound(acts);
    if acts != [] {
      var init := acts[..|acts| - 1];
      DeliveredIsPrefix(init);
      AfterSound(init);
      OneRefused(After(init), acts[|acts| - 1]);
    }
  }

  lemma {:induction false} OneRefused(o: Outbox, act: Act)
    requires Sound(o) && |o.refused| <= 1
    ensures |Do(o, act).refused| <= 1
  {
  }

  /** What is left when the sending goroutine has returned stays so. */
  lemma {:induction false} GoneForGood(acts: seq<Act>, more: seq<Act>)
    requires After(acts).gone
    ensures After(acts + more).gone && After(acts + more).delivered == After(acts).delivered
    decreases |more|
  {
    hide Do, After;
    if more == [] {
      assert acts + more == acts;
    } else {
      var init, act := more[..|more| - 1], more[|more| - 1];
      GoneForGood(acts, init);
      AfterSound(acts + init);
      AfterSnoc(acts + init, act);
      assert acts + more == acts + init + [act];
      GoneStays(After(acts + init), act);
    }
  }

  lemma {:induction false} GoneStays(o: Outbox, act: Act)
    requires Sound(o) && o.gone
    ensures Do(o, act).gone && Do(o, act).delivered == o.delivered
  {
  }

  /** stopSend is through within the first `n` acts: it closed `sendStop`, and `outCh` after that. */
  ghost predicate StoppedBy(acts: seq<Act>, n: nat) {
    exists h, j :: 0 <= h < j < n <= |acts| && acts[h] == CloseStop && acts[j] == CloseOut
  }

  /** The channels and the context are as the acts so far have left them. */
  lemma {:induction false} FlagsAre(acts: seq<Act>)
    requires !After(acts).panicked
    ensures After(acts).cancelled <==> Cancel in acts
    ensures After(acts).stopped <==> CloseStop in acts
    ensures After(acts).closed <==> StoppedBy(acts, |acts|)
    decreases |acts|
  {
    if acts != [] {
      var n := |acts| - 1;
      var init := acts[..n];
      assert acts == init + [acts[n]];
      hide After, Do, StoppedBy;
      AfterSnoc(init, acts[n]);
      DoFlags(After(init), acts[n]);
      FlagsAre(init);
      StoppedSnoc(init, acts[n]);
      InSnoc(init, acts[n], Cancel);
      InSnoc(init, acts[n], CloseStop);
    }
  }

  lemma {:induction false} InSnoc<T>(xs: seq<T>, last: T, x: T)
    ensures x in xs + [last] <==> x in xs || x == last
  {
  }

  lemma {:induction false} DoFlags(o: Outbox, act: Act)
    requires !Do(o, act).panicked
    ensures !o.panicked
    ensures Do(o, act).cancelled <==> o.cancelled || act == Cancel
    ensures Do(o, act).stopped <==> o.stopped || act == CloseStop
    ensures Do(o, act).closed <==> o.closed || (act == CloseOut && o.stopped)
  {
  }

  lemma {:induction false} StoppedSnoc(acts: seq<Act>, act: Act)
    ensures StoppedBy(acts + [act], |acts| + 1)
            <==> StoppedBy(acts, |acts|) || (act == CloseOut && CloseStop in acts)
    ensures StoppedBy(acts + [act], |acts|) <==> StoppedBy(acts, |acts|)
  {
    var all, n := acts + [act], |acts|;
    assert forall i | 0 <= i < n :: all[i] == acts[i];
    if CloseStop in acts && act == CloseOut {
      var h :| 0 <= h < n && acts[h] == CloseStop;
      assert all[h] == CloseStop && all[n] == CloseOut;
    }
    if StoppedBy(all, n + 1) {
      var h, j :| 0 <= h < j < n + 1 && all[h] == CloseStop && all[j] == CloseOut;
      assert acts[h] == CloseStop && (j < n ==> acts[j] == CloseOut);
    }
    if StoppedBy(acts, n) {
      var h, j :| 0 <= h < j < n && acts[h] == CloseStop && acts[j] == CloseOut;
      assert all[h] == CloseStop && all[j] == CloseOut;
    }
    if StoppedBy(all, n) {
      var h, j :| 0 <= h < j < n && all[h] == CloseStop && all[j] == CloseOut;
      assert acts[h] == CloseStop && acts[j] == CloseOut;
    }
  }

  /** Act `i` enters `send` after stopSend is through, and the select takes the case that queues. */
  ghost predicate EntersClosed(acts: seq<Act>, i: nat) {
    i < |acts| && acts[i].Send? && acts[i].pick == Queue && StoppedBy(acts, i)
  }

  lemma {:induction false} DoPanics(o: Outbox, act: Act)
    requires Sound(o)
    ensures Do(o, act).panicked <==> o.panicked || (o.closed && act.Send? && act.pick == Queue)
  {
  }

  /**
   * The process panics if and only if some `send` is entered after stopSend is through and its select picks the
   * closed channel. A `send` that was waiting when stopSend began never panics.
   */
  lemma {:induction false} PanicsIff(acts: seq<Act>)
    ensures After(acts).panicked <==> exists i :: EntersClosed(acts, i)
    decreases |acts|
  {
    if acts == [] {
      assert !After(acts).panicked;
    } else {
      var n := |acts| - 1;
      var init := acts[..n];
      assert acts == init + [acts[n]];
      hide After, Do, Sound, StoppedBy;
      PanicsIff(init);
      AfterSound(init);
      AfterSnoc(init, acts[n]);
      DoPanics(After(init), acts[n]);
      forall i: nat | i < n ensures EntersClosed(acts, i) <==> EntersClosed(init, i) { SameStop(acts, n, i); }
      StoppedSnoc(init, acts[n]);
      if !After(init).panicked { FlagsAre(init); }
      assert EntersClosed(acts, n) <==> acts[n].Send? && acts[n].pick == Queue && StoppedBy(init, n);
    }
  }

  lemma {:induction false} SameStop(acts: seq<Act>, n: nat, i: nat)
    requires i < n <= |acts|
    ensures StoppedBy(acts, i) <==> StoppedBy(acts[..n], i)
  {
    var init := acts[..n];
    assert forall k | 0 <= k < n :: init[k] == acts[k];
    if StoppedBy(acts, i) {
      var h, j :| 0 <= h < j < i && acts[h] == CloseStop && acts[j] == CloseOut;
      assert init[h] == CloseStop && init[j] == CloseOut;
    }
    if StoppedBy(init, i) {
      var h, j :| 0 <= h < j < i && init[h] == CloseStop && init[j] == CloseOut;
      assert acts[h] == CloseStop && acts[j] == CloseOut;
    }
  }

  /** Once `outCh` is closed, both cases are ready for the next `send`: it returns false, or it panics. */
  lemma {:induction false} SendAfterStop(acts: seq<Act>, m: Msg)
    requires StoppedBy(acts, |acts|) && !After(acts).panicked
    ensures After(acts + [Send(m, Stopped)]) == After(acts)
    ensures After(acts + [Send(m, Queue)]).panicked
  {
    FlagsAre(acts);
    hide After;
    AfterSound(acts);
    AfterSnoc(acts, Send(m, Stopped));
    AfterSnoc(acts, Send(m, Queue));
  }

  /** Before that, a `send` is queued while there is room for it, and waits if no case is ready. */
  lemma {:induction false} SendBeforeStop(acts: seq<Act>, m: Msg)
    requires !After(acts).panicked && !StoppedBy(acts, |acts|)
    ensures var o, t := After(acts), After(acts + [Send(m, Queue)]);
            && !t.panicked
            && (|o.queue| < 256 ==>
                  t.queue == o.queue + [m] && t.accepted == o.accepted + [m] && t.waiting == o.waiting)
            && (|o.queue| >= 256 ==> t.queue == o.queue && t.accepted == o.accepted)
            && (|o.queue| >= 256 && Cancel !in acts && CloseStop !in acts ==> t.waiting == o.waiting + [m])
  {
    FlagsAre(acts);
    hide After;
    AfterSnoc(acts, Send(m, Queue));
  }

  /** The messages that `send` was called with. */
  function Entered(acts: seq<Act>): seq<Msg> {
    if acts == [] then []
    else
      var last := acts[|acts| - 1];
      Entered(acts[..|acts| - 1]) + if last.Send? then [last.m] else []
  }

  /** What is accepted or waits was sent, and no message is accepted more often than it was sent. */
  lemma {:induction false} NothingTwice(acts: seq<Act>)
    ensures InHand(After(acts)) <= multiset(Entered(acts))
    decreases |acts|
  {
    hide Do;
    if acts != [] {
      var init, act := acts[..|acts| - 1], acts[|acts| - 1];
      NothingTwice(init);
      DoOnce(After(init), act);
      if act.Send? {
        assert Entered(acts) == Entered(init) + [act.m];
        assert multiset([act.m]) == multiset{act.m};
      } else {
        assert Entered(acts) == Entered(init);
      }
    }
  }

  /** The messages that have been accepted or wait. */
  function InHand(o: Outbox): multiset<Msg> {
    multiset(o.accepted) + multiset(o.waiting)
  }

  lemma {:induction false} DoOnce(o: Outbox, act: Act)
    ensures InHand(Do(o, act)) <= InHand(o) + if act.Send? then multiset{act.m} else multiset{}
  {
    hide Do, InHand;
    match act
    case Take => TakenOnce(o);
    case Send(m, pick) => SentOnce(o, m, pick);
    case _ => OthersOnce(o, act);
  }

  lemma {:induction false} TakenOnce(o: Outbox)
    ensures InHand(Do(o, Take)) == InHand(o)
  {
    if o.waiting != [] { assert o.waiting == [o.waiting[0]] + o.waiting[1..]; }
  }

  lemma {:induction false} SentOnce(o: Outbox, m: Msg, pick: Case)
    ensures InHand(Do(o, Send(m, pick))) <= InHand(o) + multiset{m}
  {
    assert multiset([m]) == multiset{m};
  }

  lemma {:induction false} OthersOnce(o: Outbox, act: Act)
    requires !act.Take? && !act.Send?
    ensures InHand(Do(o, act)) <= InHand(o)
  {
    assert Do(o, act).accepted == o.accepted && (Do(o, act).waiting == o.waiting || Do(o, act).waiting == []);
  }

  /** The sending goroutine returns after a send that fails, or, between two sends, once stopSend has begun. */
  lemma {:induction false} GoesWhen(acts: seq<Act>, act: Act)
    requires !After(acts).panicked
    ensures After(acts + [act]).gone
            <==> After(acts).gone
                 || (act == Leave && CloseStop in acts && After(acts).sending.None?)
                 || (act == Sent(false) && After(acts).sending.Some?)
  {
    FlagsAre(acts);
    hide After;
    AfterSnoc(acts, act);
  }

  /** As long as the sending goroutine runs, the next message of the queue can be taken and delivered. */
  lemma {:induction false} NextIsDelivered(acts: seq<Act>)
    requires var o := After(acts); !o.panicked && !o.gone && o.sending.None? && o.queue != []
    ensures After(acts + [Take] + [Sent(true)]).delivered == After(acts).delivered + [After(acts).queue[0]]
  {
    hide After;
    AfterSnoc(acts, Take);
    AfterSnoc(acts + [Take], Sent(true));
  }

  /** The chunks among some messages. */
  function ChunksIn(ms: seq<Msg>): seq<Chunk> {
    if ms == [] then [] else ChunksIn(ms[..|ms| - 1]) + ChunkOf(ms[|ms| - 1])
  }

  function ChunkOf(m: Msg): seq<Chunk> {
    if m.Data? then [m.chunk] else []
  }

  lemma {:induction false} ChunksInLast(ms: seq<Msg>)
    ensures ms == [] ==> ChunksIn(ms) == []
    ensures ms != [] ==> ChunksIn(ms) == ChunksIn(ms[..|ms| - 1]) + ChunkOf(ms[|ms| - 1])
  {
  }

  lemma {:induction false} ChunksInConcat(a: seq<Msg>, b: seq<Msg>)
    ensures ChunksIn(a + b) == ChunksIn(a) + ChunksIn(b)
    decreases |b|
  {
    hide ChunksIn, ChunkOf;
    if b == [] {
      ChunksInLast(b);
      assert a + b == a;
    } else {
      var n := |b| - 1;
      ChunksInConcat(a, b[..n]);
      assert (a + b)[..|a| + n] == a + b[..n];
      ChunksInLast(a + b);
      ChunksInLast(b);
      Associates(ChunksIn(a), ChunksIn(b[..n]), ChunkOf(b[n]));
    }
  }

  /** What the streams of a client's attachments took, one attachment after the other. */
  function Received(outboxes: seq<Outbox>, attachments: seq<Attachment>, me: ClientId): seq<Chunk>
    requires |outboxes| == |attachments|
  {
    if attachments == [] then []
    else
      var n := |attachments| - 1;
      Received(outboxes[..n], attachments[..n], me)
      + if attachments[n].client == me then ChunksIn(outboxes[n].delivered) else []
  }

  /** The outbox of an attachment, somewhere in a run that has accepted the attachment's chunks. */
  ghost predicate Serves(o: Outbox, a: Attachment) {
    Sound(o) && ChunksIn(o.accepted) == a.accepted
  }

  ghost predicate AllServe(outboxes: seq<Outbox>, attachments: seq<Attachment>) {
    |outboxes| == |attachments| && forall i | 0 <= i < |attachments| :: Serves(outboxes[i], attachments[i])
  }

  /** No chunk that `send` accepted for the client is queued, being sent, or refused. */
  predicate NothingLeft(outboxes: seq<Outbox>, attachments: seq<Attachment>, me: ClientId)
    requires |outboxes| == |attachments|
  {
    forall i | 0 <= i < |attachments| && attachments[i].client == me :: ChunksIn(Left(outboxes[i])) == []
  }

  function Span(chunks: seq<Chunk>): nat {
    if chunks == [] then 0 else Span(chunks[..|chunks| - 1]) + chunks[|chunks| - 1].uncompressedLen
  }

  lemma {:induction false} SpanConcat(a: seq<Chunk>, b: seq<Chunk>)
    ensures Span(a + b) == Span(a) + Span(b)
    decreases |b|
  {
    if b == [] {
      assert a + b == a;
    } else {
      var n := |b| - 1;
      SpanConcat(a, b[..n]);
      assert (a + b)[..|a| + n] == a + b[..n];
    }
  }

  predicate AllLong(chunks: seq<Chunk>) {
    forall i | 0 <= i < |chunks| :: chunks[i].uncompressedLen > 0
  }

  lemma {:induction false} TilesSpan(chunks: seq<Chunk>, from: nat, to: nat)
    requires ShellSession.Tiles(chunks, from, to)
    ensures to == from + Span(chunks) && AllLong(chunks)
    decreases |chunks|
  {
    if chunks != [] {
      var n := |chunks| - 1;
      TilesSpan(chunks[..n], from, chunks[n].offset);
      forall i | 0 <= i < |chunks| ensures chunks[i].uncompressedLen > 0 {
        if i < n { assert chunks[i] == chunks[..n][i]; }
      }
    }
  }

  lemma {:induction false} SpanLong(chunks: seq<Chunk>)
    requires AllLong(chunks)
    ensures Span(chunks) == 0 <==> chunks == []
  {
  }

  /** One attachment adds `d` and has `l` left, behind `init` of which `got` was received. */
  lemma {:induction false} OnePart(init: seq<Chunk>, got: seq<Chunk>, d: seq<Chunk>, l: seq<Chunk>)
    requires AllLong(init + (d + l))
    ensures Span(init + (d + l)) - Span(got + d) == Span(init) - Span(got) + Span(l)
    ensures (Span(l) == 0 <==> l == []) && (l == [] ==> d + l == d)
  {
    hide Span;
    var all := init + (d + l);
    forall i | 0 <= i < |l| ensures l[i].uncompressedLen > 0 { assert l[i] == all[|init| + |d| + i]; }
    SpanConcat(init, d + l);
    SpanConcat(d, l);
    SpanConcat(got, d);
    SpanLong(l);
  }

  /** Received is what was accepted, less what is left. */
  lemma {:induction false} ReceivedSpan(outboxes: seq<Outbox>, attachments: seq<Attachment>, me: ClientId)
    requires AllServe(outboxes, attachments) && AllLong(ShellRuns.ClientChunks(attachments, me))
    ensures Span(Received(outboxes, attachments, me)) <= Span(ShellRuns.ClientChunks(attachments, me))
    ensures Span(Received(outboxes, attachments, me)) == Span(ShellRuns.ClientChunks(attachments, me))
            <==> NothingLeft(outboxes, attachments, me)
    ensures NothingLeft(outboxes, attachments, me)
            ==> Received(outboxes, attachments, me) == ShellRuns.ClientChunks(attachments, me)
    decreases |attachments|
  {
    hide ChunksIn, Span, Left, Rest;
    if attachments == [] {
      assert Received(outboxes, attachments, me) == [] == ShellRuns.ClientChunks(attachments, me);
    } else {
      var n := |attachments| - 1;
      var init, got := ShellRuns.ClientChunks(attachments[..n], me), Received(outboxes[..n], attachments[..n], me);
      assert forall i | 0 <= i < |init| :: init[i] == ShellRuns.ClientChunks(attachments, me)[i];
      assert forall i | 0 <= i < n :: outboxes[..n][i] == outboxes[i] && attachments[..n][i] == attachments[i];
      ReceivedSpan(outboxes[..n], attachments[..n], me);
      assert NothingLeft(outboxes, attachments, me)
        <==> NothingLeft(outboxes[..n], attachments[..n], me)
             && (attachments[n].client == me ==> ChunksIn(Left(outboxes[n])) == []);
      if attachments[n].client == me {
        var o := outboxes[n];
        assert Serves(o, attachments[n]);
        ChunksInConcat(o.delivered, Left(o));
        var d, l := ChunksIn(o.delivered), ChunksIn(Left(o));
        var all := ShellRuns.ClientChunks(attachments, me);
        assert all == init + (d + l);
        OnePart(init, got, d, l);
      } else {
        assert got + [] == got && init + [] == init;
      }
    }
  }

  /**
   * A client that always resumes from its last ack, over any run: what the streams took of its chunks tiles the log
   * up to its resume point if and only if nothing that `send` accepted for it is left in an outbox. The resume
   * point counts a chunk as soon as `send` has queued it.
   */
  lemma {:induction false} ReceivedTilesIff(me: ClientId, steps: seq<Step>, acts: seq<seq<Act>>)
    requires me != "" && ShellRuns.Resumes(me, steps)
    requires var attachments := Run(steps).attachments;
             && |acts| == |attachments|
             && forall i | 0 <= i < |acts| :: ChunksIn(After(acts[i]).accepted) == attachments[i].accepted
    ensures var st, outboxes := Run(steps), Outboxes(acts);
            ShellSession.Tiles(Received(outboxes, st.attachments, me), 0, AckOf(st.lastAck, me))
            <==> NothingLeft(outboxes, st.attachments, me)
  {
    hide Run, ShellRuns.Resumes, ChunksIn, After, Left, Sound, ShellSession.Tiles, ShellRuns.ClientChunks, Received;
    hide Span, NothingLeft, AllLong;
    var st, outboxes := Run(steps), Outboxes(acts);
    ShellRuns.ResumingTiles(me, steps);
    TilesSpan(ShellRuns.ClientChunks(st.attachments, me), 0, AckOf(st.lastAck, me));
    forall i | 0 <= i < |acts| ensures Serves(outboxes[i], st.attachments[i]) { AfterSound(acts[i]); }
    ReceivedSpan(outboxes, st.attachments, me);
    var got := Received(outboxes, st.attachments, me);
    if ShellSession.Tiles(got, 0, AckOf(st.lastAck, me)) { TilesSpan(got, 0, AckOf(st.lastAck, me)); }
  }

  function Outboxes(acts: seq<seq<Act>>): (outboxes: seq<Outbox>)
    ensures |outboxes| == |acts|
  {
    seq(|acts|, i requires 0 <= i < |acts| => After(acts[i]))
  }
}
