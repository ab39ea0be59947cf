/** Output coalescers: many small pieces in, fewer larger ones out, and no byte lost, added or moved. */
module Coalescers {
  import opened Seqs
  import opened Bytes

  type Piece = seq<byte>

  const QUEUE_LEN := 128
  const DEFAULT_MAX_BUF := 256 * 1024

  lemma {:induction false} FlattenTwice(groups: seq<seq<Piece>>, outs: seq<Piece>)
    requires |groups| == |outs| && forall i | 0 <= i < |outs| :: outs[i] == Flatten(groups[i])
    ensures Flatten(Flatten(groups)) == Flatten(outs)
  {
    if outs != [] {
      var n := |outs| - 1;
      FlattenTwice(groups[..n], outs[..n]);
      FlattenConcat(Flatten(groups[..n]), groups[n]);
    }
  }

  /** Each output is one group of whole pieces, and only a single piece may exceed the limit. */
  ghost predicate Regrouped(groups: seq<seq<Piece>>, outs: seq<Piece>, maxBuf: nat) {
    && |groups| == |outs|
    && forall i | 0 <= i < |outs| ::
         outs[i] == Flatten(groups[i]) && outs[i] != [] && (|outs[i]| <= maxBuf || |groups[i]| == 1)
  }

  lemma {:induction false} RegroupedSnoc(
    groups: seq<seq<Piece>>, outs: seq<Piece>, maxBuf: nat, group: seq<Piece>, out: Piece)
    requires Regrouped(groups, outs, maxBuf) && out == Flatten(group) && out != [] && (|out| <= maxBuf || |group| == 1)
    ensures Regrouped(groups + [group], outs + [out], maxBuf)
  {
    hide Flatten;
  }

  datatype Step = Write(p: Piece) | Receive | Tick

  function PieceOf(step: Step): seq<Piece> {
    if step.Write? && step.p != [] then [step.p] else []
  }

  function Written(steps: seq<Step>): seq<Piece> {
    if steps == [] then [] else Written(steps[..|steps| - 1]) + PieceOf(steps[|steps| - 1])
  }

  lemma {:induction false} WrittenSnoc(steps: seq<Step>, n: nat)
    requires n < |steps|
    ensures Written(steps[..n + 1]) == Written(steps[..n]) + PieceOf(steps[n])
  {
    assert steps[..n + 1][..n] == steps[..n];
  }

  lemma {:induction false} WrittenNone()
    ensures Written([]) == []
  {
  }

  /** batchWriter: a queue of pieces, and the goroutine that gathers them in a buffer for the destination. */
  class BatchWriter {
    const maxBuf: nat
    var queue: seq<Piece>
    var closed: bool
    var done: bool
    var buf: seq<byte>
    var total: nat
    /** The writes the destination has seen. */
    var dst: seq<Piece>
    /** Every piece written, the pieces behind each write of the destination, and those in the buffer. */
    ghost var pieces: seq<Piece>
    ghost var groups: seq<seq<Piece>>
    ghost var held: seq<Piece>

    ghost predicate Valid()
      reads this
    {
      && |queue| <= QUEUE_LEN
      && (forall p | p in queue :: p != [])
      && buf == Flatten(held) && |buf| <= maxBuf && (held == [] <==> buf == [])
      && Regrouped(groups, dst, maxBuf)
      && pieces == Flatten(groups) + held + queue
      && total == |Flatten(pieces)|
      && (done ==> closed && queue == [] && buf == [])
    }

    constructor (requested: int)
      ensures Valid() && pieces == [] && dst == [] && queue == [] && !closed && !done
      ensures maxBuf == if requested <= 0 then DEFAULT_MAX_BUF else requested
    {
      maxBuf := if requested <= 0 then DEFAULT_MAX_BUF else requested;
      queue, closed, done, buf, total, dst := [], false, false, [], 0, [];
      pieces, groups, held := [], [], [];
    }

    /** Nothing is lost or out of order: what is out, what is in the buffer and what is queued is what was written. */
    lemma {:induction false} Conserves()
      requires Valid()
      ensures Flatten(dst) + buf + Flatten(queue) == Flatten(pieces)
      ensures done ==> Flatten(dst) == Flatten(pieces)
    {
      FlattenTwice(groups, dst);
      FlattenConcat(Flatten(groups), held);
      FlattenConcat(Flatten(groups) + held, queue);
    }

    /** The sender waits while the queue is full, and a nil piece is dropped. */
    method Write(p: Piece) returns (n: nat)
      requires Valid() && !closed && |queue| < QUEUE_LEN
      modifies this`queue, this`total, this`pieces
      ensures Valid() && n == |p|
      ensures pieces == old(pieces) + (if p == [] then [] else [p])
    {
      hide Flatten, Regrouped;
      if |p| == 0 { return 0; }
      FlattenSnoc(pieces, p);
      assert pieces + [p] == Flatten(groups) + held + (queue + [p]);
      queue := queue + [p];
      pieces := pieces + [p];
      total := total + |p|;
      n := |p|;
    }

    method Flush()
      requires Valid()
      modifies this`buf, this`dst, this`groups, this`held
      ensures Valid() && buf == []
      ensures dst == old(dst) + (if old(buf) == [] then [] else [old(buf)])
    {
      assert Flatten<byte>([]) == [];
      hide Flatten, Regrouped;
      if |buf| == 0 { return; }
      FlattenSnoc(groups, held);
      RegroupedSnoc(groups, dst, maxBuf, held, buf);
      dst, groups := dst + [buf], groups + [held];
      buf, held := [], [];
    }

    /** One turn of the loop that takes a piece off the queue. */
    method Receive()
      requires Valid() && queue != []
      modifies this`queue, this`buf, this`dst, this`groups, this`held
      ensures Valid() && queue == old(queue)[1..]
      ensures var p := old(queue)[0];
              var flushed := old(dst) + (if old(buf) == [] then [] else [old(buf)]);
              if |p| > maxBuf then dst == flushed + [p] && buf == []
              else if |old(buf)| + |p| > maxBuf then dst == flushed && buf == p
              else dst == old(dst) && buf == old(buf) + p
    {
      hide Flatten, Regrouped;
      var p := queue[0];
      assert p in queue;
      assert forall q | q in queue[1..] :: q in queue;
      assert queue == [p] + queue[1..];
      if |p| > maxBuf {
        Flush();
        assert p == Flatten([p]) by { FlattenOne(p); }
        FlattenSnoc(groups, [p]);
        RegroupedSnoc(groups, dst, maxBuf, [p], p);
        assert held == [];
        dst, groups := dst + [p], groups + [[p]];
        queue := queue[1..];
      } else {
        if |buf| + |p| > maxBuf { Flush(); }
        FlattenSnoc(held, p);
        assert Flatten(groups) + held + queue == Flatten(groups) + (held + [p]) + queue[1..];
        assert held + [p] != [];
        buf, held := buf + p, held + [p];
        queue := queue[1..];
      }
    }

    method Tick()
      requires Valid()
      modifies this`buf, this`dst, this`groups, this`held
      ensures Valid() && buf == [] && old(dst) <= dst
    {
      Flush();
    }

    /** One step, where a writer that finds the queue full waits for the loop to take a piece. */
    method Take(step: Step)
      requires Valid() && !closed
      modifies this`queue, this`total, this`pieces, this`buf, this`dst, this`groups, this`held
      ensures Valid() && pieces == old(pieces) + PieceOf(step)
    {
      match step {
        case Write(p) =>
          if |queue| == QUEUE_LEN { Receive(); }
          var _ := Write(p);
        case Receive =>
          if queue != [] { Receive(); }
        case Tick =>
          Tick();
      }
    }

    /** Closes the queue and waits for the loop to drain it; later calls do nothing. */
    method Close()
      requires Valid() && (closed ==> done)
      modifies this
      ensures Valid() && closed && done && pieces == old(pieces) && old(dst) <= dst
      ensures Flatten(dst) == Flatten(pieces)
      ensures old(done) ==> dst == old(dst)
    {
      hide Flatten, Regrouped;
      if closed {
        Conserves();
        return;
      }
      closed := true;
      while queue != []
        invariant Valid() && closed && !done && pieces == old(pieces) && old(dst) <= dst
        decreases |queue|
      {
        Receive();
      }
      Flush();
      done := true;
      Conserves();
    }
  }

  /**
   * Any interleaving of writes, turns of the loop and ticks, and then Close: the destination gets every piece, in
   * order, regrouped but never split.
   */
  method RunBatchWriter(requested: int, steps: seq<Step>) returns (outs: seq<Piece>, total: nat)
    ensures Flatten(outs) == Flatten(Written(steps)) && total == |Flatten(outs)|
    ensures var maxBuf := if requested <= 0 then 262_144 else requested;
            exists groups :: Flatten(groups) == Written(steps) && Regrouped(groups, outs, maxBuf)
  {
    hide Flatten, Written, Regrouped, PieceOf;
    var w := new BatchWriter(requested);
    WrittenNone();
    var i := 0;
    while i < |steps|
      invariant 0 <= i <= |steps| && fresh(w) && w.Valid() && !w.closed
      invariant w.pieces == Written(steps[..i])
    {
      WrittenSnoc(steps, i);
      w.Take(steps[i]);
      i := i + 1;
    }
    assert steps[..i] == steps;
    w.Close();
    assert Flatten(w.groups) == w.pieces;
    outs, total := w.dst, w.total;
  }

  const MAX_CHUNK := 64 * 1024

  datatype ReadError = NoError | Deadline | EndOfFile | Broken

  datatype Stop = NotStopped | ContextDone | SessionClosed

  /** One turn of the PTY loop: what the read returned, and which case the select after it takes. */
  datatype Turn = Turn(data: Piece, error: ReadError, stop: Stop)

  datatype Outcome = Running | SendFailed | Cancelled | Finished | ReadFailed

  /** How a turn ends the call, if no send fails. */
  function EndOf(t: Turn): (out: Outcome)
    ensures out != SendFailed
  {
    match t.error
    case EndOfFile => Finished
    case Broken => if t.stop == SessionClosed then Finished else ReadFailed
    case _ => match t.stop case ContextDone => Cancelled case SessionClosed => Finished case NotStopped => Running
  }

  lemma {:induction false} EndsOf(turns: seq<Turn>)
    ensures forall i | 0 <= i < |turns| ::
              var t := turns[i];
              && (EndOf(t) == Running <==> t.error in {NoError, Deadline} && t.stop == NotStopped)
              && (EndOf(t) == Cancelled <==> t.error in {NoError, Deadline} && t.stop == ContextDone)
              && (EndOf(t) == ReadFailed <==> t.error == Broken && t.stop != SessionClosed)
              && (EndOf(t) == Finished <==> t.error == EndOfFile || t.stop == SessionClosed)
              && (Flushes(t) <==> t.error != NoError || t.stop != NotStopped)
  {
  }

  /** Whether a turn sends what is pending at its end. */
  predicate Flushes(t: Turn) {
    t.error == Deadline || EndOf(t) != Running
  }

  function DataOf(turns: seq<Turn>): Piece {
    if turns == [] then [] else DataOf(turns[..|turns| - 1]) + turns[|turns| - 1].data
  }

  lemma {:induction false} DataOfNone()
    ensures DataOf([]) == []
  {
  }

  lemma {:induction false} DataOfSnoc(turns: seq<Turn>, n: nat)
    requires n < |turns|
    ensures DataOf(turns[..n + 1]) == DataOf(turns[..n]) + turns[n].data
  {
    assert turns[..n + 1][..n] == turns[..n];
  }

  /** StreamPTY: gathers what it reads into chunks of at most 64 KiB, and sends them when full or when idle. */
  class PtyStream {
    var pending: seq<byte>
    var sent: seq<Piece>
    /** Whether a send failed, and the bytes that went with it. */
    var broken: bool
    ghost var lost: Piece
    ghost var all: Piece

    ghost predicate Valid()
      reads this
    {
      && |pending| <= MAX_CHUNK
      && (forall c | c in sent :: 0 < |c| <= MAX_CHUNK)
      && |lost| <= MAX_CHUNK && (broken <==> lost != [])
      && Flatten(sent) + lost + pending == all
    }

    constructor ()
      ensures Valid() && pending == [] && sent == [] && !broken && all == []
    {
      pending, sent, broken, lost, all := [], [], false, [], [];
    }

    /** `works` tells whether the stream takes the chunk. */
    method Flush(works: bool) returns (ok: bool)
      requires Valid() && !broken
      modifies this
      ensures Valid() && pending == [] && all == old(all) && ok == !broken
      ensures ok == (works || old(pending) == []) && lost == if ok then [] else old(pending)
      ensures sent == old(sent) + if ok && old(pending) != [] then [old(pending)] else []
    {
      hide Flatten;
      if |pending| == 0 { return true; }
      ok := works;
      if ok {
        FlattenSnoc(sent, pending);
        sent := sent + [pending];
      } else {
        broken, lost := true, pending;
      }
      pending := [];
    }

    method Keep(part: Piece)
      requires Valid() && |pending| + |part| <= MAX_CHUNK
      modifies this`pending, this`all
      ensures Valid() && pending == old(pending) + part && all == old(all) + part
    {
      hide Flatten;
      Associates(Flatten(sent) + lost, pending, part);
      pending := pending + part;
      all := all + part;
    }

    /** A full buffer goes out. */
    method FlushFull(works: nat -> bool) returns (ok: bool)
      requires Valid() && !broken
      modifies this
      ensures Valid() && all == old(all) && ok == !broken
      ensures |old(pending)| < MAX_CHUNK ==> ok && pending == old(pending) && sent == old(sent)
      ensures |old(pending)| == MAX_CHUNK ==>
                && pending == [] && ok == works(|old(sent)|) && lost == (if ok then [] else old(pending))
                && sent == old(sent) + if ok then [old(pending)] else []
    {
      if |pending| >= MAX_CHUNK {
        ok := Flush(works(|sent|));
      } else {
        ok := true;
      }
    }

    /** Fills the room that is left. */
    method KeepSome(remaining: Piece) returns (rest: Piece)
      requires Valid() && |pending| < MAX_CHUNK && remaining != []
      modifies this`pending, this`all
      ensures Valid() && |rest| < |remaining| && old(all) <= all && all + rest == old(all) + remaining
    {
      var room := MAX_CHUNK - |pending|;
      if room > |remaining| { room := |remaining|; }
      assert remaining == remaining[..room] + remaining[room..];
      Associates(all, remaining[..room], remaining[room..]);
      Keep(remaining[..room]);
      rest := remaining[room..];
    }

    /** One turn of the inner loop: room is made, filled, and the buffer sent if that fills it. */
    method Fill(remaining: Piece, works: nat -> bool) returns (ok: bool, rest: Piece)
      requires Valid() && !broken && remaining != []
      modifies this
      ensures Valid() && ok == !broken && old(sent) <= sent && old(all) <= all
      ensures all + rest == old(all) + remaining
      ensures ok ==> |rest| < |remaining| && |pending| < MAX_CHUNK
      ensures forall i | |old(sent)| <= i < |sent| :: |sent[i]| == MAX_CHUNK && works(i)
      ensures !ok ==> !works(|sent|) && |lost| == MAX_CHUNK
    {
      hide Flatten;
      rest := remaining;
      ok := FlushFull(works);
      if !ok { return; }
      rest := KeepSome(remaining);
      ok := FlushFull(works);
    }

    /** The inner loop: fills `pending`, and sends it whenever it is full. */
    method Absorb(data: Piece, works: nat -> bool) returns (ok: bool)
      requires Valid() && !broken
      modifies this
      ensures Valid() && ok == !broken && old(sent) <= sent
      ensures ok ==> all == old(all) + data && (data != [] ==> |pending| < MAX_CHUNK)
      ensures forall i | |old(sent)| <= i < |sent| :: |sent[i]| == MAX_CHUNK && works(i)
      ensures !ok ==> old(all) <= all <= old(all) + data && !works(|sent|) && |lost| == MAX_CHUNK
    {
      hide Flatten;
      var remaining := data;
      ok := true;
      while |remaining| > 0 && ok
        invariant Valid() && ok == !broken && old(sent) <= sent
        invariant old(all) <= all && all + remaining == old(all) + data
        invariant ok && remaining != data ==> |pending| < MAX_CHUNK
        invariant forall i | |old(sent)| <= i < |sent| :: |sent[i]| == MAX_CHUNK && works(i)
        invariant !ok ==> !works(|sent|) && |lost| == MAX_CHUNK
        decreases |remaining|, ok
      {
        ok, remaining := Fill(remaining, works);
      }
    }

    /** Everything after the read: how the turn ends, and what is flushed on the way. */
    method AfterRead(t: Turn, works: nat -> bool) returns (out: Outcome)
      requires Valid() && !broken
      modifies this
      ensures Valid() && all == old(all)
      ensures var fails := Flushes(t) && old(pending) != [] && !works(|old(sent)|);
              && out == (if fails && t.error == Deadline then SendFailed else EndOf(t))
              && broken == fails && lost == (if fails then old(pending) else [])
              && pending == (if Flushes(t) then [] else old(pending))
              && sent == old(sent) + if Flushes(t) && old(pending) != [] && !fails then [old(pending)] else []
    {
      var ok;
      match t.error {
        case Deadline =>
          ok := Flush(works(|sent|));
          if !ok { return SendFailed; }
          return match t.stop case ContextDone => Cancelled case SessionClosed => Finished case NotStopped => Running;
        case EndOfFile =>
          ok := Flush(works(|sent|));
          return Finished;
        case Broken =>
          ok := Flush(works(|sent|));
          return if t.stop == SessionClosed then Finished else ReadFailed;
        case NoError =>
          if t.stop != NotStopped {
            ok := Flush(works(|sent|));
            return if t.stop == ContextDone then Cancelled else Finished;
          }
          return Running;
      }
    }

    /** One turn of the outer loop. */
    method OneTurn(t: Turn, works: nat -> bool) returns (out: Outcome)
      requires Valid() && !broken && Worked(works, sent, broken)
      modifies this
      ensures Valid() && Worked(works, sent, broken)
      ensures old(all) <= all <= old(all) + t.data && (!broken ==> all == old(all) + t.data)
      ensures out == (if broken && out == SendFailed then SendFailed else EndOf(t)) && (out == Running ==> !broken)
      ensures !broken && (out != Running || t.error == Deadline) ==> pending == []
      ensures broken && |lost| < MAX_CHUNK ==> Flushes(t) && all == old(all) + t.data && pending == []
      ensures out == SendFailed ==> |lost| == MAX_CHUNK || t.error == Deadline
    {
      hide Flatten, EndOf;
      var ok := Absorb(t.data, works);
      if !ok { return SendFailed; }
      out := AfterRead(t, works);
    }
  }

  /** The sends that worked are those of the chunks sent, and a failed one was the next. */
  predicate Worked(works: nat -> bool, sent: seq<Piece>, broken: bool) {
    (forall k | 0 <= k < |sent| :: works(k)) && (broken ==> !works(|sent|))
  }

  /** The loop of StreamPTY, by how each turn ends. */
  method FollowTurns(turns: seq<Turn>, works: nat -> bool)
    returns (sent: seq<Piece>, pending: Piece, broken: bool, out: Outcome, n: nat, ghost lost: Piece)
    ensures n <= |turns| && (out == Running ==> n == |turns| && !broken)
    ensures forall i | 0 <= i < n && (i < n - 1 || out == Running) :: EndOf(turns[i]) == Running
    ensures out != Running ==> n > 0 && (if out == SendFailed then broken else out == EndOf(turns[n - 1]))
    ensures forall c | c in sent :: 0 < |c| <= MAX_CHUNK
    ensures Worked(works, sent, broken)
    ensures Flatten(sent) <= DataOf(turns[..n])
    ensures !broken ==> Flatten(sent) + pending == DataOf(turns[..n]) && |pending| <= MAX_CHUNK
    ensures !broken && out != Running ==> Flatten(sent) == DataOf(turns[..n])
    ensures out == Running && turns != [] && turns[|turns| - 1].error == Deadline ==> Flatten(sent) == DataOf(turns)
    ensures broken ==> n > 0 && 0 < |lost| <= MAX_CHUNK && Flatten(sent) + lost <= DataOf(turns[..n])
    ensures broken && |lost| < MAX_CHUNK ==> Flushes(turns[n - 1]) && Flatten(sent) + lost == DataOf(turns[..n])
    ensures out == SendFailed ==> |lost| == MAX_CHUNK || turns[n - 1].error == Deadline
  {
    hide Flatten, DataOf, EndOf, Worked, Flushes;
    DataOfNone();
    var s := new PtyStream();
    NothingSent(works);
    out, n := Running, 0;
    while n < |turns| && out == Running
      invariant n <= |turns| && fresh(s) && s.Valid() && Worked(works, s.sent, s.broken)
      invariant out == Running ==> !s.broken
      invariant s.all <= DataOf(turns[..n]) && (!s.broken ==> s.all == DataOf(turns[..n]))
      invariant !s.broken && n > 0 && (out != Running || turns[n - 1].error == Deadline) ==> s.pending == []
      invariant forall i | 0 <= i < n && (i < n - 1 || out == Running) :: EndOf(turns[i]) == Running
      invariant out != Running ==> n > 0 && (if out == SendFailed then s.broken else out == EndOf(turns[n - 1]))
      invariant s.broken ==> n > 0 && out != Running
      invariant s.broken && |s.lost| < MAX_CHUNK ==>
                  Flushes(turns[n - 1]) && s.all == DataOf(turns[..n]) && s.pending == []
      invariant out == SendFailed ==> |s.lost| == MAX_CHUNK || turns[n - 1].error == Deadline
      decreases |turns| - n
    {
      DataOfSnoc(turns, n);
      out := s.OneTurn(turns[n], works);
      n := n + 1;
    }
    assert turns[..|turns|] == turns;
    sent, pending, broken, lost := s.sent, s.pending, s.broken, s.lost;
  }

  /**
   * The whole call, for any reads and any send failures. It ends with the first turn that ends it, or with the first
   * send that fails. What was sent is a prefix of what was read, in chunks of at most 64 KiB; if no send failed, an
   * ended call has sent all of it and a running one holds at most one chunk back. A send that failed was due: it had
   * the bytes behind those sent, and they made a full chunk or were all there was at the end of a turn that flushes.
   */
  method StreamPTY(turns: seq<Turn>, works: nat -> bool)
    returns (sent: seq<Piece>, pending: Piece, broken: bool, out: Outcome, n: nat, ghost lost: Piece)
    ensures n <= |turns| && (out == Running ==> n == |turns| && !broken)
    ensures forall i | 0 <= i < n && (i < n - 1 || out == Running) ::
              turns[i].error in {NoError, Deadline} && turns[i].stop == NotStopped
    ensures out != Running ==> n > 0
    ensures out == SendFailed ==> broken
    ensures out == Cancelled ==> turns[n - 1].error in {NoError, Deadline} && turns[n - 1].stop == ContextDone
    ensures out == ReadFailed ==> turns[n - 1].error == Broken && turns[n - 1].stop != SessionClosed
    ensures out == Finished ==> turns[n - 1].error == EndOfFile || turns[n - 1].stop == SessionClosed
    ensures forall c | c in sent :: 0 < |c| <= 65_536
    ensures Worked(works, sent, broken)
    ensures Flatten(sent) <= DataOf(turns[..n])
    ensures !broken ==> Flatten(sent) + pending == DataOf(turns[..n]) && |pending| <= 65_536
    ensures !broken && out != Running ==> Flatten(sent) == DataOf(turns[..n])
    ensures out == Running && turns != [] && turns[|turns| - 1].error == Deadline ==> Flatten(sent) == DataOf(turns)
    ensures broken ==> n > 0 && 0 < |lost| <= 65_536 && Flatten(sent) + lost <= DataOf(turns[..n])
    ensures broken && |lost| < 65_536 ==>
              && Flatten(sent) + lost == DataOf(turns[..n])
              && (turns[n - 1].error != NoError || turns[n - 1].stop != NotStopped)
    ensures out == SendFailed ==> |lost| == 65_536 || turns[n - 1].error == Deadline
  {
    hide Flatten, DataOf, EndOf, Worked, Flushes;
    EndsOf(turns);
    sent, pending, broken, out, n, lost := FollowTurns(turns, works);
  }

  lemma {:induction false} NothingSent(works: nat -> bool)
    ensures Worked(works, [], false)
  {
  }
}
