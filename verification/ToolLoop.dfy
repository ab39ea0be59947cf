/** The prompt of a chat turn: history taken from the session log, and the loop of tool calls. */
module ToolLoop {
  import opened Seqs
  import opened Wrappers
  import opened StreamAssembly

  datatype Message = Message(role: string, content: string, toolCalls: seq<ToolCall>, toolCallId: string)

  datatype Generated = Failed | Generated(text: string, calls: seq<ToolCall>)

  /** The session events that matter to a prompt. */
  datatype SessionEvent = UserMessage(text: string) | AssistantMessage(text: string) | Other

  function Projection(events: seq<SessionEvent>): seq<Message> {
    if events == [] then []
    else
      Projection(events[..|events| - 1]) +
      match events[|events| - 1]
      case UserMessage(text) => [Message("user", text, [], "")]
      case AssistantMessage(text) => [Message("assistant", text, [], "")]
      case Other => []
  }

  lemma {:induction false} ProjectionNone()
    ensures Projection([]) == []
  {
  }

  lemma {:induction false} ProjectionSnoc(events: seq<SessionEvent>, i: nat)
    requires i < |events|
    ensures Projection(events[..i + 1]) ==
            match events[i]
            case UserMessage(text) => Projection(events[..i]) + [Message("user", text, [], "")]
            case AssistantMessage(text) => Projection(events[..i]) + [Message("assistant", text, [], "")]
            case Other => Projection(events[..i])
  {
    var upTo := events[..i + 1];
    assert upTo[..i] == events[..i] && upTo[|upTo| - 1] == events[i];
    var before := Projection(events[..i]);
    assert before + [] == before;
  }

  /** Event by event, in order: a message of the user or of the assistant, or nothing. */
  lemma {:induction false} ProjectionConcat(a: seq<SessionEvent>, b: seq<SessionEvent>)
    ensures Projection(a + b) == Projection(a) + Projection(b)
    decreases |b|
  {
    hide Projection;
    ProjectionNone();
    if b == [] {
      assert a + b == a && Projection(a) + [] == Projection(a);
    } else {
      var n := |b| - 1;
      var ab := a + b;
      ProjectionConcat(a, b[..n]);
      assert ab[..|a| + n] == a + b[..n] && ab[..|a| + n + 1] == ab && b[..n + 1] == b;
      ProjectionSnoc(ab, |a| + n);
      ProjectionSnoc(b, n);
    }
  }

  lemma {:induction false} ProjectionOne(event: SessionEvent)
    ensures Projection([event])
         == match event
            case UserMessage(text) => [Message("user", text, [], "")]
            case AssistantMessage(text) => [Message("assistant", text, [], "")]
            case Other => []
  {
    assert [event][..0] == [];
  }

  /**
   * buildLLMMessages: a ring of the last events, 50 unless configured, shifted in place and then turned into messages.
   */
  method BuildMessages(events: seq<SessionEvent>, maxHistoryEvents: int, systemPrompt: string)
    returns (msgs: seq<Message>)
    ensures var system := if TrimSpace(systemPrompt) != "" then [Message("system", systemPrompt, [], "")] else [];
            var n := if maxHistoryEvents <= 0 then 50 else maxHistoryEvents;
            msgs == system + Projection(if |events| <= n then events else events[|events| - n..])
    ensures forall m | m in msgs :: m.toolCalls == [] && m.role != "tool"
  {
    hide LastN, TrimSpace, Projection;
    ProjectionNone();
    var maxEvents := maxHistoryEvents;
    if maxEvents <= 0 { maxEvents := 50; }
    var ring := new SessionEvent[maxEvents](_ => Other);
    var len := FillRing(events, ring);
    ghost var kept := ring[..len];
    assert kept == LastN(events, maxEvents);
    msgs := [];
    if TrimSpace(systemPrompt) != "" { msgs := msgs + [Message("system", systemPrompt, [], "")]; }
    ghost var system := msgs;
    var i := 0;
    while i < len
      invariant 0 <= i <= len && ring[..len] == kept && msgs == system + Projection(kept[..i])
      invariant forall m | m in msgs :: m.toolCalls == [] && m.role != "tool"
    {
      ProjectionSnoc(kept, i);
      assert ring[i] == kept[i];
      match ring[i] {
        case UserMessage(text) => msgs := msgs + [Message("user", text, [], "")];
        case AssistantMessage(text) => msgs := msgs + [Message("assistant", text, [], "")];
        case Other =>
      }
      i := i + 1;
    }
    assert kept[..i] == kept;
    LastNOf(events, maxEvents);
  }

  /** The replay callback: appends while there is room, then shifts by one. */
  method FillRing(events: seq<SessionEvent>, ring: array<SessionEvent>) returns (len: nat)
    requires ring.Length > 0
    modifies ring
    ensures len <= ring.Length && ring[..len] == LastN(events, ring.Length)
  {
    hide LastN;
    LastNOf(events[..0], ring.Length);
    len := 0;
    var i := 0;
    while i < |events|
      invariant 0 <= i <= |events| && len <= ring.Length
      invariant ring[..len] == LastN(events[..i], ring.Length)
    {
      len := Remember(ring, len, events[i]);
      LastNSnoc(events[..i], events[i], ring.Length);
      assert events[..i + 1] == events[..i] + [events[i]];
      i := i + 1;
    }
    assert events[..i] == events;
  }

  lemma {:induction false} LastNSnoc<T>(s: seq<T>, x: T, n: nat)
    requires n > 0
    ensures LastN(s + [x], n) == if |LastN(s, n)| == n then LastN(s, n)[1..] + [x] else LastN(s, n) + [x]
  {
  }

  method Remember(ring: array<SessionEvent>, len: nat, event: SessionEvent) returns (len': nat)
    requires len <= ring.Length && ring.Length > 0
    modifies ring
    ensures len' <= ring.Length
    ensures ring[..len'] == if len == ring.Length then old(ring[..len])[1..] + [event] else old(ring[..len]) + [event]
  {
    if len == ring.Length {
      Shift(ring);
      ring[len - 1] := event;
      return len;
    }
    ring[len] := event;
    len' := len + 1;
  }

  /** copy(ring, ring[1:]) */
  method Shift(ring: array<SessionEvent>)
    requires ring.Length > 0
    modifies ring
    ensures ring[..ring.Length - 1] == old(ring[1..])
  {
    var j := 0;
    while j < ring.Length - 1
      invariant 0 <= j <= ring.Length - 1
      invariant forall k | 0 <= k < j :: ring[k] == old(ring[k + 1])
      invariant forall k | j <= k < ring.Length :: ring[k] == old(ring[k])
    {
      ring[j] := ring[j + 1];
      j := j + 1;
    }
  }

  /** `answers` answer `calls`, one each, in order, with the same ids. */
  predicate Answers(calls: seq<ToolCall>, answers: seq<Message>) {
    |answers| == |calls|
    && forall i | 0 <= i < |calls| :: answers[i].role == "tool" && answers[i].toolCallId == calls[i].id
  }

  /** Tool messages stand only right behind the assistant message whose calls they answer, and answer all of them. */
  predicate WellPaired(msgs: seq<Message>)
    decreases |msgs|
  {
    if msgs == [] then true
    else
      var k := |msgs[0].toolCalls|;
      if k == 0 then msgs[0].role != "tool" && WellPaired(msgs[1..])
      else msgs[0].role == "assistant" && 1 + k <= |msgs| && Answers(msgs[0].toolCalls, msgs[1..1 + k])
           && WellPaired(msgs[1 + k..])
  }

  lemma {:induction false} PlainIsPaired(msgs: seq<Message>)
    requires forall m | m in msgs :: m.toolCalls == [] && m.role != "tool"
    ensures WellPaired(msgs)
    decreases |msgs|
  {
    if msgs != [] {
      assert msgs[0] in msgs;
      PlainIsPaired(msgs[1..]);
    }
  }

  lemma {:induction false} PairedConcat(a: seq<Message>, b: seq<Message>)
    requires WellPaired(a) && WellPaired(b)
    ensures WellPaired(a + b)
    decreases |a|
  {
    hide Answers;
    if a == [] {
      assert a + b == b;
    } else {
      var n := 1 + |a[0].toolCalls|;
      var ab := a + b;
      assert n <= |a| && WellPaired(a[n..]) && (n > 1 ==> Answers(a[0].toolCalls, a[1..n]));
      PairedConcat(a[n..], b);
      assert ab[0] == a[0];
      assert ab[1..n] == a[1..n];
      assert ab[n..] == a[n..] + b;
    }
  }

  lemma {:induction false} TurnIsPaired(m: Message, answers: seq<Message>)
    requires m.role == "assistant" && m.toolCalls != [] && Answers(m.toolCalls, answers)
    ensures WellPaired([m] + answers)
  {
    var turn := [m] + answers;
    var n := 1 + |m.toolCalls|;
    assert turn[1..n] == answers && turn[n..] == [];
  }

  /** The decimal digits of a number, as in fmt's %d. */
  function Digits(n: nat): (s: string)
    ensures s != ""
  {
    if n < 10 then ["0123456789"[n]] else Digits(n / 10) + ["0123456789"[n % 10]]
  }

  function Value(s: string): nat {
    if s == "" then 0 else Value(s[..|s| - 1]) * 10 + DigitValue(s[|s| - 1])
  }

  function DigitValue(c: char): nat {
    if '0' <= c <= '9' then (c - '0') as nat else 0
  }

  /** The digits denote the number, and do not begin with a zero. */
  lemma {:induction false} DigitsDenote(n: nat)
    ensures Value(Digits(n)) == n && (forall c | c in Digits(n) :: '0' <= c <= '9')
    ensures n > 0 ==> Digits(n)[0] != '0'
  {
    var s := Digits(n);
    if n < 10 {
      assert s[..0] == "";
    } else {
      DigitsDenote(n / 10);
      assert s[..|s| - 1] == Digits(n / 10);
    }
  }

  /** Calls without an id are named after their position. */
  predicate Renamed(calls: seq<ToolCall>, named: seq<ToolCall>) {
    |named| == |calls| && forall i | 0 <= i < |calls| :: RenamedAt(calls[i], named[i], i)
  }

  predicate RenamedAt(call: ToolCall, named: ToolCall, i: nat) {
    && named.name == call.name && named.args == call.args
    && named.id == if TrimSpace(call.id) == "" then "call_" + Digits(i) else call.id
  }

  /** The loop that normalises the ids in place. */
  method NormalizeIds(calls: seq<ToolCall>) returns (named: seq<ToolCall>)
    ensures Renamed(calls, named)
  {
    hide TrimSpace, Digits;
    named := calls;
    var i := 0;
    while i < |named|
      invariant 0 <= i <= |named| == |calls|
      invariant forall j | 0 <= j < i :: RenamedAt(calls[j], named[j], j)
      invariant forall j | i <= j < |calls| :: named[j] == calls[j]
    {
      if TrimSpace(named[i].id) == "" { named := named[i := named[i].(id := "call_" + Digits(i))]; }
      i := i + 1;
    }
  }

  /** The outside world: what generation `iter` answers to a prompt, and what tool call `i` of it returns. */
  datatype World = World(generate: (nat, seq<Message>) -> Generated, exec: (nat, nat, ToolCall) -> string)

  /** The prompt that follows `prompt` when generation `iter` asks for tools. */
  ghost predicate NextPrompt(w: World, iter: nat, prompt: seq<Message>, next: seq<Message>) {
    var g := w.generate(iter, prompt);
    && g.Generated? && g.calls != []
    && |next| == |prompt| + 1 + |g.calls| && prompt <= next
    && var m := next[|prompt|];
       && m.role == "assistant" && m.content == g.text
       && |m.toolCalls| == |g.calls| && Renamed(g.calls, m.toolCalls)
       && Answers(m.toolCalls, next[|prompt| + 1..])
       && (forall i | 0 <= i < |g.calls| :: next[|prompt| + 1 + i].content == w.exec(iter, i, m.toolCalls[i]))
  }

  /** Well-paired prompts, the first of them `history`, each extending the one before by one answered turn. */
  ghost predicate Chain(w: World, history: seq<Message>, prompts: seq<seq<Message>>) {
    && prompts != [] && prompts[0] == history
    && (forall i | 0 <= i < |prompts| :: WellPaired(prompts[i]))
    && (forall i | 0 <= i < |prompts| - 1 :: NextPrompt(w, i, prompts[i], prompts[i + 1]))
  }

  lemma {:induction false} ChainSnoc(w: World, history: seq<Message>, prompts: seq<seq<Message>>, next: seq<Message>)
    requires Chain(w, history, prompts) && WellPaired(next)
    requires NextPrompt(w, |prompts| - 1, prompts[|prompts| - 1], next)
    ensures Chain(w, history, prompts + [next])
  {
    hide NextPrompt, WellPaired;
  }

  /**
   * The loop went on as long as there were calls and budget, of one generation at least; a last generation without
   * calls gives the final text, any other gives none.
   */
  ghost predicate Concludes(w: World, prompts: seq<seq<Message>>, maxToolIters: int, finalText: string)
    requires prompts != []
  {
    var last := w.generate(|prompts| - 1, prompts[|prompts| - 1]);
    && finalText == (if last.Generated? && last.calls == [] then last.text else "")
    && |prompts| <= (if maxToolIters <= 0 then 1 else maxToolIters)
    && (last.Generated? && last.calls != [] ==> |prompts| == if maxToolIters <= 0 then 1 else maxToolIters)
  }

  /**
   * The tool loop of Interact. Every prompt is well paired and extends the last one by one answered turn; the
   * final text is that of a generation without calls, and there is none if the budget runs out or a generation fails.
   */
  method RunTools(w: World, history: seq<Message>, maxToolIters: int)
    returns (finalText: string, prompts: seq<seq<Message>>)
    requires WellPaired(history)
    ensures |prompts| <= (if maxToolIters <= 0 then 1 else maxToolIters) && Chain(w, history, prompts)
    ensures Concludes(w, prompts, maxToolIters, finalText)
  {
    hide WellPaired, NextPrompt;
    finalText, prompts := "", [];
    var maxIters := maxToolIters;
    if maxIters <= 0 { maxIters := 1; }
    var msgs := history;
    var iter := 0;
    while iter < maxIters
      invariant 0 <= iter <= maxIters && |prompts| == iter && finalText == ""
      invariant Chain(w, history, prompts + [msgs])
      invariant iter > 0 ==> var last := w.generate(iter - 1, prompts[iter - 1]); last.Generated? && last.calls != []
    {
      ghost var all := prompts + [msgs];
      prompts := prompts + [msgs];
      var res := w.generate(iter, msgs);
      if res.Failed? { return; }
      if |res.calls| == 0 {
        finalText := res.text;
        return;
      }
      assert all[iter] == msgs && WellPaired(all[iter]);
      var next := AnswerCalls(w, iter, msgs, res);
      ChainSnoc(w, history, prompts, next);
      msgs := next;
      iter := iter + 1;
    }
    ChainInit(w, history, prompts, msgs);
  }

  lemma {:induction false} ChainInit(w: World, history: seq<Message>, prompts: seq<seq<Message>>, next: seq<Message>)
    requires prompts != [] && Chain(w, history, prompts + [next])
    ensures Chain(w, history, prompts)
  {
    hide NextPrompt, WellPaired;
    var all := prompts + [next];
    assert forall i | 0 <= i < |prompts| :: all[i] == prompts[i];
    forall i | 0 <= i < |prompts| - 1 ensures NextPrompt(w, i, prompts[i], prompts[i + 1]) {
      assert NextPrompt(w, i, all[i], all[i + 1]);
    }
  }

  /** Records the assistant's calls in the prompt, runs them, and feeds the results back. */
  method AnswerCalls(w: World, iter: nat, msgs: seq<Message>, res: Generated) returns (next: seq<Message>)
    requires WellPaired(msgs) && res.Generated? && |res.calls| > 0 && res == w.generate(iter, msgs)
    ensures WellPaired(next) && NextPrompt(w, iter, msgs, next)
  {
    hide WellPaired, NextPrompt, Digits;
    var calls := NormalizeIds(res.calls);
    var m := Message("assistant", res.text, calls, "");
    next := msgs + [m];
    var i := 0;
    ghost var answers: seq<Message> := [];
    while i < |calls|
      invariant 0 <= i <= |calls| && |answers| == i && next == msgs + [m] + answers
      invariant forall j | 0 <= j < i :: answers[j] == Message("tool", w.exec(iter, j, calls[j]), [], calls[j].id)
    {
      var content := w.exec(iter, i, calls[i]);
      var answer := Message("tool", content, [], calls[i].id);
      next := next + [answer];
      answers := answers + [answer];
      i := i + 1;
    }
    TurnOk(w, iter, msgs, res, calls, answers);
  }

  lemma {:induction false} TurnOk(
    w: World, iter: nat, msgs: seq<Message>, res: Generated, calls: seq<ToolCall>, answers: seq<Message>)
    requires WellPaired(msgs) && res.Generated? && res.calls != [] && res == w.generate(iter, msgs)
    requires |calls| == |res.calls| && Renamed(res.calls, calls)
    requires |answers| == |calls|
    requires forall j | 0 <= j < |calls| :: answers[j] == Message("tool", w.exec(iter, j, calls[j]), [], calls[j].id)
    ensures var next := msgs + [Message("assistant", res.text, calls, "")] + answers;
            WellPaired(next) && NextPrompt(w, iter, msgs, next)
  {
    hide WellPaired, Renamed;
    var m := Message("assistant", res.text, calls, "");
    var next := msgs + [m] + answers;
    assert Answers(calls, answers);
    TurnIsPaired(m, answers);
    PairedConcat(msgs, [m] + answers);
    assert next == msgs + ([m] + answers);
    assert next[|msgs| + 1..] == answers;
    forall i | 0 <= i < |calls| ensures next[|msgs| + 1 + i].content == w.exec(iter, i, calls[i]) {
      assert next[|msgs| + 1 + i] == answers[i];
    }
  }

  /** A chat turn: the history projected from the log, and then the tool loop and its final text. */
  method ChatTurn(w: World, events: seq<SessionEvent>, maxHistoryEvents: int, systemPrompt: string, maxToolIters: int)
    returns (finalText: string, prompts: seq<seq<Message>>)
    ensures 1 <= |prompts| <= (if maxToolIters <= 0 then 1 else maxToolIters) && Chain(w, prompts[0], prompts)
    ensures var system := if TrimSpace(systemPrompt) != "" then [Message("system", systemPrompt, [], "")] else [];
            var n := if maxHistoryEvents <= 0 then 50 else maxHistoryEvents;
            prompts[0] == system + Projection(if |events| <= n then events else events[|events| - n..])
    ensures Concludes(w, prompts, maxToolIters, finalText)
  {
    var msgs := BuildMessages(events, maxHistoryEvents, systemPrompt);
    PlainIsPaired(msgs);
    hide WellPaired;
    finalText, prompts := RunTools(w, msgs, maxToolIters);
  }
}
