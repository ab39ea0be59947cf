/** Reading a streamed completion: server-sent events, text deltas and tool-call fragments. */
module StreamAssembly {
  import opened Seqs
  import opened Wrappers

  datatype ToolCall = ToolCall(id: string, name: string, args: string)

  datatype FunctionDelta = FunctionDelta(name: string, args: string)
  datatype ToolDelta = ToolDelta(index: int, id: string, name: string, args: string)
  datatype Choice = Choice(content: string, functionCall: Option<FunctionDelta>, toolCalls: seq<ToolDelta>)
  /** One decoded event; an error message of spaces only counts as no error. */
  datatype Frame = Frame(error: string, choices: seq<Choice>)

  /** json.Unmarshal of an event's data, None for malformed data. */
  type Decoder = string -> Option<Frame>

  datatype Result = Ok(text: string, calls: seq<ToolCall>) | Err(message: string)

  /** unicode.IsSpace */
  predicate IsSpace(c: char) {
    || c in {' ', '\t', '\n', '\r', 0x0B as char, 0x0C as char, 0x85 as char, 0xA0 as char}
    || c in {0x1680 as char, 0x2028 as char, 0x2029 as char, 0x202F as char, 0x205F as char, 0x3000 as char}
    || 0x2000 as char <= c <= 0x200A as char
  }

  function TrimLeft(s: string): string {
    if s != "" && IsSpace(s[0]) then TrimLeft(s[1..]) else s
  }

  function TrimRight(s: string): string {
    if s != "" && IsSpace(s[|s| - 1]) then TrimRight(s[..|s| - 1]) else s
  }

  /** strings.TrimSpace */
  function TrimSpace(s: string): string {
    TrimRight(TrimLeft(s))
  }

  /** strings.TrimRight(line, "\r\n") */
  function TrimLineEnd(s: string): string {
    if s != "" && s[|s| - 1] in {'\r', '\n'} then TrimLineEnd(s[..|s| - 1]) else s
  }

  /** strings.Join(lines, "\n") */
  function JoinLines(lines: seq<string>): string {
    if lines == [] then ""
    else if |lines| == 1 then lines[0]
    else JoinLines(lines[..|lines| - 1]) + "\n" + lines[|lines| - 1]
  }

  const DATA := "data:"
  const DONE := "[DONE]"

  /** What the collected data lines amount to: nothing, or the data of one event. */
  function Dispatch(dataLines: seq<string>): seq<string> {
    var data := TrimSpace(JoinLines(dataLines));
    if data == "" then [] else [data]
  }

  /** The events of a list of lines, `dataLines` being what the event under way has collected. */
  function Events(lines: seq<string>, dataLines: seq<string>): seq<string>
    decreases |lines|
  {
    if lines == [] then Dispatch(dataLines)
    else
      var line := TrimLineEnd(lines[0]);
      if TrimSpace(line) == "" then Dispatch(dataLines) + Events(lines[1..], [])
      else if DATA <= line then Events(lines[1..], dataLines + [TrimSpace(line[|DATA|..])])
      else Events(lines[1..], dataLines)
  }

  /** The frames that count: what decodes, up to the DONE event, and an error message if one comes first. */
  datatype Frames = Frames(frames: seq<Frame>, error: Option<string>)

  function Accepted(decode: Decoder, events: seq<string>): Frames {
    if events == [] || events[0] == DONE then Frames([], None)
    else
      match decode(events[0])
      case None => Accepted(decode, events[1..])
      case Some(f) =>
        if TrimSpace(f.error) != "" then Frames([], Some("llm error: " + f.error))
        else var more := Accepted(decode, events[1..]); Frames([f] + more.frames, more.error)
  }

  /** An event that ends the stream: DONE, or one that decodes to an error. */
  predicate Stops(decode: Decoder, event: string) {
    event == "[DONE]" || (decode(event).Some? && TrimSpace(decode(event).value.error) != "")
  }

  /** Where the stream ends: at its first event that does so, or behind its last event. */
  function FirstStop(decode: Decoder, events: seq<string>): (n: nat)
    ensures n <= |events| && (n < |events| ==> Stops(decode, events[n]))
    ensures forall i | 0 <= i < n :: !Stops(decode, events[i])
  {
    if events == [] || Stops(decode, events[0]) then 0
    else
      var n := FirstStop(decode, events[1..]);
      assert forall i | 0 <= i < n :: events[1..][i] == events[i + 1];
      n + 1
  }

  /** The choices of the events that decode, in order. */
  function ChoicesIn(decode: Decoder, events: seq<string>): seq<Choice> {
    if events == [] then []
    else (if decode(events[0]).Some? then decode(events[0]).value.choices else []) + ChoicesIn(decode, events[1..])
  }

  /** What is taken in: the choices of all events up to the one that ends the stream, whose error is the stream's. */
  lemma {:induction false} AcceptedUpToStop(decode: Decoder, events: seq<string>)
    ensures var n := FirstStop(decode, events);
            && AllChoices(Accepted(decode, events).frames) == ChoicesIn(decode, events[..n])
            && Accepted(decode, events).error
               == if n == |events| || events[n] == "[DONE]" then None
                  else Some("llm error: " + decode(events[n]).value.error)
    decreases |events|
  {
    if events != [] && !Stops(decode, events[0]) {
      var n := FirstStop(decode, events[1..]);
      AcceptedUpToStop(decode, events[1..]);
      assert events[..n + 1][1..] == events[1..][..n];
      var later := ChoicesIn(decode, events[1..][..n]);
      assert [] + later == later;
    }
  }

  function AllChoices(frames: seq<Frame>): seq<Choice> {
    if frames == [] then [] else frames[0].choices + AllChoices(frames[1..])
  }

  /** A piece of a tool call, with the index it is merged under. */
  datatype Fragment = Fragment(index: int, id: string, name: string, args: string)

  /** Slice order stands in for an index of 0 when a delta carries several calls; a legacy call is call_0 at index 0. */
  function FragmentsOf(c: Choice): seq<Fragment> {
    LegacyOf(c) + ToolFragments(c.toolCalls)
  }

  function LegacyOf(c: Choice): seq<Fragment> {
    if c.functionCall.Some? then [Fragment(0, "call_0", c.functionCall.value.name, c.functionCall.value.args)] else []
  }

  function ToolFragments(deltas: seq<ToolDelta>): (fs: seq<Fragment>)
    ensures |fs| == |deltas|
    ensures forall i | 0 <= i < |fs| ::
              fs[i] == Fragment(if deltas[i].index == 0 && |deltas| > 1 then i else deltas[i].index,
                                deltas[i].id, deltas[i].name, deltas[i].args)
  {
    seq(|deltas|, i requires 0 <= i < |deltas| => ToolFragment(deltas, i))
  }

  function ToolFragment(calls: seq<ToolDelta>, i: nat): Fragment
    requires i < |calls|
  {
    var d := calls[i];
    Fragment(if d.index == 0 && |calls| > 1 then i else d.index, d.id, d.name, d.args)
  }

  function AllFragments(cs: seq<Choice>): seq<Fragment> {
    if cs == [] then [] else FragmentsOf(cs[0]) + AllFragments(cs[1..])
  }

  function AllText(cs: seq<Choice>): string {
    if cs == [] then "" else cs[0].content + AllText(cs[1..])
  }

  /** What the stream says of one index: the first id, the first name, and all argument fragments in order. */
  function FirstId(fs: seq<Fragment>, index: int): string {
    if fs == [] then "" else if fs[0].index == index && fs[0].id != "" then fs[0].id else FirstId(fs[1..], index)
  }

  function FirstName(fs: seq<Fragment>, index: int): string {
    if fs == [] then "" else if fs[0].index == index && fs[0].name != "" then fs[0].name else FirstName(fs[1..], index)
  }

  /** The first id is that of the first fragment of the index that has one. */
  lemma {:induction false} FirstIdIs(before: seq<Fragment>, rest: seq<Fragment>, index: int)
    requires forall f | f in before :: f.index == index ==> f.id == ""
    requires rest != [] ==> rest[0].index == index && rest[0].id != ""
    ensures FirstId(before + rest, index) == if rest == [] then "" else rest[0].id
    decreases |before|
  {
    if before == [] {
      assert before + rest == rest;
    } else {
      var all := before + rest;
      assert all[0] == before[0] && before[0] in before && all[1..] == before[1..] + rest;
      FirstIdIs(before[1..], rest, index);
    }
  }

  /** The first name is that of the first fragment of the index that has one. */
  lemma {:induction false} FirstNameIs(before: seq<Fragment>, rest: seq<Fragment>, index: int)
    requires forall f | f in before :: f.index == index ==> f.name == ""
    requires rest != [] ==> rest[0].index == index && rest[0].name != ""
    ensures FirstName(before + rest, index) == if rest == [] then "" else rest[0].name
    decreases |before|
  {
    if before == [] {
      assert before + rest == rest;
    } else {
      var all := before + rest;
      assert all[0] == before[0] && before[0] in before && all[1..] == before[1..] + rest;
      FirstNameIs(before[1..], rest, index);
    }
  }

  function Arguments(fs: seq<Fragment>, index: int): string {
    if fs == [] then "" else (if fs[0].index == index then fs[0].args else "") + Arguments(fs[1..], index)
  }

  function CallAt(fs: seq<Fragment>, index: int): ToolCall {
    ToolCall(FirstId(fs, index), FirstName(fs, index), Arguments(fs, index))
  }

  function Indices(fs: seq<Fragment>): set<int> {
    set i | 0 <= i < |fs| :: fs[i].index
  }

  /** Merging one fragment into the calls so far. */
  function Merge(calls: map<int, ToolCall>, f: Fragment): map<int, ToolCall> {
    var tc := if f.index in calls then calls[f.index] else ToolCall("", "", "");
    var id, name := if tc.id == "" then f.id else tc.id, if tc.name == "" then f.name else tc.name;
    calls[f.index := ToolCall(id, name, tc.args + f.args)]
  }

  function MergeAll(calls: map<int, ToolCall>, fs: seq<Fragment>): map<int, ToolCall>
    decreases |fs|
  {
    if fs == [] then calls else MergeAll(Merge(calls, fs[0]), fs[1..])
  }

  lemma {:induction false} MergeAllConcat(calls: map<int, ToolCall>, a: seq<Fragment>, b: seq<Fragment>)
    ensures MergeAll(calls, a + b) == MergeAll(MergeAll(calls, a), b)
    decreases |a|
  {
    if a == [] {
      assert a + b == b;
    } else {
      assert (a + b)[1..] == a[1..] + b;
      MergeAllConcat(Merge(calls, a[0]), a[1..], b);
    }
  }

  /** The merged calls, index by index. */
  lemma {:induction false} MergedCalls(calls: map<int, ToolCall>, fs: seq<Fragment>, index: int)
    ensures index in MergeAll(calls, fs) <==> index in calls || index in Indices(fs)
    ensures index in MergeAll(calls, fs) ==>
              var tc := if index in calls then calls[index] else ToolCall("", "", "");
              MergeAll(calls, fs)[index]
              == ToolCall(if tc.id == "" then FirstId(fs, index) else tc.id,
                          if tc.name == "" then FirstName(fs, index) else tc.name,
                          tc.args + Arguments(fs, index))
    decreases |fs|
  {
    hide Indices;
    IndicesNone(index);
    if fs != [] {
      MergedCalls(Merge(calls, fs[0]), fs[1..], index);
      assert index in Indices(fs) <==> fs[0].index == index || index in Indices(fs[1..]) by {
        IndicesCons(fs, index);
      }
    }
  }

  lemma {:induction false} IndicesNone(index: int)
    ensures index !in Indices([])
  {
  }

  lemma {:induction false} IndicesCons(fs: seq<Fragment>, index: int)
    requires fs != []
    ensures index in Indices(fs) <==> fs[0].index == index || index in Indices(fs[1..])
  {
    if index in Indices(fs) {
      var i :| 0 <= i < |fs| && fs[i].index == index;
      if i > 0 { assert fs[1..][i - 1].index == index; }
    }
    if index in Indices(fs[1..]) {
      var i :| 0 <= i < |fs[1..]| && fs[1..][i].index == index;
      assert fs[i + 1].index == index;
    }
  }

  lemma {:induction false} ChoicesConcat(a: seq<Choice>, b: seq<Choice>)
    ensures AllText(a + b) == AllText(a) + AllText(b) && AllFragments(a + b) == AllFragments(a) + AllFragments(b)
    decreases |a|
  {
    hide FragmentsOf;
    if a == [] {
      assert a + b == b;
    } else {
      assert (a + b)[1..] == a[1..] + b;
      ChoicesConcat(a[1..], b);
    }
  }

  lemma {:induction false} OneChoice(c: Choice)
    ensures AllText([c]) == c.content && AllFragments([c]) == FragmentsOf(c)
    ensures FragmentsOf(c)
         == (if c.functionCall.Some?
             then [Fragment(0, "call_0", c.functionCall.value.name, c.functionCall.value.args)] else [])
            + ToolFragments(c.toolCalls)
  {
    assert [c][1..] == [];
  }

  /** A call without a name and without arguments is not returned. */
  function IsCall(c: ToolCall): bool {
    c.name != "" || c.args != ""
  }

  /** The calls of indices 0, 1, ..., n - 1 that have a name or arguments. */
  function CallsBelow(calls: map<int, ToolCall>, n: nat): seq<ToolCall> {
    if n == 0 then []
    else
      CallsBelow(calls, n - 1)
      + if n - 1 in calls && IsCall(calls[n - 1]) then [calls[n - 1]] else []
  }

  /** The deltas that some choices hand on: what they say, unless it is nothing. */
  function DeltasIn(cs: seq<Choice>): seq<string> {
    if cs == [] then []
    else DeltasIn(cs[..|cs| - 1]) + if cs[|cs| - 1].content != "" then [cs[|cs| - 1].content] else []
  }

  lemma {:induction false} DeltasSnoc(cs: seq<Choice>, c: Choice)
    ensures DeltasIn(cs + [c]) == if c.content != "" then DeltasIn(cs) + [c.content] else DeltasIn(cs)
  {
    assert (cs + [c])[..|cs|] == cs;
  }

  /** The state of readStream: the event under way, the text and the calls so far, and the deltas handed on. */
  class Reader {
    const decode: Decoder
    var dataLines: seq<string>
    var text: string
    var deltas: seq<string>
    var toolCalls: map<int, ToolCall>
    /** The choices of the frames taken in so far. */
    ghost var taken: seq<Choice>

    ghost predicate Valid()
      reads this
    {
      && text == Flatten(deltas) == AllText(taken) && deltas == DeltasIn(taken)
      && toolCalls == MergeAll(map[], AllFragments(taken))
    }

    constructor (decode: Decoder)
      ensures Valid() && this.decode == decode && dataLines == [] && taken == []
    {
      this.decode := decode;
      dataLines, text, deltas, toolCalls, taken := [], "", [], map[], [];
    }

    /** The loop body over one choice. */
    method TakeChoice(c: Choice)
      requires Valid()
      modifies this`text, this`deltas, this`toolCalls, this`taken
      ensures Valid() && taken == old(taken) + [c]
    {
      hide Merge, FragmentsOf, DeltasIn;
      DeltasSnoc(taken, c);
      ChoicesConcat(taken, [c]);
      OneChoice(c);
      MergeAllConcat(map[], AllFragments(taken), FragmentsOf(c));
      if c.content != "" {
        deltas := deltas + [c.content];
        assert deltas[..|deltas| - 1] == old(deltas);
        text := text + c.content;
      }
      toolCalls := MergeFragments(toolCalls, c);
      taken := taken + [c];
    }

    method TakeFrame(f: Frame)
      requires Valid()
      modifies this`text, this`deltas, this`toolCalls, this`taken
      ensures Valid() && taken == old(taken) + f.choices
    {
      hide AllText, MergeAll, AllFragments, Flatten, DeltasIn;
      var i := 0;
      while i < |f.choices|
        invariant 0 <= i <= |f.choices| && Valid() && taken == old(taken) + f.choices[..i]
      {
        assert f.choices[..i + 1] == f.choices[..i] + [f.choices[i]];
        TakeChoice(f.choices[i]);
        i := i + 1;
      }
      assert f.choices[..i] == f.choices;
    }

    /** flushEvent */
    method FlushEvent() returns (done: bool, error: Option<string>)
      requires Valid()
      modifies this
      ensures Valid() && dataLines == []
      ensures var event := Dispatch(old(dataLines));
              var got := Accepted(decode, event);
              && error == got.error && done == (event == [DONE])
              && taken == old(taken) + AllChoices(got.frames)
      ensures var event := Dispatch(old(dataLines));
              if event == [] || event[0] == "[DONE]" || decode(event[0]).None? then
                error == None && done == (event != [] && event[0] == "[DONE]") && taken == old(taken)
              else if TrimSpace(decode(event[0]).value.error) != "" then
                error == Some("llm error: " + decode(event[0]).value.error) && !done && taken == old(taken)
              else error == None && !done && taken == old(taken) + decode(event[0]).value.choices
    {
      done, error := false, None;
      var event := Dispatch(dataLines);
      assert event != [] ==> event[1..] == [];
      dataLines := [];
      if event == [] { return; }
      if event[0] == DONE { done := true; return; }
      var chunk := decode(event[0]);
      if chunk == None { return; }
      if TrimSpace(chunk.value.error) != "" { error := Some("llm error: " + chunk.value.error); return; }
      TakeFrame(chunk.value);
      assert AllChoices([chunk.value]) == chunk.value.choices by { assert [chunk.value][1..] == []; }
    }

    /**
     * readStream, over the lines that came complete. The deltas make up the text; the calls are those of the
     * merged fragments whose indices lie below the number of indices.
     */
    method ReadStream(lines: seq<string>) returns (r: Result)
      requires Valid() && dataLines == [] && taken == []
      modifies this
      ensures var got := Accepted(decode, Events(lines, []));
              if got.error.Some? then r == Err(got.error.value)
              else
                var fs := AllFragments(AllChoices(got.frames));
                && r.Ok? && r.text == AllText(AllChoices(got.frames)) == Flatten(deltas)
                && r.calls == CallsBelow(MergeAll(map[], fs), |MergeAll(map[], fs)|)
      ensures deltas == DeltasIn(ChoicesIn(decode, Events(lines, [])[..FirstStop(decode, Events(lines, []))]))
      ensures var events := Events(lines, []);
              var n := FirstStop(decode, events);
              if n < |events| && events[n] != "[DONE]" then r == Err("llm error: " + decode(events[n]).value.error)
              else
                var fs := AllFragments(ChoicesIn(decode, events[..n]));
                && r.Ok? && r.text == AllText(ChoicesIn(decode, events[..n])) == Flatten(deltas)
                && r.calls == CallsBelow(MergeAll(map[], fs), |MergeAll(map[], fs)|)
    {
      hide Accepted, Dispatch, Events, MergeAll, AllFragments, AllText, AllChoices, Flatten;
      hide Stops, ChoicesIn, FirstStop, DeltasIn;
      AcceptedUpToStop(decode, Events(lines, []));
      ghost var whole := Accepted(decode, Events(lines, []));
      var finished := false;
      var i := 0;
      assert lines[0..] == lines;
      NoChoices(AllChoices(whole.frames));
      while i < |lines| && !finished
        invariant 0 <= i <= |lines| && Valid()
        invariant finished ==> dataLines == []
        invariant var todo := if finished then Frames([], None) else Accepted(decode, Events(lines[i..], dataLines));
                  whole.error == todo.error && AllChoices(whole.frames) == taken + AllChoices(todo.frames)
        decreases |lines| - i
      {
        EventsLine(lines[i..], dataLines);
        assert lines[i..][0] == lines[i] && lines[i..][1..] == lines[i + 1..];
        var line := TrimLineEnd(lines[i]);
        i := i + 1;
        if TrimSpace(line) == "" {
          ghost var event, later := Dispatch(dataLines), Events(lines[i..], []);
          AcceptedThen(decode, dataLines, later);
          Associates(taken, AllChoices(Accepted(decode, event).frames), AllChoices(Accepted(decode, later).frames));
          var done, error := FlushEvent();
          if error.Some? { return Err(error.value); }
          finished := done;
        } else if DATA <= line {
          dataLines := dataLines + [TrimSpace(line[|DATA|..])];
        }
      }
      LastEvent(decode, lines[i..], dataLines, finished);
      var _, error := FlushEvent();
      if error.Some? { return Err(error.value); }
      r := Ok(text, CallsBelow(toolCalls, |toolCalls|));
    }
  }

  lemma {:induction false} NoChoices(cs: seq<Choice>)
    ensures AllChoices([]) == [] && AllText([]) == "" && AllFragments([]) == [] && [] + cs == cs == cs + []
  {
  }

  lemma {:induction false} EventsLine(lines: seq<string>, dataLines: seq<string>)
    requires lines != []
    ensures var line := TrimLineEnd(lines[0]);
            Events(lines, dataLines)
            == if TrimSpace(line) == "" then Dispatch(dataLines) + Events(lines[1..], [])
               else if DATA <= line then Events(lines[1..], dataLines + [TrimSpace(line[|DATA|..])])
               else Events(lines[1..], dataLines)
  {
  }

  /** An event in front of others ends the stream, fails, or adds its choices to theirs. */
  lemma {:induction false} AcceptedThen(decode: Decoder, dataLines: seq<string>, later: seq<string>)
    ensures var event := Dispatch(dataLines);
            var now, all := Accepted(decode, event), Accepted(decode, event + later);
            if event == [DONE] then all == now == Frames([], None)
            else if now.error.Some? then all == now && now.frames == []
            else
              && all.error == Accepted(decode, later).error
              && AllChoices(all.frames) == AllChoices(now.frames) + AllChoices(Accepted(decode, later).frames)
  {
    var event := Dispatch(dataLines);
    if event == [] {
      assert event + later == later;
    } else {
      assert (event + later)[1..] == later && event[1..] == [];
    }
  }

  /** At the end of the input, what is left is the event under way; after DONE, nothing is left. */
  lemma {:induction false} LastEvent(decode: Decoder, lines: seq<string>, dataLines: seq<string>, finished: bool)
    requires finished ==> dataLines == []
    requires !finished ==> lines == []
    ensures !finished ==> Events(lines, dataLines) == Dispatch(dataLines)
    ensures finished ==> Accepted(decode, Dispatch(dataLines)) == Frames([], None)
    ensures AllChoices([]) == []
  {
  }

  /** One turn of the loop over the tool-call deltas of a choice. */
  method MergeDelta(toolCalls: map<int, ToolCall>, deltas: seq<ToolDelta>, i: nat) returns (merged: map<int, ToolCall>)
    requires i < |deltas|
    ensures merged == Merge(toolCalls, ToolFragment(deltas, i))
  {
    var d := deltas[i];
    var idx := d.index;
    if idx == 0 && |deltas| > 1 { idx := i; }
    var tc := if idx in toolCalls then toolCalls[idx] else ToolCall("", "", "");
    assert tc.args + "" == tc.args;
    if tc.id == "" { tc := tc.(id := d.id); }
    if tc.name == "" { tc := tc.(name := d.name); }
    if d.args != "" { tc := tc.(args := tc.args + d.args); }
    merged := toolCalls[idx := tc];
  }

  /** The legacy function call of a choice. */
  method MergeLegacy(toolCalls: map<int, ToolCall>, d: FunctionDelta) returns (merged: map<int, ToolCall>)
    ensures merged == Merge(toolCalls, Fragment(0, "call_0", d.name, d.args))
  {
    var tc := if 0 in toolCalls then toolCalls[0] else ToolCall("", "", "");
    if tc.id == "" { tc := tc.(id := "call_0"); }
    if tc.name == "" { tc := tc.(name := d.name); }
    tc := tc.(args := tc.args + d.args);
    merged := toolCalls[0 := tc];
  }

  /** The part of the loop over one choice that merges its fragments. */
  method MergeFragments(toolCalls: map<int, ToolCall>, c: Choice) returns (merged: map<int, ToolCall>)
    ensures merged == MergeAll(toolCalls, FragmentsOf(c))
  {
    hide Merge, ToolFragment, MergeAll;
    ghost var legacy := LegacyOf(c);
    ghost var fs := ToolFragments(c.toolCalls);
    MergeAllConcat(toolCalls, legacy, fs);
    merged := toolCalls;
    MergeEnds(toolCalls, []);
    if c.functionCall.Some? {
      merged := MergeLegacy(toolCalls, c.functionCall.value);
      MergeNext(toolCalls, legacy, 0);
      assert legacy[0..] == legacy && legacy[1..] == [];
      MergeEnds(merged, []);
    }
    var i := 0;
    assert fs[0..] == fs;
    while i < |c.toolCalls|
      invariant 0 <= i <= |c.toolCalls|
      invariant MergeAll(toolCalls, legacy + fs) == MergeAll(merged, fs[i..])
    {
      MergeNext(merged, fs, i);
      assert fs[i] == ToolFragment(c.toolCalls, i);
      merged := MergeDelta(merged, c.toolCalls, i);
      i := i + 1;
    }
    MergeEnds(merged, fs[i..]);
  }

  lemma {:induction false} MergeNext(calls: map<int, ToolCall>, fs: seq<Fragment>, i: nat)
    requires i < |fs|
    ensures MergeAll(calls, fs[i..]) == MergeAll(Merge(calls, fs[i]), fs[i + 1..])
  {
    assert fs[i..][0] == fs[i] && fs[i..][1..] == fs[i + 1..];
  }

  lemma {:induction false} MergeEnds(calls: map<int, ToolCall>, fs: seq<Fragment>)
    requires fs == []
    ensures MergeAll(calls, fs) == calls
  {
  }

  /** The calls come back in index order, each with its first id, first name and joined arguments. */
  lemma {:induction false} CallsInOrder(fs: seq<Fragment>, n: nat)
    requires forall i | 0 <= i < n :: i in Indices(fs)
    requires forall i | 0 <= i < n :: IsCall(CallAt(fs, i))
    ensures CallsBelow(MergeAll(map[], fs), n) == seq(n, i requires 0 <= i < n => CallAt(fs, i))
    decreases n
  {
    if n > 0 {
      CallsInOrder(fs, n - 1);
      MergedCalls(map[], fs, n - 1);
      assert "" + Arguments(fs, n - 1) == Arguments(fs, n - 1);
      assert n - 1 in Indices(fs) && MergeAll(map[], fs)[n - 1] == CallAt(fs, n - 1);
      assert seq(n, i requires 0 <= i < n => CallAt(fs, i))
          == seq(n - 1, i requires 0 <= i < n - 1 => CallAt(fs, i)) + [CallAt(fs, n - 1)];
    }
  }

  /** The indices are exactly 0, 1, ..., k - 1 for some k. */
  ghost predicate Dense(fs: seq<Fragment>) {
    forall i :: i in Indices(fs) <==> 0 <= i < |Indices(fs)|
  }

  /** When indices are dense, and no call is empty, every call of the stream is returned, in index order. */
  lemma {:induction false} DenseCallsAllReturned(fs: seq<Fragment>)
    requires Dense(fs)
    requires forall i | i in Indices(fs) :: IsCall(CallAt(fs, i))
    ensures CallsBelow(MergeAll(map[], fs), |MergeAll(map[], fs)|)
         == seq(|Indices(fs)|, i requires 0 <= i < |Indices(fs)| => CallAt(fs, i))
  {
    MergedKeys(fs);
    CallsInOrder(fs, |Indices(fs)|);
  }

  lemma {:induction false} MergedKeys(fs: seq<Fragment>)
    ensures MergeAll(map[], fs).Keys == Indices(fs) && |MergeAll(map[], fs)| == |Indices(fs)|
  {
    forall i ensures i in MergeAll(map[], fs).Keys <==> i in Indices(fs) { MergedCalls(map[], fs, i); }
    assert MergeAll(map[], fs).Keys == Indices(fs);
  }

  lemma {:induction false} CallsBelowCount(calls: map<int, ToolCall>, n: nat)
    ensures |CallsBelow(calls, n)| == |set k | k in calls && 0 <= k < n && IsCall(calls[k])|
    decreases n
  {
    hide IsCall;
    var here := set k | k in calls && 0 <= k < n && IsCall(calls[k]);
    if n == 0 {
      assert here == {};
    } else {
      CallsBelowCount(calls, n - 1);
      var before := set k | k in calls && 0 <= k < n - 1 && IsCall(calls[k]);
      if n - 1 in calls && IsCall(calls[n - 1]) {
        assert here == before + {n - 1};
      } else {
        assert here == before;
      }
    }
  }

  lemma {:induction false} FullRange(s: set<int>, n: nat)
    requires forall i | i in s :: 0 <= i < n
    ensures |s| <= n && (|s| == n ==> forall i | 0 <= i < n :: i in s)
    decreases n
  {
    if n == 0 {
      assert forall i: int :: i !in s;
      assert |s| == 0;
    } else {
      var rest := s - {n - 1};
      FullRange(rest, n - 1);
      assert n - 1 in s ==> |s| == |rest| + 1;
      assert n - 1 !in s ==> s == rest;
      if |s| == n {
        forall i | 0 <= i < n ensures i in s { assert i == n - 1 || i in rest; }
      }
    }
  }

  /** The indices at which the stream has a call. */
  function CallIndices(fs: seq<Fragment>): set<int> {
    set i | i in Indices(fs) && IsCall(CallAt(fs, i))
  }

  /** For any stream: every call comes back if and only if each has an index below the number of indices. */
  lemma {:induction false} NoCallDroppedIff(fs: seq<Fragment>)
    ensures |CallsBelow(MergeAll(map[], fs), |MergeAll(map[], fs)|)| == |CallIndices(fs)|
            <==> forall i | i in CallIndices(fs) :: 0 <= i < |Indices(fs)|
  {
    hide MergeAll, CallsBelow, IsCall;
    var calls, all := MergeAll(map[], fs), CallIndices(fs);
    MergedKeys(fs);
    CallsBelowCount(calls, |calls|);
    var kept := set k | k in calls && 0 <= k < |calls| && IsCall(calls[k]);
    forall k ensures k in kept <==> k in all && 0 <= k < |Indices(fs)| {
      MergedCalls(map[], fs, k);
      assert "" + Arguments(fs, k) == Arguments(fs, k);
    }
    if |kept| == |all| { SubsetOfSameSize(kept, all); }
    if forall i | i in all :: 0 <= i < |Indices(fs)| { assert kept == all; }
  }

  /** With no empty call, that means that the indices are dense. */
  lemma {:induction false} NoCallDroppedIffDense(fs: seq<Fragment>)
    requires forall i | i in Indices(fs) :: IsCall(CallAt(fs, i))
    ensures |CallsBelow(MergeAll(map[], fs), |MergeAll(map[], fs)|)| == |Indices(fs)| <==> Dense(fs)
  {
    hide MergeAll, CallsBelow;
    NoCallDroppedIff(fs);
    assert CallIndices(fs) == Indices(fs);
    if forall i | i in Indices(fs) :: 0 <= i < |Indices(fs)| { FullRange(Indices(fs), |Indices(fs)|); }
  }

  lemma {:induction false} SubsetOfSameSize(a: set<int>, b: set<int>)
    requires a <= b && |a| == |b|
    ensures a == b
  {
    assert |b - a| == |b| - |b * a| && b * a == a;
    assert b - a == {};
  }
}
