/**
 * The standard's reading of an event stream ("Interpreting an event stream", section 9.2.6 of the WHATWG HTML
 * Standard), against the reader's own.
 */
module EventStream {
  import opened Seqs
  import opened StreamAssembly

  /** The position of the first colon, or the length of the line. */
  function Colon(line: string): (k: nat)
    ensures k <= |line| && ':' !in line[..k] && (k < |line| ==> line[k] == ':')
  {
    if line == "" then 0 else if line[0] == ':' then 0 else Colon(line[1..]) + 1
  }

  function FieldName(line: string): string {
    line[..Colon(line)]
  }

  /** What follows the colon, less one leading space. */
  function FieldValue(line: string): string {
    var k := Colon(line);
    if k == |line| then ""
    else if k + 1 < |line| && line[k + 1] == ' ' then line[k + 2..]
    else line[k + 1..]
  }

  /** The data of the dispatched events; what is not closed by a blank line is discarded. */
  function StandardEvents(lines: seq<string>, buffer: seq<string>): seq<string>
    decreases |lines|
  {
    if lines == [] then []
    else if lines[0] == "" then (if buffer == [] then [] else [JoinLines(buffer)]) + StandardEvents(lines[1..], [])
    else if FieldName(lines[0]) == "data" then StandardEvents(lines[1..], buffer + [FieldValue(lines[0])])
    else StandardEvents(lines[1..], buffer)
  }

  /** A line without its line end; ended by a line feed, and perhaps a carriage return before it. */
  function Content(raw: string): string {
    if raw != "" && raw[|raw| - 1] == '\r' then raw[..|raw| - 1] else raw
  }

  function Contents(raws: seq<string>): (lines: seq<string>)
    ensures |lines| == |raws|
  {
    seq(|raws|, i requires 0 <= i < |raws| => Content(raws[i]))
  }

  predicate Clean(line: string) {
    '\r' !in line && '\n' !in line
  }

  predicate AllClean(lines: seq<string>) {
    forall i | 0 <= i < |lines| :: Clean(lines[i])
  }

  lemma {:induction false} LineEndGone(raw: string)
    requires Clean(Content(raw))
    ensures TrimLineEnd(raw) == Content(raw) == TrimLineEnd(Content(raw))
  {
    var c := Content(raw);
    if c != "" { assert c[|c| - 1] in c; }
  }

  lemma {:induction false} SameContents(raws: seq<string>, buffer: seq<string>)
    requires AllClean(Contents(raws))
    ensures Events(raws, buffer) == Events(Contents(raws), buffer)
    decreases |raws|
  {
    hide Dispatch, TrimSpace, Clean;
    if raws != [] {
      var lines := Contents(raws);
      assert lines[1..] == Contents(raws[1..]) && Clean(lines[0]);
      LineEndGone(raws[0]);
      assert forall i | 0 <= i < |lines[1..]| :: lines[1..][i] == lines[i + 1];
      SameContents(raws[1..], []);
      SameContents(raws[1..], buffer);
      if DATA <= lines[0] { SameContents(raws[1..], buffer + [TrimSpace(lines[0][|DATA|..])]); }
    }
  }

  predicate Blank(s: string) {
    forall i | 0 <= i < |s| :: IsSpace(s[i])
  }

  predicate Tight(s: string) {
    s != "" && !IsSpace(s[0]) && !IsSpace(s[|s| - 1])
  }

  lemma {:induction false} LeftTrimmed(s: string)
    ensures |TrimLeft(s)| <= |s| && TrimLeft(s) == s[|s| - |TrimLeft(s)|..]
    ensures Blank(s[..|s| - |TrimLeft(s)|])
    ensures TrimLeft(s) == "" || !IsSpace(TrimLeft(s)[0])
    decreases |s|
  {
    if s != "" && IsSpace(s[0]) {
      LeftTrimmed(s[1..]);
      var n := |s| - |TrimLeft(s)|;
      assert s[..n] == [s[0]] + s[1..][..n - 1];
    }
  }

  lemma {:induction false} RightTrimmed(s: string)
    ensures |TrimRight(s)| <= |s| && TrimRight(s) == s[..|TrimRight(s)|]
    ensures Blank(s[|TrimRight(s)|..])
    ensures TrimRight(s) == "" || !IsSpace(TrimRight(s)[|TrimRight(s)| - 1])
    decreases |s|
  {
    if s != "" && IsSpace(s[|s| - 1]) {
      var init := s[..|s| - 1];
      RightTrimmed(init);
      var n := |TrimRight(s)|;
      assert s[n..] == init[n..] + [s[|s| - 1]];
    }
  }

  /** A string is white space, its trimmed self, and white space. */
  lemma {:induction false} Trimmed(s: string) returns (a: string, b: string)
    ensures s == a + TrimSpace(s) + b && Blank(a) && Blank(b)
    ensures TrimSpace(s) == "" || Tight(TrimSpace(s))
    ensures TrimSpace(s) == "" <==> Blank(s)
  {
    var l := TrimLeft(s);
    LeftTrimmed(s);
    RightTrimmed(l);
    a, b := s[..|s| - |l|], l[|TrimSpace(s)|..];
    assert s == a + l && l == TrimSpace(s) + b;
    var t := TrimSpace(s);
    if t != "" {
      assert t[0] == l[0];
      assert s[|a|] == l[0];
    } else {
      assert s == a + b;
    }
  }

  lemma {:induction false} TightIsTrimmed(s: string)
    requires Tight(s) || s == ""
    ensures TrimSpace(s) == s
  {
  }

  /** The number of line feeds. */
  function Lfs(s: string): nat {
    multiset(s)['\n']
  }

  lemma {:induction false} LfsConcat(a: string, b: string)
    ensures Lfs(a + b) == Lfs(a) + Lfs(b)
  {
  }

  lemma {:induction false} JoinLfs(vs: seq<string>)
    requires AllClean(vs) && vs != []
    ensures Lfs(JoinLines(vs)) == |vs| - 1
    decreases |vs|
  {
    var n := |vs| - 1;
    assert Clean(vs[n]);
    if n > 0 {
      JoinLfs(vs[..n]);
      LfsConcat(JoinLines(vs[..n]) + "\n", vs[n]);
      LfsConcat(JoinLines(vs[..n]), "\n");
    }
  }

  /** Trimming drops line feeds, unless there are none at either end. */
  lemma {:induction false} TrimLfs(s: string)
    ensures Lfs(TrimSpace(s)) <= Lfs(s)
    ensures TrimSpace(s) != "" && (s[0] == '\n' || s[|s| - 1] == '\n') ==> Lfs(TrimSpace(s)) < Lfs(s)
  {
    var a, b := Trimmed(s);
    var t := TrimSpace(s);
    LfsConcat(a + t, b);
    LfsConcat(a, t);
    if t != "" {
      if s[0] == '\n' { assert a != "" && a[0] == s[0]; }
      if s[|s| - 1] == '\n' { assert b != "" && b[|b| - 1] == s[|s| - 1]; }
    }
  }

  lemma {:induction false} JoinEnds(vs: seq<string>)
    requires |vs| >= 2
    ensures var s := JoinLines(vs);
            && s != "" && s[0] == (if vs[0] == "" then '\n' else vs[0][0])
            && s[|s| - 1] == (if vs[|vs| - 1] == "" then '\n' else vs[|vs| - 1][|vs[|vs| - 1]| - 1])
    decreases |vs|
  {
    var n := |vs| - 1;
    if n >= 2 { JoinEnds(vs[..n]); }
  }

  lemma {:induction false} NoLaterLf(a: string, x: string)
    requires Clean(x)
    ensures forall i | |a| < i <= |a| + |x| :: (a + "\n" + x)[i] != '\n'
  {
    forall i | |a| < i <= |a| + |x| ensures (a + "\n" + x)[i] != '\n' {
      assert (a + "\n" + x)[i] == x[i - |a| - 1];
    }
  }

  lemma {:induction false} LastLf(a: string, x: string, b: string, y: string)
    requires a + "\n" + x == b + "\n" + y && Clean(x) && Clean(y)
    ensures a == b && x == y
  {
    var s := a + "\n" + x;
    NoLaterLf(a, x);
    NoLaterLf(b, y);
    assert s[|a|] == '\n' && s[|b|] == '\n';
    assert |a| == |b|;
    assert s[..|a|] == a && s[..|b|] == b && s[|a| + 1..] == x && s[|b| + 1..] == y;
  }

  lemma {:induction false} JoinInjective(ps: seq<string>, vs: seq<string>)
    requires AllClean(ps) && AllClean(vs) && |ps| == |vs| && JoinLines(ps) == JoinLines(vs)
    ensures ps == vs
    decreases |ps|
  {
    var n := |ps| - 1;
    if n >= 1 {
      assert Clean(ps[n]) && Clean(vs[n]);
      LastLf(JoinLines(ps[..n]), ps[n], JoinLines(vs[..n]), vs[n]);
      JoinInjective(ps[..n], vs[..n]);
      assert ps == ps[..n] + [ps[n]] && vs == vs[..n] + [vs[n]];
    }
  }

  /** The values the reader takes from some lines, and those the standard does. */
  function ReaderValues(lines: seq<string>): seq<string> {
    if lines == [] then []
    else (if DATA <= lines[0] then [TrimSpace(lines[0][|DATA|..])] else []) + ReaderValues(lines[1..])
  }

  function StandardValues(lines: seq<string>): seq<string> {
    if lines == [] then []
    else (if FieldName(lines[0]) == "data" then [FieldValue(lines[0])] else []) + StandardValues(lines[1..])
  }

  lemma {:induction false} ReaderUnrolled(lines: seq<string>)
    requires lines != []
    ensures ReaderValues(lines) == if DATA <= lines[0] then [TrimSpace(lines[0][|DATA|..])] + ReaderValues(lines[1..])
                                   else ReaderValues(lines[1..])
  {
  }

  lemma {:induction false} StandardUnrolled(lines: seq<string>)
    requires lines != []
    ensures StandardValues(lines)
         == if FieldName(lines[0]) == "data" then [FieldValue(lines[0])] + StandardValues(lines[1..])
                                     else StandardValues(lines[1..])
  {
  }

  lemma {:induction false} ColonAt(line: string, k: nat)
    requires k < |line| && line[k] == ':' && ':' !in line[..k]
    ensures Colon(line) == k
    decreases k
  {
    if k > 0 {
      assert line[0] == line[..k][0];
      assert line[1..][..k - 1] == line[..k][1..];
      ColonAt(line[1..], k - 1);
    }
  }

  lemma {:induction false} SpaceTrimmed(s: string)
    ensures TrimSpace(" " + s) == TrimSpace(s)
  {
    assert (" " + s)[1..] == s;
  }

  lemma {:induction false} DataColon(line: string)
    requires DATA <= line
    ensures FieldName(line) == "data" && TrimSpace(line[|DATA|..]) == TrimSpace(FieldValue(line))
  {
    hide TrimSpace;
    assert line[..4] == DATA[..4] && line[4] == DATA[4];
    ColonAt(line, 4);
    var v := FieldValue(line);
    SpaceTrimmed(v);
    assert line[5..] == v || line[5..] == " " + v;
  }

  lemma {:induction false} NamedData(line: string)
    requires FieldName(line) == "data"
    ensures DATA <= line || line == "data"
  {
    if Colon(line) < |line| {
      assert line[..5] == line[..4] + [line[4]];
      assert DATA == "data" + ":";
    }
  }

  lemma {:induction false} NotBlank(line: string)
    requires line != "" && !IsSpace(line[0])
    ensures TrimSpace(line) != ""
  {
    hide TrimSpace;
    var _, _ := Trimmed(line);
  }

  /** A data field is a line that begins with "data:", or is just "data". */
  lemma {:induction false} DataLine(line: string)
    ensures FieldName(line) == "data" <==> DATA <= line || line == "data"
    ensures DATA <= line ==> TrimSpace(line[|DATA|..]) == TrimSpace(FieldValue(line)) && TrimSpace(line) != ""
    ensures line == "data" ==> FieldValue(line) == "" && TrimSpace(line) != ""
  {
    if line == "data" { assert FieldName(line) == "data" && FieldValue(line) == ""; }
    hide TrimSpace, FieldName, FieldValue;
    if DATA <= line {
      DataColon(line);
      assert line[0] == DATA[0];
      NotBlank(line);
    } else if line == "data" {
      NotBlank(line);
    } else if FieldName(line) == "data" {
      NamedData(line);
    }
  }

  lemma {:induction false} ValuesAgree(lines: seq<string>)
    ensures "data" !in lines ==>
              |ReaderValues(lines)| == |StandardValues(lines)|
              && forall i | 0 <= i < |ReaderValues(lines)| ::
                 ReaderValues(lines)[i] == TrimSpace(StandardValues(lines)[i])
    ensures "data" in lines ==> |ReaderValues(lines)| < |StandardValues(lines)|
    ensures |ReaderValues(lines)| <= |StandardValues(lines)|
    decreases |lines|
  {
    hide FieldName, FieldValue, TrimSpace;
    if lines != [] {
      DataLine(lines[0]);
      ValuesAgree(lines[1..]);
      assert "data" in lines <==> lines[0] == "data" || "data" in lines[1..];
    }
  }

  /** No white-space line stands between two data lines; `open` tells whether one has been seen. */
  predicate Unbroken(lines: seq<string>, open: bool)
    decreases |lines|
  {
    if lines == [] then true
    else if TrimSpace(lines[0]) == "" then
      (if open then ReaderValues(lines[1..]) == [] else Unbroken(lines[1..], false))
    else Unbroken(lines[1..], open || DATA <= lines[0])
  }

  lemma {:induction false} UnbrokenEvents(lines: seq<string>, buffer: seq<string>)
    requires AllClean(lines) && Unbroken(lines, buffer != [])
    ensures Events(lines, buffer) == Dispatch(buffer + ReaderValues(lines))
    decreases |lines|
  {
    hide Dispatch, TrimSpace;
    DispatchNothing();
    if lines == [] {
      assert buffer + [] == buffer;
    } else {
      var line, rest := lines[0], lines[1..];
      CleanTail(lines);
      DataLine(line);
      if TrimSpace(line) == "" {
        if buffer == [] {
          UnbrokenEvents(rest, []);
          assert [] + ReaderValues(rest) == ReaderValues(rest);
        } else {
          QuietEvents(rest);
          assert buffer + [] == buffer;
        }
      } else if DATA <= line {
        UnbrokenEvents(rest, buffer + [TrimSpace(line[|DATA|..])]);
        assert buffer + [TrimSpace(line[|DATA|..])] + ReaderValues(rest) == buffer + ReaderValues(lines);
      } else {
        UnbrokenEvents(rest, buffer);
        assert ReaderValues(lines) == ReaderValues(rest);
      }
    }
  }

  lemma {:induction false} DispatchNothing()
    ensures Dispatch([]) == []
  {
  }

  lemma {:induction false} CleanTail(lines: seq<string>)
    requires AllClean(lines) && lines != []
    ensures Clean(lines[0]) && AllClean(lines[1..]) && TrimLineEnd(lines[0]) == lines[0]
  {
    if lines[0] != "" { assert Clean(lines[0]) && lines[0][|lines[0]| - 1] in lines[0]; }
  }

  lemma {:induction false} QuietEvents(lines: seq<string>)
    requires AllClean(lines) && ReaderValues(lines) == []
    ensures Events(lines, []) == []
    decreases |lines|
  {
    hide Dispatch, TrimSpace;
    DispatchNothing();
    if lines != [] {
      CleanTail(lines);
      QuietEvents(lines[1..]);
    }
  }

  lemma {:induction false} DispatchLfs(buffer: seq<string>)
    requires AllClean(buffer)
    ensures forall x | x in Dispatch(buffer) :: Lfs(x) + 1 <= |buffer| && Tight(x)
  {
    if buffer != [] {
      JoinLfs(buffer);
      TrimLfs(JoinLines(buffer));
    }
    var _, _ := Trimmed(JoinLines(buffer));
  }

  lemma {:induction false} TrimmedIsClean(s: string)
    requires Clean(s)
    ensures Clean(TrimSpace(s))
  {
    var a, b := Trimmed(s);
    forall c | c in TrimSpace(s) ensures c in s {}
  }

  lemma {:induction false} CleanSnoc(buffer: seq<string>, line: string)
    requires AllClean(buffer) && Clean(line) && DATA <= line
    ensures AllClean(buffer + [TrimSpace(line[|DATA|..])])
  {
    forall c | c in line[|DATA|..] ensures c in line {}
    TrimmedIsClean(line[|DATA|..]);
  }

  /** An event has fewer line feeds than data lines behind it, and fewer still if white space broke them up. */
  lemma {:induction false} EventLfs(lines: seq<string>, buffer: seq<string>)
    requires AllClean(lines) && AllClean(buffer)
    ensures forall x | x in Events(lines, buffer) :: Lfs(x) + 1 <= |buffer| + |ReaderValues(lines)| && Tight(x)
    ensures !Unbroken(lines, buffer != []) ==>
              forall x | x in Events(lines, buffer) :: Lfs(x) + 1 < |buffer| + |ReaderValues(lines)|
    decreases |lines|
  {
    hide Dispatch, TrimSpace, Lfs, Tight;
    DispatchLfs(buffer);
    if lines != [] {
      var line, rest := lines[0], lines[1..];
      CleanTail(lines);
      DataLine(line);
      if TrimSpace(line) == "" {
        EventLfs(rest, []);
        DispatchNothing();
      } else if DATA <= line {
        CleanSnoc(buffer, line);
        EventLfs(rest, buffer + [TrimSpace(line[|DATA|..])]);
      } else {
        EventLfs(rest, buffer);
      }
    }
  }

  /** The lines of one event, as the standard delimits it, make the same event for the reader. */
  predicate Agreeable(lines: seq<string>) {
    var vs := StandardValues(lines);
    vs == [] ||
    (&& "data" !in lines && Unbroken(lines, false)
     && (forall i | 0 <= i < |vs| :: TrimSpace(vs[i]) == vs[i])
     && vs[0] != "" && vs[|vs| - 1] != "")
  }

  function StandardEvent(lines: seq<string>): seq<string> {
    var vs := StandardValues(lines);
    if vs == [] then [] else [JoinLines(vs)]
  }

  lemma {:induction false} CleanValues(lines: seq<string>)
    requires AllClean(lines)
    ensures AllClean(ReaderValues(lines)) && AllClean(StandardValues(lines))
    decreases |lines|
  {
    if lines != [] {
      var line := lines[0];
      CleanTail(lines);
      CleanValues(lines[1..]);
      forall c | c in FieldValue(line) ensures c in line {}
      if DATA <= line {
        forall c | c in line[|DATA|..] ensures c in line {}
        TrimmedIsClean(line[|DATA|..]);
      }
    }
  }

  /** Values that are trimmed, with something in the first and the last, join to a trimmed event. */
  lemma {:induction false} TightJoin(vs: seq<string>)
    requires vs != [] && vs[0] != "" && vs[|vs| - 1] != "" && forall i | 0 <= i < |vs| :: TrimSpace(vs[i]) == vs[i]
    ensures Tight(JoinLines(vs)) && TrimSpace(JoinLines(vs)) == JoinLines(vs)
  {
    var _, _ := Trimmed(vs[0]);
    var _, _ := Trimmed(vs[|vs| - 1]);
    if |vs| >= 2 { JoinEnds(vs); }
    TightIsTrimmed(JoinLines(vs));
  }

  /** If trimming the joined values drops no line feed, the first and the last are not empty. */
  lemma {:induction false} NoEmptyEnds(vs: seq<string>)
    requires AllClean(vs) && vs != [] && TrimSpace(JoinLines(vs)) != ""
    requires Lfs(TrimSpace(JoinLines(vs))) + 1 == |vs|
    ensures vs[0] != "" && vs[|vs| - 1] != ""
  {
    JoinLfs(vs);
    TrimLfs(JoinLines(vs));
    if |vs| >= 2 {
      JoinEnds(vs);
    } else {
      var _, _ := Trimmed("");
    }
  }

  lemma {:induction false} AgreeableSuffices(lines: seq<string>)
    requires AllClean(lines) && Agreeable(lines)
    ensures Events(lines, []) == StandardEvent(lines)
  {
    hide Events, TrimSpace, Lfs, Unbroken;
    var rs, vs := ReaderValues(lines), StandardValues(lines);
    ValuesAgree(lines);
    if vs == [] {
      QuietEvents(lines);
    } else {
      UnbrokenEvents(lines, []);
      assert rs == vs && [] + rs == rs;
      TightJoin(vs);
    }
  }

  lemma {:induction false} AgreeableNeeded(lines: seq<string>)
    requires AllClean(lines) && StandardValues(lines) != [] && Events(lines, []) == StandardEvent(lines)
    ensures Agreeable(lines)
  {
    hide Events, TrimSpace, Lfs, Unbroken, Tight;
    var rs, vs := ReaderValues(lines), StandardValues(lines);
    var x := JoinLines(vs);
    CleanValues(lines);
    ValuesAgree(lines);
    JoinLfs(vs);
    assert x in Events(lines, []);
    EventLfs(lines, []);
    assert |rs| == |vs| && "data" !in lines && Unbroken(lines, false);
    UnbrokenEvents(lines, []);
    assert [] + rs == rs && Dispatch(rs) == [x];
    NoEmptyEnds(rs);
    forall i | 0 <= i < |rs| ensures TrimSpace(rs[i]) == rs[i] { TrimmedTwice(vs[i]); }
    TightJoin(rs);
    JoinInjective(rs, vs);
  }

  lemma {:induction false} TrimmedTwice(s: string)
    ensures TrimSpace(TrimSpace(s)) == TrimSpace(s)
  {
    var _, _ := Trimmed(s);
    TightIsTrimmed(TrimSpace(s));
  }

  predicate AllBlank(vs: seq<string>) {
    forall i | 0 <= i < |vs| :: Blank(vs[i])
  }

  predicate AllEmpty(vs: seq<string>) {
    forall i | 0 <= i < |vs| :: vs[i] == ""
  }

  lemma {:induction false} EmptyCons(v: string, vs: seq<string>)
    ensures AllEmpty([v] + vs) <==> v == "" && AllEmpty(vs)
  {
    forall i | 0 <= i < |vs| ensures ([v] + vs)[i + 1] == vs[i] {}
    assert ([v] + vs)[0] == v;
  }

  lemma {:induction false} NoneBlank()
    ensures AllBlank([])
  {
  }

  /** The reader makes nothing of some lines exactly if all values it takes are empty. */
  lemma {:induction false} SilentIff(lines: seq<string>, buffer: seq<string>)
    requires AllClean(lines)
    ensures Events(lines, buffer) == [] <==> AllBlank(buffer) && AllEmpty(ReaderValues(lines))
    decreases |lines|
  {
    DispatchBlank(buffer);
    NoneBlank();
    if lines != [] {
      hide Events, Dispatch, TrimSpace, AllBlank, AllEmpty, ReaderValues;
      var line, rest := lines[0], lines[1..];
      EventsLine(lines, buffer);
      ReaderUnrolled(lines);
      CleanTail(lines);
      DataLine(line);
      if TrimSpace(line) == "" {
        SilentIff(rest, []);
      } else if DATA <= line {
        var v := TrimSpace(line[|DATA|..]);
        SilentIff(rest, buffer + [v]);
        BlankSnoc(buffer, v, line[|DATA|..]);
        EmptyCons(v, ReaderValues(rest));
      } else {
        SilentIff(rest, buffer);
      }
    }
  }

  lemma {:induction false} BlankSnoc(buffer: seq<string>, v: string, from: string)
    requires v == TrimSpace(from)
    ensures AllBlank(buffer + [v]) <==> AllBlank(buffer) && v == ""
  {
    var _, _ := Trimmed(from);
    assert v == "" <==> Blank(v);
    assert (buffer + [v])[|buffer|] == v;
    forall i | 0 <= i < |buffer| ensures (buffer + [v])[i] == buffer[i] {}
  }

  lemma {:induction false} JoinBlank(vs: seq<string>)
    ensures Blank(JoinLines(vs)) <==> AllBlank(vs)
    decreases |vs|
  {
    var n := |vs| - 1;
    if n >= 1 {
      JoinBlank(vs[..n]);
      BlankConcat(JoinLines(vs[..n]) + "\n", vs[n]);
      BlankConcat(JoinLines(vs[..n]), "\n");
      assert forall i | 0 <= i < n :: vs[..n][i] == vs[i];
    }
  }

  lemma {:induction false} BlankConcat(a: string, b: string)
    ensures Blank(a + b) <==> Blank(a) && Blank(b)
  {
    forall i | 0 <= i < |a| ensures (a + b)[i] == a[i] {}
    forall i | 0 <= i < |b| ensures (a + b)[|a| + i] == b[i] {}
  }

  lemma {:induction false} DispatchBlank(buffer: seq<string>)
    ensures Dispatch(buffer) == [] <==> AllBlank(buffer)
  {
    hide JoinLines, TrimSpace, Blank;
    var _, _ := Trimmed(JoinLines(buffer));
    JoinBlank(buffer);
  }

  /** The first empty line. */
  function FirstEmpty(lines: seq<string>): (h: nat)
    ensures h <= |lines| && "" !in lines[..h] && (h < |lines| ==> lines[h] == "")
  {
    if lines == [] || lines[0] == "" then 0 else FirstEmpty(lines[1..]) + 1
  }

  /** Every event that the standard delimits is agreeable, and nothing unfinished is left that the reader would take. */
  predicate AllAgree(lines: seq<string>)
    decreases |lines|
  {
    var h := FirstEmpty(lines);
    if h == |lines| then AllEmpty(ReaderValues(lines)) else Agreeable(lines[..h]) && AllAgree(lines[h + 1..])
  }

  lemma {:induction false} SplitEvents(lines: seq<string>, buffer: seq<string>, h: nat)
    requires h < |lines| && lines[h] == ""
    ensures Events(lines, buffer) == Events(lines[..h], buffer) + Events(lines[h + 1..], [])
    decreases h
  {
    hide Dispatch;
    if h > 0 {
      var rest := lines[1..];
      assert lines[..h][0] == lines[0] && lines[..h][1..] == rest[..h - 1] && rest[h..] == lines[h + 1..];
      SplitEvents(rest, [], h - 1);
      SplitEvents(rest, buffer, h - 1);
      if DATA <= TrimLineEnd(lines[0]) {
        SplitEvents(rest, buffer + [TrimSpace(TrimLineEnd(lines[0])[|DATA|..])], h - 1);
      }
    } else {
      var _, _ := Trimmed("");
    }
  }

  lemma {:induction false} StandardLine(lines: seq<string>, buffer: seq<string>)
    requires lines != []
    ensures StandardEvents(lines, buffer)
         == if lines[0] == "" then (if buffer == [] then [] else [JoinLines(buffer)]) + StandardEvents(lines[1..], [])
            else if FieldName(lines[0]) == "data" then StandardEvents(lines[1..], buffer + [FieldValue(lines[0])])
            else StandardEvents(lines[1..], buffer)
    ensures StandardValues([]) == []
  {
  }

  lemma {:induction false} HeadAndTail(lines: seq<string>, h: nat)
    requires 0 < h < |lines| && "" !in lines[..h]
    ensures lines[..h][0] == lines[0] != "" && lines[..h][1..] == lines[1..][..h - 1]
            && lines[1..][h..] == lines[h + 1..]
    ensures lines[1..][h - 1] == lines[h] && "" !in lines[1..][..h - 1]
  {
    assert lines[..h][0] in lines[..h];
    forall x | x in lines[..h][1..] ensures x in lines[..h] {}
  }

  lemma {:induction false} SplitStandard(lines: seq<string>, buffer: seq<string>, h: nat)
    requires h < |lines| && lines[h] == "" && "" !in lines[..h]
    ensures var vs := buffer + StandardValues(lines[..h]);
            StandardEvents(lines, buffer)
              == (if vs == [] then [] else [JoinLines(vs)]) + StandardEvents(lines[h + 1..], [])
    decreases h
  {
    hide JoinLines, FieldName, FieldValue, StandardValues, StandardEvents;
    StandardLine(lines, buffer);
    if h == 0 {
      assert lines[..h] == [] && buffer + [] == buffer;
    } else {
      var rest, v := lines[1..], FieldValue(lines[0]);
      var more := StandardValues(rest[..h - 1]);
      HeadAndTail(lines, h);
      StandardUnrolled(lines[..h]);
      if FieldName(lines[0]) == "data" {
        SplitStandard(rest, buffer + [v], h - 1);
        Associates(buffer, [v], more);
      } else {
        SplitStandard(rest, buffer, h - 1);
      }
    }
  }

  lemma {:induction false} NoStandard(lines: seq<string>, buffer: seq<string>)
    requires "" !in lines
    ensures StandardEvents(lines, buffer) == []
    decreases |lines|
  {
    if lines != [] {
      NoStandard(lines[1..], buffer);
      NoStandard(lines[1..], buffer + [FieldValue(lines[0])]);
    }
  }

  lemma {:induction false} EmptyMeansBlank(lines: seq<string>)
    requires AllEmpty(ReaderValues(lines))
    ensures AllBlank(StandardValues(lines))
    decreases |lines|
  {
    if lines != [] {
      var line := lines[0];
      DataLine(line);
      var _, _ := Trimmed(FieldValue(line));
      if DATA <= line {
        EmptyCons(TrimSpace(line[|DATA|..]), ReaderValues(lines[1..]));
      } else {
        assert ReaderValues(lines) == ReaderValues(lines[1..]);
      }
      hide Blank, FieldValue, FieldName;
      EmptyMeansBlank(lines[1..]);
    }
  }

  predicate AllTight(xs: seq<string>) {
    forall i | 0 <= i < |xs| :: Tight(xs[i])
  }

  /** A standard event of more than white space does not go unnoticed. */
  lemma {:induction false} NotSilent(lines: seq<string>)
    requires AllClean(lines) && AllTight(StandardEvent(lines))
    ensures |Events(lines, [])| >= |StandardEvent(lines)|
  {
    hide Events, JoinLines, AllBlank, AllEmpty;
    var vs := StandardValues(lines);
    if vs != [] {
      assert StandardEvent(lines)[0] == JoinLines(vs) && Tight(JoinLines(vs)) && !Blank(JoinLines(vs));
      JoinBlank(vs);
      if AllEmpty(ReaderValues(lines)) { EmptyMeansBlank(lines); }
      SilentIff(lines, []);
      NoneBlank();
    }
  }

  lemma {:induction false} CleanParts(lines: seq<string>, h: nat)
    requires AllClean(lines) && h < |lines|
    ensures AllClean(lines[..h]) && AllClean(lines[h + 1..])
  {
  }

  lemma {:induction false} TightParts(a: seq<string>, b: seq<string>)
    ensures AllTight(a + b) <==> AllTight(a) && AllTight(b)
  {
    forall i | 0 <= i < |a| ensures (a + b)[i] == a[i] {}
    forall i | 0 <= i < |b| ensures (a + b)[|a| + i] == b[i] {}
  }

  lemma {:induction false} AtLeastAsMany(lines: seq<string>)
    requires AllClean(lines) && AllTight(StandardEvents(lines, []))
    ensures |Events(lines, [])| >= |StandardEvents(lines, [])|
    decreases |lines|
  {
    hide Events, StandardEvents, AllTight, AllClean, JoinLines;
    var h := FirstEmpty(lines);
    if h == |lines| {
      assert lines[..h] == lines;
      NoStandard(lines, []);
    } else {
      SplitStandard(lines, [], h);
      SplitEvents(lines, [], h);
      assert [] + StandardValues(lines[..h]) == StandardValues(lines[..h]);
      TightParts(StandardEvent(lines[..h]), StandardEvents(lines[h + 1..], []));
      CleanParts(lines, h);
      NotSilent(lines[..h]);
      AtLeastAsMany(lines[h + 1..]);
    }
  }

  lemma {:induction false} EventsAreTight(lines: seq<string>)
    requires AllClean(lines)
    ensures AllTight(Events(lines, []))
  {
    EventLfs(lines, []);
    forall i | 0 <= i < |Events(lines, [])|
      ensures Tight(Events(lines, [])[i])
    {
      assert Events(lines, [])[i] in Events(lines, []);
    }
  }

  lemma {:induction false} AgreeIff(lines: seq<string>)
    requires AllClean(lines)
    ensures Events(lines, []) == StandardEvents(lines, []) <==> AllAgree(lines)
    decreases |lines|
  {
    hide Events, StandardEvents, AllTight, AllClean, JoinLines, AllEmpty, Agreeable;
    var h := FirstEmpty(lines);
    if h == |lines| {
      assert lines[..h] == lines;
      NoStandard(lines, []);
      SilentIff(lines, []);
      NoneBlank();
    } else {
      var group, rest := lines[..h], lines[h + 1..];
      CleanParts(lines, h);
      SplitStandard(lines, [], h);
      SplitEvents(lines, [], h);
      assert [] + StandardValues(group) == StandardValues(group);
      AgreeIff(rest);
      if Events(lines, []) == StandardEvents(lines, []) {
        EventsAreTight(lines);
        TightParts(StandardEvent(group), StandardEvents(rest, []));
        NotSilent(group);
        AtLeastAsMany(rest);
        SameParts(Events(group, []), Events(rest, []), StandardEvent(group), StandardEvents(rest, []));
        GroupAgrees(group);
      } else if Agreeable(group) {
        AgreeableSuffices(group);
      }
    }
  }

  lemma {:induction false} GroupAgrees(lines: seq<string>)
    requires AllClean(lines) && Events(lines, []) == StandardEvent(lines)
    ensures Agreeable(lines)
  {
    if StandardValues(lines) != [] { AgreeableNeeded(lines); }
  }

  lemma {:induction false} SameParts(a: seq<string>, b: seq<string>, c: seq<string>, d: seq<string>)
    requires a + b == c + d && |a| >= |c| && |b| >= |d|
    ensures a == c && b == d
  {
    assert a == (a + b)[..|a|] && c == (c + d)[..|c|] && b == (a + b)[|a|..] && d == (c + d)[|c|..];
  }

  /** A line as the reader takes it: white space is a separator, and anything but "data:" a comment. */
  function Loosened(line: string): string {
    if TrimSpace(line) == "" then "" else if DATA <= line then DATA + TrimSpace(line[|DATA|..]) else ":"
  }

  function AllLoosened(lines: seq<string>): seq<string> {
    if lines == [] then [] else [Loosened(lines[0])] + AllLoosened(lines[1..])
  }

  /** Events are trimmed, and those of white space only are dropped. */
  function Tidied(events: seq<string>): seq<string> {
    if events == [] then []
    else (if TrimSpace(events[0]) == "" then [] else [TrimSpace(events[0])]) + Tidied(events[1..])
  }

  lemma {:induction false} TidiedCons(event: string, events: seq<string>)
    ensures Tidied([event] + events) == (if TrimSpace(event) == "" then [] else [TrimSpace(event)]) + Tidied(events)
    ensures Tidied([]) == []
  {
    assert ([event] + events)[1..] == events;
  }

  lemma {:induction false} DataField(v: string)
    requires v == "" || Tight(v)
    ensures FieldName(DATA + v) == "data" && FieldValue(DATA + v) == v
  {
    var line := DATA + v;
    assert line[..4] == "data" && line[4] == ':' && line[5..] == v;
    ColonAt(line, 4);
    if v != "" { assert line[5] == v[0]; }
  }

  lemma {:induction false} LoosenedLine(line: string)
    ensures Loosened(line) == "" <==> TrimSpace(line) == ""
    ensures TrimSpace(line) != "" ==> (FieldName(Loosened(line)) == "data" <==> DATA <= line)
    ensures DATA <= line ==> TrimSpace(line) != "" && FieldValue(Loosened(line)) == TrimSpace(line[|DATA|..])
  {
    assert FieldName(":") == "";
    hide TrimSpace, FieldName, FieldValue, Tight;
    DataLine(line);
    if DATA <= line {
      var _, _ := Trimmed(line[|DATA|..]);
      DataField(TrimSpace(line[|DATA|..]));
    }
  }

  lemma {:induction false} LooseEvents(lines: seq<string>, buffer: seq<string>)
    requires AllClean(lines)
    ensures Events(lines, buffer) == Tidied(StandardEvents(AllLoosened(lines) + [""], buffer))
    decreases |lines|
  {
    hide Tidied, TrimSpace, Loosened, FieldName, FieldValue, JoinLines, StandardEvents, Events;
    var loose := AllLoosened(lines) + [""];
    StandardLine(loose, buffer);
    TidiedCons(JoinLines(buffer), StandardEvents(loose[1..], []));
    DispatchTidied(buffer);
    if lines == [] {
      NoStandard([], []);
      NoEvents(buffer);
    } else {
      var line, rest := lines[0], lines[1..];
      assert loose[0] == Loosened(line) && loose[1..] == AllLoosened(rest) + [""];
      CleanTail(lines);
      EventsLine(lines, buffer);
      LoosenedLine(line);
      if TrimSpace(line) == "" {
        LooseEvents(rest, []);
        var later := StandardEvents(loose[1..], []);
        assert [] + later == later && [] + Tidied(later) == Tidied(later);
      } else if DATA <= line {
        var v := TrimSpace(line[|DATA|..]);
        LooseEvents(rest, buffer + [v]);
      } else {
        LooseEvents(rest, buffer);
      }
    }
  }

  lemma {:induction false} NoEvents(buffer: seq<string>)
    ensures Events([], buffer) == Dispatch(buffer)
  {
  }

  lemma {:induction false} DispatchTidied(buffer: seq<string>)
    ensures Dispatch(buffer)
         == if buffer == [] || TrimSpace(JoinLines(buffer)) == "" then [] else [TrimSpace(JoinLines(buffer))]
  {
  }

  /**
   * Any lines ended by a line feed: the reader sees the trimmed events, less the empty ones, that the standard
   * would prescribe for the loosened lines, closed by a blank line.
   */
  lemma {:induction false} ReaderIsLooseStandard(raws: seq<string>)
    requires AllClean(Contents(raws))
    ensures Events(raws, []) == Tidied(StandardEvents(AllLoosened(Contents(raws)) + [""], []))
  {
    SameContents(raws, []);
    LooseEvents(Contents(raws), []);
  }

  /**
   * The reader sees exactly the events the standard prescribes if and only if, in every event that the standard
   * delimits, each data line has a colon and a value without outer white space, the first and the last value are
   * not empty, and no line of white space breaks them up; and what is left unfinished holds no value.
   */
  lemma {:induction false} ReaderFollowsStandardIff(raws: seq<string>)
    requires AllClean(Contents(raws))
    ensures Events(raws, []) == StandardEvents(Contents(raws), []) <==> AllAgree(Contents(raws))
  {
    SameContents(raws, []);
    AgreeIff(Contents(raws));
  }
}
