/**
 * The two single-quoting functions, against a reader of shell words that follows the quoting rules of POSIX.1
 * (IEEE Std 1003.1), Shell Command Language, sections 2.2.1 to 2.2.3.
 */
module ShellQuoting {
  import opened Wrappers

  /** strings.ReplaceAll(s, "'", sub) */
  function ReplaceQuotes(s: string, sub: string): string {
    if s == "" then "" else (if s[0] == '\'' then sub else [s[0]]) + ReplaceQuotes(s[1..], sub)
  }

  /** shellEscape of cmd/xrunner/runbook.go: a quote becomes '"'"' */
  function ShellEscape(value: string): string {
    if value == "" then "''" else "'" + ReplaceQuotes(value, "'\"'\"'") + "'"
  }

  /** shellQuoteSingle of internal/remote/shell.go: a quote becomes '\'' */
  function ShellQuoteSingle(s: string): string {
    if s == "" then "''" else "'" + ReplaceQuotes(s, "'\\''") + "'"
  }

  datatype Mode = Plain | InSingle | InDouble

  /** The word read, and the input from the character that ended it. */
  datatype Word = Word(text: string, rest: string)

  /** Blanks, newlines and operator characters end an unquoted word. */
  predicate EndsWord(c: char) {
    c in {' ', '\t', '\n', '|', '&', ';', '<', '>', '(', ')'}
  }

  /** Characters that, unquoted, start an expansion, a pattern, a comment or the like: this reader gives up on them. */
  predicate Special(c: char) {
    c in {'$', '`', '*', '?', '[', ']', '#', '~', '=', '%', '!', '{', '}', '\0'}
  }

  /**
   * Reads one word. Section 2.2.1: a backslash keeps the next character, and a backslash and newline vanish.
   * Section 2.2.2: single quotes keep everything up to the next single quote. Section 2.2.3: double quotes keep
   * everything but $ ` and backslash. None is an unfinished quote, or something this reader gives up on.
   */
  function ReadWord(s: string, mode: Mode, sofar: string): Option<Word>
    decreases |s|
  {
    if s == "" then (if mode == Plain then Some(Word(sofar, "")) else None)
    else
      var c := s[0];
      match mode
      case InSingle =>
        if c == '\'' then ReadWord(s[1..], Plain, sofar)
        else if c == '\0' then None
        else ReadWord(s[1..], InSingle, sofar + [c])
      case InDouble =>
        if c == '"' then ReadWord(s[1..], Plain, sofar)
        else if c == '$' || c == '`' || c == '\0' then None
        else if c == '\\' then
          (if |s| == 1 then None
           else if s[1] == '\n' then ReadWord(s[2..], InDouble, sofar)
           else if s[1] in {'$', '`', '"', '\\'} then ReadWord(s[2..], InDouble, sofar + [s[1]])
           else ReadWord(s[1..], InDouble, sofar + [c]))
        else ReadWord(s[1..], InDouble, sofar + [c])
      case Plain =>
        if c == '\'' then ReadWord(s[1..], InSingle, sofar)
        else if c == '"' then ReadWord(s[1..], InDouble, sofar)
        else if c == '\\' then
          (if |s| == 1 then None
           else if s[1] == '\n' then ReadWord(s[2..], Plain, sofar)
           else if s[1] == '\0' then None
           else ReadWord(s[2..], Plain, sofar + [s[1]]))
        else if EndsWord(c) then Some(Word(sofar, s))
        else if Special(c) then None
        else ReadWord(s[1..], Plain, sofar + [c])
  }

  /** The reader's steps at a quote character or a backslash. */
  lemma {:induction false} QuoteSteps(rest: string, sofar: string)
    ensures ReadWord("'" + rest, InSingle, sofar) == ReadWord(rest, Plain, sofar)
    ensures ReadWord("'" + rest, Plain, sofar) == ReadWord(rest, InSingle, sofar)
    ensures ReadWord("\"" + rest, Plain, sofar) == ReadWord(rest, InDouble, sofar)
    ensures ReadWord("\"" + rest, InDouble, sofar) == ReadWord(rest, Plain, sofar)
    ensures ReadWord("'" + rest, InDouble, sofar) == ReadWord(rest, InDouble, sofar + "'")
    ensures ReadWord("\\'" + rest, Plain, sofar) == ReadWord(rest, Plain, sofar + "'")
  {
    assert ("'" + rest)[1..] == rest && ("\"" + rest)[1..] == rest && ("\\'" + rest)[2..] == rest;
    assert ['\''] == "'";
  }

  /** How a quote inside the value reads: out of the quotes, one literal quote, and back in. */
  lemma {:induction false} EscapedQuote(rest: string, sofar: string)
    ensures ReadWord("'\"'\"'" + rest, InSingle, sofar) == ReadWord(rest, InSingle, sofar + "'")
    ensures ReadWord("'\\''" + rest, InSingle, sofar) == ReadWord(rest, InSingle, sofar + "'")
  {
    hide ReadWord;
    var r1 := "'" + rest;
    var r2 := "\"" + r1;
    var r3 := "'" + r2;
    var r4 := "\"" + r3;
    assert "'\"'\"'" + rest == "'" + r4;
    QuoteSteps(r4, sofar);
    QuoteSteps(r3, sofar);
    QuoteSteps(r2, sofar);
    QuoteSteps(r1, sofar + "'");
    QuoteSteps(rest, sofar + "'");
    var b := "\\'" + r1;
    assert "'\\''" + rest == "'" + b;
    QuoteSteps(b, sofar);
    QuoteSteps(r1, sofar);
  }

  lemma {:induction false} QuotedBody(s: string, sub: string, tail: string, sofar: string)
    requires sub == "'\"'\"'" || sub == "'\\''"
    requires '\0' !in s
    ensures ReadWord(ReplaceQuotes(s, sub) + "'" + tail, InSingle, sofar) == ReadWord(tail, Plain, sofar + s)
    decreases |s|
  {
    var body := ReplaceQuotes(s, sub) + "'" + tail;
    if s == "" {
      assert body[1..] == tail && sofar + s == sofar;
    } else {
      var more := ReplaceQuotes(s[1..], sub) + "'" + tail;
      assert sofar + [s[0]] + s[1..] == sofar + s;
      QuotedBody(s[1..], sub, tail, sofar + [s[0]]);
      if s[0] == '\'' {
        assert body == sub + more;
        EscapedQuote(more, sofar);
        assert sofar + "'" == sofar + [s[0]];
      } else {
        assert body[0] == s[0] && body[1..] == more;
      }
    }
  }

  /** The end of the input, or a character that ends a word. */
  predicate WordBoundary(tail: string) {
    tail == "" || EndsWord(tail[0])
  }

  /**
   * Quoting round trip: any string without NUL is quoted so that the reader takes it in whole, with nothing
   * added, and stands right behind the closing quote. Before the end of the input, or a character that ends a
   * word, it is one shell word.
   */
  lemma {:induction false} QuotedReads(s: string, sub: string, tail: string)
    requires sub == "'\"'\"'" || sub == "'\\''"
    requires '\0' !in s
    ensures ReadWord("'" + ReplaceQuotes(s, sub) + "'" + tail, Plain, "") == ReadWord(tail, Plain, s)
    ensures WordBoundary(tail) ==> ReadWord(tail, Plain, s) == Some(Word(s, tail))
  {
    var body := ReplaceQuotes(s, sub) + "'" + tail;
    assert "'" + ReplaceQuotes(s, sub) + "'" + tail == "'" + body;
    QuoteSteps(body, "");
    QuotedBody(s, sub, tail, "");
    assert "" + s == s;
  }

  lemma {:induction false} QuotingRoundTrip(s: string, tail: string)
    requires '\0' !in s
    ensures ReadWord(ShellEscape(s) + tail, Plain, "") == ReadWord(tail, Plain, s)
    ensures ReadWord(ShellQuoteSingle(s) + tail, Plain, "") == ReadWord(tail, Plain, s)
    ensures WordBoundary(tail) ==> ReadWord(ShellEscape(s) + tail, Plain, "") == Some(Word(s, tail))
    ensures WordBoundary(tail) ==> ReadWord(ShellQuoteSingle(s) + tail, Plain, "") == Some(Word(s, tail))
  {
    hide ReadWord;
    QuotedReads(s, "'\"'\"'", tail);
    QuotedReads(s, "'\\''", tail);
    assert ReplaceQuotes("", "'\"'\"'") == ReplaceQuotes("", "'\\''") == "";
    assert "'" + "" + "'" == "''";
  }

  /** No two strings share a quoted form. */
  lemma {:induction false} QuotingIsInjective(s: string, t: string)
    requires '\0' !in s && '\0' !in t
    ensures ShellEscape(s) == ShellEscape(t) ==> s == t
    ensures ShellQuoteSingle(s) == ShellQuoteSingle(t) ==> s == t
  {
    hide ReadWord;
    QuotingRoundTrip(s, "");
    QuotingRoundTrip(t, "");
  }
}
