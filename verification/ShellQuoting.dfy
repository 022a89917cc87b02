/** Tokens quoted for command lines, against a reader of the quoting rules in section 2.2 of the POSIX
    Shell Command Language. */
module ShellQuoting {
  import opened Options
  import opened Readers

  // ---------- quoting ----------

  predicate SafeChar(c: char) {
    'A' <= c <= 'Z' || 'a' <= c <= 'z' || '0' <= c <= '9' || c in "_./:@=-"
  }

  predicate SafeWord(s: string) {
    s != "" && forall i | 0 <= i < |s| :: SafeChar(s[i])
  }

  /** Every quote becomes: close, escaped quote, open. */
  function EscapeQuotes(s: string): string {
    if s == "" then "" else (if s[0] == '\'' then "'\\''" else [s[0]]) + EscapeQuotes(s[1..])
  }

  /** The command store quotes every token. */
  function QuotedToken(value: string): string {
    "'" + EscapeQuotes(value) + "'"
  }

  /** The approval queue leaves plain words as they are. */
  function ShellToken(value: string): string {
    if SafeWord(value) then value else QuotedToken(value)
  }

  // ---------- reading ----------

  datatype Mode = Plain | Escaped | Single | Double | DoubleEscaped

  /** `word` is the word being read, if one has begun. */
  datatype Reader = Reader(mode: Mode, word: Option<string>, words: seq<string>)

  const START := Reader(Plain, None, [])

  function Text(r: Reader): string {
    if r.word.Some? then r.word.value else ""
  }

  function Take(r: Reader, c: char, mode: Mode): Reader {
    r.(mode := mode, word := Some(Text(r) + [c]))
  }

  function EndWord(r: Reader): Reader {
    if r.word.Some? then Reader(Plain, None, r.words + [r.word.value]) else r
  }

  /** One character; `None` where the text is not a list of literal words (an operator, an expansion,
      a pattern, a comment or a tilde). */
  function ReadChar(r: Reader, c: char): Option<Reader> {
    match r.mode
    case Plain =>
      if c == '\'' then Some(r.(mode := Single, word := Some(Text(r))))
      else if c == '"' then Some(r.(mode := Double, word := Some(Text(r))))
      else if c == '\\' then Some(r.(mode := Escaped))
      else if c in " \t\n" then Some(EndWord(r))
      else if c in "|&;<>()$`*?[" || (c in "#~" && r.word.None?) then None
      else Some(Take(r, c, Plain))
    case Escaped => if c == '\n' then Some(r.(mode := Plain)) else Some(Take(r, c, Plain))
    case Single => if c == '\'' then Some(r.(mode := Plain)) else Some(Take(r, c, Single))
    case Double =>
      if c == '"' then Some(r.(mode := Plain))
      else if c == '\\' then Some(r.(mode := DoubleEscaped))
      else if c in "$`" then None
      else Some(Take(r, c, Double))
    case DoubleEscaped =>
      if c == '\n' then Some(r.(mode := Double))
      else if c in "$`\"\\" then Some(Take(r, c, Double))
      else Some(Take(Take(r, '\\', Double), c, Double))
  }

  function ReadFrom(r: Reader, s: string): Option<Reader> {
    ReadAll(ReadChar, r, s)
  }

  /** The words of a command line, when every quote is closed and every word is literal. */
  function Words(s: string): Option<seq<string>> {
    match ReadFrom(START, s)
    case Some(r) => if r.mode.Plain? then Some(EndWord(r).words) else None
    case None => None
  }

  // ---------- reading back what was quoted ----------

  /** The reader with `s` added to its current word. */
  function Extended(r: Reader, s: string): Reader {
    Reader(Plain, Some(Text(r) + s), r.words)
  }

  lemma ReadOne(r: Reader, c: char, rest: string)
    requires ReadChar(r, c).Some?
    ensures ReadFrom(r, [c] + rest) == ReadFrom(ReadChar(r, c).value, rest)
  {
    assert ([c] + rest)[1..] == rest;
  }

  lemma QuoteSequence(r: Reader)
    requires r.mode.Single?
    ensures ReadFrom(r, "'\\''") == Some(r.(word := Some(Text(r) + "'")))
  {
    var r1 := r.(mode := Plain);
    var r2 := r.(mode := Escaped);
    var r3 := Take(r2, '\'', Plain);
    var r4 := r3.(mode := Single);
    ReadOne(r3, '\'', "");
    ReadOne(r2, '\'', "'");
    ReadOne(r1, '\\', "''");
    ReadOne(r, '\'', "\\''");
    assert ReadFrom(r4, "") == Some(r4);
  }

  lemma {:induction false} InsideQuotes(r: Reader, s: string)
    requires r.mode.Single? && r.word.Some?
    ensures ReadFrom(r, EscapeQuotes(s)) == Some(r.(word := Some(r.word.value + s)))
    decreases |s|
  {
    if s == "" {
      assert r.word.value + s == r.word.value;
    } else {
      var head := if s[0] == '\'' then "'\\''" else [s[0]];
      var next := r.(word := Some(r.word.value + [s[0]]));
      if s[0] == '\'' {
        QuoteSequence(r);
      } else {
        ReadSingle(ReadChar, r, s[0]);
      }
      assert ReadFrom(r, head) == Some(next);
      ReadConcat(ReadChar, r, head, EscapeQuotes(s[1..]));
      InsideQuotes(next, s[1..]);
      assert r.word.value + s == next.word.value + s[1..];
    }
  }

  lemma QuotedTokenExtends(r: Reader, value: string)
    requires r.mode.Plain?
    ensures ReadFrom(r, QuotedToken(value)) == Some(Extended(r, value))
  {
    var open := r.(mode := Single, word := Some(Text(r)));
    var body := open.(word := Some(Text(r) + value));
    assert ReadFrom(r, "'") == Some(open) by { assert "'"[1..] == ""; }
    assert ReadFrom(body, "'") == Some(Extended(r, value)) by { assert "'"[1..] == ""; }
    InsideQuotes(open, value);
    ReadConcat(ReadChar, open, EscapeQuotes(value), "'");
    ReadConcat(ReadChar, r, "'", EscapeQuotes(value) + "'");
    assert QuotedToken(value) == "'" + (EscapeQuotes(value) + "'");
  }

  lemma {:induction false} SafeWordExtends(r: Reader, value: string)
    requires r.mode.Plain? && SafeWord(value)
    ensures ReadFrom(r, value) == Some(Extended(r, value))
    decreases |value|
  {
    assert SafeChar(value[0]);
    var next := Take(r, value[0], Plain);
    assert ReadChar(r, value[0]) == Some(next);
    HeadThenTail(Text(r), value);
    if |value| == 1 {
      assert value[1..] == "" && ReadFrom(next, "") == Some(next);
    } else {
      SafeWordExtends(next, value[1..]);
    }
  }

  /** Wherever a token stands in a command line, it adds exactly its value to the current word. */
  lemma TokenExtends(r: Reader, value: string)
    requires r.mode.Plain?
    ensures ReadFrom(r, ShellToken(value)) == Some(Extended(r, value))
    ensures ReadFrom(r, QuotedToken(value)) == Some(Extended(r, value))
  {
    QuotedTokenExtends(r, value);
    if SafeWord(value) {
      SafeWordExtends(r, value);
    }
  }

  /** A letter, a digit or one of these signs. */
  predicate NeedsNoQuotes(c: char) {
    || ('a' <= c <= 'z') || ('A' <= c <= 'Z') || ('0' <= c <= '9')
    || c == '_' || c == '.' || c == '/' || c == ':' || c == '@' || c == '=' || c == '-'
  }

  lemma NoQuotesAreSafe(c: char)
    requires NeedsNoQuotes(c)
    ensures SafeChar(c)
  {
    var signs := "_./:@=-";
    assert signs[0] == '_' && signs[1] == '.' && signs[2] == '/' && signs[3] == ':' && signs[4] == '@'
      && signs[5] == '=' && signs[6] == '-';
  }

  /** Either token, read on its own, is one word equal to the input; a word that needs no quotes gets none. */
  lemma TokenIsOneWord(value: string)
    ensures Words(ShellToken(value)) == Some([value])
    ensures Words(QuotedToken(value)) == Some([value])
    ensures value != "" && (forall c | c in value :: NeedsNoQuotes(c)) ==> ShellToken(value) == value
  {
    TokenExtends(START, value);
    if forall c | c in value :: NeedsNoQuotes(c) {
      forall i | 0 <= i < |value| ensures SafeChar(value[i]) {
        NoQuotesAreSafe(value[i]);
      }
    }
    assert "" + value == value;
    assert EndWord(Extended(START, value)).words == [value];
  }

  function CommandLine(values: seq<string>): string {
    if values == [] then ""
    else if |values| == 1 then ShellToken(values[0])
    else CommandLine(values[..|values| - 1]) + " " + ShellToken(values[|values| - 1])
  }

  lemma BlankEndsWord(words: seq<string>, word: string, next: string)
    ensures ReadFrom(Reader(Plain, Some(word), words), " " + next)
         == ReadFrom(Reader(Plain, None, words + [word]), next)
  {
    ReadOne(Reader(Plain, Some(word), words), ' ', next);
  }

  lemma NextWord(words: seq<string>, word: string, value: string)
    ensures ReadFrom(Reader(Plain, Some(word), words), " " + ShellToken(value))
         == Some(Reader(Plain, Some(value), words + [word]))
  {
    BlankEndsWord(words, word, ShellToken(value));
    TokenExtends(Reader(Plain, None, words + [word]), value);
    assert "" + value == value;
  }

  lemma LineGrows(values: seq<string>)
    requires |values| >= 2
    ensures var n := |values| - 1;
      CommandLine(values) == CommandLine(values[..n]) + (" " + ShellToken(values[n]))
  {
  }

  lemma InitLast(values: seq<string>)
    requires values != []
    ensures values[..|values| - 1] + [values[|values| - 1]] == values
  {
  }

  lemma {:induction false} LineReads(values: seq<string>)
    requires values != []
    ensures ReadFrom(START, CommandLine(values))
         == Some(Reader(Plain, Some(values[|values| - 1]), values[..|values| - 1]))
  {
    var n := |values| - 1;
    var init, last := values[..n], values[n];
    if n == 0 {
      TokenExtends(START, last);
      assert "" + last == last;
    } else {
      LineReads(init);
      NextWord(init[..n - 1], init[n - 1], last);
      ReadConcat(ReadChar, START, CommandLine(init), " " + ShellToken(last));
      LineGrows(values);
      InitLast(init);
    }
  }

  /** A command line of tokens reads back as exactly the values it was built from. */
  lemma CommandLineRoundTrip(values: seq<string>)
    ensures Words(CommandLine(values)) == Some(values)
  {
    if values != [] {
      var n := |values| - 1;
      LineReads(values);
      EndsWith(values[..n], values[n]);
      InitLast(values);
    }
  }

  lemma EndsWith(words: seq<string>, word: string)
    ensures EndWord(Reader(Plain, Some(word), words)).words == words + [word]
  {
  }
}
