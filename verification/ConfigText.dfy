/**
 Configuration text printed as lexemes, and the scanner that reads it back:
 what is printed is what is scanned, and everything scanned can be printed.
 */
module ConfigText {
  import opened Prelude
  import opened ConfigLexer

  // ---------------------------------------------------------------- lexemes and what lies between them

  /** A name, keyword or number; a delimited value; the end of a line with a `#` note before it. */
  datatype Lexeme =
    | Plain(text: Text)
    | Quoted(delim: Octet, text: Text)
    | NewLine(note: Option<Text>, crlf: bool)

  /** What may stand between two lexemes. */
  datatype Filler = Blank(c: Octet) | Comment(text: Text)

  datatype Item = Item(gap: seq<Filler>, lexeme: Lexeme)

  /** No delimiter that does not follow a backslash, and no backslash at the end. */
  predicate Closes(delim: Next, last: Next, text: Text) {
    (forall i :: 0 <= i < |text| && text[i] as int == delim ==> Before(last, text, i) == BACKSLASH) &&
    Before(last, text, |text|) != BACKSLASH
  }

  /** The character before position `i` of a text that comes after `last`. */
  function Before(last: Next, text: Text, i: nat): Next
    requires i <= |text|
  {
    if i == 0 then last else text[i - 1] as int
  }

  predicate AllWord(text: Text) {
    forall i :: 0 <= i < |text| ==> IsWord(text[i] as int)
  }

  predicate NoLineEnd(text: Text) {
    forall i :: 0 <= i < |text| ==> !IsLineEnd(text[i] as int)
  }

  predicate LegalLexeme(l: Lexeme) {
    match l
    case Plain(text) =>
      text != [] && (IsAlpha(text[0] as int) || IsDigit(text[0] as int)) &&
      AllWord(text)
    case Quoted(delim, text) =>
      IsDelim(delim as int) && Closes(delim as int, -1, text) && !(delim == '/' && text != [] && text[0] == '*')
    case NewLine(note, _) =>
      note.Some? ==> NoLineEnd(note.value)
  }

  /** `text` does not close the block comment it is in. */
  predicate StaysOpen(text: Text) {
    forall i :: 0 <= i < |text| - 1 && text[i] == '*' ==> text[i + 1] != '/'
  }

  predicate LegalFiller(f: Filler) {
    match f
    case Blank(c) => IsBlank(c as int)
    case Comment(text) => StaysOpen("*" + text)
  }

  predicate LegalGap(gap: seq<Filler>) {
    forall f :: f in gap ==> LegalFiller(f)
  }

  predicate LegalItems(items: seq<Item>) {
    forall item :: item in items ==> LegalGap(item.gap) && LegalLexeme(item.lexeme)
  }

  // ---------------------------------------------------------------- printing

  function PrintNote(note: Option<Text>): Text {
    if note.None? then [] else "#" + note.value
  }

  function Print(l: Lexeme): Text {
    match l
    case Plain(text) => text
    case Quoted(delim, text) => [delim] + text + [delim]
    case NewLine(note, crlf) => PrintNote(note) + if crlf then "\r\n" else "\n"
  }

  function PrintFiller(f: Filler): Text {
    match f
    case Blank(c) => [c]
    case Comment(text) => "/*" + text + "*/"
  }

  function PrintGap(gap: seq<Filler>): Text {
    if gap == [] then [] else PrintFiller(gap[0]) + PrintGap(gap[1..])
  }

  /** Each lexeme after its gap, and followed by a space; then what follows the last one. */
  function PrintItems(items: seq<Item>, ending: Text): Text {
    if items == [] then ending
    else PrintGap(items[0].gap) + (Print(items[0].lexeme) + (" " + PrintItems(items[1..], ending)))
  }

  /** The token a lexeme stands for. */
  function Meaning(l: Lexeme): (Token, Text) {
    match l
    case Plain(text) => (if text != [] && IsAlpha(text[0] as int) then Keyword(text) else Value, text)
    case Quoted(_, text) => (Value, text)
    case NewLine(_, _) => (End, "LF")
  }

  function Meanings(items: seq<Item>): seq<(Token, Text)> {
    if items == [] then [] else [Meaning(items[0].lexeme)] + Meanings(items[1..])
  }

  // ---------------------------------------------------------------- streams at a text

  /** The stream whose current character is the first of `s`. */
  function At(s: Text): Stream {
    if s == [] then Stream(EOF, [], true) else Stream(s[0] as int, s[1..], false)
  }

  lemma {:induction false} AdvanceAt(c: Octet, s: Text)
    ensures At([c] + s).cur == c as int && Advance(At([c] + s)) == At(s)
  {
    assert ([c] + s)[1..] == s;
  }

  lemma {:induction false} PeekAt(c: Octet, d: Octet, s: Text)
    ensures Peek(At([c] + ([d] + s))) == (d as int, At([c] + ([d] + s)))
  {
    assert ([c] + ([d] + s))[1..] == [d] + s;
  }

  // ---------------------------------------------------------------- gaps

  lemma {:induction false} BlankSkipped(c: Octet, s: Text)
    requires IsBlank(c as int)
    ensures ConsumeSpace(At([c] + s)) == ConsumeSpace(At(s))
  {
  }

  lemma {:induction false} BlockSkipped(text: Text, s: Text)
    requires StaysOpen(text)
    ensures SkipBlock(At(text + "*/" + s)) == (true, At(s))
    decreases |text|
  {
    if text == [] {
      assert text + "*/" + s == "*" + ("/" + s);
      AdvanceAt('*', "/" + s);
      AdvanceAt('/', s);
      PeekAt('*', '/', s);
    } else {
      var after := text[1..] + "*/" + s;
      assert text + "*/" + s == [text[0]] + after;
      AdvanceAt(text[0], after);
      assert after == [after[0]] + after[1..];
      PeekAt(text[0], after[0], after[1..]);
      if text[0] == '*' && |text| > 1 { assert after[0] == text[1]; }
      BlockSkipped(text[1..], s);
    }
  }

  lemma {:induction false} CommentSkipped(text: Text, s: Text)
    requires StaysOpen("*" + text)
    ensures ConsumeSpace(At("/*" + text + "*/" + s)) == ConsumeSpace(At(s))
  {
    var inside := text + "*/" + s;
    assert "/*" + text + "*/" + s == "/" + ("*" + inside);
    assert "*" + inside == "*" + text + "*/" + s;
    AdvanceAt('/', "*" + inside);
    PeekAt('/', '*', inside);
    BlockSkipped("*" + text, s);
    var st := At("/" + ("*" + inside));
    assert SkipBlanks(st) == (AtText, st);
  }

  lemma {:induction false} GapSkipped(gap: seq<Filler>, s: Text)
    requires LegalGap(gap)
    ensures ConsumeSpace(At(PrintGap(gap) + s)) == ConsumeSpace(At(s))
    decreases |gap|
  {
    hide ConsumeSpace, At, StaysOpen, IsBlank;
    if gap == [] {
      assert PrintGap(gap) + s == s;
    } else {
      var after := PrintGap(gap[1..]) + s;
      assert PrintGap(gap) + s == PrintFiller(gap[0]) + after;
      assert LegalFiller(gap[0]);
      GapSkipped(gap[1..], s);
      match gap[0]
      case Blank(c) => BlankSkipped(c, after);
      case Comment(text) => CommentSkipped(text, after);
    }
  }

  lemma {:induction false} SameToken(st: Stream, st': Stream)
    requires ConsumeSpace(st) == ConsumeSpace(st')
    ensures NextToken(st) == NextToken(st') && Tokens(st) == Tokens(st')
  {
    hide ConsumeSpace, ConsumeEndOfLine, ParseString, Word;
  }

  // ---------------------------------------------------------------- notes and line ends

  lemma {:induction false} LineSkipped(text: Text, s: Text)
    requires NoLineEnd(text) && (s == [] || IsLineEnd(s[0] as int))
    ensures SkipLine(At(text + s)) == (s != [], At(s))
    decreases |text|
  {
    if text == [] {
      assert text + s == s;
    } else {
      assert text + s == [text[0]] + (text[1..] + s);
      AdvanceAt(text[0], text[1..] + s);
      LineSkipped(text[1..], s);
    }
  }

  lemma {:induction false} NoteSkipped(note: Option<Text>, s: Text)
    requires note.Some? ==> NoLineEnd(note.value)
    requires s == [] || IsLineEnd(s[0] as int)
    ensures ConsumeSpace(At(PrintNote(note) + s)) == (s != [], At(s))
  {
    if note.None? {
      assert PrintNote(note) + s == s;
    } else {
      assert PrintNote(note) + s == "#" + (note.value + s);
      AdvanceAt('#', note.value + s);
      LineSkipped(note.value, s);
      var st := At("#" + (note.value + s));
      assert SkipBlanks(st) == (AtText, st);
    }
  }

  function PrintBreak(crlf: bool): Text {
    if crlf then "\r\n" else "\n"
  }

  /** Line ends in a row, each LF or CR LF. */
  function PrintBreaks(crlfs: seq<bool>): Text {
    if crlfs == [] then [] else PrintBreak(crlfs[0]) + PrintBreaks(crlfs[1..])
  }

  predicate BeginsBreak(s: Text) {
    s != [] && (s[0] == '\n' || (s[0] == '\r' && |s| > 1 && s[1] == '\n'))
  }

  /** The stream at `s` after the scanner looked for a line end there. */
  function Looked(s: Text): Stream {
    if s == "\r" then At(s).(eofBit := true) else At(s)
  }

  /** All line ends in a row are taken at once, up to a character that begins none. */
  lemma {:induction false} LineEndsTaken(crlfs: seq<bool>, s: Text)
    requires !BeginsBreak(s)
    ensures ConsumeEndOfLine(At(PrintBreaks(crlfs) + s)) == (crlfs != [], Looked(s))
    decreases |crlfs|
  {
    hide ConsumeEndOfLine, At, Looked, BeginsBreak, PrintBreak;
    if crlfs == [] {
      assert PrintBreaks(crlfs) + s == s;
      NoBreakTaken(s);
    } else {
      var after := PrintBreaks(crlfs[1..]) + s;
      assert PrintBreaks(crlfs) + s == PrintBreak(crlfs[0]) + after;
      LineEndsTaken(crlfs[1..], s);
      OneBreakTaken(crlfs[0], after);
    }
  }

  lemma {:induction false} NoBreakTaken(s: Text)
    requires !BeginsBreak(s)
    ensures ConsumeEndOfLine(At(s)) == (false, Looked(s))
  {
  }

  lemma {:induction false} OneBreakTaken(crlf: bool, after: Text)
    ensures ConsumeEndOfLine(At(PrintBreak(crlf) + after)) == (true, ConsumeEndOfLine(At(after)).1)
  {
    AdvanceAt('\n', after);
    if crlf {
      assert PrintBreak(crlf) + after == ['\r'] + (['\n'] + after);
      AdvanceAt('\r', ['\n'] + after);
      PeekAt('\r', '\n', after);
    }
  }

  // ---------------------------------------------------------------- words

  /** No word goes on in `s`. */
  predicate WordEnds(s: Text) {
    s == [] || !IsWord(s[0] as int)
  }

  lemma {:induction false} WordTaken(text: Text, s: Text)
    requires AllWord(text)
    requires WordEnds(s)
    ensures WordTail(At(text + s)) == (text, At(s))
    decreases |text|
  {
    if text == [] {
      assert text + s == s;
    } else {
      assert text + s == [text[0]] + (text[1..] + s);
      AdvanceAt(text[0], text[1..] + s);
      WordTaken(text[1..], s);
      assert text == [text[0]] + text[1..];
    }
  }

  /** Where the scanner stays when the current character begins a token. */
  lemma {:induction false} TextBegins(s: Text)
    requires s != [] && IsPrint(s[0] as int) && !IsSpace(s[0] as int) && s[0] != '#'
    requires s[0] == '/' ==> |s| > 1 && s[1] != '*'
    ensures ConsumeSpace(At(s)) == (true, At(s)) && ConsumeEndOfLine(At(s)) == (false, At(s))
  {
    assert SkipBlanks(At(s)) == (AtText, At(s));
  }

  lemma {:induction false} PlainScanned(text: Text, s: Text)
    requires LegalLexeme(Plain(text)) && WordEnds(s)
    ensures NextToken(At(text + s)) == Lexed(Meaning(Plain(text)).0, text, At(s))
  {
    hide ConsumeSpace, ConsumeEndOfLine, ParseString, Keyword;
    var whole := text + s;
    TextBegins(whole);
    assert text == [text[0]] + text[1..];
    assert whole == [text[0]] + (text[1..] + s);
    AdvanceAt(text[0], text[1..] + s);
    WordTaken(text[1..], s);
    assert Word(At(whole)) == (text, At(s));
  }

  /** Which words are keywords, names and values; a word goes on up to the first character that is none of a word. */
  lemma {:induction false} WordsScanned(text: Text, s: Text)
    requires LegalLexeme(Plain(text)) && WordEnds(s)
    ensures var r := NextToken(At(text + s));
            && r.text == text && r.next == At(s)
            && (r.token == Event <==> text == "event")
            && (r.token == Source <==> text == "source")
            && (r.token == Output <==> text == "output")
            && (r.token == Plugin <==> text == "plugin")
            && (r.token == Value <==> IsDigit(text[0] as int))
            && (r.token == Name <==>
                  && IsAlpha(text[0] as int)
                  && text != "event" && text != "source" && text != "output" && text != "plugin")
  {
    hide NextToken, At, AllWord;
    PlainScanned(text, s);
  }

  // ---------------------------------------------------------------- quoted values

  lemma {:induction false} QuoteTaken(delim: Octet, last: Next, text: Text, s: Text)
    requires Closes(delim as int, last, text)
    ensures Quote(At(text + ([delim] + s)), delim as int, last) == (text, At([delim] + s))
    decreases |text|
  {
    var after := [delim] + s;
    if text == [] {
      assert text + after == after;
    } else {
      var c, tail := text[0], text[1..];
      assert text == [c] + tail;
      assert text + after == [c] + (tail + after);
      AdvanceAt(c, tail + after);
      ClosesTail(delim as int, last, text);
      QuoteTaken(delim, c as int, tail, s);
      assert c as int == delim as int ==> Before(last, text, 0) == BACKSLASH;
    }
  }

  lemma {:induction false} ClosesTail(delim: Next, last: Next, text: Text)
    requires text != [] && Closes(delim, last, text)
    ensures Closes(delim, text[0] as int, text[1..])
  {
  }

  /** What `Quote` returns before a delimiter always has the form of a quoted value. */
  lemma {:induction false} QuoteCloses(st: Stream, delim: Next, last: Next)
    requires st.eofBit ==> st.cur == EOF
    requires delim != EOF && Quote(st, delim, last).1.cur == delim
    ensures Closes(delim, last, Quote(st, delim, last).0)
    decreases Left(st)
  {
    var (text, st') := Quote(st, delim, last);
    if text != [] {
      QuoteCloses(Advance(st), delim, st.cur);
      var tail := text[1..];
      assert tail == Quote(Advance(st), delim, st.cur).0;
      forall i | 0 <= i < |text| && text[i] as int == delim ensures Before(last, text, i) == BACKSLASH {
        if i > 0 {
          assert tail[i - 1] as int == delim;
          assert Before(last, text, i) == Before(st.cur, tail, i - 1);
        }
      }
    }
  }

  /**
   A text in delimiters is read back exactly when it holds no delimiter that
   does not follow a backslash and does not end in a backslash.
   */
  lemma {:induction false} QuotedExactly(delim: Octet, text: Text, s: Text)
    ensures
      ParseString(At([delim] + (text + ([delim] + s)))) == Lexed(Value, text, At(s)) <==>
        Closes(delim as int, -1, text)
  {
    hide Quote, Closes;
    AdvanceAt(delim, text + ([delim] + s));
    AdvanceAt(delim, s);
    var st := At(text + ([delim] + s));
    if Closes(delim as int, -1, text) {
      QuoteTaken(delim, -1, text, s);
    }
    if Quote(st, delim as int, -1).1.cur == delim as int {
      QuoteCloses(st, delim as int, -1);
    }
  }

  lemma {:induction false} QuotedScanned(delim: Octet, text: Text, s: Text)
    requires LegalLexeme(Quoted(delim, text))
    ensures NextToken(At([delim] + text + [delim] + s)) == Lexed(Value, text, At(s))
  {
    hide ConsumeSpace, ConsumeEndOfLine, ParseString, Word, Closes;
    var whole := [delim] + (text + ([delim] + s));
    assert [delim] + text + [delim] + s == whole;
    assert whole[1] == if text == [] then delim else text[0];
    TextBegins(whole);
    QuotedExactly(delim, text, s);
  }

  // ---------------------------------------------------------------- the round trip

  /** A note and all the line ends behind it are one token. */
  lemma {:induction false} LineEndsScanned(note: Option<Text>, crlfs: seq<bool>, s: Text)
    requires crlfs != [] && !BeginsBreak(s) && LegalLexeme(NewLine(note, crlfs[0]))
    ensures NextToken(At(PrintNote(note) + (PrintBreaks(crlfs) + s))) == Lexed(End, "LF", Looked(s))
  {
    hide ConsumeSpace, ConsumeEndOfLine, ParseString, Word, At, PrintNote, Looked, BeginsBreak;
    BreakBegins(crlfs, s);
    NoteSkipped(note, PrintBreaks(crlfs) + s);
    LineEndsTaken(crlfs, s);
  }

  lemma {:induction false} BreakBegins(crlfs: seq<bool>, s: Text)
    requires crlfs != []
    ensures var breaks := PrintBreaks(crlfs) + s;
            breaks != [] && IsLineEnd(breaks[0] as int)
  {
  }

  /** What may follow a lexeme that ends where it ends. */
  predicate Ends(l: Lexeme, s: Text) {
    match l
    case Plain(_) => WordEnds(s)
    case Quoted(_, _) => true
    case NewLine(_, _) => !BeginsBreak(s) && s != "\r"
  }

  lemma {:induction false} LexemeScanned(l: Lexeme, s: Text)
    requires LegalLexeme(l) && Ends(l, s)
    ensures NextToken(At(Print(l) + s)) == Lexed(Meaning(l).0, Meaning(l).1, At(s))
  {
    hide NextToken, Closes, Keyword, At, PrintNote, BeginsBreak;
    match l
    case Plain(text) => PlainScanned(text, s);
    case Quoted(delim, text) => QuotedScanned(delim, text, s);
    case NewLine(note, crlf) =>
      assert PrintBreaks([crlf]) == PrintBreak(crlf) + [] == PrintBreak(crlf);
      assert Print(l) + s == PrintNote(note) + (PrintBreaks([crlf]) + s);
      LineEndsScanned(note, [crlf], s);
  }

  lemma {:induction false} SpaceEnds(l: Lexeme, s: Text)
    ensures Ends(l, " " + s)
  {
  }

  lemma {:induction false} ItemScanned(item: Item, s: Text)
    requires LegalGap(item.gap) && LegalLexeme(item.lexeme)
    ensures
      Tokens(At(PrintGap(item.gap) + (Print(item.lexeme) + (" " + s)))) ==
        [Meaning(item.lexeme)] + Tokens(At(s))
  {
    hide ConsumeSpace, NextToken, At, LegalGap, LegalLexeme;
    var printed := Print(item.lexeme) + (" " + s);
    GapSkipped(item.gap, printed);
    SameToken(At(PrintGap(item.gap) + printed), At(printed));
    SpaceEnds(item.lexeme, s);
    LexemeScanned(item.lexeme, " " + s);
    BlankSkipped(' ', s);
    SameToken(At(" " + s), At(s));
  }

  lemma {:induction false} ItemsScanned(items: seq<Item>, ending: Text)
    requires LegalItems(items)
    ensures Tokens(At(PrintItems(items, ending))) == Meanings(items) + Tokens(At(ending))
    decreases |items|
  {
    hide Tokens, At, LegalGap, LegalLexeme;
    if items != [] {
      ItemScanned(items[0], PrintItems(items[1..], ending));
      ItemsScanned(items[1..], ending);
    }
  }

  /** The tokens of a whole configuration text: the scanner starts at a NUL. */
  function Scan(text: Text): seq<(Token, Text)> {
    Tokens(Stream(0, text, false))
  }

  /**
   Any list of legal lexemes, with any blanks and block comments before each,
   `#` notes before the line ends and any blanks, comments and a last note at
   the end, scans to exactly the tokens they stand for, and then the end.
   */
  lemma {:induction false} PrintScan(items: seq<Item>, gap: seq<Filler>, note: Option<Text>)
    requires LegalItems(items) && LegalGap(gap)
    requires note.Some? ==> NoLineEnd(note.value)
    ensures Scan(PrintItems(items, PrintGap(gap) + PrintNote(note))) == Meanings(items) + [(Eof, [])]
  {
    hide ConsumeSpace, ConsumeEndOfLine, ParseString, Word, LegalGap, LegalLexeme;
    var ending := PrintGap(gap) + PrintNote(note);
    var text := PrintItems(items, ending);
    AdvanceAt(0 as char, text);
    BlankSkipped(0 as char, text);
    assert Stream(0, text, false) == At([0 as char] + text);
    SameToken(Stream(0, text, false), At(text));
    ItemsScanned(items, ending);
    GapSkipped(gap, PrintNote(note));
    NoteSkipped(note, []);
    assert PrintNote(note) + [] == PrintNote(note);
    assert Tokens(At(ending)) == [(Eof, [])];
  }

  // ---------------------------------------------------------------- what is no token

  /** A CR that no LF follows is no line end. */
  lemma {:induction false} LoneReturn(note: Option<Text>, s: Text)
    requires (note.Some? ==> NoLineEnd(note.value)) && (s == [] || s[0] != '\n')
    ensures NextToken(At(PrintNote(note) + ("\r" + s))).token == Unknown
  {
    hide ConsumeSpace, ParseString, Word, PrintNote;
    NoteSkipped(note, "\r" + s);
    assert ("\r" + s)[1..] == s;
  }

  /** Nor does any other printable character begin a token. */
  lemma {:induction false} OtherCharacter(c: Octet, s: Text)
    requires '!' <= c <= '~' && c != '#' && c != '"' && c != '\'' && c != '/'
    requires !('A' <= c <= 'Z' || 'a' <= c <= 'z' || '0' <= c <= '9')
    ensures NextToken(At([c] + s)) == Lexed(Unknown, [], At([c] + s))
  {
    hide ConsumeSpace, ConsumeEndOfLine, ParseString, Word;
    TextBegins([c] + s);
  }

  lemma {:induction false} QuoteToEnd(delim: Octet, last: Next, text: Text)
    requires forall i :: 0 <= i < |text| && text[i] == delim ==> Before(last, text, i) == BACKSLASH
    ensures Quote(At(text), delim as int, last) == (text, At([]))
    decreases |text|
  {
    if text != [] {
      var c, tail := text[0], text[1..];
      assert text == [c] + tail;
      AdvanceAt(c, tail);
      assert c == delim ==> Before(last, text, 0) == BACKSLASH;
      forall i | 0 <= i < |tail| && tail[i] == delim ensures Before(c as int, tail, i) == BACKSLASH {
        assert text[i + 1] == delim && Before(last, text, i + 1) == Before(c as int, tail, i);
      }
      QuoteToEnd(delim, c as int, tail);
    }
  }

  /** A delimiter that is never closed takes in all the rest, and is no token. */
  lemma {:induction false} OpenQuote(delim: Octet, text: Text)
    requires IsDelim(delim as int) && !(delim == '/' && text != [] && text[0] == '*')
    requires forall i :: 0 <= i < |text| && text[i] == delim ==> Before(-1, text, i) == BACKSLASH
    ensures NextToken(At([delim] + text)) == Lexed(Unknown, text, At([]))
  {
    hide ConsumeEndOfLine, Word, Quote;
    QuoteToEnd(delim, -1, text);
    AdvanceAt(delim, text);
    if delim == '/' && text == [] {
      LoneSlash();
    } else {
      hide ConsumeSpace;
      TextBegins([delim] + text);
    }
  }

  lemma {:induction false} LoneSlash()
    ensures ConsumeSpace(At("/")) == (true, Stream(SLASH, [], true))
    ensures ConsumeEndOfLine(Stream(SLASH, [], true)) == (false, Stream(SLASH, [], true))
    ensures Quote(Advance(Stream(SLASH, [], true)), SLASH, -1) == ([], At([]))
    ensures Advance(Stream(SLASH, [], true)) == At([])
  {
    assert SkipBlanks(At("/")) == (AtText, At("/"));
  }

  /** A block comment that is never closed takes in all the rest, up to the end. */
  lemma {:induction false} OpenComment(text: Text)
    requires StaysOpen("*" + text)
    ensures NextToken(At("/*" + text)).token == Eof
  {
    hide ConsumeEndOfLine, ParseString, Word, SkipBlock;
    var inside := "*" + text;
    assert "/*" + text == "/" + inside;
    AdvanceAt('/', inside);
    PeekAt('/', '*', text);
    BlockOpen(inside);
    assert SkipBlanks(At("/" + inside)) == (AtText, At("/" + inside));
  }

  lemma {:induction false} BlockOpen(text: Text)
    requires StaysOpen(text)
    ensures !SkipBlock(At(text)).0
    ensures !SkipBlock(At(text).(eofBit := true)).0
    decreases |text|
  {
    if text != [] {
      var after := text[1..];
      assert text == [text[0]] + after;
      AdvanceAt(text[0], after);
      if after != [] {
        assert after == [after[0]] + after[1..];
        PeekAt(text[0], after[0], after[1..]);
      }
      BlockOpen(after);
    }
  }

  // ---------------------------------------------------------------- everything scanned can be printed

  lemma {:induction false} SkipBlanksStops(st: Stream)
    ensures
      match SkipBlanks(st).0
      case AtEnd => true
      case AtLine => IsLineEnd(SkipBlanks(st).1.cur)
      case AtText => IsPrint(SkipBlanks(st).1.cur) && !IsSpace(SkipBlanks(st).1.cur)
    decreases Left(st)
  {
    if !(Ended(st) || IsLineEnd(st.cur) || (!IsSpace(st.cur) && IsPrint(st.cur))) {
      SkipBlanksStops(Advance(st));
    }
  }

  lemma {:induction false} SkipLineStops(st: Stream)
    requires SkipLine(st).0
    ensures IsLineEnd(SkipLine(st).1.cur)
    decreases Left(st)
  {
    if !(Ended(st) || IsLineEnd(st.cur)) {
      SkipLineStops(Advance(st));
    }
  }

  /** Where `consumeSpace` stops, a block comment never begins. */
  lemma {:induction false} ConsumeSpaceStops(st: Stream)
    requires ConsumeSpace(st).0 && ConsumeSpace(st).1.cur == SLASH
    ensures Peek(ConsumeSpace(st).1).0 != STAR
    decreases Left(st)
  {
    hide SkipBlanks, SkipLine, SkipBlock;
    SkipBlanksStops(st);
    var (stop, st1) := SkipBlanks(st);
    if stop == AtText && st1.cur == HASH && SkipLine(Advance(st1)).0 {
      SkipLineStops(Advance(st1));
    }
    if stop == AtText && st1.cur == SLASH && Peek(st1).0 == STAR {
      ConsumeSpaceStops(SkipBlock(Advance(Peek(st1).1)).1);
    }
  }

  lemma {:induction false} WordTailWords(st: Stream)
    ensures AllWord(WordTail(st).0)
    decreases Left(st)
  {
    if IsWord(st.cur) { WordTailWords(Advance(st)); }
  }

  lemma {:induction false} QuoteFirst(st: Stream, delim: Next, last: Next)
    requires Quote(st, delim, last).0 != []
    ensures st.cur != EOF && Quote(st, delim, last).0[0] as int == st.cur
  {
  }

  /** Every token the scanner returns from any input is the meaning of a legal lexeme. */
  lemma {:induction false} TokenIsLexeme(st: Stream) returns (l: Lexeme)
    requires !Final(NextToken(st).token)
    ensures LegalLexeme(l) && Meaning(l) == (NextToken(st).token, NextToken(st).text)
  {
    hide ConsumeSpace, ConsumeEndOfLine, Quote, WordTail, Closes, Keyword;
    var r := NextToken(st);
    var st1 := ConsumeSpace(st).1;
    var (found, st2) := ConsumeEndOfLine(st1);
    if found { return NewLine(None, false); }
    if IsDelim(st2.cur) {
      var start := Advance(st2);
      QuoteCloses(start, st2.cur, -1);
      l := Quoted(st2.cur as char, r.text);
      if st2.cur == SLASH && r.text != [] {
        QuoteFirst(start, st2.cur, -1);
        SlashStarts(st);
      }
      return;
    }
    WordTailWords(Advance(st2));
    return Plain(r.text);
  }

  /** A `/` that begins a token is not followed by a star. */
  lemma {:induction false} SlashStarts(st: Stream)
    requires ConsumeSpace(st).0
    requires var r := ConsumeEndOfLine(ConsumeSpace(st).1); !r.0 && r.1.cur == SLASH
    ensures Advance(ConsumeEndOfLine(ConsumeSpace(st).1).1).cur != STAR
  {
    hide ConsumeSpace;
    ConsumeSpaceStops(st);
  }

  /** What a whole input scans to can be printed, one lexeme to a token. */
  lemma {:induction false} TokensAreItems(st: Stream) returns (items: seq<Item>)
    ensures LegalItems(items) && Tokens(st) == Meanings(items) + [Tokens(st)[|Tokens(st)| - 1]]
    ensures forall item :: item in items ==> item.gap == []
    decreases Left(st)
  {
    hide NextToken, LegalLexeme;
    NextTokenConsumes(st);
    var r := NextToken(st);
    if Final(r.token) { return []; }
    var l := TokenIsLexeme(st);
    var later := TokensAreItems(r.next);
    var item := Item([], l);
    items := [item] + later;
    assert items[0] == item && items[1..] == later;
    assert Meanings(items) == [Meaning(l)] + Meanings(later);
  }

  /**
   Any input that scans to its end can be rewritten with one space after each
   token and nothing else between them, and scans to the same tokens.
   */
  lemma {:induction false} ScanPrintScan(text: Text) returns (items: seq<Item>)
    requires Scan(text)[|Scan(text)| - 1] == (Eof, [])
    ensures LegalItems(items) && forall item :: item in items ==> item.gap == []
    ensures Scan(text) == Meanings(items) + [(Eof, [])]
    ensures Scan(PrintItems(items, [])) == Scan(text)
  {
    hide Tokens, PrintItems, LegalItems;
    items := TokensAreItems(Stream(0, text, false));
    PrintScan(items, [], None);
    assert PrintGap([]) + PrintNote(None) == [];
  }
}
