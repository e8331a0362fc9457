/**
 `ConfigLexer`: the scanner of the configuration language, on an input stream
 whose end-of-file bit is set by reading or peeking past the end.
 */
module ConfigLexer {
  /** The input is bytes; `Octet` is a character that is one. */
  type Octet = c: char | c as int < 256 witness 'a'
  type Text = seq<Octet>
  /** What `get` and `peek` return: a byte, or `EOF`. */
  type Next = c: int | -1 <= c < 256 witness 0

  const EOF: Next := -1
  const CR: Next := 13
  const LF: Next := 10
  const HASH: Next := 35
  const STAR: Next := 42
  const SLASH: Next := 47
  const BACKSLASH: Next := 92

  datatype Token = Unknown | Eof | End | Name | Value | Event | Source | Output | Plugin

  // ---------------------------------------------------------------- characters (the "C" locale)

  predicate IsSpace(c: Next) {
    c == 32 || 9 <= c <= 13
  }

  predicate IsPrint(c: Next) {
    32 <= c <= 126
  }

  predicate IsAlpha(c: Next) {
    65 <= c <= 90 || 97 <= c <= 122
  }

  predicate IsDigit(c: Next) {
    48 <= c <= 57
  }

  /** Characters that continue a name or a value: letters, digits and `_`, `.`, `:`. */
  predicate IsWord(c: Next) {
    IsAlpha(c) || IsDigit(c) || c == 95 || c == 46 || c == 58
  }

  /** The three delimiters of a quoted value: `"`, `'` and `/`. */
  predicate IsDelim(c: Next) {
    c == 34 || c == 39 || c == SLASH
  }

  predicate IsLineEnd(c: Next) {
    c == CR || c == LF
  }

  /** Characters skipped between tokens; the unprintable ones are skipped too. */
  predicate IsBlank(c: Next) {
    c != EOF && !IsLineEnd(c) && (IsSpace(c) || !IsPrint(c))
  }

  /** The classes and constants, by character. */
  lemma {:induction false} CharacterClasses(c: Octet)
    ensures IsSpace(c as int) <==> c == ' ' || '\t' <= c <= '\r'
    ensures IsPrint(c as int) <==> ' ' <= c <= '~'
    ensures IsWord(c as int) <==>
              'A' <= c <= 'Z' || 'a' <= c <= 'z' || '0' <= c <= '9' || c == '_' || c == '.' || c == ':'
    ensures IsAlpha(c as int) <==> 'A' <= c <= 'Z' || 'a' <= c <= 'z'
    ensures IsDigit(c as int) <==> '0' <= c <= '9'
    ensures IsDelim(c as int) <==> c == '"' || c == '\'' || c == '/'
    ensures IsLineEnd(c as int) <==> c == '\r' || c == '\n'
    ensures IsBlank(c as int) <==> c != '\r' && c != '\n' && !('!' <= c <= '~')
    ensures (CR, LF, HASH) == ('\r' as int, '\n' as int, '#' as int)
    ensures (STAR, SLASH, BACKSLASH) == ('*' as int, '/' as int, '\\' as int)
  {
  }

  // ---------------------------------------------------------------- the stream

  /** The current character, the characters not yet read, and the end-of-file bit. */
  datatype Stream = Stream(cur: Next, rest: Text, eofBit: bool)

  predicate Ended(st: Stream) {
    st.cur == EOF || st.eofBit
  }

  function Advance(st: Stream): Stream {
    if st.cur == EOF then st
    else if st.eofBit || st.rest == [] then Stream(EOF, st.rest, true)
    else Stream(st.rest[0] as int, st.rest[1..], false)
  }

  /** What `peek` returns; at the end it sets the bit. */
  function Peek(st: Stream): (Next, Stream) {
    if st.eofBit || st.rest == [] then (EOF, st.(eofBit := true)) else (st.rest[0] as int, st)
  }

  /** What is left to consume, counting the current character. */
  function Left(st: Stream): nat {
    |st.rest| + if st.cur == EOF then 0 else 1
  }

  // ---------------------------------------------------------------- what each scanning function does

  /** Where skipping blanks stops. */
  datatype Stop = AtEnd | AtLine | AtText

  function SkipBlanks(st: Stream): (r: (Stop, Stream))
    ensures Left(r.1) <= Left(st)
    ensures r.0 != AtEnd ==> !Ended(r.1)
    decreases Left(st)
  {
    if Ended(st) then (AtEnd, st)
    else if IsLineEnd(st.cur) then (AtLine, st)
    else if !IsSpace(st.cur) && IsPrint(st.cur) then (AtText, st)
    else SkipBlanks(Advance(st))
  }

  /** Skips a `#` comment; false at the end of the input. */
  function SkipLine(st: Stream): (r: (bool, Stream))
    ensures Left(r.1) <= Left(st)
    decreases Left(st)
  {
    if Ended(st) then (false, st)
    else if IsLineEnd(st.cur) then (true, st)
    else SkipLine(Advance(st))
  }

  /** Skips a block comment up to its end mark; false at the end of the input. */
  function SkipBlock(st: Stream): (r: (bool, Stream))
    ensures Left(r.1) <= Left(st)
    ensures r.0 ==> Left(r.1) < Left(st)
    decreases Left(st)
  {
    if Ended(st) then (false, st)
    else if st.cur == STAR then
      var (next, st') := Peek(st);
      if next == SLASH then (true, Advance(Advance(st'))) else SkipBlock(Advance(st'))
    else SkipBlock(Advance(st))
  }

  /** `consumeSpace`: false at the end of the input. */
  function ConsumeSpace(st: Stream): (r: (bool, Stream))
    ensures Left(r.1) <= Left(st)
    decreases Left(st)
  {
    var (stop, st1) := SkipBlanks(st);
    if stop != AtText then (stop == AtLine, st1)
    else if st1.cur == HASH then SkipLine(Advance(st1))
    else if st1.cur == SLASH then
      var (next, st2) := Peek(st1);
      if next == STAR then
        var (closed, st3) := SkipBlock(Advance(st2));
        if closed then ConsumeSpace(st3) else (false, st3)
      else (true, st2)
    else (true, st1)
  }

  /** `consumeEndOfLine`: skips any number of LF and CR LF. */
  function ConsumeEndOfLine(st: Stream): (r: (bool, Stream))
    ensures Left(r.1) <= Left(st)
    ensures r.0 ==> Left(r.1) < Left(st)
    decreases Left(st)
  {
    if Ended(st) then (false, st)
    else if st.cur == LF then (true, ConsumeEndOfLine(Advance(st)).1)
    else if st.cur == CR then
      var (next, st') := Peek(st);
      if next == LF then (true, ConsumeEndOfLine(Advance(Advance(st'))).1) else (false, st')
    else (false, st)
  }

  /** The word characters from the current one on. */
  function WordTail(st: Stream): (r: (Text, Stream))
    ensures Left(r.1) <= Left(st)
    decreases Left(st)
  {
    if IsWord(st.cur) then
      var (text, st') := WordTail(Advance(st));
      ([st.cur as char] + text, st')
    else ([], st)
  }

  /** The loop of `parseString`: up to a delimiter that does not follow a backslash. */
  function Quote(st: Stream, delim: Next, last: Next): (r: (Text, Stream))
    ensures Left(r.1) <= Left(st)
    decreases Left(st)
  {
    if Ended(st) || (st.cur == delim && last != BACKSLASH) then ([], st)
    else
      var (text, st') := Quote(Advance(st), delim, st.cur);
      ([st.cur as char] + text, st')
  }

  // ---------------------------------------------------------------- one token

  datatype Lexed = Lexed(token: Token, text: Text, next: Stream)

  function Keyword(text: Text): Token {
    if text == "event" then Event
    else if text == "source" then Source
    else if text == "output" then Output
    else if text == "plugin" then Plugin
    else Name
  }

  /** `parseName` and `parseValue` share this loop, which takes the first character unseen. */
  function Word(st: Stream): (r: (Text, Stream))
    requires st.cur != EOF
  {
    var (text, st') := WordTail(Advance(st));
    ([st.cur as char] + text, st')
  }

  function ParseString(st: Stream): Lexed {
    var (text, st') := Quote(Advance(st), st.cur, -1);
    if st'.cur == st.cur then Lexed(Value, text, Advance(st')) else Lexed(Unknown, text, st')
  }

  function NextToken(st: Stream): Lexed {
    var (more, st1) := ConsumeSpace(st);
    if !more then Lexed(Eof, [], st1)
    else
      var (found, st2) := ConsumeEndOfLine(st1);
      if found then Lexed(End, "LF", st2)
      else if IsDelim(st2.cur) then ParseString(st2)
      else if IsAlpha(st2.cur) then var (text, st3) := Word(st2); Lexed(Keyword(text), text, st3)
      else if IsDigit(st2.cur) then var (text, st3) := Word(st2); Lexed(Value, text, st3)
      else Lexed(Unknown, [], st2)
  }

  predicate Final(token: Token) {
    token == Eof || token == Unknown
  }

  /** Every call that returns neither `Eof` nor `Unknown` consumes input. */
  lemma {:induction false} NextTokenConsumes(st: Stream)
    ensures Left(NextToken(st).next) <= Left(st)
    ensures !Final(NextToken(st).token) ==> Left(NextToken(st).next) < Left(st)
  {
    hide ConsumeSpace, ConsumeEndOfLine, WordTail, Quote, Keyword;
    var st1 := ConsumeSpace(st).1;
    var st2 := ConsumeEndOfLine(st1).1;
    assert Left(st2) <= Left(st1) <= Left(st);
  }

  /** What repeated calls return, up to the first `Eof` or `Unknown`. */
  function Tokens(st: Stream): seq<(Token, Text)>
    decreases Left(st)
  {
    var r := NextToken(st);
    NextTokenConsumes(st);
    if Final(r.token) then [(r.token, r.text)] else [(r.token, r.text)] + Tokens(r.next)
  }

  lemma {:induction false} Reassociate(done: Text, c: Octet, tail: Text)
    ensures done + ([c] + tail) == done + [c] + tail
  {
  }

  // ---------------------------------------------------------------- the class

  class Lexer {
    const input: Text
    var pos: nat
    var eofBit: bool
    var currentChar: Next
    var stringValue: Text
    var currentToken: Token

    predicate Valid()
      reads this
    {
      pos <= |input| && (eofBit ==> pos == |input|) && (currentChar == EOF ==> eofBit)
    }

    function State(): Stream
      reads this
      requires Valid()
    {
      Stream(currentChar, input[pos..], eofBit)
    }

    /** The constructor reads the first token, with a NUL as the current character. */
    constructor (text: Text)
      ensures Valid() && input == text
      ensures
        var r := NextToken(Stream(0, text, false));
        currentToken == r.token && stringValue == r.text && State() == r.next
    {
      input := text;
      pos, eofBit, currentChar, stringValue, currentToken := 0, false, 0, [], Unknown;
      new;
      assert text[0..] == text;
      var _ := GetToken();
    }

    predicate AtEof()
      reads this
      requires Valid()
      ensures AtEof() == Ended(State())
    {
      currentChar == EOF || eofBit
    }

    method NextChar()
      requires Valid()
      modifies this`pos, this`eofBit, this`currentChar
      ensures Valid() && State() == Advance(old(State()))
    {
      if currentChar == EOF { return; }
      if eofBit || pos == |input| {
        eofBit, currentChar := true, EOF;
      } else {
        currentChar, pos := input[pos] as int, pos + 1;
        assert input[pos..] == input[pos - 1..][1..];
      }
    }

    method PeekChar() returns (c: Next)
      requires Valid()
      modifies this`eofBit
      ensures Valid() && (c, State()) == Peek(old(State()))
    {
      if eofBit || pos == |input| {
        eofBit := true;
        return EOF;
      }
      return input[pos] as int;
    }

    /** The first loop of `consumeSpace`. */
    method SkipSpaces() returns (stop: Stop)
      requires Valid()
      modifies this`pos, this`eofBit, this`currentChar
      ensures Valid() && (stop, State()) == SkipBlanks(old(State()))
    {
      while true
        invariant Valid() && SkipBlanks(State()) == SkipBlanks(old(State()))
        decreases Left(State())
      {
        if AtEof() { return AtEnd; }
        if currentChar == CR || currentChar == LF { return AtLine; }
        if !IsSpace(currentChar) && IsPrint(currentChar) { return AtText; }
        NextChar();
      }
    }

    /** The loop that skips a `#` comment. */
    method SkipToLineEnd() returns (more: bool)
      requires Valid()
      modifies this`pos, this`eofBit, this`currentChar
      ensures Valid() && (more, State()) == SkipLine(old(State()))
    {
      while true
        invariant Valid() && SkipLine(State()) == SkipLine(old(State()))
        decreases Left(State())
      {
        if AtEof() { return false; }
        if currentChar == CR || currentChar == LF { return true; }
        NextChar();
      }
    }

    /** The loop that skips a block comment. */
    method SkipToBlockEnd() returns (more: bool)
      requires Valid()
      modifies this`pos, this`eofBit, this`currentChar
      ensures Valid() && (more, State()) == SkipBlock(old(State()))
    {
      while true
        invariant Valid() && SkipBlock(State()) == SkipBlock(old(State()))
        decreases Left(State())
      {
        if AtEof() { return false; }
        if currentChar == STAR {
          var next := PeekChar();
          if next == SLASH {
            NextChar();
            NextChar();
            return true;
          }
        }
        NextChar();
      }
    }

    method ConsumeBlanks() returns (more: bool)
      requires Valid()
      modifies this`pos, this`eofBit, this`currentChar
      ensures Valid() && (more, State()) == ConsumeSpace(old(State()))
      decreases Left(State())
    {
      hide SkipBlanks, SkipLine, SkipBlock;
      var stop := SkipSpaces();
      if stop == AtEnd { return false; }
      if stop == AtLine { return true; }
      if currentChar == HASH {
        NextChar();
        more := SkipToLineEnd();
        return;
      }
      if currentChar == SLASH {
        var next := PeekChar();
        if next == STAR {
          NextChar();
          more := SkipToBlockEnd();
          if !more { return; }
          more := ConsumeBlanks();
          return;
        }
      }
      return true;
    }

    method ConsumeLineEnds() returns (found: bool)
      requires Valid()
      modifies this`pos, this`eofBit, this`currentChar, this`stringValue
      ensures Valid() && (found, State()) == ConsumeEndOfLine(old(State()))
      ensures stringValue == old(stringValue) + if found then "LF" else []
    {
      found := false;
      while !AtEof()
        invariant Valid() && stringValue == old(stringValue)
        invariant ConsumeEndOfLine(old(State())) == (found || ConsumeEndOfLine(State()).0, ConsumeEndOfLine(State()).1)
        decreases Left(State())
      {
        if currentChar == LF {
          NextChar();
          found := true;
        } else if currentChar == CR {
          var next := PeekChar();
          if next != LF { break; }
          NextChar();
          NextChar();
          found := true;
        } else {
          break;
        }
      }
      if found { stringValue := stringValue + "LF"; }
    }

    /** The loop of `parseName` and of `parseValue`. */
    method TakeWord()
      requires Valid() && currentChar != EOF && stringValue == []
      modifies this`pos, this`eofBit, this`currentChar, this`stringValue
      ensures Valid() && (stringValue, State()) == Word(old(State()))
    {
      ghost var word := Word(State());
      stringValue := [currentChar as char];
      NextChar();
      while IsWord(currentChar)
        invariant Valid()
        invariant word.0 == stringValue + WordTail(State()).0 && word.1 == WordTail(State()).1
        decreases Left(State())
      {
        ghost var done, tail := stringValue, WordTail(State()).0;
        stringValue := stringValue + [currentChar as char];
        NextChar();
        Reassociate(done, tail[0], WordTail(State()).0);
      }
      assert WordTail(State()).0 == [];
      assert stringValue + [] == stringValue;
    }

    method ParseName() returns (token: Token)
      requires Valid() && currentChar != EOF && stringValue == []
      modifies this`pos, this`eofBit, this`currentChar, this`stringValue
      ensures Valid() && (stringValue, State()) == Word(old(State()))
      ensures token == Keyword(stringValue)
    {
      TakeWord();
      return Keyword(stringValue);
    }

    method ParseValue() returns (token: Token)
      requires Valid() && currentChar != EOF && stringValue == []
      modifies this`pos, this`eofBit, this`currentChar, this`stringValue
      ensures Valid() && (stringValue, State()) == Word(old(State()))
      ensures token == Value
    {
      TakeWord();
      return Value;
    }

    /** `parseString`; `parseRegEx` is the same function. */
    method ParseQuoted() returns (token: Token)
      requires Valid() && stringValue == []
      modifies this`pos, this`eofBit, this`currentChar, this`stringValue
      ensures Valid() && Lexed(token, stringValue, State()) == ParseString(old(State()))
    {
      var delim := currentChar;
      var last: Next := -1;
      NextChar();
      ghost var start := State();
      while !AtEof() && (currentChar != delim || last == BACKSLASH)
        invariant Valid()
        invariant Quote(start, delim, -1).0 == stringValue + Quote(State(), delim, last).0
        invariant Quote(start, delim, -1).1 == Quote(State(), delim, last).1
        decreases Left(State())
      {
        ghost var done, tail := stringValue, Quote(State(), delim, last).0;
        stringValue := stringValue + [currentChar as char];
        last := currentChar;
        NextChar();
        Reassociate(done, tail[0], Quote(State(), delim, last).0);
      }
      if currentChar == delim {
        NextChar();
        return Value;
      }
      return Unknown;
    }

    /** `nextToken`. */
    method GetToken() returns (token: Token)
      requires Valid()
      modifies this
      ensures Valid() && token == currentToken
      ensures Lexed(token, stringValue, State()) == NextToken(old(State()))
    {
      hide ConsumeSpace, ConsumeEndOfLine, Word, ParseString;
      stringValue := [];
      var more := ConsumeBlanks();
      if !more {
        token := Eof;
      } else {
        var found := ConsumeLineEnds();
        if found {
          token := End;
        } else if IsDelim(currentChar) {
          token := ParseQuoted();
        } else if IsAlpha(currentChar) {
          token := ParseName();
        } else if IsDigit(currentChar) {
          token := ParseValue();
        } else {
          token := Unknown;
        }
      }
      currentToken := token;
    }
  }
}
