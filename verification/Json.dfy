/**
 `StringUtil::jsonEscape` and the JSON objects built by the logfile source,
 against a parser for JSON strings and objects of string members (RFC 8259,
 sections 2, 4 and 7).  Bytes are characters; the parser reads `\u` escapes
 below the surrogate range.
 */
module Json {
  import opened Prelude

  // ---------------------------------------------------------------- printer

  function HexDigit(n: nat): (c: char)
    requires n < 16
  {
    if n < 10 then ('0' as int + n) as char else ('a' as int + n - 10) as char
  }

  /** What the switch in `jsonEscape` appends for one character. */
  function EscapeChar(c: char): string {
    if c == '"' then "\\\""
    else if c == '\\' then "\\\\"
    else if c == 8 as char then "\\b"
    else if c == '\t' then "\\t"
    else if c == '\n' then "\\n"
    else if c == 12 as char then "\\f"
    else if c == '\r' then "\\r"
    else if c < ' ' then "\\u00" + [HexDigit(c as int / 16), HexDigit(c as int % 16)]
    else [c]
  }

  function Escaped(s: string): string {
    if s == "" then "" else EscapeChar(s[0]) + Escaped(s[1..])
  }

  lemma {:induction false} EscapedSnoc(s: string, c: char)
    ensures Escaped(s + [c]) == Escaped(s) + EscapeChar(c)
  {
    if s == "" {
      assert s + [c] == [c] && [c][1..] == "";
    } else {
      assert (s + [c])[1..] == s[1..] + [c];
      EscapedSnoc(s[1..], c);
    }
  }

  /** Characters that have to be escaped. */
  predicate MustEscape(c: char) {
    c as int < 0x20 || c as int == 0x22 || c as int == 0x5c
  }

  /**
   Only what has to be escaped is: with two characters where there is an escape
   of that size, with six for the other control characters.
   */
  lemma {:induction false} EscapedCharForm(c: char)
    ensures EscapeChar(c) == [c] <==> !MustEscape(c)
    ensures MustEscape(c) ==> EscapeChar(c)[0] as int == 0x5c
    ensures c as int in {8, 9, 10, 12, 13, 0x22, 0x5c} <==> |EscapeChar(c)| == 2
    ensures MustEscape(c) ==> |EscapeChar(c)| in {2, 6}
  {
  }

  /** So a string is unchanged exactly when nothing in it has to be escaped. */
  lemma {:induction false} EscapedUnchanged(s: string)
    ensures |Escaped(s)| >= |s|
    ensures Escaped(s) == s <==> forall i :: 0 <= i < |s| ==> !MustEscape(s[i])
  {
    hide EscapeChar, MustEscape;
    if s != "" {
      var e, rest := EscapeChar(s[0]), Escaped(s[1..]);
      EscapedCharForm(s[0]);
      EscapedUnchanged(s[1..]);
      EscapedCharLength(s[0]);
      if MustEscape(s[0]) {
        assert |Escaped(s)| > |s|;
      } else {
        assert e + rest == [s[0]] + rest && s == [s[0]] + s[1..];
        assert ([s[0]] + rest)[1..] == rest;
        assert forall i :: 0 < i < |s| ==> s[i] == s[1..][i - 1];
      }
    }
  }

  lemma {:induction false} EscapedCharLength(c: char)
    ensures |EscapeChar(c)| >= (if MustEscape(c) then 2 else 1)
  {
  }

  method JsonEscape(str: string) returns (out: string)
    ensures out == Escaped(str)
  {
    out := "";
    for i := 0 to |str|
      invariant out == Escaped(str[..i])
    {
      EscapedSnoc(str[..i], str[i]);
      assert str[..i + 1] == str[..i] + [str[i]];
      out := out + EscapeChar(str[i]);
    }
    assert str[..|str|] == str;
  }

  // ---------------------------------------------------------------- parser

  datatype Parsed<+T> = Failed | Parsed(value: T, rest: string)

  function HexValue(c: char): Option<nat> {
    if '0' <= c <= '9' then Some(c as int - '0' as int)
    else if 'a' <= c <= 'f' then Some(c as int - 'a' as int + 10)
    else if 'A' <= c <= 'F' then Some(c as int - 'A' as int + 10)
    else None
  }

  /** The character of a four-digit escape. */
  function HexChar(h: string): Option<char>
    requires |h| == 4
  {
    match (HexValue(h[0]), HexValue(h[1]), HexValue(h[2]), HexValue(h[3]))
    case (Some(a), Some(b), Some(c), Some(d)) =>
      var code := ((a * 16 + b) * 16 + c) * 16 + d;
      if code < 0xD800 then Some(code as char) else None
    case _ => None
  }

  /** The character after a backslash, for the two-character escapes. */
  function ShortEscape(c: char): Option<char> {
    if c == '"' || c == '\\' || c == '/' then Some(c)
    else if c == 'b' then Some(8 as char)
    else if c == 'f' then Some(12 as char)
    else if c == 'n' then Some('\n')
    else if c == 'r' then Some('\r')
    else if c == 't' then Some('\t')
    else None
  }

  /** The escapes of section 7 of RFC 8259, by code point. */
  lemma {:induction false} EscapesOfRfc8259()
    ensures ShortEscape('"') == Some(0x22 as char) && ShortEscape('\\') == Some(0x5c as char)
    ensures ShortEscape('/') == Some(0x2f as char) && ShortEscape('b') == Some(0x08 as char)
    ensures ShortEscape('f') == Some(0x0c as char) && ShortEscape('n') == Some(0x0a as char)
    ensures ShortEscape('r') == Some(0x0d as char) && ShortEscape('t') == Some(0x09 as char)
    ensures HexChar("001f") == Some(0x1f as char) && HexChar("00E9") == Some(0xe9 as char)
    ensures HexChar("12ab") == Some(0x12ab as char)
  {
    var a, b, c := "001f", "00E9", "12ab";
    assert a[0] == a[1] == '0' && a[2] == '1' && a[3] == 'f';
    assert b[0] == b[1] == '0' && b[2] == 'E' && b[3] == '9';
    assert c[0] == '1' && c[1] == '2' && c[2] == 'a' && c[3] == 'b';
  }

  /** Reads one character of string content, escaped or not. */
  function ParseChar(s: string): (r: Parsed<char>)
    ensures r.Parsed? ==> |r.rest| < |s|
  {
    if s == "" || s[0] == '"' || s[0] < ' ' then Failed
    else if s[0] != '\\' then Parsed(s[0], s[1..])
    else if |s| >= 2 && ShortEscape(s[1]).Some? then Parsed(ShortEscape(s[1]).value, s[2..])
    else if |s| >= 6 && s[1] == 'u' && HexChar(s[2..6]).Some? then Parsed(HexChar(s[2..6]).value, s[6..])
    else Failed
  }

  /** Reads string content up to and including the closing quote. */
  function ParseContent(s: string): (r: Parsed<string>)
    ensures r.Parsed? ==> |r.rest| < |s|
    decreases |s|
  {
    if s != "" && s[0] == '"' then Parsed("", s[1..])
    else
      match ParseChar(s)
      case Failed => Failed
      case Parsed(c, rest) =>
        match ParseContent(rest)
        case Failed => Failed
        case Parsed(cs, rest') => Parsed([c] + cs, rest')
  }

  function SkipSpace(s: string): (r: string)
    ensures |r| <= |s|
  {
    if s != "" && (s[0] == ' ' || s[0] == '\t' || s[0] == '\n' || s[0] == '\r') then SkipSpace(s[1..]) else s
  }

  function ParseString(s: string): (r: Parsed<string>)
    ensures r.Parsed? ==> |r.rest| < |s|
  {
    var t := SkipSpace(s);
    if t != "" && t[0] == '"' then ParseContent(t[1..]) else Failed
  }

  function ParsePunctuation(s: string, c: char): (r: Parsed<char>)
    ensures r.Parsed? ==> |r.rest| < |s|
  {
    var t := SkipSpace(s);
    if t != "" && t[0] == c then Parsed(c, t[1..]) else Failed
  }

  type Member = (string, string)

  function ParseMember(s: string): (r: Parsed<Member>)
    ensures r.Parsed? ==> |r.rest| < |s|
  {
    match ParseString(s)
    case Failed => Failed
    case Parsed(name, s1) =>
      match ParsePunctuation(s1, ':')
      case Failed => Failed
      case Parsed(_, s2) =>
        match ParseString(s2)
        case Failed => Failed
        case Parsed(text, s3) => Parsed((name, text), s3)
  }

  /** One or more members separated by commas, and the closing brace. */
  function ParseMembers(s: string): Parsed<seq<Member>>
    decreases |s|
  {
    match ParseMember(s)
    case Failed => Failed
    case Parsed(m, s1) =>
      match ParsePunctuation(s1, ',')
      case Parsed(_, s2) =>
        (match ParseMembers(s2)
         case Failed => Failed
         case Parsed(ms, s3) => Parsed([m] + ms, s3))
      case Failed =>
        match ParsePunctuation(s1, '}')
        case Failed => Failed
        case Parsed(_, s2) => Parsed([m], s2)
  }

  /** A text that is exactly one object whose values are strings. */
  function ParseObject(s: string): Option<seq<Member>> {
    match ParsePunctuation(s, '{')
    case Failed => None
    case Parsed(_, s1) =>
      match ParsePunctuation(s1, '}')
      case Parsed(_, s2) => if SkipSpace(s2) == "" then Some([]) else None
      case Failed =>
        match ParseMembers(s1)
        case Failed => None
        case Parsed(ms, s2) => if SkipSpace(s2) == "" then Some(ms) else None
  }

  // ---------------------------------------------------------------- round trips

  lemma {:induction false} ParseEscapedChar(c: char, rest: string)
    ensures ParseChar(EscapeChar(c) + rest) == Parsed(c, rest)
    ensures EscapeChar(c)[0] != '"'
  {
    var e := EscapeChar(c);
    var s := e + rest;
    assert s[|e|..] == rest;
    if |e| == 6 {
      HexRoundTrip(c);
      assert s[2..6] == e[2..6];
    }
  }

  lemma {:induction false} HexRoundTrip(c: char)
    requires c < ' ' && |EscapeChar(c)| == 6
    ensures HexChar(EscapeChar(c)[2..6]) == Some(c)
  {
  }

  /**
   `jsonEscape` output followed by a quote is legal string content, and the
   content is the string that was escaped.
   */
  lemma {:induction false} ParseEscaped(s: string, rest: string)
    ensures ParseContent(Escaped(s) + "\"" + rest) == Parsed(s, rest)
  {
    hide ParseChar, EscapeChar;
    if s == "" {
      assert (Escaped(s) + "\"" + rest)[1..] == rest;
    } else {
      var more := Escaped(s[1..]) + "\"" + rest;
      assert Escaped(s) + "\"" + rest == EscapeChar(s[0]) + more;
      ParseEscapedChar(s[0], more);
      ParseEscaped(s[1..], rest);
      assert s == [s[0]] + s[1..];
    }
  }

  // ---------------------------------------------------------------- event objects

  /** A string as it appears in an object, in quotes. */
  function Quoted(s: string): string {
    "\"" + Escaped(s) + "\""
  }

  function MemberText(m: Member): string {
    Quoted(m.0) + ":" + Quoted(m.1)
  }

  function MembersText(ms: seq<Member>): string {
    if ms == [] then ""
    else if |ms| == 1 then MemberText(ms[0])
    else MemberText(ms[0]) + "," + MembersText(ms[1..])
  }

  function ObjectText(ms: seq<Member>): string {
    "{" + MembersText(ms) + "}"
  }

  lemma {:induction false} MembersTextSnoc(ms: seq<Member>, m: Member)
    ensures MembersText(ms + [m])
         == if ms == [] then MemberText(m) else MembersText(ms) + "," + MemberText(m)
  {
    if |ms| > 1 {
      assert (ms + [m])[1..] == ms[1..] + [m];
      MembersTextSnoc(ms[1..], m);
    }
  }

  lemma {:induction false} ParseQuoted(s: string, rest: string)
    ensures ParseString(Quoted(s) + rest) == Parsed(s, rest)
  {
    hide Escaped, ParseContent;
    ParseEscaped(s, rest);
    assert (Quoted(s) + rest)[1..] == Escaped(s) + "\"" + rest;
  }

  lemma {:induction false} ParsePunctuated(c: char, rest: string)
    requires c != ' ' && c != '\t' && c != '\n' && c != '\r'
    ensures ParsePunctuation([c] + rest, c) == Parsed(c, rest)
    ensures forall d :: d != c ==> ParsePunctuation([c] + rest, d) == Failed
  {
    assert ([c] + rest)[1..] == rest;
  }

  lemma {:induction false} ParseMemberText(m: Member, rest: string)
    ensures ParseMember(MemberText(m) + rest) == Parsed(m, rest)
  {
    hide Quoted, ParseString, ParsePunctuation;
    var afterColon := Quoted(m.1) + rest;
    assert MemberText(m) + rest == Quoted(m.0) + ([':'] + afterColon);
    ParseQuoted(m.0, [':'] + afterColon);
    ParsePunctuated(':', afterColon);
    ParseQuoted(m.1, rest);
  }

  lemma {:induction false} ParseMembersText(ms: seq<Member>, rest: string)
    requires ms != []
    ensures ParseMembers(MembersText(ms) + (['}'] + rest)) == Parsed(ms, rest)
  {
    hide MemberText, ParseMember, ParsePunctuation;
    var close := ['}'] + rest;
    if |ms| == 1 {
      ParseMemberText(ms[0], close);
      ParsePunctuated('}', rest);
      assert ms == [ms[0]];
    } else {
      var more := MembersText(ms[1..]) + close;
      assert MembersText(ms) + close == MemberText(ms[0]) + ([','] + more);
      ParseMemberText(ms[0], [','] + more);
      ParsePunctuated(',', more);
      ParseMembersText(ms[1..], rest);
      assert ms == [ms[0]] + ms[1..];
    }
  }

  /** An assembled object parses back to exactly its list of members. */
  lemma {:induction false} ParseObjectText(ms: seq<Member>)
    ensures ParseObject(ObjectText(ms)) == Some(ms)
  {
    hide MembersText, ParseMembers, ParsePunctuation;
    var body := MembersText(ms) + (['}'] + "");
    assert ObjectText(ms) == ['{'] + body;
    ParsePunctuated('{', body);
    if ms == [] {
      NoMembersText();
      assert body == ['}'] + "";
      ParsePunctuated('}', "");
    } else {
      MembersTextStartsQuoted(ms);
      assert body == ['"'] + body[1..];
      ParsePunctuated('"', body[1..]);
      ParseMembersText(ms, "");
    }
  }

  /** How an object is laid out. */
  lemma {:induction false} ObjectExample()
    ensures ObjectText([]) == "{}"
    ensures ObjectText([("a", "b"), ("c", "d")]) == "{\"a\":\"b\",\"c\":\"d\"}"
    ensures DataText("x") == "{ \"data\": \"x\" }"
  {
    hide Escaped;
    OneChar('a');
    OneChar('b');
    OneChar('c');
    OneChar('d');
    OneChar('x');
    assert [("a", "b"), ("c", "d")][1..] == [("c", "d")];
  }

  lemma {:induction false} OneChar(c: char)
    requires 'a' <= c <= 'z'
    ensures Escaped([c]) == [c]
  {
    assert [c][1..] == "";
  }

  lemma {:induction false} NoMembersText()
    ensures MembersText([]) == ""
  {
  }

  lemma {:induction false} MembersTextStartsQuoted(ms: seq<Member>)
    requires ms != []
    ensures MembersText(ms) != "" && MembersText(ms)[0] == '"'
  {
  }

  /** The object for a line that no regex splits: spaces inside the braces. */
  function DataText(line: string): string {
    "{ \"data\": \"" + Escaped(line) + "\" }"
  }

  lemma {:induction false} ParseSpacedQuoted(s: string, rest: string)
    ensures ParseString(" " + Quoted(s) + rest) == Parsed(s, rest)
  {
    hide ParseContent;
    ParseQuoted(s, rest);
    assert (" " + Quoted(s) + rest)[1..] == Quoted(s) + rest;
  }

  lemma {:induction false} DataTextShape(line: string)
    ensures DataText(line)
         == ['{'] + (" " + Quoted("data") + ([':'] + (" " + Quoted(line) + " }")))
  {
    hide Escaped;
    EscapedData();
  }

  lemma {:induction false} ParseDataText(line: string)
    ensures ParseObject(DataText(line)) == Some([("data", line)])
  {
    hide Quoted, ParseString, ParseMembers, DataText;
    var afterColon := " " + Quoted(line) + " }";
    var afterName := [':'] + afterColon;
    var afterBrace := " " + Quoted("data") + afterName;
    DataTextShape(line);
    ParsePunctuated('{', afterBrace);
    ParseSpacedQuoted("data", afterName);
    ParsePunctuated(':', afterColon);
    ParseSpacedQuoted(line, " }");
    ParseDataMember(afterBrace, afterName, afterColon, line);
    NotEmptyObject(afterBrace);
  }

  lemma {:induction false} NotEmptyObject(s: string)
    requires ParseString(s).Parsed?
    ensures ParsePunctuation(s, '}') == Failed
  {
  }

  lemma {:induction false} EscapedData()
    ensures Escaped("data") == "data"
  {
  }

  lemma {:induction false} ParseDataMember(afterBrace: string, afterName: string, afterColon: string, line: string)
    requires ParseString(afterBrace) == Parsed("data", afterName)
    requires ParsePunctuation(afterName, ':') == Parsed(':', afterColon)
    requires ParseString(afterColon) == Parsed(line, " }")
    ensures ParseMembers(afterBrace) == Parsed([("data", line)], "")
  {
  }
}
