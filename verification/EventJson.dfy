/** The JSON event that the logfile source makes of one line. */
module EventJson {
  import opened Prelude
  import opened StringUtil
  import opened Json

  /** Result code and offset pairs of `pcre_exec`; an unset group is (-1, -1). */
  datatype Match = Match(rc: int, ovector: seq<(int, int)>)

  /** A compiled regex: the name of each group, empty for unnamed ones, and its matcher. */
  datatype Regex = Regex(fields: seq<string>, exec: string -> Match) {

    /** What libpcre guarantees about each result. */
    ghost predicate Valid() {
      forall line :: Fits(exec(line), fields, line)
    }
  }

  predicate Fits(m: Match, fields: seq<string>, line: string) {
    && m.rc <= |fields| && m.rc <= |m.ovector|
    && forall i :: 0 <= i < m.rc ==>
         m.ovector[i] == (-1, -1) || 0 <= m.ovector[i].0 <= m.ovector[i].1 <= |line|
  }

  function Capture(m: Match, fields: seq<string>, line: string, i: nat): string
    requires Fits(m, fields, line) && i < m.rc
  {
    if m.ovector[i] == (-1, -1) then "" else line[m.ovector[i].0..m.ovector[i].1]
  }

  /** The named groups below `n`, in order, with what they captured. */
  function Named(m: Match, fields: seq<string>, line: string, n: nat): seq<Member>
    requires Fits(m, fields, line) && (n <= 1 || n <= m.rc)
  {
    if n <= 1 then []
    else
      var before := Named(m, fields, line, n - 1);
      if fields[n - 1] == "" then before
      else before + [(fields[n - 1], Capture(m, fields, line, n - 1))]
  }

  /** What the members of the event for a non-empty line are; None when the regex does not match. */
  function EventMembers(regex: Option<Regex>, line: string): Option<seq<Member>>
    requires regex.Some? ==> Fits(regex.value.exec(line), regex.value.fields, line)
  {
    if regex.None? then Some([("data", line)])
    else
      var m := regex.value.exec(line);
      if m.rc < 0 then None else Some(Named(m, regex.value.fields, line, m.rc))
  }

  /** The event text for a line: empty for an empty line and for one that does not match. */
  function EventText(regex: Option<Regex>, line: string): string
    requires regex.Some? ==> Fits(regex.value.exec(line), regex.value.fields, line)
  {
    if line == "" then ""
    else if regex.None? then DataText(line)
    else
      var ms := EventMembers(regex, line);
      if ms.None? then "" else ObjectText(ms.value)
  }

  /** Every event text is a JSON object that reads back as the captures of its line. */
  lemma {:induction false} EventParsesBack(regex: Option<Regex>, line: string)
    requires regex.Some? ==> Fits(regex.value.exec(line), regex.value.fields, line)
    requires line != ""
    ensures EventMembers(regex, line).None? ==> EventText(regex, line) == ""
    ensures EventMembers(regex, line).Some? ==>
              ParseObject(EventText(regex, line)) == EventMembers(regex, line)
  {
    hide ParseObject, ObjectText, DataText;
    ParseDataText(line);
    if EventMembers(regex, line).Some? {
      ParseObjectText(EventMembers(regex, line).value);
    }
  }

  // ---------------------------------------------------------------- what an event says of its line

  /** The text between the offsets of a group; none for an unset group. */
  predicate IsCapture(value: string, offsets: (int, int), line: string) {
    if offsets == (-1, -1) then value == ""
    else
      var (lo, hi) := offsets;
      0 <= lo <= hi <= |line| && |value| == hi - lo && line[..lo] + value + line[hi..] == line
  }

  /** `groups` are the named groups below `n`, in order; group 0 is the whole match. */
  ghost predicate NamedGroups(groups: seq<nat>, fields: seq<string>, n: int) {
    && (forall a, b :: 0 <= a < b < |groups| ==> groups[a] < groups[b])
    && forall i: nat :: i in groups <==> 1 <= i < n && i < |fields| && fields[i] != ""
  }

  predicate HoldsCaptures(ms: seq<Member>, groups: seq<nat>, m: Match, fields: seq<string>, line: string) {
    && |ms| == |groups|
    && forall k :: 0 <= k < |ms| ==>
         && groups[k] < |fields| && groups[k] < |m.ovector|
         && ms[k].0 == fields[groups[k]] && IsCapture(ms[k].1, m.ovector[groups[k]], line)
  }

  /** The members are the named groups below `n`, in order, each with the text it captured. */
  ghost predicate CapturesOf(ms: seq<Member>, m: Match, fields: seq<string>, line: string, n: int) {
    exists groups :: NamedGroups(groups, fields, n) && HoldsCaptures(ms, groups, m, fields, line)
  }

  lemma {:induction false} NamedAreCaptures(m: Match, fields: seq<string>, line: string, n: nat)
    requires Fits(m, fields, line) && (n <= 1 || n <= m.rc)
    ensures CapturesOf(Named(m, fields, line, n), m, fields, line, n)
  {
    hide Capture, IsCapture, NamedGroups, HoldsCaptures;
    var ms := Named(m, fields, line, n);
    if n <= 1 {
      NoGroups(m, fields, line, n);
    } else {
      NamedAreCaptures(m, fields, line, n - 1);
      var before := Named(m, fields, line, n - 1);
      var groups: seq<nat> :| NamedGroups(groups, fields, n - 1) && HoldsCaptures(before, groups, m, fields, line);
      if fields[n - 1] == "" {
        UnnamedGroup(groups, fields, n - 1);
      } else {
        OneMoreGroup(groups, fields, n - 1);
        OneMoreCapture(before, groups, m, fields, line, n - 1);
      }
    }
  }

  lemma {:induction false} NoGroups(m: Match, fields: seq<string>, line: string, n: nat)
    requires n <= 1
    ensures NamedGroups([], fields, n) && HoldsCaptures([], [], m, fields, line)
  {
  }

  lemma {:induction false} UnnamedGroup(groups: seq<nat>, fields: seq<string>, i: nat)
    requires NamedGroups(groups, fields, i) && i < |fields| && fields[i] == ""
    ensures NamedGroups(groups, fields, i + 1)
  {
  }

  lemma {:induction false} OneMoreCapture(ms: seq<Member>, groups: seq<nat>, m: Match, fields: seq<string>,
                                          line: string, i: nat)
    requires HoldsCaptures(ms, groups, m, fields, line) && Fits(m, fields, line) && i < m.rc
    ensures HoldsCaptures(ms + [(fields[i], Capture(m, fields, line, i))], groups + [i], m, fields, line)
  {
    hide Capture, IsCapture;
    CaptureIs(m, fields, line, i);
  }

  lemma {:induction false} OneMoreGroup(groups: seq<nat>, fields: seq<string>, i: nat)
    requires NamedGroups(groups, fields, i) && 1 <= i < |fields| && fields[i] != ""
    ensures NamedGroups(groups + [i], fields, i + 1)
  {
    var more := groups + [i];
    assert forall a :: 0 <= a < |groups| ==> groups[a] in groups;
    assert forall j: nat :: j in more <==> j in groups || j == i;
  }

  lemma {:induction false} CaptureIs(m: Match, fields: seq<string>, line: string, i: nat)
    requires Fits(m, fields, line) && i < m.rc
    ensures IsCapture(Capture(m, fields, line, i), m.ovector[i], line)
  {
  }

  /** What the event for a line, without its newline, has to say. */
  ghost predicate EventOf(event: string, regex: Option<Regex>, line: string) {
    if line == "" then event == ""
    else if regex.None? then ParseObject(event) == Some([("data", line)])
    else
      var m := regex.value.exec(line);
      if m.rc < 0 then event == ""
      else exists ms :: ParseObject(event) == Some(ms) && CapturesOf(ms, m, regex.value.fields, line, m.rc)
  }

  /** What the event for a complete line of the log has to say. */
  ghost predicate EventOfLine(event: string, regex: Option<Regex>, l: string) {
    exists line :: line + "\n" == l && EventOf(event, regex, line)
  }

  lemma {:induction false} EventTextSays(regex: Option<Regex>, line: string)
    requires regex.Some? ==> Fits(regex.value.exec(line), regex.value.fields, line)
    ensures EventOf(EventText(regex, line), regex, line)
  {
    hide ParseObject, ObjectText, DataText, CapturesOf, Named, Fits;
    if line != "" {
      EventParsesBack(regex, line);
      if regex.Some? && regex.value.exec(line).rc >= 0 {
        NamedAreCaptures(regex.value.exec(line), regex.value.fields, line, regex.value.exec(line).rc);
      }
    }
  }

  /** The event of a complete line `l` was added: appended, or put in place when there is no regex. */
  ghost predicate AddsEventOf(eventJson: string, eventJson0: string, regex: Option<Regex>, l: string) {
    exists event, line :: AddsEvent(eventJson, eventJson0, regex, event, line) && line + "\n" == l
  }

  ghost predicate AddsEvent(eventJson: string, eventJson0: string, regex: Option<Regex>, event: string, line: string) {
    && EventOf(event, regex, line)
    && eventJson == if regex.None? && event != "" then event else eventJson0 + event
  }

  lemma {:induction false} EventAdded(eventJson0: string, regex: Option<Regex>, line: string)
    requires regex.Some? ==> Fits(regex.value.exec(line), regex.value.fields, line)
    ensures var event := EventText(regex, line);
            AddsEventOf(if regex.None? && event != "" then event else eventJson0 + event,
                        eventJson0, regex, line + "\n")
  {
    hide EventOf, EventText, Fits;
    EventTextSays(regex, line);
    var event := EventText(regex, line);
    assert AddsEvent(if regex.None? && event != "" then event else eventJson0 + event, eventJson0, regex, event, line);
  }

  const DATA_TEMPLATE: string := "{ \"data\": \"$0\" }"

  /** The template with the escaped line in place of its placeholder. */
  lemma {:induction false} DataTemplate(line: string)
    ensures Sequential(DATA_TEMPLATE, 0, [Escaped(line)]) == DataText(line)
  {
    hide Sequential, Escaped, Simultaneous;
    var before, after, e := "{ \"data\": \"", "\" }", Escaped(line);
    FormatOneArgument(DATA_TEMPLATE, e);
    assert DATA_TEMPLATE == before + ("$0" + after);
    SimultaneousPlain(before, "$0" + after, [e]);
    SimultaneousAtDollar("$0" + after, [e]);
    assert ("$0" + after)[2..] == after;
    assert after == after + "";
    SimultaneousPlain(after, "", [e]);
    SimultaneousEmpty([e]);
  }

  lemma {:induction false} SimultaneousEmpty(values: seq<string>)
    ensures Simultaneous("", values) == ""
  {
  }

  lemma {:induction false} SimultaneousPlain(a: string, rest: string, values: seq<string>)
    requires NoDollar(a)
    ensures Simultaneous(a + rest, values) == a + Simultaneous(rest, values)
  {
    if a == "" {
      assert a + rest == rest;
    } else {
      assert (a + rest)[1..] == a[1..] + rest;
      SimultaneousPlain(a[1..], rest, values);
    }
  }

  /** The loop over the capture groups: unnamed groups are skipped, the others separated by commas. */
  method AppendCaptures(eventJson0: string, m: Match, fields: seq<string>, rawLine: string)
    returns (eventJson: string)
    requires m.rc >= 0 && Fits(m, fields, rawLine)
    ensures eventJson == eventJson0 + ObjectText(Named(m, fields, rawLine, m.rc))
    ensures CapturesOf(Named(m, fields, rawLine, m.rc), m, fields, rawLine, m.rc)
  {
    hide Escaped, MembersText, CapturesOf;
    NamedAreCaptures(m, fields, rawLine, m.rc);
    eventJson := eventJson0 + "{";
    var n := 0;
    var i := 1;
    NoMembersText();
    while i < m.rc
      invariant 1 <= i && (i <= 1 || i <= m.rc)
      invariant n == |Named(m, fields, rawLine, i)|
      invariant eventJson == eventJson0 + "{" + MembersText(Named(m, fields, rawLine, i))
      decreases m.rc - i
    {
      ghost var before := Named(m, fields, rawLine, i);
      if fields[i] != "" {
        n := n + 1;
        if n > 1 {
          eventJson := eventJson + ",";
        }
        var evdata := Capture(m, fields, rawLine, i);
        var name := JsonEscape(fields[i]);
        eventJson := eventJson + "\"" + name + "\":";
        var data := JsonEscape(evdata);
        eventJson := eventJson + "\"" + data + "\"";
        MembersTextSnoc(before, (fields[i], evdata));
        CommaAndMember(eventJson0 + "{", MembersText(before), before != [], (fields[i], evdata));
      }
      i := i + 1;
    }
    eventJson := eventJson + "}";
    assert Named(m, fields, rawLine, i) == Named(m, fields, rawLine, m.rc);
  }

  lemma {:induction false} CommaAndMember(a: string, ms: string, comma: bool, m: Member)
    requires !comma ==> ms == ""
    ensures a + ms + (if comma then "," else "") + "\"" + Escaped(m.0) + "\":" + "\"" + Escaped(m.1) + "\""
         == a + (if comma then ms + "," + MemberText(m) else MemberText(m))
  {
    hide Escaped;
  }
}
