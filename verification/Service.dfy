/**
 The service: event bindings with their log sources, delivery to all targets,
 the draining of sources by `processEvent`, and the run loop over the tick
 queue.
 */
module Service {
  import opened Prelude
  import opened Lines
  import opened Tailer
  import opened Json
  import opened EventJson
  import opened LogfileSource
  import Scheduler

  datatype EventData = EventData(time: nat, eventName: string, eventData: string)

  /** An output plugin: it sees every event; whether it accepts its n-th one is up to it. */
  class Target {
    const accepts: nat -> bool
    var received: seq<EventData>

    constructor (accepts: nat -> bool)
      ensures this.accepts == accepts && received == []
    {
      this.accepts := accepts;
      received := [];
    }

    method EmitEvent(event: EventData) returns (rc: ReturnCode)
      modifies this
      ensures received == old(received) + [event]
      ensures rc.Success? <==> accepts(|old(received)|)
    {
      rc := if accepts(|received|) then Success else Error("EPLUGIN");
      received := received + [event];
    }
  }

  class EventBinding {
    const id: nat
    const eventName: string
    const intervalMicros: nat
    const sources: seq<LogfileSource>
    ghost const registered: nat
    var nextTick: nat

    constructor (id: nat, eventName: string, intervalMicros: nat, sources: seq<LogfileSource>, now: nat)
      ensures this.id == id && this.eventName == eventName && this.intervalMicros == intervalMicros
      ensures this.sources == sources && registered == now && nextTick == now + intervalMicros
    {
      this.id, this.eventName, this.intervalMicros := id, eventName, intervalMicros;
      this.sources, this.registered, this.nextTick := sources, now, now + intervalMicros;
    }

    ghost function Job(): Scheduler.Job
      reads this
    {
      Scheduler.Job(id, registered, intervalMicros, nextTick)
    }
  }

  // ---------------------------------------------------------------- what is delivered

  /** The events for lines handed out one by one; empty event texts are not emitted. */
  ghost function Events(regex: Option<Regex>, ls: seq<string>, time: nat, name: string): seq<EventData>
    requires regex.Some? ==> regex.value.Valid()
  {
    if ls == [] then []
    else
      Events(regex, ls[..|ls| - 1], time, name) + Emitted(EventText(regex, Text(ls[|ls| - 1])), time, name)
  }

  function Emitted(text: string, time: nat, name: string): seq<EventData> {
    if text == "" then [] else [EventData(time, name, text)]
  }

  /** What the lines mean: the members of each line that is not empty and, with a regex, matches. */
  ghost function Captured(regex: Option<Regex>, ls: seq<string>): seq<seq<Member>>
    requires regex.Some? ==> regex.value.Valid()
  {
    if ls == [] then []
    else
      Captured(regex, ls[..|ls| - 1]) + CapturedInLine(regex, Text(ls[|ls| - 1]))
  }

  ghost function CapturedInLine(regex: Option<Regex>, line: string): seq<seq<Member>>
    requires regex.Some? ==> regex.value.Valid()
  {
    if line == "" || EventMembers(regex, line).None? then [] else [EventMembers(regex, line).value]
  }

  ghost predicate SaysOf(es: seq<EventData>, ms: seq<seq<Member>>, time: nat, name: string) {
    && |es| == |ms|
    && forall i :: 0 <= i < |es| ==>
         es[i].time == time && es[i].eventName == name && ParseObject(es[i].eventData) == Some(ms[i])
  }

  /** The events of any lines read back, one for one and in order, as what the lines mean. */
  lemma {:induction false} EventsReadBack(regex: Option<Regex>, ls: seq<string>, time: nat, name: string)
    requires regex.Some? ==> regex.value.Valid()
    ensures SaysOf(Events(regex, ls, time, name), Captured(regex, ls), time, name)
    decreases |ls|
  {
    hide EventText, EventMembers, ParseObject;
    if ls != [] {
      EventsReadBack(regex, ls[..|ls| - 1], time, name);
      EventReadsBack(regex, Text(ls[|ls| - 1]), time, name);
    }
  }

  lemma {:induction false} EventReadsBack(regex: Option<Regex>, line: string, time: nat, name: string)
    requires regex.Some? ==> regex.value.Valid()
    ensures SaysOf(Emitted(EventText(regex, line), time, name), CapturedInLine(regex, line), time, name)
  {
    hide ParseObject, EventMembers;
    if line != "" {
      EventParsesBack(regex, line);
      NothingParses();
    }
  }

  lemma {:induction false} NothingParses()
    ensures ParseObject("").None?
  {
  }

  /**
   `es` are the events of the complete lines `ls`, in order: one for each line
   whose event is not empty, which says what that line has to say.
   */
  ghost predicate EventsAre(es: seq<EventData>, regex: Option<Regex>, ls: seq<string>, time: nat, name: string) {
    if ls == [] then es == []
    else
      exists event ::
        && EventOfLine(event, regex, ls[|ls| - 1])
        && if event == "" then EventsAre(es, regex, ls[..|ls| - 1], time, name)
           else
             && es != [] && es[|es| - 1] == EventData(time, name, event)
             && EventsAre(es[..|es| - 1], regex, ls[..|ls| - 1], time, name)
  }

  lemma {:induction false} EventsOfLines(regex: Option<Regex>, ls: seq<string>, time: nat, name: string)
    requires (regex.Some? ==> regex.value.Valid()) && AllLines(ls)
    ensures EventsAre(Events(regex, ls, time, name), regex, ls, time, name)
    decreases |ls|
  {
    hide EventText, EventOf, IsLine;
    if ls != [] {
      var l, before := ls[|ls| - 1], Events(regex, ls[..|ls| - 1], time, name);
      EventsOfLines(regex, ls[..|ls| - 1], time, name);
      TextWithNewline(l);
      EventTextSays(regex, Text(l));
      var event := EventText(regex, Text(l));
      assert EventOfLine(event, regex, l);
      assert before + [] == before && (before + [EventData(time, name, event)])[..|before|] == before;
    }
  }

  /** The lines that are not empty, in order. */
  function Kept(ls: seq<string>): seq<string> {
    if ls == [] then []
    else Kept(ls[..|ls| - 1]) + if ls[|ls| - 1] == "\n" then [] else [ls[|ls| - 1]]
  }

  /** The object has one member, `data`, which is the line without its newline. */
  predicate SaysLine(data: string, l: string) {
    var o := ParseObject(data);
    o.Some? && |o.value| == 1 && o.value[0].0 == "data" && o.value[0].1 + "\n" == l
  }

  ghost predicate DataReadsBack(es: seq<EventData>, ls: seq<string>, time: nat, name: string) {
    && |es| == |Kept(ls)|
    && forall i :: 0 <= i < |es| ==>
         es[i].time == time && es[i].eventName == name && SaysLine(es[i].eventData, Kept(ls)[i])
  }

  /** Without a regex there is one event for each line that is not empty, and it gives back the line. */
  lemma {:induction false} DataOfLines(ls: seq<string>, time: nat, name: string)
    requires AllLines(ls)
    ensures DataReadsBack(Events(None, ls, time, name), ls, time, name)
    decreases |ls|
  {
    hide EventText, IsLine, ParseObject;
    if ls != [] {
      DataOfLines(ls[..|ls| - 1], time, name);
      DataOfLine(ls[|ls| - 1]);
    }
  }

  lemma {:induction false} DataOfLine(l: string)
    requires IsLine(l)
    ensures if l == "\n" then EventText(None, Text(l)) == ""
            else EventText(None, Text(l)) != "" && SaysLine(EventText(None, Text(l)), l)
  {
    hide ParseObject;
    TextWithNewline(l);
    EventTextSays(None, Text(l));
    NothingParses();
  }

  ghost predicate ValidSources(sources: seq<LogfileSource>) {
    && (forall i :: 0 <= i < |sources| ==> sources[i].Valid())
    && (forall i, k :: 0 <= i < k < |sources| ==> sources[i] != sources[k])
  }

  /** Each source stands where the checkpoint of its log says. */
  ghost predicate AllAttached(sources: seq<LogfileSource>, configs: seq<SourceConfig>)
    reads sources, set cfg | cfg in configs :: cfg.checkpointFile
  {
    && |sources| == |configs|
    && forall i :: 0 <= i < |sources| ==>
         && sources[i].checkpointFile == configs[i].checkpointFile && sources[i].regex == configs[i].Compiled()
         && AttachedAs(sources[i], configs[i])
  }

  /** The first loop of `addEvent`. */
  method AttachAll(configs: seq<SourceConfig>) returns (sources: Option<seq<LogfileSource>>)
    requires forall cfg :: cfg in configs ==> cfg.Valid()
    ensures sources.Some? <==> forall cfg :: cfg in configs ==> cfg.known && cfg.Attachable()
    ensures sources.Some? ==>
              && ValidSources(sources.value) && AllAttached(sources.value, configs)
              && forall s :: s in sources.value ==> fresh(s)
  {
    hide AttachedAs;
    var attached := [];
    for i := 0 to |configs|
      invariant forall cfg :: cfg in configs[..i] ==> cfg.known && cfg.Attachable()
      invariant ValidSources(attached) && AllAttached(attached, configs[..i])
      invariant forall s :: s in attached ==> fresh(s)
    {
      assert configs[..i + 1] == configs[..i] + [configs[i]];
      if !configs[i].known {
        return None;
      }
      var source := Attach(configs[i]);
      if source.None? {
        return None;
      }
      attached := attached + [source.value];
    }
    assert configs[..|configs|] == configs;
    return Some(attached);
  }

  /** In no pass does a file operation fail while the next event is read. */
  ghost predicate AllReady(passes: seq<seq<Poll>>) {
    forall k, i :: 0 <= k < |passes| && 0 <= i < |passes[k]| ==> Ready(passes[k][i].next)
  }

  /** In all passes source `i` meets the outcome `ios[i]`. */
  ghost predicate Unchanging(passes: seq<seq<Poll>>, ios: seq<FileIO>, n: nat) {
    && |ios| == n && Shaped(passes, n)
    && forall k, i :: 0 <= k < |passes| && 0 <= i < n ==> passes[k][i] == Poll(ios[i], ios[i])
  }

  ghost predicate DistinctTargets(targets: seq<Target>) {
    forall i, k :: 0 <= i < k < |targets| ==> targets[i] != targets[k]
  }

  /** The wall clock. */
  method UnixMicros() returns (t: nat)
  {
    t := *;
  }

  /** Outcomes of the system calls of `count` passes over any number of sources. */
  datatype Outcomes = Outcomes(count: nat, poll: (nat, nat) -> Poll) {
    function Passes(n: nat): (passes: seq<seq<Poll>>)
      ensures |passes| == count && Shaped(passes, n)
      ensures forall k, i :: 0 <= k < count && 0 <= i < n ==> passes[k][i] == poll(k, i)
    {
      seq(count, k requires 0 <= k => seq(n, i requires 0 <= i => poll(k, i)))
    }
  }

  method AnyOutcomes() returns (io: Outcomes)
  {
    io := *;
  }

  /** Outcome of the system calls of one checkpoint write. */
  method AnyWrite() returns (io: WriteIO)
  {
    io := *;
  }

  /** Asks a source for its next event, and then whether more is pending; the log may change in between. */
  method PollSource(src: LogfileSource, poll: Poll) returns (rc: ReturnCode, text: string, more: bool)
    requires src.Valid()
    modifies src, src.buf, src.checkpointFile
    ensures rc.Success? <==> AfterFill(old(src.Pos()), poll.next).0
    ensures rc.Success? ==>
              && src.Pos() == Round(old(src.Pos()), poll)
              && more == (src.Pos().lines != [])
              && text == NextText(src, old(src.Pos()), poll.next)
  {
    hide AfterFill, EventText, AfterTake, Fits, AfterWrite, CheckpointDue;
    var now := UnixMicros();
    var later := UnixMicros();
    var wio := AnyWrite();
    more := false;
    rc, text := src.GetNextEvent("", poll.next, now, later, wio);
    if !rc.Success? {
      return;
    }
    more := src.HasNextLine(poll.more);
  }

  /** The text of the next event of a source. */
  ghost function NextText(src: LogfileSource, p: Position, io: FileIO): string
    requires src.Valid()
  {
    var q := AfterFill(p, io).1;
    if q.lines == [] then "" else EventText(src.regex, Text(q.lines[0]))
  }

  /** The placeholder that keeps only the overlay. */
  function MergeEvents(base: string, overlay: string): string {
    overlay
  }

  ghost function Positions(sources: seq<LogfileSource>): (ps: seq<Position>)
    reads sources
    ensures At(sources, ps)
  {
    seq(|sources|, i requires 0 <= i < |sources| reads sources => sources[i].Pos())
  }

  /** The sources stand at these positions. */
  ghost predicate At(sources: seq<LogfileSource>, ps: seq<Position>)
    reads sources
  {
    |ps| == |sources| && forall i :: 0 <= i < |sources| ==> sources[i].Pos() == ps[i]
  }

  lemma {:induction false} AtEach(sources: seq<LogfileSource>, ps: seq<Position>)
    requires At(sources, ps)
    ensures |ps| == |sources| && forall i :: 0 <= i < |sources| ==> sources[i].Pos() == ps[i]
  {
  }

  /** One pass over all sources. */
  function Rounds(ps: seq<Position>, polls: seq<Poll>): (qs: seq<Position>)
    requires |ps| == |polls|
    ensures |qs| == |ps| && forall i :: 0 <= i < |ps| ==> qs[i] == Round(ps[i], polls[i])
  {
    seq(|ps|, i requires 0 <= i < |ps| => Round(ps[i], polls[i]))
  }

  ghost function Buffers(sources: seq<LogfileSource>): set<object> {
    set s | s in sources :: s.buf
  }

  ghost function CheckpointFiles(sources: seq<LogfileSource>): set<object> {
    set s | s in sources :: s.checkpointFile
  }

  /** The first `j` sources have been polled once since they stood at `ps`. */
  ghost predicate Polled(sources: seq<LogfileSource>, ps: seq<Position>, polls: seq<Poll>, j: nat)
    requires |ps| == |polls| == |sources|
    reads sources
  {
    forall i :: 0 <= i < |sources| ==> sources[i].Pos() == if i < j then Round(ps[i], polls[i]) else ps[i]
  }

  /** Polls the source in place `j`. */
  method PollOne(sources: seq<LogfileSource>, polls: seq<Poll>, ghost ps: seq<Position>, j: nat)
    returns (rc: ReturnCode, text: string, more: bool)
    requires ValidSources(sources) && |ps| == |polls| == |sources| && j < |sources|
    requires Polled(sources, ps, polls, j)
    modifies sources, Buffers(sources), CheckpointFiles(sources)
    ensures rc.Success? <==> AfterFill(ps[j], polls[j].next).0
    ensures rc.Success? ==>
              && Polled(sources, ps, polls, j + 1)
              && more == (Round(ps[j], polls[j]).lines != [])
              && text == NextText(sources[j], ps[j], polls[j].next)
  {
    hide AfterFill, Round, EventText, NextText;
    var src := sources[j];
    assert src.buf in Buffers(sources) && src.checkpointFile in CheckpointFiles(sources);
    rc, text, more := PollSource(src, polls[j]);
  }

  /**
   One pass over the sources.  Each source gives up one line, but since
   merging keeps the overlay only the last source's event survives.
   */
  method PollSources(sources: seq<LogfileSource>, polls: seq<Poll>, ghost ps: seq<Position>)
    returns (rc: ReturnCode, merged: string, cont: bool)
    requires ValidSources(sources) && |ps| == |polls| == |sources| > 0
    requires At(sources, ps)
    modifies sources, Buffers(sources), CheckpointFiles(sources)
    ensures rc.Success? <==> forall i :: 0 <= i < |ps| ==> AfterFill(ps[i], polls[i].next).0
    ensures rc.Success? ==>
              && At(sources, Rounds(ps, polls))
              && (cont <==> exists i :: 0 <= i < |ps| && Round(ps[i], polls[i]).lines != [])
              && merged == NextText(sources[|ps| - 1], ps[|ps| - 1], polls[|ps| - 1].next)
  {
    hide AfterFill, Round, NextText, Polled, At, Rounds, ValidSources;
    cont := false;
    merged := "";
    rc := Success;
    NonePolled(sources, ps, polls);
    SourcesValid(sources);
    for j := 0 to |sources|
      invariant rc.Success?
      invariant Polled(sources, ps, polls, j)
      invariant forall i :: 0 <= i < j ==> AfterFill(ps[i], polls[i].next).0
      invariant cont <==> exists i :: 0 <= i < j && Round(ps[i], polls[i]).lines != []
      invariant j > 0 ==> merged == NextText(sources[j - 1], ps[j - 1], polls[j - 1].next)
    {
      var text, more;
      rc, text, more := PollOne(sources, polls, ps, j);
      if !rc.Success? {
        return;
      }
      if merged == "" {
        merged := text;
      } else {
        merged := MergeEvents(merged, text);
      }
      if more {
        cont := true;
      }
    }
    AllPolled(sources, ps, polls);
  }

  lemma {:induction false} NonePolled(sources: seq<LogfileSource>, ps: seq<Position>, polls: seq<Poll>)
    requires |ps| == |polls| == |sources| && At(sources, ps)
    ensures Polled(sources, ps, polls, 0)
  {
    hide Round;
  }

  lemma {:induction false} AllPolled(sources: seq<LogfileSource>, ps: seq<Position>, polls: seq<Poll>)
    requires |ps| == |polls| == |sources| && Polled(sources, ps, polls, |sources|)
    ensures At(sources, Rounds(ps, polls))
  {
    hide Round, Rounds;
    assert forall i :: 0 <= i < |sources| ==> Rounds(ps, polls)[i] == Round(ps[i], polls[i]);
  }

  // ---------------------------------------------------------------- passes over all sources

  /** Each pass has an outcome for each source. */
  predicate Shaped(passes: seq<seq<Poll>>, n: nat) {
    forall k :: 0 <= k < |passes| ==> |passes[k]| == n
  }

  /** What the passes hold for source `i`. */
  function Column(passes: seq<seq<Poll>>, n: nat, i: nat): (polls: seq<Poll>)
    requires Shaped(passes, n) && i < n
    ensures |polls| == |passes| && forall k :: 0 <= k < |passes| ==> polls[k] == passes[k][i]
  {
    seq(|passes|, k requires 0 <= k < |passes| => passes[k][i])
  }

  /** The positions `ps` are reached from `ps0` by the first `k` passes. */
  ghost predicate AfterPasses(ps0: seq<Position>, ps: seq<Position>, passes: seq<seq<Poll>>, k: nat)
    requires k <= |passes| && Shaped(passes, |ps0|)
  {
    && |ps| == |ps0|
    && forall i :: 0 <= i < |ps| ==> ps[i] == Walk(ps0[i], Column(passes, |ps0|, i)[..k])
  }

  lemma {:induction false} NoPasses(ps0: seq<Position>, passes: seq<seq<Poll>>)
    requires Shaped(passes, |ps0|)
    ensures AfterPasses(ps0, ps0, passes, 0)
  {
  }

  lemma {:induction false} OneMorePass(ps0: seq<Position>, ps: seq<Position>, passes: seq<seq<Poll>>, k: nat)
    requires k < |passes| && Shaped(passes, |ps0|) && AfterPasses(ps0, ps, passes, k)
    ensures AfterPasses(ps0, Rounds(ps, passes[k]), passes, k + 1)
  {
    hide Walk, Round, Rounds;
    var qs := Rounds(ps, passes[k]);
    forall i | 0 <= i < |ps0| ensures qs[i] == Walk(ps0[i], Column(passes, |ps0|, i)[..k + 1]) {
      var polls := Column(passes, |ps0|, i);
      assert polls[..k + 1] == polls[..k] + [polls[k]];
      OnePollMore(ps0[i], polls[..k], polls[k]);
    }
  }

  /** The lines taken from the last source by the first `k` passes. */
  function LastTaken(ps0: seq<Position>, passes: seq<seq<Poll>>, k: nat): seq<string>
    requires ps0 != [] && k <= |passes| && Shaped(passes, |ps0|)
  {
    TakenLines(ps0[|ps0| - 1], Column(passes, |ps0|, |ps0| - 1)[..k])
  }

  /** The event of one more pass is that of the next line of the last source. */
  lemma {:induction false} OneMoreEvent(src: LogfileSource, ps0: seq<Position>, ps: seq<Position>,
                                        passes: seq<seq<Poll>>, k: nat, time: nat, name: string)
    requires src.Valid() && ps0 != [] && k < |passes| && Shaped(passes, |ps0|) && AfterPasses(ps0, ps, passes, k)
    ensures var n := |ps0| - 1;
            Events(src.regex, LastTaken(ps0, passes, k + 1), time, name)
            == Events(src.regex, LastTaken(ps0, passes, k), time, name)
             + Emitted(NextText(src, ps[n], passes[k][n].next), time, name)
  {
    hide Walk, TakenLines, Events, EventText, AfterFill;
    var n := |ps0| - 1;
    var polls := Column(passes, |ps0|, n);
    assert polls[..k + 1] == polls[..k] + [polls[k]];
    OnePollMore(ps0[n], polls[..k], polls[k]);
    var ls, more := LastTaken(ps0, passes, k), NextLine(ps[n], polls[k].next);
    if more == [] {
      assert ls + [] == ls;
      var es := Events(src.regex, ls, time, name);
      assert es + [] == es;
    } else {
      EventsSnoc(src.regex, ls, more[0], time, name);
      assert more == [more[0]];
    }
  }

  lemma {:induction false} NoEvents(regex: Option<Regex>, ps0: seq<Position>, passes: seq<seq<Poll>>,
                                    time: nat, name: string)
    requires regex.Some? ==> regex.value.Valid()
    requires ps0 != [] && Shaped(passes, |ps0|)
    ensures Events(regex, LastTaken(ps0, passes, 0), time, name) == []
  {
  }

  lemma {:induction false} EventsSnoc(regex: Option<Regex>, ls: seq<string>, l: string, time: nat, name: string)
    requires regex.Some? ==> regex.value.Valid()
    ensures Events(regex, ls + [l], time, name)
         == Events(regex, ls, time, name) + Emitted(EventText(regex, Text(l)), time, name)
  {
  }

  ghost function Logs(targets: seq<Target>): (logs: seq<seq<EventData>>)
    reads targets
    ensures |logs| == |targets| && forall i :: 0 <= i < |targets| ==> logs[i] == targets[i].received
  {
    seq(|targets|, i requires 0 <= i < |targets| reads targets => targets[i].received)
  }

  /** Every target got the same events behind what it had. */
  ghost predicate Received(targets: seq<Target>, logs: seq<seq<EventData>>, events: seq<EventData>)
    reads targets
  {
    |logs| == |targets| && forall i :: 0 <= i < |targets| ==> targets[i].received == logs[i] + events
  }

  /** Every target accepted all it got behind what it had. */
  ghost predicate Accepted(targets: seq<Target>, logs: seq<seq<EventData>>)
    requires |logs| == |targets|
    reads targets
  {
    forall i, n :: 0 <= i < |targets| && |logs[i]| <= n < |targets[i].received| ==> targets[i].accepts(n)
  }

  /** Every target accepted all it got behind what it had, except perhaps the last event. */
  ghost predicate AcceptedButLast(targets: seq<Target>, logs: seq<seq<EventData>>)
    requires |logs| == |targets|
    reads targets
  {
    forall i, n :: 0 <= i < |targets| && |logs[i]| <= n < |targets[i].received| - 1 ==> targets[i].accepts(n)
  }

  lemma {:induction false} AllAccepted(targets: seq<Target>, logs: seq<seq<EventData>>)
    requires |logs| == |targets| && AlwaysAccept(targets)
    ensures Accepted(targets, logs)
  {
  }

  lemma {:induction false} AcceptedAll(targets: seq<Target>, logs: seq<seq<EventData>>)
    requires |logs| == |targets| && Accepted(targets, logs)
    ensures AcceptedButLast(targets, logs)
  {
  }

  /** In pass `k` the next event of some source cannot be read. */
  ghost predicate PollFails(ps0: seq<Position>, passes: seq<seq<Poll>>, k: nat)
    requires Shaped(passes, |ps0|)
  {
    && k < |passes|
    && exists i :: 0 <= i < |ps0| && !AfterFill(Walk(ps0[i], Column(passes, |ps0|, i)[..k]), passes[k][i].next).0
  }

  lemma {:induction false} FailedPoll(ps0: seq<Position>, ps: seq<Position>, passes: seq<seq<Poll>>, k: nat)
    requires k < |passes| && Shaped(passes, |ps0|) && AfterPasses(ps0, ps, passes, k)
    requires exists i :: 0 <= i < |ps| && !AfterFill(ps[i], passes[k][i].next).0
    ensures PollFails(ps0, passes, k)
  {
    hide AfterFill, Walk;
    var i :| 0 <= i < |ps| && !AfterFill(ps[i], passes[k][i].next).0;
    assert ps[i] == Walk(ps0[i], Column(passes, |ps0|, i)[..k]);
  }

  lemma {:induction false} NoneFails(ps0: seq<Position>, passes: seq<seq<Poll>>, k: nat)
    requires Shaped(passes, |ps0|) && AllReady(passes)
    ensures !PollFails(ps0, passes, k)
  {
    hide Walk;
    if k < |passes| {
      forall i | 0 <= i < |ps0| ensures AfterFill(Walk(ps0[i], Column(passes, |ps0|, i)[..k]), passes[k][i].next).0 {
        assert Ready(passes[k][i].next);
      }
    }
  }

  /**
   A binding was processed: the targets got the events of the lines that
   `made` passes took from the last source, up to the first one refused;
   unless one was refused or a source could not be read, all passes were made,
   or no source has more.
   */
  ghost predicate Processed(targets: seq<Target>, job: EventBinding, ps0: seq<Position>, logs: seq<seq<EventData>>,
                            passes: seq<seq<Poll>>, time: nat, made: nat)
    requires |ps0| == |job.sources| && |logs| == |targets| && Shaped(passes, |ps0|)
    requires ValidSources(job.sources)
    reads targets, job.sources
  {
    if ps0 == [] then Received(targets, logs, [])
    else
      && made <= |passes|
      && Received(targets, logs,
           Events(job.sources[|ps0| - 1].regex, LastTaken(ps0, passes, made), time, job.eventName))
      && AcceptedButLast(targets, logs)
      && (Accepted(targets, logs) && !PollFails(ps0, passes, made) ==>
            && AfterPasses(ps0, Positions(job.sources), passes, made)
            && (made == |passes| || (made > 0 && NoneHasMore(Positions(job.sources)))))
  }

  ghost predicate DidProcess(targets: seq<Target>, job: EventBinding, ps0: seq<Position>, logs: seq<seq<EventData>>,
                             io: Outcomes)
    requires |ps0| == |job.sources| && |logs| == |targets|
    reads targets, job.sources
  {
    && ValidSources(job.sources)
    && exists time, made :: Processed(targets, job, ps0, logs, io.Passes(|ps0|), time, made)
  }

  /** Every target got the events of the lines behind what it had. */
  ghost predicate EventsReceived(targets: seq<Target>, logs: seq<seq<EventData>>, regex: Option<Regex>,
                                 ls: seq<string>, time: nat, name: string)
    reads targets
  {
    exists es :: Received(targets, logs, es) && EventsAre(es, regex, ls, time, name)
  }

  lemma {:induction false} ReceivedOfTaken(targets: seq<Target>, logs: seq<seq<EventData>>, regex: Option<Regex>,
                                           ps0: seq<Position>, passes: seq<seq<Poll>>, k: nat, time: nat, name: string)
    requires ps0 != [] && k <= |passes| && Shaped(passes, |ps0|)
    requires (regex.Some? ==> regex.value.Valid()) && AllLines(ps0[|ps0| - 1].lines)
    requires Received(targets, logs, Events(regex, LastTaken(ps0, passes, k), time, name))
    ensures EventsReceived(targets, logs, regex, LastTaken(ps0, passes, k), time, name)
  {
    hide Received, Events, EventsAre, TakenLines;
    TakenAreLines(ps0[|ps0| - 1], Column(passes, |ps0|, |ps0| - 1)[..k]);
    EventsOfLines(regex, LastTaken(ps0, passes, k), time, name);
  }

  /** Every target got one event for each line that is not empty, in order, that gives back the line. */
  ghost predicate EachLineDelivered(targets: seq<Target>, logs: seq<seq<EventData>>, ls: seq<string>,
                                    time: nat, name: string)
    reads targets
  {
    exists es :: Received(targets, logs, es) && DataReadsBack(es, ls, time, name)
  }

  /** The complete lines of a file from a position on, behind what is still buffered of an older file. */
  function LinesFrom(p: Position, f: Snapshot): seq<string> {
    if p.inode == f.inode && p.consumed <= p.offset <= |f.content| then CompleteLines(f.content[p.consumed..])
    else p.lines + CompleteLines(f.content)
  }

  /** The position is the end of the last complete line. */
  predicate AtLastLine(p: Position, f: Snapshot) {
    && p.inode == f.inode && p.lines == [] && p.consumed == p.offset <= |f.content|
    && Boundary(f.content, p.consumed) && NoNewline(f.content[p.consumed..])
  }

  /** A file that stays as it is, and a position with complete lines in hand that is sound if it is in that file. */
  predicate StableLog(p: Position, io: FileIO) {
    Stable(io) && Tracks(p, io.stat.value) && AllLines(p.lines)
  }

  lemma {:induction false} StableIsReady(passes: seq<seq<Poll>>, ios: seq<FileIO>, p: Position)
    requires Unchanging(passes, ios, 1) && StableLog(p, ios[0])
    ensures AllReady(passes)
  {
  }

  /** What draining one source without a regex, of a file that stays as it is, amounts to. */
  lemma {:induction false} DrainDelivers(targets: seq<Target>, logs: seq<seq<EventData>>, p0: Position, p: Position,
                                         io: FileIO, time: nat, name: string)
    requires StableLog(p0, io) && AllHandedOut(p0, p, io)
    requires Received(targets, logs, Events(None, Pending(p0, io), time, name))
    ensures EachLineDelivered(targets, logs, LinesFrom(p0, io.stat.value), time, name)
    ensures AtLastLine(p, io.stat.value)
  {
    hide Received, Events, DataReadsBack, Pending, Boundary, CompleteLines, NoNewline, IsLine;
    var f := io.stat.value;
    PendingIsRestOfFile(p0, io);
    AllLinesAppend(p0.lines, CompleteLines(f.content));
    DataOfLines(Pending(p0, io), time, name);
    DrainedAtLastLine(p, f);
  }

  lemma {:induction false} NothingReceived(targets: seq<Target>)
    ensures Received(targets, Logs(targets), [])
    ensures Accepted(targets, Logs(targets))
  {
    assert forall i :: 0 <= i < |targets| ==> targets[i].received + [] == targets[i].received;
  }

  ghost predicate AlwaysAccept(targets: seq<Target>) {
    forall i, n: nat :: 0 <= i < |targets| ==> targets[i].accepts(n)
  }

  // ---------------------------------------------------------------- the queue of bindings

  ghost function Jobs(q: seq<EventBinding>): (jobs: seq<Scheduler.Job>)
    reads q
    ensures |jobs| == |q|
  {
    if q == [] then [] else [q[0].Job()] + Jobs(q[1..])
  }

  /** `multiset::insert` with the comparison by next tick. */
  function InsertBinding(q: seq<EventBinding>, b: EventBinding): seq<EventBinding>
    reads q, b
  {
    if q == [] || q[0].nextTick > b.nextTick then [b] + q else [q[0]] + InsertBinding(q[1..], b)
  }

  lemma {:induction false} InsertBindingJobs(q: seq<EventBinding>, b: EventBinding)
    ensures Jobs(InsertBinding(q, b)) == Scheduler.Insert(Jobs(q), b.Job())
    ensures multiset(InsertBinding(q, b)) == multiset(q) + multiset{b}
  {
    if q == [] || q[0].nextTick > b.nextTick {
      assert ([b] + q)[1..] == q;
    } else {
      InsertBindingJobs(q[1..], b);
      assert ([q[0]] + InsertBinding(q[1..], b))[1..] == InsertBinding(q[1..], b);
      assert q == [q[0]] + q[1..];
    }
  }

  ghost predicate NoRepeats(q: seq<EventBinding>) {
    forall b :: b in multiset(q) ==> multiset(q)[b] == 1
  }

  ghost predicate AllValidSources(q: seq<EventBinding>) {
    forall b :: b in q ==> ValidSources(b.sources)
  }

  lemma {:induction false} NewBinding(q: seq<EventBinding>, b: EventBinding)
    requires b !in q && NoRepeats(q) && AllValidSources(q) && ValidSources(b.sources)
    ensures NoRepeats(q + [b]) && AllValidSources(q + [b])
  {
    assert b !in multiset(q);
  }

  lemma {:induction false} NoRepeatsSame(q: seq<EventBinding>, r: seq<EventBinding>)
    requires NoRepeats(q) && multiset(q) == multiset(r)
    ensures NoRepeats(r)
  {
  }

  lemma {:induction false} HeadIsAlone(q: seq<EventBinding>)
    requires q != [] && NoRepeats(q)
    ensures q[0] !in q[1..]
  {
    assert q == [q[0]] + q[1..];
    assert multiset(q)[q[0]] == 1;
    assert q[0] in q[1..] <==> q[0] in multiset(q[1..]);
  }

  /** The objects that processing these bindings may change. */
  ghost function Footprint(q: seq<EventBinding>): set<object> {
    (set b: EventBinding, s: LogfileSource | b in q && s in b.sources :: s as object)
    + (set b: EventBinding, s: LogfileSource | b in q && s in b.sources :: s.buf as object)
    + (set b: EventBinding, s: LogfileSource | b in q && s in b.sources :: s.checkpointFile as object)
  }

  lemma {:induction false} InFootprint(q: seq<EventBinding>, b: EventBinding)
    requires b in q
    ensures forall s :: s in b.sources ==> s in Footprint(q)
    ensures Buffers(b.sources) <= Footprint(q)
    ensures CheckpointFiles(b.sources) <= Footprint(q)
  {
  }

  /** Processing changes neither the service nor its bindings. */
  lemma {:induction false} OutsideFootprint(service: ServiceImpl, q: seq<EventBinding>)
    ensures service !in Footprint(q)
    ensures forall b :: b in q ==> b !in Footprint(q)
    ensures forall t :: t in service.targets ==> t as object != service
    ensures forall b, t :: b in q && t in service.targets ==> b as object != t
  {
  }

  lemma {:induction false} JobsHead(q: seq<EventBinding>)
    requires q != []
    ensures Jobs(q) == [q[0].Job()] + Jobs(q[1..])
  {
  }

  lemma {:induction false} SameContents(q: seq<EventBinding>, r: seq<EventBinding>)
    requires multiset(q) == multiset(r)
    ensures forall b :: b in q <==> b in r
  {
    assert forall b :: b in q <==> b in multiset(q);
    assert forall b :: b in r <==> b in multiset(r);
  }

  lemma {:induction false} SameBindings(q: seq<EventBinding>, r: seq<EventBinding>)
    requires q != [] && multiset(q) == multiset(r)
    ensures q[0] in r && r != []
  {
    assert q[0] in multiset(r);
  }

  class ServiceImpl {
    const targets: seq<Target>
    var bindings: seq<EventBinding>
    var queue: seq<EventBinding>
    ghost var log: seq<Scheduler.Firing>
    ghost var clock: nat

    constructor (targets: seq<Target>)
      requires DistinctTargets(targets)
      ensures Valid() && this.targets == targets && bindings == [] && Sched() == Scheduler.Sched([], [], 0)
    {
      this.targets := targets;
      bindings, queue, log, clock := [], [], [], 0;
    }

    /** The tick queue, the firings so far and the clock, as values. */
    ghost function Sched(): Scheduler.Sched
      reads this, queue
    {
      Scheduler.Sched(Jobs(queue), log, clock)
    }

    /** Every registered binding is in the queue exactly once. */
    ghost predicate Valid()
      reads this
    {
      && DistinctTargets(targets)
      && AllValidSources(bindings)
      && NoRepeats(bindings)
      && multiset(queue) == multiset(bindings)
    }

    /**
     Attaches the sources one by one, then registers the binding; at the first
     source that cannot be attached it gives up and registers nothing.
     */
    method AddEvent(eventName: string, intervalMicros: nat, configs: seq<SourceConfig>, now: nat)
      returns (rc: ReturnCode)
      requires Valid() && forall cfg :: cfg in configs ==> cfg.Valid()
      modifies this`bindings, this`queue, this`clock
      ensures Valid()
      ensures rc.Success? <==> forall cfg :: cfg in configs ==> cfg.known && cfg.Attachable()
      ensures rc.Success? ==>
                && Sched() == Scheduler.Add(old(Sched()), |old(bindings)|, intervalMicros, now)
                && |bindings| == |old(bindings)| + 1 && bindings[..|old(bindings)|] == old(bindings)
                && bindings[|old(bindings)|].eventName == eventName
                && AllAttached(bindings[|old(bindings)|].sources, configs)
      ensures rc.Error? ==> bindings == old(bindings) && Sched() == old(Sched())
    {
      hide Jobs, InsertBinding, ValidSources, AllValidSources, NoRepeats, DistinctTargets, AllAttached;
      var sources := AttachAll(configs);
      if sources.None? {
        return Error("EPLUGIN");
      }
      var binding := new EventBinding(|bindings|, eventName, intervalMicros, sources.value, now);
      InsertBindingJobs(queue, binding);
      NewBinding(bindings, binding);
      queue := InsertBinding(queue, binding);
      bindings := bindings + [binding];
      clock := now;
      return Success;
    }

    /** Takes the fired job off the front, moves its tick, and queues it again. */
    method Requeue(job: EventBinding, after: nat)
      requires Valid() && queue != [] && job == queue[0]
      modifies this`queue, job
      ensures Valid()
      ensures Jobs(queue) ==
                Scheduler.Insert(old(Jobs(queue))[1..],
                                 old(job.Job()).(tick := Scheduler.NextTick(old(job.Job()), after)))
      ensures var regular := old(job.nextTick) + job.intervalMicros;
              job.nextTick == if regular < after then after else regular
    {
      hide InsertBinding, AllValidSources, DistinctTargets, Jobs, NoRepeats;
      NoRepeatsSame(bindings, queue);
      HeadIsAlone(queue);
      JobsHead(queue);
      ghost var rest := queue[1..];
      assert queue == [job] + rest;
      queue := queue[1..];
      job.nextTick := job.nextTick + job.intervalMicros;
      if job.nextTick < after {
        job.nextTick := after;
      }
      assert Jobs(rest) == old(Jobs(rest));
      InsertBindingJobs(queue, job);
      queue := InsertBinding(queue, job);
    }

    /** One turn of the loop of `run`; `io` is what the system calls of the job return, if one fires. */
    method RunTurn(turn: Scheduler.Turn, io: Outcomes)
      requires Valid() && queue != []
      modifies this`queue, this`log, this`clock, bindings, Footprint(bindings), targets
      ensures Valid() && queue != []
      ensures Sched() == Scheduler.Step(old(Sched()), turn)
      ensures var job := old(queue[0]);
              if turn.Woken? && old(queue[0].nextTick) <= turn.now then
                DidProcess(targets, job, old(Positions(job.sources)), old(Logs(targets)), io)
              else Received(targets, old(Logs(targets)), [])
    {
      hide Jobs, AllValidSources, NoRepeats, DistinctTargets, InsertBinding, Footprint, Received, DidProcess;
      OutsideFootprint(this, bindings);
      NothingReceived(targets);
      if turn.Monitor? {
        return;
      }
      var job := queue[0];
      JobsHead(queue);
      SameBindings(queue, bindings);
      if job.nextTick > turn.now {
        clock := turn.now;
        return;
      }
      ghost var firing := Scheduler.Firing(job.id, job.nextTick, turn.now, turn.after);
      ghost var ps0, logs := Positions(job.sources), Logs(targets);
      Process(job, io);
      Requeue(job, turn.after);
      log := log + [firing];
      clock := turn.after;
    }

    /** Processes a registered binding; the tick queue is not touched. */
    method Process(job: EventBinding, io: Outcomes)
      requires Valid() && job in bindings
      modifies Footprint(bindings), targets
      ensures Valid() && Sched() == old(Sched()) && job.Job() == old(job.Job())
      ensures DidProcess(targets, job, old(Positions(job.sources)), old(Logs(targets)), io)
    {
      hide Footprint, Buffers, CheckpointFiles, DistinctTargets, NoRepeats, Jobs;
      hide StableLog, EachLineDelivered, LinesFrom, AtLastLine, AllHandedOut, Pending, Events, Received, AllReady;
      hide AlwaysAccept, Accepted, AcceptedButLast, PollFails, LastTaken, AfterPasses, NoneHasMore, EventsReceived;
      hide Longest;
      SameContents(queue, bindings);
      InFootprint(bindings, job);
      OutsideFootprint(this, bindings);
      ghost var ps0, logs := Positions(job.sources), Logs(targets);
      var _, time, made := ProcessEvent(job, io.Passes(|job.sources|), []);
      assert Processed(targets, job, ps0, logs, io.Passes(|job.sources|), time, made);
    }

    /** The run loop, for as long as no kill arrives; an empty queue ends it at once. */
    method Run(turns: seq<Scheduler.Turn>)
      requires Valid()
      modifies this`queue, this`log, this`clock, bindings, Footprint(bindings), targets
      ensures Valid()
      ensures Sched() == if old(queue) == [] then old(Sched()) else Scheduler.Run(old(Sched()), turns)
    {
      if queue == [] {
        return;
      }
      var i := 0;
      while i < |turns|
        invariant i <= |turns|
        invariant Valid() && queue != []
        invariant Scheduler.Run(Sched(), turns[i..]) == Scheduler.Run(old(Sched()), turns)
      {
        var io := AnyOutcomes();
        RunTurn(turns[i], io);
        assert turns[i..][1..] == turns[i + 1..];
        i := i + 1;
      }
    }

    /** Every target gets the event; the last error is returned. */
    method DeliverEvent(event: EventData) returns (rc: ReturnCode)
      requires DistinctTargets(targets)
      modifies targets
      ensures forall i :: 0 <= i < |targets| ==> targets[i].received == old(targets[i].received) + [event]
      ensures rc.Success? <==> forall i :: 0 <= i < |targets| ==> targets[i].accepts(|old(targets[i].received)|)
    {
      rc := Success;
      for k := 0 to |targets|
        invariant forall i :: 0 <= i < k ==> targets[i].received == old(targets[i].received) + [event]
        invariant forall i :: k <= i < |targets| ==> targets[i].received == old(targets[i].received)
        invariant rc.Success? <==> forall i :: 0 <= i < k ==> targets[i].accepts(|old(targets[i].received)|)
      {
        var trc := targets[k].EmitEvent(event);
        if !trc.Success? {
          rc := trc;
        }
      }
    }

    /** Delivers an event unless its text is empty. */
    method EmitEvent(binding: EventBinding, time: nat, text: string,
                     ghost logs: seq<seq<EventData>>, ghost events: seq<EventData>)
      returns (rc: ReturnCode)
      requires DistinctTargets(targets) && Received(targets, logs, events) && Accepted(targets, logs)
      modifies targets
      ensures Received(targets, logs, events + Emitted(text, time, binding.eventName))
      ensures rc.Success? <==>
                text == "" || forall i :: 0 <= i < |targets| ==> targets[i].accepts(|old(targets[i].received)|)
      ensures rc.Success? <==> Accepted(targets, logs)
      ensures AcceptedButLast(targets, logs)
    {
      if text == "" {
        assert events + [] == events;
        return Success;
      }
      rc := DeliverEvent(EventData(time, binding.eventName, text));
    }

    /** One turn of the loop of `processEvent`: poll all sources, then emit what is left after merging. */
    method Pass(binding: EventBinding, polls: seq<Poll>, time: nat,
                ghost ps: seq<Position>, ghost logs: seq<seq<EventData>>, ghost events: seq<EventData>)
      returns (rc: ReturnCode, cont: bool, ghost polled: bool)
      requires ValidSources(binding.sources) && |polls| == |ps| == |binding.sources| > 0 && DistinctTargets(targets)
      requires |logs| == |targets|
      requires At(binding.sources, ps) && Received(targets, logs, events) && Accepted(targets, logs)
      modifies binding.sources, Buffers(binding.sources), CheckpointFiles(binding.sources), targets
      ensures polled <==> forall i :: 0 <= i < |ps| ==> AfterFill(ps[i], polls[i].next).0
      ensures rc.Success? <==> polled && Accepted(targets, logs)
      ensures AcceptedButLast(targets, logs)
      ensures !polled ==> Received(targets, logs, events) && Accepted(targets, logs)
      ensures polled ==>
                && At(binding.sources, Rounds(ps, polls))
                && (cont <==> exists i :: 0 <= i < |ps| && Round(ps[i], polls[i]).lines != [])
                && Received(targets, logs,
                     events + Emitted(NextText(binding.sources[|ps| - 1], ps[|ps| - 1], polls[|ps| - 1].next),
                                      time, binding.eventName))
    {
      hide AfterFill, Round, NextText, ValidSources, At, Received, Emitted, Rounds, DistinctTargets;
      hide Accepted, AcceptedButLast;
      var text;
      rc, text, cont := PollSources(binding.sources, polls, ps);
      polled := rc.Success?;
      if !rc.Success? {
        AcceptedAll(targets, logs);
        return;
      }
      rc := EmitEvent(binding, time, text, logs, events);
    }

    /**
     Polls the sources until none has more, or a call fails; `passes` are the
     outcomes for as many passes as there may be, and `made` counts the passes
     in which all sources could be polled.

     Whatever the logs do in between, every target has received exactly the
     events of the lines taken from the last source, in order, each saying what
     its line says; the events of the other sources are merged away.

     When the outcomes stay the same (`ios`), one pass more than the longest
     list of pending lines is enough: all pending lines are taken from every
     source.  In particular, with one source without a regex, and targets that
     accept everything, every target gets one event for each line from the old
     position to the end of the file, and the position ends behind the last
     complete line.
     */
    method ProcessEvent(binding: EventBinding, passes: seq<seq<Poll>>, ghost ios: seq<FileIO>)
      returns (rc: ReturnCode, ghost time: nat, ghost made: nat)
      requires ValidSources(binding.sources) && DistinctTargets(targets) && Shaped(passes, |binding.sources|)
      modifies binding.sources, Buffers(binding.sources), CheckpointFiles(binding.sources), targets
      ensures rc.Success? ==> Accepted(targets, old(Logs(targets)))
      ensures AcceptedButLast(targets, old(Logs(targets)))
      ensures rc.Error? && Accepted(targets, old(Logs(targets))) ==>
                PollFails(old(Positions(binding.sources)), passes, made)
      ensures AllReady(passes) && AlwaysAccept(targets) ==> rc.Success?
      ensures binding.sources == [] ==> rc.Success? && Received(targets, old(Logs(targets)), [])
      ensures binding.sources != [] ==>
                && made <= |passes|
                && Received(targets, old(Logs(targets)),
                     Events(binding.sources[|binding.sources| - 1].regex,
                            LastTaken(old(Positions(binding.sources)), passes, made), time, binding.eventName))
      ensures binding.sources != [] && AllLines(old(binding.sources[|binding.sources| - 1].Pos()).lines) ==>
                EventsReceived(targets, old(Logs(targets)), binding.sources[|binding.sources| - 1].regex,
                               LastTaken(old(Positions(binding.sources)), passes, made), time, binding.eventName)
      ensures binding.sources != [] && rc.Success? ==>
                && AfterPasses(old(Positions(binding.sources)), Positions(binding.sources), passes, made)
                && (made == |passes| || (made > 0 && NoneHasMore(Positions(binding.sources))))
      ensures binding.sources != [] && Unchanging(passes, ios, |binding.sources|) && rc.Success? &&
              |passes| > Longest(old(Positions(binding.sources)), ios) ==>
                && Received(targets, old(Logs(targets)),
                     Events(binding.sources[|ios| - 1].regex,
                            Pending(old(Positions(binding.sources))[|ios| - 1], ios[|ios| - 1]),
                            time, binding.eventName))
                && forall i :: 0 <= i < |ios| ==>
                     AllHandedOut(old(Positions(binding.sources))[i], binding.sources[i].Pos(), ios[i])
      ensures |binding.sources| == 1 && binding.sources[0].regex.None? && AlwaysAccept(targets) &&
              Unchanging(passes, ios, 1) && StableLog(old(binding.sources[0].Pos()), ios[0]) &&
              |passes| > |Pending(old(binding.sources[0].Pos()), ios[0])| ==>
                && rc.Success?
                && EachLineDelivered(targets, old(Logs(targets)),
                     LinesFrom(old(binding.sources[0].Pos()), ios[0].stat.value), time, binding.eventName)
                && AtLastLine(binding.sources[0].Pos(), ios[0].stat.value)
    {
      hide StableLog, EachLineDelivered, LinesFrom, AtLastLine, Pending, AfterPasses, LastTaken;
      hide AllHandedOut, Longest, Events, AlwaysAccept, AllReady, DistinctTargets, Received, At, EventsReceived, IsLine;
      hide Unchanging, Shaped, ValidSources, NoneHasMore, Accepted, AcceptedButLast, PollFails;
      made := 0;
      ghost var sources, logs := binding.sources, Logs(targets);
      if binding.sources == [] {
        NothingReceived(targets);
        AcceptedAll(targets, logs);
        return Success, 0, 0;
      }
      var now := UnixMicros();
      time := now;
      ghost var n, ps0 := |sources|, Positions(sources);
      UnchangingShape(passes, ios, n);
      if n == 1 && Unchanging(passes, ios, 1) {
        LongestOfOne(ps0, ios);
        if StableLog(ps0[0], ios[0]) {
          StableIsReady(passes, ios, ps0[0]);
        }
      }
      SourcesValid(sources);
      rc, made := PollUntilDone(binding, passes, now);
      if AllReady(passes) && AlwaysAccept(targets) {
        AllAccepted(targets, logs);
        NoneFails(ps0, passes, made);
      }
      if AllLines(ps0[n - 1].lines) {
        ReceivedOfTaken(targets, logs, sources[n - 1].regex, ps0, passes, made, time, binding.eventName);
      }
      ghost var ps := Positions(sources);
      AtEach(sources, ps);
      if rc.Success? && Unchanging(passes, ios, n) && |passes| > Longest(ps0, ios) {
        AllTaken(ps0, ps, passes, ios, made);
        if n == 1 && sources[0].regex.None? && StableLog(ps0[0], ios[0]) {
          DrainDelivers(targets, logs, ps0[0], ps[0], ios[0], time, binding.eventName);
        }
      }
    }

    /** The loop of `processEvent`, for at least one source. */
    method PollUntilDone(binding: EventBinding, passes: seq<seq<Poll>>, now: nat)
      returns (rc: ReturnCode, ghost made: nat)
      requires ValidSources(binding.sources) && DistinctTargets(targets) && Shaped(passes, |binding.sources|)
      requires binding.sources != []
      modifies binding.sources, Buffers(binding.sources), CheckpointFiles(binding.sources), targets
      ensures rc.Success? ==> Accepted(targets, old(Logs(targets)))
      ensures AcceptedButLast(targets, old(Logs(targets)))
      ensures rc.Error? && Accepted(targets, old(Logs(targets))) ==>
                PollFails(old(Positions(binding.sources)), passes, made)
      ensures made <= |passes|
      ensures Received(targets, old(Logs(targets)),
                Events(binding.sources[|binding.sources| - 1].regex,
                       LastTaken(old(Positions(binding.sources)), passes, made), now, binding.eventName))
      ensures rc.Success? ==>
                && AfterPasses(old(Positions(binding.sources)), Positions(binding.sources), passes, made)
                && (made == |passes| || (made > 0 && NoneHasMore(Positions(binding.sources))))
    {
      hide AfterFill, Round, AfterPasses, LastTaken, Events, Emitted, NextText, PollFails, Rounds;
      hide DistinctTargets, Received, At, Shaped, ValidSources, NoneHasMore, Accepted, AcceptedButLast;
      ghost var sources, ps0 := binding.sources, Positions(binding.sources);
      ghost var last, logs, name := sources[|sources| - 1], Logs(targets), binding.eventName;
      ghost var ps := ps0;
      NothingReceived(targets);
      SourcesValid(sources);
      NoPasses(ps0, passes);
      NoEvents(last.regex, ps0, passes, now, name);
      made := 0;
      var cont, k := true, 0;
      rc := Success;
      while cont && k < |passes|
        invariant made == k <= |passes| && (k == 0 ==> cont)
        invariant AfterPasses(ps0, ps, passes, k) && At(sources, ps)
        invariant |ps| == |sources| && (k > 0 ==> (cont <==> !NoneHasMore(ps)))
        invariant rc.Success? && Accepted(targets, logs)
        invariant Received(targets, logs, Events(last.regex, LastTaken(ps0, passes, k), now, name))
      {
        RightShape(passes, |sources|, k);
        OneMoreEvent(last, ps0, ps, passes, k, now, name);
        OneMorePass(ps0, ps, passes, k);
        HasMore(ps, passes[k]);
        ghost var events := Events(last.regex, LastTaken(ps0, passes, k), now, name);
        ghost var polled;
        rc, cont, polled := Pass(binding, passes[k], now, ps, logs, events);
        if polled {
          made := k + 1;
        } else {
          FailedPoll(ps0, ps, passes, k);
        }
        if !rc.Success? {
          return;
        }
        ps := Rounds(ps, passes[k]);
        k := k + 1;
      }
      AtPositions(sources, ps);
      AcceptedAll(targets, logs);
    }
  }

  /** From `p0` to `p`, every pending line was taken; a position that is sound ends at the last complete line. */
  ghost predicate AllHandedOut(p0: Position, p: Position, io: FileIO) {
    && Pending(p, io) == []
    && (Stable(io) && Tracks(p0, io.stat.value) ==> Tracks(p, io.stat.value) && Drained(p, io.stat.value))
  }

  ghost predicate NoneHasMore(ps: seq<Position>) {
    forall i :: 0 <= i < |ps| ==> ps[i].lines == []
  }

  lemma {:induction false} HasMore(ps: seq<Position>, polls: seq<Poll>)
    requires |ps| == |polls|
    ensures (exists i :: 0 <= i < |ps| && Round(ps[i], polls[i]).lines != []) <==> !NoneHasMore(Rounds(ps, polls))
  {
    hide Round, Rounds;
    var qs := Rounds(ps, polls);
    assert forall i :: 0 <= i < |ps| ==> qs[i].lines == Round(ps[i], polls[i]).lines;
  }

  lemma {:induction false} UnchangingShape(passes: seq<seq<Poll>>, ios: seq<FileIO>, n: nat)
    ensures Unchanging(passes, ios, n) ==> |ios| == n
  {
  }

  lemma {:induction false} RightShape(passes: seq<seq<Poll>>, n: nat, k: nat)
    requires Shaped(passes, n) && k < |passes|
    ensures |passes[k]| == n
  {
  }

  lemma {:induction false} SourcesValid(sources: seq<LogfileSource>)
    requires ValidSources(sources)
    ensures forall i :: 0 <= i < |sources| ==> sources[i].Valid()
  {
  }

  lemma {:induction false} AtPositions(sources: seq<LogfileSource>, ps: seq<Position>)
    requires At(sources, ps)
    ensures Positions(sources) == ps
  {
  }

  /** The largest number of lines any source has pending. */
  function Longest(ps: seq<Position>, ios: seq<FileIO>): nat {
    if |ps| != |ios| || ps == [] then 0
    else Max(|Pending(ps[0], ios[0])|, Longest(ps[1..], ios[1..]))
  }

  lemma {:induction false} LongestBounds(ps: seq<Position>, ios: seq<FileIO>, i: nat)
    requires |ps| == |ios| && i < |ps|
    ensures |Pending(ps[i], ios[i])| <= Longest(ps, ios)
  {
    hide Pending;
    if i > 0 {
      LongestBounds(ps[1..], ios[1..], i - 1);
    }
  }

  lemma {:induction false} LongestOfOne(ps: seq<Position>, ios: seq<FileIO>)
    requires |ps| == |ios| == 1
    ensures Longest(ps, ios) == |Pending(ps[0], ios[0])|
  {
    hide Pending;
    assert ps[1..] == [];
  }

  /** A source with unchanging outcomes has handed out everything once it has no more, or was polled often enough. */
  lemma {:induction false} AllTakenFrom(p0: Position, polls: seq<Poll>, io: FileIO)
    requires Steady(polls, io) && polls != []
    requires Walk(p0, polls).lines == [] || |polls| > |Pending(p0, io)|
    ensures TakenLines(p0, polls) == Pending(p0, io) && AllHandedOut(p0, Walk(p0, polls), io)
  {
    hide Pending, Tracks, Drained, Walk, TakenLines;
    SteadyWalk(p0, polls, io);
    if Stable(io) && Tracks(p0, io.stat.value) {
      SteadyTracks(p0, polls, io);
    }
  }

  /** When no source has more, or there were passes enough, everything pending was taken. */
  lemma {:induction false} AllTaken(ps0: seq<Position>, ps: seq<Position>, passes: seq<seq<Poll>>,
                                    ios: seq<FileIO>, k: nat)
    requires ps0 != [] && 0 < k <= |passes| && Unchanging(passes, ios, |ps0|) && AfterPasses(ps0, ps, passes, k)
    requires NoneHasMore(ps) || k > Longest(ps0, ios)
    ensures LastTaken(ps0, passes, k) == Pending(ps0[|ps0| - 1], ios[|ps0| - 1])
    ensures forall i :: 0 <= i < |ps0| ==> AllHandedOut(ps0[i], ps[i], ios[i])
  {
    hide Pending, AllHandedOut, Walk, TakenLines, Longest;
    forall i | 0 <= i < |ps0|
      ensures AllHandedOut(ps0[i], ps[i], ios[i])
      ensures TakenLines(ps0[i], Column(passes, |ps0|, i)[..k]) == Pending(ps0[i], ios[i])
    {
      LongestBounds(ps0, ios, i);
      AllTakenFrom(ps0[i], Column(passes, |ps0|, i)[..k], ios[i]);
    }
  }

  // ---------------------------------------------------------------- a log that grows meanwhile

  /**
   What polling one source without a regex delivers while its log grows: one
   event for each line that is not empty between the old and the new consumed
   position, in order, that reads back as the line.
   */
  lemma {:induction false} GrowthDelivers(targets: seq<Target>, logs: seq<seq<EventData>>, p0: Position,
                                          passes: seq<seq<Poll>>, k: nat, whole: string, time: nat, name: string)
    requires k <= |passes| && Shaped(passes, 1) && Aligned(p0, whole)
    requires Growing(p0, Column(passes, 1, 0)[..k], whole)
    requires Received(targets, logs, Events(None, LastTaken([p0], passes, k), time, name))
    ensures var p := Walk(p0, Column(passes, 1, 0)[..k]);
            && Aligned(p, whole) && p0.consumed <= p.consumed <= |whole|
            && EachLineDelivered(targets, logs, CompleteLines(whole[p0.consumed..p.consumed]), time, name)
  {
    hide Received, Events, DataReadsBack, Walk, TakenLines, CompleteLines, Growing, Aligned;
    var polls := Column(passes, 1, 0)[..k];
    GrowingLogTaken(p0, polls, whole);
    AlignedBounds(Walk(p0, polls), whole);
    DataOfLines(TakenLines(p0, polls), time, name);
  }
}
