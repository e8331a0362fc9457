/**
 What the log tailer's operations do to its position in the file and to its
 checkpoint, as functions on values.  The class `LogfileSource` is proved
 against these functions; the properties of runs are proved about them.
 */
module Tailer {
  import opened Prelude
  import opened Lines

  const LINE_BUF_MAXSIZE: nat := 8192
  const CHECKPOINT_SIZE: nat := 16

  /** The log file as `stat`, `open` and `read` see it, in one atomic snapshot. */
  datatype Snapshot = Snapshot(inode: nat, content: string)

  /**
   Outcome of the system calls of one `readLines`.  `readEnd` is the file
   offset at which `read` first returns 0 or an error.
   */
  datatype FileIO = FileIO(stat: Option<Snapshot>, canOpen: bool, canSeek: bool, readEnd: nat)

  /** `inode_`, `offset_`, `consumed_offset_` and `line_buf_`. */
  datatype Position = Position(inode: nat, offset: nat, consumed: nat, lines: seq<string>)

  /** The checkpoint file: missing, shorter than 16 bytes, or complete. */
  datatype Checkpoint = Absent | Partial | Stored(inode: nat, offset: nat)

  /** `checkpoint_inode_` and `checkpoint_offset_`. */
  datatype Mark = Mark(inode: nat, offset: nat)

  /** Outcome of `open(O_TRUNC)` and `write` on the checkpoint file. */
  datatype WriteIO = WriteIO(canOpen: bool, written: int)

  // ---------------------------------------------------------------- reading

  /** The test of `readLines` that tells a new file, or one that was cut short, from the one read so far. */
  predicate Noticed(p: Position, f: Snapshot) {
    f.inode != p.inode || |f.content| < p.offset
  }

  /** A file noticed as new starts over at its beginning. */
  function Rebased(p: Position, f: Snapshot): (q: Position)
    ensures q.offset <= |f.content| && q.inode == f.inode
  {
    if Noticed(p, f) then Position(f.inode, 0, 0, []) else p
  }

  /** The bytes from `offset` on that `read` delivers. */
  function Unread(p: Position, f: Snapshot, readEnd: nat): string
    requires p.offset <= |f.content|
  {
    f.content[p.offset..Max(p.offset, Min(readEnd, |f.content|))]
  }

  /** How many of `avail` complete lines still fit the line buffer. */
  function Fitting(buffered: nat, avail: nat): nat {
    if buffered >= LINE_BUF_MAXSIZE then 0 else Min(LINE_BUF_MAXSIZE - buffered, avail)
  }

  /** Appends lines to the buffer and advances `offset` over them. */
  function Buffered(p: Position, ls: seq<string>): Position {
    p.(lines := p.lines + ls, offset := p.offset + |Concat(ls)|)
  }

  function FirstLines(p: Position, unread: string): seq<string> {
    var avail := CompleteLines(unread);
    avail[..Fitting(|p.lines|, |avail|)]
  }

  /** Success flag and new position of `readLines`. */
  function AfterReadLines(p: Position, io: FileIO): (bool, Position) {
    if io.stat.None? then (false, p)
    else
      var q := Rebased(p, io.stat.value);
      if |io.stat.value.content| == q.offset then (true, q)
      else if !io.canOpen || !io.canSeek then (false, q)
      else (true, Buffered(q, FirstLines(q, Unread(q, io.stat.value, io.readEnd))))
  }

  /** `hasNextLine` and `getNextLine` read only when nothing is buffered. */
  function AfterFill(p: Position, io: FileIO): (bool, Position) {
    if p.lines == [] then AfterReadLines(p, io) else (true, p)
  }

  /** Takes the first buffered line off. */
  function Taken(p: Position): Position
    requires p.lines != []
  {
    p.(lines := p.lines[1..], consumed := p.consumed + |p.lines[0]|)
  }

  function AfterTake(p: Position): Position {
    if p.lines == [] then p else Taken(p)
  }

  /** The line handed to the caller: without its newline. */
  function Text(l: string): string {
    if l == "" then "" else l[..|l| - 1]
  }

  /** Only the newline is taken off. */
  lemma {:induction false} TextWithNewline(l: string)
    requires IsLine(l)
    ensures Text(l) + "\n" == l
  {
  }

  // ---------------------------------------------------------------- checkpoints

  function Loaded(c: Checkpoint): Mark {
    if c.Stored? then Mark(c.inode, c.offset) else Mark(0, 0)
  }

  function AtMark(m: Mark): Position {
    Position(m.inode, m.offset, m.offset, [])
  }

  function MarkOf(p: Position): Mark {
    Mark(p.inode, p.consumed)
  }

  /** What `write` leaves in the truncated checkpoint file. */
  function Written(m: Mark, written: int): Checkpoint {
    if written == CHECKPOINT_SIZE then Stored(m.inode, m.offset) else Partial
  }

  /** The checkpoint file after `writeCheckpoint`. */
  function AfterWrite(c: Checkpoint, mark: Mark, p: Position, io: WriteIO): Checkpoint {
    if mark == MarkOf(p) || !io.canOpen then c else Written(MarkOf(p), io.written)
  }

  /**
   What the next start reads after `writeCheckpoint`: the consumed position when
   all sixteen bytes were written, nothing after a short write, and what was
   there before when there was nothing to write or the file could not be opened.
   */
  lemma {:induction false} NextStartReads(c: Checkpoint, mark: Mark, p: Position, io: WriteIO)
    ensures Loaded(AfterWrite(c, mark, p, io)) ==
              if (mark.inode == p.inode && mark.offset == p.consumed) || !io.canOpen then
                (if c.Stored? then Mark(c.inode, c.offset) else Mark(0, 0))
              else if io.written == 16 then Mark(p.inode, p.consumed)
              else Mark(0, 0)
  {
  }

  // ---------------------------------------------------------------- positions in one file

  /**
   The position invariant: the buffered lines are exactly the bytes between
   `consumed` and `offset`, and both lie on line boundaries.
   */
  predicate Aligned(p: Position, content: string) {
    && p.consumed <= p.offset <= |content|
    && Boundary(content, p.consumed)
    && AllLines(p.lines)
    && Concat(p.lines) == content[p.consumed..p.offset]
  }

  lemma {:induction false} AlignedAtBoundary(inode: nat, content: string, o: nat)
    requires Boundary(content, o)
    ensures Aligned(Position(inode, o, o, []), content)
  {
  }

  /** Both ends of the buffered lines are line boundaries. */
  lemma {:induction false} OffsetIsBoundary(p: Position, content: string)
    requires Aligned(p, content)
    ensures Boundary(content, p.offset)
    ensures p.offset == p.consumed + |Concat(p.lines)|
  {
    ConcatEndsAtBoundary(p.lines);
    if p.lines != [] {
      var c := Concat(p.lines);
      assert content[p.consumed..p.offset][|c| - 1] == content[p.offset - 1];
    }
  }

  /** Bytes appended to the file keep the position. */
  lemma {:induction false} AlignedUnderAppend(p: Position, content: string, more: string)
    requires Aligned(p, content)
    ensures Aligned(p, content + more)
  {
    assert (content + more)[p.consumed..p.offset] == content[p.consumed..p.offset];
  }

  lemma {:induction false} AllLinesAppend(a: seq<string>, b: seq<string>)
    requires AllLines(a) && AllLines(b)
    ensures AllLines(a + b)
  {
    hide IsLine;
  }

  /** Lines read from `offset` on extend the buffer in step with `offset`. */
  lemma {:induction false} AlignedAfterBuffering(p: Position, content: string, ls: seq<string>)
    requires Aligned(p, content) && AllLines(ls)
    requires p.offset + |Concat(ls)| <= |content|
    requires Concat(ls) == content[p.offset..p.offset + |Concat(ls)|]
    ensures Aligned(Buffered(p, ls), content)
  {
    hide IsLine, Boundary;
    ConcatAppend(p.lines, ls);
    AllLinesAppend(p.lines, ls);
    var q := Buffered(p, ls);
    assert content[p.consumed..p.offset] + content[p.offset..q.offset] == content[p.consumed..q.offset];
  }

  lemma {:induction false} FirstLinesArePrefix(p: Position, unread: string)
    ensures AllLines(FirstLines(p, unread))
    ensures Concat(FirstLines(p, unread)) <= unread
  {
    hide IsLine;
    PrefixLines(unread, Fitting(|p.lines|, |CompleteLines(unread)|));
  }

  lemma {:induction false} UnreadPrefix(p: Position, f: Snapshot, readEnd: nat, n: nat)
    requires p.offset <= |f.content| && n <= |Unread(p, f, readEnd)|
    ensures p.offset + n <= |f.content|
    ensures Unread(p, f, readEnd)[..n] == f.content[p.offset..p.offset + n]
  {
  }

  lemma {:induction false} AlignedAfterFirstLines(p: Position, f: Snapshot, readEnd: nat)
    requires Aligned(p, f.content)
    ensures Aligned(Buffered(p, FirstLines(p, Unread(p, f, readEnd))), f.content)
  {
    var unread := Unread(p, f, readEnd);
    var ls := FirstLines(p, unread);
    hide FirstLines, Aligned, IsLine, Unread;
    AlignedBounds(p, f.content);
    FirstLinesArePrefix(p, unread);
    UnreadPrefix(p, f, readEnd, |Concat(ls)|);
    AlignedAfterBuffering(p, f.content, ls);
  }

  lemma {:induction false} AlignedBounds(p: Position, content: string)
    requires Aligned(p, content)
    ensures p.consumed <= p.offset <= |content|
  {
  }

  /**
   `readLines` keeps the position aligned with the file it saw, provided the
   file it saw still begins with the bytes already read when it keeps the
   position.
   */
  lemma {:induction false} AlignedAfterReadLines(p: Position, io: FileIO, known: string)
    requires Aligned(p, known)
    requires io.stat.Some? ==>
               var f := io.stat.value;
               f.inode == p.inode && |f.content| >= p.offset ==> known[..p.offset] <= f.content
    ensures var (ok, q) := AfterReadLines(p, io);
            Aligned(q, if io.stat.Some? then io.stat.value.content else known)
  {
    if io.stat.Some? {
      var f := io.stat.value;
      AlignedAfterRebase(p, f, known);
      AlignedAfterFirstLines(Rebased(p, f), f, io.readEnd);
    }
  }

  lemma {:induction false} AlignedAfterRebase(p: Position, f: Snapshot, known: string)
    requires Aligned(p, known)
    requires f.inode == p.inode && |f.content| >= p.offset ==> known[..p.offset] <= f.content
    ensures Aligned(Rebased(p, f), f.content)
  {
  }

  lemma {:induction false} AlignedAfterTake(p: Position, content: string)
    requires Aligned(p, content) && p.lines != []
    ensures Aligned(Taken(p), content)
    ensures p.lines[0] == content[p.consumed..Taken(p).consumed] && IsLine(p.lines[0])
  {
    var l := p.lines[0];
    var bytes := content[p.consumed..p.offset];
    assert bytes == l + Concat(p.lines[1..]);
    assert bytes[..|l|] == content[p.consumed..p.consumed + |l|];
    assert bytes[|l|..] == content[p.consumed + |l|..p.offset];
    assert l[|l| - 1] == content[p.consumed + |l| - 1];
  }

  /** Starting over clears the line buffer, but only when it is empty: no buffered line is ever dropped. */
  lemma {:induction false} FillDropsNothing(p: Position, io: FileIO)
    ensures p.lines <= AfterFill(p, io).1.lines
    ensures p.lines != [] ==> AfterFill(p, io) == (true, p)
  {
  }

  /**
   Exactly when a position with nothing buffered is sound after it meets a
   file, whatever that file is: the file is noticed as new, or it happens to
   have a line boundary at the offset.
   */
  lemma {:induction false} SoundExactly(p: Position, io: FileIO)
    requires io.stat.Some? && p.lines == [] && p.consumed == p.offset
    ensures
      var f := io.stat.value;
      Aligned(AfterReadLines(p, io).1, f.content) <==> Noticed(p, f) || Boundary(f.content, p.offset)
  {
    hide FirstLines, Unread, IsLine;
    var f := io.stat.value;
    var q := Rebased(p, f);
    if Noticed(p, f) || Boundary(f.content, p.offset) {
      assert Boundary(f.content, q.offset) by { BoundaryAtStart(f.content); }
      AlignedAtBoundary(q.inode, f.content, q.offset);
      AlignedAfterFirstLines(q, f, io.readEnd);
    }
  }

  /**
   A file that is cut short and grown again past `offset` before the next
   read looks like the old one: the tailer goes on in the middle of a line.
   */
  lemma {:induction false} RegrownFileMisleads()
    ensures var p := Position(7, 2, 2, []);
            var f := Snapshot(7, "bcd\n");
            && Aligned(p, "a\n")
            && !Boundary(f.content, Rebased(p, f).offset)
            && AfterReadLines(p, FileIO(Some(f), true, true, 4)).1.lines == ["d\n"]
  {
    var content, rest := "bcd\n", "d\n";
    assert content[2..4] == rest;
    assert IsLine(rest);
    assert rest == rest + "" && Concat([rest]) + "" == rest by { assert [rest][1..] == []; }
    LinesUnique([rest], "");
    assert [rest][..1] == [rest] && [] + [rest] == [rest];
    assert "a\n"[2..2] == "" == Concat([]);
  }

  // ---------------------------------------------------------------- draining a file that stays as it is

  /** Every file operation succeeds. */
  predicate Ready(io: FileIO) {
    io.stat.Some? && io.canOpen && io.canSeek
  }

  /** And nothing cuts a read short. */
  predicate Stable(io: FileIO) {
    Ready(io) && io.readEnd >= |io.stat.value.content|
  }

  /** All complete lines still to be handed out while the file operations go as `io` says. */
  function Pending(p: Position, io: FileIO): seq<string> {
    p.lines +
      if Ready(io) then
        CompleteLines(Unread(Rebased(p.(lines := []), io.stat.value), io.stat.value, io.readEnd))
      else []
  }

  lemma {:induction false} FillKeepsPending(p: Position, io: FileIO)
    ensures Pending(AfterFill(p, io).1, io) == Pending(p, io)
    ensures AfterFill(p, io).1.lines == [] <==> Pending(p, io) == []
    ensures Ready(io) || Pending(p, io) != [] ==> AfterFill(p, io).0
  {
    hide FirstLines, Unread, CompleteLines;
    if p.lines == [] && io.stat.Some? {
      var f := io.stat.value;
      var r := Rebased(p, f);
      assert Rebased(r, f) == r;
      if !Ready(io) {
        NothingMore(r, io);
      } else if |f.content| == r.offset {
        NothingUnread(r, f, io.readEnd);
      } else {
        BufferingKeepsPending(r, io);
      }
    }
  }

  /**
   Exactly when filling fails: nothing is buffered, and the file cannot be
   looked at, or it has something to read and cannot be opened or positioned.
   */
  lemma {:induction false} FillFailsExactly(p: Position, io: FileIO)
    ensures
      !AfterFill(p, io).0 <==>
        && p.lines == []
        && (io.stat.None? ||
              var f := io.stat.value;
              && !(io.canOpen && io.canSeek)
              && if f.inode != p.inode then f.content != "" else |f.content| != p.offset && f.content != "")
  {
    hide FirstLines, Unread;
  }

  /** A fill of an empty buffer takes in the first 8192 pending lines, or all if there are fewer. */
  lemma {:induction false} FillTakesFirst(p: Position, io: FileIO)
    requires p.lines == []
    ensures var ls, q := Pending(p, io), AfterFill(p, io).1;
            q.lines == if |ls| <= 8192 then ls else ls[..8192]
  {
    hide CompleteLines, Unread;
    if Ready(io) {
      var f := io.stat.value;
      var r := Rebased(p, f);
      assert p.(lines := []) == p;
      if |f.content| == r.offset {
        NothingUnread(r, f, io.readEnd);
      } else {
        var avail := CompleteLines(Unread(r, f, io.readEnd));
        assert [] + avail[..Fitting(0, |avail|)] == avail[..Fitting(0, |avail|)];
      }
    }
  }

  lemma {:induction false} NothingMore(r: Position, io: FileIO)
    requires !Ready(io)
    ensures Pending(r, io) == r.lines
  {
  }

  lemma {:induction false} NothingUnread(r: Position, f: Snapshot, readEnd: nat)
    requires |f.content| == r.offset
    ensures CompleteLines(Unread(r, f, readEnd)) == []
  {
    assert CompleteLines("") == [];
  }

  lemma {:induction false} BufferingKeepsPending(r: Position, io: FileIO)
    requires Ready(io) && r.lines == [] && r.inode == io.stat.value.inode && r.offset <= |io.stat.value.content|
    ensures var q := Buffered(r, FirstLines(r, Unread(r, io.stat.value, io.readEnd)));
            Pending(q, io) == Pending(r, io) && (q.lines == [] <==> Pending(r, io) == [])
  {
    hide IsLine, AllLines, CompleteLines, Pending, Buffered, Unread;
    var unread := Unread(r, io.stat.value, io.readEnd);
    var avail := CompleteLines(unread);
    var k := Fitting(0, |avail|);
    PrefixLines(unread, k);
    PendingWithBuffer(r, io, avail[..k]);
    PendingWithBuffer(r, io, []);
    SplitLines(avail, k);
    BufferingNothing(r);
    assert Concat([]) == "" && unread[0..] == unread;
  }

  lemma {:induction false} SplitLines(ls: seq<string>, k: nat)
    requires k <= |ls|
    ensures ls[..k] + ls[k..] == ls && [] + ls == ls
  {
  }

  lemma {:induction false} BufferingNothing(r: Position)
    ensures Buffered(r, []) == r
  {
    assert r.lines + [] == r.lines;
  }

  lemma {:induction false} PendingWithBuffer(r: Position, io: FileIO, ls: seq<string>)
    requires Ready(io) && r.lines == [] && r.inode == io.stat.value.inode && r.offset <= |io.stat.value.content|
    requires Concat(ls) <= Unread(r, io.stat.value, io.readEnd)
    ensures Buffered(r, ls).lines == ls
    ensures Pending(Buffered(r, ls), io) == ls + CompleteLines(Unread(r, io.stat.value, io.readEnd)[|Concat(ls)|..])
  {
    hide IsLine, AllLines, CompleteLines, Concat;
    var c := |Concat(ls)|;
    var f := io.stat.value;
    assert Unread(r, f, io.readEnd)[c..] == Unread(Buffered(r, ls).(lines := []), f, io.readEnd);
    assert [] + ls == ls;
  }

  lemma {:induction false} TakeDropsFirstPending(p: Position, io: FileIO)
    requires p.lines != []
    ensures Pending(p, io) != [] && Pending(p, io)[0] == p.lines[0]
    ensures Pending(Taken(p), io) == Pending(p, io)[1..]
  {
    hide CompleteLines, Unread;
    if Ready(io) {
      var f := io.stat.value;
      assert Unread(Rebased(Taken(p).(lines := []), f), f, io.readEnd)
          == Unread(Rebased(p.(lines := []), f), f, io.readEnd) by {
        UnreadIgnoresConsumed(p, f, io.readEnd);
      }
    }
  }

  lemma {:induction false} UnreadIgnoresConsumed(p: Position, f: Snapshot, readEnd: nat)
    requires p.lines != []
    ensures Unread(Rebased(Taken(p).(lines := []), f), f, readEnd) == Unread(Rebased(p.(lines := []), f), f, readEnd)
  {
  }

  /**
   On a file that stays as it is, what is pending is every complete line from
   `consumed` on; for a new generation, behind what is still buffered of the
   old one, every complete line of the file.
   */
  lemma {:induction false} PendingIsRestOfFile(p: Position, io: FileIO)
    requires Stable(io)
    ensures
      var content := io.stat.value.content;
      if p.inode == io.stat.value.inode && p.offset <= |content| then
        Aligned(p, content) ==> Pending(p, io) == CompleteLines(content[p.consumed..])
      else Pending(p, io) == p.lines + CompleteLines(content)
  {
    hide CompleteLines, Concat, IsLine, Boundary;
    var f := io.stat.value;
    var r := Rebased(p.(lines := []), f);
    assert Unread(r, f, io.readEnd) == f.content[r.offset..];
    if r.inode == p.inode && r.offset == p.offset <= |f.content| && Aligned(p, f.content) {
      LinesBeforeText(p.lines, f.content[p.offset..]);
      assert f.content[p.consumed..p.offset] + f.content[p.offset..] == f.content[p.consumed..];
    }
  }

  /**
   Exactly when all lines of a file that replaces the one read so far are
   pending: the file is noticed as new, or nothing was read before, or the
   file has no complete line.
   */
  lemma {:induction false} AllPendingExactly(p: Position, io: FileIO)
    requires Stable(io) && p.lines == [] && p.consumed == p.offset
    ensures
      var f := io.stat.value;
      Pending(p, io) == CompleteLines(f.content) <==>
        Noticed(p, f) || p.offset == 0 || NoNewline(f.content)
  {
    hide CompleteLines, NoNewline, Concat;
    var f := io.stat.value;
    var q := Rebased(p, f);
    assert Unread(q, f, io.readEnd) == f.content[q.offset..];
    assert Pending(p, io) == CompleteLines(f.content[q.offset..]);
    assert f.content[0..] == f.content;
    if !Noticed(p, f) {
      if NoNewline(f.content) {
        NoLinesInSuffix(f.content, p.offset);
      } else if p.offset > 0 {
        SuffixLosesLines(f.content, p.offset);
      }
    }
  }

  lemma {:induction false} NoLinesInSuffix(s: string, k: nat)
    requires k <= |s| && NoNewline(s)
    ensures CompleteLines(s) == CompleteLines(s[k..]) == []
  {
  }

  /** A proper suffix never has the same complete lines as the whole text. */
  lemma {:induction false} SuffixLosesLines(s: string, k: nat)
    requires 0 < k <= |s| && !NoNewline(s)
    ensures |Concat(CompleteLines(s[k..]))| < |Concat(CompleteLines(s))|
  {
    hide CompleteLines, IsLine, Concat;
    var c := Concat(CompleteLines(s[k..]));
    LinesAndRemainder(s[k..]);
    ConcatEndsAtBoundary(CompleteLines(s[k..]));
    var i := if c == "" then NewlineIn(s) else k + |c| - 1;
    assert c != "" ==> s[k..][|c| - 1] == s[i];
    NewlineWithinLines(s, i);
  }

  function NewlineIn(s: string): (i: nat)
    requires !NoNewline(s)
    ensures i < |s| && s[i] == '\n'
  {
    FirstLineLength(s) - 1
  }

  lemma {:induction false} NewlineWithinLines(s: string, i: nat)
    requires i < |s| && s[i] == '\n'
    ensures i < |Concat(CompleteLines(s))|
  {
    hide CompleteLines, Concat;
    var c := Concat(CompleteLines(s));
    LinesAndRemainder(s);
    assert forall j :: |c| <= j < |s| ==> s[j] == Remainder(s)[j - |c|];
  }

  /** If the file is the generation the position is in, the position is aligned with it. */
  predicate Tracks(p: Position, f: Snapshot) {
    p.inode == f.inode && p.offset <= |f.content| ==> Aligned(p, f.content)
  }

  /** Everything up to an unfinished last line is handed out. */
  predicate Drained(p: Position, f: Snapshot) {
    && p.lines == [] && p.inode == f.inode && p.offset <= |f.content|
    && NoNewline(f.content[p.offset..])
  }

  lemma {:induction false} FillTracks(p: Position, io: FileIO)
    requires Stable(io) && Tracks(p, io.stat.value)
    ensures var q := AfterFill(p, io).1;
            && Tracks(q, io.stat.value)
            && (q.lines == [] ==> Drained(q, io.stat.value))
  {
    var f := io.stat.value;
    var q := AfterFill(p, io).1;
    FillKeepsPending(p, io);
    if p.lines == [] {
      hide FirstLines, Aligned, CompleteLines;
      var r := Rebased(p, f);
      if r != p {
        AlignedAtBoundary(f.inode, f.content, 0);
        BoundaryAtStart(f.content);
      }
      AlignedAfterFirstLines(r, f, io.readEnd);
      if q.lines == [] {
        NothingPending(q, io);
      }
    }
  }

  lemma {:induction false} BoundaryAtStart(content: string)
    ensures Boundary(content, 0)
  {
  }

  lemma {:induction false} NothingPending(q: Position, io: FileIO)
    requires Stable(io) && Pending(q, io) == []
    requires q.inode == io.stat.value.inode && q.offset <= |io.stat.value.content|
    ensures NoNewline(io.stat.value.content[q.offset..])
  {
    assert Unread(q, io.stat.value, io.readEnd) == io.stat.value.content[q.offset..];
  }

  lemma {:induction false} TakeTracks(p: Position, f: Snapshot)
    requires Tracks(p, f)
    ensures Tracks(AfterTake(p), f)
  {
  }

  /** A drained position lies at the end of the last complete line. */
  lemma {:induction false} DrainedAtLastLine(p: Position, f: Snapshot)
    requires Tracks(p, f) && Drained(p, f)
    ensures p.consumed == p.offset && Boundary(f.content, p.consumed)
    ensures NoNewline(f.content[p.consumed..])
  {
    assert Concat([]) == "";
  }

  // ---------------------------------------------------------------- one source being polled

  /** Outcomes of one poll: of the call for the next event, and of the question whether more is pending. */
  datatype Poll = Poll(next: FileIO, more: FileIO)

  /** One turn of `processEvent` for one source: get the next event, then ask whether more is pending. */
  function Round(p: Position, poll: Poll): Position {
    AfterFill(AfterTake(AfterFill(p, poll.next).1), poll.more).1
  }

  function Walk(p: Position, polls: seq<Poll>): Position {
    if polls == [] then p else Round(Walk(p, polls[..|polls| - 1]), polls[|polls| - 1])
  }

  /** The line that the next poll hands out, if any. */
  function NextLine(p: Position, io: FileIO): seq<string> {
    var q := AfterFill(p, io).1;
    if q.lines == [] then [] else [q.lines[0]]
  }

  /** The lines that the polls hand out, in order. */
  function TakenLines(p: Position, polls: seq<Poll>): seq<string> {
    if polls == [] then []
    else
      var before := polls[..|polls| - 1];
      TakenLines(p, before) + NextLine(Walk(p, before), polls[|polls| - 1].next)
  }

  lemma {:induction false} OnePollMore(p: Position, polls: seq<Poll>, poll: Poll)
    ensures Walk(p, polls + [poll]) == Round(Walk(p, polls), poll)
    ensures TakenLines(p, polls + [poll]) == TakenLines(p, polls) + NextLine(Walk(p, polls), poll.next)
  {
    hide Round, NextLine;
    assert (polls + [poll])[..|polls|] == polls;
  }

  /** Only complete lines are ever handed out. */
  lemma {:induction false} TakenAreLines(p: Position, polls: seq<Poll>)
    requires AllLines(p.lines)
    ensures AllLines(TakenLines(p, polls)) && AllLines(Walk(p, polls).lines)
    decreases |polls|
  {
    hide AfterFill, IsLine;
    if polls != [] {
      var before, poll := polls[..|polls| - 1], polls[|polls| - 1];
      TakenAreLines(p, before);
      var q := Walk(p, before);
      FillKeepsLines(q, poll.next);
      FillKeepsLines(AfterTake(AfterFill(q, poll.next).1), poll.more);
    }
  }

  lemma {:induction false} FillKeepsLines(p: Position, io: FileIO)
    requires AllLines(p.lines)
    ensures AllLines(AfterFill(p, io).1.lines)
  {
    hide FirstLines, IsLine;
    if p.lines == [] && io.stat.Some? {
      var q := Rebased(p, io.stat.value);
      FirstLinesArePrefix(q, Unread(q, io.stat.value, io.readEnd));
      AllLinesAppend(q.lines, FirstLines(q, Unread(q, io.stat.value, io.readEnd)));
    }
  }

  // The log may change in between, as long as it only grows.

  /** If the file is read, it is still the one the position is in, and a prefix of `whole`. */
  predicate Continues(p: Position, io: FileIO, whole: string) {
    io.stat.Some? ==>
      !Noticed(p, io.stat.value) && io.stat.value.content <= whole
  }

  /** Every file met while polling is an earlier stage of `whole`. */
  predicate Growing(p: Position, polls: seq<Poll>, whole: string) {
    polls != [] ==>
      var before, poll := polls[..|polls| - 1], polls[|polls| - 1];
      var q := Walk(p, before);
      && Growing(p, before, whole)
      && Continues(q, poll.next, whole)
      && Continues(AfterTake(AfterFill(q, poll.next).1), poll.more, whole)
  }

  lemma {:induction false} FillOfGrowing(p: Position, io: FileIO, whole: string)
    requires Aligned(p, whole) && Continues(p, io, whole)
    ensures var q := AfterFill(p, io).1;
            Aligned(q, whole) && q.consumed == p.consumed
  {
    hide FirstLines, Unread, IsLine, Boundary;
    if p.lines == [] && io.stat.Some? {
      var f := io.stat.value;
      AlignedInPrefix(p, f.content, whole);
      AlignedAfterReadLines(p, io, f.content);
      var more := whole[|f.content|..];
      assert f.content + more == whole;
      AlignedUnderAppend(AfterReadLines(p, io).1, f.content, more);
    }
  }

  lemma {:induction false} AlignedInPrefix(p: Position, content: string, whole: string)
    requires Aligned(p, whole) && content <= whole && p.offset <= |content|
    ensures Aligned(p, content)
  {
    assert content[p.consumed..p.offset] == whole[p.consumed..p.offset];
  }

  /**
   While the log grows, the lines handed out are exactly the bytes between
   the old and the new consumed position: none is missing, cut or repeated.
   */
  lemma {:induction false} GrowingLogTaken(p: Position, polls: seq<Poll>, whole: string)
    requires Aligned(p, whole) && Growing(p, polls, whole)
    ensures var q := Walk(p, polls);
            && Aligned(q, whole) && p.consumed <= q.consumed
            && Concat(TakenLines(p, polls)) == whole[p.consumed..q.consumed]
            && TakenLines(p, polls) == CompleteLines(whole[p.consumed..q.consumed])
    decreases |polls|
  {
    hide AfterFill, Boundary, IsLine, CompleteLines;
    if polls == [] {
      AlignedBounds(p, whole);
      NoText(whole, p.consumed);
    } else {
      var before, poll := polls[..|polls| - 1], polls[|polls| - 1];
      GrowingLogTaken(p, before, whole);
      var q := Walk(p, before);
      FillOfGrowing(q, poll.next, whole);
      var filled := AfterFill(q, poll.next).1;
      NextLineTaken(filled, whole);
      FillOfGrowing(AfterTake(filled), poll.more, whole);
      AlignedBounds(AfterTake(filled), whole);
      MoreTaken(TakenLines(p, before), NextLine(q, poll.next), whole,
                p.consumed, q.consumed, AfterTake(filled).consumed);
    }
  }

  lemma {:induction false} NoText(s: string, i: nat)
    requires i <= |s|
    ensures s[i..i] == "" && CompleteLines("") == [] && Concat([]) == ""
  {
  }

  lemma {:induction false} NextLineTaken(q: Position, whole: string)
    requires Aligned(q, whole)
    ensures var t := AfterTake(q);
            && Aligned(t, whole) && q.consumed <= t.consumed <= |whole|
            && var taken := if q.lines == [] then [] else [q.lines[0]];
               AllLines(taken) && Concat(taken) == whole[q.consumed..t.consumed]
  {
    hide IsLine, Boundary;
    if q.lines == [] {
      NoText(whole, q.consumed);
    } else {
      AlignedAfterTake(q, whole);
      AlignedBounds(AfterTake(q), whole);
      ConcatCons(q.lines[0], []);
      assert Concat([]) == "" && q.lines[0] + "" == q.lines[0] && [q.lines[0]] + [] == [q.lines[0]];
    }
  }

  lemma {:induction false} MoreTaken(a: seq<string>, b: seq<string>, whole: string, i: nat, j: nat, k: nat)
    requires i <= j <= k <= |whole|
    requires a == CompleteLines(whole[i..j]) && Concat(a) == whole[i..j]
    requires AllLines(b) && Concat(b) == whole[j..k]
    ensures Concat(a + b) == whole[i..k] && a + b == CompleteLines(whole[i..k])
  {
    hide IsLine, CompleteLines, Concat;
    ConcatAppend(a, b);
    assert whole[i..j] + whole[j..k] == whole[i..k];
    AllLinesAppend(a, b);
    NoText("", 0);
    LinesUnique(a + b, "");
    assert whole[i..k] + "" == whole[i..k];
  }

  // Or it stays as it is.

  predicate Steady(polls: seq<Poll>, io: FileIO) {
    forall k :: 0 <= k < |polls| ==> polls[k] == Poll(io, io)
  }

  lemma {:induction false} RoundEffect(p: Position, io: FileIO)
    ensures var q, r := AfterFill(p, io).1, Round(p, Poll(io, io));
            && (Ready(io) || Pending(p, io) != [] ==> AfterFill(p, io).0)
            && (q.lines != [] <==> Pending(p, io) != [])
            && (q.lines != [] ==> q.lines[0] == Pending(p, io)[0])
            && Pending(r, io) == (if Pending(p, io) == [] then [] else Pending(p, io)[1..])
            && (r.lines != [] <==> |Pending(p, io)| > 1)
  {
    hide AfterFill, Pending;
    var q := AfterFill(p, io).1;
    FillKeepsPending(p, io);
    if q.lines != [] {
      TakeDropsFirstPending(q, io);
    }
    FillKeepsPending(AfterTake(q), io);
  }

  lemma {:induction false} RoundTracks(p: Position, io: FileIO)
    requires Stable(io) && Tracks(p, io.stat.value)
    ensures var r := Round(p, Poll(io, io));
            Tracks(r, io.stat.value) && (r.lines == [] ==> Drained(r, io.stat.value))
  {
    hide AfterFill, Tracks, Drained;
    var q := AfterFill(p, io).1;
    FillTracks(p, io);
    TakeTracks(q, io.stat.value);
    FillTracks(AfterTake(q), io);
  }

  /** With outcomes that stay the same, the polls hand out the pending lines one by one. */
  lemma {:induction false} SteadyWalk(p: Position, polls: seq<Poll>, io: FileIO)
    requires Steady(polls, io)
    ensures var n, ls, q := |polls|, Pending(p, io), Walk(p, polls);
            var taken := Min(n, |ls|);
            && TakenLines(p, polls) == ls[..taken] && Pending(q, io) == ls[taken..]
            && (n > 0 ==> (q.lines != [] <==> |ls| > n))
    decreases |polls|
  {
    hide Pending, Round, AfterFill;
    if polls != [] {
      var before := polls[..|polls| - 1];
      SteadyWalk(p, before, io);
      RoundEffect(Walk(p, before), io);
      OneMoreOf(Pending(p, io), |before|);
    } else {
      OneMoreOf(Pending(p, io), 0);
    }
  }

  lemma {:induction false} OneMoreOf(ls: seq<string>, n: nat)
    ensures ls[..0] == [] && ls[0..] == ls
    ensures var m := Min(n, |ls|);
            var rest := ls[m..];
            && ls[..m] + (if rest == [] then [] else [rest[0]]) == ls[..Min(n + 1, |ls|)]
            && (if rest == [] then [] else rest[1..]) == ls[Min(n + 1, |ls|)..]
            && |rest| == (if |ls| > n then |ls| - n else 0)
  {
  }

  lemma {:induction false} SteadyTracks(p: Position, polls: seq<Poll>, io: FileIO)
    requires Steady(polls, io) && Stable(io) && Tracks(p, io.stat.value)
    ensures var q := Walk(p, polls);
            && Tracks(q, io.stat.value)
            && (polls != [] && q.lines == [] ==> Drained(q, io.stat.value))
    decreases |polls|
  {
    hide Tracks, Drained, Round;
    if polls != [] {
      var before := polls[..|polls| - 1];
      SteadyTracks(p, before, io);
      RoundTracks(Walk(p, before), io);
    }
  }
}
