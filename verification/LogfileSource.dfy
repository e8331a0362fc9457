/**
 The log tailer as it updates its fields: buffered reading of lines, the line
 queue, checkpoints and event assembly.
 */
module LogfileSource {
  import opened Prelude
  import opened Lines
  import opened Tailer
  import opened StringUtil
  import opened Json
  import opened EventJson

  const BUF_SIZE: nat := 8192
  const CHECKPOINT_INTERVAL_MICROS: nat := 10_000_000
  const TWO_TO_THE_64: nat := 0x1_0000_0000_0000_0000

  /** An open file: `read` delivers any non-empty chunk up to `end`, then nothing. */
  class FileDescriptor {
    const content: string
    const end: nat
    var pos: nat

    ghost predicate Valid()
      reads this
    {
      pos <= end <= |content|
    }

    constructor (content: string, end: nat, pos: nat)
      requires pos <= end <= |content|
      ensures Valid()
      ensures this.content == content && this.end == end && this.pos == pos
    {
      this.content, this.end, this.pos := content, end, pos;
    }

    /** The size of each chunk is the system's choice. */
    method Read(buf: array<char>) returns (n: int)
      requires Valid() && buf.Length > 0
      modifies this`pos, buf
      ensures Valid()
      ensures n <= buf.Length
      ensures n <= 0 <==> old(pos) == end
      ensures pos == old(pos) + Max(n, 0)
      ensures n > 0 ==> buf[..n] == content[old(pos)..pos]
    {
      if pos == end {
        n := if pos == |content| then 0 else -1;
        return;
      }
      var limit := Min(buf.Length, end - pos);
      n :| 1 <= n <= limit;
      forall i | 0 <= i < n {
        buf[i] := content[pos + i];
      }
      pos := pos + n;
    }
  }

  /** The checkpoint file in the spool directory. */
  class CheckpointFile {
    var cell: Checkpoint

    constructor (cell: Checkpoint)
      ensures this.cell == cell
    {
      this.cell := cell;
    }
  }

  class LogfileSource {
    const checkpointFile: CheckpointFile
    const buf: array<char>
    const regex: Option<Regex>

    var inode: nat
    var offset: nat
    var consumedOffset: nat
    var checkpointInode: nat
    var checkpointOffset: nat
    var lastCheckpoint: nat
    var bufLen: nat
    var bufPos: nat
    var lineBuf: seq<string>

    ghost predicate Valid() {
      buf.Length == BUF_SIZE && (regex.Some? ==> regex.value.Valid())
    }

    /** The position as a value. */
    function Pos(): Position
      reads this
    {
      Position(inode, offset, consumedOffset, lineBuf)
    }

    function Checkpointed(): Mark
      reads this
    {
      Mark(checkpointInode, checkpointOffset)
    }

    constructor (file: CheckpointFile, regex: Option<Regex>)
      requires regex.Some? ==> regex.value.Valid()
      ensures Valid() && fresh(buf) && checkpointFile == file && this.regex == regex
      ensures Pos() == AtMark(Mark(0, 0)) && Checkpointed() == Mark(0, 0) && lastCheckpoint == 0
    {
      checkpointFile := file;
      this.regex := regex;
      buf := new char[BUF_SIZE];
      inode, offset, consumedOffset := 0, 0, 0;
      checkpointInode, checkpointOffset, lastCheckpoint := 0, 0, 0;
      bufLen, bufPos, lineBuf := 0, 0, [];
    }

    // ------------------------------------------------------------ the buffered reader

    /** File offset of the next byte `readNextByte` hands out. */
    ghost function Cursor(fd: FileDescriptor): int
      reads this, fd
    {
      fd.pos - (bufLen - bufPos)
    }

    /** The unread part of the chunk buffer is the part of the file before the descriptor. */
    ghost predicate Reading(fd: FileDescriptor)
      reads this, buf, fd
    {
      && Valid() && fd.Valid()
      && bufPos <= bufLen <= buf.Length
      && 0 <= Cursor(fd)
      && buf[bufPos..bufLen] == fd.content[Cursor(fd)..fd.pos]
    }

    method ReadNextByte(fd: FileDescriptor) returns (ok: bool, byte: char)
      requires Reading(fd)
      modifies this`bufPos, this`bufLen, buf, fd`pos
      ensures Reading(fd)
      ensures ok <==> old(Cursor(fd)) < fd.end
      ensures Cursor(fd) == old(Cursor(fd)) + (if ok then 1 else 0)
      ensures ok ==> byte == fd.content[old(Cursor(fd))]
    {
      byte := '\0';
      if bufPos >= bufLen {
        var bytesRead := fd.Read(buf);
        if bytesRead <= 0 {
          return false, byte;
        }
        bufPos := 0;
        bufLen := bytesRead;
      }
      if bufPos < bufLen {
        byte := buf[bufPos];
        assert byte == buf[bufPos..bufLen][0];
        assert buf[bufPos + 1..bufLen] == buf[bufPos..bufLen][1..];
        bufPos := bufPos + 1;
        return true, byte;
      } else {
        return false, byte;
      }
    }

    /** Reads up to and including the next newline; without one the bytes read are dropped. */
    method ReadLine(fd: FileDescriptor) returns (ok: bool, line: string)
      requires Reading(fd) && Cursor(fd) <= fd.end
      modifies this`bufPos, this`bufLen, buf, fd`pos
      ensures Reading(fd) && old(Cursor(fd)) <= Cursor(fd) <= fd.end
      ensures ok ==> IsLine(line) && line == fd.content[old(Cursor(fd))..Cursor(fd)]
      ensures !ok ==> NoNewline(fd.content[old(Cursor(fd))..fd.end])
    {
      hide IsLine, NoNewline;
      line := "";
      EmptyNoNewline();
      ghost var start := Cursor(fd);
      assert fd.content[start..start] == "";
      var more, byte := ReadNextByte(fd);
      while more
        invariant Reading(fd) && start <= Cursor(fd) <= fd.end
        invariant more ==> start < Cursor(fd) && byte == fd.content[Cursor(fd) - 1]
        invariant line == fd.content[start..Cursor(fd) - (if more then 1 else 0)]
        invariant NoNewline(line)
        invariant !more ==> Cursor(fd) == fd.end
        decreases more, fd.end - Cursor(fd)
      {
        OneByteMore(fd.content, start, Cursor(fd) - 1);
        NewlineEnds(line, byte);
        line := line + [byte];
        if byte == '\n' {
          return true, line;
        }
        more, byte := ReadNextByte(fd);
      }
      return false, line;
    }

    // ------------------------------------------------------------ checkpoints

    /** `canRead` is false when the file cannot be opened or does not deliver its 16 bytes. */
    method ReadCheckpoint(canRead: bool)
      modifies this`inode, this`offset, this`consumedOffset, this`checkpointInode, this`checkpointOffset
      ensures var mark := Loaded(if canRead then checkpointFile.cell else Absent);
              Pos() == AtMark(mark).(lines := old(lineBuf)) && Checkpointed() == mark
      ensures consumedOffset == offset
      ensures canRead && checkpointFile.cell.Stored? ==>
                inode == checkpointFile.cell.inode && offset == checkpointFile.cell.offset
      ensures !canRead || !checkpointFile.cell.Stored? ==> inode == 0 && offset == 0
    {
      inode, offset := 0, 0;
      if canRead && checkpointFile.cell.Stored? {
        inode, offset := checkpointFile.cell.inode, checkpointFile.cell.offset;
      }
      consumedOffset := offset;
      checkpointInode := inode;
      checkpointOffset := offset;
    }

    /** The fields take the new mark before the file is opened, so a failed write is not tried again. */
    method WriteCheckpoint(io: WriteIO) returns (rc: ReturnCode)
      modifies this`checkpointInode, this`checkpointOffset, checkpointFile
      ensures Checkpointed() == MarkOf(Pos())
      ensures checkpointFile.cell == AfterWrite(old(checkpointFile.cell), old(Checkpointed()), Pos(), io)
      ensures rc.Success? <==> old(Checkpointed()) == MarkOf(Pos()) || (io.canOpen && io.written >= 0)
    {
      if checkpointInode == inode && checkpointOffset == consumedOffset {
        return Success;
      }
      checkpointInode := inode;
      checkpointOffset := consumedOffset;
      if !io.canOpen {
        return Error("IOERR");
      }
      checkpointFile.cell := Partial;
      if io.written == CHECKPOINT_SIZE {
        checkpointFile.cell := Stored(checkpointInode, checkpointOffset);
      }
      if io.written < 0 {
        return Error("IOERR");
      }
      return Success;
    }

    // ------------------------------------------------------------ lines

    /** Queues complete lines up to the buffer limit; the line read beyond it is dropped and read again later. */
    method ReadLines(io: FileIO) returns (rc: ReturnCode)
      requires Valid()
      modifies this, buf
      ensures (rc.Success?, Pos()) == AfterReadLines(old(Pos()), io)
      ensures Checkpointed() == old(Checkpointed()) && lastCheckpoint == old(lastCheckpoint)
    {
      if io.stat.None? {
        return Error("IOERR");
      }
      var file := io.stat.value;
      if file.inode != inode || |file.content| < offset {
        lineBuf := [];
        inode := file.inode;
        offset := 0;
        consumedOffset := 0;
      }
      if |file.content| == offset {
        return Success;
      }
      if !io.canOpen {
        return Error("IOERR");
      }
      if !io.canSeek {
        return Error("IOERR");
      }
      ghost var p := Pos();
      var fd := new FileDescriptor(file.content, Max(offset, Min(io.readEnd, |file.content|)), offset);
      bufLen := 0;
      bufPos := 0;
      ReadUpToLimit(fd, p, Unread(p, file, io.readEnd));
      return Success;
    }

    /** The loop of `readLines`, over the bytes `unread` that the descriptor delivers. */
    method ReadUpToLimit(fd: FileDescriptor, ghost p: Position, ghost unread: string)
      requires Reading(fd) && p == Pos() && Cursor(fd) == offset <= fd.end
      requires unread == fd.content[offset..fd.end]
      modifies this`bufPos, this`bufLen, this`lineBuf, this`offset, buf, fd`pos
      ensures Pos() == Buffered(p, FirstLines(p, unread))
    {
      hide IsLine, CompleteLines, NoNewline;
      ghost var done: seq<string> := [];
      BufferingNothing(p);
      var ok, line := ReadLine(fd);
      while ok && |lineBuf| < LINE_BUF_MAXSIZE
        invariant Reading(fd) && offset <= Cursor(fd) <= fd.end
        invariant Pos() == Buffered(p, done)
        invariant done + CompleteLines(fd.content[offset..fd.end]) == CompleteLines(unread)
        invariant ok ==> IsLine(line) && line == fd.content[offset..Cursor(fd)]
        invariant !ok ==> NoNewline(fd.content[offset..fd.end])
        invariant done != [] ==> |lineBuf| <= LINE_BUF_MAXSIZE
        decreases fd.end - offset
      {
        LineAtFront(fd.content, offset, Cursor(fd), fd.end);
        AppendAssociative(done, [line], CompleteLines(fd.content[Cursor(fd)..fd.end]));
        BufferedOneMore(p, done, line);
        LineNotEmpty(line);
        done := done + [line];
        lineBuf := lineBuf + [line];
        offset := offset + |line|;
        ok, line := ReadLine(fd);
      }
      if ok {
        LineAtFront(fd.content, offset, Cursor(fd), fd.end);
      } else {
        NoLines(fd.content[offset..fd.end]);
      }
      assert done == FirstLines(p, unread);
    }

    method HasNextLine(io: FileIO) returns (has: bool)
      requires Valid()
      modifies this, buf
      ensures Pos() == AfterFill(old(Pos()), io).1 && has == (Pos().lines != [])
      ensures Checkpointed() == old(Checkpointed()) && lastCheckpoint == old(lastCheckpoint)
    {
      if lineBuf == [] {
        var _ := ReadLines(io);
      }
      has := lineBuf != [];
    }

    /**
     Hands out the next line, then writes a checkpoint when the last one is
     old enough by the wall clock (`now`, read again as `later`; the
     difference wraps at 64 bits).
     */
    method GetNextLine(line0: string, io: FileIO, now: nat, later: nat, wio: WriteIO)
      returns (rc: ReturnCode, line: string)
      requires Valid()
      modifies this, buf, checkpointFile
      ensures var (ok, p) := AfterFill(old(Pos()), io);
              var due := ok && CheckpointDue(now, old(lastCheckpoint));
              && rc.Success? == ok
              && Pos() == (if ok then AfterTake(p) else p)
              && line == (if ok && p.lines != [] then Text(p.lines[0]) else line0)
              && Checkpointed() == (if due then MarkOf(Pos()) else old(Checkpointed()))
              && checkpointFile.cell ==
                 (if due then AfterWrite(old(checkpointFile.cell), old(Checkpointed()), Pos(), wio)
                  else old(checkpointFile.cell))
              && lastCheckpoint == (if due then later else old(lastCheckpoint))
      ensures var (ok, p) := AfterFill(old(Pos()), io);
              ok && p.lines != [] && IsLine(p.lines[0]) ==> line + "\n" == p.lines[0]
    {
      line := line0;
      if lineBuf == [] {
        rc := ReadLines(io);
        if !rc.Success? {
          return;
        }
      }
      if lineBuf != [] {
        line := Text(lineBuf[0]);
        if IsLine(lineBuf[0]) {
          TextWithNewline(lineBuf[0]);
        }
        consumedOffset := consumedOffset + |lineBuf[0]|;
        lineBuf := lineBuf[1..];
      }
      if CheckpointDue(now, lastCheckpoint) {
        var _ := WriteCheckpoint(wio);
        lastCheckpoint := later;
      }
      return Success, line;
    }

    /** The event of the next line; nothing is added for an empty line or one that does not match. */
    method GetNextEvent(eventJson0: string, io: FileIO, now: nat, later: nat, wio: WriteIO)
      returns (rc: ReturnCode, eventJson: string)
      requires Valid()
      modifies this, buf, checkpointFile
      ensures var (ok, p) := AfterFill(old(Pos()), io);
              ok && p.lines != [] && regex.Some? ==>
                Fits(regex.value.exec(Text(p.lines[0])), regex.value.fields, Text(p.lines[0]))
      ensures var (ok, p) := AfterFill(old(Pos()), io);
              var due := ok && CheckpointDue(now, old(lastCheckpoint));
              var event := if ok && p.lines != [] then EventText(regex, Text(p.lines[0])) else "";
              && rc.Success? == ok
              && Pos() == (if ok then AfterTake(p) else p)
              && eventJson == (if regex.None? && event != "" then event else eventJson0 + event)
              && Checkpointed() == (if due then MarkOf(Pos()) else old(Checkpointed()))
              && checkpointFile.cell ==
                 (if due then AfterWrite(old(checkpointFile.cell), old(Checkpointed()), Pos(), wio)
                  else old(checkpointFile.cell))
              && lastCheckpoint == (if due then later else old(lastCheckpoint))
      ensures var (ok, p) := AfterFill(old(Pos()), io);
              ok && p.lines != [] && IsLine(p.lines[0]) ==> AddsEventOf(eventJson, eventJson0, regex, p.lines[0])
    {
      hide AddsEventOf, AfterFill, AfterTake, AfterWrite, CheckpointDue, IsLine;
      ghost var filled := AfterFill(Pos(), io).1;
      eventJson := eventJson0;
      var rawLine;
      rc, rawLine := GetNextLine("", io, now, later, wio);
      if !rc.Success? {
        return;
      }
      if filled.lines != [] && IsLine(filled.lines[0]) {
        EventAdded(eventJson0, regex, rawLine);
      }
      if rawLine == "" {
        return;
      }
      if regex.Some? {
        var m := regex.value.exec(rawLine);
        assert Fits(m, regex.value.fields, rawLine);
        if m.rc >= 0 {
          eventJson := AppendCaptures(eventJson, m, regex.value.fields, rawLine);
        }
      } else {
        var escaped := JsonEscape(rawLine);
        DataTemplate(rawLine);
        eventJson := Format(DATA_TEMPLATE, [escaped]);
      }
    }
  }

  /**
   What a source declaration amounts to: whether its plugin is known, the
   properties `logfile` and `regex`, what libpcre makes of the latter, and the
   checkpoint file of that log.
   */
  datatype SourceConfig = SourceConfig(
    known: bool,
    logfile: Option<string>,
    regex: Option<Option<Regex>>,
    checkpointFile: CheckpointFile,
    canRead: bool
  ) {
    predicate Attachable() {
      logfile.Some? && (regex.Some? ==> regex.value.Some?)
    }

    function Compiled(): Option<Regex> {
      if regex.Some? then regex.value else None
    }

    ghost predicate Valid() {
      Compiled().Some? ==> Compiled().value.Valid()
    }
  }

  /** `pluginAttach`: the source goes on where its checkpoint says. */
  method Attach(cfg: SourceConfig) returns (source: Option<LogfileSource>)
    requires cfg.Valid()
    ensures source.Some? <==> cfg.Attachable()
    ensures source.Some? ==>
              && fresh(source.value) && fresh(source.value.buf) && source.value.Valid()
              && source.value.checkpointFile == cfg.checkpointFile && source.value.regex == cfg.Compiled()
              && AttachedAs(source.value, cfg)
    ensures source.Some? ==>
              var cell := cfg.checkpointFile.cell;
              source.value.Pos() ==
                if cfg.canRead && cell.Stored? then Position(cell.inode, cell.offset, cell.offset, [])
                else Position(0, 0, 0, [])
  {
    if cfg.logfile.None? {
      return None;
    }
    if cfg.regex.Some? && cfg.regex.value.None? {
      return None;
    }
    var src := new LogfileSource(cfg.checkpointFile, cfg.Compiled());
    src.ReadCheckpoint(cfg.canRead);
    return Some(src);
  }

  /** The source stands at the checkpoint, with nothing buffered. */
  predicate AttachedAs(source: LogfileSource, cfg: SourceConfig)
    reads source, cfg.checkpointFile
  {
    var mark := Loaded(if cfg.canRead then cfg.checkpointFile.cell else Absent);
    source.Pos() == AtMark(mark) && source.Checkpointed() == mark
  }

  predicate CheckpointDue(now: nat, last: nat) {
    (now - last) % TWO_TO_THE_64 >= CHECKPOINT_INTERVAL_MICROS
  }

  lemma {:induction false} EmptyNoNewline()
    ensures NoNewline("")
  {
  }

  lemma {:induction false} OneByteMore(content: string, start: nat, at: nat)
    requires start <= at < |content|
    ensures content[start..at] + [content[at]] == content[start..at + 1]
  {
  }

  lemma {:induction false} NewlineEnds(line: string, byte: char)
    requires NoNewline(line)
    ensures if byte == '\n' then IsLine(line + [byte]) else NoNewline(line + [byte])
  {
  }

  /**
   A checkpoint is due ten seconds after the last one; when the clock was set
   back since, it is due unless it was set back by almost 2^64 microseconds.
   */
  lemma {:induction false} CheckpointDueExactly(now: nat, last: nat)
    requires now < TWO_TO_THE_64 && last < TWO_TO_THE_64
    ensures CheckpointDue(now, last) <==>
              if now >= last then now - last >= 10_000_000
              else last - now <= 0x1_0000_0000_0000_0000 - 10_000_000
  {
  }

  lemma {:induction false} BufferedOneMore(p: Position, ls: seq<string>, l: string)
    ensures Buffered(p, ls + [l])
         == Buffered(p, ls).(lines := Buffered(p, ls).lines + [l], offset := Buffered(p, ls).offset + |l|)
  {
    ConcatAppend(ls, [l]);
    assert [l][1..] == [];
    assert p.lines + (ls + [l]) == p.lines + ls + [l];
  }

  lemma {:induction false} LineNotEmpty(l: string)
    requires IsLine(l)
    ensures |l| > 0
  {
  }

  lemma {:induction false} NoLines(s: string)
    requires NoNewline(s)
    ensures CompleteLines(s) == []
  {
  }

  lemma {:induction false} LineAtFront(content: string, from: nat, to: nat, end: nat)
    requires from <= to <= end <= |content| && IsLine(content[from..to])
    ensures CompleteLines(content[from..end]) == [content[from..to]] + CompleteLines(content[to..end])
  {
    hide IsLine, CompleteLines;
    CompleteLinesCons(content[from..to], content[to..end]);
    assert content[from..to] + content[to..end] == content[from..end];
  }
}
