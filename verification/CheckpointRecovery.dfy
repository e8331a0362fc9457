/**
 The tailer as a process that can stop between any two statements and be
 started again from its checkpoint file, while lines are appended to the log
 and the log is rotated.  Here generation `i` of the log has inode `i + 1`;
 `Truncation` drops this and lets any inode come back.  Steps that touch only memory are taken together:
 a crash between them is a crash before the first of them.
 */
module CheckpointRecovery {
  import opened Prelude
  import opened Lines
  import opened Tailer

  /** A complete line (with its newline) of file generation `inode`, starting at `start`. */
  datatype LineRef = LineRef(inode: nat, start: nat, text: string) {
    function End(): nat {
      start + |text|
    }
  }

  /** Where the process stands. */
  datatype Phase =
    | Down        // not running
    | Idle        // attached, no call in progress
    | Filled      // in getNextLine, after the call of readLines
    | Popped      // the line is taken off the buffer; before the checkpoint test
    | Marked      // in writeCheckpoint: the fields are set, the file not yet opened
    | Truncated   // the file is opened and truncated, not yet written
    | Finishing   // writeCheckpoint is done or was skipped; before the call returns

  datatype State = State(
    files: seq<string>,        // the generations of the log, the last is the current file
    inode: nat,                // inode of the current file
    disk: Checkpoint,
    phase: Phase,
    detaching: bool,           // the call in progress is pluginDetach
    pos: Position,
    mark: Mark,
    hand: seq<LineRef>,        // the line taken but not yet returned (at most one)
    returned: seq<LineRef>,    // lines the caller received
    lost: seq<LineRef>,        // lines in hand at a crash with the checkpoint already behind them
    crashes: nat,
    misread: bool,             // the checkpoint file could not be read at the last start
    stale: bool,               // the last checkpoint write failed
    clean: bool,               // no crash, no failed write and no failed checkpoint read so far
    since: Mark,               // where `epoch` began
    epoch: seq<LineRef>        // lines returned since then
  )

  datatype Step =
    | Append(more: string)
    | Rotate(content: string)
    | Attach(canRead: bool)
    | Has(io: Reads)
    | Begin(io: Reads)
    | Take
    | SkipCheckpoint
    | SetMark
    | OpenCheckpoint(canOpen: bool)
    | WriteBytes(written: int)
    | Return
    | BeginDetach
    | Crash

  /** Outcomes of the system calls of one `readLines`. */
  datatype Reads = Reads(canStat: bool, canOpen: bool, canSeek: bool, readEnd: nat)

  function Io(s: State, r: Reads): FileIO
    requires s.files != []
  {
    FileIO(
      if r.canStat then Some(Snapshot(s.inode, s.files[|s.files| - 1])) else None,
      r.canOpen, r.canSeek, r.readEnd)
  }

  predicate Init(s: State) {
    && s.files != [] && s.inode == |s.files| && s.disk == Absent && s.phase == Down
    && s.hand == [] && s.returned == [] && s.lost == [] && s.crashes == 0
    && s.clean && s.since == Mark(0, 0) && s.epoch == [] && !s.stale
  }

  predicate Enabled(s: State, step: Step) {
    match step
    case Append(_) => s.files != []
    case Rotate(_) => s.files != []
    case Attach(_) => s.phase == Down
    case Has(_) => s.phase == Idle && s.files != []
    case Begin(_) => s.phase == Idle && s.files != []
    case Take => s.phase == Filled
    case SkipCheckpoint => s.phase == Popped && (s.detaching ==> s.mark == MarkOf(s.pos))
    case SetMark => s.phase == Popped && s.mark != MarkOf(s.pos)
    case OpenCheckpoint(_) => s.phase == Marked
    case WriteBytes(_) => s.phase == Truncated
    case Return => s.phase == Finishing
    case BeginDetach => s.phase == Idle
    case Crash => s.phase != Down
  }

  function Next(s: State, step: Step): State
    requires Enabled(s, step)
  {
    match step
    case Append(more) =>
      s.(files := s.files[|s.files| - 1 := s.files[|s.files| - 1] + more])
    case Rotate(content) =>
      s.(files := s.files + [content], inode := |s.files| + 1)
    case Attach(canRead) =>
      var m := Loaded(if canRead then s.disk else Absent);
      var t := s.(phase := Idle, detaching := false, pos := AtMark(m), mark := m,
                  misread := !canRead, stale := !canRead, clean := s.clean && canRead);
      if t.clean then t else t.(since := m, epoch := [])
    case Has(r) =>
      s.(pos := AfterFill(s.pos, Io(s, r)).1)
    case Begin(r) =>
      var (ok, p) := AfterFill(s.pos, Io(s, r));
      s.(pos := p, phase := if ok then Filled else Idle)
    case Take =>
      s.(phase := Popped, pos := AfterTake(s.pos),
         hand := if s.pos.lines == [] then []
                 else [LineRef(s.pos.inode, s.pos.consumed, s.pos.lines[0])])
    case SkipCheckpoint =>
      s.(phase := Finishing)
    case SetMark =>
      s.(phase := Marked, mark := MarkOf(s.pos))
    case OpenCheckpoint(canOpen) =>
      if canOpen then s.(phase := Truncated, disk := Partial)
      else s.(phase := Finishing, stale := true, clean := false)
    case WriteBytes(written) =>
      var ok := written == CHECKPOINT_SIZE;
      s.(phase := Finishing, disk := Written(s.mark, written), stale := !ok, clean := s.clean && ok)
    case Return =>
      s.(phase := if s.detaching then Down else Idle, hand := [],
         returned := s.returned + s.hand, epoch := s.epoch + s.hand)
    case BeginDetach =>
      s.(phase := Popped, detaching := true)
    case Crash =>
      s.(phase := Down, hand := [], crashes := s.crashes + 1, clean := false,
         lost := s.lost + if BehindCheckpoint(s) then s.hand else [])
  }

  /** A process that goes on at the mark does not come to the line any more. */
  predicate Past(m: Mark, r: LineRef) {
    !AtOrBefore(m, Mark(r.inode, r.start))
  }

  /** The checkpoint on disk is already past the line in hand. */
  predicate BehindCheckpoint(s: State) {
    s.hand != [] && Past(Loaded(s.disk), s.hand[0])
  }

  // ---------------------------------------------------------------- invariant

  predicate IsMark(files: seq<string>, m: Mark) {
    if m.inode == 0 then m.offset == 0
    else m.inode <= |files| && Boundary(files[m.inode - 1], m.offset)
  }

  predicate AtOrBefore(a: Mark, b: Mark) {
    a.inode < b.inode || (a.inode == b.inode && a.offset <= b.offset)
  }

  predicate PositionOk(files: seq<string>, p: Position) {
    if p.inode == 0 then p == AtMark(Mark(0, 0))
    else p.inode <= |files| && Aligned(p, files[p.inode - 1])
  }

  /** `r` is a complete line of its generation. */
  predicate IsLineOf(files: seq<string>, r: LineRef) {
    && 1 <= r.inode <= |files|
    && IsLine(r.text)
    && Boundary(files[r.inode - 1], r.start)
    && r.End() <= |files[r.inode - 1]|
    && files[r.inode - 1][r.start..r.End()] == r.text
  }

  /** Every line that was returned, is in hand, or was lost. */
  function Known(s: State): seq<LineRef> {
    s.returned + s.lost + s.hand
  }

  ghost predicate StartIn(rs: seq<LineRef>, inode: nat, p: nat) {
    exists r :: r in rs && r.inode == inode && r.start == p
  }

  /** Every line of the generation that starts before the mark is among `rs`. */
  ghost predicate CoveredTo(files: seq<string>, rs: seq<LineRef>, m: Mark)
    requires IsMark(files, m)
  {
    m.inode > 0 ==>
      forall p: nat :: p < m.offset && Boundary(files[m.inode - 1], p) ==> StartIn(rs, m.inode, p)
  }

  ghost predicate Covered(s: State) {
    && IsMark(s.files, Loaded(s.disk))
    && CoveredTo(s.files, Known(s), Loaded(s.disk))
    && (s.phase != Down ==>
          && IsMark(s.files, MarkOf(s.pos))
          && CoveredTo(s.files, Known(s), MarkOf(s.pos)))
  }

  predicate HandOk(s: State) {
    && |s.hand| <= 1
    && (s.hand != [] ==>
          && s.phase in {Popped, Marked, Truncated, Finishing}
          && s.hand[0].inode == s.pos.inode && s.hand[0].End() == s.pos.consumed
          && (!s.misread ==>
                || AtOrBefore(Loaded(s.disk), Mark(s.hand[0].inode, s.hand[0].start))
                || (s.phase == Finishing && Loaded(s.disk) == MarkOf(s.pos))))
  }

  ghost predicate RefsOk(s: State) {
    forall r :: r in Known(s) ==> IsLineOf(s.files, r)
  }

  predicate MemoryOk(s: State) {
    s.phase != Down ==>
      && PositionOk(s.files, s.pos)
      && AtOrBefore(s.mark, MarkOf(s.pos))
      && (s.mark.inode == 0 ==> s.mark.offset == 0)
      && (s.phase in {Marked, Truncated} ==> s.mark == MarkOf(s.pos))
      && (!s.misread ==> AtOrBefore(Loaded(s.disk), MarkOf(s.pos)))
      && (!s.stale && s.phase !in {Marked, Truncated} ==> Loaded(s.disk) == s.mark)
      && (s.phase == Finishing && s.detaching ==> s.mark == MarkOf(s.pos))
  }

  /** The tailer moves from `a` to `b` without skipping: it stays, or a newer generation is begun at its start. */
  predicate Follows(a: Mark, b: Mark) {
    b == a || (b.inode > a.inode && b.offset == 0)
  }

  /** `refs` are the lines between the marks, each once and in order. */
  predicate Chain(a: Mark, refs: seq<LineRef>, b: Mark) {
    if refs == [] then Follows(a, b)
    else
      var r := refs[|refs| - 1];
      && Chain(a, refs[..|refs| - 1], Mark(r.inode, r.start))
      && Follows(Mark(r.inode, r.End()), b)
  }

  predicate InOrder(s: State) {
    && (s.phase != Down ==> Chain(s.since, s.epoch + s.hand, MarkOf(s.pos)))
    && (s.clean ==>
          && !s.stale && s.since == Mark(0, 0) && s.epoch == s.returned
          && (s.phase == Down ==> Chain(s.since, s.epoch, Loaded(s.disk))))
  }

  ghost predicate Inv(s: State) {
    && s.files != [] && s.inode == |s.files|
    && MemoryOk(s) && HandOk(s) && RefsOk(s) && Covered(s) && InOrder(s)
    && |s.lost| <= s.crashes
  }

  // ---------------------------------------------------------------- growing files

  /** Every generation keeps its bytes; newer ones may be added. */
  predicate Extends(files: seq<string>, files': seq<string>) {
    && |files| <= |files'|
    && forall i :: 0 <= i < |files| ==> files[i] <= files'[i]
  }

  lemma {:induction false} PositionUnderExtend(files: seq<string>, files': seq<string>, p: Position)
    requires Extends(files, files') && PositionOk(files, p)
    ensures PositionOk(files', p)
  {
  }

  lemma {:induction false} LineUnderExtend(files: seq<string>, files': seq<string>, r: LineRef)
    requires Extends(files, files') && IsLineOf(files, r)
    ensures IsLineOf(files', r)
  {
  }

  lemma {:induction false} CoveredUnderExtend(files: seq<string>, files': seq<string>, rs: seq<LineRef>, m: Mark)
    requires Extends(files, files') && IsMark(files, m) && CoveredTo(files, rs, m)
    ensures IsMark(files', m) && CoveredTo(files', rs, m)
  {
  }

  lemma {:induction false} StartInMore(rs: seq<LineRef>, rs': seq<LineRef>, inode: nat, p: nat)
    requires StartIn(rs, inode, p)
    requires forall r :: r in rs && r.inode == inode && r.start == p ==> r in rs'
    ensures StartIn(rs', inode, p)
  {
  }

  /** A mark stays covered when no line before it is dropped. */
  lemma {:induction false} CoveredByMore(files: seq<string>, rs: seq<LineRef>, rs': seq<LineRef>, m: Mark)
    requires IsMark(files, m) && CoveredTo(files, rs, m)
    requires forall r :: r in rs && r.inode == m.inode && r.start < m.offset ==> r in rs'
    ensures CoveredTo(files, rs', m)
  {
    hide StartIn;
    if m.inode > 0 {
      forall p: nat | p < m.offset && Boundary(files[m.inode - 1], p) ensures StartIn(rs', m.inode, p) {
        StartInMore(rs, rs', m.inode, p);
      }
    }
  }

  // ---------------------------------------------------------------- chains

  lemma {:induction false} ChainExtend(a: Mark, refs: seq<LineRef>, b: Mark, c: Mark)
    requires Chain(a, refs, b) && Follows(b, c)
    ensures Chain(a, refs, c)
  {
  }

  lemma {:induction false} ChainSnoc(a: Mark, refs: seq<LineRef>, r: LineRef)
    requires Chain(a, refs, Mark(r.inode, r.start))
    ensures Chain(a, refs + [r], Mark(r.inode, r.End()))
  {
    assert (refs + [r])[..|refs|] == refs;
  }

  // ---------------------------------------------------------------- steps

  lemma {:induction false} GrowKeepsInv(s: State, files': seq<string>)
    requires Inv(s) && Extends(s.files, files')
    ensures Inv(s.(files := files', inode := |files'|))
  {
    hide Aligned, IsLine, IsLineOf, Chain, IsMark, PositionOk, Boundary, CoveredTo, Extends;
    var t := s.(files := files', inode := |files'|);
    assert files' != [] by { ExtendsNotEmpty(s.files, files'); }
    assert RefsOk(t) by {
      forall r | r in Known(t) ensures IsLineOf(files', r) {
        LineUnderExtend(s.files, files', r);
      }
    }
    CoveredUnderExtend(s.files, files', Known(s), Loaded(s.disk));
    if s.phase != Down {
      PositionUnderExtend(s.files, files', s.pos);
      CoveredUnderExtend(s.files, files', Known(s), MarkOf(s.pos));
    }
  }

  lemma {:induction false} ExtendsNotEmpty(files: seq<string>, files': seq<string>)
    requires Extends(files, files') && files != []
    ensures files' != []
  {
  }

  /** A fill leaves the consumed position, or begins the current generation. */
  lemma {:induction false} FillFollows(s: State, r: Reads)
    requires s.files != [] && s.inode == |s.files| && PositionOk(s.files, s.pos)
    ensures var p := AfterFill(s.pos, Io(s, r)).1;
            && PositionOk(s.files, p)
            && Follows(MarkOf(s.pos), MarkOf(p))
  {
    hide FirstLines, Unread;
    var io := Io(s, r);
    if s.pos.lines == [] && r.canStat {
      var f := io.stat.value;
      if s.pos.inode == 0 {
        AlignedAtBoundary(f.inode, f.content, 0);
        RebaseStartsOver(s.pos, f);
        FillFromRebased(s.pos, io, "");
      } else {
        FillFromRebased(s.pos, io, s.files[s.pos.inode - 1]);
      }
    }
  }

  lemma {:induction false} RebaseStartsOver(p: Position, f: Snapshot)
    requires f.inode != p.inode
    ensures Rebased(p, f) == Position(f.inode, 0, 0, [])
  {
  }

  lemma {:induction false} FillFromRebased(p: Position, io: FileIO, known: string)
    requires io.stat.Some? && Aligned(p, known)
    requires io.stat.value.inode == p.inode ==> known == io.stat.value.content
    ensures var q := AfterReadLines(p, io).1;
            && Aligned(q, io.stat.value.content)
            && q.inode == io.stat.value.inode
            && (if io.stat.value.inode == p.inode then MarkOf(q) == MarkOf(p) else MarkOf(q) == Mark(q.inode, 0))
  {
    hide FirstLines, Unread;
    AlignedAfterReadLines(p, io, known);
    AlignedBounds(p, known);
  }

  lemma {:induction false} MarkOfPositionOk(files: seq<string>, p: Position)
    requires PositionOk(files, p)
    ensures IsMark(files, MarkOf(p))
  {
  }

  lemma {:induction false} FillKeepsInv(s: State, r: Reads, phase: Phase)
    requires Inv(s) && s.phase == Idle && phase in {Idle, Filled}
    ensures Inv(s.(pos := AfterFill(s.pos, Io(s, r)).1, phase := phase))
  {
    hide AfterFill, Aligned, IsLineOf, Chain, StartIn, Boundary;
    var p := AfterFill(s.pos, Io(s, r)).1;
    FillFollows(s, r);
    MarkOfPositionOk(s.files, p);
    ChainExtend(s.since, s.epoch + s.hand, MarkOf(s.pos), MarkOf(p));
  }

  /** The only line that starts in a line is the line itself. */
  lemma {:induction false} NoBoundaryInside(content: string, start: nat, end: nat, p: nat)
    requires start < p < end <= |content| && IsLine(content[start..end])
    ensures !Boundary(content, p)
  {
    assert content[start..end][p - 1 - start] == content[p - 1];
  }

  lemma {:induction false} TakenLine(files: seq<string>, p: Position)
    requires PositionOk(files, p) && p.lines != []
    ensures var r := LineRef(p.inode, p.consumed, p.lines[0]);
            IsLineOf(files, r) && MarkOf(Taken(p)) == Mark(r.inode, r.End()) && PositionOk(files, Taken(p))
  {
    AlignedAfterTake(p, files[p.inode - 1]);
  }

  lemma {:induction false} CoveredAfterLine(files: seq<string>, rs: seq<LineRef>, r: LineRef)
    requires IsLineOf(files, r) && IsMark(files, Mark(r.inode, r.start)) && IsMark(files, Mark(r.inode, r.End()))
    requires CoveredTo(files, rs, Mark(r.inode, r.start))
    ensures CoveredTo(files, rs + [r], Mark(r.inode, r.End()))
  {
    hide IsLine, StartIn;
    var content := files[r.inode - 1];
    forall p: nat | p < r.End() && Boundary(content, p) ensures StartIn(rs + [r], r.inode, p) {
      if p < r.start {
        StartInMore(rs, rs + [r], r.inode, p);
      } else if p == r.start {
        StartInLast(rs, r);
      } else {
        NoBoundaryInside(content, r.start, r.End(), p);
      }
    }
  }

  lemma {:induction false} StartInLast(rs: seq<LineRef>, r: LineRef)
    ensures StartIn(rs + [r], r.inode, r.start)
  {
    assert r in rs + [r];
  }

  lemma {:induction false} TakeKeepsInv(s: State)
    requires Inv(s) && s.phase == Filled
    ensures Inv(Next(s, Take))
  {
    hide Aligned, IsLineOf, Chain, StartIn, Boundary, CoveredTo, IsMark, PositionOk;
    var t := Next(s, Take);
    if s.pos.lines == [] {
      assert Known(t) == Known(s);
    } else {
      var r := LineRef(s.pos.inode, s.pos.consumed, s.pos.lines[0]);
      TakenLine(s.files, s.pos);
      MarkOfPositionOk(s.files, Taken(s.pos));
      assert s.returned + s.lost + [] == s.returned + s.lost;
      assert Known(t) == Known(s) + [r];
      CoveredAfterLine(s.files, Known(s), r);
      CoveredByMore(s.files, Known(s), Known(t), Loaded(s.disk));
      assert s.epoch + [] == s.epoch;
      ChainSnoc(s.since, s.epoch, r);
    }
  }

  /** Skipping a checkpoint, setting the mark, and starting to detach. */
  lemma {:induction false} MarkKeepsInv(s: State, step: Step)
    requires Inv(s) && Enabled(s, step)
    requires step.SkipCheckpoint? || step.SetMark? || step.BeginDetach?
    ensures Inv(Next(s, step))
  {
    hide Aligned, IsLineOf, Chain, StartIn, Boundary, PositionOk, CoveredTo;
    var t := Next(s, step);
    assert Known(t) == Known(s);
  }

  lemma {:induction false} WriteKeepsInv(s: State, step: Step)
    requires Inv(s) && Enabled(s, step)
    requires step.OpenCheckpoint? || step.WriteBytes?
    ensures Inv(Next(s, step))
  {
    hide Aligned, IsLineOf, Chain, StartIn, Boundary, PositionOk, CoveredTo, IsMark;
    var t := Next(s, step);
    assert Known(t) == Known(s);
    NoMarkCovered(s.files, Known(s));
  }

  lemma {:induction false} NoMarkCovered(files: seq<string>, rs: seq<LineRef>)
    ensures IsMark(files, Mark(0, 0)) && CoveredTo(files, rs, Mark(0, 0))
  {
  }

  lemma {:induction false} ReturnKeepsInv(s: State)
    requires Inv(s) && s.phase == Finishing
    ensures Inv(Next(s, Return))
  {
    hide Aligned, IsLineOf, Chain, StartIn, Boundary, CoveredTo, IsMark, PositionOk;
    var t := Next(s, Return);
    CoveredByMore(s.files, Known(s), Known(t), Loaded(s.disk));
    CoveredByMore(s.files, Known(s), Known(t), MarkOf(s.pos));
    assert t.epoch + [] == t.epoch;
  }

  lemma {:induction false} AttachedAt(files: seq<string>, m: Mark)
    requires IsMark(files, m)
    ensures PositionOk(files, AtMark(m)) && MarkOf(AtMark(m)) == m
  {
  }

  lemma {:induction false} AttachKeepsInv(s: State, canRead: bool)
    requires Inv(s) && s.phase == Down
    ensures Inv(Next(s, Attach(canRead)))
  {
    hide Aligned, IsLineOf, StartIn, Boundary, PositionOk;
    var t := Next(s, Attach(canRead));
    AttachedAt(s.files, t.mark);
    assert Known(t) == Known(s);
    assert t.epoch + [] == t.epoch;
  }

  lemma {:induction false} CrashKeepsInv(s: State)
    requires Inv(s) && s.phase != Down
    ensures Inv(Next(s, Crash))
  {
    hide Aligned, IsLineOf, Chain, StartIn, Boundary, CoveredTo, IsMark, PositionOk;
    var t := Next(s, Crash);
    var disk := Loaded(s.disk);
    forall r | r in Known(s) && r.inode == disk.inode && r.start < disk.offset ensures r in Known(t) {
      assert r in s.hand ==> r == s.hand[0];
    }
    CoveredByMore(s.files, Known(s), Known(t), disk);
  }

  lemma {:induction false} LastNumber(s: State)
    requires Inv(s)
    ensures s.inode == |s.files|
  {
  }

  lemma {:induction false} StepKeepsInv(s: State, step: Step)
    requires Inv(s) && Enabled(s, step)
    ensures Inv(Next(s, step))
  {
    hide Inv, AfterFill, Known;
    LastNumber(s);
    match step
    case Append(more) => GrowKeepsInv(s, Next(s, step).files);
    case Rotate(content) => GrowKeepsInv(s, Next(s, step).files);
    case Attach(canRead) => AttachKeepsInv(s, canRead);
    case Has(r) => FillKeepsInv(s, r, Idle);
    case Begin(r) => FillKeepsInv(s, r, if AfterFill(s.pos, Io(s, r)).0 then Filled else Idle);
    case Take => TakeKeepsInv(s);
    case Return => ReturnKeepsInv(s);
    case Crash => CrashKeepsInv(s);
    case OpenCheckpoint(_) => WriteKeepsInv(s, step);
    case WriteBytes(_) => WriteKeepsInv(s, step);
    case _ => MarkKeepsInv(s, step);
  }

  // ---------------------------------------------------------------- runs

  predicate Executable(s: State, steps: seq<Step>)
    decreases |steps|
  {
    steps != [] ==> Enabled(s, steps[0]) && Executable(Next(s, steps[0]), steps[1..])
  }

  function Final(s: State, steps: seq<Step>): State
    requires Executable(s, steps)
    decreases |steps|
  {
    if steps == [] then s else Final(Next(s, steps[0]), steps[1..])
  }

  lemma {:induction false} InitInv(s: State)
    requires Init(s)
    ensures Inv(s)
  {
    assert s.epoch + s.hand == [];
  }

  lemma {:induction false} RunKeepsInv(s: State, steps: seq<Step>)
    requires Inv(s) && Executable(s, steps)
    ensures Inv(Final(s, steps))
    decreases |steps|
  {
    hide Inv, Enabled, Next;
    if steps != [] {
      StepKeepsInv(s, steps[0]);
      RunKeepsInv(Next(s, steps[0]), steps[1..]);
    }
  }

  /**
   Crash safety: after any run, the checkpoint on disk reads as a line
   boundary of one generation, not past the consumed position of a running
   process that could read it at its start; every line before the checkpoint
   was returned, is in hand, or was lost in a crash, and a crash loses at most
   one line.
   */
  lemma {:induction false} CheckpointIsSafe(s0: State, steps: seq<Step>, p: nat)
    requires Init(s0) && Executable(s0, steps)
    ensures var s := Final(s0, steps);
            var disk := Loaded(s.disk);
            && IsMark(s.files, disk)
            && (s.phase != Down && !s.misread ==> AtOrBefore(disk, MarkOf(s.pos)))
            && (disk.inode > 0 && p < disk.offset && Boundary(s.files[disk.inode - 1], p) ==>
                  StartIn(s.returned + s.lost + s.hand, disk.inode, p))
            && |s.lost| <= s.crashes
  {
    hide StartIn, Boundary, Chain, Aligned;
    InitInv(s0);
    RunKeepsInv(s0, steps);
  }

  /** At least once: between calls, every line before `consumed` was returned or lost in a crash. */
  lemma {:induction false} AtLeastOnce(s0: State, steps: seq<Step>, p: nat)
    requires Init(s0) && Executable(s0, steps)
    ensures var s := Final(s0, steps);
            s.phase == Idle ==>
              && PositionOk(s.files, s.pos)
              && (s.pos.inode > 0 && p < s.pos.consumed && Boundary(s.files[s.pos.inode - 1], p) ==>
                    StartIn(s.returned + s.lost, s.pos.inode, p))
  {
    hide StartIn, Boundary, Chain, Aligned;
    InitInv(s0);
    RunKeepsInv(s0, steps);
    var s := Final(s0, steps);
    if s.phase == Idle {
      assert Known(s) == s.returned + s.lost;
    }
  }

  /** Whatever is returned is a complete line of the log, as it stands in its generation. */
  lemma {:induction false} ReturnedLinesAreReal(s0: State, steps: seq<Step>, r: LineRef)
    requires Init(s0) && Executable(s0, steps) && r in Final(s0, steps).returned
    ensures IsLineOf(Final(s0, steps).files, r)
  {
    hide IsLineOf, Chain, Aligned;
    InitInv(s0);
    RunKeepsInv(s0, steps);
    assert r in Known(Final(s0, steps));
  }

  /**
   What a crash loses.  The process that is started next goes on past the line
   in hand, which is then lost, exactly when the checkpoint write was complete
   and the call had not returned; it goes on right behind that line.  In all
   other states it comes to the line again.
   */
  lemma {:induction false} LossWindow(s0: State, steps: seq<Step>)
    requires Init(s0) && Executable(s0, steps)
    requires Final(s0, steps).phase != Down
    ensures var s := Final(s0, steps);
            var t := Next(Next(s, Crash), Attach(true));
            if s.hand == [] then t.lost == s.lost
            else
              var line, resumed := s.hand[0], MarkOf(t.pos);
              && t.lost == (if Past(resumed, line) then s.lost + [line] else s.lost)
              && (!s.misread ==>
                    && (Past(resumed, line) <==> s.phase == Finishing && Loaded(s.disk) == MarkOf(s.pos))
                    && (Past(resumed, line) ==> resumed == Mark(line.inode, line.End())))
  {
    hide StartIn, Boundary, Chain, Aligned;
    InitInv(s0);
    RunKeepsInv(s0, steps);
    var s := Final(s0, steps);
    assert s.lost + [] == s.lost;
    if s.hand != [] {
      assert s.hand[0] in Known(s) && s.hand == [s.hand[0]];
    }
  }

  /** The steps of a loss: the checkpoint is written, the call does not return, the process starts again. */
  const CRASH_AFTER_WRITE: seq<Step> :=
    [SetMark, OpenCheckpoint(true), WriteBytes(CHECKPOINT_SIZE), Crash, Attach(true)]

  /** Every line in hand whose checkpoint is due can be lost in this way. */
  lemma {:induction false} LossHappens(s: State)
    requires Inv(s) && s.phase == Popped && s.hand != [] && s.mark != MarkOf(s.pos)
    ensures Executable(s, CRASH_AFTER_WRITE)
    ensures var t := Final(s, CRASH_AFTER_WRITE);
            && t.returned == s.returned && t.lost == s.lost + s.hand && t.hand == []
            && t.pos == AtMark(MarkOf(s.pos)) && t.files == s.files && t.inode == s.inode
  {
    hide Executable, Final, StartIn, Boundary, Chain, Aligned;
    assert s.hand[0] in Known(s);
    CrashesAfterWrite(s);
  }

  lemma {:induction false} CrashesAfterWrite(s: State)
    requires s.phase == Popped && s.mark != MarkOf(s.pos)
    requires s.hand != [] && s.hand[0].inode == s.pos.inode > 0 && s.hand[0].start < s.pos.consumed
    ensures Executable(s, CRASH_AFTER_WRITE)
    ensures var t := Final(s, CRASH_AFTER_WRITE);
            && t.returned == s.returned && t.lost == s.lost + s.hand && t.hand == []
            && t.pos == AtMark(MarkOf(s.pos)) && t.files == s.files && t.inode == s.inode
  {
    hide Executable, Final;
    var s1 := Next(s, SetMark);
    var s2 := Next(s1, OpenCheckpoint(true));
    var s3 := Next(s2, WriteBytes(CHECKPOINT_SIZE));
    TwoSteps(s3, Crash, Attach(true));
    var rest := [Crash, Attach(true)];
    OneStep(s2, WriteBytes(CHECKPOINT_SIZE), rest);
    OneStep(s1, OpenCheckpoint(true), [WriteBytes(CHECKPOINT_SIZE)] + rest);
    OneStep(s, SetMark, [OpenCheckpoint(true)] + ([WriteBytes(CHECKPOINT_SIZE)] + rest));
    assert [SetMark] + ([OpenCheckpoint(true)] + ([WriteBytes(CHECKPOINT_SIZE)] + rest)) == CRASH_AFTER_WRITE;
  }

  /**
   A crash between truncating the checkpoint file and writing it loses no line,
   but the position: whatever was consumed, the next process starts before the
   first generation of the log.
   */
  lemma {:induction false} TornWriteStartsOver(s: State)
    requires s.phase == Marked
    ensures var steps := [OpenCheckpoint(true), Crash, Attach(true)];
            && Executable(s, steps)
            && var t := Final(s, steps);
               && t.pos == Position(0, 0, 0, []) && t.lost == s.lost && t.returned == s.returned
  {
    hide Executable, Final;
    var torn := Next(s, OpenCheckpoint(true));
    TwoSteps(torn, Crash, Attach(true));
    OneStep(s, OpenCheckpoint(true), [Crash, Attach(true)]);
    assert [OpenCheckpoint(true)] + [Crash, Attach(true)] == [OpenCheckpoint(true), Crash, Attach(true)];
    assert s.lost + [] == s.lost;
  }

  /** A loss from the start: the only line of a log is not returned, and does not come again. */
  lemma {:induction false} OnlyLineLost(s0: State)
    requires Init(s0) && s0.files == ["a\n"]
    ensures var r := Reads(true, true, true, 2);
            var steps := [Attach(true), Begin(r), Take] + CRASH_AFTER_WRITE;
            && Executable(s0, steps)
            && var t := Final(s0, steps);
               && t.returned == [] && t.pos == AtMark(Mark(1, 2))
               && t.files != [] && AfterFill(t.pos, Io(t, r)) == (true, t.pos)
  {
    hide Executable, Final, AfterFill, Io;
    var r := Reads(true, true, true, 2);
    var s1 := Next(s0, Attach(true));
    OneLineFill(s1, r);
    var popped := Next(Next(s1, Begin(r)), Take);
    CrashesAfterWrite(popped);
    assert [Attach(true), Begin(r), Take] + CRASH_AFTER_WRITE
        == [Attach(true)] + ([Begin(r)] + ([Take] + CRASH_AFTER_WRITE));
    OneStep(s0, Attach(true), [Begin(r)] + ([Take] + CRASH_AFTER_WRITE));
    OneStep(s1, Begin(r), [Take] + CRASH_AFTER_WRITE);
    OneStep(Next(s1, Begin(r)), Take, CRASH_AFTER_WRITE);
    NothingAfterOneLine(Final(popped, CRASH_AFTER_WRITE), r);
  }

  lemma {:induction false} NothingAfterOneLine(s: State, r: Reads)
    requires s.files == ["a\n"] && s.inode == 1 && s.pos == AtMark(Mark(1, 2)) && r == Reads(true, true, true, 2)
    ensures AfterFill(s.pos, Io(s, r)) == (true, s.pos)
  {
  }

  // ---------------------------------------------------------------- exactly once

  /** No crash and no failure of the checkpoint file. */
  predicate CleanStep(step: Step) {
    match step
    case Crash => false
    case Attach(canRead) => canRead
    case OpenCheckpoint(canOpen) => canOpen
    case WriteBytes(written) => written == CHECKPOINT_SIZE
    case _ => true
  }

  lemma {:induction false} CleanIffCleanSteps(s: State, steps: seq<Step>)
    requires Executable(s, steps)
    ensures Final(s, steps).clean <==> s.clean && forall i :: 0 <= i < |steps| ==> CleanStep(steps[i])
    decreases |steps|
  {
    hide Next, Enabled, CleanStep;
    if steps != [] {
      CleanIffCleanSteps(Next(s, steps[0]), steps[1..]);
      assert forall i :: 0 < i < |steps| ==> steps[i] == steps[1..][i - 1];
      CleanAfterStep(s, steps[0]);
    }
  }

  lemma {:induction false} CleanAfterStep(s: State, step: Step)
    requires Enabled(s, step)
    ensures Next(s, step).clean == (s.clean && CleanStep(step))
  {
    hide AfterFill, AfterTake, Io, Loaded, Written, BehindCheckpoint;
  }

  /** The bytes of generation `inode` among `refs`, in order. */
  function TextOf(refs: seq<LineRef>, inode: nat): string {
    if refs == [] then ""
    else
      var r := refs[|refs| - 1];
      TextOf(refs[..|refs| - 1], inode) + if r.inode == inode then r.text else ""
  }

  /** What a chain of lines from the start of the log amounts to, generation by generation. */
  lemma {:induction false} ChainText(files: seq<string>, refs: seq<LineRef>, b: Mark, inode: nat)
    requires 1 <= inode <= |files|
    requires Chain(Mark(0, 0), refs, b) && IsMark(files, b)
    requires forall r :: r in refs ==> IsLineOf(files, r)
    ensures inode == b.inode ==> TextOf(refs, inode) == files[inode - 1][..b.offset]
    ensures inode > b.inode ==> TextOf(refs, inode) == ""
    ensures TextOf(refs, inode) <= files[inode - 1]
    decreases |refs|
  {
    hide Boundary, IsLine;
    var content := files[inode - 1];
    if refs == [] {
      assert content[..0] == "";
    } else {
      var r := refs[|refs| - 1];
      var before := refs[..|refs| - 1];
      assert r in refs;
      ChainText(files, before, Mark(r.inode, r.start), inode);
      if r.inode == inode {
        assert content[..r.start] + content[r.start..r.End()] == content[..r.End()];
      }
    }
  }

  /**
   Exactly once: in a run without crashes and checkpoint failures, over any
   number of detaches, attaches and rotations, the returned lines (with their
   newlines) of the current generation concatenate to its bytes up to the
   consumed position, and those of an older one to a prefix of it.  No line is
   returned twice and none is skipped in between.
   */
  lemma {:induction false} ExactlyOnce(s0: State, steps: seq<Step>, inode: nat)
    requires Init(s0) && Executable(s0, steps)
    requires forall i :: 0 <= i < |steps| ==> CleanStep(steps[i])
    requires 1 <= inode <= |Final(s0, steps).files|
    ensures var s := Final(s0, steps);
            var at := if s.phase == Down then Loaded(s.disk) else MarkOf(s.pos);
            && IsMark(s.files, at)
            && (inode == at.inode ==> TextOf(s.returned + s.hand, inode) == s.files[inode - 1][..at.offset])
            && (inode > at.inode ==> TextOf(s.returned + s.hand, inode) == "")
            && TextOf(s.returned + s.hand, inode) <= s.files[inode - 1]
  {
    hide Inv, TextOf;
    InitInv(s0);
    RunKeepsInv(s0, steps);
    CleanIffCleanSteps(s0, steps);
    CleanText(Final(s0, steps), inode);
  }

  lemma {:induction false} CleanText(s: State, inode: nat)
    requires Inv(s) && s.clean && 1 <= inode <= |s.files|
    ensures var at := if s.phase == Down then Loaded(s.disk) else MarkOf(s.pos);
            && IsMark(s.files, at)
            && (inode == at.inode ==> TextOf(s.returned + s.hand, inode) == s.files[inode - 1][..at.offset])
            && (inode > at.inode ==> TextOf(s.returned + s.hand, inode) == "")
            && TextOf(s.returned + s.hand, inode) <= s.files[inode - 1]
  {
    hide Boundary, Chain, Aligned, IsLineOf, TextOf, CoveredTo;
    var at := if s.phase == Down then Loaded(s.disk) else MarkOf(s.pos);
    assert s.returned + [] == s.returned;
    forall r | r in s.returned + s.hand ensures IsLineOf(s.files, r) {
      assert r in Known(s);
    }
    ChainText(s.files, s.returned + s.hand, at, inode);
  }

  // ---------------------------------------------------------------- detach and attach

  /** The statements of `writeCheckpoint` and the return, for given outcomes. */
  function WriteSteps(s: State, io: WriteIO): seq<Step> {
    if s.mark == MarkOf(s.pos) then [SkipCheckpoint, Return]
    else if !io.canOpen then [SetMark, OpenCheckpoint(false), Return]
    else [SetMark, OpenCheckpoint(true), WriteBytes(io.written), Return]
  }

  lemma {:induction false} RunWrite(s: State, io: WriteIO)
    requires s.phase == Popped
    ensures Executable(s, WriteSteps(s, io))
    ensures var t := Final(s, WriteSteps(s, io));
            && t.disk == AfterWrite(s.disk, s.mark, s.pos, io)
            && t.mark == MarkOf(s.pos)
            && t.phase == (if s.detaching then Down else Idle)
            && t.returned == s.returned + s.hand && t.hand == []
            && t.pos == s.pos && t.files == s.files
  {
    if s.mark == MarkOf(s.pos) {
      TwoSteps(s, SkipCheckpoint, Return);
    } else {
      RunMarkedWrite(s, io);
    }
  }

  lemma {:induction false} RunMarkedWrite(s: State, io: WriteIO)
    requires s.phase == Popped && s.mark != MarkOf(s.pos)
    ensures Executable(s, WriteSteps(s, io))
    ensures Final(s, WriteSteps(s, io)) ==
            (if io.canOpen then Next(Next(Next(Next(s, SetMark), OpenCheckpoint(true)), WriteBytes(io.written)), Return)
             else Next(Next(Next(s, SetMark), OpenCheckpoint(false)), Return))
  {
    hide Executable, Final;
    var s1 := Next(s, SetMark);
    if io.canOpen {
      assert [SetMark, OpenCheckpoint(true), WriteBytes(io.written), Return]
          == [SetMark] + ([OpenCheckpoint(true)] + [WriteBytes(io.written), Return]);
      OneStep(s, SetMark, [OpenCheckpoint(true)] + [WriteBytes(io.written), Return]);
      OneStep(s1, OpenCheckpoint(true), [WriteBytes(io.written), Return]);
      TwoSteps(Next(s1, OpenCheckpoint(true)), WriteBytes(io.written), Return);
    } else {
      assert [SetMark, OpenCheckpoint(false), Return] == [SetMark] + [OpenCheckpoint(false), Return];
      OneStep(s, SetMark, [OpenCheckpoint(false), Return]);
      TwoSteps(s1, OpenCheckpoint(false), Return);
    }
  }

  lemma {:induction false} OneStep(s: State, a: Step, rest: seq<Step>)
    requires Enabled(s, a)
    ensures Executable(s, [a] + rest) == Executable(Next(s, a), rest)
    ensures Executable(Next(s, a), rest) ==> Final(s, [a] + rest) == Final(Next(s, a), rest)
  {
    assert ([a] + rest)[1..] == rest;
  }

  lemma {:induction false} TwoSteps(s: State, a: Step, b: Step)
    requires Enabled(s, a) && Enabled(Next(s, a), b)
    ensures Executable(s, [a, b]) && Final(s, [a, b]) == Next(Next(s, a), b)
  {
    assert [a, b] == [a] + [b] && [b] == [b] + [];
    OneStep(s, a, [b]);
    OneStep(Next(s, a), b, []);
  }

  /**
   One call of `getNextLine` without interruption does to the position, the
   marks and the disk what the contract of the class says, and returns the
   line at the consumed position.
   */
  lemma {:induction false} UninterruptedCall(s: State, r: Reads, due: bool, io: WriteIO)
    requires s.phase == Idle && !s.detaching && s.hand == [] && s.files != []
    requires AfterFill(s.pos, Io(s, r)).0
    ensures var p := AfterFill(s.pos, Io(s, r)).1;
            var popped := Next(Next(s, Begin(r)), Take);
            var steps := [Begin(r), Take] + (if due then WriteSteps(popped, io) else [SkipCheckpoint, Return]);
            && Executable(s, steps)
            && var t := Final(s, steps);
               && t.phase == Idle && t.pos == AfterTake(p)
               && t.mark == (if due then MarkOf(AfterTake(p)) else s.mark)
               && t.disk == (if due then AfterWrite(s.disk, s.mark, AfterTake(p), io) else s.disk)
               && t.returned == s.returned +
                    (if p.lines == [] then [] else [LineRef(p.inode, p.consumed, p.lines[0])])
  {
    hide Executable, Final, AfterFill, Io, WriteSteps;
    var p := AfterFill(s.pos, Io(s, r)).1;
    var filled := Next(s, Begin(r));
    var popped := Next(filled, Take);
    var rest := if due then WriteSteps(popped, io) else [SkipCheckpoint, Return];
    assert [Begin(r), Take] + rest == [Begin(r)] + ([Take] + rest);
    OneStep(s, Begin(r), [Take] + rest);
    OneStep(filled, Take, rest);
    if due {
      RunWrite(popped, io);
    } else {
      TwoSteps(popped, SkipCheckpoint, Return);
    }
  }

  /** Detaching, then attaching with a readable checkpoint file. */
  function Restart(s: State, io: WriteIO): seq<Step>
    requires s.phase == Idle
  {
    [BeginDetach] + WriteSteps(Next(s, BeginDetach), io) + [Attach(true)]
  }

  lemma {:induction false} RunRestart(s: State, io: WriteIO)
    requires s.phase == Idle
    ensures Executable(s, Restart(s, io))
    ensures Final(s, Restart(s, io)).pos == AtMark(Loaded(AfterWrite(s.disk, s.mark, s.pos, io)))
  {
    hide Executable, Final, WriteSteps;
    var s1 := Next(s, BeginDetach);
    var ws := WriteSteps(s1, io);
    RunWrite(s1, io);
    var down := Final(s1, ws);
    assert Restart(s, io) == [BeginDetach] + (ws + [Attach(true)]);
    OneStep(s, BeginDetach, ws + [Attach(true)]);
    RunsCompose(s1, ws, [Attach(true)]);
    assert [Attach(true)] == [Attach(true)] + [];
    OneStep(down, Attach(true), []);
    NoSteps(Next(down, Attach(true)));
  }

  lemma {:induction false} NoSteps(s: State)
    ensures Executable(s, []) && Final(s, []) == s
  {
  }

  lemma {:induction false} RunsCompose(s: State, a: seq<Step>, b: seq<Step>)
    requires Executable(s, a)
    ensures Executable(s, a + b) == Executable(Final(s, a), b)
    ensures Executable(Final(s, a), b) ==> Final(s, a + b) == Final(Final(s, a), b)
    decreases |a|
  {
    hide Enabled, Next;
    if a == [] {
      assert a + b == b;
    } else {
      assert (a + b)[1..] == a[1..] + b;
      RunsCompose(Next(s, a[0]), a[1..], b);
    }
  }

  /**
   Exactly when detach then attach resumes at the consumed position, in every
   state between calls: when something is written it must be the whole
   checkpoint; otherwise the file must already hold the position, as it does
   when the last checkpoint write did not fail and the position has not moved
   since.
   */
  lemma {:induction false} RestartResumes(s0: State, steps: seq<Step>, io: WriteIO)
    requires Init(s0) && Executable(s0, steps) && Final(s0, steps).phase == Idle
    ensures var s := Final(s0, steps);
            var moved := s.mark != MarkOf(s.pos);
            && Executable(s, Restart(s, io))
            && (Final(s, Restart(s, io)).pos == AtMark(MarkOf(s.pos)) <==>
                  if moved && io.canOpen then io.written == CHECKPOINT_SIZE else Loaded(s.disk) == MarkOf(s.pos))
            && (!s.stale ==>
                  (Final(s, Restart(s, io)).pos == AtMark(MarkOf(s.pos)) <==>
                     !moved || (io.canOpen && io.written == CHECKPOINT_SIZE)))
  {
    hide Executable, Final, Chain, Aligned, StartIn, Restart, Boundary;
    InitInv(s0);
    RunKeepsInv(s0, steps);
    RunRestart(Final(s0, steps), io);
  }

  /**
   After a failed write the mark is already set, so detaching reports success
   without writing, and the next start resumes from the old checkpoint.
   */
  lemma {:induction false} FailedWriteIsNotRetried(s: State, io: WriteIO)
    requires s.phase == Idle && s.mark == MarkOf(s.pos) && Loaded(s.disk) != s.mark
    ensures WriteSteps(Next(s, BeginDetach), io) == [SkipCheckpoint, Return]
    ensures Executable(s, Restart(s, io))
    ensures Final(s, Restart(s, io)).pos == AtMark(Loaded(s.disk)) != AtMark(MarkOf(s.pos))
  {
    hide Executable, Final;
    RunRestart(s, io);
  }

  /** Such a state is reached when the first checkpoint of a one-line log cannot be opened. */
  lemma {:induction false} FailedWriteHappens(s0: State)
    requires Init(s0) && s0.files == ["a\n"]
    ensures var r := Reads(true, true, true, 2);
            var steps := [Attach(true), Begin(r), Take] + [SetMark, OpenCheckpoint(false), Return];
            && Executable(s0, steps)
            && var s := Final(s0, steps);
               s.phase == Idle && s.mark == MarkOf(s.pos) == Mark(1, 2) && Loaded(s.disk) == Mark(0, 0)
  {
    hide Executable, Final, AfterFill, Io, WriteSteps;
    var r := Reads(true, true, true, 2);
    var s1 := Next(s0, Attach(true));
    OneLineFill(s1, r);
    var popped := Next(Next(s1, Begin(r)), Take);
    RunWrite(popped, WriteIO(false, 0));
    WriteStepsWithoutOpen(popped);
    var rest := [SetMark, OpenCheckpoint(false), Return];
    assert [Attach(true), Begin(r), Take] + rest == [Attach(true)] + ([Begin(r)] + ([Take] + rest));
    OneStep(s0, Attach(true), [Begin(r)] + ([Take] + rest));
    OneStep(s1, Begin(r), [Take] + rest);
    OneStep(Next(s1, Begin(r)), Take, rest);
  }

  lemma {:induction false} WriteStepsWithoutOpen(s: State)
    requires s.mark != MarkOf(s.pos)
    ensures WriteSteps(s, WriteIO(false, 0)) == [SetMark, OpenCheckpoint(false), Return]
  {
  }

  lemma {:induction false} OneLineFill(s: State, r: Reads)
    requires s.files == ["a\n"] && s.inode == 1 && s.pos == AtMark(Mark(0, 0)) && r == Reads(true, true, true, 2)
    ensures AfterFill(s.pos, Io(s, r)) == (true, Position(1, 2, 0, ["a\n"]))
  {
    var ls := ["a\n"];
    assert ls[1..] == [] && Concat([]) == "" && Concat(ls) == "a\n" + "";
    assert Concat(ls) + "" == "a\n";
    LinesUnique(ls, "");
    var q := Position(1, 0, 0, []);
    assert "a\n"[0..2] == "a\n";
    assert FirstLines(q, "a\n") == ls[..1] == ls;
    assert q.lines + ls == ls;
  }
}
