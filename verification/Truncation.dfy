/**
 The log as the tailer really meets it: a new generation may come under any
 inode, as when the file is truncated in place, or replaced by one that was
 given an inode used before.  A run over such a log is followed by a run of
 `CheckpointRecovery`, in which generations are numbered, as long as every
 such file is noticed as new, or nothing was read before it.
 */
module Truncation {
  import opened Lines
  import opened Tailer
  import opened CheckpointRecovery

  /** A step of the process or an append; or a new generation of the log, under the same inode or another. */
  datatype Event = Usual(step: Step) | Replace(inode: nat, content: string)

  /** In `s` positions, marks and lines hold inodes; `inodes[i]` is the inode of generation `i + 1`. */
  datatype World = World(s: State, inodes: seq<nat>)

  predicate Possible(w: World, e: Event) {
    match e
    case Usual(step) => !step.Rotate? && Enabled(w.s, step)
    case Replace(inode, _) => inode > 0
  }

  function After(w: World, e: Event): World
    requires Possible(w, e)
  {
    match e
    case Usual(step) => w.(s := Next(w.s, step))
    case Replace(inode, content) =>
      World(w.s.(files := w.s.files + [content], inode := inode), w.inodes + [inode])
  }

  /** The state with the inode replaced by the number of the current generation. */
  function Numbered(w: World): State {
    w.s.(inode := |w.s.files|)
  }

  predicate InodesOk(w: World) {
    && |w.inodes| == |w.s.files| > 0 && w.s.inode == w.inodes[|w.inodes| - 1]
    && forall i :: 0 <= i < |w.inodes| ==> w.inodes[i] > 0
  }

  predicate Start(w: World) {
    InodesOk(w) && Init(Numbered(w))
  }

  // ---------------------------------------------------------------- generations and inodes

  function InodeOf(inodes: seq<nat>, generation: nat): nat {
    if 0 < generation <= |inodes| then inodes[generation - 1] else 0
  }

  function RealMark(inodes: seq<nat>, m: Mark): Mark {
    Mark(InodeOf(inodes, m.inode), m.offset)
  }

  function RealPosition(inodes: seq<nat>, p: Position): Position {
    p.(inode := InodeOf(inodes, p.inode))
  }

  function RealDisk(inodes: seq<nat>, c: Checkpoint): Checkpoint {
    if c.Stored? then Stored(InodeOf(inodes, c.inode), c.offset) else c
  }

  function RealLines(inodes: seq<nat>, rs: seq<LineRef>): (ls: seq<LineRef>)
    ensures |ls| == |rs|
  {
    seq(|rs|, i requires 0 <= i < |rs| => LineRef(InodeOf(inodes, rs[i].inode), rs[i].start, rs[i].text))
  }

  /**
   `n` says which generation the position, the marks, the checkpoint file and
   the lines of `w` belong to.
   */
  ghost predicate Describes(w: World, n: State) {
    && InodesOk(w) && Inv(n) && SameProcess(w, n)
  }

  predicate SameProcess(w: World, n: State) {
    && n.files == w.s.files && n.phase == w.s.phase && n.crashes == w.s.crashes
    && w.s.disk == RealDisk(w.inodes, n.disk)
    && w.s.hand == RealLines(w.inodes, n.hand)
    && w.s.returned == RealLines(w.inodes, n.returned)
    && (n.phase != Down ==>
          && n.detaching == w.s.detaching
          && w.s.pos == RealPosition(w.inodes, n.pos)
          && w.s.mark == RealMark(w.inodes, n.mark))
  }

  /**
   When the current file is read and has the inode of the position without
   being its generation, it must be shorter than the offset, or nothing was
   read of the generation before.
   */
  predicate Recognised(w: World, n: State, e: Event) {
    e.Usual? && (e.step.Has? || e.step.Begin?) && e.step.io.canStat && w.s.files != [] ==>
      Clear(w, n)
  }

  predicate Clear(w: World, n: State)
    requires w.s.files != []
  {
    n.pos.lines == [] && n.pos.inode != |n.files| && w.s.pos.inode == w.s.inode ==>
      |w.s.files[|w.s.files| - 1]| < w.s.pos.offset || w.s.pos.offset == 0
  }

  /**
   The steps of the numbered run.  When the marks agree as inode and offset
   but mean different generations, the skipped write has the effect of one.
   */
  function Shadow(w: World, n: State, e: Event): seq<Step> {
    match e
    case Replace(_, content) => [Rotate(content)]
    case Usual(step) =>
      if step.SkipCheckpoint? && w.s.mark == MarkOf(w.s.pos) && n.mark != MarkOf(n.pos) then
        if Loaded(w.s.disk) == w.s.mark then [SetMark, OpenCheckpoint(true), WriteBytes(CHECKPOINT_SIZE)]
        else [SetMark, OpenCheckpoint(false)]
      else [step]
  }

  function Follow(w: World, n: State, e: Event): State {
    if Executable(n, Shadow(w, n, e)) then Final(n, Shadow(w, n, e)) else n
  }

  // ---------------------------------------------------------------- one event

  lemma {:induction false} SingleStep(n: State, step: Step)
    requires Enabled(n, step)
    ensures Executable(n, [step]) && Final(n, [step]) == Next(n, step)
  {
    assert [step] == [step] + [];
    OneStep(n, step, []);
  }

  /** The generations in a described state are among those there are. */
  lemma {:induction false} KnownGenerations(n: State)
    requires Inv(n)
    ensures Loaded(n.disk).inode <= |n.files|
    ensures n.phase != Down ==> n.pos.inode <= |n.files| && n.mark.inode <= |n.files|
    ensures forall r :: r in n.returned + n.hand ==> 1 <= r.inode <= |n.files|
  {
    hide Aligned, Boundary, Chain, IsLine, CoveredTo;
    forall r | r in n.returned + n.hand ensures 1 <= r.inode <= |n.files| {
      assert r in Known(n);
    }
  }

  lemma {:induction false} MoreInodesLines(inodes: seq<nat>, inode: nat, rs: seq<LineRef>)
    requires forall r :: r in rs ==> r.inode <= |inodes|
    ensures RealLines(inodes + [inode], rs) == RealLines(inodes, rs)
  {
  }

  lemma {:induction false} InodesStay(w: World, e: Event)
    requires InodesOk(w) && Possible(w, e)
    ensures InodesOk(After(w, e))
  {
    hide Next;
    if e.Usual? {
      SameInode(w.s, e.step);
    }
  }

  lemma {:induction false} SameInode(s: State, step: Step)
    requires Enabled(s, step) && !step.Rotate?
    ensures Next(s, step).inode == s.inode && |Next(s, step).files| == |s.files|
  {
    hide AfterFill, AfterTake, Io, Past, Loaded, Written;
  }

  lemma {:induction false} ReplaceFollowed(w: World, n: State, inode: nat, content: string)
    requires Describes(w, n) && inode > 0
    ensures SameProcess(After(w, Replace(inode, content)), Next(n, Rotate(content)))
  {
    hide Inv, RealLines;
    KnownGenerations(n);
    MoreInodesLines(w.inodes, inode, n.returned);
    MoreInodesLines(w.inodes, inode, n.hand);
  }

  /** What is read depends on the place where reading starts, not on the inode. */
  lemma {:induction false} ReadsAlike(p: Position, q: Position, io: FileIO, jo: FileIO)
    requires io.stat.Some? && jo.stat.Some? && jo == io.(stat := jo.stat)
    requires jo.stat.value.content == io.stat.value.content
    requires Rebased(p, io.stat.value) == Rebased(q, jo.stat.value).(inode := io.stat.value.inode)
    ensures
      var (ok, p'), (ok', q') := AfterReadLines(p, io), AfterReadLines(q, jo);
      ok == ok' && p' == q'.(inode := io.stat.value.inode) && q'.inode == jo.stat.value.inode
  {
  }

  lemma {:induction false} FillFollowed(w: World, n: State, r: Reads)
    requires Describes(w, n) && n.phase == Idle
    requires r.canStat ==> Clear(w, n)
    ensures AfterFill(w.s.pos, Io(w.s, r)).0 == AfterFill(n.pos, Io(n, r)).0
    ensures AfterFill(w.s.pos, Io(w.s, r)).1 == RealPosition(w.inodes, AfterFill(n.pos, Io(n, r)).1)
  {
    hide Inv, AfterReadLines;
    KnownGenerations(n);
    LastNumber(n);
    if n.pos.lines == [] {
      NothingBuffered(n);
      var io, jo := Io(w.s, r), Io(n, r);
      if r.canStat {
        ReadsAlike(w.s.pos, n.pos, io, jo);
      } else {
        FailedStat(w.s.pos, io);
        FailedStat(n.pos, jo);
      }
    }
  }

  lemma {:induction false} FailedStat(p: Position, io: FileIO)
    requires io.stat.None?
    ensures AfterReadLines(p, io) == (false, p)
  {
  }

  lemma {:induction false} FillEventFollowed(w: World, n: State, step: Step)
    requires Describes(w, n) && (step.Has? || step.Begin?) && Enabled(w.s, step)
    requires Recognised(w, n, Usual(step))
    ensures Enabled(n, step)
    ensures SameProcess(After(w, Usual(step)), Next(n, step))
  {
    hide Inv, AfterFill, Io, Clear, RealLines;
    FillFollowed(w, n, step.io);
  }

  lemma {:induction false} RealLinesAppend(inodes: seq<nat>, a: seq<LineRef>, b: seq<LineRef>)
    ensures RealLines(inodes, a + b) == RealLines(inodes, a) + RealLines(inodes, b)
  {
  }

  lemma {:induction false} TakeFollowed(w: World, n: State)
    requires Describes(w, n) && Enabled(w.s, Take)
    ensures Enabled(n, Take)
    ensures SameProcess(After(w, Usual(Take)), Next(n, Take))
  {
    hide Inv, InodesOk;
  }

  lemma {:induction false} ReturnFollowed(w: World, n: State)
    requires Describes(w, n) && Enabled(w.s, Return)
    ensures Enabled(n, Return)
    ensures SameProcess(After(w, Usual(Return)), Next(n, Return))
  {
    hide Inv, RealLines, RealPosition, RealMark, RealDisk, InodesOk;
    RealLinesAppend(w.inodes, n.returned, n.hand);
    assert RealLines(w.inodes, []) == [];
  }

  lemma {:induction false} CrashFollowed(w: World, n: State)
    requires Describes(w, n) && Enabled(w.s, Crash)
    ensures Enabled(n, Crash)
    ensures SameProcess(After(w, Usual(Crash)), Next(n, Crash))
  {
    hide Inv, RealLines, RealPosition, RealMark, RealDisk, Past, InodesOk;
    assert RealLines(w.inodes, []) == [];
  }

  lemma {:induction false} AppendFollowed(w: World, n: State, more: string)
    requires Describes(w, n)
    ensures Enabled(n, Append(more))
    ensures SameProcess(After(w, Usual(Append(more))), Next(n, Append(more)))
  {
    hide Inv, RealLines, RealPosition, RealMark, RealDisk;
  }

  lemma {:induction false} SetMarkFollowed(w: World, n: State)
    requires Describes(w, n) && Enabled(w.s, SetMark)
    ensures Enabled(n, SetMark)
    ensures SameProcess(After(w, Usual(SetMark)), Next(n, SetMark))
  {
    hide Inv, RealLines, RealDisk, InodesOk;
  }

  lemma {:induction false} AttachFollowed(w: World, n: State, canRead: bool)
    requires Describes(w, n) && Enabled(w.s, Attach(canRead))
    ensures Enabled(n, Attach(canRead))
    ensures SameProcess(After(w, Usual(Attach(canRead))), Next(n, Attach(canRead)))
  {
    hide Inv, RealLines, InodesOk;
  }

  lemma {:induction false} OpenFollowed(w: World, n: State, canOpen: bool)
    requires Describes(w, n) && Enabled(w.s, OpenCheckpoint(canOpen))
    ensures Enabled(n, OpenCheckpoint(canOpen))
    ensures SameProcess(After(w, Usual(OpenCheckpoint(canOpen))), Next(n, OpenCheckpoint(canOpen)))
  {
    hide Inv, RealLines, RealPosition, RealMark, InodesOk;
  }

  lemma {:induction false} WriteFollowed(w: World, n: State, written: int)
    requires Describes(w, n) && Enabled(w.s, WriteBytes(written))
    ensures Enabled(n, WriteBytes(written))
    ensures SameProcess(After(w, Usual(WriteBytes(written))), Next(n, WriteBytes(written)))
  {
    hide Inv, RealLines, RealPosition, InodesOk;
  }

  lemma {:induction false} DetachFollowed(w: World, n: State)
    requires Describes(w, n) && Enabled(w.s, BeginDetach)
    ensures Enabled(n, BeginDetach)
    ensures SameProcess(After(w, Usual(BeginDetach)), Next(n, BeginDetach))
  {
    hide Inv, RealLines, RealPosition, RealMark, RealDisk, InodesOk;
  }

  lemma {:induction false} OnlyNoInode(w: World, generation: nat)
    requires InodesOk(w) && generation <= |w.inodes|
    ensures InodeOf(w.inodes, generation) == 0 <==> generation == 0
  {
  }

  /** Marks that agree as inode and offset, but not as generations, are marks of a file. */
  lemma {:induction false} AgreeingMarks(w: World, n: State)
    requires Describes(w, n) && n.phase != Down
    requires w.s.mark == MarkOf(w.s.pos) && n.mark != MarkOf(n.pos)
    ensures Loaded(w.s.disk) == w.s.mark ==> w.s.disk.Stored?
  {
    hide Aligned, Boundary, RefsOk, Covered, HandOk, InOrder;
    KnownGenerations(n);
    OnlyNoInode(w, n.mark.inode);
    OnlyNoInode(w, n.pos.inode);
  }

  lemma {:induction false} SkipFollowed(w: World, n: State)
    requires Describes(w, n) && Enabled(w.s, SkipCheckpoint)
    ensures var e := Usual(SkipCheckpoint);
            Executable(n, Shadow(w, n, e)) && SameProcess(After(w, e), Final(n, Shadow(w, n, e)))
  {
    hide Inv, Executable, Final, RealLines, InodesOk, SameProcess, Next;
    if w.s.mark == MarkOf(w.s.pos) && n.mark != MarkOf(n.pos) {
      InPhase(w, n);
      if Loaded(w.s.disk) == w.s.mark {
        WriteInstead(n);
        SkippedAsWritten(w, n);
      } else {
        SkippedAsFailed(w, n);
        TwoSteps(n, SetMark, OpenCheckpoint(false));
      }
    } else {
      SkippedAlike(w, n);
      SingleStep(n, SkipCheckpoint);
    }
  }

  lemma {:induction false} InPhase(w: World, n: State)
    requires Describes(w, n) && Enabled(w.s, SkipCheckpoint)
    ensures n.phase == Popped
  {
    hide Inv, RealLines, RealPosition, RealMark, RealDisk, InodesOk;
  }

  lemma {:induction false} SkippedAlike(w: World, n: State)
    requires Describes(w, n) && Enabled(w.s, SkipCheckpoint)
    requires w.s.mark != MarkOf(w.s.pos) || n.mark == MarkOf(n.pos)
    ensures Enabled(n, SkipCheckpoint)
    ensures SameProcess(After(w, Usual(SkipCheckpoint)), Next(n, SkipCheckpoint))
  {
    hide Inv, RealLines, RealDisk, InodesOk;
  }

  lemma {:induction false} SkippedAsFailed(w: World, n: State)
    requires Describes(w, n) && Enabled(w.s, SkipCheckpoint) && w.s.mark == MarkOf(w.s.pos)
    requires n.mark != MarkOf(n.pos)
    ensures Enabled(n, SetMark) && Enabled(Next(n, SetMark), OpenCheckpoint(false))
    ensures SameProcess(After(w, Usual(SkipCheckpoint)), Next(Next(n, SetMark), OpenCheckpoint(false)))
  {
    hide Inv, RealLines, RealDisk, InodesOk;
  }

  lemma {:induction false} SkippedAsWritten(w: World, n: State)
    requires Describes(w, n) && Enabled(w.s, SkipCheckpoint) && w.s.mark == MarkOf(w.s.pos) == Loaded(w.s.disk)
    requires n.mark != MarkOf(n.pos)
    ensures SameProcess(After(w, Usual(SkipCheckpoint)), WrittenInstead(n))
  {
    hide Inv, RealLines, InodesOk;
    AgreeingMarks(w, n);
  }

  function WrittenInstead(n: State): State {
    n.(phase := Finishing, mark := MarkOf(n.pos), disk := Stored(n.pos.inode, n.pos.consumed), stale := false)
  }

  lemma {:induction false} WriteInstead(n: State)
    requires n.phase == Popped && n.mark != MarkOf(n.pos)
    ensures var steps := [SetMark, OpenCheckpoint(true), WriteBytes(CHECKPOINT_SIZE)];
            Executable(n, steps) && Final(n, steps) == WrittenInstead(n)
  {
    hide Executable, Final;
    var n1 := Next(n, SetMark);
    TwoSteps(n1, OpenCheckpoint(true), WriteBytes(CHECKPOINT_SIZE));
    OneStep(n, SetMark, [OpenCheckpoint(true), WriteBytes(CHECKPOINT_SIZE)]);
    assert [SetMark] + [OpenCheckpoint(true), WriteBytes(CHECKPOINT_SIZE)]
        == [SetMark, OpenCheckpoint(true), WriteBytes(CHECKPOINT_SIZE)];
  }

  lemma {:induction false} EventFollowed(w: World, n: State, e: Event)
    requires Describes(w, n) && Possible(w, e) && Recognised(w, n, e)
    ensures Executable(n, Shadow(w, n, e))
    ensures Describes(After(w, e), Follow(w, n, e))
  {
    hide Inv, SameProcess, Recognised, InodesOk, Executable, Final, After;
    InodesStay(w, e);
    match e {
      case Replace(inode, content) =>
        ReplaceFollowed(w, n, inode, content);
        NotEmpty(n);
        SingleStep(n, Rotate(content));
      case Usual(SkipCheckpoint) => SkipFollowed(w, n);
      case Usual(step) =>
        StepFollowed(w, n, step);
        SingleStep(n, step);
    }
    RunKeepsInv(n, Shadow(w, n, e));
  }

  lemma {:induction false} StepFollowed(w: World, n: State, step: Step)
    requires Describes(w, n) && Possible(w, Usual(step)) && Recognised(w, n, Usual(step))
    requires !step.SkipCheckpoint?
    ensures Enabled(n, step)
    ensures SameProcess(After(w, Usual(step)), Next(n, step))
  {
    hide Inv, SameProcess, Recognised, InodesOk, After, Next;
    match step
    case Append(more) => AppendFollowed(w, n, more);
    case Has(_) => FillEventFollowed(w, n, step);
    case Begin(_) => FillEventFollowed(w, n, step);
    case Take => TakeFollowed(w, n);
    case Return => ReturnFollowed(w, n);
    case Crash => CrashFollowed(w, n);
    case SetMark => SetMarkFollowed(w, n);
    case Attach(canRead) => AttachFollowed(w, n, canRead);
    case OpenCheckpoint(canOpen) => OpenFollowed(w, n, canOpen);
    case WriteBytes(written) => WriteFollowed(w, n, written);
    case BeginDetach => DetachFollowed(w, n);
  }

  lemma {:induction false} NotEmpty(n: State)
    requires Inv(n)
    ensures n.files != []
  {
  }

  // ---------------------------------------------------------------- runs

  predicate Runs(w: World, es: seq<Event>)
    decreases |es|
  {
    es != [] ==> Possible(w, es[0]) && Runs(After(w, es[0]), es[1..])
  }

  function Ends(w: World, es: seq<Event>): World
    requires Runs(w, es)
    decreases |es|
  {
    if es == [] then w else Ends(After(w, es[0]), es[1..])
  }

  /** The numbered run beside a run. */
  function Followed(w: World, n: State, es: seq<Event>): State
    requires Runs(w, es)
    decreases |es|
  {
    if es == [] then n else Followed(After(w, es[0]), Follow(w, n, es[0]), es[1..])
  }

  /** Every file that replaces one of the same inode is first read at a size below the offset, or at offset zero. */
  predicate AllRecognised(w: World, n: State, es: seq<Event>)
    requires Runs(w, es)
    decreases |es|
  {
    es != [] ==> Recognised(w, n, es[0]) && AllRecognised(After(w, es[0]), Follow(w, n, es[0]), es[1..])
  }

  lemma {:induction false} StartDescribed(w: World)
    requires Start(w)
    ensures Describes(w, Numbered(w))
  {
    hide Inv;
    InitInv(Numbered(w));
    assert RealLines(w.inodes, []) == [];
  }

  lemma {:induction false} RunFollowed(w: World, n: State, es: seq<Event>)
    requires Describes(w, n) && Runs(w, es) && AllRecognised(w, n, es)
    ensures Describes(Ends(w, es), Followed(w, n, es))
    decreases |es|
  {
    hide Describes, Possible, After, Recognised, Follow;
    if es != [] {
      EventFollowed(w, n, es[0]);
      RunFollowed(After(w, es[0]), Follow(w, n, es[0]), es[1..]);
    }
  }

  /**
   Safety over every run in which truncated and replaced files are noticed:
   the position and the checkpoint on disk belong to one generation each, at
   line boundaries of it; every line of that generation before the checkpoint
   was returned, is in hand, or was lost in a crash, at most one for each; and
   what the process returned are those lines under their inodes.
   */
  lemma {:induction false} OneGeneration(w0: World, es: seq<Event>, p: nat)
    requires Start(w0) && Runs(w0, es) && AllRecognised(w0, Numbered(w0), es)
    ensures
      var w, n := Ends(w0, es), Followed(w0, Numbered(w0), es);
      var disk := Loaded(n.disk);
      && n.files == w.s.files
      && (w.s.phase != Down ==>
            PositionOk(w.s.files, n.pos) && w.s.pos == RealPosition(w.inodes, n.pos))
      && IsMark(w.s.files, disk) && w.s.disk == RealDisk(w.inodes, n.disk)
      && (w.s.phase != Down && !n.misread ==> AtOrBefore(disk, MarkOf(n.pos)))
      && (disk.inode > 0 && p < disk.offset && Boundary(w.s.files[disk.inode - 1], p) ==>
            StartIn(n.returned + n.lost + n.hand, disk.inode, p))
      && |n.lost| <= w.s.crashes
      && w.s.returned == RealLines(w.inodes, n.returned)
      && forall r :: r in n.returned ==> IsLineOf(w.s.files, r)
  {
    hide StartIn, Boundary, Chain, Aligned, IsLineOf, Follow, Runs, AllRecognised;
    StartDescribed(w0);
    RunFollowed(w0, Numbered(w0), es);
    var n := Followed(w0, Numbered(w0), es);
    assert forall r :: r in n.returned ==> r in Known(n);
  }

  // ---------------------------------------------------------------- clean runs

  predicate CleanEvent(e: Event) {
    e.Usual? ==> CleanStep(e.step)
  }

  lemma {:induction false} CleanFollowed(w: World, n: State, e: Event)
    requires Describes(w, n) && Possible(w, e) && Recognised(w, n, e)
    requires n.clean && CleanEvent(e)
    ensures Follow(w, n, e).clean
  {
    hide Possible, Recognised, After, SameProcess, Inv;
    var steps := Shadow(w, n, e);
    EventFollowed(w, n, e);
    CleanIffCleanSteps(n, steps);
    if e == Usual(SkipCheckpoint) {
      SkippedClean(w, n);
    }
  }

  /** Without failures the checkpoint file holds what the marks say. */
  lemma {:induction false} SkippedClean(w: World, n: State)
    requires Describes(w, n) && n.clean && Possible(w, Usual(SkipCheckpoint))
    ensures Loaded(w.s.disk) == w.s.mark
  {
    hide PositionOk, RefsOk, Covered, HandOk, Chain, RealLines;
    KnownGenerations(n);
  }

  lemma {:induction false} CleanRunFollowed(w: World, n: State, es: seq<Event>)
    requires Describes(w, n) && Runs(w, es) && AllRecognised(w, n, es)
    requires n.clean && forall i :: 0 <= i < |es| ==> CleanEvent(es[i])
    ensures Followed(w, n, es).clean
    decreases |es|
  {
    hide Describes, Possible, After, Recognised, Follow, CleanEvent;
    if es != [] {
      EventFollowed(w, n, es[0]);
      CleanFollowed(w, n, es[0]);
      assert forall i :: 0 <= i < |es| - 1 ==> es[1..][i] == es[i + 1];
      CleanRunFollowed(After(w, es[0]), Follow(w, n, es[0]), es[1..]);
    }
  }

  /**
   Exactly once, with truncation: without crashes and checkpoint failures the
   returned lines of each generation concatenate to its bytes up to the
   consumed position, or to a prefix of it once a newer one was begun.
   */
  lemma {:induction false} EachGenerationOnce(w0: World, es: seq<Event>, generation: nat)
    requires Start(w0) && Runs(w0, es) && AllRecognised(w0, Numbered(w0), es)
    requires forall i :: 0 <= i < |es| ==> CleanEvent(es[i])
    requires 1 <= generation <= |Ends(w0, es).s.files|
    ensures
      var w, n := Ends(w0, es), Followed(w0, Numbered(w0), es);
      var at := if w.s.phase == Down then Loaded(n.disk) else MarkOf(n.pos);
      && n.files == w.s.files && IsMark(w.s.files, at)
      && w.s.returned == RealLines(w.inodes, n.returned) && w.s.hand == RealLines(w.inodes, n.hand)
      && (w.s.phase != Down ==> w.s.pos == RealPosition(w.inodes, n.pos))
      && (generation == at.inode ==>
            TextOf(n.returned + n.hand, generation) == w.s.files[generation - 1][..at.offset])
      && (generation > at.inode ==> TextOf(n.returned + n.hand, generation) == "")
      && TextOf(n.returned + n.hand, generation) <= w.s.files[generation - 1]
  {
    hide Boundary, Aligned, IsLineOf, TextOf, CoveredTo, Chain, Follow, Runs, AllRecognised, CleanEvent;
    StartDescribed(w0);
    RunFollowed(w0, Numbered(w0), es);
    CleanRunFollowed(w0, Numbered(w0), es);
    CleanText(Followed(w0, Numbered(w0), es), generation);
  }

  // ---------------------------------------------------------------- a file that is not noticed

  /**
   What happens otherwise, at any point of a run so far noticed: the file is
   read at an offset above zero; the position is sound in it exactly when it
   has a line boundary there, and all its lines are handed out exactly when it
   has no complete line.
   */
  lemma {:induction false} NotRecognised(w0: World, es: seq<Event>, r: Reads)
    requires Start(w0) && Runs(w0, es) && AllRecognised(w0, Numbered(w0), es)
    requires var w := Ends(w0, es); w.s.phase == Idle && w.s.files != []
    requires !Recognised(Ends(w0, es), Followed(w0, Numbered(w0), es), Usual(Begin(r)))
    ensures
      var w := Ends(w0, es);
      var io, content, offset := Io(w.s, r), w.s.files[|w.s.files| - 1], w.s.pos.offset;
      && 0 < offset <= |content|
      && (Aligned(AfterFill(w.s.pos, io).1, content) <==> Boundary(content, offset))
      && (Stable(io) ==>
            (Pending(w.s.pos, io) == CompleteLines(content) <==> NoNewline(content)))
  {
    hide Boundary, Chain, Follow, Runs, AllRecognised, AfterReadLines, CompleteLines, IsLine, FirstLines;
    StartDescribed(w0);
    RunFollowed(w0, Numbered(w0), es);
    var w, n := Ends(w0, es), Followed(w0, Numbered(w0), es);
    NothingBuffered(n);
    SoundExactly(w.s.pos, Io(w.s, r));
    if Stable(Io(w.s, r)) {
      AllPendingExactly(w.s.pos, Io(w.s, r));
    }
  }

  lemma {:induction false} NothingBuffered(n: State)
    requires Inv(n) && n.phase != Down && n.pos.lines == []
    ensures n.pos.consumed == n.pos.offset
  {
    hide Boundary, Chain, RefsOk, Covered, HandOk;
    assert Concat([]) == "";
  }
}
