/**
 A PTY-backed terminal session on the agent, step by step: the reader task, the `close`
 request and the writer interleave at every await.  `Session` is the session's value,
 with the frames it put on the wire and the system calls it made as history;
 `TerminalSession` is the object whose methods make those transitions.
 */
module Terminal {

  datatype Frame = Output | Closed

  /** Where the reader task stands: not created, at the loop test, in the executor, in a send, or past the loop. */
  datatype Reader = Unstarted | AtTest | Reading | Sending | Leaving | Finished

  /**
   `hasFd` is `master_fd is not None`; `cleaning` says that a `_cleanup` has done its
   synchronous part and not yet sent `terminal_closed`.  The rest is history: whether the
   operating system still has the descriptor open, the frames sent, the `os.close` and
   `os.kill` calls made, what was written to the shell, and the writes made to a closed
   descriptor.
   */
  datatype Session = Session(
    closed: bool,
    hasFd: bool,
    cleaning: bool,
    reader: Reader,
    fdOpen: bool,
    wire: seq<Frame>,
    fdCloses: nat,
    signals: nat,
    written: seq<string>,
    strayWrites: nat)

  const STARTED := Session(false, true, false, AtTest, true, [], 0, 0, [], 0)

  /** What `start` leaves behind when it raises between the fork and the creation of the reader task. */
  const FORKED := STARTED.(reader := Unstarted)

  datatype Step =
    | TestLoop
    | ReadReturns(data: bool)
    | OutputSent(delivered: bool, failed: bool)
    | ReaderLeaves
    | CloseCalled
    | CleanupResumes(delivered: bool)
    | Write(input: string)

  /** `_cleanup` up to its first await. */
  function BeginCleanup(s: Session): Session {
    if s.closed then s
    else
      s.(closed := true, hasFd := false, cleaning := true, signals := s.signals + 1,
         fdOpen := s.fdOpen && !s.hasFd, fdCloses := if s.hasFd then s.fdCloses + 1 else s.fdCloses)
  }

  /** A step that is not the next one of its task leaves the session alone. */
  function Next(s: Session, step: Step): Session {
    match step
    case TestLoop =>
      if s.reader.AtTest? then s.(reader := if !s.closed && s.hasFd then Reading else Leaving) else s
    case ReadReturns(data) =>
      if s.reader.Reading? then s.(reader := if data then Sending else Leaving) else s
    case OutputSent(delivered, failed) =>
      if s.reader.Sending? then
        s.(wire := if delivered then s.wire + [Output] else s.wire, reader := if failed then Leaving else AtTest)
      else s
    case ReaderLeaves =>
      if s.reader.Leaving? then BeginCleanup(s).(reader := Finished) else s
    case CloseCalled => BeginCleanup(s)
    case CleanupResumes(delivered) =>
      if s.cleaning then s.(cleaning := false, wire := if delivered then s.wire + [Closed] else s.wire) else s
    case Write(input) =>
      if s.hasFd && !s.closed then
        s.(written := s.written + [input], strayWrites := if s.fdOpen then s.strayWrites else s.strayWrites + 1)
      else s
  }

  function Exec(s: Session, steps: seq<Step>): Session
    decreases |steps|
  {
    if steps == [] then s else Exec(Next(s, steps[0]), steps[1..])
  }

  function Count(frames: seq<Frame>, frame: Frame): nat {
    if frames == [] then 0 else Count(frames[..|frames| - 1], frame) + if frames[|frames| - 1] == frame then 1 else 0
  }

  /** How many outputs follow the first `terminal_closed`. */
  function OutputsAfterClosed(frames: seq<Frame>): nat {
    if frames == [] then 0
    else
      var init := frames[..|frames| - 1];
      OutputsAfterClosed(init) + if Closed in init && frames[|frames| - 1].Output? then 1 else 0
  }

  /** The reader has a chunk it may yet put on the wire. */
  predicate ChunkUnderway(s: Session) {
    s.reader.Reading? || s.reader.Sending?
  }

  /** The frames so far are right, and stay so with `more` outputs added. */
  ghost predicate WireOk(wire: seq<Frame>, more: nat) {
    && Count(wire, Closed) <= 1
    && (Closed !in wire ==> Count(wire, Closed) == 0 && OutputsAfterClosed(wire) == 0)
    && (Closed in wire ==> OutputsAfterClosed(wire) + more <= 1)
  }

  ghost predicate Inv(s: Session) {
    && s.fdOpen == s.hasFd == !s.closed
    && s.fdCloses == s.signals == (if s.closed then 1 else 0)
    && s.strayWrites == 0
    && (s.cleaning ==> s.closed)
    && (!s.closed || s.cleaning ==> Closed !in s.wire)
    && WireOk(s.wire, if ChunkUnderway(s) then 1 else 0)
    && (s.reader.Finished? ==> s.closed)
  }

  lemma Appended(frames: seq<Frame>, frame: Frame)
    ensures Count(frames + [frame], Closed) == Count(frames, Closed) + if frame.Closed? then 1 else 0
    ensures OutputsAfterClosed(frames + [frame])
            == OutputsAfterClosed(frames) + if Closed in frames && frame.Output? then 1 else 0
  {
    assert (frames + [frame])[..|frames|] == frames;
  }

  lemma MoreIsStronger(wire: seq<Frame>)
    ensures WireOk(wire, 1) ==> WireOk(wire, 0)
    ensures WireOk(wire, 0) && Closed !in wire ==> WireOk(wire, 1)
  {
  }

  lemma OutputAdded(wire: seq<Frame>)
    requires WireOk(wire, 1)
    ensures WireOk(wire + [Output], 0) && (Closed !in wire ==> Closed !in wire + [Output])
  {
    Appended(wire, Output);
  }

  lemma ClosedAdded(wire: seq<Frame>)
    requires WireOk(wire, 0) && Closed !in wire
    ensures WireOk(wire + [Closed], 1)
  {
    Appended(wire, Closed);
  }

  lemma InvReader(s: Session, step: Step)
    requires Inv(s) && (step.TestLoop? || step.ReadReturns? || step.Write?)
    ensures Inv(Next(s, step))
  {
    MoreIsStronger(s.wire);
  }

  lemma InvSent(s: Session, delivered: bool, failed: bool)
    requires Inv(s)
    ensures Inv(Next(s, OutputSent(delivered, failed)))
  {
    if s.reader.Sending? {
      MoreIsStronger(s.wire);
      OutputAdded(s.wire);
    }
  }

  lemma InvClosing(s: Session, step: Step)
    requires Inv(s) && (step.ReaderLeaves? || step.CloseCalled?)
    ensures Inv(Next(s, step))
  {
  }

  lemma InvClosed(s: Session, delivered: bool)
    requires Inv(s)
    ensures Inv(Next(s, CleanupResumes(delivered)))
  {
    if s.cleaning {
      MoreIsStronger(s.wire);
      ClosedAdded(s.wire);
      MoreIsStronger(s.wire + [Closed]);
    }
  }

  lemma InvStep(s: Session, step: Step)
    requires Inv(s)
    ensures Inv(Next(s, step))
  {
    match step
    case OutputSent(delivered, failed) => InvSent(s, delivered, failed);
    case CleanupResumes(delivered) => InvClosed(s, delivered);
    case ReaderLeaves => InvClosing(s, step);
    case CloseCalled => InvClosing(s, step);
    case _ => InvReader(s, step);
  }

  lemma {:induction false} InvRun(s: Session, steps: seq<Step>)
    requires Inv(s)
    ensures Inv(Exec(s, steps))
    decreases |steps|
  {
    if steps != [] {
      InvStep(s, steps[0]);
      InvRun(Next(s, steps[0]), steps[1..]);
    }
  }

  /**
   Under every interleaving of reads, writes and closes: the descriptor is closed and the
   shell signalled at most once, nothing is written to a closed descriptor, at most one
   `terminal_closed` goes out, and at most one `terminal_output` comes after it.
   */
  lemma LifecycleHolds(steps: seq<Step>)
    ensures var end := Exec(STARTED, steps);
            && end.fdCloses <= 1 && end.signals <= 1 && end.strayWrites == 0
            && Count(end.wire, Closed) <= 1
            && OutputsAfterClosed(end.wire) <= 1
            && (end.closed <==> end.fdCloses == 1 && end.signals == 1)
            && (end.reader.Finished? ==> end.closed)
  {
    InvRun(STARTED, steps);
  }

  /**
   The reader leaves its loop exactly at end of file, at a send that fails, or at a test that
   finds the session closed; until then it goes on.
   */
  lemma ReaderLeavesIff(s: Session, step: Step)
    requires Inv(s) && !s.reader.Leaving?
    ensures Next(s, step).reader.Leaving?
            <==> (s.reader.AtTest? && step.TestLoop? && s.closed)
                 || (s.reader.Reading? && step.ReadReturns? && !step.data)
                 || (s.reader.Sending? && step.OutputSent? && step.failed)
    ensures s.reader.AtTest? && step.TestLoop? && !s.closed ==> Next(s, step).reader.Reading?
    ensures s.reader.Reading? && step.ReadReturns? && step.data ==> Next(s, step).reader.Sending?
    ensures s.reader.Sending? && step.OutputSent? && !step.failed ==> Next(s, step).reader.AtTest?
  {
  }

  /** An output, and its frame on the wire, come from a read that returned data, and from nothing else. */
  lemma FramesAdded(s: Session, step: Step)
    ensures Next(s, step).wire
            == s.wire + if step.OutputSent? && step.delivered && s.reader.Sending? then [Output]
                        else if step.CleanupResumes? && step.delivered && s.cleaning then [Closed]
                        else []
  {
  }

  /** The one late output does happen, so the bound above cannot be lowered. */
  lemma LateOutputHappens()
    ensures Exec(STARTED, [TestLoop, CloseCalled, CleanupResumes(true),
                          ReadReturns(true), OutputSent(true, false)]).wire
            == [Closed, Output]
  {
    var a := Next(STARTED, TestLoop);
    var b := Next(a, CloseCalled);
    var c := Next(b, CleanupResumes(true));
    var d := Next(c, ReadReturns(true));
    var e := Next(d, OutputSent(true, false));
    assert Exec(e, []) == e;
    assert Exec(d, [OutputSent(true, false)]) == e;
    assert Exec(c, [ReadReturns(true), OutputSent(true, false)]) == e;
    assert Exec(b, [CleanupResumes(true), ReadReturns(true), OutputSent(true, false)]) == e;
    assert Exec(a, [CloseCalled, CleanupResumes(true), ReadReturns(true), OutputSent(true, false)]) == e;
  }

  /** Once closed, a session never reopens its descriptor, whatever happens next. */
  lemma {:induction false} ClosedForGood(s: Session, steps: seq<Step>)
    requires Inv(s) && s.closed
    ensures Exec(s, steps).closed && !Exec(s, steps).fdOpen
    decreases |steps|
  {
    if steps != [] {
      InvStep(s, steps[0]);
      ClosedForGood(Next(s, steps[0]), steps[1..]);
    }
  }

  class TerminalSession {
    var closed: bool
    var hasFd: bool
    var cleaning: bool
    var reader: Reader
    ghost var fdOpen: bool
    ghost var wire: seq<Frame>
    ghost var fdCloses: nat
    ghost var signals: nat
    ghost var written: seq<string>
    ghost var strayWrites: nat

    ghost function View(): Session
      reads this
    {
      Session(closed, hasFd, cleaning, reader, fdOpen, wire, fdCloses, signals, written, strayWrites)
    }

    /** `__init__` and a `start` whose fork succeeded; `sized` if setting the window size did not raise. */
    constructor (sized: bool)
      ensures View() == if sized then STARTED else FORKED
    {
      closed, hasFd, cleaning, reader := false, true, false, if sized then AtTest else Unstarted;
      fdOpen, wire, fdCloses, signals, written, strayWrites := true, [], 0, 0, [], 0;
    }

    method WriteInput(data: string) returns (wrote: bool)
      modifies this
      ensures View() == Next(old(View()), Write(data))
      ensures wrote <==> hasFd && !closed
    {
      if !hasFd || closed {
        return false;
      }
      written := written + [data];
      if !fdOpen {
        strayWrites := strayWrites + 1;
      }
      return true;
    }

    method CleanupFirstPart() returns (mine: bool)
      modifies this
      ensures View() == BeginCleanup(old(View()))
      ensures mine <==> !old(closed)
    {
      if closed {
        return false;
      }
      closed := true;
      var fd := hasFd;
      hasFd := false;
      if fd {
        fdOpen := false;
        fdCloses := fdCloses + 1;
      }
      signals := signals + 1;
      cleaning := true;
      return true;
    }

    method CleanupLastPart(delivered: bool)
      requires cleaning
      modifies this
      ensures View() == Next(old(View()), CleanupResumes(delivered))
    {
      cleaning := false;
      if delivered {
        wire := wire + [Closed];
      }
    }

    method ReaderTest() returns (again: bool)
      requires reader.AtTest?
      modifies this
      ensures View() == Next(old(View()), TestLoop)
      ensures again <==> reader.Reading?
    {
      again := !closed && hasFd;
      reader := if again then Reading else Leaving;
    }

    method ReaderSent(delivered: bool, failed: bool)
      requires reader.Sending?
      modifies this
      ensures View() == Next(old(View()), OutputSent(delivered, failed))
    {
      if delivered {
        wire := wire + [Output];
      }
      reader := if failed then Leaving else AtTest;
    }
  }
}
