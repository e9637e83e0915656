/**
  The two-semaphore handoff of one shared buffer between a parent that reads lines and a
  child that prints them.  `lines` is the input, as the sizes and bytes that `getline`
  yields; both semaphores start at 0.
 */
module Handoff {
  import opened Sequences

  const BUFFER_SIZE: nat := 4092
  const WORD: nat := 0x1_0000_0000

  type Line = seq<Byte>

  /** What the child prints for one message. */
  datatype Entry = Entry(size: nat, content: seq<Byte>)

  datatype ParentPc =
    | Reading(i: nat)           // about to getline
    | StoringSize(i: nat)
    | Clearing(i: nat)          // memset
    | Copying(i: nat)           // memcpy
    | Posting(i: nat)           // sem_post(writeDone)
    | AwaitingRead(i: nat)      // sem_wait(readDone)
    | StoringZero
    | PostingLast
    | Joining                   // wait for the child to exit
    | ParentDone

  datatype ChildPc =
    | AwaitingWrite             // sem_wait(writeDone)
    | Checking                  // test of the size
    | PrintingSize
    | PrintingContent(size: nat)
    | PostingRead               // sem_post(readDone)
    | ChildDone

  datatype State = State(
    size: nat,
    buffer: seq<Byte>,
    writeDone: nat,
    readDone: nat,
    parent: ParentPc,
    child: ChildPc,
    log: seq<Entry>)

  /** The size of a line as the 32-bit field holds it. */
  function Stored(line: Line): nat
  {
    |line| % WORD
  }

  /** The buffer after memset and memcpy: the line cut to the buffer, then zeros. */
  function Fitted(line: Line): seq<Byte>
  {
    if |line| <= BUFFER_SIZE then line + Zeros(BUFFER_SIZE - |line|) else line[..BUFFER_SIZE]
  }

  function CopyInto(buffer: seq<Byte>, line: Line): seq<Byte>
  {
    var n := if |line| <= BUFFER_SIZE then |line| else BUFFER_SIZE;
    if n <= |buffer| then line[..n] + buffer[n..] else buffer
  }

  datatype Side = Parent | Child

  predicate Enabled(s: State, side: Side, lines: seq<Line>)
  {
    match side
    case Parent =>
      && !s.parent.ParentDone?
      && (s.parent.AwaitingRead? ==> s.readDone > 0)
      && (s.parent.Joining? ==> s.child.ChildDone?)
    case Child => !s.child.ChildDone? && (s.child.AwaitingWrite? ==> s.writeDone > 0)
  }

  function ParentNext(s: State, lines: seq<Line>): State
    requires Enabled(s, Parent, lines)
  {
    match s.parent
    case Reading(i) => s.(parent := if i < |lines| then StoringSize(i) else StoringZero)
    case StoringSize(i) => s.(size := if i < |lines| then Stored(lines[i]) else 0, parent := Clearing(i))
    case Clearing(i) => s.(buffer := Zeros(BUFFER_SIZE), parent := Copying(i))
    case Copying(i) =>
      s.(buffer := if i < |lines| then CopyInto(s.buffer, lines[i]) else s.buffer, parent := Posting(i))
    case Posting(i) => s.(writeDone := s.writeDone + 1, parent := AwaitingRead(i))
    case AwaitingRead(i) => s.(readDone := s.readDone - 1, parent := Reading(i + 1))
    case StoringZero => s.(size := 0, parent := PostingLast)
    case PostingLast => s.(writeDone := s.writeDone + 1, parent := Joining)
    case Joining => s.(parent := ParentDone)
  }

  function ChildNext(s: State, lines: seq<Line>): State
    requires Enabled(s, Child, lines)
  {
    match s.child
    case AwaitingWrite => s.(writeDone := s.writeDone - 1, child := Checking)
    case Checking => s.(child := if s.size == 0 then ChildDone else PrintingSize)
    case PrintingSize => s.(child := PrintingContent(s.size))
    case PrintingContent(size) => s.(log := s.log + [Entry(size, s.buffer)], child := PostingRead)
    case PostingRead => s.(readDone := s.readDone + 1, child := AwaitingWrite)
  }

  function Next(s: State, side: Side, lines: seq<Line>): State
    requires Enabled(s, side, lines)
  {
    match side
    case Parent => ParentNext(s, lines)
    case Child => ChildNext(s, lines)
  }

  function Init(): State
  {
    State(0, Zeros(BUFFER_SIZE), 0, 0, Reading(0), AwaitingWrite, [])
  }

  predicate Steps(s: State, side: Side, lines: seq<Line>, s': State)
  {
    Enabled(s, side, lines) && s' == Next(s, side, lines)
  }

  ghost predicate Run(lines: seq<Line>, schedule: seq<Side>, s: State)
    decreases |schedule|
  {
    if schedule == [] then
      s == Init()
    else
      var last := |schedule| - 1;
      exists s0 :: Run(lines, schedule[..last], s0) && Steps(s0, schedule[last], lines, s)
  }

  // ---------- The invariant ----------

  /** What the child prints for the first `n` lines. */
  function Entries(lines: seq<Line>, n: nat): seq<Entry>
    requires n <= |lines|
  {
    seq(n, i requires 0 <= i < n => Entry(Stored(lines[i]), Fitted(lines[i])))
  }

  /** None of the first `n` lines has a stored size of zero. */
  predicate NonZero(lines: seq<Line>, n: nat)
    requires n <= |lines|
  {
    forall i :: 0 <= i < n ==> Stored(lines[i]) != 0
  }

  /** The parent has the buffer: the child waits and both semaphores are down. */
  predicate ParentHas(s: State, lines: seq<Line>, i: nat)
  {
    && s.child.AwaitingWrite? && s.writeDone == 0 && s.readDone == 0
    && i <= |lines| && NonZero(lines, i) && s.log == Entries(lines, i)
  }

  /** Line `i` is in the buffer and the parent waits for it to be read. */
  predicate Handed(s: State, lines: seq<Line>, i: nat)
  {
    && i < |lines| && NonZero(lines, i)
    && s.size == Stored(lines[i]) && s.buffer == Fitted(lines[i])
    && match s.child
       case AwaitingWrite =>
         if s.writeDone == 1 then s.readDone == 0 && s.log == Entries(lines, i)
         else s.writeDone == 0 && s.readDone == 1 && s.size != 0 && s.log == Entries(lines, i + 1)
       case PostingRead => s.writeDone == 0 && s.readDone == 0 && s.size != 0 && s.log == Entries(lines, i + 1)
       case ChildDone => s.writeDone == 0 && s.readDone == 0 && s.size == 0 && s.log == Entries(lines, i)
       case Checking => s.writeDone == 0 && s.readDone == 0 && s.log == Entries(lines, i)
       case PrintingSize => s.writeDone == 0 && s.readDone == 0 && s.size != 0 && s.log == Entries(lines, i)
       case PrintingContent(size) =>
         s.writeDone == 0 && s.readDone == 0 && s.size != 0 && size == s.size && s.log == Entries(lines, i)
  }

  /** All lines are through and the parent has said so. */
  predicate Closing(s: State, lines: seq<Line>)
  {
    && NonZero(lines, |lines|) && s.log == Entries(lines, |lines|) && s.readDone == 0
    && match s.child
       case AwaitingWrite => s.writeDone == 1 && s.size == 0
       case Checking => s.writeDone == 0 && s.size == 0
       case ChildDone => s.writeDone == 0
       case _ => false
  }

  predicate Inv(s: State, lines: seq<Line>)
  {
    match s.parent
    case Reading(i) => ParentHas(s, lines, i)
    case StoringSize(i) => i < |lines| && ParentHas(s, lines, i)
    case Clearing(i) => i < |lines| && ParentHas(s, lines, i) && s.size == Stored(lines[i])
    case Copying(i) =>
      && i < |lines| && ParentHas(s, lines, i)
      && s.size == Stored(lines[i]) && s.buffer == Zeros(BUFFER_SIZE)
    case Posting(i) =>
      && i < |lines| && ParentHas(s, lines, i)
      && s.size == Stored(lines[i]) && s.buffer == Fitted(lines[i])
    case AwaitingRead(i) => Handed(s, lines, i)
    case StoringZero => ParentHas(s, lines, |lines|)
    case PostingLast => ParentHas(s, lines, |lines|) && s.size == 0
    case Joining => Closing(s, lines)
    case ParentDone => Closing(s, lines) && s.child.ChildDone?
  }

  lemma CopyFits(line: Line)
    ensures CopyInto(Zeros(BUFFER_SIZE), line) == Fitted(line)
  {
  }

  lemma EntriesGrow(lines: seq<Line>, n: nat)
    requires n < |lines|
    ensures Entries(lines, n + 1) == Entries(lines, n) + [Entry(Stored(lines[n]), Fitted(lines[n]))]
  {
  }

  lemma StepKeepsInv(s: State, side: Side, lines: seq<Line>)
    requires Inv(s, lines) && Enabled(s, side, lines)
    ensures Inv(Next(s, side, lines), lines)
  {
    if side.Parent? && s.parent.Copying? {
      CopyFits(lines[s.parent.i]);
    }
    if side.Child? && s.parent.AwaitingRead? {
      EntriesGrow(lines, s.parent.i);
    }
  }

  lemma {:induction false} RunKeepsInv(lines: seq<Line>, schedule: seq<Side>, s: State)
    requires Run(lines, schedule, s)
    ensures Inv(s, lines)
    decreases |schedule|
  {
    if schedule == [] {
      assert Entries(lines, 0) == [];
    } else {
      var last := |schedule| - 1;
      var s0 :| Run(lines, schedule[..last], s0) && Steps(s0, schedule[last], lines, s);
      RunKeepsInv(lines, schedule[..last], s0);
      StepKeepsInv(s0, schedule[last], lines);
    }
  }

  // ---------- Safety ----------

  predicate ParentTouches(pc: ParentPc)
  {
    pc.StoringSize? || pc.Clearing? || pc.Copying? || pc.StoringZero?
  }

  predicate ChildTouches(pc: ChildPc)
  {
    pc.Checking? || pc.PrintingSize? || pc.PrintingContent?
  }

  /** At most one semaphore is up, once, and parent and child are never both at the shared data. */
  lemma BufferIsExclusive(lines: seq<Line>, schedule: seq<Side>, s: State)
    requires Run(lines, schedule, s)
    ensures s.writeDone + s.readDone <= 1
    ensures !(ParentTouches(s.parent) && ChildTouches(s.child))
  {
    RunKeepsInv(lines, schedule, s);
  }

  lemma LogIsEntries(s: State, lines: seq<Line>) returns (n: nat)
    requires Inv(s, lines)
    ensures n <= |lines| && NonZero(lines, n) && s.log == Entries(lines, n)
  {
    match s.parent
    case Reading(i) => n := i;
    case StoringSize(i) => n := i;
    case Clearing(i) => n := i;
    case Copying(i) => n := i;
    case Posting(i) => n := i;
    case AwaitingRead(i) => n := |s.log|;
    case _ => n := |lines|;
  }

  /** The whole buffer as the child reads it: the first 4092 bytes of the line, then zeros. */
  predicate ShowsLine(content: seq<Byte>, line: Line)
  {
    |content| == 4092
    && forall b :: 0 <= b < 4092 ==> content[b] == if b < |line| then line[b] else 0
  }

  lemma FittedShows(line: Line)
    ensures ShowsLine(Fitted(line), line)
  {
  }

  /**
    What has been printed is the first lines, in order: for each its length modulo 2^32, which
    is not zero, and its first 4092 bytes.
   */
  lemma PrintedIsPrefix(lines: seq<Line>, schedule: seq<Side>, s: State)
    requires Run(lines, schedule, s)
    ensures |s.log| <= |lines|
    ensures forall i :: 0 <= i < |s.log| ==>
              s.log[i].size == |lines[i]| % 0x1_0000_0000 && s.log[i].size != 0 && ShowsLine(s.log[i].content, lines[i])
  {
    RunKeepsInv(lines, schedule, s);
    var n := LogIsEntries(s, lines);
    forall i | 0 <= i < |s.log| ensures ShowsLine(s.log[i].content, lines[i]) {
      FittedShows(lines[i]);
    }
  }

  // ---------- Termination and exit ----------

  function ParentWork(pc: ParentPc, n: nat): nat
  {
    match pc
    case Reading(i) => if i <= n then 7 * (n - i) + 5 else 0
    case StoringSize(i) => if i <= n then 7 * (n - i) + 4 else 0
    case Clearing(i) => if i <= n then 7 * (n - i) + 3 else 0
    case Copying(i) => if i <= n then 7 * (n - i) + 2 else 0
    case Posting(i) => if i <= n then 7 * (n - i) + 1 else 0
    case AwaitingRead(i) => if i <= n then 7 * (n - i) else 0
    case StoringZero => 4
    case PostingLast => 3
    case Joining => 2
    case ParentDone => 0
  }

  function ChildWork(pc: ChildPc): nat
  {
    match pc
    case Checking => 5
    case PrintingSize => 4
    case PrintingContent(_) => 3
    case PostingRead => 2
    case AwaitingWrite => 1
    case ChildDone => 0
  }

  function Measure(s: State, n: nat): nat
  {
    10 * ParentWork(s.parent, n) + ChildWork(s.child) + 5 * s.writeDone
  }

  lemma StepDecreases(s: State, side: Side, lines: seq<Line>)
    requires Inv(s, lines) && Enabled(s, side, lines)
    ensures Measure(Next(s, side, lines), |lines|) < Measure(s, |lines|)
  {
  }

  predicate Stuck(s: State, lines: seq<Line>)
  {
    !Enabled(s, Parent, lines) && !Enabled(s, Child, lines)
  }

  predicate BothExited(s: State)
  {
    s.parent.ParentDone? && s.child.ChildDone?
  }

  ghost predicate Reachable(lines: seq<Line>, s: State)
  {
    exists schedule :: Run(lines, schedule, s)
  }

  /** `n` is the number of lines before the first whose length is a multiple of 2^32, as 0 is. */
  predicate FirstZero(lines: seq<Line>, n: nat)
  {
    && n <= |lines|
    && (forall i :: 0 <= i < n ==> |lines[i]| % 0x1_0000_0000 != 0)
    && (n < |lines| ==> |lines[n]| % 0x1_0000_0000 == 0)
  }

  /**
    Every run ends in the same way: all lines before the first of stored size zero printed,
    the child gone, and the parent gone too if and only if there is no such line.
   */
  lemma StuckIsExact(lines: seq<Line>, s: State, n: nat)
    requires Reachable(lines, s) && Stuck(s, lines) && FirstZero(lines, n)
    ensures s.log == Entries(lines, n) && s.child.ChildDone?
    ensures s.parent == if n == |lines| then ParentDone else AwaitingRead(n)
  {
    var schedule :| Run(lines, schedule, s);
    RunKeepsInv(lines, schedule, s);
  }

  /** Any scheduler brings the two to such an end, within a bound on its steps. */
  lemma {:induction false} EveryScheduleEnds(lines: seq<Line>, schedule: seq<Side>, s: State)
    requires Run(lines, schedule, s)
    ensures |schedule| + Measure(s, |lines|) <= 70 * |lines| + 51
    decreases |schedule|
  {
    if schedule != [] {
      var last := |schedule| - 1;
      var s0 :| Run(lines, schedule[..last], s0) && Steps(s0, schedule[last], lines, s);
      EveryScheduleEnds(lines, schedule[..last], s0);
      RunKeepsInv(lines, schedule[..last], s0);
      StepDecreases(s0, schedule[last], lines);
    }
  }

  lemma {:induction false} RunToStuck(lines: seq<Line>, s: State) returns (s': State)
    requires Reachable(lines, s)
    ensures Reachable(lines, s') && Stuck(s', lines)
    decreases Measure(s, |lines|)
  {
    if Stuck(s, lines) {
      s' := s;
    } else {
      var side := if Enabled(s, Parent, lines) then Parent else Child;
      var schedule :| Run(lines, schedule, s);
      RunKeepsInv(lines, schedule, s);
      StepDecreases(s, side, lines);
      assert (schedule + [side])[..|schedule|] == schedule;
      assert Steps(s, side, lines, Next(s, side, lines));
      assert Run(lines, schedule + [side], Next(s, side, lines));
      s' := RunToStuck(lines, Next(s, side, lines));
    }
  }

  lemma {:induction false} FindFirstZero(lines: seq<Line>, from: nat) returns (n: nat)
    requires from <= |lines| && NonZero(lines, from)
    ensures FirstZero(lines, n)
    decreases |lines| - from
  {
    if from == |lines| || Stored(lines[from]) == 0 {
      n := from;
    } else {
      n := FindFirstZero(lines, from + 1);
    }
  }

  /** Parent and child both exit in every run if and only if no line has stored size zero. */
  lemma BothExitIffNoZeroLine(lines: seq<Line>)
    ensures (forall s :: Reachable(lines, s) && Stuck(s, lines) ==> BothExited(s))
            <==> forall i :: 0 <= i < |lines| ==> |lines[i]| % 0x1_0000_0000 != 0
  {
    var n := FindFirstZero(lines, 0);
    assert Run(lines, [], Init());
    var s := RunToStuck(lines, Init());
    StuckIsExact(lines, s, n);
    forall s' | Reachable(lines, s') && Stuck(s', lines)
      ensures BothExited(s') <==> n == |lines|
    {
      StuckIsExact(lines, s', n);
    }
  }

  /** No line is too long for its length to fit the 32-bit field. */
  predicate AllShort(lines: seq<Line>)
  {
    forall i :: 0 <= i < |lines| ==> |lines[i]| < 0x1_0000_0000
  }

  /** `n` is the number of lines before the first empty one. */
  predicate FirstEmpty(lines: seq<Line>, n: nat)
  {
    n <= |lines| && (forall i :: 0 <= i < n ==> lines[i] != []) && (n < |lines| ==> lines[n] == [])
  }

  /**
    With lines that fit the field, every run ends with exactly the lines before the first empty
    one printed, each with its own length, the child gone, and the parent gone too if and only
    if no line is empty.
   */
  lemma EmptyLineEndsIt(lines: seq<Line>, s: State, n: nat)
    requires AllShort(lines) && Reachable(lines, s) && Stuck(s, lines) && FirstEmpty(lines, n)
    ensures |s.log| == n
    ensures forall i :: 0 <= i < n ==> s.log[i].size == |lines[i]| && ShowsLine(s.log[i].content, lines[i])
    ensures s.child.ChildDone? && s.parent == if n == |lines| then ParentDone else AwaitingRead(n)
    ensures BothExited(s) <==> forall i :: 0 <= i < |lines| ==> lines[i] != []
  {
    assert FirstZero(lines, n);
    StuckIsExact(lines, s, n);
    var schedule :| Run(lines, schedule, s);
    PrintedIsPrefix(lines, schedule, s);
  }
}
