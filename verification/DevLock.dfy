/** The cooperative upgrade lock around the device (device/dev_lock.rs), as a step
    system over any number of threads.  Each step is one lock, condition-variable
    or flag operation of `read` or `try_writeable`; an upgrade begins holding a
    read lock.  The inner lock favours writers: once a writer waits, no reader
    gets in. */
module DevLock {

  datatype Pc =
    | Outside       // holds nothing
    | ReadStart     // read(): asks for the mutex
    | ReadCheck     // holds the mutex, looks at wants_write
    | ReadWait      // asleep on the condition variable
    | ReadWake      // woken, asks for the mutex again
    | ReadInner     // holds the mutex, asks for the inner read lock
    | Reading       // holds the inner read lock
    | UpStart       // try_writeable(): holds the read lock, asks for the mutex
    | UpUnlock      // holds read lock and mutex, gives up the read lock
    | UpCheck       // holds the mutex, looks at wants_write
    | UpWait        // asleep on the condition variable
    | UpWake        // woken, asks for the mutex again
    | UpRaised      // has raised wants_write, still holds the mutex
    | UpRelock      // asks for the read lock again
    | Prep          // holds the read lock, runs prep_func
    | WantWrite     // has given up the read lock, asks for the write lock
    | AwaitReaders  // first in line as writer, waits for the readers to leave
    | Writing       // holds the write lock, runs mut_func
    | UpReread      // has given up the write lock, asks for the read lock
    | LowerStart    // holds the read lock, asks for the mutex
    | Lower         // holds read lock and mutex: lowers wants_write, wakes everyone

  predicate HoldsMutex(pc: Pc) {
    pc.ReadCheck? || pc.ReadInner? || pc.UpUnlock? || pc.UpCheck? || pc.UpRaised? || pc.Lower?
  }

  predicate HoldsRead(pc: Pc) {
    pc.Reading? || pc.UpStart? || pc.UpUnlock? || pc.Prep? || pc.LowerStart? || pc.Lower?
  }

  /** Holds the write lock or waits for it at the head of the line. */
  predicate IsWriter(pc: Pc) {
    pc.AwaitReaders? || pc.Writing?
  }

  /** Between raising and lowering `wants_write`. */
  predicate Upgrading(pc: Pc) {
    || pc.UpRaised? || pc.UpRelock? || pc.Prep? || pc.WantWrite? || pc.AwaitReaders? || pc.Writing?
    || pc.UpReread? || pc.LowerStart? || pc.Lower?
  }

  /** From `prep_func` until the write is done. */
  predicate Committed(pc: Pc) {
    pc.Prep? || pc.WantWrite? || pc.AwaitReaders? || pc.Writing?
  }

  predicate Asleep(pc: Pc) {
    pc.ReadWait? || pc.UpWait?
  }

  predicate WantsMutex(pc: Pc) {
    pc.ReadStart? || pc.ReadWake? || pc.UpStart? || pc.UpWake? || pc.LowerStart?
  }

  predicate WantsRead(pc: Pc) {
    pc.ReadInner? || pc.UpRelock? || pc.UpReread?
  }

  /** Inside a call of `read` or `try_writeable`. */
  predicate InCall(pc: Pc) {
    pc != Outside && pc != Reading
  }

  datatype Mutex = Free | HeldBy(thread: nat)

  /** `version` counts the writes to the protected value; `seen[i]` is the
      version thread `i` saw when its `prep_func` ran. */
  datatype Lock = Lock(pcs: seq<Pc>, mutex: Mutex, wantsWrite: bool, version: nat, seen: seq<nat>)

  predicate WellFormed(l: Lock) {
    |l.pcs| == |l.seen|
  }

  predicate MutexFree(l: Lock) {
    l.mutex == Free
  }

  predicate ReadFree(l: Lock) {
    forall i :: 0 <= i < |l.pcs| ==> !IsWriter(l.pcs[i])
  }

  predicate NoReaders(l: Lock) {
    forall i :: 0 <= i < |l.pcs| ==> !HoldsRead(l.pcs[i])
  }

  /** Thread `i` is not blocked. */
  predicate Enabled(l: Lock, i: nat)
    requires i < |l.pcs|
  {
    var pc := l.pcs[i];
    && !Asleep(pc)
    && (WantsMutex(pc) ==> MutexFree(l))
    && (WantsRead(pc) ==> ReadFree(l))
    && (pc == WantWrite ==> ReadFree(l))
    && (pc == AwaitReaders ==> NoReaders(l))
  }

  function Woken(pc: Pc): Pc {
    if pc == ReadWait then ReadWake else if pc == UpWait then UpWake else pc
  }

  function WakeAll(pcs: seq<Pc>): seq<Pc> {
    seq(|pcs|, i requires 0 <= i < |pcs| => Woken(pcs[i]))
  }

  function At(l: Lock, i: nat, pc: Pc): Lock
    requires i < |l.pcs|
  {
    l.(pcs := l.pcs[i := pc])
  }

  /** One step of thread `i`; `choice` decides what a thread outside both calls
      does next.  A blocked thread stays where it is. */
  function Step(l: Lock, i: nat, choice: bool): Lock
    requires WellFormed(l) && i < |l.pcs|
  {
    if !Enabled(l, i) then l
    else
      match l.pcs[i]
      case Outside => At(l, i, ReadStart)
      case ReadStart => At(l, i, ReadCheck).(mutex := HeldBy(i))
      case ReadWake => At(l, i, ReadCheck).(mutex := HeldBy(i))
      case ReadCheck => if l.wantsWrite then At(l, i, ReadWait).(mutex := Free) else At(l, i, ReadInner)
      case ReadInner => At(l, i, Reading).(mutex := Free)
      case Reading => At(l, i, if choice then UpStart else Outside)
      case UpStart => At(l, i, UpUnlock).(mutex := HeldBy(i))
      case UpUnlock => At(l, i, UpCheck)
      case UpWake => At(l, i, UpCheck).(mutex := HeldBy(i))
      case UpCheck =>
        if l.wantsWrite then At(l, i, UpWait).(mutex := Free) else At(l, i, UpRaised).(wantsWrite := true)
      case UpRaised => At(l, i, UpRelock).(mutex := Free)
      case UpRelock => At(l, i, Prep).(seen := l.seen[i := l.version])
      case Prep => At(l, i, WantWrite)
      case WantWrite => At(l, i, AwaitReaders)
      case AwaitReaders => At(l, i, Writing)
      case Writing => At(l, i, UpReread).(version := l.version + 1)
      case UpReread => At(l, i, LowerStart)
      case LowerStart => At(l, i, Lower).(mutex := HeldBy(i))
      case Lower => l.(pcs := WakeAll(l.pcs[i := Reading]), mutex := Free, wantsWrite := false)
  }

  /** A new lock shared by `n` threads. */
  function New(n: nat): Lock {
    Lock(seq(n, _ => Outside), Free, false, 0, seq(n, _ => 0))
  }

  datatype Turn = Turn(thread: nat, choice: bool)

  function Run(n: nat, turns: seq<Turn>): (l: Lock)
    requires forall t :: t in turns ==> t.thread < n
    ensures |l.pcs| == |l.seen| == n
  {
    if turns == [] then New(n)
    else Step(Run(n, turns[..|turns| - 1]), turns[|turns| - 1].thread, turns[|turns| - 1].choice)
  }

  // ---------------------------------------------------------------- the invariant

  ghost predicate MutexInv(l: Lock) {
    forall i :: 0 <= i < |l.pcs| ==> (HoldsMutex(l.pcs[i]) <==> l.mutex == HeldBy(i))
  }

  ghost predicate FlagInv(l: Lock) {
    && (l.wantsWrite ==> exists i :: 0 <= i < |l.pcs| && Upgrading(l.pcs[i]))
    && (forall i :: 0 <= i < |l.pcs| && Upgrading(l.pcs[i]) ==> l.wantsWrite)
    && (forall i, j :: 0 <= i < j < |l.pcs| ==> !(Upgrading(l.pcs[i]) && Upgrading(l.pcs[j])))
    && (forall i :: 0 <= i < |l.pcs| && l.pcs[i] == ReadInner ==> !l.wantsWrite)
    && (forall i :: 0 <= i < |l.pcs| && Asleep(l.pcs[i]) ==> l.wantsWrite)
  }

  ghost predicate ExclusionInv(l: Lock)
    requires WellFormed(l)
  {
    && (forall i, j :: 0 <= i < |l.pcs| && 0 <= j < |l.pcs| && l.pcs[i] == Writing ==> !HoldsRead(l.pcs[j]))
    && (forall i :: 0 <= i < |l.pcs| && Committed(l.pcs[i]) ==> l.seen[i] == l.version)
  }

  ghost predicate Inv(l: Lock) {
    && WellFormed(l)
    && (l.mutex.HeldBy? ==> l.mutex.thread < |l.pcs|)
    && MutexInv(l) && FlagInv(l) && ExclusionInv(l)
  }

  // Most steps move one thread; the three parts of the invariant each depend on
  // little of where it moves.

  lemma MoveKeepsMutex(l: Lock, l': Lock, i: nat, q: Pc)
    requires Inv(l) && i < |l.pcs| && l'.pcs == l.pcs[i := q]
    requires || (l'.mutex == l.mutex && (HoldsMutex(q) <==> HoldsMutex(l.pcs[i])))
             || (l.mutex == Free && l'.mutex == HeldBy(i) && HoldsMutex(q))
             || (l'.mutex == Free && HoldsMutex(l.pcs[i]) && !HoldsMutex(q))
    ensures MutexInv(l')
  {
  }

  lemma MoveKeepsFlag(l: Lock, l': Lock, i: nat, q: Pc)
    requires Inv(l) && i < |l.pcs| && l'.pcs == l.pcs[i := q] && l'.wantsWrite == l.wantsWrite
    requires Upgrading(q) <==> Upgrading(l.pcs[i])
    requires q.ReadInner? ==> !l.wantsWrite
    requires Asleep(q) ==> l.wantsWrite
    ensures FlagInv(l')
  {
    if l.wantsWrite {
      var u :| 0 <= u < |l.pcs| && Upgrading(l.pcs[u]);
      assert Upgrading(l'.pcs[u]);
    }
  }

  lemma RaiseKeepsFlag(l: Lock, l': Lock, i: nat)
    requires Inv(l) && i < |l.pcs| && l.pcs[i].UpCheck? && !l.wantsWrite
    requires l'.pcs == l.pcs[i := UpRaised] && l'.wantsWrite
    ensures FlagInv(l')
  {
    assert Upgrading(l'.pcs[i]);
    forall j | 0 <= j < |l.pcs| && l.pcs[j].ReadInner? ensures false {
      assert HoldsMutex(l.pcs[i]) && HoldsMutex(l.pcs[j]);
    }
  }

  lemma MoveKeepsExclusion(l: Lock, l': Lock, i: nat, q: Pc)
    requires Inv(l) && i < |l.pcs| && l'.pcs == l.pcs[i := q] && l'.version == l.version
    requires HoldsRead(q) ==> HoldsRead(l.pcs[i]) || ReadFree(l)
    requires q.Writing? ==> l.pcs[i].Writing? || NoReaders(l)
    requires (l'.seen == l.seen && (Committed(q) ==> Committed(l.pcs[i]))) || l'.seen == l.seen[i := l.version]
    ensures WellFormed(l') && ExclusionInv(l')
  {
  }

  lemma WriteKeepsExclusion(l: Lock, l': Lock, i: nat)
    requires Inv(l) && i < |l.pcs| && l.pcs[i].Writing?
    requires l'.pcs == l.pcs[i := UpReread] && l'.seen == l.seen
    ensures WellFormed(l') && ExclusionInv(l')
  {
    forall j | 0 <= j < |l.pcs| && j != i ensures !Upgrading(l.pcs[j]) {
    }
  }

  lemma LowerKeepsInv(l: Lock, i: nat)
    requires Inv(l) && i < |l.pcs| && l.pcs[i].Lower?
    ensures Inv(Step(l, i, true))
  {
    var l' := Step(l, i, true);
    forall j | 0 <= j < |l.pcs| && j != i
      ensures !Upgrading(l'.pcs[j]) && !HoldsMutex(l'.pcs[j]) && !Asleep(l'.pcs[j]) && !l'.pcs[j].ReadInner?
    {
      assert !HoldsMutex(l.pcs[j]) && !Upgrading(l.pcs[j]);
    }
  }

  /** The shape of every step but the last of an upgrade. */
  predicate MutexMove(l: Lock, l': Lock, i: nat, q: Pc)
    requires i < |l.pcs|
  {
    || (l'.mutex == l.mutex && (HoldsMutex(q) <==> HoldsMutex(l.pcs[i])))
    || (l.mutex == Free && l'.mutex == HeldBy(i) && HoldsMutex(q))
    || (l'.mutex == Free && HoldsMutex(l.pcs[i]) && !HoldsMutex(q))
  }

  predicate FlagMove(l: Lock, l': Lock, i: nat, q: Pc)
    requires i < |l.pcs|
  {
    if l.pcs[i].UpCheck? && !l.wantsWrite then q.UpRaised? && l'.wantsWrite
    else
      && l'.wantsWrite == l.wantsWrite
      && (Upgrading(q) <==> Upgrading(l.pcs[i]))
      && (q.ReadInner? ==> !l.wantsWrite)
      && (Asleep(q) ==> l.wantsWrite)
  }

  predicate DataMove(l: Lock, l': Lock, i: nat, q: Pc)
    requires i < |l.pcs| && WellFormed(l)
  {
    if l.pcs[i].Writing? then q.UpReread? && l'.seen == l.seen
    else
      && l'.version == l.version
      && (HoldsRead(q) ==> HoldsRead(l.pcs[i]) || ReadFree(l))
      && (q.Writing? ==> NoReaders(l))
      && ((l'.seen == l.seen && (Committed(q) ==> Committed(l.pcs[i]))) || l'.seen == l.seen[i := l.version])
  }

  lemma StepMovesOne(l: Lock, i: nat, choice: bool)
    requires WellFormed(l) && i < |l.pcs| && Enabled(l, i) && !l.pcs[i].Lower?
    ensures var l' := Step(l, i, choice); |l'.pcs| == |l.pcs| && l'.pcs == l.pcs[i := l'.pcs[i]]
  {
  }

  lemma StepMovesMutex(l: Lock, i: nat, choice: bool)
    requires WellFormed(l) && i < |l.pcs| && Enabled(l, i) && !l.pcs[i].Lower?
    ensures var l' := Step(l, i, choice);
            && |l'.pcs| == |l.pcs|
            && (l'.mutex == l.mutex || l'.mutex == Free || l'.mutex == HeldBy(i))
            && MutexMove(l, l', i, l'.pcs[i])
  {
  }

  lemma StepMovesFlag(l: Lock, i: nat, choice: bool)
    requires WellFormed(l) && i < |l.pcs| && Enabled(l, i) && !l.pcs[i].Lower?
    ensures var l' := Step(l, i, choice); |l'.pcs| == |l.pcs| && FlagMove(l, l', i, l'.pcs[i])
  {
  }

  lemma StepMovesData(l: Lock, i: nat, choice: bool)
    requires WellFormed(l) && i < |l.pcs| && Enabled(l, i) && !l.pcs[i].Lower?
    ensures var l' := Step(l, i, choice); |l'.pcs| == |l.pcs| && DataMove(l, l', i, l'.pcs[i])
  {
  }

  lemma StepKeepsInv(l: Lock, i: nat, choice: bool)
    requires Inv(l) && i < |l.pcs|
    ensures Inv(Step(l, i, choice))
  {
    if !Enabled(l, i) {
    } else if l.pcs[i].Lower? {
      LowerKeepsInv(l, i);
    } else {
      StepMovesOne(l, i, choice);
      StepMovesMutex(l, i, choice);
      StepMovesFlag(l, i, choice);
      StepMovesData(l, i, choice);
      MovedKeepsInv(l, Step(l, i, choice), i);
    }
  }

  lemma MovedKeepsInv(l: Lock, l': Lock, i: nat)
    requires Inv(l) && i < |l.pcs| && |l'.pcs| == |l.pcs| && l'.pcs == l.pcs[i := l'.pcs[i]]
    requires l'.mutex == l.mutex || l'.mutex == Free || l'.mutex == HeldBy(i)
    requires MutexMove(l, l', i, l'.pcs[i]) && FlagMove(l, l', i, l'.pcs[i]) && DataMove(l, l', i, l'.pcs[i])
    ensures Inv(l')
  {
    var q := l'.pcs[i];
    MoveKeepsMutex(l, l', i, q);
    if l.pcs[i].UpCheck? && !l.wantsWrite {
      RaiseKeepsFlag(l, l', i);
    } else {
      MoveKeepsFlag(l, l', i, q);
    }
    if l.pcs[i].Writing? {
      WriteKeepsExclusion(l, l', i);
    } else {
      MoveKeepsExclusion(l, l', i, q);
    }
  }

  lemma {:induction false} RunKeepsInv(n: nat, turns: seq<Turn>)
    requires forall t :: t in turns ==> t.thread < n
    ensures Inv(Run(n, turns))
  {
    if turns != [] {
      var last := turns[|turns| - 1];
      assert last in turns;
      RunKeepsInv(n, turns[..|turns| - 1]);
      StepKeepsInv(Run(n, turns[..|turns| - 1]), last.thread, last.choice);
    }
  }

  /** Over every run of any number of threads: at most one thread is between
      raising and lowering the flag; with the flag down nobody holds or awaits the
      write lock, so `read` never blocks on the inner lock while it holds the
      mutex; the writer is alone; nothing is written between a thread's
      `prep_func` and its `mut_func`; and nobody sleeps with the flag down. */
  lemma LockSafety(n: nat, turns: seq<Turn>)
    requires forall t :: t in turns ==> t.thread < n
    ensures var l := Run(n, turns);
            && (forall i, j :: 0 <= i < j < n ==> !(Upgrading(l.pcs[i]) && Upgrading(l.pcs[j])))
            && (forall i :: 0 <= i < n && !l.wantsWrite ==>
                !IsWriter(l.pcs[i]) && !l.pcs[i].WantWrite? && !Asleep(l.pcs[i]))
            && (forall i :: 0 <= i < n && l.pcs[i].ReadInner? ==> Enabled(l, i))
            && (forall i, j :: 0 <= i < n && 0 <= j < n && l.pcs[i].Writing? ==>
                !HoldsRead(l.pcs[j]) && (j != i ==> !l.pcs[j].Writing?))
            && (forall i :: 0 <= i < n && Committed(l.pcs[i]) ==> l.seen[i] == l.version)
  {
    RunKeepsInv(n, turns);
  }

  /** A thread that holds the mutex is never blocked. */
  lemma HolderEnabled(l: Lock, i: nat)
    requires Inv(l) && i < |l.pcs| && HoldsMutex(l.pcs[i])
    ensures Enabled(l, i) && InCall(l.pcs[i])
  {
  }

  /** The one upgrading thread is blocked only by readers that have not left. */
  lemma UpgraderEnabled(l: Lock, u: nat)
    requires Inv(l) && l.mutex == Free && u < |l.pcs| && Upgrading(l.pcs[u])
    requires l.pcs[u].AwaitReaders? ==> NoReaders(l)
    ensures Enabled(l, u) && InCall(l.pcs[u])
  {
    if WantsRead(l.pcs[u]) || l.pcs[u].WantWrite? {
      forall j | 0 <= j < |l.pcs| ensures !IsWriter(l.pcs[j]) {
        if j != u {
          assert !Upgrading(l.pcs[j]);
        }
      }
    }
  }

  /** A reader waited for is either outside both calls or can take a step. */
  lemma AwaitedReader(l: Lock, u: nat, r: nat)
    requires Inv(l) && l.mutex == Free && u < |l.pcs| && l.pcs[u].AwaitReaders?
    requires r < |l.pcs| && HoldsRead(l.pcs[r])
    ensures l.pcs[r].Reading? || (l.pcs[r].UpStart? && Enabled(l, r))
  {
    assert r != u && Upgrading(l.pcs[u]);
    assert !Upgrading(l.pcs[r]);
    assert !HoldsMutex(l.pcs[r]);
  }

  /** No deadlock: while some thread is inside a call, some thread inside a call
      can move, or the one upgrader waits for threads that hold the read lock at
      their own leisure, and for nothing else.  Competing upgraders never block
      each other. */
  lemma NoDeadlock(n: nat, turns: seq<Turn>, i: nat)
    requires forall t :: t in turns ==> t.thread < n
    requires i < n && InCall(Run(n, turns).pcs[i])
    ensures var l := Run(n, turns);
            || (exists j :: 0 <= j < n && InCall(l.pcs[j]) && Enabled(l, j))
            || (&& (exists u :: 0 <= u < n && l.pcs[u].AwaitReaders?)
                && (exists r :: 0 <= r < n && l.pcs[r].Reading?)
                && (forall r :: 0 <= r < n && HoldsRead(l.pcs[r]) ==> l.pcs[r].Reading?))
  {
    var l := Run(n, turns);
    RunKeepsInv(n, turns);
    if l.mutex.HeldBy? {
      assert HoldsMutex(l.pcs[l.mutex.thread]);
      HolderEnabled(l, l.mutex.thread);
    } else if Enabled(l, i) {
    } else {
      // Blocked without the mutex being held: asleep, or waiting for the inner
      // lock; either way someone is upgrading.
      assert l.wantsWrite;
      var u :| 0 <= u < n && Upgrading(l.pcs[u]);
      if l.pcs[u].AwaitReaders? && !NoReaders(l) {
        if !(forall r :: 0 <= r < n && HoldsRead(l.pcs[r]) ==> l.pcs[r].Reading?) {
          var r :| 0 <= r < n && HoldsRead(l.pcs[r]) && !l.pcs[r].Reading?;
          AwaitedReader(l, u, r);
        }
      } else {
        UpgraderEnabled(l, u);
      }
    }
  }

  // ---------------------------------------------------------------- what a step does

  /** A thread that does not move is at most woken. */
  lemma OthersStay(l: Lock, i: nat, choice: bool, j: nat)
    requires WellFormed(l) && i < |l.pcs| && j < |l.pcs| && i != j
    ensures var l' := Step(l, i, choice);
            && |l'.pcs| == |l'.seen| == |l.pcs|
            && l'.pcs[j] in {l.pcs[j], Woken(l.pcs[j])} && l'.seen[j] == l.seen[j]
  {
  }

  /** What the moving thread does to the value: it is written exactly on leaving
      `mut_func`, and its version is taken exactly on entering `prep_func`. */
  lemma MoverEffects(l: Lock, i: nat, choice: bool)
    requires WellFormed(l) && i < |l.pcs|
    ensures var l' := Step(l, i, choice);
            && |l'.pcs| == |l'.seen| == |l.pcs|
            && l'.version == l.version + (if l.pcs[i].Writing? && !l'.pcs[i].Writing? then 1 else 0)
            && l'.seen[i] == (if l'.pcs[i].Prep? && !l.pcs[i].Prep? then l.version else l.seen[i])
            && (l.pcs[i].Writing? ==> l'.pcs[i].UpReread?)
  {
  }

  /** A reader gets in only while nobody writes or waits to. */
  lemma ReaderEnters(l: Lock, i: nat, choice: bool)
    requires WellFormed(l) && i < |l.pcs|
    ensures var l' := Step(l, i, choice);
            && |l'.pcs| == |l.pcs|
            && (l'.pcs[i] in {Reading, Prep, LowerStart} && l.pcs[i] in {ReadInner, UpRelock, UpReread} ==>
                forall j :: 0 <= j < |l.pcs| ==> l.pcs[j] != AwaitReaders && l.pcs[j] != Writing)
  {
    assert forall j :: 0 <= j < |l.pcs| && !IsWriter(l.pcs[j]) ==> l.pcs[j] != AwaitReaders && l.pcs[j] != Writing;
  }

  /** A writer gets in only when no reader is left, and an upgrade starts only while
      no other is under way. */
  lemma WriterEnters(l: Lock, i: nat, choice: bool)
    requires WellFormed(l) && i < |l.pcs|
    ensures var l' := Step(l, i, choice);
            && |l'.pcs| == |l.pcs|
            && (l'.pcs[i] == Writing && l.pcs[i] != Writing ==>
                forall j :: 0 <= j < |l.pcs| ==>
                  l.pcs[j] !in {Reading, UpStart, UpUnlock, Prep, LowerStart, Lower})
            && (l'.pcs[i] == UpRaised && l.pcs[i] != UpRaised ==> !l.wantsWrite && l'.wantsWrite)
  {
    assert forall j :: 0 <= j < |l.pcs| && !HoldsRead(l.pcs[j]) ==>
             l.pcs[j] !in {Reading, UpStart, UpUnlock, Prep, LowerStart, Lower};
  }

  /** How often a thread left `mut_func` in a run. */
  function Writes(n: nat, turns: seq<Turn>): nat
    requires forall t :: t in turns ==> t.thread < n
  {
    if turns == [] then 0
    else
      var before, i := turns[..|turns| - 1], turns[|turns| - 1].thread;
      assert turns[|turns| - 1] in turns;
      Writes(n, before) +
      if Run(n, before).pcs[i].Writing? && !Run(n, turns).pcs[i].Writing? then 1 else 0
  }

  /** Over every run the version a thread compares is the number of writes made. */
  lemma {:induction false} VersionCountsWrites(n: nat, turns: seq<Turn>)
    requires forall t :: t in turns ==> t.thread < n
    ensures Run(n, turns).version == Writes(n, turns)
  {
    if turns != [] {
      var before, last := turns[..|turns| - 1], turns[|turns| - 1];
      assert last in turns;
      VersionCountsWrites(n, before);
      MoverEffects(Run(n, before), last.thread, last.choice);
    }
  }
}
